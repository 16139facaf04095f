/** The reader turns a worksheet into the rows the diagram is built from.
    Row 1 holds the headers, read left to right up to the first blank
    cell; every later row is read over the header columns, until the first
    row whose cells are all blank, and turned into a header-indexed row of
    the interesting headers only. The worksheet is a value here: the cells
    the spreadsheet application would return for a range. */
module Reader {
  import opened Values

  /** A cell as the spreadsheet returns it. A float carries the integer
      that `to_i` truncates it to. */
  datatype Cell = Blank | Text(s: string) | IntCell(i: int) | FloatCell(truncated: int)

  /** What reading raises: a method called on a value without it, or a
      range string the spreadsheet does not accept. */
  datatype ReadError = NoMethodError(selector: string) | RangeError(range: string)

  /** The worksheet: `rows[r - 1][c]` is the cell in row `r` (counted from
      1) and column `c` (counted from 0); every other cell is blank. */
  datatype Sheet = Sheet(rows: seq<seq<Cell>>)

  function CellAt(sheet: Sheet, column: nat, row: nat): Cell {
    if 1 <= row <= |sheet.rows| && column < |sheet.rows[row - 1]| then sheet.rows[row - 1][column] else Blank
  }

  // --- Column names ---

  predicate IsUpper(c: char) {
    'A' <= c <= 'Z'
  }

  /** A column name: one or more upper-case letters. */
  predicate ColumnLetters(s: string) {
    s != [] && forall i :: 0 <= i < |s| ==> IsUpper(s[i])
  }

  function Letter(d: nat): char
    requires d < 26
  {
    ((('A' as int) + d) as char)
  }

  function LetterValue(c: char): (d: nat)
    requires IsUpper(c)
    ensures d < 26
  {
    c as int - 'A' as int
  }

  /** The name of the column with index `n`: "A" to "Z", then "AA", "AB",
      and so on. */
  function ColumnName(n: nat): string {
    if n < 26 then [Letter(n)] else ColumnName(n / 26 - 1) + [Letter(n % 26)]
  }

  /** The index of a named column. */
  function ColumnIndex(s: string): nat
    requires ColumnLetters(s)
  {
    if |s| == 1 then LetterValue(s[0])
    else
      assert ColumnLetters(s[..|s| - 1]) by {
        assert forall i :: 0 <= i < |s| - 1 ==> s[..|s| - 1][i] == s[i];
      }
      (ColumnIndex(s[..|s| - 1]) + 1) * 26 + LetterValue(s[|s| - 1])
  }

  lemma {:induction false} ColumnNameLetters(n: nat)
    ensures ColumnLetters(ColumnName(n))
  {
    if n >= 26 {
      ColumnNameLetters(n / 26 - 1);
    }
  }

  /** Every index has a name and every name an index, and the two
      correspond one to one. */
  lemma {:induction false} ColumnIndexOfName(n: nat)
    ensures ColumnLetters(ColumnName(n)) && ColumnIndex(ColumnName(n)) == n
  {
    ColumnNameLetters(n);
    if n >= 26 {
      var s := ColumnName(n);
      ColumnIndexOfName(n / 26 - 1);
      assert s[..|s| - 1] == ColumnName(n / 26 - 1);
    }
  }

  lemma {:induction false} ColumnNameOfIndex(s: string)
    requires ColumnLetters(s)
    ensures ColumnName(ColumnIndex(s)) == s
  {
    if |s| > 1 {
      var front := s[..|s| - 1];
      assert ColumnLetters(front) by {
        assert forall i :: 0 <= i < |s| - 1 ==> front[i] == s[i];
      }
      ColumnNameOfIndex(front);
      assert s == front + [s[|s| - 1]];
    }
  }

  /** `String#succ` on a column name: the last letter moves on, a "Z"
      wrapping round to "A" and carrying into the letter before it; a
      carry out of the first letter adds a letter in front. */
  function Succ(s: string): string
    requires ColumnLetters(s)
  {
    var n := |s| - 1;
    if s[n] != 'Z' then s[..n] + [(s[n] as int + 1) as char]
    else if n == 0 then "AA"
    else
      assert ColumnLetters(s[..n]) by {
        assert forall i :: 0 <= i < n ==> s[..n][i] == s[i];
      }
      Succ(s[..n]) + "A"
  }

  /** Incrementing a column name names the next column. */
  lemma {:induction false} SuccNext(n: nat)
    ensures ColumnLetters(ColumnName(n)) && Succ(ColumnName(n)) == ColumnName(n + 1)
  {
    ColumnNameLetters(n);
    var s := ColumnName(n);
    if n >= 26 {
      var q := n / 26 - 1;
      var d := n % 26;
      assert s[..|s| - 1] == ColumnName(q);
      if d == 25 {
        SuccNext(q);
        assert (n + 1) / 26 - 1 == q + 1 && (n + 1) % 26 == 0;
      } else {
        assert (n + 1) / 26 - 1 == q && (n + 1) % 26 == d + 1;
      }
    } else if n == 25 {
      assert ColumnName(26) == ColumnName(0) + [Letter(0)];
    }
  }

  // --- Range strings ---

  /** One corner of a range: a column name (or nil) and a row number. */
  datatype Corner = Corner(column: Value, row: int)

  /** `build_range`: the two corners written one after the other, with a
      colon between them. */
  function BuildRange(first: Corner, last: Corner): string {
    ToS(first.column) + IntToString(first.row) + ":" + ToS(last.column) + IntToString(last.row)
  }

  /** A cell reference: a column index and a row number. */
  datatype CellRef = CellRef(column: nat, row: nat)

  /** The two corners a range string names. */
  datatype Corners = Corners(first: CellRef, last: CellRef)

  /** How many upper-case letters a string starts with. */
  function LetterCount(s: string): (k: nat)
    ensures k <= |s|
  {
    if s != [] && IsUpper(s[0]) then 1 + LetterCount(s[1..]) else 0
  }

  lemma {:induction false} LetterCountLetters(s: string)
    ensures forall i :: 0 <= i < LetterCount(s) ==> IsUpper(s[i])
  {
    if s != [] && IsUpper(s[0]) {
      LetterCountLetters(s[1..]);
      assert forall i :: 1 <= i < LetterCount(s) ==> s[i] == s[1..][i - 1];
    }
  }

  /** Letters followed by something that is not a letter. */
  lemma {:induction false} LetterCountAppend(a: string, b: string)
    requires forall i :: 0 <= i < |a| ==> IsUpper(a[i])
    requires b == [] || !IsUpper(b[0])
    ensures LetterCount(a + b) == |a|
  {
    if a != [] {
      LetterCountAppend(a[1..], b);
      assert (a + b)[1..] == a[1..] + b;
    }
  }

  predicate AllDigits(s: string) {
    forall i :: 0 <= i < |s| ==> IsDigit(s[i])
  }

  /** A cell reference such as "C12": letters, then a positive row
      number. */
  function ParseRef(s: string): Option<CellRef> {
    var k := LetterCount(s);
    if k == 0 || k == |s| || !AllDigits(s[k..]) then None
    else
      LetterCountLetters(s);
      assert ColumnLetters(s[..k]) by {
        assert forall i :: 0 <= i < k ==> s[..k][i] == s[i];
      }
      var row := ParseNat(s[k..]);
      if row == 0 then None else Some(CellRef(ColumnIndex(s[..k]), row))
  }

  /** Where the first colon is, or the length when there is none. */
  function ColonAt(s: string): (k: nat)
    ensures k <= |s|
  {
    if s == [] || s[0] == ':' then 0 else 1 + ColonAt(s[1..])
  }

  lemma {:induction false} ColonAtAppend(a: string, b: string)
    requires ':' !in a
    ensures ColonAt(a + b) == |a| + ColonAt(b)
  {
    if a != [] {
      assert a[0] in a && (a + b)[0] == a[0];
      assert (a + b)[1..] == a[1..] + b;
      ColonAtAppend(a[1..], b);
    } else {
      assert a + b == b;
    }
  }

  /** Two corners, when both are cell references. */
  function Both(a: Option<CellRef>, b: Option<CellRef>): Option<Corners> {
    if a.Some? && b.Some? then Some(Corners(a.value, b.value)) else None
  }

  /** How the spreadsheet reads a range string: one cell reference, or
      two joined by a colon. */
  function ParseRange(s: string): Option<Corners> {
    var k := ColonAt(s);
    if k == |s| then Both(ParseRef(s), ParseRef(s))
    else Both(ParseRef(s[..k]), ParseRef(s[k + 1..]))
  }

  /** A range string with a colon splits at its first colon. */
  lemma ParseRangeColon(a: string, b: string)
    requires ':' !in a
    ensures ParseRange(a + ":" + b) == Both(ParseRef(a), ParseRef(b))
  {
    var s := a + ":" + b;
    assert s == a + (":" + b);
    ColonAtAppend(a, ":" + b);
    assert s[..|a|] == a && s[|a| + 1..] == b;
  }

  /** The text of a cell reference. */
  function RefText(column: nat, row: nat): string {
    ColumnName(column) + NatToString(row)
  }

  lemma RefTextNoColon(column: nat, row: nat)
    ensures ':' !in RefText(column, row)
  {
    ColumnNameLetters(column);
    var s := RefText(column, row);
    var name := ColumnName(column);
    forall i | 0 <= i < |s|
      ensures s[i] != ':'
    {
      if i < |name| {
        assert s[i] == name[i];
      } else {
        assert s[i] == NatToString(row)[i - |name|];
      }
    }
  }

  /** A written cell reference reads back as itself. */
  lemma ParseRefText(column: nat, row: nat)
    requires row >= 1
    ensures ParseRef(RefText(column, row)) == Some(CellRef(column, row))
  {
    var name := ColumnName(column);
    var digits := NatToString(row);
    var s := name + digits;
    ColumnIndexOfName(column);
    LetterCountAppend(name, digits);
    assert s[..|name|] == name && s[|name|..] == digits;
    ParseNatToString(row);
  }

  /** `build_range` with column names writes the two cell references
      joined by a colon. */
  lemma BuildRangeRefs(c1: nat, r1: nat, c2: nat, r2: nat)
    ensures BuildRange(Corner(Str(ColumnName(c1)), r1), Corner(Str(ColumnName(c2)), r2)) == RefText(c1, r1) + ":" + RefText(c2, r2)
  {
  }

  /** `build_range` with two column names and positive rows writes a
      range string that reads back as the two corners. */
  lemma ParseBuildRange(c1: nat, r1: nat, c2: nat, r2: nat)
    requires r1 >= 1 && r2 >= 1
    ensures ParseRange(BuildRange(Corner(Str(ColumnName(c1)), r1), Corner(Str(ColumnName(c2)), r2)))
         == Some(Corners(CellRef(c1, r1), CellRef(c2, r2)))
  {
    BuildRangeRefs(c1, r1, c2, r2);
    RefTextNoColon(c1, r1);
    ParseRangeColon(RefText(c1, r1), RefText(c2, r2));
    ParseRefText(c1, r1);
    ParseRefText(c2, r2);
  }

  /** A single cell reference reads as a range of one cell. */
  lemma ParseOneRef(column: nat, row: nat)
    requires row >= 1
    ensures ParseRange(RefText(column, row)) == Some(Corners(CellRef(column, row), CellRef(column, row)))
  {
    var s := RefText(column, row);
    RefTextNoColon(column, row);
    ColonAtAppend(s, []);
    assert s + [] == s;
    ParseRefText(column, row);
  }

  // --- Reading ranges ---

  /** What `Range(...).Value` returns: the value of a one-cell range, or
      the rows of a larger one. */
  datatype RangeValue = Single(cell: Cell) | Block(rows: seq<seq<Cell>>)

  function Min(a: nat, b: nat): nat {
    if a <= b then a else b
  }

  function Max(a: nat, b: nat): nat {
    if a <= b then b else a
  }

  /** The cells of the rectangle between two corners, row by row. */
  function Area(sheet: Sheet, a: CellRef, b: CellRef): seq<seq<Cell>> {
    var top, left := Min(a.row, b.row), Min(a.column, b.column);
    seq(Max(a.row, b.row) - top + 1, i requires 0 <= i =>
      seq(Max(a.column, b.column) - left + 1, j requires 0 <= j => CellAt(sheet, left + j, top + i)))
  }

  /** `@sheet.Range(range).Value`. */
  function RangeAt(sheet: Sheet, range: string): Result<RangeValue, ReadError> {
    match ParseRange(range)
    case None => Failure(RangeError(range))
    case Some(Corners(a, b)) =>
      if a == b then Success(Single(CellAt(sheet, a.column, a.row))) else Success(Block(Area(sheet, a, b)))
  }

  function Concat(rows: seq<seq<Cell>>): seq<Cell> {
    if rows == [] then [] else Concat(rows[..|rows| - 1]) + rows[|rows| - 1]
  }

  /** `flatten`: the rows of a block one after the other; the value of a
      one-cell range is not an array and has no `flatten`. */
  function Flatten(v: RangeValue): Result<seq<Cell>, ReadError> {
    match v
    case Single(_) => Failure(NoMethodError("flatten"))
    case Block(rows) => Success(Concat(rows))
  }

  /** `get_range`. */
  function GetRange(sheet: Sheet, range: string): Result<seq<Cell>, ReadError> {
    match RangeAt(sheet, range)
    case Failure(e) => Failure(e)
    case Success(v) => Flatten(v)
  }

  /** The header cell of a column, as `init_headers_and_bounds` reads it. */
  lemma ReadHeaderCell(sheet: Sheet, column: nat)
    ensures RangeAt(sheet, ColumnName(column) + "1") == Success(Single(CellAt(sheet, column, 1)))
  {
    assert NatToString(1) == "1";
    ParseOneRef(column, 1);
  }

  /** The cells of columns `0` to `width - 1` of a row. */
  function RowCells(sheet: Sheet, row: nat, width: nat): (r: seq<Cell>)
    ensures |r| == width && forall j {:trigger r[j]} :: 0 <= j < width ==> r[j] == CellAt(sheet, j, row)
  {
    seq(width, j requires 0 <= j < width => CellAt(sheet, j, row))
  }

  /** The column after the last header, as `@last_column` holds it: nil
      when there is no header. */
  function LastColumn(width: nat): Value {
    if width == 0 then Nil else Str(ColumnName(width - 1))
  }

  /** The range `parse_artifacts` reads for a row. */
  function ReadRow(sheet: Sheet, width: nat, row: nat): Result<seq<Cell>, ReadError> {
    GetRange(sheet, BuildRange(Corner(Str(ColumnName(0)), row), Corner(LastColumn(width), row)))
  }

  /** What reading a row gives: its cells over the header columns when
      there are at least two; with one header the range is a single cell
      whose value cannot be flattened; with none the range string lacks
      its second column. */
  function RowRead(sheet: Sheet, width: nat, row: nat): Result<seq<Cell>, ReadError> {
    if width >= 2 then Success(RowCells(sheet, row, width))
    else if width == 1 then Failure(NoMethodError("flatten"))
    else Failure(RangeError(BuildRange(Corner(Str(ColumnName(0)), row), Corner(Nil, row))))
  }

  lemma ReadRowIs(sheet: Sheet, width: nat, row: nat)
    requires row >= 1
    ensures ReadRow(sheet, width, row) == RowRead(sheet, width, row)
  {
    if width >= 2 {
      ReadRowWide(sheet, width, row);
    } else if width == 1 {
      ParseBuildRange(0, row, 0, row);
    } else {
      ReadRowNone(sheet, row);
    }
  }

  lemma ReadRowWide(sheet: Sheet, width: nat, row: nat)
    requires row >= 1 && width >= 2
    ensures ReadRow(sheet, width, row) == Success(RowCells(sheet, row, width))
  {
    ParseBuildRange(0, row, width - 1, row);
    AreaOfRow(sheet, row, width);
  }

  /** The block of one row is that row's cells. */
  lemma AreaOfRow(sheet: Sheet, row: nat, width: nat)
    requires width >= 2
    ensures Concat(Area(sheet, CellRef(0, row), CellRef(width - 1, row))) == RowCells(sheet, row, width)
  {
    var blk := Area(sheet, CellRef(0, row), CellRef(width - 1, row));
    assert Min(0, width - 1) == 0 && Max(0, width - 1) == width - 1;
    assert |blk| == 1 && |blk[0]| == width;
    assert forall j :: 0 <= j < width ==> blk[0][j] == RowCells(sheet, row, width)[j];
    assert blk[0] == RowCells(sheet, row, width);
    assert blk[..0] == [];
    assert Concat(blk) == [] + blk[0];
  }

  lemma ReadRowNone(sheet: Sheet, row: nat)
    requires row >= 1
    ensures ReadRow(sheet, 0, row) == Failure(RangeError(BuildRange(Corner(Str(ColumnName(0)), row), Corner(Nil, row))))
  {
    var a := RefText(0, row);
    var digits := NatToString(row);
    assert BuildRange(Corner(Str(ColumnName(0)), row), Corner(Nil, row)) == a + ":" + digits;
    RefTextNoColon(0, row);
    ParseRangeColon(a, digits);
    assert LetterCount(digits) == 0;
  }

  /** A row below the last row of the sheet is blank. */
  predicate AllBlank(cells: seq<Cell>) {
    forall j :: 0 <= j < |cells| ==> cells[j] == Blank
  }

  lemma ReadRowWithin(sheet: Sheet, width: nat, row: nat)
    requires row >= 1 && RowRead(sheet, width, row).Success? && !AllBlank(RowRead(sheet, width, row).value)
    ensures row <= |sheet.rows|
  {
  }

  // --- Headers ---

  /** Where the first blank cell is, or the length when there is none. */
  function FirstBlank(cells: seq<Cell>): (k: nat)
    ensures k <= |cells|
  {
    if cells == [] || cells[0] == Blank then 0 else 1 + FirstBlank(cells[1..])
  }

  lemma {:induction false} FirstBlankIs(cells: seq<Cell>)
    ensures forall j :: 0 <= j < FirstBlank(cells) ==> cells[j] != Blank
    ensures FirstBlank(cells) < |cells| ==> cells[FirstBlank(cells)] == Blank
  {
    if cells != [] && cells[0] != Blank {
      FirstBlankIs(cells[1..]);
      assert forall j :: 1 <= j < |cells| ==> cells[j] == cells[1..][j - 1];
    }
  }

  function HeaderRow(sheet: Sheet): seq<Cell> {
    if sheet.rows == [] then [] else sheet.rows[0]
  }

  /** How many headers the sheet has: the cells of row 1 up to the first
      blank one. */
  function HeaderWidth(sheet: Sheet): nat {
    FirstBlank(HeaderRow(sheet))
  }

  function HeaderCells(sheet: Sheet): seq<Cell> {
    HeaderRow(sheet)[..HeaderWidth(sheet)]
  }

  /** The header cells are the cells of row 1 left to right, none of them
      blank, and the cell after them is blank. */
  lemma HeaderCellsAre(sheet: Sheet)
    ensures |HeaderCells(sheet)| == HeaderWidth(sheet)
    ensures forall j :: 0 <= j < HeaderWidth(sheet) ==> HeaderCells(sheet)[j] == CellAt(sheet, j, 1) != Blank
    ensures CellAt(sheet, HeaderWidth(sheet), 1) == Blank
  {
    FirstBlankIs(HeaderRow(sheet));
  }

  // --- Row data ---

  /** The headers worth keeping. */
  const WorthyHeaders: seq<string> := [
    "ArtifactType",
    "ID", "Name", "Type", "Model ID",
    "Visibility", "Abstract",
    "Multiplicity", "Scope",
    "From", "From Multiplicity", "From Aggregation Kind",
    "To", "To Multiplicity", "To Aggregation Kind",
    "General", "Specific",
    "Parent ID"]

  /** The name an empty header is stored under. */
  const MetaColumnName: string := "ArtifactType"

  /** The row value of a cell: a float is truncated to an integer, every
      other value is kept. */
  function CellValue(c: Cell): (v: Value)
    ensures c.FloatCell? ==> v == Int(c.truncated)
    ensures c.Text? ==> v == Str(c.s)
  {
    match c
    case Blank => Nil
    case Text(s) => Str(s)
    case IntCell(i) => Int(i)
    case FloatCell(t) => Int(t)
  }

  /** `p_row_values[idx]`, nil past the end. */
  function ValueAt(values: seq<Cell>, idx: nat): Value {
    if idx < |values| then CellValue(values[idx]) else Nil
  }

  /** The name a header is stored under: the empty header is renamed, and
      a header that is not a string has no `empty?`. */
  function StoredName(h: Cell): (r: Result<string, ReadError>)
    ensures r.Success? <==> h.Text?
    ensures h == Text("") ==> r == Success(MetaColumnName)
    ensures h.Text? && h.s != "" ==> r == Success(h.s)
  {
    match h
    case Text(s) => Success(if s == "" then MetaColumnName else s)
    case _ => Failure(NoMethodError("empty?"))
  }

  /** The row hash of a row's values, header by header, keeping the
      headers in `worthy`. */
  function RowData(headers: seq<Cell>, values: seq<Cell>, worthy: seq<string>): Result<Row, ReadError> {
    if headers == [] then Success(map[])
    else
      var n := |headers| - 1;
      match RowData(headers[..n], values, worthy)
      case Failure(e) => Failure(e)
      case Success(row) =>
        match StoredName(headers[n])
        case Failure(e) => Failure(e)
        case Success(name) => Success(if name in worthy then row[name := ValueAt(values, n)] else row)
  }

  /** The row hash exists exactly when every header is a string. */
  lemma {:induction false} RowDataSucceeds(headers: seq<Cell>, values: seq<Cell>, worthy: seq<string>)
    ensures RowData(headers, values, worthy).Success? <==> forall i :: 0 <= i < |headers| ==> headers[i].Text?
  {
    if headers != [] {
      var n := |headers| - 1;
      var front := headers[..n];
      RowDataSucceeds(front, values, worthy);
      if RowData(front, values, worthy).Failure? {
        var i :| 0 <= i < n && !front[i].Text?;
        assert !headers[i].Text?;
      } else if headers[n].Text? {
        forall i | 0 <= i < n
          ensures headers[i].Text?
        {
          assert front[i] == headers[i];
        }
      }
    }
  }

  /** The keys of the row hash are exactly the worthy names among the
      headers' names. */
  lemma {:induction false} RowDataKeysAre(headers: seq<Cell>, values: seq<Cell>, worthy: seq<string>, k: string)
    requires RowData(headers, values, worthy).Success?
    ensures k in RowData(headers, values, worthy).value <==> k in worthy && exists i :: 0 <= i < |headers| && StoredName(headers[i]) == Success(k)
  {
    if headers != [] {
      var n := |headers| - 1;
      var front := headers[..n];
      RowDataKeysAre(front, values, worthy, k);
      if k in worthy && (exists i :: 0 <= i < |headers| && StoredName(headers[i]) == Success(k)) {
        var i :| 0 <= i < |headers| && StoredName(headers[i]) == Success(k);
        if i < n {
          assert StoredName(front[i]) == Success(k);
        }
      }
      if k in RowData(front, values, worthy).value {
        var i :| 0 <= i < n && StoredName(front[i]) == Success(k);
        assert StoredName(headers[i]) == Success(k);
      }
    }
  }

  /** The keys of a row hash are worthy headers. */
  lemma RowDataKeys(headers: seq<Cell>, values: seq<Cell>, worthy: seq<string>)
    requires RowData(headers, values, worthy).Success?
    ensures forall k :: k in RowData(headers, values, worthy).value ==> k in worthy
  {
    forall k | k in RowData(headers, values, worthy).value
      ensures k in worthy
    {
      RowDataKeysAre(headers, values, worthy, k);
    }
  }

  /** A header no later header shares its name with decides the value
      under that name: a later column overwrites an earlier one. */
  lemma {:induction false} RowDataLatest(headers: seq<Cell>, values: seq<Cell>, worthy: seq<string>, i: nat)
    requires RowData(headers, values, worthy).Success? && i < |headers|
    requires StoredName(headers[i]).Success? && StoredName(headers[i]).value in worthy
    requires forall j :: i < j < |headers| ==> StoredName(headers[j]) != StoredName(headers[i])
    ensures StoredName(headers[i]).value in RowData(headers, values, worthy).value
    ensures RowData(headers, values, worthy).value[StoredName(headers[i]).value] == ValueAt(values, i)
  {
    var n := |headers| - 1;
    var front := headers[..n];
    if i < n {
      assert front[i] == headers[i];
      forall j | i < j < n
        ensures StoredName(front[j]) != StoredName(front[i])
      {
        assert front[j] == headers[j];
      }
      RowDataLatest(front, values, worthy, i);
    }
  }

  // --- parse_artifacts ---

  /** Rows in front of a result. */
  function Prepend(rows: seq<Row>, r: Result<seq<Row>, ReadError>): Result<seq<Row>, ReadError> {
    match r
    case Failure(e) => Failure(e)
    case Success(more) => Success(rows + more)
  }

  /** The rows from `row` on, up to the first blank one, or the first
      error. */
  function ArtifactsFrom(sheet: Sheet, headers: seq<Cell>, worthy: seq<string>, width: nat, row: nat): Result<seq<Row>, ReadError>
    requires row >= 1
    decreases |sheet.rows| + 1 - row
  {
    match RowRead(sheet, width, row)
    case Failure(e) => Failure(e)
    case Success(cells) =>
      if AllBlank(cells) then Success([])
      else
        ReadRowWithin(sheet, width, row);
        match RowData(headers, cells, worthy)
        case Failure(e) => Failure(e)
        case Success(data) => Prepend([data], ArtifactsFrom(sheet, headers, worthy, width, row + 1))
  }

  /** With at least two headers, the rows read from `row` on hold, one
      after the other, the row data of rows `row`, `row + 1`, ..., none
      of them blank... */
  lemma {:induction false} ArtifactsRowAt(sheet: Sheet, headers: seq<Cell>, worthy: seq<string>, width: nat, row: nat, i: nat)
    requires width >= 2 && row >= 1 && ArtifactsFrom(sheet, headers, worthy, width, row).Success?
    requires i < |ArtifactsFrom(sheet, headers, worthy, width, row).value|
    ensures !AllBlank(RowCells(sheet, row + i, width))
    ensures RowData(headers, RowCells(sheet, row + i, width), worthy) == Success(ArtifactsFrom(sheet, headers, worthy, width, row).value[i])
    decreases i
  {
    var cells := RowCells(sheet, row, width);
    assert RowRead(sheet, width, row) == Success(cells);
    assert !AllBlank(cells);
    ReadRowWithin(sheet, width, row);
    var data := RowData(headers, cells, worthy).value;
    var rest := ArtifactsFrom(sheet, headers, worthy, width, row + 1).value;
    assert ArtifactsFrom(sheet, headers, worthy, width, row) == Success([data] + rest);
    if i > 0 {
      ArtifactsRowAt(sheet, headers, worthy, width, row + 1, i - 1);
      assert row + i == (row + 1) + (i - 1);
    }
  }

  /** ... up to but excluding the first blank row. */
  lemma {:induction false} ArtifactsEnd(sheet: Sheet, headers: seq<Cell>, worthy: seq<string>, width: nat, row: nat)
    requires width >= 2 && row >= 1 && ArtifactsFrom(sheet, headers, worthy, width, row).Success?
    ensures AllBlank(RowCells(sheet, row + |ArtifactsFrom(sheet, headers, worthy, width, row).value|, width))
    decreases |sheet.rows| + 1 - row
  {
    var cells := RowCells(sheet, row, width);
    assert RowRead(sheet, width, row) == Success(cells);
    if AllBlank(cells) {
      assert ArtifactsFrom(sheet, headers, worthy, width, row) == Success([]);
    } else {
      ReadRowWithin(sheet, width, row);
      var data := RowData(headers, cells, worthy).value;
      var rest := ArtifactsFrom(sheet, headers, worthy, width, row + 1).value;
      assert ArtifactsFrom(sheet, headers, worthy, width, row) == Success([data] + rest);
      ArtifactsEnd(sheet, headers, worthy, width, row + 1);
      assert row + |[data] + rest| == (row + 1) + |rest|;
    }
  }

  /** With fewer than two headers no row can be read. */
  lemma ArtifactsNarrow(sheet: Sheet, headers: seq<Cell>, worthy: seq<string>, width: nat, row: nat)
    requires width < 2 && row >= 1
    ensures ArtifactsFrom(sheet, headers, worthy, width, row).Failure?
    ensures width == 1 ==> ArtifactsFrom(sheet, headers, worthy, width, row) == Failure(NoMethodError("flatten"))
  {
  }

  lemma PrependNothing(r: Result<seq<Row>, ReadError>)
    ensures Prepend([], r) == r
  {
    if r.Success? {
      assert [] + r.value == r.value;
    }
  }

  lemma PrependSnoc(rows: seq<Row>, data: Row, r: Result<seq<Row>, ReadError>)
    ensures Prepend(rows, Prepend([data], r)) == Prepend(rows + [data], r)
  {
    if r.Success? {
      assert rows + ([data] + r.value) == (rows + [data]) + r.value;
    }
  }

  /** The reader over one worksheet. */
  class Reader {
    const sheet: Sheet
    var headers: seq<Cell>
    var firstColumn: string
    var lastColumn: Value

    /** The bounds the reader keeps after setting up: the first column is
        "A" again and the last column names the last header. */
    ghost predicate Valid()
      reads this
    {
      headers == HeaderCells(sheet) && firstColumn == ColumnName(0) && lastColumn == LastColumn(|headers|)
    }

    /** `initialize`, with the worksheet already opened. */
    constructor (sheet: Sheet)
      ensures this.sheet == sheet && Valid()
    {
      this.sheet := sheet;
      headers := [];
      firstColumn := "A";
      lastColumn := Nil;
      new;
      InitHeadersAndBounds();
    }

    /** `init_headers_and_bounds`: the header cells of row 1 appended to
        the headers, column by column up to the first blank cell; the
        last column is the last one with a header. */
    method InitHeadersAndBounds()
      modifies this
      ensures headers == old(headers) + HeaderCells(sheet)
      ensures firstColumn == ColumnName(0)
      ensures lastColumn == LastColumn(HeaderWidth(sheet))
    {
      var firstColumnName := "A";
      var firstColumnIdx := "1";
      firstColumn := firstColumnName;
      lastColumn := Nil;
      ghost var k: nat := 0;
      ghost var h0 := headers;
      HeaderCellsAre(sheet);
      while true
        invariant k <= HeaderWidth(sheet) && firstColumn == ColumnName(k)
        invariant headers == h0 + HeaderCells(sheet)[..k]
        invariant lastColumn == LastColumn(k)
        decreases HeaderWidth(sheet) - k
      {
        ReadHeaderCell(sheet, k);
        var column := RangeAt(sheet, firstColumn + firstColumnIdx).value.cell;
        if column == Blank {
          break;
        }
        assert k < HeaderWidth(sheet);
        assert HeaderCells(sheet)[..k + 1] == HeaderCells(sheet)[..k] + [column];
        headers := headers + [column];
        lastColumn := Str(firstColumn);
        SuccNext(k);
        firstColumn := Succ(firstColumn);
        k := k + 1;
      }
      assert k == HeaderWidth(sheet);
      assert HeaderCells(sheet)[..k] == HeaderCells(sheet);
      firstColumn := firstColumnName;
    }

    /** `get_row_data`: the value under each header, kept when the header
        (renamed when empty) is a worthy one. */
    method GetRowData(rowValues: seq<Cell>) returns (r: Result<Row, ReadError>)
      ensures r == RowData(headers, rowValues, WorthyHeaders)
    {
      var rowData: Row := map[];
      var idx := 0;
      while idx < |headers|
        invariant 0 <= idx <= |headers|
        invariant RowData(headers[..idx], rowValues, WorthyHeaders) == Success(rowData)
      {
        var value := if idx < |rowValues| then CellValue(rowValues[idx]) else Nil;
        var currentHeader := headers[idx];
        assert headers[..idx + 1][..idx] == headers[..idx];
        if !currentHeader.Text? {
          RowDataFails(headers, rowValues, WorthyHeaders, idx);
          return Failure(NoMethodError("empty?"));
        }
        var name := if currentHeader.s == "" then MetaColumnName else currentHeader.s;
        var isOfInterest := name in WorthyHeaders;
        if isOfInterest {
          rowData := rowData[name := value];
        }
        idx := idx + 1;
      }
      assert headers[..idx] == headers;
      r := Success(rowData);
    }

    /** `parse_artifacts`: the row data of rows 2, 3, ... up to the first
        row whose values are all nil. */
    method ParseArtifacts() returns (r: Result<seq<Row>, ReadError>)
      requires Valid()
      ensures r == ArtifactsFrom(sheet, headers, WorthyHeaders, |headers|, 2)
    {
      var rowsData: seq<Row> := [];
      var currentRowIndex := 1;
      PrependNothing(ArtifactsFrom(sheet, headers, WorthyHeaders, |headers|, 2));
      while true
        invariant 1 <= currentRowIndex <= |sheet.rows| + 1
        invariant ArtifactsFrom(sheet, headers, WorthyHeaders, |headers|, 2) == Prepend(rowsData, ArtifactsFrom(sheet, headers, WorthyHeaders, |headers|, currentRowIndex + 1))
        decreases |sheet.rows| + 1 - currentRowIndex
      {
        currentRowIndex := currentRowIndex + 1;
        var currentRange := BuildRange(Corner(Str(firstColumn), currentRowIndex), Corner(lastColumn, currentRowIndex));
        var row := GetRange(sheet, currentRange);
        ReadRowIs(sheet, |headers|, currentRowIndex);
        if row.Failure? {
          return Failure(row.error);
        }
        if AllBlank(row.value) {
          break;
        }
        ReadRowWithin(sheet, |headers|, currentRowIndex);
        var rowData := GetRowData(row.value);
        if rowData.Failure? {
          return Failure(rowData.error);
        }
        PrependSnoc(rowsData, rowData.value, ArtifactsFrom(sheet, headers, WorthyHeaders, |headers|, currentRowIndex + 1));
        rowsData := rowsData + [rowData.value];
      }
      assert rowsData + [] == rowsData;
      r := Success(rowsData);
    }
  }

  /** A header that is not a string stops `get_row_data`. */
  lemma RowDataFails(headers: seq<Cell>, values: seq<Cell>, worthy: seq<string>, i: nat)
    requires i < |headers| && RowData(headers[..i], values, worthy).Success? && !headers[i].Text?
    ensures RowData(headers, values, worthy) == Failure(NoMethodError("empty?"))
  {
    assert headers[..i + 1][..i] == headers[..i];
    RowDataFirstFailure(headers, values, worthy, i + 1);
  }

  lemma {:induction false} RowDataFirstFailure(headers: seq<Cell>, values: seq<Cell>, worthy: seq<string>, i: nat)
    requires 0 < i <= |headers| && RowData(headers[..i], values, worthy).Failure?
    ensures RowData(headers, values, worthy) == RowData(headers[..i], values, worthy)
  {
    var n := |headers| - 1;
    if n + 1 == i {
      assert headers[..i] == headers;
    } else {
      assert headers[..n][..i] == headers[..i];
      RowDataFirstFailure(headers[..n], values, worthy, i);
    }
  }
}
