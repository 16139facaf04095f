/** Scalar values as they travel from a spreadsheet row into the model.
    A row is a header-indexed hash; reading an absent key yields nil. */
module Values {

  datatype Option<+T> = None | Some(value: T) {
    function GetOr(default: T): T {
      match this
      case Some(v) => v
      case None => default
    }
  }

  datatype Result<+T, +E> = Success(value: T) | Failure(error: E)

  /** A row value: Ruby's nil, a String, or an Integer (spreadsheet floats
      have already been truncated by the reader). Datatype equality is
      Ruby's `==` on these three kinds. */
  datatype Value = Nil | Str(s: string) | Int(i: int)

  /** One row: header name to value. */
  type Row = map<string, Value>

  /** `row[key]`: nil when the key is absent. */
  function Lookup(row: Row, key: string): Value {
    if key in row then row[key] else Nil
  }

  predicate IsDigit(c: char) {
    '0' <= c <= '9'
  }

  function DigitChar(d: nat): (c: char)
    requires d < 10
    ensures IsDigit(c)
  {
    "0123456789"[d]
  }

  /** Decimal digits of `n`, as Ruby's `Integer#to_s` prints them. */
  function NatToString(n: nat): (s: string)
    ensures |s| > 0
    ensures forall i :: 0 <= i < |s| ==> IsDigit(s[i])
  {
    if n < 10 then [DigitChar(n)] else NatToString(n / 10) + [DigitChar(n % 10)]
  }

  function IntToString(i: int): string {
    if i < 0 then "-" + NatToString(-i) else NatToString(i)
  }

  /** The number a string of decimal digits denotes. */
  function ParseNat(s: string): nat
    requires forall i :: 0 <= i < |s| ==> IsDigit(s[i])
  {
    if s == [] then 0 else 10 * ParseNat(s[..|s| - 1]) + DigitValue(s[|s| - 1])
  }

  function DigitValue(c: char): (d: nat)
    requires IsDigit(c)
    ensures d < 10
  {
    c as int - '0' as int
  }

  lemma {:induction false} ParseNatToString(n: nat)
    ensures ParseNat(NatToString(n)) == n
  {
    var s := NatToString(n);
    if n < 10 {
      assert s == [DigitChar(n)];
      assert s[..0] == [];
    } else {
      ParseNatToString(n / 10);
      assert s[..|s| - 1] == NatToString(n / 10);
    }
  }

  /** String interpolation `"#{v}"`: nil prints as the empty string. */
  function ToS(v: Value): string {
    match v
    case Nil => ""
    case Str(s) => s
    case Int(i) => IntToString(i)
  }

  ghost predicate Distinct<T>(s: seq<T>) {
    forall i, j :: 0 <= i < j < |s| ==> s[i] != s[j]
  }

  /** Appending at most one element that is new to the list keeps it
      distinct. */
  lemma DistinctGrow<T>(s: seq<T>, s2: seq<T>)
    requires Distinct(s) && |s| <= |s2| <= |s| + 1
    requires forall j :: 0 <= j < |s| ==> s2[j] == s[j]
    requires |s2| == |s| + 1 ==> s2[|s|] !in s
    ensures Distinct(s2)
  {
    if |s2| == |s| {
      assert s2 == s;
    }
  }

  /** How many times `x` occurs in `s`. */
  function CountOf<T(==)>(s: seq<T>, x: T): nat {
    if s == [] then 0 else CountOf(s[..|s| - 1], x) + if s[|s| - 1] == x then 1 else 0
  }

  /** An element of a distinct list occurs in it once, and a value not in
      a list does not occur in it. */
  lemma {:induction false} DistinctOnce<T>(s: seq<T>, x: T)
    requires Distinct(s)
    ensures CountOf(s, x) == if x in s then 1 else 0
  {
    if s != [] {
      var n := |s| - 1;
      assert s == s[..n] + [s[n]];
      assert Distinct(s[..n]);
      DistinctOnce(s[..n], x);
      if s[n] == x {
        assert x !in s[..n];
      }
    }
  }

  /** `n` copies of `x`. */
  function Repeat<T>(x: T, n: nat): (r: seq<T>)
    ensures |r| == n
    ensures forall i {:trigger r[i]} :: 0 <= i < n ==> r[i] == x
  {
    if n == 0 then [] else Repeat(x, n - 1) + [x]
  }
}
