/** The String and Fixnum extensions the writer formats its output with:
    file-name sanitising, unindenting, and indentation by spaces or tabs. */
module Extensions {
  import opened Values

  /** The characters `sanitize_filename` deletes: `/ : * ? " < > | ^ ;`. */
  const Forbidden: set<char> := {'/', ':', '*', '?', '"', '<', '>', '|', '^', ';'}

  /** `String.sanitize_filename`: the string with every forbidden character
      deleted and the others kept in order. */
  function SanitizeFilename(s: string): (r: string)
    ensures |r| <= |s|
    ensures forall i :: 0 <= i < |r| ==> r[i] !in Forbidden
  {
    if s == [] then []
    else SanitizeFilename(s[..|s| - 1]) + if s[|s| - 1] in Forbidden then [] else [s[|s| - 1]]
  }

  /** Sanitising works character by character, so it distributes over
      concatenation. */
  lemma {:induction false} SanitizeAppend(s: string, t: string)
    ensures SanitizeFilename(s + t) == SanitizeFilename(s) + SanitizeFilename(t)
  {
    if t == [] {
      assert s + t == s;
    } else {
      var n := |t| - 1;
      assert (s + t)[..|s + t| - 1] == s + t[..n];
      SanitizeAppend(s, t[..n]);
    }
  }

  /** A string without forbidden characters is its own sanitised form, and
      only such a string is. */
  lemma {:induction false} SanitizeKeepsClean(s: string)
    ensures SanitizeFilename(s) == s <==> forall i :: 0 <= i < |s| ==> s[i] !in Forbidden
  {
    if s != [] {
      var n := |s| - 1;
      SanitizeKeepsClean(s[..n]);
      assert s == s[..n] + [s[n]];
      if s[n] in Forbidden {
        assert |SanitizeFilename(s)| <= n;
      } else if SanitizeFilename(s) == s {
        assert SanitizeFilename(s[..n]) == s[..n];
      }
    }
  }

  /** Sanitising twice is sanitising once. */
  lemma SanitizeIdempotent(s: string)
    ensures SanitizeFilename(SanitizeFilename(s)) == SanitizeFilename(s)
  {
    SanitizeKeepsClean(SanitizeFilename(s));
  }

  /** Every allowed character survives as often as it occurs; forbidden
      characters do not survive at all. */
  lemma {:induction false} SanitizeCounts(s: string, c: char)
    ensures CountOf(SanitizeFilename(s), c) == if c in Forbidden then 0 else CountOf(s, c)
  {
    if s != [] {
      var n := |s| - 1;
      SanitizeCounts(s[..n], c);
      CountAppend(SanitizeFilename(s[..n]), if s[n] in Forbidden then [] else [s[n]], c);
    }
  }

  lemma {:induction false} CountAppend<T>(s: seq<T>, t: seq<T>, x: T)
    ensures CountOf(s + t, x) == CountOf(s, x) + CountOf(t, x)
  {
    if t == [] {
      assert s + t == s;
    } else {
      var n := |t| - 1;
      assert (s + t)[..|s + t| - 1] == s + t[..n];
      CountAppend(s, t[..n], x);
    }
  }

  /** Ruby's `\s`: space, tab, line feed, carriage return, form feed and
      vertical tab. */
  predicate IsSpace(c: char) {
    c == ' ' || c == '\t' || c == '\n' || c == '\r' || c == '\U{C}' || c == '\U{B}'
  }

  /** The whitespace the string starts with (the match of `\A\s*` that
      `unindent` takes as the first line's indent); it may run over
      several lines. */
  function LeadingSpace(s: string): (w: string)
    ensures |w| <= |s| && w == s[..|w|]
    ensures forall i :: 0 <= i < |w| ==> IsSpace(w[i])
    ensures |w| < |s| ==> !IsSpace(s[|w|])
  {
    if s != [] && IsSpace(s[0]) then [s[0]] + LeadingSpace(s[1..]) else []
  }

  /** The `gsub` of `unindent` over the rest `t` of the string, where
      `atStart` says whether `t` begins a line (Ruby's `^`: the start of
      the string or just after a line feed). A match removes `w` and the
      scan resumes right after it; elsewhere one character is kept. */
  function Dedent(t: string, w: string, atStart: bool): string
    decreases |t|
  {
    if t == [] then []
    else if atStart && 0 < |w| <= |t| && t[..|w|] == w then Dedent(t[|w|..], w, w[|w| - 1] == '\n')
    else [t[0]] + Dedent(t[1..], w, t[0] == '\n')
  }

  /** `String#unindent`: the first line's leading whitespace removed from
      the start of every line that starts with it. */
  function Unindent(s: string): string {
    Dedent(s, LeadingSpace(s), true)
  }

  /** Unindenting only deletes. */
  lemma {:induction false} DedentShorter(t: string, w: string, atStart: bool)
    ensures |Dedent(t, w, atStart)| <= |t|
    decreases |t|
  {
    if t != [] {
      if atStart && 0 < |w| <= |t| && t[..|w|] == w {
        DedentShorter(t[|w|..], w, w[|w| - 1] == '\n');
      } else {
        DedentShorter(t[1..], w, t[0] == '\n');
      }
    }
  }

  lemma UnindentShorter(s: string)
    ensures |Unindent(s)| <= |s|
  {
    DedentShorter(s, LeadingSpace(s), true);
  }

  /** With nothing to remove, every character is kept. */
  lemma {:induction false} DedentNothing(t: string, atStart: bool)
    ensures Dedent(t, [], atStart) == t
    decreases |t|
  {
    if t != [] {
      DedentNothing(t[1..], t[0] == '\n');
      assert t == [t[0]] + t[1..];
    }
  }

  /** The lines of `ls`, each ended by a line feed (a heredoc's layout). */
  function Block(ls: seq<string>): string {
    if ls == [] then [] else ls[0] + "\n" + Block(ls[1..])
  }

  /** Each line with `w` in front. */
  function IndentAll(w: string, ls: seq<string>): (r: seq<string>)
    ensures |r| == |ls| && forall i {:trigger r[i]} :: 0 <= i < |ls| ==> r[i] == w + ls[i]
  {
    seq(|ls|, i requires 0 <= i < |ls| => w + ls[i])
  }

  predicate NoLineFeed(s: string) {
    forall i :: 0 <= i < |s| ==> s[i] != '\n'
  }

  /** Inside a line, away from its start, nothing is removed. */
  lemma {:induction false} DedentWithinLine(l: string, rest: string, w: string)
    requires NoLineFeed(l)
    ensures Dedent(l + rest, w, false) == l + Dedent(rest, w, false)
  {
    if l != [] {
      assert (l + rest)[1..] == l[1..] + rest;
      DedentWithinLine(l[1..], rest, w);
      assert l == [l[0]] + l[1..];
    } else {
      assert l + rest == rest;
    }
  }

  /** A line with `w` removed from its front when it starts with `w`, and
      kept whole otherwise. */
  function StripPrefix(w: string, l: string): (r: string)
    ensures |w| <= |l| && l[..|w|] == w ==> l == w + r
    ensures !(|w| <= |l| && l[..|w|] == w) ==> r == l
  {
    if |w| <= |l| && l[..|w|] == w then l[|w|..] else l
  }

  /** Each line with `StripPrefix(w, _)` applied. */
  function StripAll(w: string, ls: seq<string>): (r: seq<string>)
    ensures |r| == |ls| && forall i {:trigger r[i]} :: 0 <= i < |ls| ==> r[i] == StripPrefix(w, ls[i])
  {
    seq(|ls|, i requires 0 <= i < |ls| => StripPrefix(w, ls[i]))
  }

  /** A line that starts with `w` loses it, and the next line starts afresh. */
  lemma DedentStripsLine(w: string, l: string, rest: string)
    requires 0 < |w| && NoLineFeed(w) && NoLineFeed(l)
    requires |w| <= |l| && l[..|w|] == w
    ensures Dedent(l + "\n" + rest, w, true) == l[|w|..] + "\n" + Dedent(rest, w, true)
  {
    var t := l + "\n" + rest;
    assert t[..|w|] == w && t[|w|..] == l[|w|..] + ("\n" + rest);
    assert w[|w| - 1] != '\n';
    DedentWithinLine(l[|w|..], "\n" + rest, w);
    assert ("\n" + rest)[1..] == rest;
  }

  /** A line that does not start with `w` is kept whole. */
  lemma DedentKeepsLine(w: string, l: string, rest: string)
    requires 0 < |w| && NoLineFeed(w) && NoLineFeed(l)
    requires !(|w| <= |l| && l[..|w|] == w)
    ensures Dedent(l + "\n" + rest, w, true) == l + "\n" + Dedent(rest, w, true)
  {
    var t := l + "\n" + rest;
    if |w| <= |l| {
      assert t[..|w|] == l[..|w|];
    } else {
      assert t[|l|] == '\n' && w[|l|] != '\n';
      if |w| <= |t| {
        assert t[..|w|][|l|] != w[|l|];
      }
    }
    assert ("\n" + rest)[1..] == rest;
    if l == [] {
      assert t == "\n" + rest;
    } else {
      assert t[1..] == l[1..] + ("\n" + rest);
      DedentWithinLine(l[1..], "\n" + rest, w);
      assert l == [l[0]] + l[1..];
    }
  }

  /** `gsub(/^w/, "")` line by line: every line that starts with `w` loses
      it, and every other line is kept. */
  lemma {:induction false} DedentLines(w: string, ls: seq<string>)
    requires 0 < |w| && NoLineFeed(w)
    requires forall i :: 0 <= i < |ls| ==> NoLineFeed(ls[i])
    ensures Dedent(Block(ls), w, true) == Block(StripAll(w, ls))
  {
    if ls != [] {
      var rest := Block(ls[1..]);
      assert StripAll(w, ls)[1..] == StripAll(w, ls[1..]);
      if |w| <= |ls[0]| && ls[0][..|w|] == w {
        DedentStripsLine(w, ls[0], rest);
      } else {
        DedentKeepsLine(w, ls[0], rest);
      }
      DedentLines(w, ls[1..]);
    }
  }

  /** Stripping `w` from lines indented by `w` gives the lines back. */
  lemma StripIndented(w: string, ls: seq<string>)
    ensures StripAll(w, IndentAll(w, ls)) == ls
  {
    forall i | 0 <= i < |ls| ensures StripAll(w, IndentAll(w, ls))[i] == ls[i] {
      assert (w + ls[i])[..|w|] == w;
    }
  }

  /** Indenting by a line-feed-free `w` adds no line feed. */
  lemma IndentedLines(w: string, ls: seq<string>)
    requires NoLineFeed(w)
    requires forall i :: 0 <= i < |ls| ==> NoLineFeed(ls[i])
    ensures forall i :: 0 <= i < |ls| ==> NoLineFeed(IndentAll(w, ls)[i])
  {
    forall i | 0 <= i < |ls| ensures NoLineFeed(IndentAll(w, ls)[i]) {
      var l := IndentAll(w, ls)[i];
      assert forall j :: 0 <= j < |l| ==> l[j] == if j < |w| then w[j] else ls[i][j - |w|];
    }
  }

  /** At each line start `w` is removed once, then the line is kept. */
  lemma DedentBlock(w: string, ls: seq<string>)
    requires 0 < |w| && NoLineFeed(w)
    requires forall i :: 0 <= i < |ls| ==> NoLineFeed(ls[i])
    ensures Dedent(Block(IndentAll(w, ls)), w, true) == Block(ls)
  {
    var indented := IndentAll(w, ls);
    IndentedLines(w, ls);
    DedentLines(w, indented);
    StripIndented(w, ls);
  }

  /** `String#unindent` on a block: the first line's leading whitespace is
      removed from every line that starts with it, and every other line is
      kept (when that whitespace stays within the first line). */
  lemma UnindentLines(ls: seq<string>)
    requires forall i :: 0 <= i < |ls| ==> NoLineFeed(ls[i])
    requires NoLineFeed(LeadingSpace(Block(ls)))
    ensures Unindent(Block(ls)) == Block(StripAll(LeadingSpace(Block(ls)), ls))
  {
    var w := LeadingSpace(Block(ls));
    if w == [] {
      DedentNothing(Block(ls), true);
      assert StripAll(w, ls) == ls;
    } else {
      DedentLines(w, ls);
    }
  }

  /** The whitespace in front of a block is the first line's indent when
      that line starts with a visible character. */
  lemma LeadingOfIndented(w: string, l: string, rest: string)
    requires forall i :: 0 <= i < |w| ==> IsSpace(w[i])
    requires l != [] && !IsSpace(l[0])
    ensures LeadingSpace(w + l + rest) == w
  {
    var s := w + l + rest;
    var v := LeadingSpace(s);
    assert forall i :: 0 <= i < |w| ==> s[i] == w[i];
    assert s[|w|] == l[0];
    assert |v| == |w|;
    assert v == s[..|w|] == w;
  }

  /** The whitespace in front of an indented block is the indent. */
  lemma LeadingOfBlock(w: string, ls: seq<string>)
    requires forall i :: 0 <= i < |w| ==> IsSpace(w[i])
    requires ls != [] && ls[0] != [] && !IsSpace(ls[0][0])
    ensures LeadingSpace(Block(IndentAll(w, ls))) == w
  {
    var indented := IndentAll(w, ls);
    var rest := "\n" + Block(indented[1..]);
    assert Block(indented) == indented[0] + rest;
    assert Block(indented) == w + ls[0] + rest;
    LeadingOfIndented(w, ls[0], rest);
  }

  /** Unindenting a block whose lines were all indented by the same
      whitespace `w` (and whose first line then starts visibly) gives back
      the unindented block. */
  lemma UnindentIndented(w: string, ls: seq<string>)
    requires forall i :: 0 <= i < |w| ==> IsSpace(w[i])
    requires NoLineFeed(w)
    requires forall i :: 0 <= i < |ls| ==> NoLineFeed(ls[i])
    requires ls != [] && ls[0] != [] && !IsSpace(ls[0][0])
    ensures Unindent(Block(IndentAll(w, ls))) == Block(ls)
  {
    var indented := IndentAll(w, ls);
    IndentedLines(w, ls);
    LeadingOfBlock(w, ls);
    UnindentLines(indented);
    StripIndented(w, ls);
  }

  /** The second argument of `add_indentation`: the Fixnum method that
      makes the delimiter. */
  datatype IndentType = SpacesIndent | TabsIndent

  /** `n.times` runs no block for a negative count. */
  function Times(n: int): nat {
    if n < 0 then 0 else n
  }

  /** The delimiter `p_size.send(p_type)` produces. */
  function Delimiter(size: int, kind: IndentType): (d: string)
    ensures |d| == Times(size)
    ensures forall i :: 0 <= i < |d| ==> d[i] == (if kind == SpacesIndent then ' ' else '\t')
  {
    Repeat(if kind == SpacesIndent then ' ' else '\t', Times(size))
  }

  /** `Fixnum#spaces`: `n` spaces, one appended per turn. */
  method Spaces(n: int) returns (out: string)
    ensures out == Delimiter(n, SpacesIndent)
  {
    out := "";
    var i := 0;
    while i < n
      invariant 0 <= i <= Times(n) && out == Repeat(' ', i)
    {
      out := out + " ";
      i := i + 1;
    }
  }

  /** `Fixnum#tabs`: `n` tabs, one appended per turn. */
  method Tabs(n: int) returns (out: string)
    ensures out == Delimiter(n, TabsIndent)
  {
    out := "";
    var i := 0;
    while i < n
      invariant 0 <= i <= Times(n) && out == Repeat('\t', i)
    {
      out := out + "\t";
      i := i + 1;
    }
  }

  /** The indentation is a pure prefix: dropping it gives the string back. */
  lemma IndentationIsPrefix(size: int, kind: IndentType, s: string)
    ensures (Delimiter(size, kind) + s)[Times(size)..] == s
    ensures |Delimiter(size, kind) + s| == Times(size) + |s|
  {
  }

  /** A mutable Ruby string. */
  class RString {
    var value: string

    constructor (s: string)
      ensures value == s
    {
      value := s;
    }

    /** `add_indentation`: `insert(0, ...)` puts the delimiter in front of
        the receiver itself and returns the receiver. */
    method AddIndentation(size: int, kind: IndentType) returns (r: string)
      modifies this
      ensures value == Delimiter(size, kind) + old(value) && r == value
    {
      var delimiterResult;
      if kind == SpacesIndent {
        delimiterResult := Spaces(size);
      } else {
        delimiterResult := Tabs(size);
      }
      value := delimiterResult + value;
      r := value;
    }

    /** `add_indentation!`: replaces the receiver with what
        `add_indentation` returned, which is the receiver already indented,
        so the delimiter is added once. */
    method AddIndentationBang(size: int, kind: IndentType)
      modifies this
      ensures value == Delimiter(size, kind) + old(value)
    {
      var indented := AddIndentation(size, kind);
      value := indented;
    }
  }
}
