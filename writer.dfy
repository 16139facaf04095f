/** The text the writer generates for one class: one DataMapper property
    line per attribute, and the `has` and `belongs_to` lines of its
    associations. Lines after the first of each group are indented by the
    writer's indentation, and the final line feed is chopped. */
module Writer {
  import opened Values
  import opened Artifact
  import opened Attributes
  import opened Model
  import opened Extensions

  /** What a generating method raises. */
  datatype WriteError =
    | ArgumentError(message: string)
      /** A method called on a value that lacks it: `nil.strip`,
          `5.capitalize`, `"id".name`, ... */
    | NoMethodError(selector: string)

  /** The writer's `indent_size` and `indent_type` constants. */
  const IndentSize: int := 2
  const IndentKind: IndentType := SpacesIndent

  /** The prefix `add_indentation_to` puts in front of a line: two spaces. */
  const Indentation: string := Delimiter(IndentSize, IndentKind)

  /** `add_indentation_to`: the string is indented in place. */
  method AddIndentationTo(s: RString)
    modifies s
    ensures s.value == Indentation + old(s.value)
  {
    s.AddIndentationBang(IndentSize, IndentKind);
  }

  // --- The Ruby String methods the writer calls ---

  /** What `strip` removes: Ruby's whitespace and the null character. */
  predicate Strippable(c: char) {
    IsSpace(c) || c == '\0'
  }

  function StripFront(s: string): string {
    if s != [] && Strippable(s[0]) then StripFront(s[1..]) else s
  }

  function StripBack(s: string): string {
    if s != [] && Strippable(s[|s| - 1]) then StripBack(s[..|s| - 1]) else s
  }

  /** `String#strip`: leading and trailing whitespace removed. */
  function Strip(s: string): string {
    StripFront(StripBack(s))
  }

  /** Only leading whitespace is removed: what is left is a suffix of the
      string that starts with something else. */
  lemma {:induction false} StripFrontRemoves(s: string)
    ensures |StripFront(s)| <= |s| && StripFront(s) == s[|s| - |StripFront(s)|..]
    ensures forall i :: 0 <= i < |s| - |StripFront(s)| ==> Strippable(s[i])
    ensures StripFront(s) != [] ==> !Strippable(StripFront(s)[0])
  {
    if s != [] && Strippable(s[0]) {
      StripFrontRemoves(s[1..]);
      assert s[1..][|s| - 1 - |StripFront(s)|..] == s[|s| - |StripFront(s)|..];
    }
  }

  /** Only trailing whitespace is removed: what is left is a prefix of the
      string that ends in something else. */
  lemma {:induction false} StripBackRemoves(s: string)
    ensures |StripBack(s)| <= |s| && StripBack(s) == s[..|StripBack(s)|]
    ensures forall i :: |StripBack(s)| <= i < |s| ==> Strippable(s[i])
    ensures StripBack(s) != [] ==> !Strippable(StripBack(s)[|StripBack(s)| - 1])
  {
    if s != [] && Strippable(s[|s| - 1]) {
      StripBackRemoves(s[..|s| - 1]);
      assert s[..|s| - 1][..|StripBack(s)|] == s[..|StripBack(s)|];
    }
  }

  /** The stripped string neither starts nor ends with whitespace. */
  lemma StripEnds(s: string)
    ensures |Strip(s)| <= |s|
    ensures Strip(s) != [] ==> !Strippable(Strip(s)[0]) && !Strippable(Strip(s)[|Strip(s)| - 1])
  {
    var b := StripBack(s);
    StripBackRemoves(s);
    StripFrontRemoves(b);
    var r := Strip(s);
    if r != [] {
      assert r[|r| - 1] == b[|b| - 1];
    }
  }

  /** A string that neither starts nor ends with whitespace is its own
      stripped form. */
  lemma StripClean(s: string)
    requires s != [] ==> !Strippable(s[0]) && !Strippable(s[|s| - 1])
    ensures Strip(s) == s
  {
  }

  /** Stripping twice removes nothing more. */
  lemma StripIdempotent(s: string)
    ensures Strip(Strip(s)) == Strip(s)
  {
    StripEnds(s);
    StripClean(Strip(s));
  }

  function Upper(c: char): char {
    if 'a' <= c <= 'z' then (c as int - 32) as char else c
  }

  function Lower(c: char): char {
    if 'A' <= c <= 'Z' then (c as int + 32) as char else c
  }

  /** `String#capitalize` on ASCII letters: the first character upper
      case, the others lower case. */
  function Capitalize(s: string): (r: string)
    ensures |r| == |s|
  {
    if s == [] then [] else [Upper(s[0])] + seq(|s| - 1, i requires 0 <= i < |s| - 1 => Lower(s[i + 1]))
  }

  lemma CapitalizeEach(s: string)
    ensures s != [] ==> Capitalize(s)[0] == Upper(s[0])
    ensures forall i :: 1 <= i < |s| ==> Capitalize(s)[i] == Lower(s[i])
  {
  }

  /** `String#chop`: the last character removed, or both characters of a
      final "\r\n"; the empty string stays empty. */
  function Chop(s: string): (r: string)
    ensures |s| >= 2 && s[|s| - 2] == '\r' && s[|s| - 1] == '\n' ==> r == s[..|s| - 2]
    ensures !(|s| >= 2 && s[|s| - 2] == '\r' && s[|s| - 1] == '\n') ==> r == s[..if s == [] then 0 else |s| - 1]
  {
    if |s| >= 2 && s[|s| - 2] == '\r' && s[|s| - 1] == '\n' then s[..|s| - 2]
    else if s == [] then []
    else s[..|s| - 1]
  }

  /** A line feed after a text that does not end in a carriage return is
      exactly what `chop` takes away. */
  lemma ChopLineFeed(t: string)
    requires t == [] || t[|t| - 1] != '\r'
    ensures Chop(t + "\n") == t
  {
    var s := t + "\n";
    assert s[..|s| - 1] == t;
  }

  // --- Line layout ---

  /** Each line body followed by a line feed. */
  function Terminated(bodies: seq<string>): (r: seq<string>)
    ensures |r| == |bodies| && forall i {:trigger r[i]} :: 0 <= i < |bodies| ==> r[i] == bodies[i] + "\n"
  {
    seq(|bodies|, i requires 0 <= i < |bodies| => bodies[i] + "\n")
  }

  /** The lines appended in order, each after the first indented, as the
      `idx > 0` and `written_count > 0` tests decide. */
  function Layout(lines: seq<string>): string {
    if lines == [] then []
    else Layout(lines[..|lines| - 1]) + (if |lines| > 1 then Indentation else []) + lines[|lines| - 1]
  }

  /** The bodies separated by `sep`. */
  function Join(bodies: seq<string>, sep: string): string {
    if bodies == [] then []
    else if |bodies| == 1 then bodies[0]
    else Join(bodies[..|bodies| - 1], sep) + sep + bodies[|bodies| - 1]
  }

  lemma {:induction false} LayoutTerminated(bodies: seq<string>)
    requires bodies != []
    ensures Layout(Terminated(bodies)) == Join(bodies, "\n" + Indentation) + "\n"
  {
    var n := |bodies| - 1;
    var lines := Terminated(bodies);
    assert lines[..n] == Terminated(bodies[..n]);
    assert lines[n] == bodies[n] + "\n";
    if n > 0 {
      LayoutTerminated(bodies[..n]);
      var j := Join(bodies[..n], "\n" + Indentation);
      assert Layout(lines) == (j + "\n") + Indentation + (bodies[n] + "\n");
      assert Join(bodies, "\n" + Indentation) == j + ("\n" + Indentation) + bodies[n];
      assert (j + "\n") + Indentation + (bodies[n] + "\n") == j + ("\n" + Indentation) + bodies[n] + "\n";
    } else {
      assert Layout(lines) == Layout(lines[..0]) + lines[0];
    }
  }

  /** A text ending in a carriage return, which `chop` would take away
      together with a following line feed. */
  predicate EndsInReturn(s: string) {
    s != [] && s[|s| - 1] == '\r'
  }

  /** The separator between two lines of a group. */
  const Separator: string := "\n" + Indentation

  /** The text of one group of generated lines: each line ended by a line
      feed, every line after the first indented, the last character
      chopped. */
  function GroupText(bodies: seq<string>): string {
    Chop(Layout(Terminated(bodies)))
  }

  /** A chopped group is its line bodies joined by a line feed and the
      indentation: the first line is not indented, every later one is,
      and no line feed is left at the end. */
  lemma GroupJoined(bodies: seq<string>)
    requires !EndsInReturn(Join(bodies, Separator))
    ensures GroupText(bodies) == Join(bodies, Separator)
  {
    if bodies != [] {
      LayoutTerminated(bodies);
      ChopLineFeed(Join(bodies, Separator));
    }
  }

  /** A group ends as its last line does. */
  lemma {:induction false} JoinEnds(bodies: seq<string>, sep: string)
    requires bodies != [] && bodies[|bodies| - 1] != []
    ensures EndsInReturn(Join(bodies, sep)) == EndsInReturn(bodies[|bodies| - 1])
  {
  }

  /** A group of lines without line feeds of their own holds one line
      feed fewer than it has lines. */
  lemma {:induction false} JoinLineFeeds(bodies: seq<string>)
    requires bodies != []
    requires forall i :: 0 <= i < |bodies| ==> NoLineFeed(bodies[i])
    ensures CountOf(Join(bodies, Separator), '\n') == |bodies| - 1
  {
    var n := |bodies| - 1;
    NoLineFeedCount(bodies[n]);
    if n > 0 {
      JoinLineFeeds(bodies[..n]);
      var j := Join(bodies[..n], Separator);
      CountAppend(j, Separator, '\n');
      CountAppend(j + Separator, bodies[n], '\n');
      assert Separator == "\n" + Indentation;
      CountAppend("\n", Indentation, '\n');
      NoLineFeedCount(Indentation);
      assert CountOf("\n", '\n') == 1 by {
        assert "\n"[..0] == [];
      }
    }
  }

  lemma {:induction false} NoLineFeedCount(s: string)
    requires NoLineFeed(s)
    ensures CountOf(s, '\n') == 0
  {
    if s != [] {
      assert NoLineFeed(s[..|s| - 1]);
      NoLineFeedCount(s[..|s| - 1]);
    }
  }

  /** The last character of `a + b`. */
  lemma EndsInReturnAppend(a: string, b: string)
    ensures EndsInReturn(a + b) == if b == [] then EndsInReturn(a) else EndsInReturn(b)
  {
    if b == [] {
      assert a + b == a;
    }
  }

  // --- write_attributes_for ---

  /** An attribute whose name, type and visibility are strings. */
  predicate Writable(a: Attribute) {
    a.ident.name.Str? && a.attrType.Str? && a.visibility.Str?
  }

  /** The three strings of a writable attribute that its property line
      is made of. */
  datatype Property = Property(name: string, propertyType: string, visibility: string)

  /** The property of one attribute. A part that is not a string lacks
      the method called on it: the name is stripped first, then the type
      capitalized, then the visibility turned into a symbol. */
  function PropertyOf(a: Attribute): (r: Result<Property, WriteError>)
    ensures r.Success? <==> Writable(a)
    ensures !a.ident.name.Str? ==> r == Failure(NoMethodError("strip"))
    ensures a.ident.name.Str? && !a.attrType.Str? ==> r == Failure(NoMethodError("capitalize"))
    ensures a.ident.name.Str? && a.attrType.Str? && !a.visibility.Str? ==> r == Failure(NoMethodError("to_sym"))
  {
    if !a.ident.name.Str? then Failure(NoMethodError("strip"))
    else if !a.attrType.Str? then Failure(NoMethodError("capitalize"))
    else if !a.visibility.Str? then Failure(NoMethodError("to_sym"))
    else Success(Property(a.ident.name.s, a.attrType.s, a.visibility.s))
  }

  /** The line of a property, before its line feed: the name stripped and
      underscored, the type capitalized, the visibility as a symbol. */
  function Render(p: Property, underscore: string -> string): string {
    "property :" + underscore(Strip(p.name)) + ", " + Capitalize(p.propertyType) + ", :accessor => :" + p.visibility
  }

  /** A property line ends as its visibility does, or in the colon of the
      symbol when the visibility is empty. */
  lemma RenderEnds(p: Property, underscore: string -> string)
    ensures Render(p, underscore) != [] && EndsInReturn(Render(p, underscore)) == EndsInReturn(p.visibility)
  {
    var head := "property :" + underscore(Strip(p.name)) + ", " + Capitalize(p.propertyType) + ", :accessor => :";
    assert Render(p, underscore) == head + p.visibility;
    assert head[|head| - 1] == ':';
    EndsInReturnAppend(head, p.visibility);
  }

  function Rendered(ps: seq<Property>, underscore: string -> string): (r: seq<string>)
    ensures |r| == |ps| && forall i {:trigger r[i]} :: 0 <= i < |ps| ==> r[i] == Render(ps[i], underscore)
  {
    seq(|ps|, i requires 0 <= i < |ps| => Render(ps[i], underscore))
  }

  /** The properties in attribute order, or the error of the first
      attribute that has none. */
  function Properties(attrs: seq<Attribute>): (r: Result<seq<Property>, WriteError>)
    ensures r.Success? ==> |r.value| == |attrs|
  {
    if attrs == [] then Success([])
    else
      var n := |attrs| - 1;
      match Properties(attrs[..n])
      case Failure(e) => Failure(e)
      case Success(ps) =>
        match PropertyOf(attrs[n])
        case Failure(e) => Failure(e)
        case Success(p) => Success(ps + [p])
  }

  /** The properties exist exactly when every attribute is writable, and
      then hold one property per attribute, in order. */
  lemma {:induction false} PropertiesEach(attrs: seq<Attribute>)
    ensures Properties(attrs).Success? <==> forall i :: 0 <= i < |attrs| ==> Writable(attrs[i])
    ensures Properties(attrs).Success? ==>
      forall i :: 0 <= i < |attrs| ==> PropertyOf(attrs[i]).Success? && Properties(attrs).value[i] == PropertyOf(attrs[i]).value
  {
    if attrs != [] {
      var n := |attrs| - 1;
      var front := attrs[..n];
      PropertiesEach(front);
      if Properties(front).Failure? {
        var i :| 0 <= i < n && !Writable(front[i]);
        assert !Writable(attrs[i]);
      } else if Writable(attrs[n]) {
        forall i | 0 <= i < n
          ensures Writable(attrs[i])
        {
          assert front[i] == attrs[i];
        }
      }
    }
  }

  /** The first attribute without a property decides the error. */
  lemma {:induction false} PropertiesFirstFailure(attrs: seq<Attribute>, i: nat)
    requires i < |attrs|
    requires Properties(attrs[..i]).Success?
    requires PropertyOf(attrs[i]).Failure?
    ensures Properties(attrs) == Failure(PropertyOf(attrs[i]).error)
  {
    var n := |attrs| - 1;
    if n == i {
      assert attrs[..n] == attrs[..i];
    } else {
      assert attrs[..n][..i] == attrs[..i];
      PropertiesFirstFailure(attrs[..n], i);
    }
  }

  /** What `write_attributes_for` returns for a class with these
      attributes. */
  function AttributesText(attrs: seq<Attribute>, underscore: string -> string): Result<string, WriteError> {
    match Properties(attrs)
    case Failure(e) => Failure(e)
    case Success(ps) => Success(GroupText(Rendered(ps, underscore)))
  }

  /** The attribute text is the property lines in attribute order, joined
      by a line feed and the indentation; it is empty for a class without
      attributes. The last visibility must not end in a carriage return,
      which `chop` would remove together with the final line feed. */
  lemma AttributesTextJoined(attrs: seq<Attribute>, underscore: string -> string)
    requires forall i :: 0 <= i < |attrs| ==> Writable(attrs[i])
    requires attrs != [] ==> !EndsInReturn(ToS(attrs[|attrs| - 1].visibility))
    ensures Properties(attrs).Success?
    ensures AttributesText(attrs, underscore) == Success(Join(Rendered(Properties(attrs).value, underscore), Separator))
    ensures attrs == [] ==> AttributesText(attrs, underscore) == Success("")
  {
    PropertiesEach(attrs);
    var ps := Properties(attrs).value;
    if attrs != [] {
      assert ps[|ps| - 1] == PropertyOf(attrs[|attrs| - 1]).value;
    }
    RenderedJoined(ps, underscore);
  }

  /** The group of rendered properties is their lines joined, when the
      last visibility does not end in a carriage return. */
  lemma RenderedJoined(ps: seq<Property>, underscore: string -> string)
    requires ps != [] ==> !EndsInReturn(ps[|ps| - 1].visibility)
    ensures GroupText(Rendered(ps, underscore)) == Join(Rendered(ps, underscore), Separator)
  {
    var ls := Rendered(ps, underscore);
    if ps != [] {
      RenderEnds(ps[|ps| - 1], underscore);
      JoinEnds(ls, Separator);
    }
    GroupJoined(ls);
  }

  /** One line per attribute: when no name, type or visibility holds a
      line feed, the text has one line feed fewer than the class has
      attributes. */
  lemma AttributesTextLines(attrs: seq<Attribute>, underscore: string -> string)
    requires forall i :: 0 <= i < |attrs| ==> Writable(attrs[i])
    requires attrs != [] && !EndsInReturn(ToS(attrs[|attrs| - 1].visibility))
    requires forall i :: 0 <= i < |attrs| ==> NoLineFeed(Render(PropertyOf(attrs[i]).value, underscore))
    ensures AttributesText(attrs, underscore).Success?
    ensures CountOf(AttributesText(attrs, underscore).value, '\n') == |attrs| - 1
  {
    AttributesTextJoined(attrs, underscore);
    PropertiesEach(attrs);
    var ls := Rendered(Properties(attrs).value, underscore);
    forall i | 0 <= i < |ls|
      ensures NoLineFeed(ls[i])
    {
      assert ls[i] == Render(PropertyOf(attrs[i]).value, underscore);
    }
    JoinLineFeeds(ls);
  }

  /** The property line of a writable attribute, indented unless it is
      the first one. */
  method PropertyLine(attribute: Attribute, underscore: string -> string, idx: int) returns (line: string)
    requires Writable(attribute)
    ensures line == GroupLine(idx, Render(PropertyOf(attribute).value, underscore))
  {
    var propertyName := underscore(Strip(attribute.ident.name.s));
    var propertyType := Capitalize(attribute.attrType.s);
    var propertyExtras := ", :accessor => :" + attribute.visibility.s;
    var propertyStr := new RString("property :" + propertyName + ", " + propertyType + propertyExtras + "\n");
    if idx > 0 {
      AddIndentationTo(propertyStr);
    }
    line := propertyStr.value;
  }

  /** One step of `write_attributes_for`: the property line of a writable
      attribute appended to the text. */
  method AppendProperty(attribute: Attribute, underscore: string -> string, ghost ps: seq<Property>, out: string, idx: int)
    returns (out': string)
    requires Writable(attribute)
    requires out == Layout(Terminated(Rendered(ps, underscore))) && idx == |ps|
    ensures out' == Layout(Terminated(Rendered(ps + [PropertyOf(attribute).value], underscore)))
  {
    var line := PropertyLine(attribute, underscore, idx);
    ghost var p := PropertyOf(attribute).value;
    LayoutSnoc(Rendered(ps, underscore), Render(p, underscore));
    assert Rendered(ps + [p], underscore) == Rendered(ps, underscore) + [Render(p, underscore)];
    out' := out + line;
  }

  /** One more writable attribute extends the properties by its own. */
  lemma PropertiesStep(attrs: seq<Attribute>, i: nat)
    requires i < |attrs| && Properties(attrs[..i]).Success? && PropertyOf(attrs[i]).Success?
    ensures Properties(attrs[..i + 1]) == Success(Properties(attrs[..i]).value + [PropertyOf(attrs[i]).value])
  {
    assert attrs[..i + 1][..i] == attrs[..i];
  }

  /** `write_attributes_for`: the property line of each attribute, in
      order, each after the first indented, with the final line feed
      chopped. */
  method WriteAttributesFor(c: Klass?, underscore: string -> string) returns (r: Result<string, WriteError>)
    ensures c == null ==> r == Failure(ArgumentError("Class not provided!"))
    ensures c != null ==> r == AttributesText(c.attributes, underscore)
  {
    if c == null {
      return Failure(ArgumentError("Class not provided!"));
    }
    var attrs := c.attributes;
    var out := "";
    var idx := 0;
    while idx < |attrs|
      invariant 0 <= idx <= |attrs|
      invariant Properties(attrs[..idx]).Success?
      invariant out == Layout(Terminated(Rendered(Properties(attrs[..idx]).value, underscore)))
    {
      var attribute := attrs[idx];
      var property := PropertyOf(attribute);
      if property.Failure? {
        PropertiesFirstFailure(attrs, idx);
        return Failure(property.error);
      }
      PropertiesStep(attrs, idx);
      out := AppendProperty(attribute, underscore, Properties(attrs[..idx]).value, out, idx);
      idx := idx + 1;
    }
    assert attrs[..idx] == attrs;
    r := Success(Chop(out));
  }

  // --- write_associations_for ---

  /** What the writer reads of an association. */
  datatype AssociationView = AssociationView(name: Value, toMultiplicity: Value, from: Endpoint, to: Endpoint)

  function ViewOf(a: Association): (v: AssociationView)
    reads a
    ensures v.from == a.from && v.to == a.to
    ensures v.name == a.ident.name && v.toMultiplicity == a.multiplicity.to
  {
    AssociationView(a.ident.name, a.multiplicity.to, a.from, a.to)
  }

  function Views(assocs: seq<Association>): (r: seq<AssociationView>)
    reads assocs
    ensures |r| == |assocs| && forall i {:trigger r[i]} :: 0 <= i < |assocs| ==> r[i] == ViewOf(assocs[i])
  {
    seq(|assocs|, i reads assocs requires 0 <= i < |assocs| => ViewOf(assocs[i]))
  }

  /** A `has` line is due when the far end has a multiplicity and is not
      this very class object. */
  predicate WantsHas(v: AssociationView, c: Klass) {
    v.toMultiplicity != Nil && v.to != Linked(c)
  }

  /** A `belongs_to` line is due when the far end is a class that `eql?`
      this one. */
  predicate WantsBelongs(v: AssociationView, c: Klass) {
    v.to.Linked? && Eql(v.to.klass.ident, c.ident)
  }

  /** A `has` line: whether the count is one, the far class's name, and
      the association's name for the comment. */
  datatype HasEntry = HasEntry(one: bool, target: Value, comment: Value)

  /** A `belongs_to` line: the near class's name, and the association's
      name for the comment. */
  datatype BelongsEntry = BelongsEntry(source: Value, comment: Value)

  /** The `has` line of an association; an unresolved far end has no
      `name`. Only the Integer 1 counts as one. */
  function HasOf(v: AssociationView): (r: Result<HasEntry, WriteError>)
    ensures r.Success? <==> v.to.Linked?
    ensures r.Failure? ==> r.error == NoMethodError("name")
  {
    match v.to
    case Raw(_) => Failure(NoMethodError("name"))
    case Linked(k) => Success(HasEntry(v.toMultiplicity == Int(1), k.ident.name, v.name))
  }

  /** The `belongs_to` line of an association; an unresolved near end has
      no `name`. */
  function BelongsOf(v: AssociationView): (r: Result<BelongsEntry, WriteError>)
    ensures r.Success? <==> v.from.Linked?
    ensures r.Failure? ==> r.error == NoMethodError("name")
  {
    match v.from
    case Raw(_) => Failure(NoMethodError("name"))
    case Linked(f) => Success(BelongsEntry(f.ident.name, v.name))
  }

  /** The comment naming the association. */
  function NameComment(name: Value): string {
    " # " + ToS(name)
  }

  function RenderHas(e: HasEntry): string {
    "has " + (if e.one then "1" else "n") + ", :" + ToS(e.target) + (if e.comment != Nil then NameComment(e.comment) else "")
  }

  /** The comment is guarded by the near class's name but prints the
      association's. */
  function RenderBelongs(e: BelongsEntry): string {
    "belongs_to :" + ToS(e.source) + (if e.source != Nil then NameComment(e.comment) else "")
  }

  function RenderedHas(es: seq<HasEntry>): (r: seq<string>)
    ensures |r| == |es| && forall i {:trigger r[i]} :: 0 <= i < |es| ==> r[i] == RenderHas(es[i])
  {
    seq(|es|, i requires 0 <= i < |es| => RenderHas(es[i]))
  }

  function RenderedBelongs(es: seq<BelongsEntry>): (r: seq<string>)
    ensures |r| == |es| && forall i {:trigger r[i]} :: 0 <= i < |es| ==> r[i] == RenderBelongs(es[i])
  {
    seq(|es|, i requires 0 <= i < |es| => RenderBelongs(es[i]))
  }

  /** The `has` and the `belongs_to` lines. */
  datatype Groups = Groups(has: seq<HasEntry>, belongs: seq<BelongsEntry>)

  /** The `has` line, when one is due. */
  function HasPart(v: AssociationView, c: Klass): seq<HasEntry>
    requires WantsHas(v, c) ==> v.to.Linked?
  {
    if WantsHas(v, c) then [HasOf(v).value] else []
  }

  /** The `belongs_to` line, when one is due. */
  function BelongsPart(v: AssociationView, c: Klass): seq<BelongsEntry>
    requires WantsBelongs(v, c) ==> v.from.Linked?
  {
    if WantsBelongs(v, c) then [BelongsOf(v).value] else []
  }

  /** The lines one association contributes: its `has` line when due,
      then its `belongs_to` line when due. An end that must be named but
      is unresolved stops the writer, the far end being looked at first. */
  function Contribution(v: AssociationView, c: Klass): (r: Result<Groups, WriteError>)
    ensures r.Success? ==> |r.value.has| <= 1 && |r.value.belongs| <= 1
  {
    if WantsHas(v, c) && v.to.Raw? then Failure(NoMethodError("name"))
    else if WantsBelongs(v, c) && v.from.Raw? then Failure(NoMethodError("name"))
    else Success(Groups(HasPart(v, c), BelongsPart(v, c)))
  }

  /** The groups with one association's contribution appended. */
  function Extend(g: Groups, k: Groups): Groups {
    Groups(g.has + k.has, g.belongs + k.belongs)
  }

  /** The lines of the associations in order, or the first error. */
  function AssociationGroups(views: seq<AssociationView>, c: Klass): Result<Groups, WriteError> {
    if views == [] then Success(Groups([], []))
    else
      match AssociationGroups(views[..|views| - 1], c)
      case Failure(e) => Failure(e)
      case Success(g) =>
        match Contribution(views[|views| - 1], c)
        case Failure(e) => Failure(e)
        case Success(k) => Success(Extend(g, k))
  }

  /** What `write_associations_for` returns: the `has` and the `belongs`
      text. */
  datatype AssociationText = AssociationText(has: string, belongs: string)

  function AssociationsText(views: seq<AssociationView>, c: Klass): Result<AssociationText, WriteError> {
    match AssociationGroups(views, c)
    case Failure(e) => Failure(e)
    case Success(g) => Success(AssociationText(GroupText(RenderedHas(g.has)), GroupText(RenderedBelongs(g.belongs))))
  }

  /** Every association contributes its lines independently of the
      others, in list order: the groups of a concatenation are the groups
      of its parts, concatenated. */
  lemma {:induction false} GroupsAppend(xs: seq<AssociationView>, ys: seq<AssociationView>, c: Klass)
    requires AssociationGroups(xs, c).Success? && AssociationGroups(ys, c).Success?
    ensures AssociationGroups(xs + ys, c) == Success(Extend(AssociationGroups(xs, c).value, AssociationGroups(ys, c).value))
  {
    var gx := AssociationGroups(xs, c).value;
    if ys == [] {
      assert xs + ys == xs;
      assert Extend(gx, Groups([], [])) == gx;
    } else {
      var n := |ys| - 1;
      var front := ys[..n];
      var last := ys[n];
      var zs := xs + ys;
      assert zs[..|zs| - 1] == xs + front && zs[|zs| - 1] == last;
      assert AssociationGroups(front, c).Success? && Contribution(last, c).Success?;
      var gy := AssociationGroups(front, c).value;
      var k := Contribution(last, c).value;
      assert AssociationGroups(ys, c) == Success(Extend(gy, k));
      GroupsAppend(xs, front, c);
      assert AssociationGroups(zs, c) == Success(Extend(Extend(gx, gy), k));
      ExtendAssociative(gx, gy, k);
    }
  }

  lemma ExtendAssociative(a: Groups, b: Groups, d: Groups)
    ensures Extend(Extend(a, b), d) == Extend(a, Extend(b, d))
  {
    assert (a.has + b.has) + d.has == a.has + (b.has + d.has);
    assert (a.belongs + b.belongs) + d.belongs == a.belongs + (b.belongs + d.belongs);
  }

  /** The groups exist exactly when every association can be written. */
  lemma {:induction false} GroupsSucceed(views: seq<AssociationView>, c: Klass)
    ensures AssociationGroups(views, c).Success? <==> forall i :: 0 <= i < |views| ==> Contribution(views[i], c).Success?
  {
    if views != [] {
      var n := |views| - 1;
      var front := views[..n];
      GroupsSucceed(front, c);
      if AssociationGroups(front, c).Failure? {
        var i :| 0 <= i < n && Contribution(front[i], c).Failure?;
        assert Contribution(views[i], c).Failure?;
      } else if Contribution(views[n], c).Success? {
        forall i | 0 <= i < n
          ensures Contribution(views[i], c).Success?
        {
          assert front[i] == views[i];
        }
      }
    }
  }

  /** An association whose far end is another class, not `eql?` to this
      one, with a multiplicity gives exactly one `has` line, naming the
      far class, counted one only for the Integer 1. */
  lemma ContributionHas(v: AssociationView, c: Klass, k: Klass)
    requires v.to == Linked(k) && k != c && !Eql(k.ident, c.ident) && v.toMultiplicity != Nil
    ensures Contribution(v, c) == Success(Groups([HasEntry(v.toMultiplicity == Int(1), k.ident.name, v.name)], []))
  {
  }

  /** A `has` line says "has 1" for a count of one and "has n" otherwise. */
  lemma RenderHasCount(e: HasEntry)
    ensures RenderHas(e)[..5] == (if e.one then "has 1" else "has n")
  {
  }

  /** Neither line is written for an association without a far
      multiplicity whose far end is not this class. */
  lemma ContributionNone(v: AssociationView, c: Klass)
    requires v.toMultiplicity == Nil && !WantsBelongs(v, c)
    ensures Contribution(v, c) == Success(Groups([], []))
  {
  }

  /** An association that points to this very class gives a `belongs_to`
      line naming the near class and no `has` line. */
  lemma ContributionSelf(v: AssociationView, c: Klass, f: Klass)
    requires v.to == Linked(c) && v.from == Linked(f)
    ensures Contribution(v, c) == Success(Groups([], [BelongsEntry(f.ident.name, v.name)]))
  {
    EqlReflexive(c.ident);
  }

  /** `eql?` is looser than object identity: an association pointing to a
      different class object with the same ID or Model ID gives both a
      `has` line and a `belongs_to` line. */
  lemma ContributionBoth(v: AssociationView, c: Klass, k: Klass, f: Klass)
    requires v.to == Linked(k) && k != c && Eql(k.ident, c.ident)
    requires v.from == Linked(f) && v.toMultiplicity != Nil
    ensures Contribution(v, c) == Success(Groups([HasEntry(v.toMultiplicity == Int(1), k.ident.name, v.name)],
                                                 [BelongsEntry(f.ident.name, v.name)]))
  {
  }

  /** A far end that stayed unresolved cannot be written when a `has` line
      is due, and a near end that stayed unresolved cannot be written
      when a `belongs_to` line is due: neither has a name. */
  lemma ContributionUnresolved(v: AssociationView, c: Klass)
    ensures v.to.Raw? && v.toMultiplicity != Nil ==> Contribution(v, c) == Failure(NoMethodError("name"))
    ensures WantsBelongs(v, c) && v.from.Raw? ==> Contribution(v, c) == Failure(NoMethodError("name"))
  {
  }

  /** The comment of a `belongs_to` line follows the near class's name,
      not the association's: a named near class on an unnamed
      association gives an empty comment, and an unnamed near class drops
      the association's name. */
  lemma BelongsCommentGuard(e: BelongsEntry)
    ensures e.source != Nil && e.comment == Nil ==> RenderBelongs(e) == "belongs_to :" + ToS(e.source) + " # "
    ensures e.source == Nil ==> RenderBelongs(e) == "belongs_to :"
    ensures e.source != Nil && e.comment != Nil ==> RenderBelongs(e) == "belongs_to :" + ToS(e.source) + " # " + ToS(e.comment)
  {
  }

  /** The association texts are the two groups joined by a line feed and
      the indentation, when neither group ends in a carriage return. */
  lemma AssociationsTextJoined(views: seq<AssociationView>, c: Klass)
    requires AssociationGroups(views, c).Success?
    requires !EndsInReturn(Join(RenderedHas(AssociationGroups(views, c).value.has), Separator))
    requires !EndsInReturn(Join(RenderedBelongs(AssociationGroups(views, c).value.belongs), Separator))
    ensures AssociationsText(views, c) == Success(AssociationText(
      Join(RenderedHas(AssociationGroups(views, c).value.has), Separator),
      Join(RenderedBelongs(AssociationGroups(views, c).value.belongs), Separator)))
  {
    GroupJoined(RenderedHas(AssociationGroups(views, c).value.has));
    GroupJoined(RenderedBelongs(AssociationGroups(views, c).value.belongs));
  }

  /** A line body as the writer appends it to a group in which `written`
      lines precede it: ended by a line feed, indented unless first. */
  function GroupLine(written: int, body: string): string {
    (if written > 0 then Indentation else "") + (body + "\n")
  }

  /** Appending a line to a group. */
  lemma LayoutSnoc(bs: seq<string>, b: string)
    ensures Layout(Terminated(bs + [b])) == Layout(Terminated(bs)) + GroupLine(|bs|, b)
  {
    assert Terminated(bs + [b])[..|bs|] == Terminated(bs);
  }

  /** The `has` line of an association, indented unless it is the first
      one written. */
  method HasLine(v: AssociationView, written: int) returns (line: string)
    requires v.to.Linked?
    ensures line == GroupLine(written, RenderHas(HasOf(v).value))
  {
    var isOne := v.toMultiplicity == Int(1);
    var count := if isOne then "1" else "n";
    var targetName := v.to.klass.ident.name;
    var hasStr := new RString("has " + count + ", :" + ToS(targetName));
    if v.name != Nil {
      hasStr.value := hasStr.value + NameComment(v.name);
    }
    hasStr.value := hasStr.value + "\n";
    if written > 0 {
      AddIndentationTo(hasStr);
    }
    line := hasStr.value;
  }

  /** The `belongs_to` line of an association, indented unless it is the
      first one written. */
  method BelongsLine(v: AssociationView, written: int) returns (line: string)
    requires v.from.Linked?
    ensures line == GroupLine(written, RenderBelongs(BelongsOf(v).value))
  {
    var fromName := v.from.klass.ident.name;
    var belongsStr := new RString("belongs_to :" + ToS(fromName));
    if fromName != Nil {
      belongsStr.value := belongsStr.value + NameComment(v.name);
    }
    belongsStr.value := belongsStr.value + "\n";
    if written > 0 {
      AddIndentationTo(belongsStr);
    }
    line := belongsStr.value;
  }

  /** The `has` half of one step: the association's `has` line, when
      due, appended to the `has` text. */
  method AppendHas(v: AssociationView, c: Klass, ghost lines: seq<HasEntry>, out: string, written: int)
    returns (out': string, written': int)
    requires WantsHas(v, c) ==> v.to.Linked?
    requires out == Layout(Terminated(RenderedHas(lines))) && written == |lines|
    ensures out' == Layout(Terminated(RenderedHas(lines + HasPart(v, c)))) && written' == |lines + HasPart(v, c)|
  {
    if v.toMultiplicity != Nil && v.to != Linked(c) {
      var line := HasLine(v, written);
      ghost var e := HasOf(v).value;
      assert HasPart(v, c) == [e];
      LayoutSnoc(RenderedHas(lines), RenderHas(e));
      assert RenderedHas(lines + [e]) == RenderedHas(lines) + [RenderHas(e)];
      out', written' := out + line, written + 1;
    } else {
      assert HasPart(v, c) == [];
      assert lines + [] == lines;
      out', written' := out, written;
    }
  }

  /** The `belongs_to` half of one step. */
  method AppendBelongs(v: AssociationView, c: Klass, ghost lines: seq<BelongsEntry>, out: string, written: int)
    returns (out': string, written': int)
    requires WantsBelongs(v, c) ==> v.from.Linked?
    requires out == Layout(Terminated(RenderedBelongs(lines))) && written == |lines|
    ensures out' == Layout(Terminated(RenderedBelongs(lines + BelongsPart(v, c)))) && written' == |lines + BelongsPart(v, c)|
  {
    if v.to.Linked? && Eql(v.to.klass.ident, c.ident) {
      var line := BelongsLine(v, written);
      ghost var e := BelongsOf(v).value;
      assert BelongsPart(v, c) == [e];
      LayoutSnoc(RenderedBelongs(lines), RenderBelongs(e));
      assert RenderedBelongs(lines + [e]) == RenderedBelongs(lines) + [RenderBelongs(e)];
      out', written' := out + line, written + 1;
    } else {
      assert BelongsPart(v, c) == [];
      assert lines + [] == lines;
      out', written' := out, written;
    }
  }

  /** `write_associations_for`: one pass over the class's associations,
      writing each due `has` and `belongs_to` line into its group, each
      line after the first of its group indented; both groups chopped. */
  method WriteAssociationsFor(c: Klass?) returns (r: Result<AssociationText, WriteError>)
    ensures c == null ==> r == Failure(ArgumentError("Class not provided!"))
    ensures c != null ==> r == AssociationsText(Views(c.associations), c)
  {
    if c == null {
      return Failure(ArgumentError("Class not provided!"));
    }
    r := WriteAssociations(Views(c.associations), c);
  }

  /** The pass itself, over what the writer reads of each association. */
  method WriteAssociations(views: seq<AssociationView>, c: Klass) returns (r: Result<AssociationText, WriteError>)
    ensures r == AssociationsText(views, c)
  {
    var outHas, outBelongs := "", "";
    var hasCount, belongsCount := 0, 0;
    ghost var g := Groups([], []);
    var i := 0;
    while i < |views|
      invariant 0 <= i <= |views|
      invariant AssociationGroups(views[..i], c) == Success(g)
      invariant hasCount == |g.has| && belongsCount == |g.belongs|
      invariant outHas == Layout(Terminated(RenderedHas(g.has)))
      invariant outBelongs == Layout(Terminated(RenderedBelongs(g.belongs)))
    {
      var v := views[i];
      if v.toMultiplicity != Nil && v.to != Linked(c) && v.to.Raw? {
        GroupsStepFails(views, c, i);
        return Failure(NoMethodError("name"));
      }
      if v.to.Linked? && Eql(v.to.klass.ident, c.ident) && v.from.Raw? {
        GroupsStepFails(views, c, i);
        return Failure(NoMethodError("name"));
      }
      GroupsStep(views, c, i, g, v);
      outHas, hasCount := AppendHas(v, c, g.has, outHas, hasCount);
      outBelongs, belongsCount := AppendBelongs(v, c, g.belongs, outBelongs, belongsCount);
      g := Groups(g.has + HasPart(v, c), g.belongs + BelongsPart(v, c));
      i := i + 1;
    }
    assert views[..i] == views;
    r := Success(AssociationText(Chop(outHas), Chop(outBelongs)));
  }


  /** One more association extends the groups by its contribution. */
  lemma GroupsStep(views: seq<AssociationView>, c: Klass, i: nat, g: Groups, v: AssociationView)
    requires i < |views| && views[i] == v && AssociationGroups(views[..i], c) == Success(g)
    requires !(WantsHas(v, c) && v.to.Raw?) && !(WantsBelongs(v, c) && v.from.Raw?)
    ensures WantsHas(v, c) ==> v.to.Linked?
    ensures WantsBelongs(v, c) ==> v.from.Linked?
    ensures AssociationGroups(views[..i + 1], c) == Success(Groups(g.has + HasPart(v, c), g.belongs + BelongsPart(v, c)))
  {
    assert views[..i + 1][..i] == views[..i];
  }

  /** An association that cannot be written stops the writer with its
      error. */
  lemma GroupsStepFails(views: seq<AssociationView>, c: Klass, i: nat)
    requires i < |views| && AssociationGroups(views[..i], c).Success?
    requires Contribution(views[i], c).Failure?
    ensures AssociationGroups(views, c) == Contribution(views[i], c)
  {
    assert views[..i + 1][..i] == views[..i];
    AssociationsFirstFailure(views, c, i + 1);
  }

  /** A failing prefix decides the error of the whole list. */
  lemma {:induction false} AssociationsFirstFailure(views: seq<AssociationView>, c: Klass, i: nat)
    requires 0 < i <= |views|
    requires AssociationGroups(views[..i], c).Failure?
    ensures AssociationGroups(views, c) == AssociationGroups(views[..i], c)
  {
    var n := |views| - 1;
    if n + 1 == i {
      assert views[..i] == views;
    } else {
      assert views[..n][..i] == views[..i];
      AssociationsFirstFailure(views[..n], c, i);
    }
  }
}
