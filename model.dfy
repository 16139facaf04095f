/** The typed entities of a class diagram and the linking step each one
    performs against its siblings: a class joins its packages and collects
    its attributes, an association resolves and registers its two ends, a
    generalization sets the superclass of its specific class. */
module Model {
  import opened Values
  import opened Artifact
  import opened Attributes

  /** An end of an association or generalization: first the raw id read
      from the row, then, once resolved, the class it names. */
  datatype Endpoint = Raw(raw: Value) | Linked(klass: Klass)

  /** `current_class.is_my_id?(end)`: a resolved end is a class object,
      which equals no id value. */
  predicate Matches(c: Klass, e: Endpoint) {
    e.Raw? && IsMyId(c.ident, e.raw)
  }

  /** The class objects an endpoint refers to. */
  function EndClasses(e: Endpoint): set<Klass> {
    if e.Linked? then {e.klass} else {}
  }

  /** The `Abstract` flag: abstract unless the value is exactly "No". */
  predicate AbstractFlag(v: Value) {
    !(v == Str("No"))
  }

  lemma AbstractUnlessNo(v: Value)
    ensures !AbstractFlag(v) <==> v == Str("No")
    ensures AbstractFlag(Nil) && AbstractFlag(Str("Yes"))
  {
  }

  class Package {
    const ident: Identity
    var classes: seq<Klass>

    constructor (row: Row)
      ensures ident == FromRow(row)
      ensures classes == []
    {
      ident := FromRow(row);
      classes := [];
    }

    /** `add_class`: the class goes at the end, earlier members stay. */
    method AddClass(c: Klass)
      modifies this`classes
      ensures |classes| == |old(classes)| + 1
      ensures classes[..|old(classes)|] == old(classes) && classes[|old(classes)|] == c
    {
      classes := classes + [c];
    }
  }

  /** The attributes among `attrs`, in order, whose Parent ID names `parent`. */
  function Children(parent: Identity, attrs: seq<Attribute>): seq<Attribute> {
    if attrs == [] then []
    else
      var a := attrs[|attrs| - 1];
      Children(parent, attrs[..|attrs| - 1]) + (if IsParent(a.ident, parent) then [a] else [])
  }

  /** The filter keeps the order of its input: it distributes over `+`. */
  lemma {:induction false} ChildrenAppend(parent: Identity, xs: seq<Attribute>, ys: seq<Attribute>)
    ensures Children(parent, xs + ys) == Children(parent, xs) + Children(parent, ys)
    decreases |ys|
  {
    if ys == [] {
      assert xs + ys == xs;
    } else {
      var front := ys[..|ys| - 1];
      assert (xs + ys)[..|xs + ys| - 1] == xs + front;
      ChildrenAppend(parent, xs, front);
    }
  }

  /** Every attribute whose Parent ID names `parent` is kept as often as
      it occurs in `attrs`, every other one is dropped. */
  lemma {:induction false} ChildrenCount(parent: Identity, attrs: seq<Attribute>, x: Attribute)
    ensures multiset(Children(parent, attrs))[x] == if IsParent(x.ident, parent) then multiset(attrs)[x] else 0
  {
    if attrs != [] {
      var front := attrs[..|attrs| - 1];
      ChildrenCount(parent, front, x);
      assert attrs == front + [attrs[|attrs| - 1]];
    }
  }

  /** The relaxed rule does not make attribute ownership exclusive: an
      attribute without a Parent ID belongs both to a class without a Model
      ID and to a class without an ID, two classes that `eql?` tells apart. */
  lemma AttributeInTwoClasses()
    ensures exists a: Attribute, p: Identity, q: Identity ::
      !Eql(p, q) && Children(p, [a]) == [a] && Children(q, [a]) == [a]
  {
    var a := Attribute(Identity(Str("7"), Nil, Nil, Str("title")), Nil, Str("String"), Nil);
    var p := Identity(Str("1"), Nil, Nil, Nil);
    var q := Identity(Nil, Str("m2"), Nil, Nil);
    assert [a][..0] == [];
    assert !Eql(p, q) && Children(p, [a]) == [a] && Children(q, [a]) == [a];
  }

  /** The last package in `ps` that is the parent of `child`, or `dflt`. */
  function LastParent(child: Identity, ps: seq<Package>, dflt: Package?): Package? {
    if ps == [] then dflt
    else if IsParent(child, ps[|ps| - 1].ident) then ps[|ps| - 1]
    else LastParent(child, ps[..|ps| - 1], dflt)
  }

  lemma {:induction false} LastParentAt(child: Identity, ps: seq<Package>, dflt: Package?, j: nat)
    requires j < |ps| && IsParent(child, ps[j].ident)
    requires forall k :: j < k < |ps| ==> !IsParent(child, ps[k].ident)
    ensures LastParent(child, ps, dflt) == ps[j]
  {
    if j < |ps| - 1 {
      LastParentAt(child, ps[..|ps| - 1], dflt, j);
    }
  }

  lemma {:induction false} LastParentNone(child: Identity, ps: seq<Package>, dflt: Package?)
    requires forall k :: 0 <= k < |ps| ==> !IsParent(child, ps[k].ident)
    ensures LastParent(child, ps, dflt) == dflt
  {
    if ps != [] {
      LastParentNone(child, ps[..|ps| - 1], dflt);
    }
  }

  /** How many times `child` is appended to package `p` when it scans
      `ps`: once for every occurrence of a matching package. */
  function Occurrences(child: Identity, ps: seq<Package>, p: Package): nat {
    if IsParent(child, p.ident) then CountOf(ps, p) else 0
  }

  class Klass {
    const ident: Identity
    const isAbstract: bool
    var attributes: seq<Attribute>
    var associations: seq<Association>
    var package: Package?
    var superclass: Klass?

    constructor (row: Row)
      ensures ident == FromRow(row) && isAbstract == AbstractFlag(Lookup(row, "Abstract"))
      ensures attributes == [] && associations == []
      ensures package == null && superclass == null
    {
      ident := FromRow(row);
      isAbstract := AbstractFlag(Lookup(row, "Abstract"));
      attributes := [];
      associations := [];
      package := null;
      superclass := null;
    }

    /** `subclassed?`. */
    predicate Subclassed()
      reads this`superclass
      ensures Subclassed() <==> superclass != null
    {
      superclass != null
    }

    /** `abstract?`: the flag the constructor set from the row's Abstract
        value. */
    predicate Abstract()
      ensures Abstract() <==> isAbstract
    {
      isAbstract
    }

    /** `try_add_attribute`: appends, in order, the attributes whose
        Parent ID names this class. */
    method TryAddAttribute(attrs: seq<Attribute>)
      modifies this`attributes
      ensures attributes == old(attributes) + Children(ident, attrs)
    {
      var i := 0;
      while i < |attrs|
        invariant 0 <= i <= |attrs|
        invariant attributes == old(attributes) + Children(ident, attrs[..i])
      {
        var current := attrs[i];
        if IsMyId(ident, current.ident.parentId) {
          attributes := attributes + [current];
        }
        assert attrs[..i + 1][..i] == attrs[..i];
        i := i + 1;
      }
      assert attrs[..i] == attrs;
    }

    /** `try_match_package`: joins every package that is its parent (once
        per occurrence in `ps`) and keeps the last one as its package. */
    method TryMatchPackage(ps: seq<Package>)
      modifies this`package, ps`classes
      ensures package == LastParent(ident, ps, old(package))
      ensures forall j :: 0 <= j < |ps| ==> ps[j].classes == old(ps[j].classes) + Repeat(this, Occurrences(ident, ps, ps[j]))
    {
      var i := 0;
      while i < |ps|
        invariant 0 <= i <= |ps|
        invariant package == LastParent(ident, ps[..i], old(package))
        invariant forall p :: p in ps ==> p.classes == old(p.classes) + Repeat(this, Occurrences(ident, ps[..i], p))
      {
        var current := ps[i];
        assert ps[..i + 1] == ps[..i] + [current];
        assert ps[..i + 1][..i] == ps[..i];
        if IsParent(ident, current.ident) {
          package := current;
          current.classes := current.classes + [this];
        }
        i := i + 1;
      }
      assert ps[..i] == ps;
    }
  }

  datatype Multiplicity = Multiplicity(total: Value, from: Value, to: Value)

  datatype AggregationKind = AggregationKind(from: Value, to: Value)

  /** The scan of `try_link`: each class that matches an end becomes that
      end's candidate, and the scan stops once both ends have one. */
  function Scan(cs: seq<Klass>, rf: Endpoint, rt: Endpoint, f: Klass?, t: Klass?): (r: (Klass?, Klass?))
    ensures r.0 == f || r.0 in cs
    ensures r.1 == t || r.1 in cs
    decreases |cs|
  {
    if cs == [] then (f, t)
    else
      var f' := if Matches(cs[0], rf) then cs[0] else f;
      var t' := if Matches(cs[0], rt) then cs[0] else t;
      if f' != null && t' != null then (f', t') else Scan(cs[1..], rf, rt, f', t')
  }

  /** An end of the scan is found exactly when some class matches it, and
      a found end is a class of the list that matches its raw id. */
  lemma {:induction false} ScanFinds(cs: seq<Klass>, rf: Endpoint, rt: Endpoint, f: Klass?, t: Klass?)
    ensures Scan(cs, rf, rt, f, t).0 != null <==> f != null || exists i :: 0 <= i < |cs| && Matches(cs[i], rf)
    ensures Scan(cs, rf, rt, f, t).1 != null <==> t != null || exists i :: 0 <= i < |cs| && Matches(cs[i], rt)
    ensures Scan(cs, rf, rt, f, t).0 == f || (Scan(cs, rf, rt, f, t).0 in cs && Matches(Scan(cs, rf, rt, f, t).0, rf))
    ensures Scan(cs, rf, rt, f, t).1 == t || (Scan(cs, rf, rt, f, t).1 in cs && Matches(Scan(cs, rf, rt, f, t).1, rt))
    decreases |cs|
  {
    if cs != [] {
      var f' := if Matches(cs[0], rf) then cs[0] else f;
      var t' := if Matches(cs[0], rt) then cs[0] else t;
      if !(f' != null && t' != null) {
        ScanFinds(cs[1..], rf, rt, f', t');
        forall i | 0 <= i < |cs[1..]|
          ensures cs[1..][i] == cs[i + 1]
        {
        }
        assert forall i :: 0 < i < |cs| ==> cs[i] == cs[1..][i - 1];
      }
    }
  }

  /** When a single class matches each raw end, the scan finds exactly
      those two classes. */
  lemma ScanUnique(cs: seq<Klass>, rf: Endpoint, rt: Endpoint, x: Klass, y: Klass)
    requires x in cs && Matches(x, rf) && y in cs && Matches(y, rt)
    requires forall c :: c in cs && Matches(c, rf) ==> c == x
    requires forall c :: c in cs && Matches(c, rt) ==> c == y
    ensures Scan(cs, rf, rt, null, null) == (x, y)
  {
    ScanFinds(cs, rf, rt, null, null);
  }

  /** An association's link pair touches `c`: both ends resolved and one
      of them is `c`. */
  predicate Hits(e: (Klass?, Klass?), c: Klass) {
    e.0 != null && e.1 != null && (e.0 == c || e.1 == c)
  }

  class Association {
    const ident: Identity
    const multiplicity: Multiplicity
    const aggregationKind: AggregationKind
    var from: Endpoint
    var to: Endpoint

    constructor (row: Row)
      ensures ident == FromRow(row)
      ensures from == Raw(Lookup(row, "From")) && to == Raw(Lookup(row, "To"))
      ensures multiplicity == Multiplicity(Lookup(row, "Multiplicity"), Lookup(row, "From Multiplicity"), Lookup(row, "To Multiplicity"))
      ensures aggregationKind == AggregationKind(Lookup(row, "From Aggregation Kind"), Lookup(row, "To Aggregation Kind"))
    {
      ident := FromRow(row);
      from := Raw(Lookup(row, "From"));
      to := Raw(Lookup(row, "To"));
      multiplicity := Multiplicity(Lookup(row, "Multiplicity"), Lookup(row, "From Multiplicity"), Lookup(row, "To Multiplicity"));
      aggregationKind := AggregationKind(Lookup(row, "From Aggregation Kind"), Lookup(row, "To Aggregation Kind"));
    }

    /** `try_link`: when both ends resolve, they become the resolved
        classes and the association is appended once to each of them (once
        in all when both ends are the same class); otherwise nothing
        changes. No other class is touched. */
    method TryLink(cs: seq<Klass>)
      modifies this`from, this`to, cs`associations
      ensures var (f, t) := Scan(cs, old(from), old(to), null, null);
        && (if f != null && t != null then from == Linked(f) && to == Linked(t) else from == old(from) && to == old(to))
        && forall c :: c in cs ==> c.associations == old(c.associations) + if Hits((f, t), c) then [this] else []
    {
      ghost var result := Scan(cs, from, to, null, null);
      var fromClass: Klass? := null;
      var toClass: Klass? := null;
      var i := 0;
      while i < |cs|
        invariant 0 <= i <= |cs|
        invariant Scan(cs[i..], from, to, fromClass, toClass) == result
      {
        var current := cs[i];
        if Matches(current, from) {
          fromClass := current;
        }
        if Matches(current, to) {
          toClass := current;
        }
        if fromClass != null && toClass != null {
          break;
        }
        assert cs[i..][1..] == cs[i + 1..];
        i := i + 1;
      }
      assert (fromClass, toClass) == result;
      ScanFinds(cs, from, to, null, null);
      if fromClass != null && toClass != null {
        from := Linked(fromClass);
        to := Linked(toClass);
        fromClass.associations := fromClass.associations + [this];
        if from != to {
          toClass.associations := toClass.associations + [this];
        }
      }
    }
  }

  /** The resolution loop of `try_assign_superclass` for one end: every
      class that matches the end's current value replaces it. */
  function FirstMatch(cs: seq<Klass>, e: Endpoint): Endpoint
    decreases |cs|
  {
    if cs == [] then e else FirstMatch(cs[1..], if Matches(cs[0], e) then Linked(cs[0]) else e)
  }

  /** A resolved end stays as it is. */
  lemma {:induction false} FirstMatchKeepsLinked(cs: seq<Klass>, e: Endpoint)
    requires e.Linked?
    ensures FirstMatch(cs, e) == e
    decreases |cs|
  {
    if cs != [] {
      FirstMatchKeepsLinked(cs[1..], e);
    }
  }

  /** Once replaced by a class, later comparisons no longer match: the end
      resolves to the FIRST class in list order that matches its raw id. */
  lemma {:induction false} FirstMatchAt(cs: seq<Klass>, e: Endpoint, i: nat)
    requires i < |cs| && Matches(cs[i], e)
    requires forall j :: 0 <= j < i ==> !Matches(cs[j], e)
    ensures FirstMatch(cs, e) == Linked(cs[i])
    decreases |cs|
  {
    if i == 0 {
      FirstMatchKeepsLinked(cs[1..], Linked(cs[0]));
    } else {
      assert !Matches(cs[0], e);
      FirstMatchAt(cs[1..], e, i - 1);
    }
  }

  /** An end that no class matches stays raw. */
  lemma {:induction false} FirstMatchNone(cs: seq<Klass>, e: Endpoint)
    requires forall j :: 0 <= j < |cs| ==> !Matches(cs[j], e)
    ensures FirstMatch(cs, e) == e
    decreases |cs|
  {
    if cs != [] {
      FirstMatchNone(cs[1..], e);
    }
  }

  /** The ends `try_assign_superclass` leaves: with both raw ends present,
      each resolves to its first match; otherwise both stay as they are. */
  function Resolution(cs: seq<Klass>, general: Endpoint, specific: Endpoint): (Endpoint, Endpoint) {
    if general != Raw(Nil) && specific != Raw(Nil) then (FirstMatch(cs, general), FirstMatch(cs, specific))
    else (general, specific)
  }

  class Generalization {
    const ident: Identity
    var general: Endpoint
    var specific: Endpoint

    constructor (row: Row)
      ensures ident == FromRow(row)
      ensures general == Raw(Lookup(row, "General")) && specific == Raw(Lookup(row, "Specific"))
    {
      ident := FromRow(row);
      general := Raw(Lookup(row, "General"));
      specific := Raw(Lookup(row, "Specific"));
    }

    /** True when `try_assign_superclass` found both ends and set the
        superclass. */
    predicate Resolved()
      reads this
    {
      general.Linked? && specific.Linked?
    }

    /** `try_assign_superclass`: with both raw ends present, each end
        resolves to the first class that matches it; when both resolved,
        the specific class's superclass becomes the general class. No other
        superclass changes. */
    method TryAssignSuperclass(cs: seq<Klass>)
      modifies this`general, this`specific, cs`superclass, EndClasses(specific)`superclass
      ensures (general, specific) == Resolution(cs, old(general), old(specific))
      ensures old(general) != Raw(Nil) && old(specific) != Raw(Nil) && Resolved() ==>
        specific.klass.superclass == general.klass
      ensures forall c :: c in cs && !(old(general) != Raw(Nil) && old(specific) != Raw(Nil) && Resolved() && c == specific.klass) ==>
        c.superclass == old(c.superclass)
      ensures old(specific).Linked? && !(old(general) != Raw(Nil) && Resolved()) ==>
        old(specific).klass.superclass == old(specific.klass.superclass)
    {
      if general != Raw(Nil) && specific != Raw(Nil) {
        ghost var g0, s0 := general, specific;
        var i := 0;
        while i < |cs|
          invariant 0 <= i <= |cs|
          invariant FirstMatch(cs[i..], general) == FirstMatch(cs, g0)
          invariant FirstMatch(cs[i..], specific) == FirstMatch(cs, s0)
          invariant s0.Linked? ==> specific == s0
          invariant specific.Linked? ==> specific.klass in cs || specific == s0
          modifies this`general, this`specific
        {
          var current := cs[i];
          if Matches(current, general) {
            general := Linked(current);
          }
          if Matches(current, specific) {
            specific := Linked(current);
          }
          assert cs[i..][1..] == cs[i + 1..];
          i := i + 1;
        }
        if general.Linked? && specific.Linked? {
          specific.klass.superclass := general.klass;
        }
      }
    }
  }
}
