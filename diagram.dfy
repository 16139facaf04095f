/** The diagram: sorts the rows of one exported class diagram into one
    collection per artifact kind, then runs the three linking passes over
    those collections (packages and attributes, associations, superclasses). */
module Diagrams {
  import opened Values
  import opened Artifact
  import opened Attributes
  import opened Model

  /** The Ruby class name of each artifact kind, without the module name. */
  function ClassName(k: Kind): string {
    match k
    case PackageKind => "Package"
    case ClassKind => "Klass"
    case GeneralizationKind => "Generalization"
    case AttributeKind => "Attribute"
    case AssociationKind => "Association"
  }

  /** Headers whose class has another name: the "Class" header creates a
      `Klass`. */
  const EdgeCases: map<string, string> := map["Class" := "Klass"]

  /** The header name recorded for a kind: its class name, or the edge-case
      key whose value that class name is. */
  function HeaderName(k: Kind): string {
    if ClassName(k) == EdgeCases["Class"] then "Class" else ClassName(k)
  }

  /** The header names of a list of kinds, in order. */
  function HeaderNames(ks: seq<Kind>): (r: seq<string>)
    ensures |r| == |ks| && forall i {:trigger r[i]} :: 0 <= i < |ks| ==> r[i] == HeaderName(ks[i])
  {
    if ks == [] then [] else HeaderNames(ks[..|ks| - 1]) + [HeaderName(ks[|ks| - 1])]
  }

  /** The class a header creates: the alternate name of an edge case. */
  function ItemName(header: string): string {
    if header in EdgeCases then EdgeCases[header] else header
  }

  /** `const_get` over the five artifact classes, the only names the
      headers ever pass (`HeaderRoundTrip`); any other name is outside the
      model and resolves to none. */
  function ConstGet(name: string): (r: Option<Kind>)
    ensures r.Some? ==> ClassName(r.value) == name
    ensures r.None? ==> forall k :: ClassName(k) != name
  {
    if name == "Package" then Some(PackageKind)
    else if name == "Klass" then Some(ClassKind)
    else if name == "Generalization" then Some(GeneralizationKind)
    else if name == "Attribute" then Some(AttributeKind)
    else if name == "Association" then Some(AssociationKind)
    else None
  }

  /** The collection `artifact_name.en.plural.downcase` names: an instance
      variable of that name exists only for the five header names ("Class"
      names `@classes`); for any other name, "Klass" among them,
      `get_instance_var_if_def` gives nil. */
  function Container(artifactName: string): (r: Option<Kind>)
    ensures r.Some? ==> HeaderName(r.value) == artifactName
    ensures r.None? ==> forall k :: HeaderName(k) != artifactName
  {
    if artifactName == "Package" then Some(PackageKind)
    else if artifactName == "Class" then Some(ClassKind)
    else if artifactName == "Generalization" then Some(GeneralizationKind)
    else if artifactName == "Attribute" then Some(AttributeKind)
    else if artifactName == "Association" then Some(AssociationKind)
    else None
  }

  /** The collection a built artifact joins: the named one, when it is the
      collection of the class that was built. */
  function Target(built: Option<Kind>, container: Option<Kind>): (r: Option<Kind>)
    ensures r.Some? <==> built.Some? && built == container
    ensures r.Some? ==> r == built
  {
    if built == container then built else None
  }

  /** "Klass" builds a class, yet names no collection ("klasses" is not an
      instance variable), so the class joins none. Built under the artifact
      name "Package" it is not of the packages' kind, and the typed model
      appends it nowhere. */
  lemma KlassJoinsNothing()
    ensures ConstGet("Klass") == Some(ClassKind) && Container("Klass") == None
    ensures Target(ConstGet("Klass"), Container("Klass")) == None
    ensures Target(ConstGet("Klass"), Container("Package")) == None
  {
  }

  /** The kind a row's ArtifactType tags it with: exactly the String
      header names of the diagram. */
  function TagKind(tag: Value): Option<Kind> {
    if tag == Str("Package") then Some(PackageKind)
    else if tag == Str("Class") then Some(ClassKind)
    else if tag == Str("Generalization") then Some(GeneralizationKind)
    else if tag == Str("Attribute") then Some(AttributeKind)
    else if tag == Str("Association") then Some(AssociationKind)
    else None
  }

  function KindOf(row: Row): Option<Kind> {
    TagKind(Lookup(row, "ArtifactType"))
  }

  /** The position of a kind in the load order. */
  function Index(k: Kind): (i: nat)
    ensures i < |LoadOrder| && LoadOrder[i] == k
  {
    match k
    case PackageKind => 0
    case ClassKind => 1
    case GeneralizationKind => 2
    case AttributeKind => 3
    case AssociationKind => 4
  }

  /** The header names the constructor derives from the load order. */
  lemma HeaderNamesOfLoadOrder()
    ensures HeaderNames(LoadOrder) == ["Package", "Class", "Generalization", "Attribute", "Association"]
  {
  }

  /** A header names its kind on both sides: a row tagged with the header
      is of that kind, and the class created for the header is that kind. */
  lemma HeaderRoundTrip(k: Kind)
    ensures ConstGet(ItemName(HeaderName(k))) == Some(k)
    ensures Container(HeaderName(k)) == Some(k)
    ensures TagKind(Str(HeaderName(k))) == Some(k)
  {
  }

  /** A tag equals a kind's header name exactly when it tags that kind. */
  lemma TagMatch(tag: Value, k: Kind)
    ensures tag == Str(HeaderName(k)) <==> TagKind(tag) == Some(k)
  {
  }

  /** The `i`th recorded header name is that of the `i`th kind loaded. */
  lemma HeaderAt(i: nat)
    requires i < |LoadOrder|
    ensures HeaderNames(LoadOrder)[i] == HeaderName(LoadOrder[i]) && Index(LoadOrder[i]) == i
  {
    HeaderNamesOfLoadOrder();
  }

  /** The tags are exactly the header names; the Ruby class name `Klass`
      tags nothing. */
  lemma TagsAreHeaderNames(tag: Value)
    ensures TagKind(tag).Some? <==> tag.Str? && tag.s in HeaderNames(LoadOrder)
    ensures TagKind(Str("Klass")) == None
  {
    HeaderNamesOfLoadOrder();
  }

  /** The check of the constructor's arguments. */
  datatype ArgumentError = NonameDiagram | NoArtifacts

  /** The artifact-header argument: an Array of rows, or anything else. */
  datatype Artifacts = RowArray(rows: seq<Row>) | NotAnArray

  /** The name must be a String and the artifacts an Array; neither is
      checked for emptiness. */
  function CheckArguments(name: Value, headers: Artifacts): (r: Option<ArgumentError>)
    ensures r.None? <==> name.Str? && headers.RowArray?
    ensures !name.Str? ==> r == Some(NonameDiagram)
    ensures name.Str? && !headers.RowArray? ==> r == Some(NoArtifacts)
  {
    if !name.Str? then Some(NonameDiagram)
    else if !headers.RowArray? then Some(NoArtifacts)
    else None
  }


  /** The rows of `rows` tagged with kind `k`, in order. */
  function Tagged(rows: seq<Row>, k: Kind): seq<Row> {
    if rows == [] then []
    else Tagged(rows[..|rows| - 1], k) + (if KindOf(rows[|rows| - 1]) == Some(k) then [rows[|rows| - 1]] else [])
  }

  /** The rows whose ArtifactType is none of the header names. */
  function Untagged(rows: seq<Row>): seq<Row> {
    if rows == [] then []
    else Untagged(rows[..|rows| - 1]) + (if KindOf(rows[|rows| - 1]).None? then [rows[|rows| - 1]] else [])
  }

  /** Every row lands in exactly one bucket or is dropped: a row tagged
      with a kind is kept in that kind's bucket as often as it occurs. */
  lemma {:induction false} TaggedCount(rows: seq<Row>, k: Kind, r: Row)
    ensures multiset(Tagged(rows, k))[r] == if KindOf(r) == Some(k) then multiset(rows)[r] else 0
  {
    if rows != [] {
      TaggedCount(rows[..|rows| - 1], k, r);
      assert rows == rows[..|rows| - 1] + [rows[|rows| - 1]];
    }
  }

  /** Each row yields at most one artifact: the five buckets and the
      dropped rows partition the input. */
  lemma {:induction false} TaggedPartition(rows: seq<Row>)
    ensures |Tagged(rows, PackageKind)| + |Tagged(rows, ClassKind)| + |Tagged(rows, GeneralizationKind)|
      + |Tagged(rows, AttributeKind)| + |Tagged(rows, AssociationKind)| + |Untagged(rows)| == |rows|
  {
    if rows != [] {
      TaggedPartition(rows[..|rows| - 1]);
    }
  }

  /** The attribute built from each row, in order. */
  function AttributesOf(rows: seq<Row>): seq<Attribute> {
    seq(|rows|, i requires 0 <= i < |rows| => NewAttribute(rows[i]))
  }

  /** The classes among `cs`, in order, whose Parent ID names `pid`. */
  function ClassesIn(cs: seq<Klass>, pid: Identity): seq<Klass> {
    if cs == [] then []
    else ClassesIn(cs[..|cs| - 1], pid) + (if IsParent(cs[|cs| - 1].ident, pid) then [cs[|cs| - 1]] else [])
  }

  /** A package holds each class whose Parent ID names it, once per
      occurrence, and no other class. */
  lemma {:induction false} ClassesInCount(cs: seq<Klass>, pid: Identity, c: Klass)
    ensures multiset(ClassesIn(cs, pid))[c] == if IsParent(c.ident, pid) then multiset(cs)[c] else 0
  {
    if cs != [] {
      ClassesInCount(cs[..|cs| - 1], pid, c);
      assert cs == cs[..|cs| - 1] + [cs[|cs| - 1]];
    }
  }

  /** The associations, in order, whose link pair touches `c`. */
  function LinkedTo(assocs: seq<Association>, ends: seq<(Klass?, Klass?)>, c: Klass): seq<Association>
    requires |assocs| == |ends|
  {
    if assocs == [] then []
    else LinkedTo(assocs[..|assocs| - 1], ends[..|ends| - 1], c) + (if Hits(ends[|ends| - 1], c) then [assocs[|assocs| - 1]] else [])
  }

  lemma {:induction false} LinkedToFrom(assocs: seq<Association>, ends: seq<(Klass?, Klass?)>, c: Klass, x: Association)
    requires |assocs| == |ends|
    ensures x in LinkedTo(assocs, ends, c) ==> x in assocs
  {
    if assocs != [] {
      LinkedToFrom(assocs[..|assocs| - 1], ends[..|ends| - 1], c, x);
    }
  }

  /** A linked association appears exactly once in each class it touches
      (once in all for a self-association) and in no other class. */
  lemma {:induction false} LinkedToCount(assocs: seq<Association>, ends: seq<(Klass?, Klass?)>, c: Klass, k: nat)
    requires |assocs| == |ends| && Distinct(assocs) && k < |assocs|
    ensures multiset(LinkedTo(assocs, ends, c))[assocs[k]] == if Hits(ends[k], c) then 1 else 0
  {
    var n := |assocs| - 1;
    var front, efront := assocs[..n], ends[..n];
    if k == n {
      LinkedToFrom(front, efront, c, assocs[k]);
      assert assocs[k] !in front;
    } else {
      assert Distinct(front);
      LinkedToCount(front, efront, c, k);
      assert assocs[n] != assocs[k];
    }
  }


  /** Two named values of each row, as a pair of raw ends. */
  function RawEnds(rows: seq<Row>, first: string, second: string): (r: seq<(Endpoint, Endpoint)>)
    ensures |r| == |rows| && forall k {:trigger r[k]} :: 0 <= k < |rows| ==> r[k] == (Raw(Lookup(rows[k], first)), Raw(Lookup(rows[k], second)))
  {
    seq(|rows|, k requires 0 <= k < |rows| => (Raw(Lookup(rows[k], first)), Raw(Lookup(rows[k], second))))
  }

  /** The pair try_link's scan finds for each association, from its ends. */
  function LinkPairs(ends: seq<(Endpoint, Endpoint)>, cs: seq<Klass>): (r: seq<(Klass?, Klass?)>)
    ensures |r| == |ends| && forall k {:trigger r[k]} :: 0 <= k < |ends| ==> r[k] == Scan(cs, ends[k].0, ends[k].1, null, null)
  {
    seq(|ends|, k requires 0 <= k < |ends| => Scan(cs, ends[k].0, ends[k].1, null, null))
  }

  /** A generalization's resolved pair sets the superclass of `c`. */
  predicate Assigns(r: (Endpoint, Endpoint), c: Klass) {
    r.0.Linked? && r.1.Linked? && r.1.klass == c
  }

  /** The superclass `c` ends with: the general class of the last
      generalization that assigns it, or `dflt`. */
  function SuperOf(rs: seq<(Endpoint, Endpoint)>, c: Klass, dflt: Klass?): Klass? {
    if rs == [] then dflt
    else if Assigns(rs[|rs| - 1], c) then rs[|rs| - 1].0.klass
    else SuperOf(rs[..|rs| - 1], c, dflt)
  }

  /** The last generalization that resolves with `c` as its specific class
      decides `c`'s superclass. */
  lemma {:induction false} SuperOfLast(rs: seq<(Endpoint, Endpoint)>, c: Klass, dflt: Klass?, j: nat)
    requires j < |rs| && Assigns(rs[j], c)
    requires forall k :: j < k < |rs| ==> !Assigns(rs[k], c)
    ensures SuperOf(rs, c, dflt) == rs[j].0.klass
  {
    if j < |rs| - 1 {
      SuperOfLast(rs[..|rs| - 1], c, dflt, j);
    }
  }

  /** A class ends with a superclass exactly when some generalization
      resolves with it as the specific class. */
  lemma {:induction false} SuperOfSet(rs: seq<(Endpoint, Endpoint)>, c: Klass)
    ensures SuperOf(rs, c, null) != null <==> exists k :: 0 <= k < |rs| && Assigns(rs[k], c)
  {
    if rs != [] {
      var front := rs[..|rs| - 1];
      SuperOfSet(front, c);
      assert forall k :: 0 <= k < |front| ==> front[k] == rs[k];
    }
  }

  /** A class no generalization resolves to keeps its superclass. */
  lemma {:induction false} SuperOfNone(rs: seq<(Endpoint, Endpoint)>, c: Klass, dflt: Klass?)
    requires forall k :: 0 <= k < |rs| ==> !Assigns(rs[k], c)
    ensures SuperOf(rs, c, dflt) == dflt
  {
    if rs != [] {
      SuperOfNone(rs[..|rs| - 1], c, dflt);
    }
  }


  /** The ends try_assign_superclass leaves in each generalization. */
  function Resolutions(ends: seq<(Endpoint, Endpoint)>, cs: seq<Klass>): (r: seq<(Endpoint, Endpoint)>)
    ensures |r| == |ends| && forall j {:trigger r[j]} :: 0 <= j < |ends| ==> r[j] == Resolution(cs, ends[j].0, ends[j].1)
  {
    seq(|ends|, j requires 0 <= j < |ends| => Resolution(cs, ends[j].0, ends[j].1))
  }

  /** The state each constructor leaves its artifact in. */
  ghost predicate PackageOf(p: Package, row: Row)
    reads p
  {
    p.ident == FromRow(row) && p.classes == []
  }

  ghost predicate ClassOf(c: Klass, row: Row)
    reads c
  {
    && c.ident == FromRow(row) && c.isAbstract == AbstractFlag(Lookup(row, "Abstract"))
    && c.attributes == [] && c.associations == [] && c.package == null && c.superclass == null
  }

  ghost predicate GeneralizationOf(g: Generalization, row: Row)
    reads g
  {
    g.ident == FromRow(row) && g.general == Raw(Lookup(row, "General")) && g.specific == Raw(Lookup(row, "Specific"))
  }

  /** The constant part of an association built from `row`. */
  predicate AssociationFrom(a: Association, row: Row) {
    && a.ident == FromRow(row)
    && a.multiplicity == Multiplicity(Lookup(row, "Multiplicity"), Lookup(row, "From Multiplicity"), Lookup(row, "To Multiplicity"))
    && a.aggregationKind == AggregationKind(Lookup(row, "From Aggregation Kind"), Lookup(row, "To Aggregation Kind"))
  }

  ghost predicate AssociationOf(a: Association, row: Row)
    reads a
  {
    AssociationFrom(a, row) && a.from == Raw(Lookup(row, "From")) && a.to == Raw(Lookup(row, "To"))
  }

  /** One artifact per row, in order, each as its constructor left it. */
  ghost predicate PackagesOf(ps: seq<Package>, rows: seq<Row>)
    reads ps
  {
    |ps| == |rows| && forall j :: 0 <= j < |ps| ==> PackageOf(ps[j], rows[j])
  }

  ghost predicate ClassesOf(cs: seq<Klass>, rows: seq<Row>)
    reads cs
  {
    |cs| == |rows| && forall i :: 0 <= i < |cs| ==> ClassOf(cs[i], rows[i])
  }

  ghost predicate GeneralizationsOf(gs: seq<Generalization>, rows: seq<Row>)
    reads gs
  {
    |gs| == |rows| && forall j :: 0 <= j < |gs| ==> GeneralizationOf(gs[j], rows[j])
  }

  ghost predicate AssociationsOf(assocs: seq<Association>, rows: seq<Row>)
    reads assocs
  {
    |assocs| == |rows| && forall k :: 0 <= k < |assocs| ==> AssociationOf(assocs[k], rows[k])
  }

  /** Appending a row extends its kind's bucket by that row. */
  lemma TaggedSnoc(rows: seq<Row>, row: Row, k: Kind)
    ensures Tagged(rows + [row], k) == Tagged(rows, k) + (if KindOf(row) == Some(k) then [row] else [])
  {
    assert (rows + [row])[..|rows|] == rows;
  }

  /** Appending what one row created keeps each bucket in row order. */
  lemma PackagesGrow(ps: seq<Package>, ps2: seq<Package>, rs: seq<Row>, row: Row, n: nat)
    requires PackagesOf(ps, rs) && Grew(ps, ps2, n) && n <= 1
    requires forall j :: |ps| <= j < |ps2| ==> PackageOf(ps2[j], row)
    ensures PackagesOf(ps2, rs + if n == 1 then [row] else [])
  {
  }

  lemma ClassesGrow(cs: seq<Klass>, cs2: seq<Klass>, rs: seq<Row>, row: Row, n: nat)
    requires ClassesOf(cs, rs) && Grew(cs, cs2, n) && n <= 1
    requires forall i :: |cs| <= i < |cs2| ==> ClassOf(cs2[i], row)
    ensures ClassesOf(cs2, rs + if n == 1 then [row] else [])
  {
  }

  lemma GeneralizationsGrow(gs: seq<Generalization>, gs2: seq<Generalization>, rs: seq<Row>, row: Row, n: nat)
    requires GeneralizationsOf(gs, rs) && Grew(gs, gs2, n) && n <= 1
    requires forall j :: |gs| <= j < |gs2| ==> GeneralizationOf(gs2[j], row)
    ensures GeneralizationsOf(gs2, rs + if n == 1 then [row] else [])
  {
  }

  lemma AssociationsGrow(assocs: seq<Association>, assocs2: seq<Association>, rs: seq<Row>, row: Row, n: nat)
    requires AssociationsOf(assocs, rs) && Grew(assocs, assocs2, n) && n <= 1
    requires forall k :: |assocs| <= k < |assocs2| ==> AssociationOf(assocs2[k], row)
    ensures AssociationsOf(assocs2, rs + if n == 1 then [row] else [])
  {
  }

  lemma AttributesOfSnoc(rs: seq<Row>, row: Row)
    ensures AttributesOf(rs + [row]) == AttributesOf(rs) + [NewAttribute(row)]
  {
  }

  /** Sorting one more row: each bucket grows by what the row created. */
  lemma SortStep(rows: seq<Row>, row: Row, ps: seq<Package>, ps2: seq<Package>, cs: seq<Klass>, cs2: seq<Klass>,
                 gs: seq<Generalization>, gs2: seq<Generalization>, assocs: seq<Association>, assocs2: seq<Association>,
                 attrs2: seq<Attribute>)
    requires PackagesOf(ps, Tagged(rows, PackageKind)) && Grew(ps, ps2, Count(KindOf(row), PackageKind))
    requires ClassesOf(cs, Tagged(rows, ClassKind)) && Grew(cs, cs2, Count(KindOf(row), ClassKind))
    requires GeneralizationsOf(gs, Tagged(rows, GeneralizationKind)) && Grew(gs, gs2, Count(KindOf(row), GeneralizationKind))
    requires AssociationsOf(assocs, Tagged(rows, AssociationKind)) && Grew(assocs, assocs2, Count(KindOf(row), AssociationKind))
    requires attrs2 == AttributesOf(Tagged(rows, AttributeKind)) + if KindOf(row) == Some(AttributeKind) then [NewAttribute(row)] else []
    requires forall j :: |ps| <= j < |ps2| ==> PackageOf(ps2[j], row)
    requires forall i :: |cs| <= i < |cs2| ==> ClassOf(cs2[i], row)
    requires forall j :: |gs| <= j < |gs2| ==> GeneralizationOf(gs2[j], row)
    requires forall k :: |assocs| <= k < |assocs2| ==> AssociationOf(assocs2[k], row)
    ensures PackagesOf(ps2, Tagged(rows + [row], PackageKind))
    ensures ClassesOf(cs2, Tagged(rows + [row], ClassKind))
    ensures GeneralizationsOf(gs2, Tagged(rows + [row], GeneralizationKind))
    ensures AssociationsOf(assocs2, Tagged(rows + [row], AssociationKind))
    ensures attrs2 == AttributesOf(Tagged(rows + [row], AttributeKind))
  {
    var k := KindOf(row);
    TaggedSnoc(rows, row, PackageKind);
    TaggedSnoc(rows, row, ClassKind);
    TaggedSnoc(rows, row, GeneralizationKind);
    TaggedSnoc(rows, row, AttributeKind);
    TaggedSnoc(rows, row, AssociationKind);
    PackagesGrow(ps, ps2, Tagged(rows, PackageKind), row, Count(k, PackageKind));
    ClassesGrow(cs, cs2, Tagged(rows, ClassKind), row, Count(k, ClassKind));
    GeneralizationsGrow(gs, gs2, Tagged(rows, GeneralizationKind), row, Count(k, GeneralizationKind));
    AssociationsGrow(assocs, assocs2, Tagged(rows, AssociationKind), row, Count(k, AssociationKind));
    if k == Some(AttributeKind) {
      AttributesOfSnoc(Tagged(rows, AttributeKind), row);
    }
  }

  lemma TakeSnoc<T>(s: seq<T>, n: nat)
    requires n < |s|
    ensures s[..n + 1] == s[..n] + [s[n]]
  {
  }

  /** What `try_link` leaves in an association's ends given the pair its
      scan found: both classes when both were found, else the old ends. */
  function LinkResult(e: (Klass?, Klass?), ends: (Endpoint, Endpoint)): (Endpoint, Endpoint) {
    if e.0 != null && e.1 != null then (Linked(e.0), Linked(e.1)) else ends
  }

  lemma ClassesInSnoc(cs: seq<Klass>, pid: Identity, i: nat)
    requires i < |cs|
    ensures ClassesIn(cs[..i + 1], pid) == ClassesIn(cs[..i], pid) + if IsParent(cs[i].ident, pid) then [cs[i]] else []
  {
    assert cs[..i + 1][..i] == cs[..i];
  }

  lemma LinkedToSnoc(assocs: seq<Association>, ends: seq<(Klass?, Klass?)>, c: Klass, k: nat)
    requires |assocs| == |ends| && k < |assocs|
    ensures LinkedTo(assocs[..k + 1], ends[..k + 1], c) == LinkedTo(assocs[..k], ends[..k], c) + if Hits(ends[k], c) then [assocs[k]] else []
  {
    assert assocs[..k + 1][..k] == assocs[..k] && ends[..k + 1][..k] == ends[..k];
  }

  /** In a list of distinct packages a class is appended to a package once
      when that package is its parent, else not at all. */
  lemma JoinsOnce(ps: seq<Package>, j: nat, c: Klass)
    requires Distinct(ps) && j < |ps|
    ensures Repeat(c, Occurrences(c.ident, ps, ps[j])) == if IsParent(c.ident, ps[j].ident) then [c] else []
  {
    DistinctOnce(ps, ps[j]);
  }

  lemma AppendAssoc<T>(a: seq<T>, b: seq<T>, c: seq<T>)
    ensures a + b + c == a + (b + c)
  {
  }

  /** What the linking passes change in a class: its package, attributes,
      associations and superclass. */
  datatype ClassState = ClassState(package: Package?, attributes: seq<Attribute>, associations: seq<Association>, superclass: Klass?)

  /** The state a class is built with. */
  const Blank: ClassState := ClassState(null, [], [], null)

  ghost function StateOf(c: Klass): ClassState
    reads c
  {
    ClassState(c.package, c.attributes, c.associations, c.superclass)
  }

  /** The state of each class, in order. */
  ghost function StatesOf(cs: seq<Klass>): (r: seq<ClassState>)
    reads cs
    ensures |r| == |cs| && forall i {:trigger r[i]} :: 0 <= i < |cs| ==> r[i] == StateOf(cs[i])
  {
    seq(|cs|, i requires 0 <= i < |cs| reads cs => StateOf(cs[i]))
  }

  /** The class list of each package, in order. */
  ghost function ClassLists(ps: seq<Package>): (r: seq<seq<Klass>>)
    reads ps
    ensures |r| == |ps| && forall j {:trigger r[j]} :: 0 <= j < |ps| ==> r[j] == ps[j].classes
  {
    seq(|ps|, j requires 0 <= j < |ps| reads ps => ps[j].classes)
  }

  /** The (From, To) ends of each association, in order. */
  ghost function EndsOf(assocs: seq<Association>): (r: seq<(Endpoint, Endpoint)>)
    reads assocs
    ensures |r| == |assocs| && forall k {:trigger r[k]} :: 0 <= k < |assocs| ==> r[k] == (assocs[k].from, assocs[k].to)
  {
    seq(|assocs|, k requires 0 <= k < |assocs| reads assocs => (assocs[k].from, assocs[k].to))
  }

  /** The (General, Specific) ends of each generalization, in order. */
  ghost function GenEndsOf(gs: seq<Generalization>): (r: seq<(Endpoint, Endpoint)>)
    reads gs
    ensures |r| == |gs| && forall j {:trigger r[j]} :: 0 <= j < |gs| ==> r[j] == (gs[j].general, gs[j].specific)
  {
    seq(|gs|, j requires 0 <= j < |gs| reads gs => (gs[j].general, gs[j].specific))
  }

  /** The class lists once the classes `cs` have joined their packages. */
  function Joined(before: seq<seq<Klass>>, ps: seq<Package>, cs: seq<Klass>): (r: seq<seq<Klass>>)
    requires |before| == |ps|
    ensures |r| == |ps| && forall j {:trigger r[j]} :: 0 <= j < |ps| ==> r[j] == before[j] + ClassesIn(cs, ps[j].ident)
  {
    seq(|ps|, j requires 0 <= j < |ps| => before[j] + ClassesIn(cs, ps[j].ident))
  }

  /** The class states once the first `n` classes have matched their
      package and collected their attributes. */
  function Fit(before: seq<ClassState>, cs: seq<Klass>, ps: seq<Package>, attrs: seq<Attribute>, n: nat): (r: seq<ClassState>)
    requires |before| == |cs|
    ensures |r| == |cs| && forall i {:trigger r[i]} :: 0 <= i < |cs| ==> r[i] == if i < n then
      before[i].(package := LastParent(cs[i].ident, ps, before[i].package), attributes := before[i].attributes + Children(cs[i].ident, attrs))
      else before[i]
  {
    seq(|cs|, i requires 0 <= i < |cs| => if i < n then
      before[i].(package := LastParent(cs[i].ident, ps, before[i].package), attributes := before[i].attributes + Children(cs[i].ident, attrs))
      else before[i])
  }

  /** The class states once the first `n` associations have linked. */
  function Attach(before: seq<ClassState>, cs: seq<Klass>, assocs: seq<Association>, links: seq<(Klass?, Klass?)>, n: nat)
    : (r: seq<ClassState>)
    requires |before| == |cs| && |assocs| == |links| && n <= |assocs|
    ensures |r| == |cs| && forall i {:trigger r[i]} :: 0 <= i < |cs| ==>
      r[i] == before[i].(associations := before[i].associations + LinkedTo(assocs[..n], links[..n], cs[i]))
  {
    seq(|cs|, i requires 0 <= i < |cs| => before[i].(associations := before[i].associations + LinkedTo(assocs[..n], links[..n], cs[i])))
  }

  /** The class states once the first `n` generalizations have resolved. */
  function Supered(before: seq<ClassState>, cs: seq<Klass>, gens: seq<(Endpoint, Endpoint)>, n: nat): (r: seq<ClassState>)
    requires |before| == |cs| && n <= |gens|
    ensures |r| == |cs| && forall i {:trigger r[i]} :: 0 <= i < |cs| ==>
      r[i] == before[i].(superclass := SuperOf(gens[..n], cs[i], before[i].superclass))
  {
    seq(|cs|, i requires 0 <= i < |cs| => before[i].(superclass := SuperOf(gens[..n], cs[i], before[i].superclass)))
  }

  /** The ends once the first `n` associations have linked. */
  function Relinked(before: seq<(Endpoint, Endpoint)>, links: seq<(Klass?, Klass?)>, n: nat): (r: seq<(Endpoint, Endpoint)>)
    requires |before| == |links|
    ensures |r| == |before| && forall k {:trigger r[k]} :: 0 <= k < |before| ==> r[k] == if k < n then LinkResult(links[k], before[k]) else before[k]
  {
    seq(|before|, k requires 0 <= k < |before| => if k < n then LinkResult(links[k], before[k]) else before[k])
  }

  /** The ends once the first `n` generalizations have resolved theirs. */
  function Reassigned(before: seq<(Endpoint, Endpoint)>, res: seq<(Endpoint, Endpoint)>, n: nat): (r: seq<(Endpoint, Endpoint)>)
    requires |before| == |res|
    ensures |r| == |before| && forall j {:trigger r[j]} :: 0 <= j < |before| ==> r[j] == if j < n then res[j] else before[j]
  {
    seq(|before|, j requires 0 <= j < |before| => if j < n then res[j] else before[j])
  }

  lemma JoinedNone(before: seq<seq<Klass>>, ps: seq<Package>, cs: seq<Klass>)
    requires |before| == |ps| && cs == []
    ensures Joined(before, ps, cs) == before
  {
    forall j | 0 <= j < |ps|
      ensures Joined(before, ps, cs)[j] == before[j]
    {
      assert before[j] + [] == before[j];
    }
  }

  lemma AttachNone(before: seq<ClassState>, cs: seq<Klass>, assocs: seq<Association>, links: seq<(Klass?, Klass?)>)
    requires |before| == |cs| && |assocs| == |links|
    ensures Attach(before, cs, assocs, links, 0) == before
  {
    forall i | 0 <= i < |cs|
      ensures Attach(before, cs, assocs, links, 0)[i] == before[i]
    {
      assert assocs[..0] == [] && before[i].associations + [] == before[i].associations;
    }
  }

  lemma SuperedNone(before: seq<ClassState>, cs: seq<Klass>, gens: seq<(Endpoint, Endpoint)>)
    requires |before| == |cs|
    ensures Supered(before, cs, gens, 0) == before
  {
    assert gens[..0] == [];
  }

  /** One class of the first pass of `refine_classes`, for the packages:
      class `i` has been appended to each package that is its parent, to
      the lists `lists` they held before. */
  lemma JoinStep(ps: seq<Package>, cs: seq<Klass>, i: nat, l0: seq<seq<Klass>>, lists: seq<seq<Klass>>)
    requires Distinct(ps) && i < |cs| && |l0| == |ps|
    requires lists == Joined(l0, ps, cs[..i])
    requires forall j :: 0 <= j < |ps| ==> ps[j].classes == lists[j] + Repeat(cs[i], Occurrences(cs[i].ident, ps, ps[j]))
    ensures ClassLists(ps) == Joined(l0, ps, cs[..i + 1])
  {
    forall j | 0 <= j < |ps|
      ensures ClassLists(ps)[j] == Joined(l0, ps, cs[..i + 1])[j]
    {
      var x := if IsParent(cs[i].ident, ps[j].ident) then [cs[i]] else [];
      JoinsOnce(ps, j, cs[i]);
      ClassesInSnoc(cs, ps[j].ident, i);
      AppendAssoc(l0[j], ClassesIn(cs[..i], ps[j].ident), x);
    }
  }

  /** The same for the classes: only class `i` has a new package and new
      attributes. */
  lemma FitStep(ps: seq<Package>, cs: seq<Klass>, attrs: seq<Attribute>, i: nat, s0: seq<ClassState>, states: seq<ClassState>)
    requires Distinct(cs) && i < |cs| && |s0| == |cs|
    requires states == Fit(s0, cs, ps, attrs, i)
    requires StateOf(cs[i]) == states[i].(package := LastParent(cs[i].ident, ps, states[i].package),
                                          attributes := states[i].attributes + Children(cs[i].ident, attrs))
    requires forall i' :: 0 <= i' < |cs| && cs[i'] != cs[i] ==> StateOf(cs[i']) == states[i']
    ensures StatesOf(cs) == Fit(s0, cs, ps, attrs, i + 1)
  {
    forall i' | 0 <= i' < |cs|
      ensures StatesOf(cs)[i'] == Fit(s0, cs, ps, attrs, i + 1)[i']
    {
      if i' != i {
        assert cs[i'] != cs[i];
      }
    }
  }

  /** One association of the second pass of `refine_classes`, for the
      classes: association `k` has been appended to the classes it hits. */
  lemma AttachStep(cs: seq<Klass>, assocs: seq<Association>, links: seq<(Klass?, Klass?)>, k: nat,
                   s0: seq<ClassState>, states: seq<ClassState>)
    requires |s0| == |cs| && |assocs| == |links| && k < |assocs|
    requires states == Attach(s0, cs, assocs, links, k)
    requires forall i :: 0 <= i < |cs| ==>
      StateOf(cs[i]) == states[i].(associations := states[i].associations + if Hits(links[k], cs[i]) then [assocs[k]] else [])
    ensures StatesOf(cs) == Attach(s0, cs, assocs, links, k + 1)
  {
    forall i | 0 <= i < |cs|
      ensures StatesOf(cs)[i] == Attach(s0, cs, assocs, links, k + 1)[i]
    {
      LinkedToSnoc(assocs, links, cs[i], k);
      AppendAssoc(s0[i].associations, LinkedTo(assocs[..k], links[..k], cs[i]), if Hits(links[k], cs[i]) then [assocs[k]] else []);
    }
  }

  /** The same for the ends: only association `k` has new ends. */
  lemma RelinkStep(assocs: seq<Association>, links: seq<(Klass?, Klass?)>, k: nat,
                   e0: seq<(Endpoint, Endpoint)>, ends: seq<(Endpoint, Endpoint)>)
    requires Distinct(assocs) && |assocs| == |links| == |e0| && k < |assocs|
    requires ends == Relinked(e0, links, k)
    requires (assocs[k].from, assocs[k].to) == LinkResult(links[k], ends[k])
    requires forall k' :: 0 <= k' < |assocs| && assocs[k'] != assocs[k] ==> (assocs[k'].from, assocs[k'].to) == ends[k']
    ensures EndsOf(assocs) == Relinked(e0, links, k + 1)
  {
    forall k' | 0 <= k' < |assocs|
      ensures EndsOf(assocs)[k'] == Relinked(e0, links, k + 1)[k']
    {
      if k' != k {
        assert assocs[k'] != assocs[k];
      }
    }
  }

  lemma SuperOfSnoc(gens: seq<(Endpoint, Endpoint)>, c: Klass, dflt: Klass?, n: nat)
    requires n < |gens|
    ensures SuperOf(gens[..n + 1], c, dflt) == if Assigns(gens[n], c) then gens[n].0.klass else SuperOf(gens[..n], c, dflt)
  {
    assert gens[..n + 1][..n] == gens[..n];
  }

  /** One generalization of `assign_class_generalizations`, for the
      classes: the class generalization `j` assigns has its superclass. */
  lemma SuperStep(cs: seq<Klass>, gens: seq<(Endpoint, Endpoint)>, j: nat, s0: seq<ClassState>, states: seq<ClassState>)
    requires |s0| == |cs| && j < |gens|
    requires states == Supered(s0, cs, gens, j)
    requires forall i :: 0 <= i < |cs| ==>
      StateOf(cs[i]) == states[i].(superclass := if Assigns(gens[j], cs[i]) then gens[j].0.klass else states[i].superclass)
    ensures StatesOf(cs) == Supered(s0, cs, gens, j + 1)
  {
    forall i | 0 <= i < |cs|
      ensures StatesOf(cs)[i] == Supered(s0, cs, gens, j + 1)[i]
    {
      SuperOfSnoc(gens, cs[i], s0[i].superclass, j);
    }
  }

  /** The same for the ends: only generalization `j` has new ends. */
  lemma ReassignStep(gs: seq<Generalization>, res: seq<(Endpoint, Endpoint)>, j: nat,
                     e0: seq<(Endpoint, Endpoint)>, ends: seq<(Endpoint, Endpoint)>)
    requires Distinct(gs) && |gs| == |res| == |e0| && j < |gs|
    requires ends == Reassigned(e0, res, j)
    requires (gs[j].general, gs[j].specific) == res[j]
    requires forall j' :: 0 <= j' < |gs| && gs[j'] != gs[j] ==> (gs[j'].general, gs[j'].specific) == ends[j']
    ensures GenEndsOf(gs) == Reassigned(e0, res, j + 1)
  {
    forall j' | 0 <= j' < |gs|
      ensures GenEndsOf(gs)[j'] == Reassigned(e0, res, j + 1)[j']
    {
      if j' != j {
        assert gs[j'] != gs[j];
      }
    }
  }

  /** Each package's classes after `refine_classes`: the classes whose
      Parent ID names it, in class order. */
  function Members(ps: seq<Package>, cs: seq<Klass>): (r: seq<seq<Klass>>)
    ensures |r| == |ps| && forall j {:trigger r[j]} :: 0 <= j < |ps| ==> r[j] == ClassesIn(cs, ps[j].ident)
  {
    seq(|ps|, j requires 0 <= j < |ps| => ClassesIn(cs, ps[j].ident))
  }

  /** Each class's state after `populate!`: its last parent package, its
      child attributes, the associations linked to it, and the general class
      of the last generalization that resolved to it. */
  function Refined(cs: seq<Klass>, ps: seq<Package>, attrs: seq<Attribute>, linked: seq<Association>,
                   links: seq<(Klass?, Klass?)>, gens: seq<(Endpoint, Endpoint)>): (r: seq<ClassState>)
    requires |linked| == |links|
    ensures |r| == |cs| && forall i {:trigger r[i]} :: 0 <= i < |cs| ==>
      r[i] == ClassState(LastParent(cs[i].ident, ps, null), Children(cs[i].ident, attrs), LinkedTo(linked, links, cs[i]), SuperOf(gens, cs[i], null))
  {
    seq(|cs|, i requires 0 <= i < |cs| =>
      ClassState(LastParent(cs[i].ident, ps, null), Children(cs[i].ident, attrs), LinkedTo(linked, links, cs[i]), SuperOf(gens, cs[i], null)))
  }

  /** After the passes: one package per package row, each holding its
      child classes in class order. */
  ghost predicate PackagesPopulated(ps: seq<Package>, cs: seq<Klass>, rows: seq<Row>)
    reads ps
  {
    && |ps| == |rows| && (forall j :: 0 <= j < |ps| ==> ps[j].ident == FromRow(rows[j]))
    && ClassLists(ps) == Members(ps, cs)
  }

  /** After the passes: one class per class row, each in its `Refined`
      state. */
  ghost predicate ClassesPopulated(cs: seq<Klass>, ps: seq<Package>, attrs: seq<Attribute>, linked: seq<Association>,
                                   links: seq<(Klass?, Klass?)>, gens: seq<(Endpoint, Endpoint)>, rows: seq<Row>)
    requires |linked| == |links|
    reads cs
  {
    && |cs| == |rows|
    && (forall i :: 0 <= i < |cs| ==> cs[i].ident == FromRow(rows[i]) && cs[i].isAbstract == AbstractFlag(Lookup(rows[i], "Abstract")))
    && StatesOf(cs) == Refined(cs, ps, attrs, linked, links, gens)
  }

  /** After the passes: one association per association row; those whose
      two ends resolved hold the two classes, the others their raw ends. */
  ghost predicate AssociationsLinked(linked: seq<Association>, links: seq<(Klass?, Klass?)>, rows: seq<Row>)
    requires |links| == |rows|
    reads linked
  {
    && |linked| == |rows| && (forall k :: 0 <= k < |linked| ==> AssociationFrom(linked[k], rows[k]))
    && EndsOf(linked) == Relinked(RawEnds(rows, "From", "To"), links, |links|)
  }

  /** After the passes: one generalization per generalization row, with the
      ends try_assign_superclass resolved. */
  ghost predicate GeneralizationsResolved(gs: seq<Generalization>, gens: seq<(Endpoint, Endpoint)>, rows: seq<Row>)
    reads gs
  {
    |gs| == |rows| && (forall j :: 0 <= j < |gs| ==> gs[j].ident == FromRow(rows[j])) && GenEndsOf(gs) == gens
  }

  /** What the constructors leave, stated on the snapshots. */
  lemma BuiltPackages(ps: seq<Package>, rows: seq<Row>)
    requires PackagesOf(ps, rows)
    ensures ClassLists(ps) == Repeat([], |ps|)
    ensures forall j :: 0 <= j < |ps| ==> ps[j].ident == FromRow(rows[j])
  {
    assert forall j :: 0 <= j < |ps| ==> ClassLists(ps)[j] == Repeat([], |ps|)[j];
  }

  lemma BuiltClasses(cs: seq<Klass>, rows: seq<Row>)
    requires ClassesOf(cs, rows)
    ensures StatesOf(cs) == Repeat(Blank, |cs|)
    ensures forall i :: 0 <= i < |cs| ==> cs[i].ident == FromRow(rows[i]) && cs[i].isAbstract == AbstractFlag(Lookup(rows[i], "Abstract"))
  {
    assert forall i :: 0 <= i < |cs| ==> StatesOf(cs)[i] == Repeat(Blank, |cs|)[i];
  }

  lemma BuiltGeneralizations(gs: seq<Generalization>, rows: seq<Row>)
    requires GeneralizationsOf(gs, rows)
    ensures GenEndsOf(gs) == RawEnds(rows, "General", "Specific")
    ensures forall j :: 0 <= j < |gs| ==> gs[j].ident == FromRow(rows[j])
  {
    assert forall j :: 0 <= j < |gs| ==> GenEndsOf(gs)[j] == RawEnds(rows, "General", "Specific")[j];
  }

  lemma BuiltAssociations(assocs: seq<Association>, rows: seq<Row>)
    requires AssociationsOf(assocs, rows)
    ensures EndsOf(assocs) == RawEnds(rows, "From", "To")
    ensures forall k :: 0 <= k < |assocs| ==> AssociationFrom(assocs[k], rows[k])
  {
    assert forall k :: 0 <= k < |assocs| ==> EndsOf(assocs)[k] == RawEnds(rows, "From", "To")[k];
  }

  /** One freshly built class after the attribute/package pass and the
      association pass. */
  lemma AttachedAt(cs: seq<Klass>, ps: seq<Package>, attrs: seq<Attribute>, linked: seq<Association>,
                   links: seq<(Klass?, Klass?)>, i: nat)
    requires |linked| == |links| && i < |cs|
    ensures Attach(Fit(Repeat(Blank, |cs|), cs, ps, attrs, |cs|), cs, linked, links, |linked|)[i]
      == ClassState(LastParent(cs[i].ident, ps, null), Children(cs[i].ident, attrs), LinkedTo(linked, links, cs[i]), null)
  {
    var c := cs[i];
    assert linked[..|linked|] == linked && links[..|links|] == links;
    var fitted := Fit(Repeat(Blank, |cs|), cs, ps, attrs, |cs|);
    assert [] + Children(c.ident, attrs) == Children(c.ident, attrs);
    assert fitted[i] == ClassState(LastParent(c.ident, ps, null), Children(c.ident, attrs), [], null);
    assert [] + LinkedTo(linked, links, c) == LinkedTo(linked, links, c);
  }

  /** The three passes, run from freshly built classes, reach `Refined`. */
  lemma PassesCompose(cs: seq<Klass>, ps: seq<Package>, attrs: seq<Attribute>, linked: seq<Association>,
                      links: seq<(Klass?, Klass?)>, gens: seq<(Endpoint, Endpoint)>)
    requires |linked| == |links|
    ensures Supered(Attach(Fit(Repeat(Blank, |cs|), cs, ps, attrs, |cs|), cs, linked, links, |linked|), cs, gens, |gens|)
      == Refined(cs, ps, attrs, linked, links, gens)
  {
    assert gens[..|gens|] == gens;
    var attached := Attach(Fit(Repeat(Blank, |cs|), cs, ps, attrs, |cs|), cs, linked, links, |linked|);
    var refined := Refined(cs, ps, attrs, linked, links, gens);
    forall i | 0 <= i < |cs|
      ensures Supered(attached, cs, gens, |gens|)[i] == refined[i]
    {
      AttachedAt(cs, ps, attrs, linked, links, i);
    }
  }

  /** The classes the three passes leave, from freshly built ones. */
  lemma ClassesAfterPasses(cs: seq<Klass>, ps: seq<Package>, attrs: seq<Attribute>, linked: seq<Association>,
                           links: seq<(Klass?, Klass?)>, gens: seq<(Endpoint, Endpoint)>, rows: seq<Row>)
    requires |linked| == |links| && |cs| == |rows|
    requires forall i :: 0 <= i < |cs| ==> cs[i].ident == FromRow(rows[i]) && cs[i].isAbstract == AbstractFlag(Lookup(rows[i], "Abstract"))
    requires StatesOf(cs) == Supered(Attach(Fit(Repeat(Blank, |cs|), cs, ps, attrs, |cs|), cs, linked, links, |linked|), cs, gens, |gens|)
    ensures ClassesPopulated(cs, ps, attrs, linked, links, gens, rows)
  {
    PassesCompose(cs, ps, attrs, linked, links, gens);
  }

  /** The packages the first pass leaves, from freshly built ones. */
  lemma PackagesAfterPasses(ps: seq<Package>, cs: seq<Klass>, rows: seq<Row>)
    requires |ps| == |rows| && forall j :: 0 <= j < |ps| ==> ps[j].ident == FromRow(rows[j])
    requires ClassLists(ps) == Joined(Repeat([], |ps|), ps, cs)
    ensures PackagesPopulated(ps, cs, rows)
  {
    forall j | 0 <= j < |ps|
      ensures ClassLists(ps)[j] == Members(ps, cs)[j]
    {
      assert [] + ClassesIn(cs, ps[j].ident) == ClassesIn(cs, ps[j].ident);
    }
  }

  /** The four populated parts make up `Populated`. */
  lemma PopulatedAfterPasses(d: Diagram, rows: seq<Row>, linked: seq<Association>, links: seq<(Klass?, Klass?)>,
                             g0: seq<(Endpoint, Endpoint)>)
    requires d.artifactHeaders.None? && d.attributes.None? && d.associations.None?
    requires PackagesPopulated(d.packages, d.classes, Tagged(rows, PackageKind))
    requires links == LinkPairs(RawEnds(Tagged(rows, AssociationKind), "From", "To"), d.classes)
    requires |linked| == |links| && Distinct(linked) && AssociationsLinked(linked, links, Tagged(rows, AssociationKind))
    requires g0 == RawEnds(Tagged(rows, GeneralizationKind), "General", "Specific")
    requires |d.generalizations| == |Tagged(rows, GeneralizationKind)|
    requires forall j :: 0 <= j < |d.generalizations| ==> d.generalizations[j].ident == FromRow(Tagged(rows, GeneralizationKind)[j])
    requires GenEndsOf(d.generalizations) == Resolutions(g0, d.classes)
    requires ClassesPopulated(d.classes, d.packages, AttributesOf(Tagged(rows, AttributeKind)), linked, links, Resolutions(g0, d.classes), Tagged(rows, ClassKind))
    ensures d.Populated(rows, linked)
  {
  }

  /** An association whose two ends were both resolved, one of them to `c`. */
  ghost predicate Touches(a: Association, c: Klass)
    reads a
  {
    a.from.Linked? && a.to.Linked? && (a.from.klass == c || a.to.klass == c)
  }

  /** After `populate!`, every association is in a class's association list
      exactly once when it was linked with that class at one of its ends
      (once in all for a self-association), and otherwise not at all; the
      list holds nothing but the diagram's associations. */
  lemma PopulatedAssociationOnce(d: Diagram, rows: seq<Row>, linked: seq<Association>, i: nat, k: nat)
    requires d.Populated(rows, linked) && i < |d.classes| && k < |linked|
    ensures multiset(d.classes[i].associations)[linked[k]] == if Touches(linked[k], d.classes[i]) then 1 else 0
    ensures forall x :: x in d.classes[i].associations ==> x in linked
  {
    var srows := Tagged(rows, AssociationKind);
    var raw := RawEnds(srows, "From", "To");
    var links := LinkPairs(raw, d.classes);
    var gens := Resolutions(RawEnds(Tagged(rows, GeneralizationKind), "General", "Specific"), d.classes);
    var c := d.classes[i];
    assert StatesOf(d.classes)[i].associations == LinkedTo(linked, links, c);
    assert EndsOf(linked) == Relinked(raw, links, |links|);
    assert EndsOf(linked)[k] == (linked[k].from, linked[k].to);
    assert Relinked(raw, links, |links|)[k] == LinkResult(links[k], raw[k]);
    LinkedToCount(linked, links, c, k);
    forall x | x in c.associations ensures x in linked {
      LinkedToFrom(linked, links, c, x);
    }
  }

  /** After `populate!`, a class is `subclassed?` exactly when some
      generalization has resolved with a class as its general end and this
      class as its specific end. */
  lemma PopulatedSubclassed(d: Diagram, rows: seq<Row>, linked: seq<Association>, i: nat)
    requires d.Populated(rows, linked) && i < |d.classes|
    ensures d.classes[i].Subclassed() <==>
      exists k :: 0 <= k < |d.generalizations| && d.generalizations[k].general.Linked? && d.generalizations[k].specific == Linked(d.classes[i])
  {
    var gens := Resolutions(RawEnds(Tagged(rows, GeneralizationKind), "General", "Specific"), d.classes);
    assert StatesOf(d.classes)[i].superclass == SuperOf(gens, d.classes[i], null);
    SuperOfSet(gens, d.classes[i]);
    assert forall k :: 0 <= k < |gens| ==> gens[k] == (d.generalizations[k].general, d.generalizations[k].specific);
  }

  /** After `populate!`, a class is `abstract?` exactly when its row's
      Abstract value is not the String "No". */
  lemma PopulatedAbstract(d: Diagram, rows: seq<Row>, linked: seq<Association>, i: nat)
    requires d.Populated(rows, linked) && i < |d.classes|
    ensures d.classes[i].Abstract() <==> Lookup(Tagged(rows, ClassKind)[i], "Abstract") != Str("No")
  {
    AbstractUnlessNo(Lookup(Tagged(rows, ClassKind)[i], "Abstract"));
  }

  /** `after` is `before` with `n` elements appended. */
  ghost predicate Grew<T>(before: seq<T>, after: seq<T>, n: nat) {
    |after| == |before| + n && forall j :: 0 <= j < |before| ==> after[j] == before[j]
  }

  function Count(found: Option<Kind>, k: Kind): nat {
    if found == Some(k) then 1 else 0
  }

  class Diagram {
    const name: string
    var artifactHeaders: Option<seq<Row>>
    var artifactHeaderNames: seq<string>
    var packages: seq<Package>
    var classes: seq<Klass>
    var generalizations: seq<Generalization>
    /** None once refine_classes has removed the instance variable. */
    var attributes: Option<seq<Attribute>>
    var associations: Option<seq<Association>>

    ghost predicate Valid()
      reads this
    {
      && artifactHeaderNames == HeaderNames(LoadOrder)
      && Distinct(packages) && Distinct(classes) && Distinct(generalizations)
      && (associations.Some? ==> Distinct(associations.value))
      && (artifactHeaders.Some? ==> Unpopulated())
    }

    /** Every collection empty, as the constructor leaves it. */
    ghost predicate Unpopulated()
      reads this
    {
      packages == [] && classes == [] && generalizations == [] && attributes == Some([]) && associations == Some([])
    }

    /** The state after process_artifacts: each collection holds, in row
        order, one artifact per row tagged with its kind, untouched since
        its constructor. */
    ghost predicate Sorted(rows: seq<Row>)
      reads this`packages, this`classes, this`generalizations, this`attributes, this`associations
      reads packages, classes, generalizations, associations.GetOr([])
    {
      && attributes == Some(AttributesOf(Tagged(rows, AttributeKind)))
      && associations.Some?
      && PackagesOf(packages, Tagged(rows, PackageKind))
      && ClassesOf(classes, Tagged(rows, ClassKind))
      && GeneralizationsOf(generalizations, Tagged(rows, GeneralizationKind))
      && AssociationsOf(associations.value, Tagged(rows, AssociationKind))
    }

    /** The state after populate!, stated in terms of the rows and of the
        associations that refine_classes linked (and then dropped). */
    ghost predicate Populated(rows: seq<Row>, linked: seq<Association>)
      reads this, packages, classes, generalizations, linked
    {
      var srows := Tagged(rows, AssociationKind);
      var links := LinkPairs(RawEnds(srows, "From", "To"), classes);
      var gens := Resolutions(RawEnds(Tagged(rows, GeneralizationKind), "General", "Specific"), classes);
      && artifactHeaders.None? && attributes.None? && associations.None?
      && PackagesPopulated(packages, classes, Tagged(rows, PackageKind))
      && |linked| == |links| && Distinct(linked)
      && ClassesPopulated(classes, packages, AttributesOf(Tagged(rows, AttributeKind)), linked, links, gens, Tagged(rows, ClassKind))
      && AssociationsLinked(linked, links, srows)
      && GeneralizationsResolved(generalizations, gens, Tagged(rows, GeneralizationKind))
    }

    /** `initialize` once its argument check `CheckArguments` has passed
        (the ArgumentError path is that function): one header name per
        artifact subclass, in load order, and an empty collection for each. */
    constructor (name: string, rows: seq<Row>)
      ensures Valid() && Unpopulated()
      ensures this.name == name && artifactHeaders == Some(rows)
    {
      var names: seq<string> := [];
      var i := 0;
      while i < |LoadOrder|
        invariant 0 <= i <= |LoadOrder|
        invariant names == HeaderNames(LoadOrder[..i])
      {
        assert LoadOrder[..i + 1][..i] == LoadOrder[..i];
        names := names + [HeaderName(LoadOrder[i])];
        i := i + 1;
      }
      assert LoadOrder[..i] == LoadOrder;
      this.name := name;
      artifactHeaders := Some(rows);
      artifactHeaderNames := names;
      packages := [];
      classes := [];
      generalizations := [];
      attributes := Some([]);
      associations := Some([]);
    }

    /** The artifact of kind `k` built from the row, appended to the
        collection of that kind unless it was removed; nothing for none. */
    method PackInto(k: Option<Kind>, row: Row)
      modifies this`packages, this`classes, this`generalizations, this`attributes, this`associations
      ensures Grew(old(packages), packages, Count(k, PackageKind))
        && Grew(old(classes), classes, Count(k, ClassKind))
        && Grew(old(generalizations), generalizations, Count(k, GeneralizationKind))
        && attributes == (if k == Some(AttributeKind) && old(attributes).Some? then Some(old(attributes).value + [NewAttribute(row)]) else old(attributes))
        && associations.Some? == old(associations).Some?
        && (associations.Some? ==> Grew(old(associations).value, associations.value, Count(k, AssociationKind)))
      ensures forall j :: |old(packages)| <= j < |packages| ==> fresh(packages[j]) && PackageOf(packages[j], row)
      ensures forall i :: |old(classes)| <= i < |classes| ==> fresh(classes[i]) && ClassOf(classes[i], row)
      ensures forall j :: |old(generalizations)| <= j < |generalizations| ==> fresh(generalizations[j]) && GeneralizationOf(generalizations[j], row)
      ensures associations.Some? ==> forall n :: |old(associations).value| <= n < |associations.value| ==>
        fresh(associations.value[n]) && AssociationOf(associations.value[n], row)
    {
      match k {
        case None =>
        case Some(PackageKind) =>
          var p := new Package(row);
          packages := packages + [p];
        case Some(ClassKind) =>
          var c := new Klass(row);
          classes := classes + [c];
        case Some(GeneralizationKind) =>
          var g := new Generalization(row);
          generalizations := generalizations + [g];
        case Some(AttributeKind) =>
          var a := NewAttribute(row);
          if attributes.Some? {
            attributes := Some(attributes.value + [a]);
          }
        case Some(AssociationKind) =>
          var a := new Association(row);
          if associations.Some? {
            associations := Some(associations.value + [a]);
          }
      }
    }

    /** `create_and_pack_new_model_item`: the class the (alternate) name
        resolves to is built from the row and appended to the collection
        the artifact name names, when that collection exists and holds
        that kind; an undefined (or removed) collection takes nothing. */
    method CreateAndPack(artifactName: string, alternateName: Option<string>, row: Row)
      modifies this`packages, this`classes, this`generalizations, this`attributes, this`associations
      ensures var k := Target(ConstGet(alternateName.GetOr(artifactName)), Container(artifactName));
        && Grew(old(packages), packages, Count(k, PackageKind))
        && Grew(old(classes), classes, Count(k, ClassKind))
        && Grew(old(generalizations), generalizations, Count(k, GeneralizationKind))
        && attributes == (if k == Some(AttributeKind) && old(attributes).Some? then Some(old(attributes).value + [NewAttribute(row)]) else old(attributes))
        && associations.Some? == old(associations).Some?
        && (associations.Some? ==> Grew(old(associations).value, associations.value, Count(k, AssociationKind)))
      ensures forall j :: |old(packages)| <= j < |packages| ==> fresh(packages[j]) && PackageOf(packages[j], row)
      ensures forall i :: |old(classes)| <= i < |classes| ==> fresh(classes[i]) && ClassOf(classes[i], row)
      ensures forall j :: |old(generalizations)| <= j < |generalizations| ==> fresh(generalizations[j]) && GeneralizationOf(generalizations[j], row)
      ensures associations.Some? ==> forall k :: |old(associations).value| <= k < |associations.value| ==>
        fresh(associations.value[k]) && AssociationOf(associations.value[k], row)
    {
      var itemName := alternateName.GetOr(artifactName);
      var artifactClass := ConstGet(itemName);
      var container := Container(artifactName);
      PackInto(Target(artifactClass, container), row);
    }

    /** `process_current_header`: the row is created and packed once for
        the header name its ArtifactType equals, if any. */
    method ProcessCurrentHeader(row: Row)
      requires artifactHeaderNames == HeaderNames(LoadOrder)
      modifies this`packages, this`classes, this`generalizations, this`attributes, this`associations
      ensures var k := KindOf(row);
        && Grew(old(packages), packages, Count(k, PackageKind))
        && Grew(old(classes), classes, Count(k, ClassKind))
        && Grew(old(generalizations), generalizations, Count(k, GeneralizationKind))
        && attributes == (if k == Some(AttributeKind) && old(attributes).Some? then Some(old(attributes).value + [NewAttribute(row)]) else old(attributes))
        && associations.Some? == old(associations).Some?
        && (associations.Some? ==> Grew(old(associations).value, associations.value, Count(k, AssociationKind)))
      ensures forall j :: |old(packages)| <= j < |packages| ==> fresh(packages[j]) && PackageOf(packages[j], row)
      ensures forall i :: |old(classes)| <= i < |classes| ==> fresh(classes[i]) && ClassOf(classes[i], row)
      ensures forall j :: |old(generalizations)| <= j < |generalizations| ==> fresh(generalizations[j]) && GeneralizationOf(generalizations[j], row)
      ensures associations.Some? ==> forall k :: |old(associations).value| <= k < |associations.value| ==>
        fresh(associations.value[k]) && AssociationOf(associations.value[k], row)
    {
      ghost var k := KindOf(row);
      ghost var seen: Option<Kind> := None;
      var i := 0;
      while i < |artifactHeaderNames|
        invariant 0 <= i <= |artifactHeaderNames| == |LoadOrder|
        invariant seen == if k.Some? && Index(k.value) < i then k else None
        invariant Grew(old(packages), packages, Count(seen, PackageKind))
        invariant Grew(old(classes), classes, Count(seen, ClassKind))
        invariant Grew(old(generalizations), generalizations, Count(seen, GeneralizationKind))
        invariant attributes == (if seen == Some(AttributeKind) && old(attributes).Some? then Some(old(attributes).value + [NewAttribute(row)]) else old(attributes))
        invariant associations.Some? == old(associations).Some?
        invariant associations.Some? ==> Grew(old(associations).value, associations.value, Count(seen, AssociationKind))
        invariant forall j :: |old(packages)| <= j < |packages| ==> fresh(packages[j]) && PackageOf(packages[j], row)
        invariant forall i :: |old(classes)| <= i < |classes| ==> fresh(classes[i]) && ClassOf(classes[i], row)
        invariant forall j :: |old(generalizations)| <= j < |generalizations| ==> fresh(generalizations[j]) && GeneralizationOf(generalizations[j], row)
        invariant associations.Some? ==> forall k :: |old(associations).value| <= k < |associations.value| ==>
          fresh(associations.value[k]) && AssociationOf(associations.value[k], row)
      {
        var artifactHeaderName := artifactHeaderNames[i];
        var artifactType := Lookup(row, "ArtifactType");
        HeaderAt(i);
        HeaderRoundTrip(LoadOrder[i]);
        TagMatch(artifactType, LoadOrder[i]);
        if Str(artifactHeaderName) == artifactType {
          var alternate := if artifactHeaderName in EdgeCases then Some(EdgeCases[artifactHeaderName]) else None;
          assert Target(ConstGet(alternate.GetOr(artifactHeaderName)), Container(artifactHeaderName)) == Some(LoadOrder[i]);
          CreateAndPack(artifactHeaderName, alternate, row);
          seen := k;
        }
        i := i + 1;
      }
    }

    /** The block `process_artifacts` runs for one row: after processing it
        every collection holds the artifacts of the rows so far, each once. */
    method SortRow(row: Row, ghost done: seq<Row>)
      requires artifactHeaderNames == HeaderNames(LoadOrder) && Sorted(done)
      requires Distinct(packages) && Distinct(classes) && Distinct(generalizations) && Distinct(associations.value)
      modifies this`packages, this`classes, this`generalizations, this`attributes, this`associations
      ensures Sorted(done + [row])
      ensures Distinct(packages) && Distinct(classes) && Distinct(generalizations) && Distinct(associations.value)
      ensures Grew(old(packages), packages, Count(KindOf(row), PackageKind))
      ensures Grew(old(classes), classes, Count(KindOf(row), ClassKind))
      ensures Grew(old(generalizations), generalizations, Count(KindOf(row), GeneralizationKind))
      ensures Grew(old(associations).value, associations.value, Count(KindOf(row), AssociationKind))
      ensures forall j :: |old(packages)| <= j < |packages| ==> fresh(packages[j])
      ensures forall i :: |old(classes)| <= i < |classes| ==> fresh(classes[i])
      ensures forall j :: |old(generalizations)| <= j < |generalizations| ==> fresh(generalizations[j])
      ensures forall k :: |old(associations).value| <= k < |associations.value| ==> fresh(associations.value[k])
    {
      ghost var ps, cs, gs, assocs := packages, classes, generalizations, associations.value;
      ProcessCurrentHeader(row);
      SortStep(done, row, ps, packages, cs, classes, gs, generalizations, assocs, associations.value, attributes.value);
      DistinctGrow(ps, packages);
      DistinctGrow(cs, classes);
      DistinctGrow(gs, generalizations);
      DistinctGrow(assocs, associations.value);
    }

    /** The loop of `process_artifacts`: every row, in order, is sorted into
        its collection, each artifact a fresh object. */
    method SortRows(rows: seq<Row>)
      requires artifactHeaderNames == HeaderNames(LoadOrder) && Unpopulated()
      modifies this`packages, this`classes, this`generalizations, this`attributes, this`associations
      ensures Sorted(rows)
      ensures Distinct(packages) && Distinct(classes) && Distinct(generalizations) && Distinct(associations.value)
      ensures forall j :: 0 <= j < |packages| ==> fresh(packages[j])
      ensures forall i :: 0 <= i < |classes| ==> fresh(classes[i])
      ensures forall j :: 0 <= j < |generalizations| ==> fresh(generalizations[j])
      ensures forall k :: 0 <= k < |associations.value| ==> fresh(associations.value[k])
    {
      ghost var done: seq<Row> := [];
      assert AttributesOf(Tagged(done, AttributeKind)) == [];
      var n := 0;
      while n < |rows|
        invariant 0 <= n <= |rows| && done == rows[..n]
        invariant Distinct(packages) && Distinct(classes) && Distinct(generalizations)
        invariant Sorted(done) && Distinct(associations.value)
        invariant forall j :: 0 <= j < |packages| ==> fresh(packages[j])
        invariant forall i :: 0 <= i < |classes| ==> fresh(classes[i])
        invariant forall j :: 0 <= j < |generalizations| ==> fresh(generalizations[j])
        invariant forall k :: 0 <= k < |associations.value| ==> fresh(associations.value[k])
      {
        var row := rows[n];
        ghost var ps, cs, gs, assocs := packages, classes, generalizations, associations.value;
        SortRow(row, done);
        forall j | 0 <= j < |packages| ensures fresh(packages[j]) {
          if j < |ps| { assert packages[j] == ps[j]; }
        }
        forall i | 0 <= i < |classes| ensures fresh(classes[i]) {
          if i < |cs| { assert classes[i] == cs[i]; }
        }
        forall j | 0 <= j < |generalizations| ensures fresh(generalizations[j]) {
          if j < |gs| { assert generalizations[j] == gs[j]; }
        }
        forall k | 0 <= k < |associations.value| ensures fresh(associations.value[k]) {
          if k < |assocs| { assert associations.value[k] == assocs[k]; }
        }
        TakeSnoc(rows, n);
        done := done + [row];
        n := n + 1;
      }
      assert done == rows;
    }

    /** `process_artifacts`: every row is sorted into its collection, then
        the artifact headers are removed. */
    method ProcessArtifacts()
      requires Valid() && artifactHeaders.Some?
      modifies this`artifactHeaders, this`packages, this`classes, this`generalizations, this`attributes, this`associations
      ensures Valid() && artifactHeaders == None
      ensures Sorted(old(artifactHeaders).value)
      ensures forall j :: 0 <= j < |packages| ==> fresh(packages[j])
      ensures forall i :: 0 <= i < |classes| ==> fresh(classes[i])
      ensures forall j :: 0 <= j < |generalizations| ==> fresh(generalizations[j])
      ensures forall k :: 0 <= k < |associations.value| ==> fresh(associations.value[k])
    {
      var rows := artifactHeaders.value;
      SortRows(rows);
      artifactHeaders := None;
    }

    /** The block of the first `refine_classes` loop for class `i`. */
    method FitClass(current: Klass, i: nat, attrs: seq<Attribute>, ghost l0: seq<seq<Klass>>, ghost s0: seq<ClassState>)
      requires Distinct(packages) && Distinct(classes) && i < |classes| && current == classes[i] && |l0| == |packages| && |s0| == |classes|
      requires ClassLists(packages) == Joined(l0, packages, classes[..i])
      requires StatesOf(classes) == Fit(s0, classes, packages, attrs, i)
      modifies packages`classes, current`package, current`attributes
      ensures ClassLists(packages) == Joined(l0, packages, classes[..i + 1])
      ensures StatesOf(classes) == Fit(s0, classes, packages, attrs, i + 1)
    {
      ghost var lists, states := ClassLists(packages), StatesOf(classes);
      current.TryMatchPackage(packages);
      JoinStep(packages, classes, i, l0, lists);
      ghost var joined := ClassLists(packages);
      current.TryAddAttribute(attrs);
      assert ClassLists(packages) == joined;
      assert forall i' :: 0 <= i' < |classes| && classes[i'] != current ==> StateOf(classes[i']) == states[i'];
      assert StateOf(current) == states[i].(package := LastParent(current.ident, packages, states[i].package),
                                            attributes := states[i].attributes + Children(current.ident, attrs));
      FitStep(packages, classes, attrs, i, s0, states);
    }

    /** The block of the second `refine_classes` loop for association `k`. */
    method LinkAssociation(current: Association, assocs: seq<Association>, k: nat, ghost s0: seq<ClassState>, ghost e0: seq<(Endpoint, Endpoint)>)
      requires Distinct(assocs) && k < |assocs| && current == assocs[k] && |s0| == |classes| && |e0| == |assocs|
      requires StatesOf(classes) == Attach(s0, classes, assocs, LinkPairs(e0, classes), k)
      requires EndsOf(assocs) == Relinked(e0, LinkPairs(e0, classes), k)
      modifies classes`associations, current`from, current`to
      ensures StatesOf(classes) == Attach(s0, classes, assocs, LinkPairs(e0, classes), k + 1)
      ensures EndsOf(assocs) == Relinked(e0, LinkPairs(e0, classes), k + 1)
    {
      ghost var links := LinkPairs(e0, classes);
      ghost var states, ends := StatesOf(classes), EndsOf(assocs);
      assert ends[k] == e0[k] && links[k] == Scan(classes, current.from, current.to, null, null);
      current.TryLink(classes);
      forall i | 0 <= i < |classes|
        ensures StateOf(classes[i]) == states[i].(associations := states[i].associations + if Hits(links[k], classes[i]) then [current] else [])
      {
        assert classes[i] in classes;
      }
      AttachStep(classes, assocs, links, k, s0, states);
      RelinkStep(assocs, links, k, e0, ends);
    }

    /** The block of the `assign_class_generalizations` loop for
        generalization `j`. */
    method AssignGeneralization(current: Generalization, j: nat, ghost e0: seq<(Endpoint, Endpoint)>, ghost s0: seq<ClassState>)
      requires Distinct(generalizations) && j < |generalizations| == |e0| && current == generalizations[j] && |s0| == |classes|
      requires e0[j].0.Raw? && e0[j].1.Raw?
      requires GenEndsOf(generalizations) == Reassigned(e0, Resolutions(e0, classes), j)
      requires StatesOf(classes) == Supered(s0, classes, Resolutions(e0, classes), j)
      modifies current`general, current`specific, classes`superclass
      ensures GenEndsOf(generalizations) == Reassigned(e0, Resolutions(e0, classes), j + 1)
      ensures StatesOf(classes) == Supered(s0, classes, Resolutions(e0, classes), j + 1)
    {
      ghost var res := Resolutions(e0, classes);
      ghost var ends, states := GenEndsOf(generalizations), StatesOf(classes);
      assert ends[j] == e0[j] && res[j] == Resolution(classes, e0[j].0, e0[j].1);
      current.TryAssignSuperclass(classes);
      forall i | 0 <= i < |classes|
        ensures StateOf(classes[i]) == states[i].(superclass := if Assigns(res[j], classes[i]) then res[j].0.klass else states[i].superclass)
      {
        assert classes[i] in classes;
      }
      SuperStep(classes, res, j, s0, states);
      ReassignStep(generalizations, res, j, e0, ends);
    }

    /** The first pass of `refine_classes`: each class in turn joins its
        parent packages and collects the attributes whose Parent ID names
        it; the ends of associations are not touched. */
    method FitClasses(attrs: seq<Attribute>, ghost assocs: seq<Association>)
      requires Distinct(packages) && Distinct(classes)
      modifies packages`classes, classes`package, classes`attributes
      ensures EndsOf(assocs) == old(EndsOf(assocs))
      ensures ClassLists(packages) == Joined(old(ClassLists(packages)), packages, classes)
      ensures StatesOf(classes) == Fit(old(StatesOf(classes)), classes, packages, attrs, |classes|)
    {
      ghost var l0, s0 := ClassLists(packages), StatesOf(classes);
      JoinedNone(l0, packages, classes[..0]);
      assert Fit(s0, classes, packages, attrs, 0) == s0;
      var i := 0;
      while i < |classes|
        invariant 0 <= i <= |classes|
        invariant ClassLists(packages) == Joined(l0, packages, classes[..i])
        invariant StatesOf(classes) == Fit(s0, classes, packages, attrs, i)
      {
        FitClass(classes[i], i, attrs, l0, s0);
        i := i + 1;
      }
      assert classes[..i] == classes;
    }

    /** The second pass of `refine_classes`: each association in turn links
        the classes its ends name; the class lists of packages are not
        touched. */
    method LinkClasses(assocs: seq<Association>, ghost ps: seq<Package>)
      requires Distinct(assocs)
      modifies classes`associations, assocs`from, assocs`to
      ensures ClassLists(ps) == old(ClassLists(ps))
      ensures StatesOf(classes) == Attach(old(StatesOf(classes)), classes, assocs, LinkPairs(old(EndsOf(assocs)), classes), |assocs|)
      ensures EndsOf(assocs) == Relinked(old(EndsOf(assocs)), LinkPairs(old(EndsOf(assocs)), classes), |assocs|)
    {
      ghost var s0, e0 := StatesOf(classes), EndsOf(assocs);
      ghost var links := LinkPairs(e0, classes);
      AttachNone(s0, classes, assocs, links);
      assert Relinked(e0, links, 0) == e0;
      var k := 0;
      while k < |assocs|
        invariant 0 <= k <= |assocs|
        invariant StatesOf(classes) == Attach(s0, classes, assocs, links, k)
        invariant EndsOf(assocs) == Relinked(e0, links, k)
      {
        LinkAssociation(assocs[k], assocs, k, s0, e0);
        k := k + 1;
      }
    }

    /** `refine_classes`: the two passes, then the attributes and
        associations are removed. The ghost result is the list of
        associations that were linked. */
    method RefineClasses() returns (ghost linked: seq<Association>, ghost fitted: seq<ClassState>, ghost links: seq<(Klass?, Klass?)>)
      requires Distinct(packages) && Distinct(classes) && attributes.Some? && associations.Some? && Distinct(associations.value)
      modifies this`attributes, this`associations, packages`classes, classes`package, classes`attributes, classes`associations
      modifies associations.value`from, associations.value`to
      ensures attributes == None && associations == None
      ensures linked == old(associations.value) && links == LinkPairs(old(EndsOf(linked)), classes)
      ensures ClassLists(packages) == Joined(old(ClassLists(packages)), packages, classes)
      ensures fitted == Fit(old(StatesOf(classes)), classes, packages, old(attributes.value), |classes|)
      ensures StatesOf(classes) == Attach(fitted, classes, linked, links, |linked|)
      ensures EndsOf(linked) == Relinked(old(EndsOf(linked)), links, |linked|)
    {
      var assocs, attrs := associations.value, attributes.value;
      linked := assocs;
      ghost var e0 := EndsOf(assocs);
      FitClasses(attrs, assocs);
      fitted := StatesOf(classes);
      links := LinkPairs(e0, classes);
      LinkClasses(assocs, packages);
      attributes := None;
      associations := None;
    }

    /** `assign_class_generalizations`: each generalization in turn resolves
        its ends and sets the superclass of its specific class; the class
        lists of packages and the ends of associations stay as they were. */
    method AssignClassGeneralizations(ghost ps: seq<Package>, ghost linked: seq<Association>)
      requires Distinct(generalizations)
      requires forall j :: 0 <= j < |generalizations| ==> generalizations[j].general.Raw? && generalizations[j].specific.Raw?
      modifies generalizations`general, generalizations`specific, classes`superclass
      ensures ClassLists(ps) == old(ClassLists(ps)) && EndsOf(linked) == old(EndsOf(linked))
      ensures GenEndsOf(generalizations) == Resolutions(old(GenEndsOf(generalizations)), classes)
      ensures StatesOf(classes) == Supered(old(StatesOf(classes)), classes, Resolutions(old(GenEndsOf(generalizations)), classes), |generalizations|)
    {
      ghost var e0, s0 := GenEndsOf(generalizations), StatesOf(classes);
      ghost var res := Resolutions(e0, classes);
      SuperedNone(s0, classes, res);
      assert Reassigned(e0, res, 0) == e0;
      var j := 0;
      while j < |generalizations|
        invariant 0 <= j <= |generalizations|
        invariant GenEndsOf(generalizations) == Reassigned(e0, res, j)
        invariant StatesOf(classes) == Supered(s0, classes, res, j)
      {
        AssignGeneralization(generalizations[j], j, e0, s0);
        j := j + 1;
      }
      assert Reassigned(e0, res, j) == res;
    }

    /** `refine_classes` run on the sorted rows, stated on the rows. The
        ghost results are the associations it linked and the class pairs
        their raw ends resolved to. */
    method RefineSorted(ghost rows: seq<Row>) returns (ghost linked: seq<Association>, ghost links: seq<(Klass?, Klass?)>)
      requires Sorted(rows)
      requires Distinct(packages) && Distinct(classes) && Distinct(associations.value)
      modifies this`attributes, this`associations, packages`classes, classes`package, classes`attributes, classes`associations
      modifies associations.value`from, associations.value`to
      ensures attributes == None && associations == None
      ensures PackagesPopulated(packages, classes, Tagged(rows, PackageKind))
      ensures links == LinkPairs(RawEnds(Tagged(rows, AssociationKind), "From", "To"), classes)
      ensures |linked| == |links| && Distinct(linked) && AssociationsLinked(linked, links, Tagged(rows, AssociationKind))
      ensures |classes| == |Tagged(rows, ClassKind)|
      ensures forall i :: 0 <= i < |classes| ==>
        classes[i].ident == FromRow(Tagged(rows, ClassKind)[i]) && classes[i].isAbstract == AbstractFlag(Lookup(Tagged(rows, ClassKind)[i], "Abstract"))
      ensures StatesOf(classes) == Attach(Fit(Repeat(Blank, |classes|), classes, packages, AttributesOf(Tagged(rows, AttributeKind)), |classes|),
                                          classes, linked, links, |linked|)
      ensures GeneralizationsOf(generalizations, Tagged(rows, GeneralizationKind))
    {
      ghost var srows := Tagged(rows, AssociationKind);
      BuiltPackages(packages, Tagged(rows, PackageKind));
      BuiltClasses(classes, Tagged(rows, ClassKind));
      BuiltAssociations(associations.value, srows);
      ghost var fitted;
      linked, fitted, links := RefineClasses();
      PackagesAfterPasses(packages, classes, Tagged(rows, PackageKind));
    }

    /** `assign_class_generalizations` run after `refine_classes` on the
        sorted rows: it completes the populated diagram. */
    method AssignRefined(ghost rows: seq<Row>, ghost linked: seq<Association>, ghost links: seq<(Klass?, Klass?)>)
      requires artifactHeaders.None? && attributes == None && associations == None
      requires Distinct(generalizations) && GeneralizationsOf(generalizations, Tagged(rows, GeneralizationKind))
      requires PackagesPopulated(packages, classes, Tagged(rows, PackageKind))
      requires links == LinkPairs(RawEnds(Tagged(rows, AssociationKind), "From", "To"), classes)
      requires |linked| == |links| && Distinct(linked) && AssociationsLinked(linked, links, Tagged(rows, AssociationKind))
      requires |classes| == |Tagged(rows, ClassKind)|
      requires forall i :: 0 <= i < |classes| ==>
        classes[i].ident == FromRow(Tagged(rows, ClassKind)[i]) && classes[i].isAbstract == AbstractFlag(Lookup(Tagged(rows, ClassKind)[i], "Abstract"))
      requires StatesOf(classes) == Attach(Fit(Repeat(Blank, |classes|), classes, packages, AttributesOf(Tagged(rows, AttributeKind)), |classes|),
                                           classes, linked, links, |linked|)
      modifies generalizations`general, generalizations`specific, classes`superclass
      ensures Populated(rows, linked)
    {
      ghost var grows := Tagged(rows, GeneralizationKind);
      BuiltGeneralizations(generalizations, grows);
      ghost var g0 := GenEndsOf(generalizations);
      AssignClassGeneralizations(packages, linked);
      ClassesAfterPasses(classes, packages, AttributesOf(Tagged(rows, AttributeKind)), linked, links, Resolutions(g0, classes), Tagged(rows, ClassKind));
      PopulatedAfterPasses(this, rows, linked, links, g0);
    }

    /** The two passes of `populate!` that follow `process_artifacts`,
        from the sorted rows to the populated diagram. */
    method RefineAndAssign(ghost rows: seq<Row>) returns (ghost linked: seq<Association>)
      requires artifactHeaders.None? && Sorted(rows)
      requires Distinct(packages) && Distinct(classes) && Distinct(generalizations) && Distinct(associations.value)
      modifies this`attributes, this`associations, packages`classes, classes`package, classes`attributes, classes`associations
      modifies associations.value`from, associations.value`to, generalizations`general, generalizations`specific, classes`superclass
      ensures Populated(rows, linked)
    {
      ghost var links;
      linked, links := RefineSorted(rows);
      AssignRefined(rows, linked, links);
    }

    /** `populate!`: the three passes in order. Once run, the artifact
        headers are gone, so a second call fails (Ruby raises NoMethodError
        on nil) and changes nothing. */
    method Populate() returns (ok: bool, ghost linked: seq<Association>)
      requires Valid()
      modifies this
      ensures ok <==> old(artifactHeaders).Some?
      ensures !ok ==> unchanged(this)
      ensures Valid()
      ensures ok ==> Populated(old(artifactHeaders).value, linked)
    {
      if artifactHeaders.None? {
        return false, [];
      }
      ghost var rows := artifactHeaders.value;
      ProcessArtifacts();
      linked := RefineAndAssign(rows);
      ok := true;
    }
  }
}
