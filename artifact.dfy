/** The root model: the identity every artifact copies from its row, the
    relaxed identity rule, and the registry of artifact kinds that fills
    itself as the model files are loaded. */
module Artifact {
  import opened Values

  /** ID, Model ID, Parent ID and Name of an artifact; any may be nil. */
  datatype Identity = Identity(id: Value, modelId: Value, parentId: Value, name: Value)

  /** The base constructor: each identity field is read from the row. */
  function FromRow(row: Row): (a: Identity)
    ensures "ID" in row ==> a.id == row["ID"]
    ensures "Model ID" in row ==> a.modelId == row["Model ID"]
    ensures "Parent ID" in row ==> a.parentId == row["Parent ID"]
    ensures "Name" in row ==> a.name == row["Name"]
    ensures "ID" !in row ==> a.id == Nil
    ensures "Model ID" !in row ==> a.modelId == Nil
    ensures "Parent ID" !in row ==> a.parentId == Nil
    ensures "Name" !in row ==> a.name == Nil
  {
    Identity(Lookup(row, "ID"), Lookup(row, "Model ID"), Lookup(row, "Parent ID"), Lookup(row, "Name"))
  }

  /** `eql?`: the same entity when the ids agree or the model ids agree. */
  predicate Eql(a: Identity, b: Identity) {
    a.id == b.id || a.modelId == b.modelId
  }

  /** `is_my_id?`: a candidate id names this artifact by either key. */
  predicate IsMyId(a: Identity, x: Value) {
    a.id == x || a.modelId == x
  }

  /** `is_parent?`: `p` is the artifact that `a`'s Parent ID names. */
  predicate IsParent(a: Identity, p: Identity) {
    IsMyId(p, a.parentId)
  }

  lemma IsMyIdEither(a: Identity, x: Value)
    ensures IsMyId(a, x) <==> (a.id == x || a.modelId == x)
    ensures a.id == Nil ==> IsMyId(a, Nil)
  {
  }

  lemma EqlReflexive(a: Identity)
    ensures Eql(a, a)
  {
  }

  lemma EqlSymmetric(a: Identity, b: Identity)
    ensures Eql(a, b) <==> Eql(b, a)
  {
  }

  /** Agreement on one key is enough, whatever the other key holds. */
  lemma EqlOnEitherKey(a: Identity, b: Identity)
    ensures a.id == b.id ==> Eql(a, b)
    ensures a.modelId == b.modelId ==> Eql(a, b)
    ensures Eql(a, b) ==> IsMyId(a, b.id) || IsMyId(a, b.modelId)
  {
  }

  lemma IsParentByIsMyId(a: Identity, p: Identity)
    ensures IsParent(a, p) <==> IsMyId(p, a.parentId)
  {
  }

  /** The relaxed rule is not transitive: a chain of key agreements does
      not make its ends the same entity. */
  lemma EqlNotTransitive()
    ensures exists a, b, c :: Eql(a, b) && Eql(b, c) && !Eql(a, c)
  {
    var a := Identity(Str("1"), Str("m1"), Nil, Nil);
    var b := Identity(Str("1"), Str("m2"), Nil, Nil);
    var c := Identity(Str("2"), Str("m2"), Nil, Nil);
    assert Eql(a, b) && Eql(b, c) && !Eql(a, c);
  }

  /** The subclasses of Artifact. */
  datatype Kind = PackageKind | ClassKind | GeneralizationKind | AttributeKind | AssociationKind

  /** The order in which the diagram loads the model files, and therefore
      the order in which the subclasses are defined. */
  const LoadOrder: seq<Kind> := [PackageKind, ClassKind, GeneralizationKind, AttributeKind, AssociationKind]

  /** Each subclass appears once in the load order. */
  lemma LoadOrderOnce(k: Kind)
    ensures multiset(LoadOrder)[k] == 1
  {
  }

  /** The class-level `@subclasses` list of Artifact; nil until a first
      subclass is defined. */
  class SubclassRegistry {
    var subclasses: Option<seq<Kind>>

    constructor ()
      ensures subclasses == None
    {
      subclasses := None;
    }

    /** `inherited`: the new subclass is appended to the (created on
        demand) list. */
    method Inherited(into: Kind)
      modifies this
      ensures subclasses == Some(old(subclasses).GetOr([]) + [into])
    {
      subclasses := Some(subclasses.GetOr([]) + [into]);
    }
  }

  /** Loading the model files one by one defines one subclass each. */
  method LoadModel() returns (registry: SubclassRegistry)
    ensures fresh(registry)
    ensures registry.subclasses == Some(LoadOrder)
  {
    registry := new SubclassRegistry();
    var i := 0;
    while i < |LoadOrder|
      invariant 0 <= i <= |LoadOrder|
      invariant registry.subclasses == if i == 0 then None else Some(LoadOrder[..i])
    {
      registry.Inherited(LoadOrder[i]);
      assert LoadOrder[..i + 1] == LoadOrder[..i] + [LoadOrder[i]];
      i := i + 1;
    }
    assert LoadOrder[..i] == LoadOrder;
  }
}
