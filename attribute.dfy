/** An attribute of a class: built once from its row and never changed. */
module Attributes {
  import opened Values
  import opened Artifact

  datatype Attribute = Attribute(ident: Identity, visibility: Value, attrType: Value, scope: Value)

  /** The type a missing Type value is replaced with. */
  const NotApplicable: Value := Str("[N/A]")

  /** `Attribute.new(row)`. */
  function NewAttribute(row: Row): (a: Attribute)
    ensures a.ident == FromRow(row)
    ensures a.visibility == Lookup(row, "Visibility") && a.scope == Lookup(row, "Scope")
    ensures a.attrType != Nil
    ensures Lookup(row, "Type") == Nil ==> a.attrType == NotApplicable
    ensures Lookup(row, "Type") != Nil ==> a.attrType == Lookup(row, "Type")
  {
    var t := Lookup(row, "Type");
    Attribute(FromRow(row), Lookup(row, "Visibility"), if t == Nil then NotApplicable else t, Lookup(row, "Scope"))
  }
}
