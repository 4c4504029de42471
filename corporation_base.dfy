/**
  CorporationBase: an EVE corporation, an ID and a name that is never null or empty. Equality and
  the hash code depend on the ID alone.
*/
module CorporationBaseModel {
  import opened Common

  datatype CorporationBase = CorporationBase(id: int64, name: string)

  /** The constructor: a null or empty name raises ArgumentNullException for "name". */
  function NewCorporationBase(id: int64, name: Option<string>): (r: Outcome<CorporationBase>)
    ensures r.Throw? <==> name.None? || name.value == ""
    ensures r.Throw? ==> r.error == ArgumentNull("name", NULL_MESSAGE)
    ensures r.Ok? ==> r.value.id == id && Some(r.value.name) == name && r.value.name != ""
  {
    if name.None? || name.value == "" then Throw(ArgumentNull("name", NULL_MESSAGE))
    else Ok(CorporationBase(id, name.value))
  }

  /** Equals: `other` is None for null or an object of another type. */
  predicate Equals(a: CorporationBase, other: Option<CorporationBase>) {
    other.Some? && other.value.id == a.id
  }

  /** GetHashCode: the ID's hash. */
  function GetHashCode(a: CorporationBase): int32 {
    LongHash(a.id)
  }

  function ToString(a: CorporationBase): string {
    a.name
  }

  /**
    Equality is by ID alone: it is an equivalence that ignores the name, null is never
    equal, and equal corporations hash equally.
  */
  lemma CorporationBaseEquality(a: CorporationBase, b: CorporationBase, c: CorporationBase)
    ensures Equals(a, Some(a)) && !Equals(a, None)
    ensures Equals(a, Some(b)) <==> a.id == b.id
    ensures Equals(a, Some(b)) ==> Equals(b, Some(a))
    ensures Equals(a, Some(b)) && Equals(b, Some(c)) ==> Equals(a, Some(c))
    ensures Equals(a, Some(b)) ==> GetHashCode(a) == GetHashCode(b)
  {
  }

  /** A constructed corporation renders as its name, which is never empty. */
  lemma CorporationBaseToString(id: int64, name: string)
    requires name != ""
    ensures NewCorporationBase(id, Some(name)).Ok? && ToString(NewCorporationBase(id, Some(name)).value) == name
  {
  }
}
