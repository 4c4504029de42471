/**
  Alliance: an EVE alliance, an ID and a name that is never null or empty. Equality and
  the hash code depend on the ID alone.
*/
module AllianceModel {
  import opened Common

  datatype Alliance = Alliance(id: int64, name: string)

  /** The constructor: a null or empty name raises ArgumentNullException for "name". */
  function NewAlliance(id: int64, name: Option<string>): (r: Outcome<Alliance>)
    ensures r.Throw? <==> name.None? || name.value == ""
    ensures r.Throw? ==> r.error == ArgumentNull("name", NULL_MESSAGE)
    ensures r.Ok? ==> r.value.id == id && Some(r.value.name) == name && r.value.name != ""
  {
    if name.None? || name.value == "" then Throw(ArgumentNull("name", NULL_MESSAGE))
    else Ok(Alliance(id, name.value))
  }

  /** Equals: `other` is None for null or an object of another type. */
  predicate Equals(a: Alliance, other: Option<Alliance>) {
    other.Some? && other.value.id == a.id
  }

  /** GetHashCode: the ID's hash. */
  function GetHashCode(a: Alliance): int32 {
    LongHash(a.id)
  }

  function ToString(a: Alliance): string {
    a.name
  }

  /**
    Equality is by ID alone: it is an equivalence that ignores the name, null is never
    equal, and equal alliances hash equally.
  */
  lemma AllianceEquality(a: Alliance, b: Alliance, c: Alliance)
    ensures Equals(a, Some(a)) && !Equals(a, None)
    ensures Equals(a, Some(b)) <==> a.id == b.id
    ensures Equals(a, Some(b)) ==> Equals(b, Some(a))
    ensures Equals(a, Some(b)) && Equals(b, Some(c)) ==> Equals(a, Some(c))
    ensures Equals(a, Some(b)) ==> GetHashCode(a) == GetHashCode(b)
  {
  }

  /** A constructed alliance renders as its name, which is never empty. */
  lemma AllianceToString(id: int64, name: string)
    requires name != ""
    ensures NewAlliance(id, Some(name)).Ok? && ToString(NewAlliance(id, Some(name)).value) == name
  {
  }
}
