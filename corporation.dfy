/**
  Corporation: an EVE corporation with its ticker. The name is never null or empty, the
  ticker never null; equality and the hash code depend on the ID alone.
*/
module CorporationModel {
  import opened Common

  datatype Corporation = Corporation(id: int64, name: string, ticker: string)

  /** The constructor: a null or empty name raises for "name"; a null ticker is stored as "". */
  function NewCorporation(id: int64, name: Option<string>, ticker: Option<string>): (r: Outcome<Corporation>)
    ensures r.Throw? <==> name.None? || name.value == ""
    ensures r.Throw? ==> r.error == ArgumentNull("name", NULL_MESSAGE)
    ensures r.Ok? ==> r.value.id == id && Some(r.value.name) == name
    ensures r.Ok? ==> r.value.ticker == (if ticker.Some? then ticker.value else "")
  {
    if name.None? || name.value == "" then Throw(ArgumentNull("name", NULL_MESSAGE))
    else Ok(Corporation(id, name.value, ticker.GetOr("")))
  }

  /** Equals: `other` is None for null or an object of another type. */
  predicate Equals(c: Corporation, other: Option<Corporation>) {
    other.Some? && other.value.id == c.id
  }

  function GetHashCode(c: Corporation): int32 {
    LongHash(c.id)
  }

  /** ToString: the name, a space, then the ticker in angle brackets. */
  function ToString(c: Corporation): (s: string)
    ensures |s| == |c.name| + |c.ticker| + 3
    ensures s[..|c.name|] == c.name && s[|c.name|..|c.name| + 2] == " <"
    ensures s[|c.name| + 2..|s| - 1] == c.ticker && s[|s| - 1] == '>'
  {
    c.name + " <" + c.ticker + ">"
  }

  /** Equality ignores name and ticker, is symmetric, and equal corporations hash equally. */
  lemma CorporationEquality(a: Corporation, b: Corporation)
    ensures Equals(a, Some(a)) && !Equals(a, None)
    ensures Equals(a, Some(b)) <==> a.id == b.id
    ensures Equals(a, Some(b)) <==> Equals(b, Some(a))
    ensures Equals(a, Some(b)) ==> GetHashCode(a) == GetHashCode(b)
  {
  }

  /** A corporation built without a ticker renders as "name <>". */
  lemma NullTickerRendering(id: int64, name: string)
    requires name != ""
    ensures NewCorporation(id, Some(name), None).Ok?
    ensures ToString(NewCorporation(id, Some(name), None).value) == name + " <>"
  {
  }
}
