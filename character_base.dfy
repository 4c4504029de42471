/**
  CharacterBase: a character as the entity resolver hands it out, an in-game ID (0 for
  offline or local characters), a name stored without validation, and the corporation
  and alliance IDs the resolver attaches.
*/
module CharacterBaseModel {
  import opened Common

  datatype CharacterBase = CharacterBase(id: int64, name: Option<string>, corporationID: int64, allianceID: int64)

  /** The constructor stores ID and name as given; the resolver fills in the affiliation. */
  function NewCharacterBase(id: int64, name: Option<string>): (c: CharacterBase)
    ensures c.id == id && c.name == name
    ensures c.corporationID == 0 && c.allianceID == 0
  {
    CharacterBase(id, name, 0, 0)
  }

  /**
    The argument of Equals: a Character (the subclass that equality accepts), or anything
    else, including null and a plain CharacterBase.
  */
  datatype Other = IsCharacter(c: CharacterBase) | NotCharacter

  /**
    Equals, as written: only a Character with the same ID can be equal; for ID 0 its name
    must also be ordinal-equal, and reading a null name of the other character raises.
  */
  function Equals(c: CharacterBase, other: Other): Outcome<bool> {
    if other.NotCharacter? || other.c.id != c.id then Ok(false)
    else if c.id != 0 then Ok(true)
    else if other.c.name.None? then Throw(NullReference)
    else Ok(c.name == other.c.name)
  }

  /** GetHashCode, as written: the ID hash times 37 plus the name's hash, in 32-bit arithmetic. */
  function GetHashCode(c: CharacterBase, strHash: string -> int32): (r: Outcome<int32>)
    ensures r.Throw? <==> c.name.None?
    ensures r.Ok? ==> (r.value - (LongHash(c.id) * 37 + strHash(c.name.value))) % TWO_32 == 0
  {
    if c.name.None? then Throw(NullReference)
    else Ok(Wrap32(LongHash(c.id) * 37 + strHash(c.name.value)))
  }

  /** GetHashCode as evidently intended: the name takes part only where Equals compares it. */
  function HashCode(c: CharacterBase, strHash: string -> int32): Outcome<int32> {
    if c.id != 0 then Ok(LongHash(c.id))
    else if c.name.None? then Throw(NullReference)
    else Ok(Wrap32(LongHash(0) * 37 + strHash(c.name.value)))
  }

  function ToString(c: CharacterBase): Option<string> {
    c.name
  }

  /** A character renders as the name it was given; a null name renders as null. */
  lemma CharacterToString(id: int64, name: Option<string>)
    ensures ToString(NewCharacterBase(id, name)) == name
  {
  }

  /**
    What Equals decides: false for anything but a Character; otherwise same ID, and for
    ID 0 the same non-null name. It raises exactly when both IDs are 0 and the other
    character's name is null.
  */
  lemma CharacterEquality(a: CharacterBase, b: CharacterBase)
    ensures Equals(a, NotCharacter) == Ok(false)
    ensures Equals(a, IsCharacter(b)).Throw? <==> a.id == 0 && b.id == 0 && b.name.None?
    ensures Equals(a, IsCharacter(b)) == Ok(true) <==>
      a.id == b.id && (a.id != 0 || (b.name.Some? && a.name == b.name))
    ensures Equals(a, IsCharacter(b)) == Ok(true) ==> Equals(b, IsCharacter(a)) == Ok(true)
  {
  }

  /**
    The hash as written breaks the rule that equal objects hash equally: two characters
    with ID 1 and the names "A" and "BB" are equal, yet their hashes differ under a string
    hash that tells the names apart.
  */
  lemma HashDisagreesWithEquals()
    ensures var h := (s: string) => if |s| == 1 then 1 else 0;
      var a := NewCharacterBase(1, Some("A"));
      var b := NewCharacterBase(1, Some("BB"));
      && Equals(a, IsCharacter(b)) == Ok(true)
      && GetHashCode(a, h).Ok? && GetHashCode(b, h).Ok?
      && GetHashCode(a, h) != GetHashCode(b, h)
  {
    var h := (s: string) => if |s| == 1 then 1 else 0;
    var a := NewCharacterBase(1, Some("A"));
    var b := NewCharacterBase(1, Some("BB"));
    LongHashOfSmall(1);
    assert GetHashCode(a, h) == Ok(Wrap32(38));
    assert GetHashCode(b, h) == Ok(Wrap32(37));
  }

  /** With the intended hash, a character equal to another hashes like it, for every string hash. */
  lemma HashCodeAgreesWithEquals(a: CharacterBase, b: CharacterBase, strHash: string -> int32)
    requires Equals(a, IsCharacter(b)) == Ok(true)
    ensures HashCode(a, strHash).Ok? && HashCode(a, strHash) == HashCode(b, strHash)
  {
  }
}
