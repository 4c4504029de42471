/**
  ItemType: an item type with a table of attribute values that is written in place while
  the type is loaded and frozen afterwards. Attribute values are doubles that are only
  stored and read back; they are modelled as reals, and so is the decimal volume.
*/
module ItemTypeModel {
  import opened Common

  /** The message of the exception a write to a frozen type raises. */
  const FROZEN_MESSAGE: string := "Item is frozen"

  /** The state the indexer's setter and Freeze change. */
  datatype ItemView = ItemView(frozen: bool, attributes: map<int32, real>)

  /** The indexer's getter: the stored value, or null when the attribute is absent. */
  function AttributeOf(v: ItemView, attr: int32): Option<real> {
    if attr in v.attributes then Some(v.attributes[attr]) else None
  }

  /** The indexer's setter: frozen raises; a null value changes nothing; otherwise the value is stored. */
  function SetStep(v: ItemView, attr: int32, value: Option<real>): (ItemView, Option<Exn>) {
    if v.frozen then (v, Some(InvalidOperation(FROZEN_MESSAGE)))
    else if value.None? then (v, None)
    else (v.(attributes := v.attributes[attr := value.value]), None)
  }

  function FreezeStep(v: ItemView): ItemView {
    v.(frozen := true)
  }

  /**
    A write sets only its own attribute: afterwards it reads back the value written and
    every other attribute reads as before; a frozen type and a null value are left as
    they are, and only a frozen type raises.
  */
  lemma SetEffect(v: ItemView, attr: int32, value: Option<real>, other: int32)
    ensures var (v', e) := SetStep(v, attr, value);
      && (e.Some? <==> v.frozen)
      && (e.Some? ==> e.value == InvalidOperation(FROZEN_MESSAGE))
      && (v.frozen || value.None? ==> v' == v)
      && (!v.frozen && value.Some? ==> AttributeOf(v', attr) == value)
      && (other != attr ==> AttributeOf(v', other) == AttributeOf(v, other))
  {
  }

  /**
    Freezing is permanent: no step unfreezes, and once frozen no write changes the table.
  */
  lemma FrozenStaysFrozen(v: ItemView, attr: int32, value: Option<real>)
    ensures FreezeStep(v).frozen && FreezeStep(v).attributes == v.attributes
    ensures SetStep(v, attr, value).0.frozen == v.frozen
    ensures v.frozen ==> SetStep(v, attr, value).0 == v
    ensures SetStep(FreezeStep(v), attr, value).0 == FreezeStep(v)
  {
  }

  class ItemType {
    var frozen: bool
    const name: string
    const typeID: int32
    const volume: real
    var attributes: map<int32, real>

    function View(): ItemView
      reads this
    {
      ItemView(frozen, attributes)
    }

    /** The constructor's stores; NewItemType performs its checks. */
    constructor (id: int32, name: string, volume: real)
      ensures typeID == id && this.name == name && this.volume == volume
      ensures View() == ItemView(false, map[])
    {
      typeID := id;
      this.name := name;
      this.volume := volume;
      frozen := false;
      attributes := map[];
    }

    function Get(attr: int32): (r: Option<real>)
      reads this
      ensures r == AttributeOf(View(), attr)
    {
      if attr in attributes then Some(attributes[attr]) else None
    }

    method Set(attr: int32, value: Option<real>) returns (thrown: Option<Exn>)
      modifies this`attributes
      ensures (View(), thrown) == SetStep(old(View()), attr, value)
    {
      if frozen {
        return Some(InvalidOperation(FROZEN_MESSAGE));
      }
      if value.Some? {
        attributes := attributes[attr := value.value];
      }
      return None;
    }

    method Freeze()
      modifies this`frozen
      ensures View() == FreezeStep(old(View()))
    {
      frozen := true;
    }

    /** Equals: by type ID; null and objects of another type are never equal. */
    predicate Equals(other: ItemType?) {
      other != null && other.typeID == typeID
    }

    function GetHashCode(): int32 {
      typeID
    }

    /** ToString: the name, which the factory never leaves empty. */
    function ToString(): string {
      name
    }
  }

  /**
    Equality is by type ID alone, whatever the name, volume or attributes: it is reflexive
    and symmetric, never holds for null, and equal item types hash equally, so the hash
    is a valid dictionary key.
  */
  lemma ItemTypeEquality(a: ItemType, b: ItemType)
    ensures a.Equals(b) <==> a.typeID == b.typeID
    ensures a.Equals(a) && !a.Equals(null)
    ensures a.Equals(b) ==> b.Equals(a) && a.GetHashCode() == b.GetHashCode()
    ensures a.GetHashCode() != b.GetHashCode() ==> !a.Equals(b)
  {
  }

  /**
    The constructor: a negative volume raises; a null or empty name becomes "Unknown"; the
    type starts unfrozen with an empty table.
  */
  method NewItemType(id: int32, name: Option<string>, volume: real) returns (r: Outcome<ItemType>)
    ensures r.Throw? <==> volume < 0.0
    ensures r.Throw? ==> r.error == ArgumentOutOfRange("volume")
    ensures r.Ok? ==> fresh(r.value) && r.value.typeID == id && r.value.volume == volume
    ensures r.Ok? ==> r.value.name == (if name.None? || name.value == "" then UNKNOWN_TEXT else name.value)
    ensures r.Ok? ==> r.value.ToString() == (if name.None? || name.value == "" then UNKNOWN_TEXT else name.value)
    ensures r.Ok? ==> r.value.ToString() != ""
    ensures r.Ok? ==> r.value.View() == ItemView(false, map[])
  {
    if volume < 0.0 {
      return Throw(ArgumentOutOfRange("volume"));
    }
    var n := if name.None? || name.value == "" then UNKNOWN_TEXT else name.value;
    var t := new ItemType(id, n, volume);
    return Ok(t);
  }

  /** ItemType.UNKNOWN_TYPE: type 0, named "Unknown", volume 1, frozen with an empty table. */
  method UnknownType() returns (t: ItemType)
    ensures fresh(t) && t.typeID == 0 && t.name == UNKNOWN_TEXT && t.volume == 1.0
    ensures t.View() == ItemView(true, map[])
  {
    t := new ItemType(0, UNKNOWN_TEXT, 1.0);
    t.Freeze();
  }
}
