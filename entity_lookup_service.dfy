/**
  EntityLookupService: resolves alliance, corporation and character IDs to names (and, for
  characters, to their corporation and alliance) through a shared table of entities. A
  miss or a stale entry returns what is known at once and queues the ID on the ID-to-name
  lookup service (and, for characters, on the affiliation service); the two services'
  request handlers merge the bulk replies back into the table.

  The concurrent dictionary is a `map` updated sequentially; the clock is the parameter
  `now`; the awaited reply of a bulk request is the parameter `reply` (None for null).
*/
module EntityLookupService {
  import opened Common
  import opened EsiResult
  import EsiEndpoints
  import L = AbstractLookupService
  import AllianceModel
  import CorporationBaseModel
  import CharacterBaseModel

  /** The largest batches of IDs requested at once. */
  const MAX_AFFILIATION: int32 := 100
  const MAX_IDTONAME: int32 := 100

  /** How long a cached entry stays fresh: the default cache of UniverseNames, else 30 minutes. */
  function RefreshInterval(): (t: int)
    ensures t == 720 * TICKS_PER_SECOND
  {
    EsiEndpoints.EndpointTable();
    var a := EsiEndpoints.AttributeOf(EsiEndpoints.UniverseNames);
    if a.Some? then a.value.defaultCache else 30 * 60 * TICKS_PER_SECOND
  }

  // ---------------------------------------------------------------- entities

  /**
    One table entry, doing double duty for characters, corporations and alliances: the
    character, corporation and alliance IDs (0 where not applicable), the name, and the
    time it was created.
  */
  datatype Entity = Entity(character: int32, name: Option<string>, corporation: int32, alliance: int32, lastUpdate: Time)

  /**
    Entity.ToString: "Character #" with the corporation and alliance for a character,
    otherwise "Corporation #" or "Alliance #" and the ID.
  */
  function EntityToString(e: Entity): string {
    if e.character != 0 then
      "Character #" + IntToDecimal(e.character as int) + " (Corp=" + IntToDecimal(e.corporation as int)
        + ",Alliance=" + IntToDecimal(e.alliance as int) + ")"
    else if e.corporation != 0 then "Corporation #" + IntToDecimal(e.corporation as int)
    else "Alliance #" + IntToDecimal(e.alliance as int)
  }

  /**
    The rendering names the entity's kind, and for a corporation or an alliance the digits
    after the '#' read back as its ID.
  */
  lemma EntityToStringNamesKind(e: Entity)
    requires e.corporation >= 0 && e.alliance >= 0
    ensures var r := EntityToString(e);
      && (e.character != 0 <==> |r| >= 11 && r[..11] == "Character #")
      && (e.character == 0 && e.corporation != 0 ==>
            |r| > 13 && r[..13] == "Corporation #" && AllDigits(r[13..]) && DigitsValue(r[13..]) == e.corporation as int)
      && (e.character == 0 && e.corporation == 0 ==>
            |r| > 10 && r[..10] == "Alliance #" && AllDigits(r[10..]) && DigitsValue(r[10..]) == e.alliance as int)
  {
    var r := EntityToString(e);
    if e.character == 0 {
      if e.corporation != 0 {
        DecimalRoundTrip(e.corporation as int);
        assert r[13..] == NatToDecimal(e.corporation as int);
        assert r[1] == 'o';
      } else {
        DecimalRoundTrip(e.alliance as int);
        assert r[10..] == NatToDecimal(e.alliance as int);
        assert r[0] == 'A';
      }
    }
  }

  function CreateAlliance(id: int32, name: Option<string>, now: Time): Entity {
    Entity(0, name, 0, id, now)
  }

  function CreateCorporation(id: int32, name: Option<string>, now: Time): Entity {
    Entity(0, name, id, 0, now)
  }

  /** An entity displayed as "Unknown"; it carries its ID as character and as corporation. */
  function CreateUnknown(id: int32, now: Time): Entity {
    Entity(id, Some(UNKNOWN_TEXT), id, 0, now)
  }

  /** The factories put the ID where the entity's kind says and stamp the entity with the clock. */
  lemma EntityFactories(id: int32, name: Option<string>, now: Time)
    ensures var a := CreateAlliance(id, name, now);
      a.alliance == id && a.character == 0 && a.corporation == 0 && a.name == name && a.lastUpdate == now
    ensures var c := CreateCorporation(id, name, now);
      c.corporation == id && c.character == 0 && c.alliance == 0 && c.name == name && c.lastUpdate == now
    ensures var u := CreateUnknown(id, now);
      u.character == id && u.corporation == id && u.alliance == 0 && u.name == Some(UNKNOWN_TEXT) && u.lastUpdate == now
  {
  }

  // ---------------------------------------------------------------- lookups

  /** The ID must be (re)queued: no entry, or one older than the refresh interval. */
  predicate NeedsLookup(entities: map<int32, Entity>, id: int32, now: Time, interval: int) {
    id !in entities || entities[id].lastUpdate < now - interval
  }

  /** The name a lookup reports: the cached one, or "Unknown" on a miss. */
  function CachedName(entities: map<int32, Entity>, id: int32): Option<string> {
    if id in entities then entities[id].name else Some(UNKNOWN_TEXT)
  }

  /** The character a lookup reports: cached name and affiliation, or "Unknown" in no corporation. */
  function CharacterOf(entities: map<int32, Entity>, id: int32): CharacterBaseModel.CharacterBase {
    if id in entities then
      CharacterBaseModel.CharacterBase(id, entities[id].name, entities[id].corporation, entities[id].alliance)
    else
      CharacterBaseModel.CharacterBase(id, Some(UNKNOWN_TEXT), 0, 0)
  }

  /**
    A lookup on one service: the result object is built first, so a constructor that
    raises stops everything; then, if needed, the ID is queued, which raises when the
    service's worker has exited.
  */
  function Lookup<T>(made: Outcome<T>, needed: bool, s: L.ServiceState, id: int32): (Outcome<T>, L.ServiceState) {
    if made.Throw? || !needed then (made, s)
    else
      var q := L.QueueStep(s, id);
      (if q.1.Some? then Throw(q.1.value) else made, q.0)
  }

  /** A character lookup: queue on the name service, then on the affiliation service. */
  function LookupBoth<T>(made: T, needed: bool, sn: L.ServiceState, sa: L.ServiceState, id: int32): (Outcome<T>, L.ServiceState, L.ServiceState) {
    if !needed then (Ok(made), sn, sa)
    else
      var qn := L.QueueStep(sn, id);
      if qn.1.Some? then (Throw(qn.1.value), qn.0, sa)
      else
        var qa := L.QueueStep(sa, id);
        (if qa.1.Some? then Throw(qa.1.value) else Ok(made), qn.0, qa.0)
  }

  // ---------------------------------------------------------------- bulk replies

  /** The category of a name in a universe-names reply; the other categories act alike. */
  datatype NameCategory = AllianceCategory | CharacterCategory | CorporationCategory | OtherCategory

  /** One element of a universe-names reply. */
  datatype NameInfo = NameInfo(id: int32, name: Option<string>, category: NameCategory)

  /** One element of a character-affiliation reply; a character outside alliances has none. */
  datatype AffiliationInfo = AffiliationInfo(characterId: int32, corporationId: int32, allianceId: Option<int32>)

  /**
    One name merged into the table: a character's name replaces the entry, keeping the
    affiliation already known; any other category is added only when the ID is absent.
  */
  function MergeName(m: map<int32, Entity>, info: NameInfo, now: Time): map<int32, Entity> {
    var id := info.id;
    match info.category
    case AllianceCategory => if id in m then m else m[id := CreateAlliance(id, info.name, now)]
    case CharacterCategory =>
      if id in m then m[id := Entity(id, info.name, m[id].corporation, m[id].alliance, now)]
      else m[id := Entity(id, info.name, 0, 0, now)]
    case CorporationCategory => if id in m then m else m[id := CreateCorporation(id, info.name, now)]
    case OtherCategory => if id in m then m else m[id := CreateUnknown(id, now)]
  }

  /** All names of a reply merged in order. */
  function MergeNames(m: map<int32, Entity>, infos: seq<NameInfo>, now: Time): map<int32, Entity> {
    if infos == [] then m else MergeName(MergeNames(m, infos[..|infos| - 1], now), infos[|infos| - 1], now)
  }

  /** Merging one more name of a reply is one more merge step. */
  lemma MergeNamesPrefix(m: map<int32, Entity>, infos: seq<NameInfo>, i: nat, now: Time)
    requires i < |infos|
    ensures MergeNames(m, infos[..i + 1], now) == MergeName(MergeNames(m, infos[..i], now), infos[i], now)
  {
    assert infos[..i + 1][..i] == infos[..i];
  }

  /** One affiliation merged into the table: the entry is replaced, keeping any name known. */
  function MergeAffiliation(m: map<int32, Entity>, info: AffiliationInfo, now: Time): map<int32, Entity> {
    var chr := info.characterId;
    var name := if chr in m then m[chr].name else Some(UNKNOWN_TEXT);
    m[chr := Entity(chr, name, info.corporationId, info.allianceId.GetOr(0), now)]
  }

  function MergeAffiliations(m: map<int32, Entity>, infos: seq<AffiliationInfo>, now: Time): map<int32, Entity> {
    if infos == [] then m
    else MergeAffiliation(MergeAffiliations(m, infos[..|infos| - 1], now), infos[|infos| - 1], now)
  }

  /** Merging one more element of a reply is one more merge step. */
  lemma MergeAffiliationsPrefix(m: map<int32, Entity>, infos: seq<AffiliationInfo>, i: nat, now: Time)
    requires i < |infos|
    ensures MergeAffiliations(m, infos[..i + 1], now) == MergeAffiliation(MergeAffiliations(m, infos[..i], now), infos[i], now)
  {
    assert infos[..i + 1][..i] == infos[..i];
  }

  /**
    What a bulk reply does to (table, error notifications): a null or unsuccessful reply
    notifies one error; a successful reply with a null payload raises on enumeration; a
    successful reply is merged.
  */
  function Settle<T>(m: map<int32, Entity>, errors: nat, reply: Option<ResultView<seq<T>>>,
                     merge: seq<T> -> map<int32, Entity>): (map<int32, Entity>, nat, Option<Exn>) {
    if reply.None? || reply.value.status != OK then (m, errors + 1, None)
    else if reply.value.result.None? then (m, errors, Some(NullReference))
    else (merge(reply.value.result.value), errors, None)
  }

  // ---------------------------------------------------------------- lookup properties

  /**
    The table's seed: ID 0 resolves to "Unknown" as alliance, corporation and character.
    It needs no lookup while younger than the refresh interval; after that it is stale and
    is queued on every lookup, since no names reply ever refreshes an existing alliance or
    corporation entry.
  */
  lemma SeededUnknown(created: Time, now: Time, interval: int)
    ensures var m := map[0 := CreateUnknown(0, created)];
      && (NeedsLookup(m, 0, now, interval) <==> now - interval > created)
      && (forall info: NameInfo, t: Time :: info.category != CharacterCategory ==> MergeName(m, info, t)[0] == m[0])
      && AllianceModel.NewAlliance(0, CachedName(m, 0)) == Ok(AllianceModel.Alliance(0, UNKNOWN_TEXT))
      && CorporationBaseModel.NewCorporationBase(0, CachedName(m, 0)) == Ok(CorporationBaseModel.CorporationBase(0, UNKNOWN_TEXT))
      && CharacterOf(m, 0) == CharacterBaseModel.CharacterBase(0, Some(UNKNOWN_TEXT), 0, 0)
  {
  }

  /**
    A miss answers "Unknown" and queues the ID exactly once: on the name service for an
    alliance or a corporation, on both services for a character.
  */
  lemma LookupMiss(m: map<int32, Entity>, id: int32, now: Time, interval: int, sn: L.ServiceState, sa: L.ServiceState)
    requires id !in m && !sn.readyDisposed && !sa.readyDisposed
    ensures Lookup(AllianceModel.NewAlliance(id, CachedName(m, id)), NeedsLookup(m, id, now, interval), sn, id)
      == (Ok(AllianceModel.Alliance(id, UNKNOWN_TEXT)), sn.(queue := sn.queue + [id], signaled := true))
    ensures Lookup(CorporationBaseModel.NewCorporationBase(id, CachedName(m, id)), NeedsLookup(m, id, now, interval), sn, id)
      == (Ok(CorporationBaseModel.CorporationBase(id, UNKNOWN_TEXT)), sn.(queue := sn.queue + [id], signaled := true))
    ensures LookupBoth(CharacterOf(m, id), NeedsLookup(m, id, now, interval), sn, sa, id)
      == (Ok(CharacterBaseModel.CharacterBase(id, Some(UNKNOWN_TEXT), 0, 0)),
          sn.(queue := sn.queue + [id], signaled := true), sa.(queue := sa.queue + [id], signaled := true))
  {
  }

  /**
    A hit answers from the cache: the alliance carries the cached name (an empty or null
    cached name makes the constructor raise, and nothing is queued); the ID is queued
    again exactly when the entry is older than the refresh interval.
  */
  lemma AllianceHit(m: map<int32, Entity>, id: int32, now: Time, interval: int, s: L.ServiceState)
    requires id in m && !s.readyDisposed
    ensures var (r, s') := Lookup(AllianceModel.NewAlliance(id, CachedName(m, id)), NeedsLookup(m, id, now, interval), s, id);
      && (r.Ok? <==> m[id].name.Some? && m[id].name.value != "")
      && (r.Ok? ==> r.value == AllianceModel.Alliance(id, m[id].name.value))
      && (r.Throw? ==> r.error == ArgumentNull("name", NULL_MESSAGE) && s' == s)
      && (r.Ok? ==> s'.queue == (if m[id].lastUpdate < now - interval then s.queue + [id] else s.queue))
      && (r.Ok? ==> (s' == s <==> m[id].lastUpdate >= now - interval))
  {
    var (r, s') := Lookup(AllianceModel.NewAlliance(id, CachedName(m, id)), NeedsLookup(m, id, now, interval), s, id);
    if r.Ok? && m[id].lastUpdate < now - interval {
      assert |s'.queue| == |s.queue| + 1;
    }
  }

  /** A character hit carries the cached name, corporation and alliance; a stale one queues on both services. */
  lemma CharacterHit(m: map<int32, Entity>, id: int32, now: Time, interval: int, sn: L.ServiceState, sa: L.ServiceState)
    requires id in m && !sn.readyDisposed && !sa.readyDisposed
    ensures var (r, sn', sa') := LookupBoth(CharacterOf(m, id), NeedsLookup(m, id, now, interval), sn, sa, id);
      && r == Ok(CharacterBaseModel.CharacterBase(id, m[id].name, m[id].corporation, m[id].alliance))
      && sn'.queue == (if m[id].lastUpdate < now - interval then sn.queue + [id] else sn.queue)
      && sa'.queue == (if m[id].lastUpdate < now - interval then sa.queue + [id] else sa.queue)
  {
  }

  /**
    Once a service's worker has exited, a lookup that needs it raises ObjectDisposedException,
    although the ID has already been appended to its queue.
  */
  lemma LookupAfterExit<T>(made: Outcome<T>, s: L.ServiceState, id: int32)
    requires made.Ok? && s.readyDisposed
    ensures Lookup(made, true, s, id) == (Throw(ObjectDisposed), s.(queue := s.queue + [id]))
  {
  }

  // ---------------------------------------------------------------- merge properties

  /** The IDs a names reply mentions. */
  function NameIds(infos: seq<NameInfo>): set<int32> {
    set i | 0 <= i < |infos| :: infos[i].id
  }

  /** The characters an affiliation reply mentions. */
  function CharacterIds(infos: seq<AffiliationInfo>): set<int32> {
    set i | 0 <= i < |infos| :: infos[i].characterId
  }

  /** One name: only its ID's entry can change; a character's name is refreshed keeping the affiliation. */
  lemma MergeNameEffect(m: map<int32, Entity>, info: NameInfo, now: Time)
    ensures var r := MergeName(m, info, now);
      && r.Keys == m.Keys + {info.id}
      && (forall k :: k in m && k != info.id ==> r[k] == m[k])
      && (info.category != CharacterCategory && info.id in m ==> r == m)
      && (info.category == CharacterCategory ==>
            r[info.id] == Entity(info.id, info.name,
              if info.id in m then m[info.id].corporation else 0,
              if info.id in m then m[info.id].alliance else 0, now))
  {
  }

  /** A batch of names adds exactly its IDs to the table and removes nothing. */
  lemma {:induction false} MergeNamesKeys(m: map<int32, Entity>, infos: seq<NameInfo>, now: Time)
    ensures MergeNames(m, infos, now).Keys == m.Keys + NameIds(infos)
  {
    if infos != [] {
      var n := |infos| - 1;
      MergeNamesKeys(m, infos[..n], now);
      assert NameIds(infos) == NameIds(infos[..n]) + {infos[n].id} by {
        forall y | y in NameIds(infos)
          ensures y in NameIds(infos[..n]) + {infos[n].id}
        {
          var i :| 0 <= i < |infos| && infos[i].id == y;
          if i < n {
            assert infos[..n][i].id == y;
          }
        }
      }
    }
  }

  /** An existing entry that no character name in the batch names is left untouched. */
  lemma {:induction false} MergeNamesKeepsOthers(m: map<int32, Entity>, infos: seq<NameInfo>, now: Time, k: int32)
    requires k in m
    requires forall i :: 0 <= i < |infos| && infos[i].id == k ==> infos[i].category != CharacterCategory
    ensures k in MergeNames(m, infos, now) && MergeNames(m, infos, now)[k] == m[k]
  {
    if infos != [] {
      var n := |infos| - 1;
      MergeNamesKeepsOthers(m, infos[..n], now, k);
    }
  }

  /**
    A character name is the last word: after the batch its entry has that name and the
    batch's time, unless a later character name in the batch renames it again.
  */
  lemma {:induction false} MergeNamesCharacter(m: map<int32, Entity>, infos: seq<NameInfo>, now: Time, i: nat)
    requires i < |infos| && infos[i].category == CharacterCategory
    requires forall j :: i < j < |infos| && infos[j].id == infos[i].id ==> infos[j].category != CharacterCategory
    ensures var r := MergeNames(m, infos, now);
      var k := infos[i].id;
      k in r && r[k].character == k && r[k].name == infos[i].name && r[k].lastUpdate == now
  {
    var n := |infos| - 1;
    if i < n {
      MergeNamesCharacter(m, infos[..n], now, i);
    }
  }

  /**
    A batch of affiliations adds exactly its characters, never changes a known name, and
    names a character it adds "Unknown".
  */
  lemma {:induction false} AffiliationsKeepNames(m: map<int32, Entity>, infos: seq<AffiliationInfo>, now: Time)
    ensures var r := MergeAffiliations(m, infos, now);
      && r.Keys == m.Keys + CharacterIds(infos)
      && (forall k :: k in m ==> r[k].name == m[k].name)
      && (forall k :: k in r && k !in m ==> r[k].name == Some(UNKNOWN_TEXT))
  {
    if infos != [] {
      var n := |infos| - 1;
      AffiliationsKeepNames(m, infos[..n], now);
      assert CharacterIds(infos) == CharacterIds(infos[..n]) + {infos[n].characterId} by {
        forall y | y in CharacterIds(infos)
          ensures y in CharacterIds(infos[..n]) + {infos[n].characterId}
        {
          var i :| 0 <= i < |infos| && infos[i].characterId == y;
          if i < n {
            assert infos[..n][i].characterId == y;
          }
        }
      }
    }
  }

  /** A character's affiliation is the one the batch lists last for it, a missing alliance reading as 0. */
  lemma {:induction false} AffiliationsTakeLast(m: map<int32, Entity>, infos: seq<AffiliationInfo>, now: Time, i: nat)
    requires i < |infos|
    requires forall j :: i < j < |infos| ==> infos[j].characterId != infos[i].characterId
    ensures var r := MergeAffiliations(m, infos, now);
      var k := infos[i].characterId;
      && k in r && r[k].character == k && r[k].lastUpdate == now
      && r[k].corporation == infos[i].corporationId && r[k].alliance == infos[i].allianceId.GetOr(0)
  {
    var n := |infos| - 1;
    if i < n {
      AffiliationsTakeLast(m, infos[..n], now, i);
    }
  }

  /**
    A null or unsuccessful reply leaves the table alone and notifies exactly one error; a
    successful one without payload raises without touching either; otherwise the payload
    is merged and nothing is notified.
  */
  lemma SettleOutcomes<T>(m: map<int32, Entity>, errors: nat, reply: Option<ResultView<seq<T>>>,
                          merge: seq<T> -> map<int32, Entity>)
    ensures var (m', e', t) := Settle(m, errors, reply, merge);
      && (reply.None? || reply.value.status != OK ==> m' == m && e' == errors + 1 && t.None?)
      && (reply.Some? && reply.value.status == OK ==> e' == errors)
      && (t.Some? <==> reply.Some? && reply.value.status == OK && reply.value.result.None?)
      && (t.Some? ==> t.value == NullReference && m' == m)
  {
  }

  // ---------------------------------------------------------------- request bodies

  predicate Increasing(s: seq<int32>) {
    forall i, j :: 0 <= i < j < |s| ==> s[i] < s[j]
  }

  /** Insertion into an ascending sequence without duplicates. */
  function Insert(x: int32, s: seq<int32>): seq<int32> {
    if s == [] then [x]
    else if x < s[0] then [x] + s
    else if x == s[0] then s
    else [s[0]] + Insert(x, s[1..])
  }

  /** The SortedSet of the IDs, in ascending order. */
  function SortedSet(ids: seq<int32>): seq<int32> {
    if ids == [] then [] else Insert(ids[0], SortedSet(ids[1..]))
  }

  /** The IDs' decimal renderings. */
  function Decimals(xs: seq<int32>): (ds: seq<string>)
    ensures |ds| == |xs| && forall i :: 0 <= i < |xs| ==> ds[i] == IntToDecimal(xs[i])
  {
    seq(|xs|, i requires 0 <= i < |xs| => IntToDecimal(xs[i]))
  }

  /** The body of a bulk request: the sorted distinct IDs as a JSON array. */
  function IdList(ids: seq<int32>): string {
    "[" + Join(Decimals(SortedSet(ids)), ",") + "]"
  }

  lemma {:induction false} InsertSorted(x: int32, s: seq<int32>)
    requires Increasing(s)
    ensures Increasing(Insert(x, s))
    ensures forall y :: y in Insert(x, s) <==> y == x || y in s
  {
    if s != [] && x > s[0] {
      InsertSorted(x, s[1..]);
      var t := Insert(x, s[1..]);
      assert Insert(x, s) == [s[0]] + t;
      forall y | y in t ensures s[0] < y {
        if y != x {
          assert y in s[1..];
        }
      }
      forall i, j | 0 <= i < j < |[s[0]] + t| ensures ([s[0]] + t)[i] < ([s[0]] + t)[j] {
        if i == 0 {
          assert t[j - 1] in t;
        }
      }
    }
  }

  /** SortedSet yields an ascending sequence holding exactly the IDs given. */
  lemma {:induction false} SortedSetSpec(ids: seq<int32>)
    ensures Increasing(SortedSet(ids))
    ensures forall y :: y in SortedSet(ids) <==> y in ids
  {
    if ids != [] {
      SortedSetSpec(ids[1..]);
      InsertSorted(ids[0], SortedSet(ids[1..]));
      assert ids == [ids[0]] + ids[1..];
    }
  }

  /** Two ascending sequences with the same elements are equal. */
  lemma {:induction false} IncreasingUnique(a: seq<int32>, b: seq<int32>)
    requires Increasing(a) && Increasing(b)
    requires forall y :: y in a <==> y in b
    ensures a == b
  {
    if a == [] {
      assert forall i :: 0 <= i < |b| ==> b[i] in a;
    } else {
      assert a[0] in b;
      assert b != [];
      assert b[0] in a;
      assert a[0] == b[0];
      forall y ensures y in a[1..] <==> y in b[1..] {
        assert y in a[1..] <==> y in a && y != a[0];
        assert y in b[1..] <==> y in b && y != b[0];
      }
      IncreasingUnique(a[1..], b[1..]);
      assert a == [a[0]] + a[1..] && b == [b[0]] + b[1..];
    }
  }

  /**
    The request body lists, in ascending order and once each, exactly the IDs of the
    pass: it is the JSON array of any ascending sequence holding exactly those IDs.
  */
  lemma IdListBody(ids: seq<int32>, sorted: seq<int32>)
    requires Increasing(sorted)
    requires forall y :: y in sorted <==> y in ids
    ensures IdList(ids) == "[" + Join(Decimals(sorted), ",") + "]"
  {
    SortedSetSpec(ids);
    IncreasingUnique(SortedSet(ids), sorted);
  }

  // ---------------------------------------------------------------- the service

  class EntityLookupService {
    var entities: map<int32, Entity>
    const name: L.LookupService
    const affil: L.LookupService
    const refreshInterval: int
    var disposed: bool
    /** How many times an error was reported to the notifications. */
    var errorNotifications: nat

    ghost predicate Valid()
      reads this, name, affil
    {
      && name != affil && name.Valid() && affil.Valid()
      && name.maxLength == MAX_IDTONAME && affil.maxLength == MAX_AFFILIATION
      && refreshInterval == RefreshInterval()
      && 0 in entities
      && (disposed ==> name.disposed && affil.disposed)
    }

    /** A new resolver: the table holds only ID 0 as "Unknown"; both services are idle. */
    constructor (created: Time)
      ensures Valid() && fresh(name) && fresh(affil)
      ensures entities == map[0 := CreateUnknown(0, created)]
      ensures name.View() == L.ServiceState([], false, false, false, false, false, L.Idle, [], 0)
      ensures affil.View() == L.ServiceState([], false, false, false, false, false, L.Idle, [], 0)
      ensures !disposed && errorNotifications == 0
    {
      entities := map[0 := CreateUnknown(0, created)];
      affil := new L.LookupService(MAX_AFFILIATION);
      name := new L.LookupService(MAX_IDTONAME);
      var a := EsiEndpoints.AttributeOf(EsiEndpoints.UniverseNames);
      refreshInterval := if a.Some? then a.value.defaultCache else 30 * 60 * TICKS_PER_SECOND;
      disposed := false;
      errorNotifications := 0;
    }

    /** Starts both workers. */
    method Initialize()
      requires Valid() && affil.phase == L.Idle && name.phase == L.Idle
      modifies affil`phase, name`phase
      ensures Valid()
      ensures affil.View() == old(affil.View()).(phase := L.Running)
      ensures name.View() == old(name.View()).(phase := L.Running)
    {
      affil.Initialize();
      name.Initialize();
    }

    method GetAlliance(id: int32, now: Time) returns (r: Outcome<AllianceModel.Alliance>)
      requires Valid()
      modifies name`queue, name`signaled
      ensures Valid()
      ensures (r, name.View()) ==
        Lookup(AllianceModel.NewAlliance(id, CachedName(entities, id)),
               NeedsLookup(entities, id, now, refreshInterval), old(name.View()), id)
    {
      if id !in entities {
        r := AllianceModel.NewAlliance(id, Some(UNKNOWN_TEXT));
        var thrown := name.Queue(id);
        if thrown.Some? {
          r := Throw(thrown.value);
        }
      } else {
        var entity := entities[id];
        r := AllianceModel.NewAlliance(id, entity.name);
        if r.Throw? {
          return;
        }
        if entity.lastUpdate < now - refreshInterval {
          var thrown := name.Queue(id);
          if thrown.Some? {
            r := Throw(thrown.value);
          }
        }
      }
    }

    method GetCorporation(id: int32, now: Time) returns (r: Outcome<CorporationBaseModel.CorporationBase>)
      requires Valid()
      modifies name`queue, name`signaled
      ensures Valid()
      ensures (r, name.View()) ==
        Lookup(CorporationBaseModel.NewCorporationBase(id, CachedName(entities, id)),
               NeedsLookup(entities, id, now, refreshInterval), old(name.View()), id)
    {
      if id !in entities {
        r := CorporationBaseModel.NewCorporationBase(id, Some(UNKNOWN_TEXT));
        var thrown := name.Queue(id);
        if thrown.Some? {
          r := Throw(thrown.value);
        }
      } else {
        var entity := entities[id];
        r := CorporationBaseModel.NewCorporationBase(id, entity.name);
        if r.Throw? {
          return;
        }
        if entity.lastUpdate < now - refreshInterval {
          var thrown := name.Queue(id);
          if thrown.Some? {
            r := Throw(thrown.value);
          }
        }
      }
    }

    method GetCharacter(id: int32, now: Time) returns (r: Outcome<CharacterBaseModel.CharacterBase>)
      requires Valid()
      modifies name`queue, name`signaled, affil`queue, affil`signaled
      ensures Valid()
      ensures (r, name.View(), affil.View()) ==
        LookupBoth(CharacterOf(entities, id), NeedsLookup(entities, id, now, refreshInterval),
                   old(name.View()), old(affil.View()), id)
    {
      var chr: CharacterBaseModel.CharacterBase;
      var stale: bool;
      if id !in entities {
        chr := CharacterBaseModel.NewCharacterBase(id, Some(UNKNOWN_TEXT)).(corporationID := 0);
        stale := true;
      } else {
        var entity := entities[id];
        chr := CharacterBaseModel.NewCharacterBase(id, entity.name).(corporationID := entity.corporation, allianceID := entity.alliance);
        stale := entity.lastUpdate < now - refreshInterval;
      }
      r := Ok(chr);
      if stale {
        var thrown := name.Queue(id);
        if thrown.Some? {
          r := Throw(thrown.value);
          return;
        }
        thrown := affil.Queue(id);
        if thrown.Some? {
          r := Throw(thrown.value);
        }
      }
    }

    /**
      The name service's request for a pass's IDs: builds the body and merges the reply,
      category by category.
    */
    method RequestNames(ids: seq<int32>, reply: Option<ResultView<seq<NameInfo>>>, now: Time)
      returns (body: string, thrown: Option<Exn>)
      requires Valid()
      modifies this`entities, this`errorNotifications
      ensures Valid()
      ensures body == IdList(ids)
      ensures (entities, errorNotifications, thrown) ==
        Settle(old(entities), old(errorNotifications), reply, infos => MergeNames(old(entities), infos, now))
    {
      body := "[" + Join(Decimals(SortedSet(ids)), ",") + "]";
      thrown := None;
      if reply.None? || reply.value.status != OK {
        errorNotifications := errorNotifications + 1;
        return;
      }
      if reply.value.result.None? {
        thrown := Some(NullReference);
        return;
      }
      var infos := reply.value.result.value;
      ghost var m0 := entities;
      for i := 0 to |infos|
        invariant entities == MergeNames(m0, infos[..i], now)
        invariant m0.Keys <= entities.Keys
        invariant errorNotifications == old(errorNotifications)
      {
        var info := infos[i];
        var id := info.id;
        match info.category {
          case AllianceCategory =>
            if id !in entities {
              entities := entities[id := CreateAlliance(id, info.name, now)];
            }
          case CharacterCategory =>
            if id in entities {
              var old_ := entities[id];
              entities := entities[id := Entity(id, info.name, old_.corporation, old_.alliance, now)];
            } else {
              entities := entities[id := Entity(id, info.name, 0, 0, now)];
            }
          case CorporationCategory =>
            if id !in entities {
              entities := entities[id := CreateCorporation(id, info.name, now)];
            }
          case OtherCategory =>
            if id !in entities {
              entities := entities[id := CreateUnknown(id, now)];
            }
        }
        MergeNamesPrefix(m0, infos, i, now);
      }
      assert infos[..|infos|] == infos;
    }

    /** The affiliation service's request for a pass's IDs: builds the body and merges the reply. */
    method RequestAffiliations(ids: seq<int32>, reply: Option<ResultView<seq<AffiliationInfo>>>, now: Time)
      returns (body: string, thrown: Option<Exn>)
      requires Valid()
      modifies this`entities, this`errorNotifications
      ensures Valid()
      ensures body == IdList(ids)
      ensures (entities, errorNotifications, thrown) ==
        Settle(old(entities), old(errorNotifications), reply, infos => MergeAffiliations(old(entities), infos, now))
    {
      body := "[" + Join(Decimals(SortedSet(ids)), ",") + "]";
      thrown := None;
      if reply.None? || reply.value.status != OK {
        errorNotifications := errorNotifications + 1;
        return;
      }
      if reply.value.result.None? {
        thrown := Some(NullReference);
        return;
      }
      var infos := reply.value.result.value;
      ghost var m0 := entities;
      for i := 0 to |infos|
        invariant entities == MergeAffiliations(m0, infos[..i], now)
        invariant m0.Keys <= entities.Keys
        invariant errorNotifications == old(errorNotifications)
      {
        var info := infos[i];
        var all := info.allianceId.GetOr(0);
        var chr := info.characterId;
        if chr in entities {
          entities := entities[chr := Entity(chr, entities[chr].name, info.corporationId, all, now)];
        } else {
          entities := entities[chr := Entity(chr, Some(UNKNOWN_TEXT), info.corporationId, all, now)];
        }
        MergeAffiliationsPrefix(m0, infos, i, now);
      }
      assert infos[..|infos|] == infos;
    }

    /** Disposes both services on the first call; later calls do nothing. */
    method Dispose()
      requires Valid()
      modifies this`disposed, name`signaled, name`cancelled, name`disposed,
        affil`signaled, affil`cancelled, affil`disposed
      ensures Valid() && disposed
      ensures old(disposed) ==> name.View() == old(name.View()) && affil.View() == old(affil.View())
      ensures !old(disposed) ==>
        name.View() == L.DisposeStep(old(name.View())) && affil.View() == L.DisposeStep(old(affil.View()))
    {
      if !disposed {
        name.Dispose();
        affil.Dispose();
        disposed := true;
      }
    }
  }
}
