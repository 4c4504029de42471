/**
  AllLevelSkillList: a read-only view of a skill list in which every skill appears
  trained to one fixed level. Lookups go to the wrapped list and rebuild the skill at
  that level; every mutator raises NotImplementedException.
*/
module AllLevelSkillListModel {
  import opened Common
  import opened Skills

  /** The wrapped list: a dictionary from skill ID to trained skill. */
  type SkillList = map<int32, TrainedSkill>

  datatype AllLevelSkillList = AllLevelSkillList(level: Level, skills: SkillList)

  /** ICollection.IsReadOnly */
  const IS_READ_ONLY: bool := true

  /** The constructor: a null list, then a level outside 0..5, raises. */
  function NewAllLevelSkillList(level: int32, skills: Option<SkillList>): (r: Outcome<AllLevelSkillList>)
    ensures skills.None? ==> r == Throw(ArgumentNull("skills", NULL_MESSAGE))
    ensures skills.Some? && (level < 0 || level > MAX_LEVEL) ==> r == Throw(ArgumentOutOfRange("level"))
    ensures r.Ok? <==> skills.Some? && 0 <= level <= MAX_LEVEL
    ensures r.Ok? ==> r.value.level == level && r.value.skills == skills.value
  {
    if skills.None? then Throw(ArgumentNull("skills", NULL_MESSAGE))
    else if level < 0 || level > MAX_LEVEL then Throw(ArgumentOutOfRange("level"))
    else Ok(AllLevelSkillList(level, skills.value))
  }

  function Count(l: AllLevelSkillList): nat {
    |l.skills|
  }

  predicate ContainsKey(l: AllLevelSkillList, key: int32) {
    key in l.skills
  }

  /** Contains of a key/value pair: the wrapped dictionary compares the value with TrainedSkill.Equals. */
  predicate Contains(l: AllLevelSkillList, item: (int32, TrainedSkill)) {
    item.0 in l.skills && TrainedEquals(l.skills[item.0], Some(item.1))
  }

  /** The skill of a stored entry, rebuilt at the list's level. */
  function AtLevel(l: AllLevelSkillList, stored: TrainedSkill): TrainedSkill {
    AsTrainedSkill(SkillLevel(stored.skill, l.level))
  }

  /** TryGetValue: (found, value), the value null when the key is absent. */
  function TryGetValue(l: AllLevelSkillList, key: int32): (r: (bool, Option<TrainedSkill>))
    ensures r.0 <==> key in l.skills
    ensures r.0 <==> r.1.Some?
    ensures r.0 ==> r.1.value.skill == l.skills[key].skill
    ensures r.0 ==> r.1.value.skillPoints == l.skills[key].skill.table[l.level]
    ensures r.0 ==> r.1.value.lastConfirmed == SkillLevel(l.skills[key].skill, l.level)
  {
    if key in l.skills then (true, Some(AtLevel(l, l.skills[key]))) else (false, None)
  }

  /** The indexer's getter: KeyNotFoundException with the key's digits for a missing key. */
  function Get(l: AllLevelSkillList, key: int32): (r: Outcome<TrainedSkill>)
    ensures r.Throw? <==> key !in l.skills
    ensures r.Throw? ==> r.error == KeyNotFound(IntToDecimal(key))
  {
    if key !in l.skills then Throw(KeyNotFound(IntToDecimal(key)))
    else Ok(AtLevel(l, l.skills[key]))
  }

  /** The members that would change or enumerate the collection. */
  datatype Mutator = SetItem(key: int32, value: TrainedSkill) | AddItem(key: int32, value: TrainedSkill)
    | Clear | RemoveKey(key: int32) | RemoveItem(key: int32, value: TrainedSkill) | CopyTo
    | Keys | Values | Enumerate

  /** Every mutator raises NotImplementedException and the list stays as it was. */
  function Mutate(l: AllLevelSkillList, op: Mutator): (r: (Outcome<bool>, AllLevelSkillList))
  {
    (Throw(NotImplemented), l)
  }

  /**
    The indexer agrees with TryGetValue; the skills it hands out sit exactly at the list's
    level (the stored skill points play no part). Their corrected effective level is that
    level; as written, it is one level higher below level 5.
  */
  lemma LookupsAgree(l: AllLevelSkillList, key: int32)
    ensures Get(l, key).Ok? <==> TryGetValue(l, key).0
    ensures Get(l, key).Ok? ==> Some(Get(l, key).value) == TryGetValue(l, key).1
    ensures ContainsKey(l, key) <==> TryGetValue(l, key).0
    ensures key in l.skills && StrictlyIncreasing(l.skills[key].skill.table) ==>
      EffectiveLevel(Get(l, key).value) == SkillLevel(l.skills[key].skill, l.level)
    ensures key in l.skills && StrictlyIncreasing(l.skills[key].skill.table) ==>
      EffectiveLevelAsWritten(Get(l, key).value).level ==
        if l.level < MAX_LEVEL then l.level + 1 else MAX_LEVEL
  {
    if key in l.skills && StrictlyIncreasing(l.skills[key].skill.table) {
      EffectiveLevelOfLevel(SkillLevel(l.skills[key].skill, l.level));
      EffectiveLevelAsWrittenOfLevel(SkillLevel(l.skills[key].skill, l.level));
    }
  }

  /**
    The collection queries go to the wrapped list: Count is its count, ContainsKey its key
    test, and Contains compares with the STORED skill by skill and skill points. So a pair
    made of a key and the skill the indexer hands out is contained only when the stored
    skill points are exactly those of the list's level.
  */
  lemma CollectionQueries(l: AllLevelSkillList, key: int32, v: TrainedSkill)
    ensures Count(l) == |l.skills.Keys|
    ensures ContainsKey(l, key) <==> key in l.skills
    ensures Contains(l, (key, v)) <==>
      key in l.skills && v.skill.id == l.skills[key].skill.id && v.skillPoints == l.skills[key].skillPoints
    ensures Contains(l, (key, v)) ==> ContainsKey(l, key)
    ensures key in l.skills ==>
      (Contains(l, (key, Get(l, key).value)) <==> l.skills[key].skillPoints == l.skills[key].skill.table[l.level])
  {
  }

  /** Nothing changes a list: each mutator raises and leaves count, keys and lookups alone. */
  lemma ReadOnly(l: AllLevelSkillList, op: Mutator, key: int32)
    ensures Mutate(l, op).0 == Throw(NotImplemented)
    ensures var l' := Mutate(l, op).1;
      Count(l') == Count(l) && ContainsKey(l', key) == ContainsKey(l, key) && Get(l', key) == Get(l, key)
  {
  }
}
