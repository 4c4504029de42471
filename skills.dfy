/**
  Skills, skill levels and trained skills.

  The skill-point table of a skill, ceil(multiplier * BASE_SP[i]) for the levels 0 to 5,
  is taken as given (the base table holds square roots and the multiplier is a double):
  a `Table` starts at 0 and never decreases, which holds for any finite multiplier that
  is not negative.
*/
module Skills {
  import opened Common

  /** SkillLevel.MAX_LEVEL */
  const MAX_LEVEL: int32 := 5

  /** The skill points needed for each level 0..5. */
  type Table = t: seq<int32> | |t| == 6 && t[0] == 0 && forall i, j :: 0 <= i <= j < 6 ==> t[i] <= t[j]
    witness [0, 0, 0, 0, 0, 0]

  /** The table of a rank 1 skill (multiplier 1), rounded up. */
  const RANK_ONE: Table := [0, 250, 1415, 8000, 45255, 256000]

  type Level = l: int32 | 0 <= l <= MAX_LEVEL

  /** A skill: its item ID (which alone decides equality) and its skill-point table. */
  datatype Skill = Skill(id: int64, table: Table)

  datatype SkillLevel = SkillLevel(skill: Skill, level: Level)

  datatype TrainedSkill = TrainedSkill(skill: Skill, lastConfirmed: SkillLevel, skillPoints: int32)

  // ---------------------------------------------------------------- SkillLevel

  /** The constructor: a null skill, then a level outside 0..5, raises. */
  function NewSkillLevel(skill: Option<Skill>, level: int32): (r: Outcome<SkillLevel>)
    ensures skill.None? ==> r == Throw(ArgumentNull("skill", NULL_MESSAGE))
    ensures skill.Some? && (level < 0 || level > MAX_LEVEL) ==> r == Throw(ArgumentOutOfRange("level"))
    ensures r.Ok? <==> skill.Some? && 0 <= level <= MAX_LEVEL
    ensures r.Ok? ==> r.value.skill == skill.value && r.value.level == level
  {
    if skill.None? then Throw(ArgumentNull("skill", NULL_MESSAGE))
    else if level < 0 || level > MAX_LEVEL then Throw(ArgumentOutOfRange("level"))
    else Ok(SkillLevel(skill.value, level))
  }

  /** The skill points the level stands for: the table's entry for it. */
  function SkillPoints(sl: SkillLevel): (sp: int32)
    ensures 0 <= sp && (sl.level == 0 ==> sp == 0)
    ensures forall l :: 0 <= l <= sl.level ==> sl.skill.table[l] <= sp
  {
    sl.skill.table[sl.level]
  }

  /**
    What the level scan of FromSkillPoints computes, as written: the first level whose
    threshold is above sp, or 5 when there is none.
  */
  function ScanFrom(t: Table, sp: int, i: nat): (level: nat)
    requires i <= 5
    decreases 5 - i
    ensures i <= level <= 5
    ensures forall j :: i <= j < level ==> t[j] <= sp
    ensures level == 5 || sp < t[level]
  {
    if sp < t[i] then i else if i == 5 then 5 else ScanFrom(t, sp, i + 1)
  }

  function LevelScan(t: Table, sp: int): Level {
    ScanFrom(t, sp, 0)
  }

  /**
    FromSkillPoints, as written: a null skill and a negative sp raise; otherwise the result
    is the least level whose threshold exceeds sp, or 5 when sp reaches every threshold.
  */
  method FromSkillPoints(skill: Option<Skill>, sp: int32) returns (r: Outcome<SkillLevel>)
    ensures skill.None? ==> r == Throw(ArgumentNull("skill", NULL_MESSAGE))
    ensures skill.Some? && sp < 0 ==> r == Throw(ArgumentOutOfRange("sp"))
    ensures skill.Some? && sp >= 0 ==> r.Ok? && r.value.skill == skill.value
    ensures r.Ok? ==> var t := skill.value.table; var level := r.value.level;
      && (forall j :: 0 <= j < level ==> t[j] <= sp)
      && (level == MAX_LEVEL || sp < t[level])
    ensures r.Ok? ==> r.value.level == LevelScan(skill.value.table, sp)
  {
    var level: int32 := MAX_LEVEL;
    if skill.None? {
      return Throw(ArgumentNull("skill", NULL_MESSAGE));
    }
    if sp < 0 {
      return Throw(ArgumentOutOfRange("sp"));
    }
    var t := skill.value.table;
    var i: int32 := 0;
    while i <= MAX_LEVEL
      invariant 0 <= i <= MAX_LEVEL + 1
      invariant forall j :: 0 <= j < i ==> t[j] <= sp
      invariant level == MAX_LEVEL
      invariant i <= MAX_LEVEL ==> LevelScan(t, sp) == ScanFrom(t, sp, i)
      invariant i == MAX_LEVEL + 1 ==> LevelScan(t, sp) == MAX_LEVEL
    {
      if sp < t[i] {
        level := i;
        break;
      }
      i := i + 1;
    }
    r := NewSkillLevel(Some(skill.value), level);
  }

  /**
    The level a number of skill points evidently stands for: the highest level whose
    threshold it reaches (level 0 needs none).
  */
  function ReachedFrom(t: Table, sp: int, i: nat): (level: nat)
    requires 0 <= sp && i <= 5
    ensures level <= i && t[level] <= sp
    ensures forall j :: level < j <= i ==> sp < t[j]
  {
    if t[i] <= sp then i else ReachedFrom(t, sp, i - 1)
  }

  function TrainedLevel(t: Table, sp: int): (level: Level)
    requires sp >= 0
    ensures t[level] <= sp && (level == MAX_LEVEL || sp < t[level + 1])
  {
    ReachedFrom(t, sp, 5)
  }

  /**
    The scan as written answers one level too high: below the top threshold it is the
    reached level plus one, so it never answers 0.
  */
  lemma ScanIsOneAbove(t: Table, sp: int)
    requires sp >= 0
    ensures LevelScan(t, sp) == if sp < t[5] then TrainedLevel(t, sp) + 1 else MAX_LEVEL
    ensures LevelScan(t, sp) >= 1
  {
    var s := LevelScan(t, sp);
    var l := TrainedLevel(t, sp);
    if sp < t[5] {
      assert l < 5;
      assert sp < t[l + 1];
    }
  }

  /**
    The counterexample: a rank 1 skill with no skill points comes out at level 1, and one
    holding exactly the 250 points of level 1 comes out at level 2.
  */
  lemma ScanCounterexample()
    ensures LevelScan(RANK_ONE, 0) == 1 && TrainedLevel(RANK_ONE, 0) == 0
    ensures LevelScan(RANK_ONE, 250) == 2 && TrainedLevel(RANK_ONE, 250) == 1
  {
  }

  predicate StrictlyIncreasing(t: Table) {
    forall i :: 0 <= i < 5 ==> t[i] < t[i + 1]
  }

  /** A table rising at every level rises between any two levels. */
  lemma StrictChain(t: Table)
    requires StrictlyIncreasing(t)
    ensures forall i, j :: 0 <= i < j < 6 ==> t[i] < t[j]
  {
    forall i, j | 0 <= i < j < 6 ensures t[i] < t[j] {
      assert t[i] < t[i + 1] && t[i + 1] <= t[j];
    }
  }

  /**
    The intended level round-trips with SkillPoints: the points of a level give that level
    back whenever the table rises at every level, and the points of the level found never
    exceed the points held.
  */
  lemma TrainedLevelRoundTrip(sl: SkillLevel, sp: int)
    requires sp >= 0
    ensures StrictlyIncreasing(sl.skill.table) ==> TrainedLevel(sl.skill.table, SkillPoints(sl)) == sl.level
    ensures SkillPoints(SkillLevel(sl.skill, TrainedLevel(sl.skill.table, sp))) <= sp
  {
    var t := sl.skill.table;
    if StrictlyIncreasing(t) {
      StrictChain(t);
    }
  }

  /** AsTrainedSkill: the skill trained to exactly this level's points, confirmed at this level. */
  function AsTrainedSkill(sl: SkillLevel): (ts: TrainedSkill)
    ensures NewTrainedSkill(Some(sl.skill), sl.level, SkillPoints(sl)) == Ok(ts)
    ensures ts.skill == sl.skill && ts.lastConfirmed == sl && ts.skillPoints == SkillPoints(sl)
  {
    TrainedSkill(sl.skill, sl, SkillPoints(sl))
  }

  /** Equals: `other` is None for null or an object of another type. */
  predicate LevelEquals(a: SkillLevel, other: Option<SkillLevel>) {
    other.Some? && other.value.skill.id == a.skill.id && other.value.level == a.level
  }

  function LevelHash(a: SkillLevel): int32 {
    Wrap32(LongHash(a.skill.id) * 10 + a.level)
  }

  /** Equality is by skill and level; equal levels hash equally, and distinct levels of one skill hash apart. */
  lemma SkillLevelEquality(a: SkillLevel, b: SkillLevel)
    ensures LevelEquals(a, Some(b)) <==> a.skill.id == b.skill.id && a.level == b.level
    ensures LevelEquals(a, Some(b)) ==> LevelHash(a) == LevelHash(b)
    ensures a.skill.id == b.skill.id && a.level != b.level ==> LevelHash(a) != LevelHash(b)
  {
  }

  // ---------------------------------------------------------------- TrainedSkill

  /**
    The constructor: a null skill, then negative sp, raise; then the confirmed level goes
    through the SkillLevel constructor, which raises for a level outside 0..5.
  */
  function NewTrainedSkill(skill: Option<Skill>, confirmedLevel: int32, sp: int32): (r: Outcome<TrainedSkill>)
    ensures skill.None? ==> r == Throw(ArgumentNull("baseSkill", NULL_MESSAGE))
    ensures skill.Some? && sp < 0 ==> r == Throw(ArgumentOutOfRange("sp"))
    ensures skill.Some? && sp >= 0 && (confirmedLevel < 0 || confirmedLevel > MAX_LEVEL) ==>
      r == Throw(ArgumentOutOfRange("level"))
    ensures r.Ok? <==> skill.Some? && sp >= 0 && 0 <= confirmedLevel <= MAX_LEVEL
    ensures r.Ok? ==> r.value.skill == skill.value && r.value.skillPoints == sp
    ensures r.Ok? ==> r.value.lastConfirmed == SkillLevel(skill.value, confirmedLevel)
  {
    if skill.None? then Throw(ArgumentNull("baseSkill", NULL_MESSAGE))
    else if sp < 0 then Throw(ArgumentOutOfRange("sp"))
    else
      var confirmed := NewSkillLevel(skill, confirmedLevel);
      if confirmed.Throw? then Throw(confirmed.error)
      else Ok(TrainedSkill(skill.value, confirmed.value, sp))
  }

  /**
    TrainedSkill.EffectiveLevel as written: FromSkillPoints on the held points, so the
    first level whose threshold the points do not reach, or 5.
  */
  function EffectiveLevelAsWritten(ts: TrainedSkill): (sl: SkillLevel)
    requires ts.skillPoints >= 0
    ensures sl.skill == ts.skill
    ensures forall j :: 0 <= j < sl.level ==> ts.skill.table[j] <= ts.skillPoints
    ensures sl.level == MAX_LEVEL || ts.skillPoints < ts.skill.table[sl.level]
  {
    SkillLevel(ts.skill, LevelScan(ts.skill.table, ts.skillPoints))
  }

  /**
    As written, a level made into a trained skill comes back one level higher, except at
    the top level.
  */
  lemma EffectiveLevelAsWrittenOfLevel(sl: SkillLevel)
    requires StrictlyIncreasing(sl.skill.table)
    ensures EffectiveLevelAsWritten(AsTrainedSkill(sl)).level ==
      if sl.level < MAX_LEVEL then sl.level + 1 else MAX_LEVEL
  {
    var t := sl.skill.table;
    TrainedLevelRoundTrip(sl, 0);
    ScanIsOneAbove(t, SkillPoints(sl));
    StrictChain(t);
  }

  /**
    EffectiveLevel, corrected: the highest level the skill points reach (see the finding
    on FromSkillPoints).
  */
  function EffectiveLevel(ts: TrainedSkill): (sl: SkillLevel)
    requires ts.skillPoints >= 0
    ensures sl.skill == ts.skill
    ensures SkillPoints(sl) <= ts.skillPoints
    ensures sl.level == MAX_LEVEL || ts.skillPoints < ts.skill.table[sl.level + 1]
  {
    SkillLevel(ts.skill, TrainedLevel(ts.skill.table, ts.skillPoints))
  }

  /** A level made into a trained skill comes back as the same level. */
  lemma EffectiveLevelOfLevel(sl: SkillLevel)
    requires StrictlyIncreasing(sl.skill.table)
    ensures EffectiveLevel(AsTrainedSkill(sl)) == sl
  {
    TrainedLevelRoundTrip(sl, 0);
  }

  predicate TrainedEquals(a: TrainedSkill, other: Option<TrainedSkill>) {
    other.Some? && other.value.skill.id == a.skill.id && other.value.skillPoints == a.skillPoints
  }

  function TrainedHash(a: TrainedSkill): int32 {
    Wrap32(LongHash(a.skill.id) * 17 + a.skillPoints)
  }

  /** Equality is by skill and skill points, ignoring the confirmed level; equal skills hash equally. */
  lemma TrainedSkillEquality(a: TrainedSkill, b: TrainedSkill)
    ensures TrainedEquals(a, Some(b)) <==> a.skill.id == b.skill.id && a.skillPoints == b.skillPoints
    ensures TrainedEquals(a, Some(a.(lastConfirmed := b.lastConfirmed)))
    ensures TrainedEquals(a, Some(b)) ==> TrainedHash(a) == TrainedHash(b)
  {
  }
}
