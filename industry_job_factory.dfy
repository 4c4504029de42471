/**
  IndustryJobFactory: the mutable record from which an industry job is built. The number
  of runs is validated on every assignment, so it is at least 1 at all times.
*/
module IndustryJobFactoryModel {
  import opened Common
  import ItemTypeModel

  datatype IndustryJobStatus = Active | Cancelled | Delivered | Paused | Ready | Reverted

  /** The Runs setter: a value of 0 or less raises and keeps the old count. */
  function RunsStep(runs: int32, value: int32): (int32, Option<Exn>) {
    if value <= 0 then (runs, Some(ArgumentOutOfRange("runs"))) else (value, None)
  }

  /** The runs invariant: from a positive count, every assignment leaves a positive count. */
  lemma RunsStayPositive(runs: int32, value: int32)
    requires runs >= 1
    ensures RunsStep(runs, value).0 >= 1
    ensures RunsStep(runs, value).1.None? <==> value >= 1
    ensures RunsStep(runs, value).1.None? ==> RunsStep(runs, value).0 == value
    ensures RunsStep(runs, value).1.Some? ==> RunsStep(runs, value).0 == runs
  {
  }

  class IndustryJobFactory {
    const activityID: int32
    const blueprint: ItemTypeModel.ItemType
    var deliveredDate: Option<Time>
    /** The duration in ticks. */
    var duration: int
    var endDate: Option<Time>
    const id: int64
    var pauseDate: Option<Time>
    var runs: int32
    const status: IndustryJobStatus
    var startDate: Time

    ghost predicate Valid()
      reads this
    {
      runs >= 1
    }

    /** The constructor's stores; NewIndustryJobFactory performs the null check. */
    constructor (id: int64, activity: int32, status: IndustryJobStatus, blueprint: ItemTypeModel.ItemType, now: Time)
      ensures Valid()
      ensures this.id == id && activityID == activity && this.status == status && this.blueprint == blueprint
      ensures runs == 1 && deliveredDate.None? && endDate.None? && pauseDate.None? && startDate == now
      ensures duration == 0
    {
      activityID := activity;
      this.blueprint := blueprint;
      deliveredDate := None;
      endDate := None;
      this.id := id;
      runs := 1;
      pauseDate := None;
      this.status := status;
      startDate := now;
      duration := 0;
    }

    method SetRuns(value: int32) returns (thrown: Option<Exn>)
      requires Valid()
      modifies this`runs
      ensures Valid()
      ensures (runs, thrown) == RunsStep(old(runs), value)
    {
      if value <= 0 {
        return Some(ArgumentOutOfRange("runs"));
      }
      runs := value;
      return None;
    }
  }

  /**
    The constructor: a null blueprint raises; otherwise one run, no delivery, end or pause
    date, and the start date is the current time.
  */
  method NewIndustryJobFactory(id: int64, activity: int32, status: IndustryJobStatus,
                               blueprint: ItemTypeModel.ItemType?, now: Time)
    returns (r: Outcome<IndustryJobFactory>)
    ensures r.Throw? <==> blueprint == null
    ensures r.Throw? ==> r.error == ArgumentNull("blueprint", NULL_MESSAGE)
    ensures r.Ok? ==> fresh(r.value) && r.value.Valid() && r.value.runs == 1
    ensures r.Ok? ==> r.value.id == id && r.value.activityID == activity && r.value.status == status
    ensures r.Ok? ==> r.value.blueprint == blueprint && r.value.startDate == now
    ensures r.Ok? ==> r.value.deliveredDate.None? && r.value.endDate.None? && r.value.pauseDate.None?
  {
    if blueprint == null {
      return Throw(ArgumentNull("blueprint", NULL_MESSAGE));
    }
    var f := new IndustryJobFactory(id, activity, status, blueprint, now);
    return Ok(f);
  }
}
