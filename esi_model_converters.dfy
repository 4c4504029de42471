/**
  EsiModelConverters: turns contacts and industry jobs downloaded from ESI into models.
  The three contact conversions (character, corporation and alliance contact lists) share
  one type mapping and differ only in the source they record.
*/
module EsiModelConverters {
  import opened Common
  import ItemTypeModel
  import opened IndustryJobFactoryModel

  /** The contact type of a downloaded contact; `Unlisted` is any value outside the enumeration. */
  datatype EsiContactType = EsiCharacter | EsiCorporation | EsiAlliance | EsiFaction | EsiUnlisted(value: int)

  datatype EsiContact = EsiContact(contactId: int32, contactType: EsiContactType, standing: real)

  datatype ContactType = CharacterContact | CorporationContact | AllianceContact | FactionContact

  /** Whose contact list a contact comes from. */
  datatype ContactSource = CharacterSource | CorporationSource | AllianceSource

  datatype Contact = Contact(contactId: int64, contactType: ContactType, standing: real, source: ContactSource)

  /** The status of a downloaded industry job; `Unlisted` is any value outside the enumeration. */
  datatype EsiJobStatus = EsiActive | EsiCancelled | EsiDelivered | EsiPaused | EsiReady | EsiReverted
    | EsiUnlistedStatus(value: int)

  /** The fields of a downloaded industry job that the conversion reads; durations in seconds. */
  datatype EsiJob = EsiJob(
    jobId: int32, activityId: int32, status: EsiJobStatus, blueprintTypeId: int32,
    completedDate: Option<Time>, duration: int32, endDate: Option<Time>, pauseDate: Option<Time>,
    runs: int32, startDate: Time)

  function ContactTypeOf(t: EsiContactType): ContactType {
    match t
    case EsiAlliance => AllianceContact
    case EsiCorporation => CorporationContact
    case EsiFaction => FactionContact
    case _ => CharacterContact
  }

  /** ToContact: the ID and standing copied, the type mapped, the source that of the list. */
  function ToContact(c: EsiContact, source: ContactSource): (r: Contact)
    ensures r.contactId == c.contactId && r.standing == c.standing && r.source == source
  {
    Contact(c.contactId, ContactTypeOf(c.contactType), c.standing, source)
  }

  /**
    The contact type mapping: alliance, corporation and faction map to themselves, and
    character and every unlisted value to character, whichever list the contact is on.
  */
  lemma ContactMapping(c: EsiContact, source: ContactSource)
    ensures ToContact(c, source).contactType == AllianceContact <==> c.contactType == EsiAlliance
    ensures ToContact(c, source).contactType == CorporationContact <==> c.contactType == EsiCorporation
    ensures ToContact(c, source).contactType == FactionContact <==> c.contactType == EsiFaction
    ensures ToContact(c, source).contactType == CharacterContact <==> c.contactType.EsiCharacter? || c.contactType.EsiUnlisted?
    ensures forall s :: ToContact(c, s).contactType == ToContact(c, source).contactType
  {
  }

  function JobStatusOf(s: EsiJobStatus): IndustryJobStatus {
    match s
    case EsiActive => Active
    case EsiCancelled => Cancelled
    case EsiDelivered => Delivered
    case EsiPaused => Paused
    case EsiReady => Ready
    case _ => Reverted
  }

  /** The job status mapping: the five named statuses map to themselves, everything else to Reverted. */
  lemma JobStatusMapping(s: EsiJobStatus)
    ensures JobStatusOf(s) == Active <==> s == EsiActive
    ensures JobStatusOf(s) == Cancelled <==> s == EsiCancelled
    ensures JobStatusOf(s) == Delivered <==> s == EsiDelivered
    ensures JobStatusOf(s) == Paused <==> s == EsiPaused
    ensures JobStatusOf(s) == Ready <==> s == EsiReady
    ensures JobStatusOf(s) == Reverted <==> s.EsiReverted? || s.EsiUnlistedStatus?
  {
  }

  /**
    ToJob up to Build: a factory for the job, its blueprint a new item type with the
    blueprint's type ID and no name (hence "Unknown"), the dates and duration copied, the
    runs through the validating setter, which raises for 0 or fewer runs.
  */
  method ToJob(job: EsiJob, now: Time) returns (r: Outcome<IndustryJobFactory>)
    ensures r.Throw? <==> job.runs <= 0
    ensures r.Throw? ==> r.error == ArgumentOutOfRange("runs")
    ensures r.Ok? ==> fresh(r.value) && fresh(r.value.blueprint) && r.value.Valid()
    ensures r.Ok? ==> r.value.id == job.jobId && r.value.activityID == job.activityId
    ensures r.Ok? ==> r.value.status == JobStatusOf(job.status) && r.value.runs == job.runs
    ensures r.Ok? ==> r.value.blueprint.typeID == job.blueprintTypeId && r.value.blueprint.name == UNKNOWN_TEXT
    ensures r.Ok? ==> r.value.deliveredDate == job.completedDate && r.value.endDate == job.endDate
    ensures r.Ok? ==> r.value.pauseDate == job.pauseDate && r.value.startDate == job.startDate
    ensures r.Ok? ==> r.value.duration == job.duration * TICKS_PER_SECOND
  {
    var status := JobStatusOf(job.status);
    var blueprint := ItemTypeModel.NewItemType(job.blueprintTypeId, Some(""), 1.0);
    var factory := NewIndustryJobFactory(job.jobId, job.activityId, status, blueprint.value, now);
    var f := factory.value;
    f.deliveredDate := job.completedDate;
    f.duration := job.duration * TICKS_PER_SECOND;
    f.endDate := job.endDate;
    f.pauseDate := job.pauseDate;
    var thrown := f.SetRuns(job.runs);
    if thrown.Some? {
      return Throw(thrown.value);
    }
    f.startDate := job.startDate;
    return Ok(f);
  }
}
