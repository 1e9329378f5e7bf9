/**
 * The stored session record (src/models/Session.js): dialogue step, the
 * selections made so far, and an absolute expiry 24 hours after construction.
 */
module SessionRecordModel {
  import opened Wrappers
  import opened Calendar
  import opened Catalog

  /** The dialogue steps, in the order the booking flow visits them. */
  datatype Step = Initial | SelectingService | SelectingDate | SelectingTimeRange | SelectingTime

  /** 24 * 60 * 60 * 1000 milliseconds. */
  const DayMs: nat := 86_400_000

  datatype SessionRecord = SessionRecord(
    phoneNumber: string,
    userName: string,
    step: Step,
    selectedService: Option<Service>,
    selectedDate: Option<Date>,
    selectedTime: Option<string>,
    createdAt: nat,
    expiresAt: nat)

  /** The constructor's argument object. A field is None when the caller left it
      out; the three selections are Some(None) when the caller passed null. */
  datatype SessionFields = SessionFields(
    phoneNumber: string,
    userName: string,
    step: Option<Step>,
    selectedService: Option<Option<Service>>,
    selectedDate: Option<Option<Date>>,
    selectedTime: Option<Option<string>>,
    createdAt: Option<nat>,
    expiresAt: Option<nat>)

  /** new Session(fields), reading the clock once (nowMs) for both defaults. */
  function NewSessionRecord(f: SessionFields, nowMs: nat): SessionRecord
  {
    SessionRecord(
      f.phoneNumber,
      f.userName,
      OrElse(f.step, Initial),
      OrElse(f.selectedService, None),
      OrElse(f.selectedDate, None),
      OrElse(f.selectedTime, None),
      OrElse(f.createdAt, nowMs),
      OrElse(f.expiresAt, nowMs + DayMs))
  }

  /** Left-out fields default to step `initial`, no selections, and an expiry
      24 hours after construction, whatever createdAt was supplied. */
  lemma SessionRecordDefaults(f: SessionFields, nowMs: nat)
    requires f.step.None? && f.selectedService.None? && f.selectedDate.None?
    requires f.selectedTime.None? && f.expiresAt.None?
    ensures var r := NewSessionRecord(f, nowMs);
      && r.step == Initial
      && r.selectedService.None? && r.selectedDate.None? && r.selectedTime.None?
      && r.expiresAt == nowMs + DayMs
      && (f.createdAt.Some? ==> r.createdAt == f.createdAt.value)
  {
  }

  /** Every supplied field is copied unchanged. */
  lemma SessionRecordKeepsSuppliedFields(f: SessionFields, nowMs: nat)
    ensures var r := NewSessionRecord(f, nowMs);
      && r.phoneNumber == f.phoneNumber && r.userName == f.userName
      && (f.step.Some? ==> r.step == f.step.value)
      && (f.selectedService.Some? ==> r.selectedService == f.selectedService.value)
      && (f.selectedDate.Some? ==> r.selectedDate == f.selectedDate.value)
      && (f.selectedTime.Some? ==> r.selectedTime == f.selectedTime.value)
      && (f.createdAt.Some? ==> r.createdAt == f.createdAt.value)
      && (f.expiresAt.Some? ==> r.expiresAt == f.expiresAt.value)
  {
  }

  /** The TTL index on expiresAt with expireAfterSeconds 0: a record is due for
      removal once its expiry time has passed. */
  predicate DueForRemoval(r: SessionRecord, nowMs: nat)
  {
    r.expiresAt < nowMs
  }

  /** A record built with the default expiry stays for exactly 24 hours after
      construction. */
  lemma DefaultExpiryWindow(f: SessionFields, builtAt: nat, nowMs: nat)
    requires f.expiresAt.None?
    ensures DueForRemoval(NewSessionRecord(f, builtAt), nowMs) <==> nowMs > builtAt + DayMs
  {
  }
}
