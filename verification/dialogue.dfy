/**
 * The booking dialogue (handleIncomingMessage in
 * src/controllers/webhookController.js, lines 149-467): what one incoming
 * WhatsApp message does to the sender's session, to the bookings collection,
 * and what the bot answers.
 *
 * `Handle` is the handler as a function of the sender's session, the message,
 * the services and bookings collections and the environment of the request
 * (clock, random source, the id the messaging API gives the confirmation);
 * the class `Bot` is the handler itself, working on the session store and the
 * bookings collection in place, and is proved to do what `Handle` says.
 */
module Dialogue {
  import opened Wrappers
  import opened Text
  import opened Lists
  import opened Calendar
  import opened Catalog
  import opened BookingModel
  import opened SessionRecordModel
  import opened SessionStore
  import opened Salon
  import opened Availability

  // ---------------------------------------------------------------------
  // Requests and replies
  // ---------------------------------------------------------------------

  /** The message of a webhook payload. For an interactive message, replyId is
      `button_reply?.id || list_reply?.id` (None when that is undefined). */
  datatype Message =
    | Interactive(replyId: Option<string>)
    | TextMessage(body: string)
    | OtherMessage

  /** The sender's number, the profile name of the contact (if any) and the message. */
  datatype Event = Event(from: string, profileName: Option<string>, message: Message)

  /** What the handler reads from outside during one request: the server's
      current day, the UTC clock, `Date.now()`, the text of `Math.random()`
      in base 36, and the message id the messaging API returns for the
      confirmation text. */
  datatype Env = Env(
    today: nat,
    utcHour: nat,
    utcMinute: nat,
    nowMs: nat,
    randomText: string,
    confirmationMessageId: Option<string>)

  const WelcomeButtonIds: seq<string> := ["choose_service", "my_reservations", "loyalty_points"]

  /** What the bot sends back (the sections of the list messages included). */
  datatype Reply =
    | NoReply
    | WelcomeButtons(body: string, buttonIds: seq<string>)
    | ServiceList(sections: seq<Section>)
    | ReservationsNotice
    | LoyaltyPointsNotice
    | DateList(sections: seq<Section>)
    | RangeList(sections: seq<Section>)
    | NoSlotsNotice
    | SlotList(sections: seq<Section>)
    | SlotTakenNotice
    | BookingConfirmation(text: string)
    | HandlerError(message: string)

  /** The exception a property read on `undefined` throws. */
  const UndefinedError: string := "TypeError: Cannot read properties of undefined"
  /** The exception a property read on `null` throws. */
  const NullError: string := "TypeError: Cannot read properties of null"

  /** The sender's session afterwards (None: no session), the bookings
      collection afterwards, and the reply. */
  datatype Outcome = Outcome(session: Option<Session>, bookings: seq<Booking>, reply: Reply)

  /** contact?.profile?.name || 'there' */
  function UserName(ev: Event): (name: string)
    ensures name != ""
    ensures ev.profileName.Some? && ev.profileName.value != "" ==> name == ev.profileName.value
    ensures !(ev.profileName.Some? && ev.profileName.value != "") ==> name == "there"
  {
    if ev.profileName.Some? && ev.profileName.value != "" then ev.profileName.value else "there"
  }

  function NowMin(env: Env): nat
  {
    IstMinutes(env.utcHour, env.utcMinute)
  }

  function StepTo(step: Step): SessionUpdate
  {
    SessionUpdate(Some(step), None, None, None)
  }

  /** The key the slot step re-checks: `${hour}_${minute}` of
      `responseId.split('_').slice(1)`, a missing part printing "undefined". */
  function RecheckKey(id: string): string
  {
    var parts := Split(id, '_');
    var hour := if |parts| >= 2 then parts[1] else "undefined";
    var minute := if |parts| >= 3 then parts[2] else "undefined";
    hour + "_" + minute
  }

  /** For a slot row's id, the re-check key is the slot's own key. */
  lemma RecheckKeyOfSlotId(t: SlotTime)
    ensures RecheckKey(SlotId(t)) == SlotKey(t.hour, t.half)
  {
    var d := Decimal(t.hour);
    var m := if t.half then "30" else "00";
    assert '_' !in d by {
      forall i | 0 <= i < |d| ensures d[i] != '_' { assert IsDecimalDigit(d[i]); }
    }
    assert SlotId(t) == "slot" + ['_'] + d + ['_'] + m;
    SplitThree("slot", d, m, '_');
  }

  // ---------------------------------------------------------------------
  // One message
  // ---------------------------------------------------------------------

  /** handleIncomingMessage. A text message is a greeting when its lower-cased,
      trimmed body is one of the greeting words (the corrected check, see
      Salon.IsGreeting); an interactive message without a session first
      creates one. */
  function Handle(session: Option<Session>, ev: Event, services: seq<Service>, bookings: seq<Booking>, env: Env): Outcome
  {
    match ev.message
    case OtherMessage => Outcome(session, bookings, NoReply)
    case TextMessage(body) =>
      if IsGreeting(body) then
        var name := UserName(ev);
        Outcome(Some(NewSession(ev.from, name, env.nowMs)), bookings, WelcomeButtons(Welcome(name), WelcomeButtonIds))
      else
        Outcome(session, bookings, NoReply)
    case Interactive(replyId) =>
      var s := if session.Some? then session.value else NewSession(ev.from, UserName(ev), env.nowMs);
      OnReply(s, replyId, ev, services, bookings, env)
  }

  /** The switch on the reply id, with session s present. */
  function OnReply(s: Session, replyId: Option<string>, ev: Event, services: seq<Service>, bookings: seq<Booking>, env: Env): Outcome
  {
    if replyId == Some("choose_service") then
      Outcome(Some(ApplyUpdate(s, StepTo(SelectingService))), bookings,
              ServiceList(ServiceSections(ActiveServices(services))))
    else if replyId == Some("my_reservations") then
      Outcome(Some(s), bookings, ReservationsNotice)
    else if replyId == Some("loyalty_points") then
      Outcome(Some(s), bookings, LoyaltyPointsNotice)
    else if replyId.None? then
      // every guard of the default branch reads the undefined id, except at step `initial`
      Outcome(Some(s), bookings, if s.step == Initial then NoReply else HandlerError(UndefinedError))
    else
      OnSelection(s, replyId.value, ev, services, bookings, env)
  }

  /** The switch's default branch: a reply id matched against the session's step. */
  function OnSelection(s: Session, id: string, ev: Event, services: seq<Service>, bookings: seq<Booking>, env: Env): Outcome
  {
    if s.step == SelectingService && '_' in id then
      OnServiceSelected(s, id, services, bookings, env)
    else if s.step == SelectingDate && StartsWith(id, "date_") then
      OnDateSelected(s, id, bookings, env)
    else if s.step == SelectingTimeRange && StartsWith(id, "range_") then
      OnRangeSelected(s, id, bookings, env)
    else if s.step == SelectingTime && StartsWith(id, "slot_") then
      if s.selectedTimeRange.None? then
        Outcome(Some(s), bookings, HandlerError(UndefinedError))
      else
        var listed := Flatten(TimeSlotsForRange(s.selectedTimeRange.value, s.selectedDate, bookings, env.today, NowMin(env)));
        OnSlotSelected(s, id, listed, bookings, ev.from, UserName(ev), env)
    else
      Outcome(Some(s), bookings, NoReply)
  }

  /** An active service with that id moves the session to date selection. */
  function OnServiceSelected(s: Session, id: string, services: seq<Service>, bookings: seq<Booking>, env: Env): Outcome
  {
    match FindActiveService(services, id)
    case None => Outcome(Some(s), bookings, NoReply)
    case Some(svc) =>
      Outcome(Some(ApplyUpdate(s, SessionUpdate(Some(SelectingDate), Some(svc), None, None))), bookings,
              DateList(DateOptions(env.today)))
  }

  /** The date in the id (invalid or not) is stored and the range picker sent. */
  function OnDateSelected(s: Session, id: string, bookings: seq<Booking>, env: Env): Outcome
  {
    var date := ParseDateText(RemoveFirst(id, "date_"));
    Outcome(Some(ApplyUpdate(s, SessionUpdate(Some(SelectingTimeRange), None, Some(date), None))), bookings,
            RangeList(TimeRangeOptions(Some(date), env.today, NowMin(env))))
  }

  /** The range id is stored and the session moves on before the slots are
      computed, so it moves on even when the range offers nothing. */
  function OnRangeSelected(s: Session, id: string, bookings: seq<Booking>, env: Env): Outcome
  {
    var slots := TimeSlotsForRange(id, s.selectedDate, bookings, env.today, NowMin(env));
    Outcome(Some(ApplyUpdate(s, SessionUpdate(Some(SelectingTime), None, None, Some(id)))), bookings,
            if slots == [] then NoSlotsNotice else SlotList(slots))
  }

  /** The slot step once the slots of the stored range are listed. The
      re-check reads the bookings collection again (`current`): within one
      request it is the collection the list was made from, but another request
      may have inserted in between. */
  function OnSlotSelected(s: Session, id: string, listed: seq<Row>, current: seq<Booking>,
                          from: string, name: string, env: Env): Outcome
  {
    match FindRow(listed, id)
    case None => Outcome(Some(s), current, NoReply)
    case Some(slot) =>
      if RecheckKey(id) in BookedKeys(current, QueryDay(s.selectedDate)) then
        Outcome(Some(s), current, SlotTakenNotice)
      else if s.selectedDate.None? || s.selectedService.None? then
        Outcome(Some(s), current, HandlerError(NullError))
      else
        Commit(s, s.selectedDate.value, s.selectedService.value, slot.title, current, from, name, env)
  }

  /** new Booking({...}) of the slot step: CONFIRMED, for the sender, the stored
      service's id, the stored date and the slot's title. */
  function SlotBooking(from: string, svc: Service, date: Date, time: string, env: Env): (b: Booking)
    ensures b.customerId == from && b.serviceId == svc.dbId
    ensures b.status == Confirmed && b.paymentStatus == PaymentPending && !b.loyaltyPointsAwarded
    ensures b.appointmentDate == date && b.appointmentTime == time
    ensures b.bookingReference == GenerateBookingReference(env.nowMs, env.randomText)
    ensures b.createdAt == env.nowMs && b.updatedAt == env.nowMs && b.confirmationMessageId.None?
  {
    NewBooking(BookingFields(from, svc.dbId, Some(Confirmed), None, date, time, None, None, None, None),
               env.nowMs, env.randomText)
  }

  /** Insert the booking, send the confirmation, store its message id, clear
      the session. */
  function Commit(s: Session, date: Date, svc: Service, time: string, current: seq<Booking>,
                  from: string, name: string, env: Env): Outcome
  {
    var b := SlotBooking(from, svc, date, time, env);
    match InsertBooking(current, b)
    case Err(e) => Outcome(Some(s), current, HandlerError(e))
    case Ok(_) =>
      Outcome(None, current + [WithConfirmationId(b, env)],
              BookingConfirmation(BookingConfirmed(name, svc.title, DateLabel(date), time)))
  }

  /** The inserted booking after the confirmation message id, if the messaging
      API returned a non-empty one, has been stored on it. */
  function WithConfirmationId(b: Booking, env: Env): (r: Booking)
    ensures r.bookingReference == b.bookingReference && r.status == b.status
    ensures r.customerId == b.customerId && r.serviceId == b.serviceId
    ensures r.appointmentDate == b.appointmentDate && r.appointmentTime == b.appointmentTime
    ensures env.confirmationMessageId.Some? && env.confirmationMessageId.value != "" ==>
      r.confirmationMessageId == env.confirmationMessageId && r.updatedAt == env.nowMs
    ensures r.paymentStatus == b.paymentStatus && r.loyaltyPointsAwarded == b.loyaltyPointsAwarded
    ensures r.createdAt == b.createdAt
    ensures !(env.confirmationMessageId.Some? && env.confirmationMessageId.value != "") ==> r == b
  {
    if env.confirmationMessageId.Some? && env.confirmationMessageId.value != "" then
      b.(confirmationMessageId := env.confirmationMessageId, updatedAt := env.nowMs)
    else b
  }

  // ---------------------------------------------------------------------
  // Properties of the dialogue
  // ---------------------------------------------------------------------

  /** A greeting always starts over: a fresh session at step `initial` under
      the sender's current name, and the welcome with its three buttons. */
  lemma GreetingRestarts(session: Option<Session>, ev: Event, services: seq<Service>, bookings: seq<Booking>, env: Env)
    requires ev.message.TextMessage? && IsGreeting(ev.message.body)
    ensures var o := Handle(session, ev, services, bookings, env);
      && o.session == Some(NewSession(ev.from, UserName(ev), env.nowMs))
      && o.session.value.step == Initial
      && o.reply == WelcomeButtons(Welcome(UserName(ev)), WelcomeButtonIds)
      && o.bookings == bookings
  {
  }

  /** "choose_service" works from any step: the session moves to service
      selection keeping everything selected so far, and the active services are
      listed by category. */
  lemma ChooseServiceFromAnyStep(session: Option<Session>, ev: Event, services: seq<Service>, bookings: seq<Booking>, env: Env)
    requires ev.message == Interactive(Some("choose_service"))
    ensures var o := Handle(session, ev, services, bookings, env);
      && o.session.Some? && o.session.value.step == SelectingService
      && (session.Some? ==> o.session.value == session.value.(step := SelectingService))
      && o.reply == ServiceList(ServiceSections(ActiveServices(services)))
      && o.bookings == bookings
  {
  }

  /** A reply id that is not a menu button and does not fit the current step is
      ignored: nothing changes and nothing is sent. */
  lemma MismatchedReplyIgnored(s: Session, ev: Event, id: string, services: seq<Service>, bookings: seq<Booking>, env: Env)
    requires ev.message == Interactive(Some(id))
    requires id !in WelcomeButtonIds
    requires s.step == SelectingService ==> '_' !in id
    requires s.step == SelectingDate ==> !StartsWith(id, "date_")
    requires s.step == SelectingTimeRange ==> !StartsWith(id, "range_")
    requires s.step == SelectingTime ==> !StartsWith(id, "slot_")
    ensures Handle(Some(s), ev, services, bookings, env) == Outcome(Some(s), bookings, NoReply)
  {
  }

  /** After "no available time slots" the session is at time selection with
      the empty range stored, so choosing another range from the earlier list,
      as that message suggests, is ignored. */
  lemma NoSlotsStrandsSession(s: Session, ev1: Event, id1: string, ev2: Event, id2: string,
                              services: seq<Service>, bookings: seq<Booking>, env: Env)
    requires s.step == SelectingTimeRange
    requires ev1.message == Interactive(Some(id1)) && StartsWith(id1, "range_")
    requires TimeSlotsForRange(id1, s.selectedDate, bookings, env.today, NowMin(env)) == []
    requires ev2.message == Interactive(Some(id2)) && StartsWith(id2, "range_")
    ensures var o1 := Handle(Some(s), ev1, services, bookings, env);
      && o1.reply == NoSlotsNotice
      && o1.session.Some? && o1.session.value.step == SelectingTime
      && Handle(o1.session, ev2, services, bookings, env) == Outcome(o1.session, bookings, NoReply)
  {
    assert id1[0] == 'r' && id1 !in WelcomeButtonIds;
    assert id2[0] == 'r' && id2 !in WelcomeButtonIds;
    var o1 := Handle(Some(s), ev1, services, bookings, env);
    assert o1 == OnRangeSelected(s, id1, bookings, env);
    assert !StartsWith(id2, "slot_") by {
      assert "slot_"[0] == 's';
    }
    MismatchedReplyIgnored(o1.session.value, ev2, id2, services, bookings, env);
  }

  // --- the slot step --------------------------------------------------------

  /** `after` is `before` with one booking appended: CONFIRMED, unpaid, without
      loyalty points, for the sender, under a reference not yet taken. */
  predicate ConfirmedAppend(before: seq<Booking>, after: seq<Booking>, from: string, env: Env)
  {
    && |after| == |before| + 1 && after[..|before|] == before
    && var b := after[|before|];
       && b.status == Confirmed && b.paymentStatus == PaymentPending && !b.loyaltyPointsAwarded
       && b.customerId == from
       && b.bookingReference == GenerateBookingReference(env.nowMs, env.randomText)
       && !HasReference(before, b.bookingReference)
  }

  /** Committing either appends the booking, confirms and clears the session,
      or fails on a taken reference and changes nothing. */
  lemma CommitSpec(s: Session, date: Date, svc: Service, time: string, current: seq<Booking>,
                   from: string, name: string, env: Env)
    ensures var o := Commit(s, date, svc, time, current, from, name, env);
      var b := SlotBooking(from, svc, date, time, env);
      && (!HasReference(current, b.bookingReference) ==>
            && o.session.None?
            && o.bookings == current + [WithConfirmationId(b, env)]
            && ConfirmedAppend(current, o.bookings, from, env)
            && o.reply == BookingConfirmation(BookingConfirmed(name, svc.title, DateLabel(date), time)))
      && (HasReference(current, b.bookingReference) ==>
            o == Outcome(Some(s), current, HandlerError(DuplicateKeyError)))
  {
    var b := SlotBooking(from, svc, date, time, env);
    assert (current + [WithConfirmationId(b, env)])[..|current|] == current;
  }

  /** The confirmation text does not depend on the booking's reference (nor on
      the clock or random source that make it). */
  lemma ConfirmationOmitsReference(s: Session, date: Date, svc: Service, time: string, current: seq<Booking>,
                                   from: string, name: string, env1: Env, env2: Env)
    requires Commit(s, date, svc, time, current, from, name, env1).reply.BookingConfirmation?
    requires Commit(s, date, svc, time, current, from, name, env2).reply.BookingConfirmation?
    ensures Commit(s, date, svc, time, current, from, name, env1).reply == Commit(s, date, svc, time, current, from, name, env2).reply
  {
  }

  /** The slot step changes the collection exactly when it confirms, and then by
      one confirmed booking; otherwise the session stays as it was. */
  lemma OnSlotSelectedSpec(s: Session, id: string, listed: seq<Row>, current: seq<Booking>,
                           from: string, name: string, env: Env)
    ensures var o := OnSlotSelected(s, id, listed, current, from, name, env);
      && (o.reply.BookingConfirmation? ==>
            && ConfirmedAppend(current, o.bookings, from, env) && o.session.None?
            && FindRow(listed, id).Some? && s.selectedDate.Some? && s.selectedService.Some?
            && o.bookings[|current|].appointmentTime == FindRow(listed, id).value.title
            && o.bookings[|current|].appointmentDate == s.selectedDate.value
            && o.bookings[|current|].serviceId == s.selectedService.value.dbId)
      && (!o.reply.BookingConfirmation? ==> o.bookings == current && o.session == Some(s))
      && (o.reply == SlotTakenNotice ==> RecheckKey(id) in BookedKeys(current, QueryDay(s.selectedDate)))
      && (o.reply.HandlerError? && s.selectedDate.Some? && s.selectedService.Some? ==> o.reply.message == DuplicateKeyError)
  {
    match FindRow(listed, id)
    case None =>
    case Some(slot) =>
      if s.selectedDate.Some? && s.selectedService.Some? {
        CommitSpec(s, s.selectedDate.value, s.selectedService.value, slot.title, current, from, name, env);
      }
  }

  /** Every row the slot list offers is a slot whose key is free in the
      collection the list was made from, so the re-check of the slot step
      never fires for a listed row. */
  lemma ListedSlotIsFree(rangeId: string, date: Option<Date>, bookings: seq<Booking>, today: nat, nowMin: nat, id: string)
    requires FindRow(Flatten(TimeSlotsForRange(rangeId, date, bookings, today, nowMin)), id).Some?
    ensures RecheckKey(id) !in BookedKeys(bookings, QueryDay(date))
  {
    var range := LookupRange(rangeId).value;
    var isToday := IsToday(date, today);
    var booked := BookedKeys(bookings, QueryDay(date));
    var row := FindRow(Flatten(TimeSlotsForRange(rangeId, date, bookings, today, nowMin)), id).value;
    var t := ListedRowIsEligible(range, booked, isToday, if isToday then nowMin else 0, row);
    RecheckKeyOfSlotId(t);
  }

  /** The outcome of the switch when the id is a slot id at step
      `selecting_time`. */
  lemma SlotBranch(s: Session, id: string, ev: Event, services: seq<Service>, bookings: seq<Booking>, env: Env)
    requires s.step == SelectingTime && StartsWith(id, "slot_")
    ensures var o := OnReply(s, Some(id), ev, services, bookings, env);
      && (s.selectedTimeRange.None? ==> o == Outcome(Some(s), bookings, HandlerError(UndefinedError)))
      && (s.selectedTimeRange.Some? ==>
            var listed := Flatten(TimeSlotsForRange(s.selectedTimeRange.value, s.selectedDate, bookings, env.today, NowMin(env)));
            o == OnSlotSelected(s, id, listed, bookings, ev.from, UserName(ev), env))
  {
    assert id[0] == 's';
    assert id !in WelcomeButtonIds;
  }

  /** Every branch but the slot step leaves the bookings alone and keeps a
      session. */
  lemma OtherBranches(s: Session, replyId: Option<string>, ev: Event, services: seq<Service>, bookings: seq<Booking>, env: Env)
    requires !(replyId.Some? && s.step == SelectingTime && StartsWith(replyId.value, "slot_"))
    ensures var o := OnReply(s, replyId, ev, services, bookings, env);
      && o.bookings == bookings && o.session.Some?
      && (o.reply.HandlerError? ==> replyId.None?)
      && (o.session.value.step == SelectingDate ==> s.step == SelectingService || s.step == SelectingDate)
      && (o.session.value.step == SelectingTimeRange ==> s.step == SelectingDate || s.step == SelectingTimeRange)
      && (o.session.value.step == SelectingTime ==> s.step == SelectingTimeRange || s.step == SelectingTime)
      && (Complete(s) ==> Complete(o.session.value))
  {
    var o := OnReply(s, replyId, ev, services, bookings, env);
    if replyId.Some? && replyId.value != "choose_service" && replyId.value != "my_reservations" && replyId.value != "loyalty_points" {
      assert o == OnSelection(s, replyId.value, ev, services, bookings, env);
      OtherSelections(s, replyId.value, ev, services, bookings, env);
    }
  }

  /** The default branch off the slot step: no error, the bookings untouched, a
      session kept, and the step moves at most one forward. */
  lemma OtherSelections(s: Session, id: string, ev: Event, services: seq<Service>, bookings: seq<Booking>, env: Env)
    requires !(s.step == SelectingTime && StartsWith(id, "slot_"))
    ensures var o := OnSelection(s, id, ev, services, bookings, env);
      && o.bookings == bookings && o.session.Some?
      && !o.reply.HandlerError?
      && (o.session.value.step == SelectingDate ==> s.step == SelectingService || s.step == SelectingDate)
      && (o.session.value.step == SelectingTimeRange ==> s.step == SelectingDate || s.step == SelectingTimeRange)
      && (o.session.value.step == SelectingTime ==> s.step == SelectingTimeRange || s.step == SelectingTime)
      && (Complete(s) ==> Complete(o.session.value))
  {
  }

  /** Within one request the "just booked by someone else" answer never occurs. */
  lemma SlotTakenNeverWithinOneRequest(session: Option<Session>, ev: Event, services: seq<Service>, bookings: seq<Booking>, env: Env)
    ensures Handle(session, ev, services, bookings, env).reply != SlotTakenNotice
  {
    if ev.message.Interactive? {
      var s := if session.Some? then session.value else NewSession(ev.from, UserName(ev), env.nowMs);
      var replyId := ev.message.replyId;
      if replyId.Some? && s.step == SelectingTime && StartsWith(replyId.value, "slot_") {
        var id := replyId.value;
        SlotBranch(s, id, ev, services, bookings, env);
        if s.selectedTimeRange.Some? {
          var listed := Flatten(TimeSlotsForRange(s.selectedTimeRange.value, s.selectedDate, bookings, env.today, NowMin(env)));
          OnSlotSelectedSpec(s, id, listed, bookings, ev.from, UserName(ev), env);
          if FindRow(listed, id).Some? {
            ListedSlotIsFree(s.selectedTimeRange.value, s.selectedDate, bookings, env.today, NowMin(env), id);
          }
        }
      } else {
        OtherBranches(s, replyId, ev, services, bookings, env);
      }
    }
  }

  /** The bookings collection changes only by a confirmation: then exactly one
      confirmed booking is appended for the sender and the session is
      cleared. */
  lemma BookingsChangeOnlyOnConfirmation(session: Option<Session>, ev: Event, services: seq<Service>, bookings: seq<Booking>, env: Env)
    ensures var o := Handle(session, ev, services, bookings, env);
      && (o.reply.BookingConfirmation? ==> ConfirmedAppend(bookings, o.bookings, ev.from, env) && o.session.None?)
      && (!o.reply.BookingConfirmation? ==> o.bookings == bookings && o.session.Some? == (session.Some? || ev.message.Interactive? || o.reply.WelcomeButtons?))
  {
    if ev.message.Interactive? {
      var s := if session.Some? then session.value else NewSession(ev.from, UserName(ev), env.nowMs);
      var replyId := ev.message.replyId;
      if replyId.Some? && s.step == SelectingTime && StartsWith(replyId.value, "slot_") {
        var id := replyId.value;
        SlotBranch(s, id, ev, services, bookings, env);
        if s.selectedTimeRange.Some? {
          var listed := Flatten(TimeSlotsForRange(s.selectedTimeRange.value, s.selectedDate, bookings, env.today, NowMin(env)));
          OnSlotSelectedSpec(s, id, listed, bookings, ev.from, UserName(ev), env);
        }
      } else {
        OtherBranches(s, replyId, ev, services, bookings, env);
      }
    }
  }

  /** Sessions that reached a step have what that step needs. */
  predicate Complete(s: Session)
  {
    && (s.step == SelectingDate || s.step == SelectingTimeRange || s.step == SelectingTime ==> s.selectedService.Some?)
    && (s.step == SelectingTimeRange || s.step == SelectingTime ==> s.selectedDate.Some?)
    && (s.step == SelectingTime ==> s.selectedTimeRange.Some?)
  }

  /** Every message keeps the sender's session complete, and from a complete
      session the handler fails only on an interactive message without a reply
      id or when the new booking's reference is already taken. */
  lemma HandleKeepsSessionComplete(session: Option<Session>, ev: Event, services: seq<Service>, bookings: seq<Booking>, env: Env)
    requires session.Some? ==> Complete(session.value)
    ensures var o := Handle(session, ev, services, bookings, env);
      && (o.session.Some? ==> Complete(o.session.value))
      && (o.reply.HandlerError? ==> ev.message == Interactive(None) || o.reply.message == DuplicateKeyError)
  {
    if ev.message.Interactive? {
      var s := if session.Some? then session.value else NewSession(ev.from, UserName(ev), env.nowMs);
      var replyId := ev.message.replyId;
      if replyId.Some? && s.step == SelectingTime && StartsWith(replyId.value, "slot_") {
        var id := replyId.value;
        SlotBranch(s, id, ev, services, bookings, env);
        var listed := Flatten(TimeSlotsForRange(s.selectedTimeRange.value, s.selectedDate, bookings, env.today, NowMin(env)));
        OnSlotSelectedSpec(s, id, listed, bookings, ev.from, UserName(ev), env);
      } else {
        OtherBranches(s, replyId, ev, services, bookings, env);
      }
    }
  }

  /** Bookings with distinct references keep distinct references. */
  lemma HandleKeepsReferencesUnique(session: Option<Session>, ev: Event, services: seq<Service>, bookings: seq<Booking>, env: Env)
    requires ReferencesUnique(bookings)
    ensures ReferencesUnique(Handle(session, ev, services, bookings, env).bookings)
  {
    var o := Handle(session, ev, services, bookings, env);
    BookingsChangeOnlyOnConfirmation(session, ev, services, bookings, env);
    if o.reply.BookingConfirmation? {
      ConfirmedAppendKeepsReferencesUnique(bookings, o.bookings, ev.from, env);
    }
  }

  /** A confirmation's append is an insert that succeeded, so it keeps
      references unique. */
  lemma ConfirmedAppendKeepsReferencesUnique(before: seq<Booking>, after: seq<Booking>, from: string, env: Env)
    requires ReferencesUnique(before)
    requires ConfirmedAppend(before, after, from, env)
    ensures ReferencesUnique(after)
  {
    var b := after[|before|];
    assert after == before + [b];
    InsertKeepsReferencesUnique(before, b);
  }

  /** A listed slot that the re-check finds free, with a date and a service
      chosen, goes to the insert. */
  lemma SlotCommitted(s: Session, id: string, listed: seq<Row>, current: seq<Booking>,
                      from: string, name: string, env: Env)
    requires FindRow(listed, id).Some?
    requires RecheckKey(id) !in BookedKeys(current, QueryDay(s.selectedDate))
    requires s.selectedDate.Some? && s.selectedService.Some?
    ensures OnSlotSelected(s, id, listed, current, from, name, env)
      == Commit(s, s.selectedDate.value, s.selectedService.value, FindRow(listed, id).value.title, current, from, name, env)
  {
  }

  /** A booking at a slot's title blocks only the :00 key of its 12-hour clock
      hour, so on another day than today any slot other than a morning :00
      slot is still listed under its own row, and passes the re-check. */
  lemma SlotStillListed(t: SlotTime, r: TimeRange, first: Booking, d: nat, today: nat, nowMin: nat)
    requires r in TimeRanges && r.start <= t.hour < r.end
    requires t.half || t.hour >= 12
    requires first.appointmentDate == Day(d) && first.appointmentTime == SlotTitle(t) && first.status != Cancelled
    requires d != today
    ensures var listed := Flatten(TimeSlotsForRange("range_" + r.key, Some(Day(d)), [first], today, nowMin));
      && FindRow(listed, SlotId(t)) == Some(SlotRow(t))
      && RecheckKey(SlotId(t)) !in BookedKeys([first], Some(d))
  {
    var booked := BookedKeys([first], Some(d));
    SingleBookingKeys(first, Some(d));
    SlotTitleKey(t);
    if SlotKey(t.hour, t.half) in booked {
      SlotKeysMatch(ClockHour(t.hour), t.hour, t.half);
    }
    assert Eligible(t, r, booked, false, 0);
    OtherDaySections(r, [first], d, today, nowMin);
    EligibleSlotFound(r, booked, false, 0, t);
    RecheckKeyOfSlotId(t);
  }

  /** The outcome holds the first booking and, after it, a second confirmed
      booking for the same date and time, and the customer is told it is booked. */
  predicate BookedAgain(o: Outcome, first: Booking)
  {
    && |o.bookings| == 2 && o.bookings[0] == first
    && o.bookings[1].appointmentDate == first.appointmentDate
    && o.bookings[1].appointmentTime == first.appointmentTime
    && o.bookings[1].status == Confirmed
    && o.reply.BookingConfirmation?
  }

  /** Double booking: a slot other than a morning :00 slot stays on offer after
      it has been booked, so a second customer completing the dialogue books
      the same date and time again. */
  lemma SlotBookedTwice(t: SlotTime, r: TimeRange, first: Booking, s: Session, svc: Service, d: nat,
                        ev: Event, services: seq<Service>, env: Env)
    requires r in TimeRanges && r.start <= t.hour < r.end
    requires t.half || t.hour >= 12
    requires first.appointmentDate == Day(d) && first.appointmentTime == SlotTitle(t) && first.status != Cancelled
    requires d != env.today
    requires s.step == SelectingTime && s.selectedTimeRange == Some("range_" + r.key)
    requires s.selectedDate == Some(Day(d)) && s.selectedService == Some(svc)
    requires ev.message == Interactive(Some(SlotId(t)))
    requires first.bookingReference != GenerateBookingReference(env.nowMs, env.randomText)
    ensures BookedAgain(Handle(Some(s), ev, services, [first], env), first)
  {
    HandleInteractive(Some(s), ev, services, [first], env);
    SlotReplyBooksAgain(t, r, first, s, svc, d, ev, services, env);
  }

  /** The slot reply of SlotBookedTwice, on the sender's session. */
  lemma SlotReplyBooksAgain(t: SlotTime, r: TimeRange, first: Booking, s: Session, svc: Service, d: nat,
                            ev: Event, services: seq<Service>, env: Env)
    requires r in TimeRanges && r.start <= t.hour < r.end
    requires t.half || t.hour >= 12
    requires first.appointmentDate == Day(d) && first.appointmentTime == SlotTitle(t) && first.status != Cancelled
    requires d != env.today
    requires s.step == SelectingTime && s.selectedTimeRange == Some("range_" + r.key)
    requires s.selectedDate == Some(Day(d)) && s.selectedService == Some(svc)
    requires first.bookingReference != GenerateBookingReference(env.nowMs, env.randomText)
    ensures BookedAgain(OnReply(s, Some(SlotId(t)), ev, services, [first], env), first)
  {
    var id := SlotId(t);
    assert StartsWith(id, "slot_") by {
      assert id[..5] == "slot_";
    }
    SlotBranch(s, id, ev, services, [first], env);
    SlotStillListed(t, r, first, d, env.today, NowMin(env));
    var listed := Flatten(TimeSlotsForRange("range_" + r.key, Some(Day(d)), [first], env.today, NowMin(env)));
    ListedSlotBooksAgain(t, listed, first, s, svc, d, ev.from, UserName(ev), env);
  }

  /** A slot still listed and free on re-check is booked again at the first
      booking's date and time. */
  lemma ListedSlotBooksAgain(t: SlotTime, listed: seq<Row>, first: Booking, s: Session, svc: Service, d: nat,
                             from: string, name: string, env: Env)
    requires FindRow(listed, SlotId(t)) == Some(SlotRow(t))
    requires RecheckKey(SlotId(t)) !in BookedKeys([first], Some(d))
    requires first.appointmentDate == Day(d) && first.appointmentTime == SlotTitle(t)
    requires s.selectedDate == Some(Day(d)) && s.selectedService == Some(svc)
    requires first.bookingReference != GenerateBookingReference(env.nowMs, env.randomText)
    ensures BookedAgain(OnSlotSelected(s, SlotId(t), listed, [first], from, name, env), first)
  {
    SlotCommitted(s, SlotId(t), listed, [first], from, name, env);
    assert !HasReference([first], GenerateBookingReference(env.nowMs, env.randomText));
    CommitSpec(s, Day(d), svc, SlotTitle(t), [first], from, name, env);
  }

  // ---------------------------------------------------------------------
  // The handler
  // ---------------------------------------------------------------------

  /** The store's map once the sender's session is `s` (None: removed). */
  function Stored(sessions: map<string, Session>, phone: string, s: Option<Session>): (m: map<string, Session>)
    ensures s.Some? ==> phone in m && m[phone] == s.value
    ensures s.None? ==> phone !in m
    ensures forall q :: q in m ==> q == phone || q in sessions
    ensures forall q :: q != phone && q in sessions ==> q in m && m[q] == sessions[q]
  {
    if s.Some? then sessions[phone := s.value] else sessions - {phone}
  }

  /** Storing over a stored entry is storing once. */
  lemma StoredTwice(sessions: map<string, Session>, phone: string, a: Session, b: Option<Session>)
    ensures Stored(sessions[phone := a], phone, b) == Stored(sessions, phone, b)
  {
    var l := Stored(sessions[phone := a], phone, b);
    var r := Stored(sessions, phone, b);
    assert l.Keys == r.Keys;
    assert forall q :: q in l ==> l[q] == r[q];
  }

  /** An interactive message is the switch on its reply id, run on the sender's
      session or on a new one. */
  lemma HandleInteractive(session: Option<Session>, ev: Event, services: seq<Service>, bookings: seq<Booking>, env: Env)
    requires ev.message.Interactive?
    ensures var s := if session.Some? then session.value else NewSession(ev.from, UserName(ev), env.nowMs);
      Handle(session, ev, services, bookings, env) == OnReply(s, ev.message.replyId, ev, services, bookings, env)
  {
  }

  class Bot {
    /** The in-memory session store. */
    const sessionService: SessionService
    /** The services collection, which the dialogue only reads. */
    const services: seq<Service>
    /** The bookings collection. */
    var bookings: seq<Booking>

    constructor(sessionService: SessionService, services: seq<Service>, bookings: seq<Booking>)
      ensures this.sessionService == sessionService && this.services == services && this.bookings == bookings
    {
      this.sessionService := sessionService;
      this.services := services;
      this.bookings := bookings;
    }

    /** handleIncomingMessage */
    method HandleIncomingMessage(ev: Event, env: Env) returns (reply: Reply)
      modifies this, sessionService
      ensures var o := Handle(old(sessionService.GetSession(ev.from)), ev, services, old(bookings), env);
        && reply == o.reply
        && bookings == o.bookings
        && sessionService.sessions == Stored(old(sessionService.sessions), ev.from, o.session)
    {
      var from := ev.from;
      var userName := UserName(ev);
      var session := sessionService.GetSession(from);
      match ev.message {
        case OtherMessage =>
          reply := NoReply;
        case TextMessage(body) =>
          var text := Trim(Lower(body));
          if text in GreetingPatterns {
            var s := sessionService.CreateSession(from, userName, env.nowMs);
            reply := WelcomeButtons(Welcome(userName), WelcomeButtonIds);
            assert Handle(session, ev, services, bookings, env) == Outcome(Some(s), bookings, reply);
          } else {
            reply := NoReply;
          }
        case Interactive(_) =>
          HandleInteractive(session, ev, services, bookings, env);
          reply := HandleInteractiveMessage(ev, env);
      }
    }

    /** The interactive branch: the sender's session, created if missing, and
        the switch on the reply id. */
    method HandleInteractiveMessage(ev: Event, env: Env) returns (reply: Reply)
      requires ev.message.Interactive?
      modifies this, sessionService
      ensures var session := old(sessionService.GetSession(ev.from));
        var s := if session.Some? then session.value else NewSession(ev.from, UserName(ev), env.nowMs);
        var o := OnReply(s, ev.message.replyId, ev, services, old(bookings), env);
        && reply == o.reply
        && bookings == o.bookings
        && sessionService.sessions == Stored(old(sessionService.sessions), ev.from, o.session)
    {
      var from := ev.from;
      var session := sessionService.GetSession(from);
      var s: Session;
      if session.None? {
        s := sessionService.CreateSession(from, UserName(ev), env.nowMs);
      } else {
        s := session.value;
      }
      reply := HandleReply(s, ev.message.replyId, ev, env);
      if session.None? {
        StoredTwice(old(sessionService.sessions), from, s, OnReply(s, ev.message.replyId, ev, services, old(bookings), env).session);
      }
    }

    /** The switch on the reply id, once the sender has session s. */
    method HandleReply(s: Session, replyId: Option<string>, ev: Event, env: Env) returns (reply: Reply)
      requires sessionService.GetSession(ev.from) == Some(s)
      modifies this, sessionService
      ensures var o := OnReply(s, replyId, ev, services, old(bookings), env);
        && reply == o.reply
        && bookings == o.bookings
        && sessionService.sessions == Stored(old(sessionService.sessions), ev.from, o.session)
    {
      var from := ev.from;
      if replyId == Some("choose_service") {
        var servicesFromDb := ActiveServices(services);
        reply := ServiceList(ServiceSections(servicesFromDb));
        var _ := sessionService.UpdateSession(from, StepTo(SelectingService));
      } else if replyId == Some("my_reservations") {
        reply := ReservationsNotice;
      } else if replyId == Some("loyalty_points") {
        reply := LoyaltyPointsNotice;
      } else if replyId.None? {
        reply := if s.step == Initial then NoReply else HandlerError(UndefinedError);
      } else {
        reply := HandleSelection(s, replyId.value, ev, env);
      }
    }

    /** The switch's default branch. */
    method HandleSelection(s: Session, responseId: string, ev: Event, env: Env) returns (reply: Reply)
      requires sessionService.GetSession(ev.from) == Some(s)
      modifies this, sessionService
      ensures var o := OnSelection(s, responseId, ev, services, old(bookings), env);
        && reply == o.reply
        && bookings == o.bookings
        && sessionService.sessions == Stored(old(sessionService.sessions), ev.from, o.session)
    {
      var from := ev.from;
      if s.step == SelectingService && '_' in responseId {
        var selectedService := FindActiveService(services, responseId);
        if selectedService.Some? {
          var _ := sessionService.UpdateSession(from, SessionUpdate(Some(SelectingDate), selectedService, None, None));
          var dates := GenerateDateOptions(env.today);
          reply := DateList(dates);
        } else {
          reply := NoReply;
        }
      } else if s.step == SelectingDate && StartsWith(responseId, "date_") {
        var selectedDate := ParseDateText(RemoveFirst(responseId, "date_"));
        var _ := sessionService.UpdateSession(from, SessionUpdate(Some(SelectingTimeRange), None, Some(selectedDate), None));
        reply := RangeList(TimeRangeOptions(Some(selectedDate), env.today, NowMin(env)));
      } else if s.step == SelectingTimeRange && StartsWith(responseId, "range_") {
        var _ := sessionService.UpdateSession(from, SessionUpdate(Some(SelectingTime), None, None, Some(responseId)));
        var timeSlots := GenerateTimeSlotsForRange(responseId, s.selectedDate, bookings, env.today, env.utcHour, env.utcMinute);
        reply := if timeSlots == [] then NoSlotsNotice else SlotList(timeSlots);
      } else if s.step == SelectingTime && StartsWith(responseId, "slot_") {
        if s.selectedTimeRange.None? {
          reply := HandlerError(UndefinedError);
        } else {
          var timeSlots := GenerateTimeSlotsForRange(s.selectedTimeRange.value, s.selectedDate, bookings,
                                                     env.today, env.utcHour, env.utcMinute);
          var availableSlots := Flatten(timeSlots);
          reply := HandleSlotSelection(s, responseId, availableSlots, from, UserName(ev), env);
        }
      } else {
        reply := NoReply;
      }
    }

    /** The slot step once the slots are listed: find the chosen row, re-check,
        insert, confirm, clear the session. */
    method HandleSlotSelection(s: Session, responseId: string, availableSlots: seq<Row>,
                               from: string, userName: string, env: Env) returns (reply: Reply)
      requires sessionService.GetSession(from) == Some(s)
      modifies this, sessionService
      ensures var o := OnSlotSelected(s, responseId, availableSlots, old(bookings), from, userName, env);
        && reply == o.reply
        && bookings == o.bookings
        && sessionService.sessions == Stored(old(sessionService.sessions), from, o.session)
    {
      assert sessionService.sessions == Stored(sessionService.sessions, from, Some(s));
      var selectedSlot := FindRow(availableSlots, responseId);
      if selectedSlot.None? {
        return NoReply;
      }
      var bookedSlots := CheckAvailableSlots(bookings, s.selectedDate);
      if RecheckKey(responseId) in bookedSlots {
        return SlotTakenNotice;
      }
      if s.selectedDate.None? || s.selectedService.None? {
        return HandlerError(NullError);
      }
      var selectedDate := s.selectedDate.value;
      var selectedService := s.selectedService.value;
      var booking := NewBooking(BookingFields(from, selectedService.dbId, Some(Confirmed), None, selectedDate,
                                              selectedSlot.value.title, None, None, None, None),
                                env.nowMs, env.randomText);
      var inserted := InsertBooking(bookings, booking);
      if inserted.Err? {
        return HandlerError(inserted.error);
      }
      bookings := inserted.value;
      reply := BookingConfirmation(BookingConfirmed(userName, selectedService.title, DateLabel(selectedDate),
                                                    selectedSlot.value.title));
      if env.confirmationMessageId.Some? && env.confirmationMessageId.value != "" {
        bookings := bookings[|bookings| - 1 := booking.(confirmationMessageId := env.confirmationMessageId,
                                                        updatedAt := env.nowMs)];
      }
      sessionService.ClearSession(from);
    }
  }
}
