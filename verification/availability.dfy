/**
 * Slot availability (src/controllers/webhookController.js, lines 11-147):
 * the fixed time ranges, the booked-slot keys of a day, the 30-minute slots a
 * range still offers, the time-range picker and the 7-day date picker.
 *
 * The current time is taken in India Standard Time (UTC+5:30) as a number of
 * minutes after midnight UTC, 60 * utcHour + utcMinute + 330; like the source,
 * it is not reduced modulo one day.
 */
module Availability {
  import opened Wrappers
  import opened Text
  import opened Lists
  import opened Calendar
  import opened BookingModel

  // ---------------------------------------------------------------------
  // TIME_RANGES
  // ---------------------------------------------------------------------

  /** A range of whole hours [start, end) and the label shown for it. */
  datatype TimeRange = TimeRange(key: string, start: nat, end: nat, caption: string)

  const Morning: TimeRange := TimeRange("morning", 9, 12, "Morning (9 AM - 12 PM)")
  const Afternoon: TimeRange := TimeRange("afternoon", 12, 16, "Afternoon (12 PM - 4 PM)")
  const Evening: TimeRange := TimeRange("evening", 16, 21, "Evening (4 PM - 9 PM)")
  const TimeRanges: seq<TimeRange> := [Morning, Afternoon, Evening]

  /** TIME_RANGES[rangeId.replace('range_', '')]: only the three own keys name a range. */
  function LookupRange(rangeId: string): (r: Option<TimeRange>)
    ensures r.Some? ==> r.value in TimeRanges && r.value.key == RemoveFirst(rangeId, "range_")
    ensures r.None? <==> RemoveFirst(rangeId, "range_") !in {"morning", "afternoon", "evening"}
  {
    var key := RemoveFirst(rangeId, "range_");
    if key == "morning" then Some(Morning)
    else if key == "afternoon" then Some(Afternoon)
    else if key == "evening" then Some(Evening)
    else None
  }

  /** The id the range picker sends back names that range again. */
  lemma LookupRangeRoundTrip(r: TimeRange)
    requires r in TimeRanges
    ensures LookupRange("range_" + r.key) == Some(r)
  {
    RemoveFirstPrefix("range_" + r.key, "range_");
    assert ("range_" + r.key)[|"range_"|..] == r.key;
  }

  // ---------------------------------------------------------------------
  // The clock
  // ---------------------------------------------------------------------

  /** currentHourIST * 60, exactly: minutes after midnight UTC, shifted to IST. */
  function IstMinutes(utcHour: nat, utcMinute: nat): nat
  {
    60 * utcHour + utcMinute + 330
  }

  /** Math.ceil(currentHourIST) */
  function CeilHour(nowMin: nat): nat
  {
    (nowMin + 59) / 60
  }

  /** (getUTCMinutes() + 30) % 60 is the minute of the IST hour. */
  lemma IstMinuteOfHour(utcHour: nat, utcMinute: nat)
    ensures (utcMinute + 30) % 60 == IstMinutes(utcHour, utcMinute) % 60
  {
    assert IstMinutes(utcHour, utcMinute) == 60 * (utcHour + 5) + (utcMinute + 30);
  }

  /** For an hour that starts after now, it is the hour Math.ceil picks exactly
      when it starts less than an hour from now. */
  lemma CeilHourIsNextHour(h: nat, nowMin: nat)
    requires nowMin < 60 * h
    ensures h == CeilHour(nowMin) <==> 60 * h < nowMin + 60
  {
  }

  // ---------------------------------------------------------------------
  // Booked keys (checkAvailableSlots)
  // ---------------------------------------------------------------------

  /** The key of a slot, `${h}_00` or `${h}_30`, with h the 24-hour hour. */
  function SlotKey(hour: nat, half: bool): string
  {
    Decimal(hour) + (if half then "_30" else "_00")
  }

  /** The key checkAvailableSlots derives from a stored appointmentTime: parseInt
      of the text before the first ':' and '_', then '_', then the text after
      the first '_' (or "00"). */
  function BookingKey(appointmentTime: string): string
  {
    var parts := Split(Split(appointmentTime, ':')[0], '_');
    var minute := if |parts| >= 2 && parts[1] != "" then parts[1] else "00";
    IntText(ParseInt(parts[0])) + "_" + minute
  }

  /** The calendar day a bookings query for `selectedDate` covers: `new Date(null)`
      is the epoch, and an invalid date covers no day. */
  function QueryDay(selected: Option<Date>): Option<nat>
  {
    match selected
    case None => Some(0)
    case Some(Day(n)) => Some(n)
    case Some(InvalidDate) => None
  }

  /** The bookings query: on that calendar day, status not CANCELLED. */
  predicate Occupies(b: Booking, day: Option<nat>)
  {
    day.Some? && b.appointmentDate == Day(day.value) && b.status != Cancelled
  }

  /** The booked keys of a day, as the forEach fills the map. */
  function BookedKeys(bookings: seq<Booking>, day: Option<nat>): set<string>
    decreases |bookings|
  {
    if bookings == [] then {}
    else
      var last := bookings[|bookings| - 1];
      BookedKeys(bookings[..|bookings| - 1], day) +
        (if Occupies(last, day) then {BookingKey(last.appointmentTime)} else {})
  }

  /** Booking b, on that day, yields key k. */
  predicate YieldsKey(b: Booking, day: Option<nat>, k: string)
  {
    Occupies(b, day) && BookingKey(b.appointmentTime) == k
  }

  /** A booked key comes from a booking of that day, not cancelled. */
  lemma {:induction false} BookedKeyHasBooking(bookings: seq<Booking>, day: Option<nat>, k: string) returns (i: nat)
    requires k in BookedKeys(bookings, day)
    ensures i < |bookings| && YieldsKey(bookings[i], day, k)
    decreases |bookings|
  {
    var n := |bookings| - 1;
    var p := bookings[..n];
    if k in BookedKeys(p, day) {
      i := BookedKeyHasBooking(p, day, k);
      assert bookings[i] == p[i];
    } else {
      i := n;
    }
  }

  /** Every booking of that day, not cancelled, books its key. */
  lemma {:induction false} BookingBooksKey(bookings: seq<Booking>, day: Option<nat>, k: string, i: nat)
    requires i < |bookings| && YieldsKey(bookings[i], day, k)
    ensures k in BookedKeys(bookings, day)
    decreases |bookings|
  {
    var n := |bookings| - 1;
    var p := bookings[..n];
    if i < n {
      assert p[i] == bookings[i];
      BookingBooksKey(p, day, k, i);
      assert BookedKeys(p, day) <= BookedKeys(bookings, day);
    }
  }

  /** A key is booked exactly when some booking of that day, not cancelled, whatever
      its service, yields it. */
  lemma BookedKeysSpec(bookings: seq<Booking>, day: Option<nat>, k: string)
    ensures k in BookedKeys(bookings, day) <==> exists i :: 0 <= i < |bookings| && YieldsKey(bookings[i], day, k)
  {
    if k in BookedKeys(bookings, day) {
      var i := BookedKeyHasBooking(bookings, day, k);
    }
    if exists i :: 0 <= i < |bookings| && YieldsKey(bookings[i], day, k) {
      var i :| 0 <= i < |bookings| && YieldsKey(bookings[i], day, k);
      BookingBooksKey(bookings, day, k, i);
    }
  }

  /** checkAvailableSlots */
  method CheckAvailableSlots(bookings: seq<Booking>, selected: Option<Date>) returns (booked: set<string>)
    ensures booked == BookedKeys(bookings, QueryDay(selected))
  {
    var day := QueryDay(selected);
    booked := {};
    for i := 0 to |bookings|
      invariant booked == BookedKeys(bookings[..i], day)
    {
      var b := bookings[i];
      assert bookings[..i + 1][..i] == bookings[..i];
      if Occupies(b, day) {
        booked := booked + {BookingKey(b.appointmentTime)};
      }
    }
    assert bookings[..|bookings|] == bookings;
  }

  // ---------------------------------------------------------------------
  // Slots (generateTimeSlotsForRange)
  // ---------------------------------------------------------------------

  /** A 30-minute slot: an hour of the day and whether it is the :30 half. */
  datatype SlotTime = SlotTime(hour: nat, half: bool)

  /** The hour on a 12-hour clock as the source prints it: h - 12 from noon on. */
  function ClockHour(h: nat): nat
  {
    if h < 12 then h else h - 12
  }

  function SlotTitle(t: SlotTime): string
  {
    Decimal(ClockHour(t.hour)) + (if t.half then ":30 " else ":00 ") + (if t.hour < 12 then "AM" else "PM")
  }

  function SlotId(t: SlotTime): string
  {
    "slot_" + SlotKey(t.hour, t.half)
  }

  function SlotRow(t: SlotTime): Row
  {
    Row(SlotId(t), SlotTitle(t), "30 minute slot")
  }

  function SlotRows(ts: seq<SlotTime>): (rows: seq<Row>)
    ensures |rows| == |ts|
    ensures forall i :: 0 <= i < |ts| ==> rows[i] == SlotRow(ts[i])
  {
    seq(|ts|, i requires 0 <= i < |ts| => SlotRow(ts[i]))
  }

  /** The slots one pass of the for loop adds for hour h. */
  function HourSlots(h: nat, booked: set<string>, isToday: bool, nowMin: nat): seq<SlotTime>
  {
    if isToday && 60 * h <= nowMin then []
    else if isToday && h == CeilHour(nowMin) then
      if nowMin % 60 < 30 && SlotKey(h, true) !in booked then [SlotTime(h, true)] else []
    else
      (if SlotKey(h, false) !in booked then [SlotTime(h, false)] else []) +
      (if SlotKey(h, true) !in booked then [SlotTime(h, true)] else [])
  }

  /** The slots the loop has gathered before reaching hour hi. */
  function SlotsBefore(range: TimeRange, hi: nat, booked: set<string>, isToday: bool, nowMin: nat): seq<SlotTime>
    decreases hi
  {
    if hi <= range.start then []
    else SlotsBefore(range, hi - 1, booked, isToday, nowMin) + HourSlots(hi - 1, booked, isToday, nowMin)
  }

  function OfferedSlots(range: TimeRange, booked: set<string>, isToday: bool, nowMin: nat): seq<SlotTime>
  {
    SlotsBefore(range, range.end, booked, isToday, nowMin)
  }

  /** Reference definition of an offered slot: inside the range, its key not
      booked, and, on the current day, its hour starts after now; an hour that
      starts less than an hour from now offers only its :30 half, and only while
      the IST minute is below 30. */
  predicate Eligible(t: SlotTime, range: TimeRange, booked: set<string>, isToday: bool, nowMin: nat)
  {
    && range.start <= t.hour < range.end
    && SlotKey(t.hour, t.half) !in booked
    && (isToday ==> nowMin < 60 * t.hour && (60 * t.hour < nowMin + 60 ==> t.half && nowMin % 60 < 30))
  }

  /** Slot order: by hour, :00 before :30. */
  predicate Before(a: SlotTime, b: SlotTime)
  {
    a.hour < b.hour || (a.hour == b.hour && !a.half && b.half)
  }

  predicate Ascending(ts: seq<SlotTime>)
  {
    forall i, j :: 0 <= i < j < |ts| ==> Before(ts[i], ts[j])
  }

  lemma HourSlotsSpec(h: nat, t: SlotTime, range: TimeRange, booked: set<string>, isToday: bool, nowMin: nat)
    requires range.start <= h < range.end
    ensures t in HourSlots(h, booked, isToday, nowMin) <==> t.hour == h && Eligible(t, range, booked, isToday, nowMin)
    ensures Ascending(HourSlots(h, booked, isToday, nowMin))
    ensures forall s :: s in HourSlots(h, booked, isToday, nowMin) ==> s.hour == h
  {
    if isToday && nowMin < 60 * h {
      CeilHourIsNextHour(h, nowMin);
    }
  }

  /** The hours below hi offer exactly the eligible slots below hi. */
  lemma {:induction false} SlotsBeforeSpec(range: TimeRange, hi: nat, booked: set<string>, isToday: bool, nowMin: nat, t: SlotTime)
    requires hi <= range.end
    ensures t in SlotsBefore(range, hi, booked, isToday, nowMin) <==> t.hour < hi && Eligible(t, range, booked, isToday, nowMin)
    decreases hi
  {
    if hi > range.start {
      SlotsBeforeSpec(range, hi - 1, booked, isToday, nowMin, t);
      HourSlotsSpec(hi - 1, t, range, booked, isToday, nowMin);
    }
  }

  /** The hours below hi offer slots below hi, in ascending order. */
  lemma {:induction false} SlotsBeforeAscending(range: TimeRange, hi: nat, booked: set<string>, isToday: bool, nowMin: nat)
    requires hi <= range.end
    ensures Ascending(SlotsBefore(range, hi, booked, isToday, nowMin))
    ensures forall s :: s in SlotsBefore(range, hi, booked, isToday, nowMin) ==> s.hour < hi
    decreases hi
  {
    if hi > range.start {
      var p := SlotsBefore(range, hi - 1, booked, isToday, nowMin);
      var q := HourSlots(hi - 1, booked, isToday, nowMin);
      SlotsBeforeAscending(range, hi - 1, booked, isToday, nowMin);
      HourSlotsSpec(hi - 1, SlotTime(0, false), range, booked, isToday, nowMin);
      var r := p + q;
      forall i, j | 0 <= i < j < |r| ensures Before(r[i], r[j]) {
        if j >= |p| && i < |p| {
          assert r[i] in p && r[j] in q;
        } else if i >= |p| {
          assert r[i] == q[i - |p|] && r[j] == q[j - |p|];
        }
      }
    }
  }

  /** A slot is offered exactly when it is eligible, and the offer lists slots
      in ascending order (so each at most once). */
  lemma OfferedSlotsSpec(range: TimeRange, booked: set<string>, isToday: bool, nowMin: nat)
    ensures forall t :: t in OfferedSlots(range, booked, isToday, nowMin) <==> Eligible(t, range, booked, isToday, nowMin)
    ensures Ascending(OfferedSlots(range, booked, isToday, nowMin))
  {
    forall t ensures t in OfferedSlots(range, booked, isToday, nowMin) <==> Eligible(t, range, booked, isToday, nowMin) {
      SlotsBeforeSpec(range, range.end, booked, isToday, nowMin, t);
    }
    SlotsBeforeAscending(range, range.end, booked, isToday, nowMin);
  }

  function IsToday(selected: Option<Date>, today: nat): bool
  {
    selected == Some(Day(today))
  }

  /** generateTimeSlotsForRange, with the current day and UTC clock as inputs:
      no section when the range is unknown or nothing qualifies, otherwise one
      section titled with the range's label. */
  function TimeSlotsForRange(rangeId: string, selected: Option<Date>, bookings: seq<Booking>, today: nat, nowMin: nat): seq<Section>
  {
    match LookupRange(rangeId)
    case None => []
    case Some(range) =>
      var isToday := IsToday(selected, today);
      RangeSections(range, BookedKeys(bookings, QueryDay(selected)), isToday, if isToday then nowMin else 0)
  }

  /** The sections for a known range: one, titled with the range's label, if
      any slot is offered. */
  function RangeSections(range: TimeRange, booked: set<string>, isToday: bool, nowMin: nat): seq<Section>
  {
    var slots := OfferedSlots(range, booked, isToday, nowMin);
    if |slots| > 0 then [Section(range.caption, SlotRows(slots))] else []
  }

  lemma SlotRowsAppend(a: seq<SlotTime>, b: seq<SlotTime>)
    ensures SlotRows(a + b) == SlotRows(a) + SlotRows(b)
  {
  }

  lemma SlotRowsShort(a: SlotTime, b: SlotTime)
    ensures SlotRows([]) == []
    ensures SlotRows([a]) == [SlotRow(a)]
    ensures SlotRows([a, b]) == [SlotRow(a), SlotRow(b)]
  {
  }

  /** One pass of the for loop: the rows pushed for hour h. */
  method HourRows(h: nat, booked: set<string>, isToday: bool, nowMin: nat, utcHour: nat, utcMinute: nat)
    returns (hourRows: seq<Row>)
    requires isToday ==> nowMin == IstMinutes(utcHour, utcMinute)
    ensures hourRows == SlotRows(HourSlots(h, booked, isToday, nowMin))
  {
    hourRows := [];
    var full := SlotTime(h, false);
    var half := SlotTime(h, true);
    SlotRowsShort(full, half);
    if isToday && 60 * h <= nowMin {
      // an hour that has already started
      return;
    }
    if isToday && h == (nowMin + 59) / 60 {
      var currentMinutesIST := (utcMinute + 30) % 60;
      IstMinuteOfHour(utcHour, utcMinute);
      if currentMinutesIST < 30 && SlotKey(h, true) !in booked {
        hourRows := [SlotRow(half)];
      }
      return;
    }
    if SlotKey(h, false) !in booked {
      hourRows := hourRows + [SlotRow(full)];
    }
    if SlotKey(h, true) !in booked {
      hourRows := hourRows + [SlotRow(half)];
    }
  }

  method GenerateTimeSlotsForRange(rangeId: string, selected: Option<Date>, bookings: seq<Booking>,
                                   today: nat, utcHour: nat, utcMinute: nat)
    returns (sections: seq<Section>)
    ensures sections == TimeSlotsForRange(rangeId, selected, bookings, today, IstMinutes(utcHour, utcMinute))
  {
    var lookup := LookupRange(rangeId);
    if lookup.None? {
      return [];
    }
    var range := lookup.value;
    var isToday := IsToday(selected, today);
    var nowMin := if isToday then IstMinutes(utcHour, utcMinute) else 0;
    var booked := CheckAvailableSlots(bookings, selected);
    var slots: seq<Row> := [];
    for h := range.start to range.end
      invariant slots == SlotRows(SlotsBefore(range, h, booked, isToday, nowMin))
    {
      var hourRows := HourRows(h, booked, isToday, nowMin, utcHour, utcMinute);
      SlotRowsAppend(SlotsBefore(range, h, booked, isToday, nowMin), HourSlots(h, booked, isToday, nowMin));
      slots := slots + hourRows;
    }
    sections := if |slots| > 0 then [Section(range.caption, slots)] else [];
    assert sections == RangeSections(range, booked, isToday, nowMin);
  }

  // ---------------------------------------------------------------------
  // Properties of the offered slots
  // ---------------------------------------------------------------------

  /** Every listed row is the row of an eligible slot, in particular one whose key
      is not booked; rows come in ascending slot order; an unknown range or an
      empty offer gives no section at all. */
  lemma TimeSlotsForRangeSpec(rangeId: string, selected: Option<Date>, bookings: seq<Booking>, today: nat, nowMin: nat)
    ensures var sections := TimeSlotsForRange(rangeId, selected, bookings, today, nowMin);
      && (LookupRange(rangeId).None? ==> sections == [])
      && |sections| <= 1
      && (|sections| == 1 ==>
           var range := LookupRange(rangeId).value;
           var isToday := IsToday(selected, today);
           var booked := BookedKeys(bookings, QueryDay(selected));
           && sections[0].title == range.caption
           && sections[0].rows != []
           && exists ts: seq<SlotTime> ::
                && sections[0].rows == SlotRows(ts)
                && Ascending(ts)
                && forall t :: t in ts <==> Eligible(t, range, booked, isToday, if isToday then nowMin else 0))
      && (LookupRange(rangeId).Some? ==>
           var isToday := IsToday(selected, today);
           var cut := if isToday then nowMin else 0;
           (exists t :: Eligible(t, LookupRange(rangeId).value, BookedKeys(bookings, QueryDay(selected)), isToday, cut))
             ==> |sections| == 1)
  {
    match LookupRange(rangeId)
    case None =>
    case Some(range) =>
      var isToday := IsToday(selected, today);
      var booked := BookedKeys(bookings, QueryDay(selected));
      OfferedSlotsSpec(range, booked, isToday, if isToday then nowMin else 0);
  }

  /** Each row of a range's section is the row of an eligible slot. */
  lemma ListedRowIsEligible(range: TimeRange, booked: set<string>, isToday: bool, nowMin: nat, row: Row)
    returns (t: SlotTime)
    requires row in Flatten(RangeSections(range, booked, isToday, nowMin))
    ensures row == SlotRow(t) && Eligible(t, range, booked, isToday, nowMin)
  {
    var slots := OfferedSlots(range, booked, isToday, nowMin);
    var rows := SlotRows(slots);
    assert row in rows;
    var i :| 0 <= i < |rows| && rows[i] == row;
    t := slots[i];
    OfferedSlotsSpec(range, booked, isToday, nowMin);
    assert t in slots;
  }

  /** Distinct slots have distinct keys, hence distinct row ids. */
  lemma SlotKeyInjective(a: SlotTime, b: SlotTime)
    requires SlotKey(a.hour, a.half) == SlotKey(b.hour, b.half)
    ensures a == b
  {
    var x := Decimal(a.hour);
    var y := Decimal(b.hour);
    var sa := if a.half then "_30" else "_00";
    var sb := if b.half then "_30" else "_00";
    assert |x| == |y|;
    assert x == (x + sa)[..|x|] && y == (y + sb)[..|y|];
    assert (x + sa)[|x| + 1] == sa[1] && (y + sb)[|y| + 1] == sb[1];
    DecimalInjective(a.hour, b.hour);
  }

  /** Distinct slots have distinct row ids. */
  lemma SlotIdInjective(a: SlotTime, b: SlotTime)
    requires SlotId(a) == SlotId(b)
    ensures a == b
  {
    assert SlotId(a)[5..] == SlotKey(a.hour, a.half);
    assert SlotId(b)[5..] == SlotKey(b.hour, b.half);
    SlotKeyInjective(a, b);
  }

  /** The slots of a known range on a day other than today: the range's
      sections for that day's booked keys, with no clock cut-off. */
  lemma OtherDaySections(r: TimeRange, bookings: seq<Booking>, d: nat, today: nat, nowMin: nat)
    requires r in TimeRanges && d != today
    ensures TimeSlotsForRange("range_" + r.key, Some(Day(d)), bookings, today, nowMin)
      == RangeSections(r, BookedKeys(bookings, Some(d)), false, 0)
  {
    LookupRangeRoundTrip(r);
  }

  /** Every eligible slot is listed, and the lookup by its id finds its row. */
  lemma EligibleSlotFound(range: TimeRange, booked: set<string>, isToday: bool, nowMin: nat, t: SlotTime)
    requires Eligible(t, range, booked, isToday, nowMin)
    ensures FindRow(Flatten(RangeSections(range, booked, isToday, nowMin)), SlotId(t)) == Some(SlotRow(t))
  {
    OfferedSlotsSpec(range, booked, isToday, nowMin);
    var slots := OfferedSlots(range, booked, isToday, nowMin);
    var listed := Flatten(RangeSections(range, booked, isToday, nowMin));
    assert listed == SlotRows(slots);
    var k :| 0 <= k < |slots| && slots[k] == t;
    assert listed[k] == SlotRow(t);
    var row := FindRow(listed, SlotId(t)).value;
    var t2 := ListedRowIsEligible(range, booked, isToday, nowMin, row);
    SlotIdInjective(t2, t);
  }

  /** A single booking that occupies the day blocks exactly its own key. */
  lemma SingleBookingKeys(first: Booking, day: Option<nat>)
    requires Occupies(first, day)
    ensures BookedKeys([first], day) == {BookingKey(first.appointmentTime)}
  {
    assert [first][..|[first]| - 1] == [];
    assert BookedKeys([first][..|[first]| - 1], day) == {};
    assert [first][|[first]| - 1] == first;
  }

  /** On the current day no offered slot starts before now: even its :00 start
      lies after the current IST time. */
  lemma NoPastSlotToday(t: SlotTime, range: TimeRange, booked: set<string>, nowMin: nat)
    requires t in OfferedSlots(range, booked, true, nowMin)
    ensures 60 * t.hour > nowMin
    ensures 60 * t.hour < nowMin + 60 ==> t.half && nowMin % 60 < 30
  {
    OfferedSlotsSpec(range, booked, true, nowMin);
  }

  /** Once an hour has started on the current day, the loop has gathered nothing
      up to it. */
  lemma {:induction false} NothingBeforeNow(range: TimeRange, hi: nat, booked: set<string>, nowMin: nat)
    requires 60 * hi <= nowMin + 60
    ensures SlotsBefore(range, hi, booked, true, nowMin) == []
    decreases hi
  {
    if hi > range.start {
      NothingBeforeNow(range, hi - 1, booked, nowMin);
    }
  }

  /** From 14:00 UTC (19:30 IST) on, the current day offers no slot in any range:
      the last one, 20:30 IST, needs the IST minute below 30 in the hour before it.
      Since the IST minutes are not taken modulo a day, this still holds after
      18:30 UTC, when it is already the next day in IST. */
  lemma NoSlotsLateToday(rangeId: string, today: nat, bookings: seq<Booking>, utcHour: nat, utcMinute: nat)
    requires 60 * utcHour + utcMinute >= 840
    ensures TimeSlotsForRange(rangeId, Some(Day(today)), bookings, today, IstMinutes(utcHour, utcMinute)) == []
  {
    match LookupRange(rangeId)
    case None =>
    case Some(range) =>
      var booked := BookedKeys(bookings, QueryDay(Some(Day(today))));
      var nowMin := IstMinutes(utcHour, utcMinute);
      assert range.end <= 21;
      if nowMin >= 1200 || range.end <= 20 {
        NothingBeforeNow(range, range.end, booked, nowMin);
      } else {
        NothingBeforeNow(range, 20, booked, nowMin);
        assert CeilHour(nowMin) == 20 && nowMin % 60 >= 30;
        assert HourSlots(20, booked, true, nowMin) == [];
      }
  }

  /** The key derived from a slot's title loses the minute and the AM/PM: it is
      the 12-hour clock hour followed by "_00". */
  lemma SlotTitleKey(t: SlotTime)
    ensures BookingKey(SlotTitle(t)) == Decimal(ClockHour(t.hour)) + "_00"
  {
    var d := Decimal(ClockHour(t.hour));
    TitleHourText(t);
    assert '_' !in d by {
      forall i | 0 <= i < |d| ensures d[i] != '_' { assert IsDecimalDigit(d[i]); }
    }
    SplitNoSeparator(d, '_');
    ParseIntDecimal(ClockHour(t.hour), []);
    assert d + [] == d;
  }

  /** The text before the title's ":" is the 12-hour clock hour. */
  lemma TitleHourText(t: SlotTime)
    ensures Split(SlotTitle(t), ':')[0] == Decimal(ClockHour(t.hour))
  {
    var d := Decimal(ClockHour(t.hour));
    var rest := (if t.half then "30 " else "00 ") + (if t.hour < 12 then "AM" else "PM");
    assert SlotTitle(t) == d + [':'] + rest;
    assert ':' !in d by {
      forall i | 0 <= i < |d| ensures d[i] != ':' { assert IsDecimalDigit(d[i]); }
    }
    SplitAtFirst(d, ':', rest);
  }

  /** Noon is printed as hour 0: "0:00 PM" and "0:30 PM". */
  lemma NoonTitledZero()
    ensures SlotTitle(SlotTime(12, false)) == "0:00 PM"
    ensures SlotTitle(SlotTime(12, true)) == "0:30 PM"
  {
    assert Decimal(0) == "0";
  }

  /** A booking the bot made: its time is the title of a slot of some range. */
  ghost predicate MadeFromSlot(b: Booking)
  {
    exists t: SlotTime :: 9 <= t.hour < 21 && b.appointmentTime == SlotTitle(t)
  }

  lemma SlotKeysMatch(a: nat, b: nat, half: bool)
    requires Decimal(a) + "_00" == SlotKey(b, half)
    ensures a == b && !half
  {
    var x := Decimal(a);
    var y := Decimal(b);
    var sfx := if half then "_30" else "_00";
    assert |x| == |y|;
    assert x == (x + "_00")[..|x|] && y == (y + sfx)[..|y|];
    assert (x + "_00")[|x| + 1] == '0';
    assert (y + sfx)[|y| + 1] == sfx[1];
    DecimalInjective(a, b);
  }

  /** With only bot-made bookings, the only slot keys ever booked are the :00
      halves of morning hours, each booked by a booking in that same hour (at
      :00 or at :30); no afternoon or evening slot and no :30 slot is ever
      withheld. */
  lemma OnlyMorningFullHoursBlocked(bookings: seq<Booking>, day: Option<nat>, h: nat, half: bool)
    requires forall i :: 0 <= i < |bookings| ==> MadeFromSlot(bookings[i])
    requires 9 <= h < 21
    requires SlotKey(h, half) in BookedKeys(bookings, day)
    ensures !half && h < 12
    ensures exists i :: (0 <= i < |bookings| && Occupies(bookings[i], day) &&
      (bookings[i].appointmentTime == SlotTitle(SlotTime(h, false)) || bookings[i].appointmentTime == SlotTitle(SlotTime(h, true))))
  {
    BookedKeysSpec(bookings, day, SlotKey(h, half));
    var i :| 0 <= i < |bookings| && YieldsKey(bookings[i], day, SlotKey(h, half));
    var t: SlotTime :| 9 <= t.hour < 21 && bookings[i].appointmentTime == SlotTitle(t);
    SlotTitleKey(t);
    SlotKeysMatch(ClockHour(t.hour), h, half);
    assert t.hour == h;
    assert t == SlotTime(h, false) || t == SlotTime(h, true);
  }

  // ---------------------------------------------------------------------
  // The time-range picker (generateTimeRangeOptions)
  // ---------------------------------------------------------------------

  function RangeRow(r: TimeRange): Row
  {
    Row("range_" + r.key, r.caption, "Select to see available slots")
  }

  /** The rows of the ranges that are still open: all of them on another day,
      only those ending after now on the current day. */
  function OpenRangeRows(ranges: seq<TimeRange>, isToday: bool, nowMin: nat): seq<Row>
    decreases |ranges|
  {
    if ranges == [] then []
    else
      (if !isToday || 60 * ranges[0].end > nowMin then [RangeRow(ranges[0])] else []) +
      OpenRangeRows(ranges[1..], isToday, nowMin)
  }

  function TimeRangeOptions(selected: Option<Date>, today: nat, nowMin: nat): seq<Section>
  {
    var isToday := IsToday(selected, today);
    [Section("Available Time Slots", OpenRangeRows(TimeRanges, isToday, if isToday then nowMin else 0))]
  }

  /** One section. On another day it lists morning, afternoon and evening in
      that order; on the current day it lists the ranges that end after now,
      which are the last k of the three for some k, still in order. */
  lemma TimeRangeOptionsSpec(selected: Option<Date>, today: nat, nowMin: nat)
    ensures var s := TimeRangeOptions(selected, today, nowMin);
      && |s| == 1 && s[0].title == "Available Time Slots"
      && (!IsToday(selected, today) ==> s[0].rows == [RangeRow(Morning), RangeRow(Afternoon), RangeRow(Evening)])
      && (IsToday(selected, today) ==> forall r :: r in TimeRanges ==> (RangeRow(r) in s[0].rows <==> 60 * r.end > nowMin))
      && exists k :: 0 <= k <= 3 && s[0].rows == [RangeRow(Morning), RangeRow(Afternoon), RangeRow(Evening)][k..]
  {
    var all := [RangeRow(Morning), RangeRow(Afternoon), RangeRow(Evening)];
    var isToday := IsToday(selected, today);
    var cur := if isToday then nowMin else 0;
    var rows := TimeRangeOptions(selected, today, nowMin)[0].rows;
    assert TimeRanges[1..] == [Afternoon, Evening];
    assert [Afternoon, Evening][1..] == [Evening];
    assert [Evening][1..] == [];
    var r3 := OpenRangeRows([Evening], isToday, cur);
    assert r3 == (if !isToday || 1260 > cur then [RangeRow(Evening)] else []) + OpenRangeRows([], isToday, cur);
    var r2 := OpenRangeRows([Afternoon, Evening], isToday, cur);
    assert r2 == (if !isToday || 960 > cur then [RangeRow(Afternoon)] else []) + r3;
    assert rows == (if !isToday || 720 > cur then [RangeRow(Morning)] else []) + r2;
    if !isToday || cur < 720 {
      assert rows == all[0..];
    } else if cur < 960 {
      assert rows == all[1..];
    } else if cur < 1260 {
      assert rows == all[2..];
    } else {
      assert rows == all[3..];
    }
  }

  // ---------------------------------------------------------------------
  // The date picker (generateDateOptions)
  // ---------------------------------------------------------------------

  function DateRowTitle(today: nat, i: nat): string
  {
    var d := today + i;
    if i == 0 then "Today (" + DateText(d) + ")"
    else if i == 1 then "Tomorrow (" + DateText(d) + ")"
    else WeekdayName(d) + " (" + DateText(d) + ")"
  }

  function DateRow(today: nat, i: nat): Row
  {
    Row("date_" + DateText(today + i), DateRowTitle(today, i), "Select for available time slots")
  }

  function DateOptions(today: nat): seq<Section>
  {
    [Section("Available Dates", seq(7, i requires 0 <= i < 7 => DateRow(today, i)))]
  }

  method GenerateDateOptions(today: nat) returns (sections: seq<Section>)
    ensures sections == DateOptions(today)
  {
    var dates: seq<Row> := [];
    for i := 0 to 7
      invariant |dates| == i
      invariant forall k :: 0 <= k < i ==> dates[k] == DateRow(today, k)
    {
      var date := today + i;
      var title := if i == 0 then "Today (" + DateText(date) + ")"
                   else if i == 1 then "Tomorrow (" + DateText(date) + ")"
                   else WeekdayName(date) + " (" + DateText(date) + ")";
      dates := dates + [Row("date_" + DateText(date), title, "Select for available time slots")];
    }
    assert dates == seq(7, i requires 0 <= i < 7 => DateRow(today, i));
    sections := [Section("Available Dates", dates)];
  }

  /** A date row's id reads back, as the date step reads it, as its own day. */
  lemma DateRowIdReadsBack(today: nat, i: nat)
    ensures StartsWith(DateRow(today, i).id, "date_")
    ensures ParseDateText(RemoveFirst(DateRow(today, i).id, "date_")) == Day(today + i)
  {
    var id := DateRow(today, i).id;
    assert id[..5] == "date_";
    RemoveFirstPrefix(id, "date_");
    assert id[5..] == DateText(today + i);
    DateTextRoundTrip(today + i);
  }

  /** Titles: "Today (...)", "Tomorrow (...)", then the weekday's name. */
  lemma DateRowTitleStart(today: nat, i: nat)
    ensures i == 0 ==> StartsWith(DateRow(today, i).title, "Today (")
    ensures i == 1 ==> StartsWith(DateRow(today, i).title, "Tomorrow (")
    ensures i >= 2 ==> StartsWith(DateRow(today, i).title, WeekdayName(today + i))
  {
    var t := DateRow(today, i).title;
    if i == 0 {
      assert t[..7] == "Today (";
    } else if i == 1 {
      assert t[..10] == "Tomorrow (";
    } else {
      assert t[..|WeekdayName(today + i)|] == WeekdayName(today + i);
    }
  }

  /** Seven rows, for today and the six days after it, with distinct ids. */
  lemma DateOptionsSpec(today: nat)
    ensures var rows := DateOptions(today)[0].rows;
      && |DateOptions(today)| == 1 && |rows| == 7
      && (forall i :: 0 <= i < 7 ==> rows[i] == DateRow(today, i))
      && (forall i, j :: 0 <= i < j < 7 ==> rows[i].id != rows[j].id)
  {
    var rows := DateOptions(today)[0].rows;
    forall i, j | 0 <= i < j < 7 ensures rows[i].id != rows[j].id {
      DateRowIdReadsBack(today, i);
      DateRowIdReadsBack(today, j);
    }
  }
}
