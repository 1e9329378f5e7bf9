/**
 * The booking record (src/models/Booking.js): constructor defaults, the
 * booking-reference encoder and the one unique index of the collection.
 */
module BookingModel {
  import opened Wrappers
  import opened Text
  import opened Calendar

  datatype BookingStatus = Confirmed | Cancelled | Completed | Paid

  datatype PaymentStatus = PaymentPending | PaymentPaid

  /** A stored booking; `customerId` and `serviceId` stand for the `_id`s of the
      customer and service records. */
  datatype Booking = Booking(
    customerId: string,
    serviceId: nat,
    status: BookingStatus,
    paymentStatus: PaymentStatus,
    appointmentDate: Date,
    appointmentTime: string,
    bookingReference: string,
    loyaltyPointsAwarded: bool,
    createdAt: nat,
    updatedAt: nat,
    confirmationMessageId: Option<string>)

  /** The constructor's argument object; None is a field the caller left out. */
  datatype BookingFields = BookingFields(
    customerId: string,
    serviceId: nat,
    status: Option<BookingStatus>,
    paymentStatus: Option<PaymentStatus>,
    appointmentDate: Date,
    appointmentTime: string,
    bookingReference: Option<string>,
    loyaltyPointsAwarded: Option<bool>,
    createdAt: Option<nat>,
    updatedAt: Option<nat>)

  // ---------------------------------------------------------------------
  // Booking reference: "BMC-" + Date.now().toString(36) + "-" + tag
  // ---------------------------------------------------------------------

  /** What Math.random().toString(36) can print: "0", or "0." and base-36 digits. */
  predicate IsRandomText(r: string)
  {
    r == "0" || (|r| >= 3 && r[..2] == "0." && AllLowerDigits(r[2..]))
  }

  /** .substring(2, 7).toUpperCase(): at most five upper-case base-36 digits. */
  function RandomTag(randomText: string): (tag: string)
    ensures |tag| <= 5
    ensures IsRandomText(randomText) ==> forall i :: 0 <= i < |tag| ==> IsUpperDigit(tag[i])
  {
    var t := Substring(randomText, 2, 7);
    assert IsRandomText(randomText) ==> forall i :: 0 <= i < |t| ==> IsLowerDigit(t[i]) by {
      if IsRandomText(randomText) && randomText != "0" {
        forall i | 0 <= i < |t| ensures IsLowerDigit(t[i]) {
          assert t[i] == randomText[2..][i];
        }
      }
    }
    Upper(t)
  }

  /** generateBookingReference, with the clock and the random value as inputs. */
  function GenerateBookingReference(nowMs: nat, randomText: string): string
  {
    "BMC-" + ToRadix(nowMs, 36) + "-" + RandomTag(randomText)
  }

  /** The reference is "BMC", the timestamp text and the tag, joined by "-";
      neither of the last two holds a "-". */
  lemma ReferenceShape(nowMs: nat, randomText: string)
    requires IsRandomText(randomText)
    ensures var ts := ToRadix(nowMs, 36);
      var tag := RandomTag(randomText);
      && GenerateBookingReference(nowMs, randomText) == "BMC" + ['-'] + ts + ['-'] + tag
      && '-' !in ts && '-' !in tag
  {
    var ts := ToRadix(nowMs, 36);
    var tag := RandomTag(randomText);
    assert '-' !in ts by {
      forall i | 0 <= i < |ts| ensures ts[i] != '-' { assert IsLowerDigit(ts[i]); }
    }
    assert '-' !in tag by {
      forall i | 0 <= i < |tag| ensures tag[i] != '-' { assert IsUpperDigit(tag[i]); }
    }
    assert "BMC-" == "BMC" + ['-'];
  }

  /** The reference has exactly three "-"-separated parts: "BMC", the timestamp in
      lower-case base 36, which reads back as the timestamp, and a tag of at most
      five upper-case base-36 digits. */
  lemma BookingReferenceParts(nowMs: nat, randomText: string)
    requires IsRandomText(randomText)
    ensures var parts := Split(GenerateBookingReference(nowMs, randomText), '-');
      && |parts| == 3
      && parts[0] == "BMC"
      && AllLowerDigits(parts[1]) && FromRadix(parts[1], 36) == nowMs
      && |parts[2]| <= 5
      && forall i :: 0 <= i < |parts[2]| ==> IsUpperDigit(parts[2][i])
  {
    var ts := ToRadix(nowMs, 36);
    var tag := RandomTag(randomText);
    ReferenceShape(nowMs, randomText);
    SplitThree("BMC", ts, tag, '-');
    RadixRoundTrip(nowMs, 36);
  }

  /** Two references made at different milliseconds differ, whatever the tags. */
  lemma ReferencesOfDistinctTimesDiffer(t1: nat, r1: string, t2: nat, r2: string)
    requires IsRandomText(r1) && IsRandomText(r2)
    requires t1 != t2
    ensures GenerateBookingReference(t1, r1) != GenerateBookingReference(t2, r2)
  {
    BookingReferenceParts(t1, r1);
    BookingReferenceParts(t2, r2);
  }

  // ---------------------------------------------------------------------
  // Constructor
  // ---------------------------------------------------------------------

  /** new Booking(fields), reading the clock (nowMs) and the random source. */
  function NewBooking(f: BookingFields, nowMs: nat, randomText: string): Booking
  {
    Booking(
      f.customerId,
      f.serviceId,
      OrElse(f.status, Confirmed),
      OrElse(f.paymentStatus, PaymentPending),
      f.appointmentDate,
      f.appointmentTime,
      OrElse(f.bookingReference, GenerateBookingReference(nowMs, randomText)),
      OrElse(f.loyaltyPointsAwarded, false),
      OrElse(f.createdAt, nowMs),
      OrElse(f.updatedAt, nowMs),
      None)
  }

  /** Fields left out get the defaults: CONFIRMED, PENDING, a fresh reference,
      no loyalty points awarded, and the current time. */
  lemma BookingDefaults(f: BookingFields, nowMs: nat, randomText: string)
    requires f.status.None? && f.paymentStatus.None? && f.bookingReference.None?
    requires f.loyaltyPointsAwarded.None? && f.createdAt.None? && f.updatedAt.None?
    ensures var b := NewBooking(f, nowMs, randomText);
      && b.status == Confirmed
      && b.paymentStatus == PaymentPending
      && b.bookingReference == GenerateBookingReference(nowMs, randomText)
      && !b.loyaltyPointsAwarded
      && b.createdAt == nowMs && b.updatedAt == nowMs
      && b.confirmationMessageId.None?
  {
  }

  /** Every supplied field is copied unchanged. */
  lemma BookingKeepsSuppliedFields(f: BookingFields, nowMs: nat, randomText: string)
    ensures var b := NewBooking(f, nowMs, randomText);
      && b.customerId == f.customerId && b.serviceId == f.serviceId
      && b.appointmentDate == f.appointmentDate && b.appointmentTime == f.appointmentTime
      && (f.status.Some? ==> b.status == f.status.value)
      && (f.paymentStatus.Some? ==> b.paymentStatus == f.paymentStatus.value)
      && (f.bookingReference.Some? ==> b.bookingReference == f.bookingReference.value)
      && (f.loyaltyPointsAwarded.Some? ==> b.loyaltyPointsAwarded == f.loyaltyPointsAwarded.value)
      && (f.createdAt.Some? ==> b.createdAt == f.createdAt.value)
      && (f.updatedAt.Some? ==> b.updatedAt == f.updatedAt.value)
  {
  }

  // ---------------------------------------------------------------------
  // The bookings collection and its indexes
  // ---------------------------------------------------------------------

  /** The collection's only unique index is on bookingReference. */
  ghost predicate ReferencesUnique(bookings: seq<Booking>)
  {
    forall i, j :: 0 <= i < j < |bookings| ==>
      bookings[i].bookingReference != bookings[j].bookingReference
  }

  predicate HasReference(bookings: seq<Booking>, reference: string)
  {
    exists i :: 0 <= i < |bookings| && bookings[i].bookingReference == reference
  }

  const DuplicateKeyError: string := "E11000 duplicate key error"

  /** insertOne: fails with a duplicate-key error when the reference is taken,
      otherwise appends the booking. */
  function InsertBooking(bookings: seq<Booking>, b: Booking): (r: Result<seq<Booking>, string>)
    ensures r.Ok? <==> !HasReference(bookings, b.bookingReference)
    ensures r.Ok? ==> r.value == bookings + [b]
    ensures r.Err? ==> r.error == DuplicateKeyError
  {
    if HasReference(bookings, b.bookingReference) then Err(DuplicateKeyError)
    else Ok(bookings + [b])
  }

  /** Inserting keeps references unique. */
  lemma InsertKeepsReferencesUnique(bookings: seq<Booking>, b: Booking)
    requires ReferencesUnique(bookings)
    requires InsertBooking(bookings, b).Ok?
    ensures ReferencesUnique(InsertBooking(bookings, b).value)
  {
    var r := InsertBooking(bookings, b).value;
    forall i, j | 0 <= i < j < |r| ensures r[i].bookingReference != r[j].bookingReference {
      if j == |bookings| {
        assert r[i] == bookings[i];
      }
    }
  }

  /** No index covers (appointmentDate, appointmentTime): a second booking for a
      taken date and time is accepted as long as its reference is new. */
  lemma InsertAcceptsSameDateAndTime(b1: Booking, b2: Booking)
    requires b1.appointmentDate == b2.appointmentDate && b1.appointmentTime == b2.appointmentTime
    requires b1.status == Confirmed && b2.status == Confirmed
    requires b1.bookingReference != b2.bookingReference
    ensures InsertBooking([b1], b2) == Ok([b1, b2])
  {
    forall i | 0 <= i < |[b1]| ensures [b1][i].bookingReference != b2.bookingReference {
      assert [b1][i] == b1;
    }
    assert [b1] + [b2] == [b1, b2];
  }
}
