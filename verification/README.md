# GlamStudio booking dialogue

A Dafny model of the booking core of GlamStudio, a WhatsApp bot through
which a salon's customers book appointments. A customer greets the bot, is
offered three menu buttons (choose a service, my reservations, loyalty
points), and then walks through a step machine kept in an in-memory session
store: pick a service, pick one of the next seven dates, pick a time range
(morning, afternoon, evening), pick a free 30-minute slot. The slot is
re-checked against the bookings collection, a `CONFIRMED` booking with a
`BMC-…` reference is inserted, a confirmation text is sent and the session
is cleared.

The model is split as the program is:

| file | module | models |
|---|---|---|
| `wrappers.dfy` | `Wrappers` | `Option`, `Result` and parameter defaults (`OrElse`) |
| `text.dfy` | `Text` | the JavaScript string operations the core relies on: `toString(radix)`, `parseInt`, `split`, `substring`, `startsWith`, `replace`, `trim`, ASCII case mapping |
| `lists.dfy` | `Lists` | rows and sections of WhatsApp list messages, `flatMap` and `find` over them |
| `calendar.dfy` | `Calendar` | calendar days as day numbers, their weekday, their text in a date id |
| `catalog.dfy` | `Catalog` | the services collection, the active filter and the grouping into list sections |
| `booking.dfy` | `BookingModel` | the `Booking` record, its defaults, the booking-reference encoder and the unique index |
| `session_record.dfy` | `SessionRecordModel` | the `Session` record with its defaults and 24-hour expiry |
| `session_store.dfy` | `SessionStore` | `SessionService`, a class over a `map` from phone number to session |
| `salon.dfy` | `Salon` | greeting words and the welcome and confirmation templates |
| `availability.dfy` | `Availability` | booked keys, time ranges, time slots and the date picker |
| `dialogue.dfy` | `Dialogue` | one incoming message, as the function `Handle` and as the class `Bot` that updates the store and the bookings in place |

Conventions of the model:

- The clock enters as the UTC hour and minute. The fractional "IST hour"
  `utcH + 5 + (utcM + 30) / 60` is kept exactly as integer minutes,
  `nowMin = 60 * utcH + utcM + 330`. `h <= currentHourIST` becomes
  `60 * h <= nowMin` and `Math.ceil` becomes `(nowMin + 59) / 60`. As in the
  code there is no wrap at midnight: from 18:30 UTC the IST time counts past
  24:00, and from 14:00 UTC on (19:30 IST) no slot is offered for today.
- A date is a day number (`Day(n)`) or `InvalidDate`. The text of a date in a
  `date_…` id is the decimal day number; whether a date is "today" is decided
  by comparing with a `today` input.
- `Date.now()`, `Math.random().toString(36)` and the message id the messaging
  API returns for the confirmation are fields of an `Env` input. Each request
  reads the clock once: the new booking's `createdAt` and the `updatedAt` set
  with the confirmation message id are the same `nowMs`, where the code reads
  the clock again after the insert and the messaging call.
- Booked keys are strings built exactly as the code builds them, from the
  stored slot title. So "9:30 AM" yields `9_00`, and "2:00 PM" yields `2_00`,
  while the slots test `h_00`/`h_30` with the 24-hour hour. The model keeps
  this: what it proves is that no offered slot has its key in the booked set
  (`Availability.TimeSlotsForRangeSpec`, `Dialogue.ListedSlotIsFree`), and
  `Dialogue.SlotBookedTwice` shows the double booking this allows.
- Where the code reads a property of `undefined` or `null`, the model returns
  `HandlerError` with the TypeError's text; a rejected insert returns the
  duplicate-key error.

## Model

| member | source | states |
|---|---|---|
| `Availability.LookupRange` | src/controllers/webhookController.js:74-75 | the key left after removing `range_` selects the time range with that key; every key other than morning, afternoon and evening gives none |
| `Availability.LookupRangeRoundTrip` | src/controllers/webhookController.js:66-74 | the id `range_<key>` of a listed range finds that range again |
| `Availability.IstMinuteOfHour` | src/controllers/webhookController.js:99 | `(utcMinute + 30) % 60` is the IST minute of the hour |
| `Availability.CeilHourIsNextHour` | src/controllers/webhookController.js:98 | for an hour not yet started, it is `ceil(currentHourIST)` exactly when it starts within the next hour |
| `Availability.BookedKeysSpec` | src/controllers/webhookController.js:23-46 | a key is booked iff some booking on the queried day, not cancelled, of any service, yields it as `parseInt(text before ':')` + `_` + (part after `_` or `00`) |
| `Availability.CheckAvailableSlots` | src/controllers/webhookController.js:19-49 | the loop over the day's bookings returns exactly the booked-key set |
| `Availability.HourSlotsSpec` | src/controllers/webhookController.js:92-112 | one hour offers exactly its eligible halves, `:00` before `:30` |
| `Availability.SlotsBeforeSpec` | src/controllers/webhookController.js:90-113 | the hours below a bound offer exactly the eligible slots below it |
| `Availability.SlotsBeforeAscending` | src/controllers/webhookController.js:90-113 | the hours below a bound offer slots below it, in ascending order |
| `Availability.OfferedSlotsSpec` | src/controllers/webhookController.js:89-113 | a slot is offered iff it is in the range, its key is not booked and, today, it has not started (in the next hour only `:30` while the IST minute is below 30); slots ascend |
| `Availability.GenerateTimeSlotsForRange` | src/controllers/webhookController.js:73-119 | the loop pushing slot rows returns the range's time-slot sections |
| `Availability.HourRows` | src/controllers/webhookController.js:90-111 | the rows one pass of the hour loop pushes are the rows of that hour's offered slots |
| `Availability.TimeSlotsForRangeSpec` | src/controllers/webhookController.js:74-118 | unknown range: no section; otherwise at most one section, titled with the range label, whose rows are the eligible slots in ascending order, and exactly one when some slot is eligible |
| `Availability.ListedRowIsEligible` | src/controllers/webhookController.js:100-112 | every listed row is the row `slot_h_mm` of an eligible slot |
| `Availability.EligibleSlotFound` | src/controllers/webhookController.js:100-112 | every eligible slot is listed, and looking up its id finds its own row |
| `Availability.NoPastSlotToday` | src/controllers/webhookController.js:92-104 | today no slot with `60h <= nowMin` is offered, and in the hour `ceil(currentHourIST)` only `:30` while the IST minute is below 30 |
| `Availability.NoSlotsLateToday` | src/controllers/webhookController.js:84-92 | from 14:00 UTC on (19:30 IST, when the 20:30 slot closes), today's slot list is empty for every range |
| `Availability.SlotTitleKey` | src/controllers/webhookController.js:43-44 | the key read back from a slot title is the 12-hour hour with `_00`, whichever half was booked |
| `Availability.NoonTitledZero` | src/controllers/webhookController.js:94-95 | hour 12 is titled `0:00 PM` and `0:30 PM` |
| `Availability.OnlyMorningFullHoursBlocked` | src/controllers/webhookController.js:41-46 | when all bookings carry slot titles, the only slot keys a booking blocks are morning `h_00` keys, and one of the two bookings of that hour is there |
| `Availability.TimeRangeOptionsSpec` | src/controllers/webhookController.js:51-71 | one section; not today: morning, afternoon, evening in order; today: a range is listed iff it ends after the current IST time, and the rows are a suffix of the three |
| `Availability.GenerateDateOptions` | src/controllers/webhookController.js:121-147 | the loop returns the 7-row date picker |
| `Availability.DateRowIdReadsBack` | src/controllers/webhookController.js:132 | the date in a picker row's `date_` id reads back as that day |
| `Availability.DateRowTitleStart` | src/controllers/webhookController.js:136-138 | row 0 is "Today (…)", row 1 "Tomorrow (…)", the others start with the weekday |
| `Availability.DateOptionsSpec` | src/controllers/webhookController.js:127-146 | exactly one section of exactly 7 rows, one per day from today, with distinct ids |
| `Calendar.ParseDateText` | src/controllers/webhookController.js:331 | the date in an id is invalid iff its text is empty or has a non-digit |
| `Calendar.DateTextRoundTrip` | src/controllers/webhookController.js:331 | the text of a day parses back to that day |
| `Lists.Flatten` | src/controllers/webhookController.js:373 | a row is in the result iff it is a row of some section; one section gives its rows |
| `Lists.FlattenAppend` | src/controllers/webhookController.js:373 | the rows keep the order of the sections: flattening a concatenation concatenates the flattenings |
| `Lists.FindRow` | src/controllers/webhookController.js:374 | a found row is listed with that id; nothing is found iff no row has the id |
| `Catalog.ActiveServices` | src/controllers/webhookController.js:203 | exactly the active services |
| `Catalog.FindActiveService` | src/controllers/webhookController.js:310-313 | a found service is active with that id; none is found iff no active service has it |
| `Catalog.CategoriesSpec` | src/controllers/webhookController.js:206-212 | the categories, in first-seen order, are distinct and are exactly those of the services |
| `Catalog.GroupByCategoryIsReference` | src/controllers/webhookController.js:206-212 | the reduce equals one group per category, in first-seen order, holding that category's services in order |
| `Catalog.ServiceRow` | src/controllers/webhookController.js:217-221 | the row id is the service id, the title its first 24 characters, the description its first 72 |
| `Catalog.ServiceSectionsSpec` | src/controllers/webhookController.js:215-222 | at most 10 sections, one per category with distinct titles, each holding the rows of that category's services |
| `Catalog.EveryServiceListed` | src/controllers/webhookController.js:203-222 | with at most 10 categories, every service's row appears in some section |
| `Text.RadixRoundTrip` | src/models/Booking.js:46 | the base-36 text of the timestamp reads back as the timestamp |
| `BookingModel.RandomTag` | src/models/Booking.js:47 | the tag has at most 5 characters, all upper-case base-36 digits |
| `BookingModel.BookingReferenceParts` | src/models/Booking.js:45-48 | the reference splits on `-` into exactly `BMC`, the lower-case base-36 timestamp that decodes to the clock value, and the tag |
| `BookingModel.ReferencesOfDistinctTimesDiffer` | src/models/Booking.js:46-48 | references made at different milliseconds differ |
| `BookingModel.BookingDefaults` | src/models/Booking.js:8-15 | left-out fields default to `CONFIRMED`, `PENDING`, a fresh reference, no loyalty points and the construction time |
| `BookingModel.BookingKeepsSuppliedFields` | src/models/Booking.js:17-27 | supplied fields are copied unchanged |
| `BookingModel.InsertBooking` | src/models/Booking.js:41 | the insert fails, with the duplicate-key error, iff the reference is taken, and otherwise appends the booking |
| `BookingModel.InsertKeepsReferencesUnique` | src/models/Booking.js:41 | a successful insert keeps references unique |
| `BookingModel.InsertAcceptsSameDateAndTime` | src/models/Booking.js:34-41 | two confirmed bookings for the same date and time are both accepted: no index covers them |
| `SessionRecordModel.SessionRecordDefaults` | src/models/Session.js:8-13 | step `initial`, no selections, expiry 24 hours after construction whatever `createdAt` says |
| `SessionRecordModel.SessionRecordKeepsSuppliedFields` | src/models/Session.js:15-23 | supplied fields are copied unchanged |
| `SessionRecordModel.DefaultExpiryWindow` | src/models/Session.js:13-33 | with the default `expiresAt` (line 13) and the TTL index on it (line 33), a default record is due for removal exactly after 24 hours |
| `SessionStore.NewSession` | src/services/sessionService.js:13-21 | a new session is at step `initial` with no selections |
| `SessionStore.ApplyUpdate` | src/services/sessionService.js:33 | the fields given in the update are overwritten, all others kept |
| `SessionStore.EmptyUpdateIsIdentity` | src/services/sessionService.js:33 | an empty update changes nothing |
| `SessionStore.CreatedSpec` | src/services/sessionService.js:12-24 | the phone maps to a new session, replacing any old one, and other phones keep theirs |
| `SessionStore.UpdatedSpec` | src/services/sessionService.js:27-37 | an absent phone fails with "Session not found"; otherwise only that phone's session is updated |
| `SessionStore.ClearedSpec` | src/services/sessionService.js:39-42 | the phone has no session afterwards, others are kept, clearing twice is clearing once |
| `SessionStore.SessionService.constructor` | src/services/sessionService.js:4-6 | the store starts empty |
| `SessionStore.SessionService.GetSession` | src/services/sessionService.js:8-10 | None iff the phone has no entry, otherwise the stored session |
| `SessionStore.SessionService.CreateSession` | src/services/sessionService.js:12-25 | returns the new session and the map becomes `Created` of the old one |
| `SessionStore.SessionService.UpdateSession` | src/services/sessionService.js:27-37 | fails and leaves the map alone on an absent phone; otherwise stores and returns the updated session |
| `SessionStore.SessionService.ClearSession` | src/services/sessionService.js:39-42 | the map becomes `Cleared` of the old one |
| `Salon.WelcomeEmbedsName` | src/constants/salon.js:29 | the welcome text is a fixed prefix, the name, a fixed suffix |
| `Salon.BookingConfirmedEmbedsFields` | src/constants/salon.js:34-35 | the confirmation embeds name, service, date and time in that order |
| `Salon.GreetingWordsUnpadded` | src/constants/salon.js:19-26 | the greeting words are non-empty and not padded with white space |
| `Salon.GreetingRecognised` | src/controllers/webhookController.js:448-451 | any capitalisation of a greeting word with white space around it is a greeting |
| `Salon.GreetingCheckAlwaysThrows` | src/controllers/webhookController.js:449 | the greeting check as written throws for every text |
| `Dialogue.UserName` | src/controllers/webhookController.js:168 | the profile name when non-empty, otherwise "there"; never empty |
| `Dialogue.RecheckKeyOfSlotId` | src/controllers/webhookController.js:378-381 | for a slot id the re-check key is that slot's key |
| `Dialogue.SlotBooking` | src/controllers/webhookController.js:402-408 | the new booking is `CONFIRMED`, pending, for the sender, the stored service and date, at the slot title, under a fresh reference |
| `Dialogue.WithConfirmationId` | src/controllers/webhookController.js:427-438 | a non-empty message id is stored with a new `updatedAt` and every other field kept; otherwise the booking is unchanged |
| `Dialogue.GreetingRestarts` | src/controllers/webhookController.js:448-466 | a greeting recreates the session at `initial` and sends the welcome with the three buttons |
| `Dialogue.ChooseServiceFromAnyStep` | src/controllers/webhookController.js:200-233 | `choose_service` from any step, or without a session, moves to `selecting_service`, keeps the selections and lists the active services |
| `Dialogue.MismatchedReplyIgnored` | src/controllers/webhookController.js:308-443 | a selection whose prefix does not fit the step changes nothing and sends nothing |
| `Dialogue.NoSlotsStrandsSession` | src/controllers/webhookController.js:345-361 | a range with no slots still moves the session to `selecting_time`, after which another range is ignored |
| `Dialogue.CommitSpec` | src/controllers/webhookController.js:402-441 | a free reference appends one confirmed booking, confirms and clears the session; a taken one fails and changes nothing |
| `Dialogue.ConfirmationOmitsReference` | src/controllers/webhookController.js:416-422 | the confirmation text does not depend on the booking reference |
| `Dialogue.OnSlotSelectedSpec` | src/controllers/webhookController.js:371-442 | bookings change only on a confirmation, by one booking at the listed slot's title, date and service, and the session is cleared; otherwise the session is unchanged; "slot taken" only for a booked key |
| `Dialogue.SlotBranch` | src/controllers/webhookController.js:371-374 | (helper) the `selecting_time` case of the switch: a slot id is handed to `OnSlotSelected` with the rows regenerated for the stored range and date |
| `Dialogue.OtherBranches` | src/controllers/webhookController.js:196-370 | every branch but the slot step keeps the bookings and a session, moves only one step forward, and fails only on a missing reply id |
| `Dialogue.OtherSelections` | src/controllers/webhookController.js:308-370 | a selection off the slot step never fails, keeps the bookings and a session, and moves only one step forward |
| `Dialogue.ListedSlotIsFree` | src/controllers/webhookController.js:372-381 | the re-check key of a listed slot is not booked in the collection the list came from |
| `Dialogue.SlotTakenNeverWithinOneRequest` | src/controllers/webhookController.js:376-389 | with no other request in between, the "just booked" answer never occurs |
| `Dialogue.BookingsChangeOnlyOnConfirmation` | src/controllers/webhookController.js:192-467 | any message changes the bookings only when it confirms, by appending one confirmed booking for the sender |
| `Dialogue.HandleKeepsSessionComplete` | src/controllers/webhookController.js:196-443 | a session keeps the selections its step needs; errors come only from a missing reply id or a taken reference |
| `Dialogue.HandleKeepsReferencesUnique` | src/controllers/webhookController.js:410 | the unique reference index is kept by every message |
| `Availability.SlotIdInjective` | src/controllers/webhookController.js:101-111 | distinct slots have distinct ids |
| `Dialogue.SlotStillListed` | src/controllers/webhookController.js:107-111 | a booked afternoon, evening or `:30` slot is still offered on another day than today |
| `Dialogue.SlotBookedTwice` | src/controllers/webhookController.js:371-441 | such a slot is booked a second time for the same date and time |
| `Dialogue.Bot.HandleIncomingMessage` | src/controllers/webhookController.js:149-467 | the reply, the bookings and the sender's entry in the session map are those `Handle` gives; other phones are untouched |
| `Dialogue.Bot.HandleInteractiveMessage` | src/controllers/webhookController.js:189-198 | a button or list reply is run on the sender's session, created first when missing, as `OnReply` gives |
| `Dialogue.Bot.HandleReply` | src/controllers/webhookController.js:200-444 | the switch on the reply id does what `OnReply` gives |
| `Dialogue.Bot.HandleSelection` | src/controllers/webhookController.js:307-443 | the switch's default branch does what `OnSelection` gives |
| `Dialogue.Bot.HandleSlotSelection` | src/controllers/webhookController.js:376-442 | the re-check, insert and session clear do what `OnSlotSelected` gives |

## Left out

- Transport: the WhatsApp Graph API calls, the HTTP response, `markMessageAsRead`, the webhook verification handshake (src/controllers/webhookController.js:480-492), routing, logging and configuration. Replies are the abstract `Reply` value.
- The early returns after "no slots" and "slot taken" (src/controllers/webhookController.js:360, 388) skip marking the message read and answering the HTTP request; without transport the model does not see this.
- A payload without a message or without a phone number id (src/controllers/webhookController.js:157-165): the model starts from a parsed `Event`.
- The customer upsert (src/controllers/webhookController.js:170-187) and the customer lookup at 399: the booking's `customerId` is the sender's phone number.
- The loyalty-points answer (src/controllers/webhookController.js:244-306), an aggregation pipeline and locale formatting, is the opaque `LoyaltyPointsNotice`; the reservations answer is `ReservationsNotice`.
- Locale date text (`toLocaleDateString`, `toISOString`, `new Date(string)`): the id carries the decimal day number, the confirmation carries `DateLabel`. The server-local "is today" test is a comparison with the `today` input.
- Floating point: the fractional IST hour is replaced by exact integer minutes.
- `parseInt` reads only a leading run of decimal digits (no sign, white space or hexadecimal prefix); the stored titles never need more.
- Case mapping covers ASCII letters only; trimming removes the full ECMAScript white-space and line-terminator set.
- `Object.entries` lists integer-like keys first; the grouping keeps first-seen order for every category, which agrees for non-numeric category names.
- `Catalog.GroupByCategory`: a service whose category names an `Object.prototype` member (`constructor`, `toString`, `__proto__`) makes the reduce find an inherited, non-array value and throw a `TypeError`, so the `choose_service` branch fails before it sends the list or updates the session; the model groups such a category like any other, so `Dialogue.ChooseServiceFromAnyStep`, `Catalog.ServiceSectionsSpec` and `Catalog.EveryServiceListed` describe for it a list the code never sends.
- The `TIME_RANGES` lookup by a key such as `constructor` (an inherited property) is not modelled; only the three own keys are found.
- Concurrency: requests are handled one at a time. The slot step takes the bookings it re-checks as a separate argument, but the race between two simultaneous bookings is not modelled.
- Sessions in `SessionService` never expire; the `Session` record with `expiresAt` is modelled as a record only, since the store does not use it.
- `Service` and `Customer` are used only as records; the seed script is not part of this model.
- `Lists.FindRow`: does not state that the first matching row is returned; slot ids are distinct (`Availability.SlotIdInjective`), so at most one row matches.
- Behaviour of the code worth noting: an interactive message with no session creates one (src/controllers/webhookController.js:196-198); at 10:10 IST only 11:30 is offered, not 10:30 or 11:00 (src/controllers/webhookController.js:92-104).
- `Catalog.ServiceRow`: lengths count Unicode scalar values, while JavaScript's `substring(0, 24)` and `substring(0, 72)` count UTF-16 code units; a title or description holding a character outside the Basic Multilingual Plane (an emoji) is cut at a different place, and JavaScript can split its surrogate pair.
- `SessionStore.SessionUpdate` carries only the four fields the dialogue ever updates (step, service, date, range); `updateSession` spreads an arbitrary object, but no call site passes another field.

## Findings

| source | as written | input that shows it | evidently intended | confidence | as-written member | corrected member |
|---|---|---|---|---|---|---|
| src/controllers/webhookController.js:449 | each greeting pattern is a plain string and the check calls its `test` method, which strings do not have, so a TypeError is thrown | any text message, e.g. "hi" | the lower-cased, trimmed text is one of the greeting words, and the welcome menu is sent | not executed | `Salon.GreetingCheckAlwaysThrows` | `Salon.GreetingRecognised` |
