/**
 * Calendar days. A day is a count of days since 1 January 1970 (a Thursday);
 * its text stands for the "YYYY-MM-DD" part of Date.prototype.toISOString and
 * for the locale short date, and reading it back stands for `new Date(text)`.
 */
module Calendar {
  import opened Text

  /** A JavaScript Date reduced to its calendar day; InvalidDate is what
      `new Date(text)` gives for text it cannot read. */
  datatype Date = Day(n: nat) | InvalidDate

  const WeekdayNames: seq<string> :=
    ["Sunday", "Monday", "Tuesday", "Wednesday", "Thursday", "Friday", "Saturday"]

  /** Date.prototype.getDay: 0 is Sunday. Day 0 was a Thursday. */
  function Weekday(day: nat): (w: nat)
    ensures w < 7
  {
    (day + 4) % 7
  }

  function WeekdayName(day: nat): string
  {
    WeekdayNames[Weekday(day)]
  }

  /** The text of a day, used in date ids and in titles. */
  function DateText(day: nat): (t: string)
    ensures t != [] && forall i :: 0 <= i < |t| ==> IsDecimalDigit(t[i])
  {
    Decimal(day)
  }

  /** `new Date(text)`: a day for well-formed text, InvalidDate otherwise. */
  function ParseDateText(text: string): (d: Date)
    ensures d.InvalidDate? <==> text == [] || exists i :: 0 <= i < |text| && !IsDecimalDigit(text[i])
  {
    if text != [] && forall i :: 0 <= i < |text| ==> IsDecimalDigit(text[i])
    then Day(FromRadix(text, 10))
    else InvalidDate
  }

  /** Reading back the text of a day gives the day. */
  lemma DateTextRoundTrip(day: nat)
    ensures ParseDateText(DateText(day)) == Day(day)
  {
    RadixRoundTrip(day, 10);
  }

  /** Date.prototype.toLocaleDateString; an invalid date prints "Invalid Date". */
  function DateLabel(d: Date): string
  {
    match d
    case Day(n) => DateText(n)
    case InvalidDate => "Invalid Date"
  }
}
