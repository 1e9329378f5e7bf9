/**
 * The salon's fixed vocabulary (src/constants/salon.js): the greeting words
 * and the two message templates the booking dialogue sends.
 */
module Salon {
  import opened Wrappers
  import opened Text

  const GreetingPatterns: seq<string> := ["hi", "hey", "hello", "menu", "start", "help"]

  const WelcomePrefix: string := "Hi "
  const WelcomeSuffix: string := ", welcome to GlamStudio! What would you like to do today?"

  /** MESSAGES.WELCOME(name) */
  function Welcome(name: string): string
  {
    WelcomePrefix + name + WelcomeSuffix
  }

  /** The name can be read back from the welcome text: the fixed prefix and
      suffix surround it. */
  lemma WelcomeEmbedsName(name: string)
    ensures var t := Welcome(name);
      && |t| == |WelcomePrefix| + |name| + |WelcomeSuffix|
      && t[..|WelcomePrefix|] == WelcomePrefix
      && t[|WelcomePrefix|..|WelcomePrefix| + |name|] == name
      && t[|WelcomePrefix| + |name|..] == WelcomeSuffix
  {
  }

  const ConfirmedOpening: string := "\U{2705} Awesome "
  const ConfirmedBeforeService: string := "! Your appointment for "
  const ConfirmedBeforeDate: string := " is booked on "
  const ConfirmedBeforeTime: string := " at "
  const ConfirmedClosing: string := ".\nWe'll see you soon! \U{1F487}\U{200D}\U{2640}\U{FE0F}"

  /** MESSAGES.BOOKING_CONFIRMED(name, service, date, time): four parameters, so
      a fifth argument passed by a caller is dropped. */
  function BookingConfirmed(name: string, service: string, date: string, time: string): string
  {
    ConfirmedOpening + name + ConfirmedBeforeService + service + ConfirmedBeforeDate + date
      + ConfirmedBeforeTime + time + ConfirmedClosing
  }

  /** The confirmation embeds the name, the service, the date and the time, in
      that order, each right after its fixed lead-in. */
  lemma BookingConfirmedEmbedsFields(name: string, service: string, date: string, time: string)
    ensures var t := BookingConfirmed(name, service, date, time);
      var a := |ConfirmedOpening|;
      var b := a + |name| + |ConfirmedBeforeService|;
      var c := b + |service| + |ConfirmedBeforeDate|;
      var d := c + |date| + |ConfirmedBeforeTime|;
      && |t| == d + |time| + |ConfirmedClosing|
      && t[a..a + |name|] == name
      && t[b..b + |service|] == service
      && t[c..c + |date|] == date
      && t[d..d + |time|] == time
  {
  }

  // ---------------------------------------------------------------------
  // Greeting detection
  // ---------------------------------------------------------------------

  /** The intended greeting check: the lower-cased, trimmed text is one of the
      greeting words. */
  predicate IsGreeting(text: string)
  {
    Trim(Lower(text)) in GreetingPatterns
  }

  lemma LowerAppend(a: string, b: string)
    ensures Lower(a + b) == Lower(a) + Lower(b)
  {
    var l := Lower(a + b);
    var r := Lower(a) + Lower(b);
    forall i | 0 <= i < |l| ensures l[i] == r[i] {
      if i < |a| {
        assert (a + b)[i] == a[i];
      } else {
        assert (a + b)[i] == b[i - |a|];
      }
    }
  }

  lemma LowerKeepsSpace(s: string)
    requires AllSpace(s)
    ensures AllSpace(Lower(s))
  {
  }

  /** No greeting word is empty or starts or ends with white space. */
  lemma GreetingWordsUnpadded(w: string)
    requires w in GreetingPatterns
    ensures w != [] && !IsJsSpace(w[0]) && !IsJsSpace(w[|w| - 1])
  {
    assert w[0] in "hms";
    assert w[|w| - 1] in "iytuop";
  }

  /** Any capitalisation of a greeting word, with any white space around it,
      is a greeting. */
  lemma GreetingRecognised(before: string, word: string, after: string)
    requires AllSpace(before) && AllSpace(after)
    requires Lower(word) in GreetingPatterns
    ensures IsGreeting(before + word + after)
  {
    var w := Lower(word);
    LowerAppend(before + word, after);
    LowerAppend(before, word);
    LowerKeepsSpace(before);
    LowerKeepsSpace(after);
    GreetingWordsUnpadded(w);
    TrimPadded(Lower(before), w, Lower(after));
  }

  /** `pattern.test(text)` for an element of the list: the elements are strings,
      which have no `test` method, so the call throws a TypeError. */
  function StringPatternTest(pattern: string, text: string): Result<bool, string>
  {
    Err("TypeError: pattern.test is not a function")
  }

  /** Array.prototype.some with a predicate that may throw: stops at the first
      element that passes, and propagates the first error. */
  function SomeMatches(patterns: seq<string>, test: (string, string) -> Result<bool, string>, text: string): Result<bool, string>
    decreases |patterns|
  {
    if patterns == [] then Ok(false)
    else
      match test(patterns[0], text)
      case Err(e) => Err(e)
      case Ok(b) => if b then Ok(true) else SomeMatches(patterns[1..], test, text)
  }

  /** GREETING_PATTERNS.some(pattern => pattern.test(text)), as written. */
  function GreetingCheckAsWritten(text: string): Result<bool, string>
  {
    SomeMatches(GreetingPatterns, StringPatternTest, text)
  }

  /** As written, the greeting check throws on every text message, so no text
      (not even "hi") ever reaches the welcome menu. */
  lemma GreetingCheckAlwaysThrows(text: string)
    ensures GreetingCheckAsWritten(text).Err?
  {
  }
}
