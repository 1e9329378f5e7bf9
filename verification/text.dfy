/**
 * The few JavaScript string operations the booking dialogue relies on:
 * Number.prototype.toString(radix), parseInt, String.prototype.split,
 * substring, trim, toLowerCase/toUpperCase, startsWith and replace.
 */
module Text {
  import opened Wrappers

  // ---------------------------------------------------------------------
  // Digits in radix up to 36 (lower case, as toString(36) prints them)
  // ---------------------------------------------------------------------

  predicate IsDecimalDigit(c: char) { '0' <= c <= '9' }

  /** A digit as Number.prototype.toString(36) prints it. */
  predicate IsLowerDigit(c: char) { '0' <= c <= '9' || 'a' <= c <= 'z' }

  /** A digit after String.prototype.toUpperCase. */
  predicate IsUpperDigit(c: char) { '0' <= c <= '9' || 'A' <= c <= 'Z' }

  predicate AllLowerDigits(s: string) { forall i :: 0 <= i < |s| ==> IsLowerDigit(s[i]) }

  function DigitChar(d: nat): (c: char)
    requires d < 36
    ensures IsLowerDigit(c)
    ensures d < 10 <==> IsDecimalDigit(c)
  {
    if d < 10 then ('0' as int + d) as char else ('a' as int + (d - 10)) as char
  }

  function DigitValue(c: char): (d: nat)
    requires IsLowerDigit(c)
    ensures d < 36 && DigitChar(d) == c
    ensures d < 10 <==> IsDecimalDigit(c)
  {
    if c <= '9' then c as int - '0' as int else c as int - 'a' as int + 10
  }

  /** n.toString(base) for a non-negative integer n: most significant digit first, no leading zero. */
  function ToRadix(n: nat, base: nat): (s: string)
    requires 2 <= base <= 36
    ensures |s| >= 1 && AllLowerDigits(s)
    ensures forall i :: 0 <= i < |s| ==> DigitValue(s[i]) < base
    decreases n
  {
    if n < base then [DigitChar(n)]
    else
      DivMod(n, base);
      ToRadix(n / base, base) + [DigitChar(n % base)]
  }

  /** Euclidean division by a base, spelled out for the solver. */
  lemma DivMod(n: nat, base: nat)
    requires 2 <= base
    ensures n == (n / base) * base + n % base
    ensures 0 <= n % base < base
    ensures n >= base ==> 0 < n / base < n
  {
  }

  /** The value of a digit string read in the given base. */
  function FromRadix(s: string, base: nat): nat
    requires 2 <= base <= 36
    requires AllLowerDigits(s)
    decreases |s|
  {
    if s == [] then 0 else FromRadix(s[..|s| - 1], base) * base + DigitValue(s[|s| - 1])
  }

  /** Reading back what ToRadix printed gives the number again. */
  lemma {:induction false} RadixRoundTrip(n: nat, base: nat)
    requires 2 <= base <= 36
    ensures FromRadix(ToRadix(n, base), base) == n
  {
    var s := ToRadix(n, base);
    if n >= base {
      DivMod(n, base);
      RadixRoundTrip(n / base, base);
      assert s[..|s| - 1] == ToRadix(n / base, base);
    }
  }

  /** Printing in a fixed base is injective. */
  lemma RadixInjective(m: nat, n: nat, base: nat)
    requires 2 <= base <= 36
    requires ToRadix(m, base) == ToRadix(n, base)
    ensures m == n
  {
    RadixRoundTrip(m, base);
    RadixRoundTrip(n, base);
  }

  /** The decimal text of a non-negative integer, as a template string prints it. */
  function Decimal(n: nat): (s: string)
    ensures |s| >= 1 && forall i :: 0 <= i < |s| ==> IsDecimalDigit(s[i])
  {
    ToRadix(n, 10)
  }

  lemma DecimalInjective(m: nat, n: nat)
    requires Decimal(m) == Decimal(n)
    ensures m == n
  {
    RadixInjective(m, n, 10);
  }

  // ---------------------------------------------------------------------
  // parseInt
  // ---------------------------------------------------------------------

  /** The longest prefix of s made of decimal digits. */
  function LeadingDigits(s: string): (p: string)
    ensures |p| <= |s| && p == s[..|p|]
    ensures forall i :: 0 <= i < |p| ==> IsDecimalDigit(p[i])
    ensures |p| < |s| ==> !IsDecimalDigit(s[|p|])
    decreases |s|
  {
    if s != [] && IsDecimalDigit(s[0]) then [s[0]] + LeadingDigits(s[1..]) else []
  }

  /** parseInt(s, 10) on a non-negative literal: None stands for NaN. */
  function ParseInt(s: string): Option<nat>
  {
    var p := LeadingDigits(s);
    if p == [] then None else Some(FromRadix(p, 10))
  }

  /** The template-string text of parseInt's result. */
  function IntText(v: Option<nat>): string
  {
    match v
    case Some(n) => Decimal(n)
    case None => "NaN"
  }

  /** parseInt reads back a printed number that is followed by a non-digit (or nothing). */
  lemma ParseIntDecimal(n: nat, rest: string)
    requires rest == [] || !IsDecimalDigit(rest[0])
    ensures ParseInt(Decimal(n) + rest) == Some(n)
  {
    var d := Decimal(n);
    LeadingDigitsOfDigits(d, rest);
    RadixRoundTrip(n, 10);
  }

  lemma {:induction false} LeadingDigitsOfDigits(d: string, rest: string)
    requires forall i :: 0 <= i < |d| ==> IsDecimalDigit(d[i])
    requires rest == [] || !IsDecimalDigit(rest[0])
    ensures LeadingDigits(d + rest) == d
    decreases |d|
  {
    if d != [] {
      LeadingDigitsOfDigits(d[1..], rest);
      assert (d + rest)[1..] == d[1..] + rest;
    } else {
      assert d + rest == rest;
    }
  }

  // ---------------------------------------------------------------------
  // split and join
  // ---------------------------------------------------------------------

  /** String.prototype.split with a one-character separator. */
  function Split(s: string, sep: char): (parts: seq<string>)
    ensures |parts| >= 1
    decreases |s|
  {
    if s == [] then [""]
    else
      var rest := Split(s[1..], sep);
      if s[0] == sep then [""] + rest else [[s[0]] + rest[0]] + rest[1..]
  }

  /** No part holds the separator. */
  lemma {:induction false} SplitPartsFree(s: string, sep: char)
    ensures forall i :: 0 <= i < |Split(s, sep)| ==> sep !in Split(s, sep)[i]
    decreases |s|
  {
    if s != [] {
      SplitPartsFree(s[1..], sep);
    }
  }

  /** Array.prototype.join with a one-character separator. */
  function Join(parts: seq<string>, sep: char): string
    requires |parts| >= 1
    decreases |parts|
  {
    if |parts| == 1 then parts[0] else parts[0] + [sep] + Join(parts[1..], sep)
  }

  /** Splitting and joining again gives back the string. */
  lemma {:induction false} JoinSplit(s: string, sep: char)
    ensures Join(Split(s, sep), sep) == s
    decreases |s|
  {
    if s != [] {
      var rest := Split(s[1..], sep);
      JoinSplit(s[1..], sep);
      if s[0] == sep {
        assert Split(s, sep)[1..] == rest;
      } else {
        var parts := Split(s, sep);
        assert parts[1..] == rest[1..];
        if |rest| == 1 {
          assert parts == [[s[0]] + rest[0]];
        } else {
          assert Join(rest, sep) == rest[0] + [sep] + Join(rest[1..], sep);
        }
      }
    }
  }

  /** A string without the separator splits into itself. */
  lemma {:induction false} SplitNoSeparator(s: string, sep: char)
    requires sep !in s
    ensures Split(s, sep) == [s]
    decreases |s|
  {
    if s != [] {
      SplitNoSeparator(s[1..], sep);
      assert [s[0]] + s[1..] == s;
    }
  }

  /** The text before the first separator is the first part. */
  lemma {:induction false} SplitAtFirst(a: string, sep: char, b: string)
    requires sep !in a
    ensures Split(a + [sep] + b, sep) == [a] + Split(b, sep)
    decreases |a|
  {
    if a == [] {
      var t := a + [sep] + b;
      assert t[0] == sep && t[1..] == b;
    } else {
      SplitAtFirst(a[1..], sep, b);
      var t := a + [sep] + b;
      assert t[0] == a[0] && t[1..] == a[1..] + [sep] + b;
      assert [a[0]] + a[1..] == a;
    }
  }

  /** Splitting "a" + sep + "b" + sep + "c" when no piece holds the separator. */
  lemma SplitThree(a: string, b: string, c: string, sep: char)
    requires sep !in a && sep !in b && sep !in c
    ensures Split(a + [sep] + b + [sep] + c, sep) == [a, b, c]
  {
    SplitAtFirst(a, sep, b + [sep] + c);
    SplitAtFirst(b, sep, c);
    SplitNoSeparator(c, sep);
    assert a + [sep] + b + [sep] + c == a + [sep] + (b + [sep] + c);
  }

  // ---------------------------------------------------------------------
  // substring, startsWith, replace
  // ---------------------------------------------------------------------

  function Min(a: nat, b: nat): nat { if a <= b then a else b }

  /** String.prototype.substring(start, end) for non-negative arguments: both are
      clamped to the length and swapped when start > end. */
  function Substring(s: string, start: nat, end: nat): (r: string)
    ensures |r| <= |s|
    ensures start <= end ==> |r| <= end - start
    ensures start <= end <= |s| ==> r == s[start..end]
    ensures start == 0 ==> r == s[..|r|]
  {
    var a := Min(start, |s|);
    var b := Min(end, |s|);
    if a <= b then s[a..b] else s[b..a]
  }

  predicate StartsWith(s: string, prefix: string)
  {
    |prefix| <= |s| && s[..|prefix|] == prefix
  }

  /** The index of the first occurrence of pat in s. */
  function IndexOf(s: string, pat: string): (r: Option<nat>)
    ensures r.Some? ==> r.value + |pat| <= |s| && s[r.value..r.value + |pat|] == pat
    decreases |s|
  {
    if StartsWith(s, pat) then Some(0)
    else if s == [] then None
    else
      match IndexOf(s[1..], pat)
      case None => None
      case Some(k) => Some(k + 1)
  }

  /** String.prototype.replace(pat, "") with a string pattern: drops the first occurrence. */
  function RemoveFirst(s: string, pat: string): string
  {
    match IndexOf(s, pat)
    case None => s
    case Some(i) => s[..i] + s[i + |pat|..]
  }

  /** When s starts with the pattern, replace drops exactly that prefix. */
  lemma RemoveFirstPrefix(s: string, pat: string)
    requires StartsWith(s, pat)
    ensures RemoveFirst(s, pat) == s[|pat|..]
  {
    assert IndexOf(s, pat) == Some(0);
  }

  // ---------------------------------------------------------------------
  // Case mapping and trimming
  // ---------------------------------------------------------------------

  function LowerChar(c: char): char
  {
    if 'A' <= c <= 'Z' then (c as int - 'A' as int + 'a' as int) as char else c
  }

  function UpperChar(c: char): char
  {
    if 'a' <= c <= 'z' then (c as int - 'a' as int + 'A' as int) as char else c
  }

  /** String.prototype.toLowerCase on ASCII letters. */
  function Lower(s: string): (r: string)
    ensures |r| == |s| && forall i :: 0 <= i < |s| ==> r[i] == LowerChar(s[i])
    decreases |s|
  {
    if s == [] then [] else [LowerChar(s[0])] + Lower(s[1..])
  }

  /** String.prototype.toUpperCase on ASCII letters. */
  function Upper(s: string): (r: string)
    ensures |r| == |s| && forall i :: 0 <= i < |s| ==> r[i] == UpperChar(s[i])
    decreases |s|
  {
    if s == [] then [] else [UpperChar(s[0])] + Upper(s[1..])
  }

  /** The characters String.prototype.trim removes: WhiteSpace and LineTerminator
      of ECMA-262 (tab, vertical tab, form feed, space, no-break space, the
      byte-order mark, the Zs space separators, LF, CR, LS and PS). */
  predicate IsJsSpace(c: char)
  {
    var u := c as int;
    u == 0x09 || u == 0x0A || u == 0x0B || u == 0x0C || u == 0x0D || u == 0x20 ||
    u == 0xA0 || u == 0x1680 || (0x2000 <= u <= 0x200A) || u == 0x2028 || u == 0x2029 ||
    u == 0x202F || u == 0x205F || u == 0x3000 || u == 0xFEFF
  }

  function TrimStart(s: string): (r: string)
    ensures |r| <= |s| && r == s[|s| - |r|..]
    ensures r == [] || !IsJsSpace(r[0])
    ensures forall i :: 0 <= i < |s| - |r| ==> IsJsSpace(s[i])
    decreases |s|
  {
    if s != [] && IsJsSpace(s[0]) then TrimStart(s[1..]) else s
  }

  function TrimEnd(s: string): (r: string)
    ensures |r| <= |s| && r == s[..|r|]
    ensures r == [] || !IsJsSpace(r[|r| - 1])
    ensures forall i :: |r| <= i < |s| ==> IsJsSpace(s[i])
    decreases |s|
  {
    if s != [] && IsJsSpace(s[|s| - 1]) then TrimEnd(s[..|s| - 1]) else s
  }

  /** String.prototype.trim. */
  function Trim(s: string): string
  {
    TrimEnd(TrimStart(s))
  }

  predicate AllSpace(s: string) { forall i :: 0 <= i < |s| ==> IsJsSpace(s[i]) }

  lemma {:induction false} TrimStartPadded(before: string, rest: string)
    requires AllSpace(before)
    requires rest == [] || !IsJsSpace(rest[0])
    ensures TrimStart(before + rest) == rest
    decreases |before|
  {
    if before == [] {
      assert before + rest == rest;
    } else {
      assert (before + rest)[1..] == before[1..] + rest;
      TrimStartPadded(before[1..], rest);
    }
  }

  lemma {:induction false} TrimEndPadded(rest: string, after: string)
    requires AllSpace(after)
    requires rest == [] || !IsJsSpace(rest[|rest| - 1])
    ensures TrimEnd(rest + after) == rest
    decreases |after|
  {
    if after == [] {
      assert rest + after == rest;
    } else {
      var s := rest + after;
      assert s[..|s| - 1] == rest + after[..|after| - 1];
      TrimEndPadded(rest, after[..|after| - 1]);
    }
  }

  /** Trimming removes exactly the surrounding white space of a word that neither
      starts nor ends with white space. */
  lemma TrimPadded(before: string, word: string, after: string)
    requires AllSpace(before) && AllSpace(after)
    requires word != [] && !IsJsSpace(word[0]) && !IsJsSpace(word[|word| - 1])
    ensures Trim(before + word + after) == word
  {
    assert before + word + after == before + (word + after);
    TrimStartPadded(before, word + after);
    TrimEndPadded(word, after);
  }
}
