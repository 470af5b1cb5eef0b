/** Character and string helpers: ASCII approximations of JavaScript's
    `toLowerCase`, `String.prototype.includes`, the regex classes `\d` and `\s`,
    and decimal rendering/parsing of natural numbers. */
module Text {

  /** The regex class `\d` (ASCII digits only, as in a JavaScript regex without the `u` flag). */
  predicate IsDigit(c: char) { '0' <= c <= '9' }

  /** The regex class `\s`, restricted to ASCII whitespace. */
  predicate IsSpace(c: char) { c == ' ' || c == '\t' || c == '\n' || c == '\r' || c == '\U{0B}' || c == '\U{0C}' }

  predicate AllDigits(s: string) { forall k :: 0 <= k < |s| ==> IsDigit(s[k]) }

  predicate AllSpaces(s: string) { forall k :: 0 <= k < |s| ==> IsSpace(s[k]) }

  /** `toLowerCase` on one character, ASCII letters only. */
  function LowerChar(c: char): (r: char)
    ensures 'A' <= c <= 'Z' ==> 'a' <= r <= 'z' && r as int == c as int + 32
    ensures !('A' <= c <= 'Z') ==> r == c
  {
    if 'A' <= c <= 'Z' then (c as int + 32) as char else c
  }

  /** `toLowerCase` on a string: maps every character, keeps the length. */
  function Lower(s: string): (r: string)
    ensures |r| == |s|
    ensures forall k :: 0 <= k < |s| ==> r[k] == LowerChar(s[k])
  {
    if s == [] then [] else [LowerChar(s[0])] + Lower(s[1..])
  }

  /** `needle` occurs in `hay` starting at position `at`. */
  predicate OccursAt(hay: string, needle: string, at: nat)
  {
    at + |needle| <= |hay| && hay[at..at + |needle|] == needle
  }

  /** `hay.includes(needle)`, computed by trying every start position from `from` on. */
  predicate IncludesFrom(hay: string, needle: string, from: nat)
    decreases |hay| - from
  {
    if from + |needle| > |hay| then false
    else OccursAt(hay, needle, from) || IncludesFrom(hay, needle, from + 1)
  }

  /** `hay.includes(needle)`. */
  predicate Includes(hay: string, needle: string)
  {
    IncludesFrom(hay, needle, 0)
  }

  /** The search from `from` succeeds exactly when some start at or after `from` matches. */
  lemma {:induction false} IncludesFromSpec(hay: string, needle: string, from: nat)
    ensures IncludesFrom(hay, needle, from) <==> exists at: nat :: from <= at && OccursAt(hay, needle, at)
    decreases |hay| - from
  {
    if from + |needle| > |hay| {
      forall at: nat | from <= at ensures !OccursAt(hay, needle, at) { }
    } else {
      IncludesFromSpec(hay, needle, from + 1);
      if !OccursAt(hay, needle, from) && !IncludesFrom(hay, needle, from + 1) {
        forall at: nat | from <= at ensures !OccursAt(hay, needle, at) {
          if at != from { assert from + 1 <= at; }
        }
      }
    }
  }

  /** `includes` means: the needle is a contiguous slice of the haystack. */
  lemma IncludesSpec(hay: string, needle: string)
    ensures Includes(hay, needle) <==> exists at: nat :: OccursAt(hay, needle, at)
  {
    IncludesFromSpec(hay, needle, 0);
  }

  /** Every string includes the empty string, and itself. */
  lemma IncludesTrivial(hay: string)
    ensures Includes(hay, "") && Includes(hay, hay)
  {
    IncludesSpec(hay, "");
    assert OccursAt(hay, "", 0);
    IncludesSpec(hay, hay);
    assert OccursAt(hay, hay, 0);
  }

  /** Value of one decimal digit. */
  function DigitValue(c: char): (r: nat)
    requires IsDigit(c)
    ensures r < 10
  {
    c as int - '0' as int
  }

  /** The digit character of a value below ten. */
  function DigitChar(d: nat): (c: char)
    requires d < 10
    ensures IsDigit(c) && DigitValue(c) == d
  {
    ('0' as int + d) as char
  }

  /** `parseInt(s, 10)` on a non-empty run of ASCII digits (exact, unbounded). */
  function DecimalValue(s: string): nat
    requires AllDigits(s)
  {
    if s == [] then 0 else 10 * DecimalValue(s[..|s| - 1]) + DigitValue(s[|s| - 1])
  }

  /** Decimal rendering of a natural number, as a JavaScript template literal prints it. */
  function Decimal(n: nat): (r: string)
    ensures |r| > 0 && AllDigits(r)
    ensures |r| > 1 ==> r[0] != '0'
  {
    if n < 10 then [DigitChar(n)] else Decimal(n / 10) + [DigitChar(n % 10)]
  }

  /** Rendering then parsing gives back the number. */
  lemma {:induction false} DecimalRoundTrip(n: nat)
    ensures DecimalValue(Decimal(n)) == n
  {
    if n >= 10 {
      DecimalRoundTrip(n / 10);
      var s := Decimal(n);
      assert s[..|s| - 1] == Decimal(n / 10);
    }
  }

  /** Number of occurrences of `c` in `s`. */
  function Count(s: string, c: char): (r: nat)
    ensures r <= |s|
  {
    if s == [] then 0 else (if s[0] == c then 1 else 0) + Count(s[1..], c)
  }

  /** No occurrence is counted exactly when the character is absent. */
  lemma {:induction false} CountZero(s: string, c: char)
    ensures Count(s, c) == 0 <==> c !in s
  {
    if s != [] {
      CountZero(s[1..], c);
      assert s == [s[0]] + s[1..];
    }
  }

  /** Counting distributes over concatenation. */
  lemma {:induction false} CountAppend(a: string, b: string, c: char)
    ensures Count(a + b, c) == Count(a, c) + Count(b, c)
  {
    if a == [] {
      assert a + b == b;
    } else {
      assert (a + b)[1..] == a[1..] + b;
      CountAppend(a[1..], b, c);
    }
  }
}
