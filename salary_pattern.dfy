/** The salary-range pattern of the list screen, `₹?(\d+)k?\s*-\s*₹?(\d+)k?`,
    as an explicit leftmost-match scanner over the free-text `salary_range`.

    At a fixed start position the pattern has exactly one way to match: each
    optional or repeated piece is greedy, and giving any of it back never helps,
    because the token that follows it (a digit, `k`, white space, `-`) cannot be
    the character it gave back. The second digit run is greedy too, which is what
    makes its capture maximal. `Shape` states a match declaratively, `ScanAt`
    computes it, and the two are proved to agree in both directions. */
module SalaryPattern {
  import opened Text
  import opened Results

  const Rupee: char := '₹'

  /** Where a match sits: it starts at `start`, the first capture is `s[lo1..hi1]`,
      the dash is at `dash`, the second capture is `s[lo2..hi2]`. */
  datatype Span = Span(start: nat, lo1: nat, hi1: nat, dash: nat, lo2: nat, hi2: nat)

  /** `s[lo..hi]` is a capture of `(\d+)` followed by a non-digit (or the end). */
  predicate MaximalDigits(s: string, lo: nat, hi: nat)
  {
    lo < hi <= |s| && AllDigits(s[lo..hi]) && (hi == |s| || !IsDigit(s[hi]))
  }

  /** `sp` is a match of the whole pattern in `s`, with the captures the greedy
      regex engine reports. */
  predicate Shape(s: string, sp: Span)
  {
    // `₹?`
    && (sp.lo1 == sp.start || (sp.lo1 == sp.start + 1 && sp.start < |s| && s[sp.start] == Rupee))
    // `(\d+)`
    && MaximalDigits(s, sp.lo1, sp.hi1)
    // `k?\s*-`
    && sp.hi1 <= sp.dash < |s|
    && (AllSpaces(s[sp.hi1..sp.dash])
        || (sp.hi1 < sp.dash && s[sp.hi1] == 'k' && AllSpaces(s[sp.hi1 + 1..sp.dash])))
    && s[sp.dash] == '-'
    // `\s*₹?`
    && sp.dash < sp.lo2 < sp.hi2 <= |s|
    && (AllSpaces(s[sp.dash + 1..sp.lo2])
        || (sp.dash + 1 < sp.lo2 && s[sp.lo2 - 1] == Rupee && AllSpaces(s[sp.dash + 1..sp.lo2 - 1])))
    // `(\d+)`, greedy; the trailing `k?` always matches and captures nothing
    && MaximalDigits(s, sp.lo2, sp.hi2)
  }

  /** Position after one optional `c` at `p`. */
  function SkipOne(s: string, p: nat, c: char): (q: nat)
    requires p <= |s|
    ensures q == p || (q == p + 1 && p < |s| && s[p] == c)
    ensures p < |s| && s[p] == c ==> q == p + 1
  {
    if p < |s| && s[p] == c then p + 1 else p
  }

  /** End of the longest run of digits starting at `p`. */
  function DigitsEnd(s: string, p: nat): (q: nat)
    requires p <= |s|
    ensures p <= q <= |s| && AllDigits(s[p..q])
    ensures q == |s| || !IsDigit(s[q])
    decreases |s| - p
  {
    if p < |s| && IsDigit(s[p]) then DigitsEnd(s, p + 1) else p
  }

  /** End of the longest run of white space starting at `p`. */
  function SpacesEnd(s: string, p: nat): (q: nat)
    requires p <= |s|
    ensures p <= q <= |s| && AllSpaces(s[p..q])
    ensures q == |s| || !IsSpace(s[q])
    decreases |s| - p
  {
    if p < |s| && IsSpace(s[p]) then SpacesEnd(s, p + 1) else p
  }

  /** The match that starts exactly at `i`, if there is one. */
  function ScanAt(s: string, i: nat): (r: Option<Span>)
    requires i <= |s|
    ensures r.Some? ==> r.value.start == i && Shape(s, r.value)
  {
    var lo1 := SkipOne(s, i, Rupee);
    var hi1 := DigitsEnd(s, lo1);
    if hi1 == lo1 then None
    else
      var dash := SpacesEnd(s, SkipOne(s, hi1, 'k'));
      if dash == |s| || s[dash] != '-' then None
      else
        var lo2 := SkipOne(s, SpacesEnd(s, dash + 1), Rupee);
        var hi2 := DigitsEnd(s, lo2);
        if hi2 == lo2 then None else Some(Span(i, lo1, hi1, dash, lo2, hi2))
  }

  lemma {:induction false} DigitsEndUnique(s: string, p: nat, q: nat)
    requires p <= q <= |s| && AllDigits(s[p..q]) && (q == |s| || !IsDigit(s[q]))
    ensures DigitsEnd(s, p) == q
    decreases q - p
  {
    if p < q {
      assert IsDigit(s[p..q][0]);
      assert s[p + 1..q] == s[p..q][1..];
      DigitsEndUnique(s, p + 1, q);
    }
  }

  lemma {:induction false} SpacesEndUnique(s: string, p: nat, q: nat)
    requires p <= q <= |s| && AllSpaces(s[p..q]) && (q == |s| || !IsSpace(s[q]))
    ensures SpacesEnd(s, p) == q
    decreases q - p
  {
    if p < q {
      assert IsSpace(s[p..q][0]);
      assert s[p + 1..q] == s[p..q][1..];
      SpacesEndUnique(s, p + 1, q);
    }
  }

  /** The scanner's first capture, given the declarative one. */
  lemma FirstCaptureFound(s: string, start: nat, lo1: nat, hi1: nat)
    requires lo1 == start || (lo1 == start + 1 && start < |s| && s[start] == Rupee)
    requires MaximalDigits(s, lo1, hi1)
    ensures SkipOne(s, start, Rupee) == lo1 && DigitsEnd(s, lo1) == hi1
  {
    assert IsDigit(s[lo1..hi1][0]);
    DigitsEndUnique(s, lo1, hi1);
  }

  /** The scanner's dash, given the declarative one. */
  lemma DashFound(s: string, hi1: nat, dash: nat)
    requires hi1 <= dash < |s| && s[dash] == '-'
    requires AllSpaces(s[hi1..dash]) || (hi1 < dash && s[hi1] == 'k' && AllSpaces(s[hi1 + 1..dash]))
    ensures SpacesEnd(s, SkipOne(s, hi1, 'k')) == dash
  {
    if AllSpaces(s[hi1..dash]) {
      if hi1 < dash { assert IsSpace(s[hi1..dash][0]); }
      SpacesEndUnique(s, hi1, dash);
    } else {
      SpacesEndUnique(s, hi1 + 1, dash);
    }
  }

  /** The scanner's second capture, given the declarative one. */
  lemma SecondCaptureFound(s: string, dash: nat, lo2: nat, hi2: nat)
    requires dash < lo2 < hi2 <= |s|
    requires AllSpaces(s[dash + 1..lo2]) || (dash + 1 < lo2 && s[lo2 - 1] == Rupee && AllSpaces(s[dash + 1..lo2 - 1]))
    requires MaximalDigits(s, lo2, hi2)
    ensures SkipOne(s, SpacesEnd(s, dash + 1), Rupee) == lo2 && DigitsEnd(s, lo2) == hi2
  {
    assert IsDigit(s[lo2..hi2][0]);
    if AllSpaces(s[dash + 1..lo2]) {
      SpacesEndUnique(s, dash + 1, lo2);
    } else {
      SpacesEndUnique(s, dash + 1, lo2 - 1);
    }
    DigitsEndUnique(s, lo2, hi2);
  }

  /** Every match the declarative description allows is the one the scanner finds. */
  lemma ScanAtComplete(s: string, sp: Span)
    requires Shape(s, sp)
    ensures ScanAt(s, sp.start) == Some(sp)
  {
    FirstCaptureFound(s, sp.start, sp.lo1, sp.hi1);
    DashFound(s, sp.hi1, sp.dash);
    SecondCaptureFound(s, sp.dash, sp.lo2, sp.hi2);
    ScanAtSteps(s, sp);
  }

  /** The scanner returns `sp` once each of its steps lands where `sp` says. */
  lemma ScanAtSteps(s: string, sp: Span)
    requires sp.start <= |s| && sp.lo1 < sp.hi1 && sp.dash < |s| && s[sp.dash] == '-' && sp.lo2 < sp.hi2
    requires SkipOne(s, sp.start, Rupee) == sp.lo1 && DigitsEnd(s, sp.lo1) == sp.hi1
    requires SpacesEnd(s, SkipOne(s, sp.hi1, 'k')) == sp.dash
    requires SkipOne(s, SpacesEnd(s, sp.dash + 1), Rupee) == sp.lo2 && DigitsEnd(s, sp.lo2) == sp.hi2
    ensures ScanAt(s, sp.start) == Some(sp)
  {
  }

  /** The leftmost match at or after `from` (a JavaScript regex without `g` or `y`
      tries every start position in turn). */
  function FirstMatch(s: string, from: nat): (r: Option<Span>)
    requires from <= |s|
    ensures r.Some? ==> from <= r.value.start <= |s| && ScanAt(s, r.value.start) == r
    ensures r.Some? ==> forall j :: from <= j < r.value.start ==> ScanAt(s, j).None?
    ensures r.None? ==> forall j :: from <= j <= |s| ==> ScanAt(s, j).None?
    decreases |s| - from
  {
    match ScanAt(s, from)
    case Some(sp) => Some(sp)
    case None => if from == |s| then None else FirstMatch(s, from + 1)
  }

  /** `salary_range.match(pattern)`: the leftmost match of the whole string. */
  function Match(s: string): (r: Option<Span>)
    ensures r.Some? ==> Shape(s, r.value)
  {
    FirstMatch(s, 0)
  }

  /** The match found is the leftmost one the pattern admits, and there is none
      exactly when the pattern admits none. */
  lemma MatchIsLeftmost(s: string, other: Span)
    requires Shape(s, other)
    ensures Match(s).Some? && Match(s).value.start <= other.start
  {
    ScanAtComplete(s, other);
  }

  /** The two captured digit runs, each read by `parseInt(…, 10)`. */
  function SalaryBounds(s: string): (r: Option<(nat, nat)>)
    ensures r.None? <==> forall sp :: !Shape(s, sp)
  {
    match Match(s)
    case None =>
      assert forall sp :: !Shape(s, sp) by {
        forall sp | Shape(s, sp) ensures false { MatchIsLeftmost(s, sp); }
      }
      None
    case Some(sp) => Some((DecimalValue(s[sp.lo1..sp.hi1]), DecimalValue(s[sp.lo2..sp.hi2])))
  }

  /** A text with no `-` (such as "Negotiable" or "") has no match. */
  lemma NoDashNoBounds(s: string)
    requires forall k :: 0 <= k < |s| ==> s[k] != '-'
    ensures SalaryBounds(s) == None
  {
  }

  /** The canonical display form the seed data uses, such as "₹50k - ₹80k". */
  function RangeText(lo: nat, hi: nat): string
  {
    [Rupee] + Decimal(lo) + "k - " + [Rupee] + Decimal(hi) + "k"
  }

  /** Reading the canonical form gives back both numbers. */
  lemma RangeTextRoundTrip(lo: nat, hi: nat)
    ensures SalaryBounds(RangeText(lo, hi)) == Some((lo, hi))
  {
    var a, b := Decimal(lo), Decimal(hi);
    var s := RangeText(lo, hi);
    var lo1 := 1;
    var hi1 := 1 + |a|;
    var dash := hi1 + 2;
    var lo2 := dash + 3;
    var hi2 := lo2 + |b|;
    assert s == [Rupee] + a + ['k', ' ', '-', ' ', Rupee] + b + ['k'];
    assert s[lo1..hi1] == a;
    assert s[lo2..hi2] == b;
    var sp := Span(0, lo1, hi1, dash, lo2, hi2);
    assert s[hi1 + 1..dash] == [' '];
    assert s[dash + 1..lo2 - 1] == [' '];
    assert Shape(s, sp);
    ScanAtComplete(s, sp);
    DecimalRoundTrip(lo);
    DecimalRoundTrip(hi);
  }

  /** "₹50k - ₹80k" is the canonical form of 50 to 80. */
  lemma CanonicalFifty()
    ensures RangeText(50, 80) == "₹50k - ₹80k"
  {
    assert Decimal(50) == "50";
    assert Decimal(80) == "80";
  }
}
