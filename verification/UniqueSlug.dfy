/** Choosing an unused slug: the base, then the base cut to make room for "-2", "-3", ... */
module UniqueSlug {
  import opened Basics

  const DIGITS := "0123456789"
  const MAX_SLUG := 180
  const MAX_BASE := 160

  /** `str(n)`. */
  function Decimal(n: nat): (s: string)
    ensures |s| >= 1
  {
    (if n < 10 then "" else Decimal(n / 10)) + [DIGITS[n % 10]]
  }

  /** `base[:n]`, where a negative `n` counts from the end. */
  function Prefix(base: string, n: int): string {
    if n >= 0 then Take(base, n) else Take(base, Max(0, |base| + n))
  }

  function Suffix(counter: nat): string { "-" + Decimal(counter) }

  /** The candidate tried after `tries` slugs were found taken. */
  function Candidate(base: string, tries: nat): string {
    if tries == 0 then base
    else Prefix(base, MAX_SLUG - |Suffix(tries + 1)|) + Suffix(tries + 1)
  }

  function ValueOf(digits: string): int {
    if digits == "" then 0 else 10 * ValueOf(digits[..|digits| - 1]) + (digits[|digits| - 1] as int - '0' as int)
  }

  lemma DigitMeans(d: nat)
    requires d < 10
    ensures DIGITS[d] as int == '0' as int + d
  {
    assert DIGITS[0] == '0' && DIGITS[1] == '1' && DIGITS[2] == '2' && DIGITS[3] == '3' && DIGITS[4] == '4';
    assert DIGITS[5] == '5' && DIGITS[6] == '6' && DIGITS[7] == '7' && DIGITS[8] == '8' && DIGITS[9] == '9';
  }

  /** `str` writes the number it is given. */
  lemma {:induction false} DecimalMeans(n: nat)
    ensures ValueOf(Decimal(n)) == n
  {
    var digits := Decimal(n);
    DigitMeans(n % 10);
    assert digits[|digits| - 1] == DIGITS[n % 10];
    if n >= 10 {
      DecimalMeans(n / 10);
      assert digits[..|digits| - 1] == Decimal(n / 10);
    } else {
      assert digits[..|digits| - 1] == "";
    }
  }

  // ----- candidates are pairwise different -----

  lemma {:induction false} DecimalHasNoDash(n: nat)
    ensures '-' !in Decimal(n)
  {
    if n >= 10 { DecimalHasNoDash(n / 10); }
  }

  lemma {:induction false} DecimalInjective(m: nat, n: nat)
    requires Decimal(m) == Decimal(n)
    ensures m == n
    decreases m
  {
    DecimalEnd(m);
    DecimalEnd(n);
    DigitsDiffer(m % 10, n % 10);
    if m >= 10 && n >= 10 { DecimalInjective(m / 10, n / 10); }
  }

  lemma DecimalEnd(n: nat)
    ensures var d := Decimal(n);
      d != "" && d[|d| - 1] == DIGITS[n % 10] && d[..|d| - 1] == (if n < 10 then "" else Decimal(n / 10))
      && (n >= 10 ==> Decimal(n / 10) != "")
  {
  }

  lemma DigitsDiffer(i: nat, j: nat)
    requires i < 10 && j < 10 && DIGITS[i] == DIGITS[j]
    ensures i == j
  {
  }

  /** Text after the last dash determines the number, however the base was cut. */
  /** What follows the last dash is fixed. */
  lemma DashSplits(x: string, a: string, y: string, b: string)
    requires '-' !in a && '-' !in b && x + ("-" + a) == y + ("-" + b)
    ensures a == b
  {
    var s := x + ("-" + a);
    assert s[|s| - |a|..] == a && s[|s| - |b|..] == b;
    assert s[|s| - |a| - 1] == '-' && s[|s| - |b| - 1] == '-';
    assert forall k :: |s| - |a| <= k < |s| ==> s[k] in a;
    assert forall k :: |s| - |b| <= k < |s| ==> s[k] in b;
  }

  lemma SuffixesDiffer(x: string, m: nat, y: string, n: nat)
    requires x + Suffix(m) == y + Suffix(n)
    ensures m == n
  {
    DecimalHasNoDash(m);
    DecimalHasNoDash(n);
    DashSplits(x, Decimal(m), y, Decimal(n));
    DecimalInjective(m, n);
  }

  lemma NumberedIsLonger(base: string, tries: nat)
    requires |base| <= MAX_BASE && tries > 0
    ensures |Candidate(base, tries)| > |base|
  {
  }

  lemma CandidatesDiffer(base: string, i: nat, j: nat)
    requires |base| <= MAX_BASE && i < j
    ensures Candidate(base, i) != Candidate(base, j)
  {
    NumberedIsLonger(base, j);
    if i > 0 && Candidate(base, i) == Candidate(base, j) {
      SuffixesDiffer(Prefix(base, MAX_SLUG - |Suffix(i + 1)|), i + 1, Prefix(base, MAX_SLUG - |Suffix(j + 1)|), j + 1);
    }
  }

  /** A numbered candidate fits the column exactly while its number has fewer than 180 digits. */
  lemma CandidateFits(base: string, tries: nat)
    requires |base| <= MAX_BASE
    ensures |Candidate(base, tries)| <= MAX_SLUG <==> tries == 0 || |Decimal(tries + 1)| < MAX_SLUG
  {
  }

  /** The candidates tried so far. */
  ghost predicate AllTaken(base: string, tries: nat, taken: set<string>) {
    forall i: nat :: i < tries ==> Candidate(base, i) in taken
  }

  /** More than `|taken|` different taken candidates cannot exist. */
  lemma {:induction false} Pigeonhole(base: string, tries: nat, taken: set<string>)
    requires |base| <= MAX_BASE && AllTaken(base, tries, taken)
    ensures tries <= |taken|
  {
    if tries > 0 {
      var last := Candidate(base, tries - 1);
      forall i: nat | i < tries - 1 ensures Candidate(base, i) in taken - {last} {
        CandidatesDiffer(base, i, tries - 1);
      }
      Pigeonhole(base, tries - 1, taken - {last});
    }
  }

  lemma {:induction false} DecimalMonotone(m: nat, n: nat)
    requires m <= n
    ensures |Decimal(m)| <= |Decimal(n)|
    decreases n
  {
    if m >= 10 { DecimalMonotone(m / 10, n / 10); }
  }

  /** The chosen slug fits the column unless the table holds so many slugs that the
      counter needs 180 digits. */
  lemma ChosenFits(base: string, tries: nat, taken: set<string>)
    requires |base| <= MAX_BASE && tries <= |taken| && |Decimal(|taken| + 1)| < MAX_SLUG
    ensures |Candidate(base, tries)| <= MAX_SLUG
  {
    CandidateFits(base, tries);
    DecimalMonotone(tries + 1, |taken| + 1);
  }

  function Base(slugified: string): (base: string)
    ensures |base| <= MAX_BASE
  {
    if Take(slugified, MAX_BASE) == "" then "template" else Take(slugified, MAX_BASE)
  }

  /** `slug` is unused, and the first of these that is: the slugified title, cut to 160
      characters, or else "template"; and that, cut to leave 180 in all, with "-2", "-3", ... */
  ghost predicate FirstUnused(slugified: string, taken: set<string>, slug: string, probes: nat) {
    var cut := Take(slugified, 160);
    var base := if cut == "" then "template" else cut;
    && slug !in taken && probes >= 1
    && (probes == 1 ==> slug == base)
    && (probes > 1 ==> base in taken && slug == Numbered(base, probes))
    && forall n: nat :: 2 <= n < probes ==> Numbered(base, n) in taken
  }

  ghost predicate Fresh(slugified: string, taken: set<string>, slug: string) {
    exists probes: nat :: FirstUnused(slugified, taken, slug, probes)
  }

  function Numbered(base: string, n: nat): string {
    var suffix := "-" + Decimal(n);
    (if |suffix| <= 180 then Take(base, 180 - |suffix|) else base[..Max(0, |base| + 180 - |suffix|)]) + suffix
  }

  lemma OneMoreTaken(base: string, tries: nat, taken: set<string>)
    requires |base| <= MAX_BASE && AllTaken(base, tries, taken) && Candidate(base, tries) in taken
    ensures AllTaken(base, tries + 1, taken) && tries + 1 <= |taken|
  {
    Pigeonhole(base, tries + 1, taken);
  }

  lemma NextCandidate(base: string, tries: nat, suffix: string)
    requires tries > 0 && suffix == "-" + Decimal(tries + 1)
    ensures Candidate(base, tries) == Prefix(base, MAX_SLUG - |suffix|) + suffix
  {
  }

  lemma ChosenIsFirst(slugified: string, taken: set<string>, probes: nat)
    requires probes >= 1 && Candidate(Base(slugified), probes - 1) !in taken
    requires AllTaken(Base(slugified), probes - 1, taken)
    ensures FirstUnused(slugified, taken, Candidate(Base(slugified), probes - 1), probes)
  {
    var base := Base(slugified);
    forall n: nat | n >= 2 ensures Numbered(base, n) == Candidate(base, n - 1) {}
    if probes > 1 { assert Candidate(base, 0) in taken; }
    forall n: nat | 2 <= n < probes ensures Numbered(base, n) in taken { assert Candidate(base, n - 1) in taken; }
  }

  /** The first unused candidate, found within one probe more than there are taken slugs. */
  method Choose(slugified: string, taken: set<string>) returns (candidate: string, probes: nat)
    ensures candidate !in taken
    ensures 1 <= probes <= |taken| + 1
    ensures candidate == Candidate(Base(slugified), probes - 1)
    ensures AllTaken(Base(slugified), probes - 1, taken)
    ensures FirstUnused(slugified, taken, candidate, probes)
  {
    var base := Take(slugified, MAX_BASE);
    if base == "" { base := "template"; }
    candidate := base;
    var counter := 2;
    probes := 1;
    while candidate in taken
      invariant 1 <= probes <= |taken| + 1 && counter == probes + 1
      invariant base == Base(slugified) && candidate == Candidate(base, probes - 1)
      invariant AllTaken(base, probes - 1, taken)
      decreases |taken| + 1 - probes
    {
      OneMoreTaken(base, probes - 1, taken);
      var suffix := "-" + Decimal(counter);
      candidate := Prefix(base, MAX_SLUG - |suffix|) + suffix;
      NextCandidate(base, probes, suffix);
      counter := counter + 1;
      probes := probes + 1;
    }
    ChosenIsFirst(slugified, taken, probes);
  }
}
