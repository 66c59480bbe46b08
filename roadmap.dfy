/**
 * The four figures of the roadmap section (src/components/Roadmap.js:12-69):
 * the number of projects, the years of experience spanned by the experience
 * entries, a fixed feedback figure, and the number of distinct collaborators.
 *
 * Dates are (year, month, day) triples. Turning a date string into a date is
 * left to the caller-supplied `parse`, which answers `None` for a string that
 * does not denote a date; the current date is the parameter `now`.
 */
module Roadmap {
  import opened Wrappers
  import opened Text
  import opened Payload

  datatype Date = Date(year: int, month: int, day: int)

  /** `a < b` on dates: lexicographic on (year, month, day). */
  predicate Before(a: Date, b: Date) {
    a.year < b.year || (a.year == b.year && (a.month < b.month || (a.month == b.month && a.day < b.day)))
  }

  /** An end date as the roadmap holds it: a date, or JavaScript's Invalid
      Date when the end string does not parse. */
  datatype EndDate = Valid(date: Date) | Invalid

  /** A JavaScript number as far as the years figure needs one. */
  datatype Num = Finite(n: int) | NaN

  /** One figure: its value and the two caption lines the source calls
      `label` (a reserved word here) and `sublabel`. */
  datatype Stat = Stat(value: string, caption: string, subcaption: string)

  /** `a || b || c` on three optional strings, with a falsy result read as absent. */
  function FirstTruthy(a: Option<string>, b: Option<string>, c: Option<string>): (r: Option<string>)
    ensures Truthy(a) ==> r == a
    ensures !Truthy(a) && Truthy(b) ==> r == b
    ensures !Truthy(a) && !Truthy(b) && Truthy(c) ==> r == c
    ensures r.None? <==> !Truthy(a) && !Truthy(b) && !Truthy(c)
    ensures r.Some? ==> r.value != ""
  {
    if Truthy(a) then a else if Truthy(b) then b else if Truthy(c) then c else None
  }

  /** The start of an entry: `start_date || startDate || start_year`, parsed.
      `None` means the entry is skipped. */
  function StartOf(e: Experience, parse: string -> Option<Date>): Option<Date> {
    match FirstTruthy(e.start_date, e.startDate, e.start_year)
    case None => None
    case Some(s) => parse(s)
  }

  /** The end of an entry: `end_date || endDate || end_year`, parsed; a
      missing end is `now`. */
  function EndOf(e: Experience, parse: string -> Option<Date>, now: Date): EndDate {
    match FirstTruthy(e.end_date, e.endDate, e.end_year)
    case None => Valid(now)
    case Some(s) => (match parse(s) case None => Invalid case Some(d) => Valid(d))
  }

  predicate Counted(e: Experience, parse: string -> Option<Date>) {
    StartOf(e, parse).Some?
  }

  /** Entry `f` is the first entry that is not skipped. */
  predicate FirstCounted(exps: seq<Experience>, parse: string -> Option<Date>, f: int) {
    0 <= f < |exps| && Counted(exps[f], parse)
    && forall k :: 0 <= k < f ==> !Counted(exps[k], parse)
  }

  // --------------------------------------------- the fold, as specification

  /** `minStart` after the loop over `exps`: the earliest start among the
      entries that are not skipped, `None` when all are skipped. */
  function Earliest(exps: seq<Experience>, parse: string -> Option<Date>): (r: Option<Date>)
    ensures r.None? <==> forall k :: 0 <= k < |exps| ==> !Counted(exps[k], parse)
    ensures r.Some? ==> exists k :: 0 <= k < |exps| && StartOf(exps[k], parse) == r
    ensures r.Some? ==> forall k :: 0 <= k < |exps| && Counted(exps[k], parse) ==>
                          !Before(StartOf(exps[k], parse).value, r.value)
    decreases |exps|
  {
    if exps == [] then None
    else
      var init := exps[..|exps| - 1];
      assert forall k :: 0 <= k < |init| ==> init[k] == exps[k];
      var prev := Earliest(init, parse);
      var start := StartOf(exps[|exps| - 1], parse);
      if start.None? then prev
      else if prev.None? || Before(start.value, prev.value) then start
      else prev
  }

  /** `maxEnd` after the loop over `exps`. The first entry that is not skipped
      sets it; afterwards a strictly later valid end replaces it. Because an
      Invalid Date compares false with everything, an invalid end on that
      first entry sticks, and invalid ends on later entries are ignored
      (LatestEndInvalid, LatestEndIsLatest). */
  function LatestEnd(exps: seq<Experience>, parse: string -> Option<Date>, now: Date): (r: Option<EndDate>)
    ensures r.None? <==> forall k :: 0 <= k < |exps| ==> !Counted(exps[k], parse)
    decreases |exps|
  {
    if exps == [] then None
    else
      var init := exps[..|exps| - 1];
      assert forall k :: 0 <= k < |init| ==> init[k] == exps[k];
      var prev := LatestEnd(init, parse, now);
      var last := exps[|exps| - 1];
      var end := EndOf(last, parse, now);
      if !Counted(last, parse) then prev
      else if prev.None? then Some(end)
      else if prev.value.Valid? && end.Valid? && Before(prev.value.date, end.date) then Some(end)
      else prev
  }

  /** `maxEnd` is an Invalid Date exactly when the first counted entry has
      an end string that does not parse. */
  lemma {:induction false} LatestEndInvalid(exps: seq<Experience>, parse: string -> Option<Date>, now: Date)
    ensures LatestEnd(exps, parse, now) == Some(Invalid)
        <==> exists f :: FirstCounted(exps, parse, f) && EndOf(exps[f], parse, now) == Invalid
    decreases |exps|
  {
    if exps != [] {
      var init := exps[..|exps| - 1];
      assert forall k :: 0 <= k < |init| ==> init[k] == exps[k];
      LatestEndInvalid(init, parse, now);
      var prev := LatestEnd(init, parse, now);
      var last := exps[|exps| - 1];
      if !Counted(last, parse) || prev.Some? {
        assert forall f :: FirstCounted(exps, parse, f) <==> FirstCounted(init, parse, f);
      } else {
        assert FirstCounted(exps, parse, |exps| - 1);
        assert forall f :: FirstCounted(exps, parse, f) ==> f == |exps| - 1;
      }
    }
  }

  /** A valid `maxEnd` is the end of a counted entry, and no valid end of a
      counted entry is later. */
  lemma {:induction false} LatestEndIsLatest(exps: seq<Experience>, parse: string -> Option<Date>, now: Date)
    requires LatestEnd(exps, parse, now).Some? && LatestEnd(exps, parse, now).value.Valid?
    ensures var d := LatestEnd(exps, parse, now).value;
            (exists k :: 0 <= k < |exps| && Counted(exps[k], parse) && EndOf(exps[k], parse, now) == d)
            && forall k :: 0 <= k < |exps| && Counted(exps[k], parse) && EndOf(exps[k], parse, now).Valid? ==>
                 !Before(d.date, EndOf(exps[k], parse, now).date)
    decreases |exps|
  {
    var d := LatestEnd(exps, parse, now).value;
    var n := |exps|;
    var init := exps[..n - 1];
    assert forall k :: 0 <= k < |init| ==> init[k] == exps[k];
    var prev := LatestEnd(init, parse, now);
    var last := exps[n - 1];
    var end := EndOf(last, parse, now);
    if prev.None? {
      assert d == end;
      assert forall k :: 0 <= k < n - 1 ==> !Counted(exps[k], parse);
    } else if Counted(last, parse) && prev.value.Valid? && end.Valid? && Before(prev.value.date, end.date) {
      assert d == end;
      LatestEndIsLatest(init, parse, now);
    } else {
      assert d == prev.value;
      LatestEndIsLatest(init, parse, now);
    }
  }

  // ---------------------------------------------------------------- years

  /** `maxEnd.year - minStart.year`, plus one when the end's month and day
      are on or after the start's. */
  function YearsSpanned(start: Date, end: Date): int {
    end.year - start.year
    + (if end.month > start.month || (end.month == start.month && end.day >= start.day) then 1 else 0)
  }

  /** `years` after the code that follows the loop: 0 without a counted
      entry, NaN when `maxEnd` is an Invalid Date. */
  function YearsOf(minStart: Option<Date>, maxEnd: Option<EndDate>): Num {
    if minStart.None? || maxEnd.None? then Finite(0)
    else if maxEnd.value.Invalid? then NaN
    else Finite(YearsSpanned(minStart.value, maxEnd.value.date))
  }

  function ExperienceYears(exps: seq<Experience>, parse: string -> Option<Date>, now: Date): Num {
    YearsOf(Earliest(exps, parse), LatestEnd(exps, parse, now))
  }

  /** The number of anniversaries of `start` (the start itself being the
      0th) among the first `n` that fall on or before `end`. */
  function AnniversariesUpTo(start: Date, end: Date, n: nat): nat {
    if n == 0 then 0
    else
      AnniversariesUpTo(start, end, n - 1)
      + (if Before(end, Date(start.year + n - 1, start.month, start.day)) then 0 else 1)
  }

  lemma {:induction false} EarlyAnniversariesAllCount(start: Date, end: Date, n: nat)
    requires n <= end.year - start.year
    ensures AnniversariesUpTo(start, end, n) == n
  {
    if n > 0 { EarlyAnniversariesAllCount(start, end, n - 1); }
  }

  /** For an end on or after the start, the years figure is the number of
      anniversaries of the start date, the start included, reached by the
      end; so it is at least 1. */
  lemma {:induction false} YearsCountAnniversaries(start: Date, end: Date)
    requires !Before(end, start)
    ensures YearsSpanned(start, end) == AnniversariesUpTo(start, end, end.year - start.year + 1)
    ensures YearsSpanned(start, end) >= 1
  {
    EarlyAnniversariesAllCount(start, end, end.year - start.year);
  }

  /** The displayed years value (src/components/Roadmap.js:54). */
  function YearsValue(years: Num): string {
    if years.Finite? && years.n > 0 then NatToString(years.n) + "+" else "1+"
  }

  /** The years value is a positive decimal followed by "+": the years
      themselves when positive, 1 otherwise; never "0+". */
  lemma YearsValueShape(years: Num)
    ensures var v := YearsValue(years);
            |v| >= 2 && v[|v| - 1] == '+'
            && (forall i :: 0 <= i < |v| - 1 ==> IsDigit(v[i]))
            && DecimalValue(v[..|v| - 1]) == (if years.Finite? && years.n > 0 then years.n else 1)
    ensures YearsValue(years) != "0+"
  {
    var v := YearsValue(years);
    if years.Finite? && years.n > 0 {
      assert v[..|v| - 1] == NatToString(years.n);
      DecimalRoundTrip(years.n);
    } else {
      assert v[..|v| - 1] == "1";
    }
  }

  /** Without a counted entry the years figure shows "1+". */
  lemma NoCountedEntryShowsOnePlus(exps: seq<Experience>, parse: string -> Option<Date>, now: Date)
    requires forall k :: 0 <= k < |exps| ==> !Counted(exps[k], parse)
    ensures ExperienceYears(exps, parse, now) == Finite(0)
    ensures YearsValue(ExperienceYears(exps, parse, now)) == "1+"
  {
  }

  /** An invalid end date on the first counted entry makes the years NaN,
      which shows as "1+". */
  lemma InvalidFirstEndShowsOnePlus(exps: seq<Experience>, parse: string -> Option<Date>, now: Date, f: nat)
    requires FirstCounted(exps, parse, f) && EndOf(exps[f], parse, now) == Invalid
    ensures ExperienceYears(exps, parse, now) == NaN
    ensures YearsValue(ExperienceYears(exps, parse, now)) == "1+"
  {
    LatestEndInvalid(exps, parse, now);
  }

  /** When the latest end is not before the earliest start, the figure is
      the anniversary count, at least 1, shown as itself. */
  lemma OrderedSpanShowsYears(exps: seq<Experience>, parse: string -> Option<Date>, now: Date)
    requires Earliest(exps, parse).Some?
    requires LatestEnd(exps, parse, now).Some? && LatestEnd(exps, parse, now).value.Valid?
    requires !Before(LatestEnd(exps, parse, now).value.date, Earliest(exps, parse).value)
    ensures var s := Earliest(exps, parse).value;
            var e := LatestEnd(exps, parse, now).value.date;
            ExperienceYears(exps, parse, now) == Finite(AnniversariesUpTo(s, e, e.year - s.year + 1))
            && YearsValue(ExperienceYears(exps, parse, now)) == NatToString(YearsSpanned(s, e)) + "+"
  {
    var s := Earliest(exps, parse).value;
    var e := LatestEnd(exps, parse, now).value.date;
    YearsCountAnniversaries(s, e);
    assert ExperienceYears(exps, parse, now) == Finite(YearsSpanned(s, e));
  }

  // --------------------------------------------------------- collaborators

  /** `company_name || company || institution`, blank read as absent. */
  function CompanyOf(e: Experience): Option<string> {
    FirstTruthy(e.company_name, e.company, e.institution)
  }

  /** The set of distinct collaborator names (src/components/Roadmap.js:44). */
  function Companies(exps: seq<Experience>): (r: set<string>)
    ensures forall c :: c in r <==> exists k :: 0 <= k < |exps| && CompanyOf(exps[k]) == Some(c)
    ensures "" !in r
    ensures |r| <= |exps|
    decreases |exps|
  {
    if exps == [] then {}
    else
      var init := exps[..|exps| - 1];
      assert forall k :: 0 <= k < |init| ==> init[k] == exps[k];
      var prev := Companies(init);
      match CompanyOf(exps[|exps| - 1])
      case None => prev
      case Some(c) => prev + {c}
  }

  /** The default experience entries, read by a `parse` that knows their
      three dates, on 2024-06-01: the span 2019-06-01 to 2024-06-01 shows
      "6+". */
  lemma DefaultExperienceYears(parse: string -> Option<Date>)
    requires parse("2021-01-01") == Some(Date(2021, 1, 1))
    requires parse("2019-06-01") == Some(Date(2019, 6, 1))
    requires parse("2020-12-31") == Some(Date(2020, 12, 31))
    ensures ExperienceYears(DefaultExperience, parse, Date(2024, 6, 1)) == Finite(6)
    ensures YearsValue(ExperienceYears(DefaultExperience, parse, Date(2024, 6, 1))) == "6+"
  {
    var e := DefaultExperience;
    var now := Date(2024, 6, 1);
    assert e[..1] == [e[0]] && e[..1][..0] == [];
    assert StartOf(e[0], parse) == Some(Date(2021, 1, 1));
    assert StartOf(e[1], parse) == Some(Date(2019, 6, 1));
    assert EndOf(e[0], parse, now) == Valid(now);
    assert EndOf(e[1], parse, now) == Valid(Date(2020, 12, 31));
    assert Earliest(e[..1], parse) == Some(Date(2021, 1, 1));
    assert LatestEnd(e[..1], parse, now) == Some(Valid(now));
    assert Earliest(e, parse) == Some(Date(2019, 6, 1));
    assert LatestEnd(e, parse, now) == Some(Valid(now));
    assert NatToString(6) == "6";
  }

  /** The default experience entries name two collaborators. */
  lemma DefaultExperienceCompanies()
    ensures Companies(DefaultExperience) == {"Creative Studio", "Design Agency"}
    ensures |Companies(DefaultExperience)| == 2
  {
    var e := DefaultExperience;
    assert e[..1] == [e[0]] && e[..1][..0] == [];
    assert Companies(e[..1]) == {"Creative Studio"};
    assert "Creative Studio" != "Design Agency" by {
      assert "Creative Studio"[0] != "Design Agency"[0];
    }
  }

  // ----------------------------------------------------------- the records

  /** The `forEach` loop of the stats computation: it walks the entries once,
      keeping the earliest start and the latest end seen so far. */
  method ExperienceSpan(exps: seq<Experience>, parse: string -> Option<Date>, now: Date)
    returns (minStart: Option<Date>, maxEnd: Option<EndDate>)
    ensures minStart == Earliest(exps, parse)
    ensures maxEnd == LatestEnd(exps, parse, now)
  {
    minStart, maxEnd := None, None;
    var i := 0;
    while i < |exps|
      invariant 0 <= i <= |exps|
      invariant minStart == Earliest(exps[..i], parse)
      invariant maxEnd == LatestEnd(exps[..i], parse, now)
    {
      var exp := exps[i];
      var start := StartOf(exp, parse);
      var end := EndOf(exp, parse, now);
      assert exps[..i + 1][..i] == exps[..i];
      if start.Some? {
        if minStart.None? || Before(start.value, minStart.value) {
          minStart := start;
        }
        if maxEnd.None? || (maxEnd.value.Valid? && end.Valid? && Before(maxEnd.value.date, end.date)) {
          maxEnd := Some(end);
        }
      }
      i := i + 1;
    }
    assert exps[..|exps|] == exps;
  }

  /** The `stats` value of the roadmap. Omitted props are empty lists; the
      education list is accepted and plays no part. */
  method ComputeStats(experienceData: Option<seq<Experience>>, educationData: Option<seq<Education>>,
                      projectsData: Option<seq<Project>>, parse: string -> Option<Date>, now: Date)
    returns (stats: seq<Stat>)
    ensures |stats| == 4
    ensures stats[0] == Stat(NatToString(|projectsData.GetOr([])|), "Creative Projects", "from concept")
    ensures stats[1] == Stat(YearsValue(ExperienceYears(experienceData.GetOr([]), parse, now)), "Years of", "Experience")
    ensures stats[2] == Stat("95%", "Positive Feedback", "from clients")
    ensures stats[3] == Stat(NatToString(|Companies(experienceData.GetOr([]))|), "Collaborations", "with brands")
  {
    var exps := experienceData.GetOr([]);
    var projectsCount := |projectsData.GetOr([])|;
    var minStart, maxEnd := ExperienceSpan(exps, parse, now);
    var years := Finite(0);
    if minStart.Some? && maxEnd.Some? {
      match maxEnd.value
      case Invalid =>
        years := NaN;
      case Valid(end) =>
        years := Finite(end.year - minStart.value.year);
        if end.month > minStart.value.month || (end.month == minStart.value.month && end.day >= minStart.value.day) {
          years := Finite(years.n + 1);
        }
    }
    assert years == ExperienceYears(exps, parse, now);
    var yearsValue := YearsValue(years);
    var companiesCount := |Companies(exps)|;
    stats := [
      Stat(NatToString(projectsCount), "Creative Projects", "from concept"),
      Stat(yearsValue, "Years of", "Experience"),
      Stat("95%", "Positive Feedback", "from clients"),
      Stat(NatToString(companiesCount), "Collaborations", "with brands")
    ];
  }
}
