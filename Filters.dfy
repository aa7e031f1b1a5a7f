/** Date ranges and the time filter built on them. */
module Filters {
  import opened Wrappers
  import opened Records

  /** Seven days, in nanoseconds. */
  const WEEK: int := 7 * 24 * 60 * 60 * 1_000_000_000
  const JUNE: int := 6

  /**
   * A window of time: the fixed week 7-13 June 2020, the calendar day of a reference
   * instant, or everything after a week before a reference instant.
   */
  datatype DateRange = Fixed | Daily(ref: Instant) | Weekly(ref: Instant)

  /** Does the range include `t`? An absent time is never included. */
  predicate Include(r: DateRange, t: Option<Instant>)
    ensures Include(r, t) ==> t.Some?
  {
    match r
    case Fixed =>
      if t.None? then false
      else if t.value.year != 2020 then false
      else if t.value.month != JUNE then false
      else if t.value.day < 7 || t.value.day > 13 then false
      else true
    case Daily(ref) =>
      if t.None? then false
      else if ref.year != t.value.year then false
      else if ref.month != t.value.month then false
      else if ref.day != t.value.day then false
      else true
    case Weekly(ref) =>
      t.Some? && ref.nanos - WEEK < t.value.nanos
  }

  predicate SameDate(a: Instant, b: Instant) {
    (a.year, a.month, a.day) == (b.year, b.month, b.day)
  }

  /** The seven dates of the fixed range, as (year, month, day). */
  const FIXED_DATES: set<(int, int, int)> := set d | 7 <= d <= 13 :: (2020, JUNE, d)

  lemma FixedIncludesExactly(t: Instant)
    ensures Include(Fixed, Some(t)) <==> (t.year, t.month, t.day) in FIXED_DATES
  {
    if Include(Fixed, Some(t)) {
      var d := t.day;
      assert (2020, JUNE, d) in FIXED_DATES;
    }
  }

  lemma DailyIncludesSameDate(ref: Instant, t: Instant)
    ensures Include(Daily(ref), Some(t)) <==> SameDate(t, ref)
    ensures Include(Daily(ref), Some(ref))
  {
  }

  /** Only the date of the reference matters, and inclusion is symmetric. */
  lemma DailyDependsOnDateOnly(r1: Instant, r2: Instant, t: Option<Instant>)
    requires SameDate(r1, r2)
    ensures Include(Daily(r1), t) == Include(Daily(r2), t)
    ensures t.Some? ==> (Include(Daily(r1), t) <==> Include(Daily(t.value), Some(r1)))
  {
  }

  /** The weekly window is open at its start and has no end. */
  lemma WeeklyIncludesAfterWeekAgo(ref: Instant, t: Instant)
    ensures Include(Weekly(ref), Some(t)) <==> t.nanos > ref.nanos - WEEK
    ensures t.nanos == ref.nanos - WEEK ==> !Include(Weekly(ref), Some(t))
    ensures t.nanos >= ref.nanos ==> Include(Weekly(ref), Some(t))
  {
  }

  lemma WeeklyUpwardClosed(ref: Instant, t1: Instant, t2: Instant)
    requires Include(Weekly(ref), Some(t1))
    requires t1.nanos < t2.nanos
    ensures Include(Weekly(ref), Some(t2))
  {
  }

  /** `ParseRange`: a period name, anchored at the current instant `now`. */
  function ParseRange(name: string, now: Instant): (r: Result<DateRange>)
    ensures r.Success? ==> r.value.Daily? || r.value.Weekly?
    ensures r.Success? ==> r.value.ref == now
    ensures r.Failure? ==> r.error == "Unkown range period: " + name
  {
    if name == "daily" then Success(Daily(now))
    else if name == "weekly" then Success(Weekly(now))
    else Failure("Unkown range period: " + name)
  }

  /** The name of the period a parsed range stands for. */
  function PeriodName(r: DateRange): Option<string> {
    match r
    case Fixed => None
    case Daily(_) => Some("daily")
    case Weekly(_) => Some("weekly")
  }

  /** Parsing and naming are inverse: exactly "daily" and "weekly" parse, case included. */
  lemma ParseRangeNames(name: string, now: Instant, r: DateRange)
    ensures ParseRange(name, now) == Success(r) <==> PeriodName(r) == Some(name) && r.ref == now
  {
  }

  lemma ParseRangeRejectsOtherCase(now: Instant)
    ensures ParseRange("Daily", now).Failure? && ParseRange("WEEKLY", now).Failure?
    ensures ParseRange("", now) == Failure("Unkown range period: ")
  {
  }

  /** The filter on creation time. */
  datatype TimeFilter = TimeFilter(range: DateRange)

  function CheckPr(f: TimeFilter, pr: PullRequest): (ok: bool)
    ensures ok <==> Include(f.range, pr.createdAt)
    ensures ok ==> pr.createdAt.Some?
  {
    Include(f.range, pr.createdAt)
  }

  function CheckTicket(f: TimeFilter, i: Issue): (ok: bool)
    ensures ok <==> Include(f.range, i.createdAt)
    ensures ok ==> i.createdAt.Some?
  {
    Include(f.range, i.createdAt)
  }
}
