/**
 * Delivery health (libs/shared-kernel/src/health.ts): accepted work against the elapsed part of a planned window. Dates
 * are milliseconds since the epoch and count by UTC day; fractions are exact, where the source rounds to a double.
 */
module Health {
  import opened Wrappers

  const MsPerDay: int := 86_400_000

  datatype State = Complete | OnTrack | AtRisk | Late | NotStarted

  datatype Reason = NoDates | NoWork

  datatype Thresholds = Thresholds(atRisk: real, late: real)

  datatype Verdict = Verdict(
    state: State, percentDone: Option<real>, percentElapsed: Option<real>, indeterminate: Option<Reason>)

  /** The UTC day an instant falls on, also before the epoch. */
  function DayOf(ms: int): int {
    ms / MsPerDay
  }

  function DaysBetween(from: int, to: int): int {
    DayOf(to) - DayOf(from)
  }

  function Clamp01(n: real): real {
    if n < 0.0 then 0.0 else if n > 1.0 then 1.0 else n
  }

  function ComputeHealth(
    accepted: real, total: real, start: Option<int>, end: Option<int>, today: int, thresholds: Thresholds): Verdict
  {
    if total <= 0.0 then Verdict(NotStarted, None, None, Some(NoWork))
    else
      var done := Clamp01(accepted / total);
      if start.None? || end.None? then Verdict(NotStarted, Some(done), None, Some(NoDates))
      else if done >= 1.0 && DaysBetween(end.value, today) > 0 then Verdict(Complete, Some(done), Some(1.0), None)
      else
        var windowDays := DaysBetween(start.value, end.value);
        if windowDays <= 0 then Verdict(NotStarted, Some(done), None, Some(NoDates))
        else
          var elapsedDays := DaysBetween(start.value, today);
          if elapsedDays < 0 then Verdict(NotStarted, Some(done), Some(0.0), None)
          else
            var elapsed := Clamp01(elapsedDays as real / windowDays as real);
            Verdict(StateAt((elapsed - done) * 100.0, thresholds), Some(done), Some(elapsed), None)
  }

  function StateAt(behind: real, thresholds: Thresholds): State {
    if behind >= thresholds.late then Late else if behind >= thresholds.atRisk then AtRisk else OnTrack
  }

  // ── Arithmetic ─────────────────────────────────────────────────────────────

  lemma DivideMonotone(a: real, b: real, d: real)
    requires a <= b && d > 0.0
    ensures a / d <= b / d
  {
    assert (b - a) / d >= 0.0;
    assert b / d - a / d == (b - a) / d;
  }

  lemma DivideTimes(a: real, d: real)
    requires d != 0.0
    ensures a / d * d == a
  {}

  lemma QuotientAgainstOne(a: real, d: real)
    requires d > 0.0
    ensures a / d >= 1.0 <==> a >= d
    ensures a / d >= 0.0 <==> a >= 0.0
  {
    DivideTimes(a, d);
    if a >= d { DivideMonotone(d, a, d); assert d / d == 1.0; }
    if a >= 0.0 { DivideMonotone(0.0, a, d); }
    if a / d >= 1.0 { TimesMonotone(1.0, a / d, d); }
    if a / d >= 0.0 { TimesMonotone(0.0, a / d, d); }
  }

  lemma TimesMonotone(a: real, b: real, d: real)
    requires a <= b && d >= 0.0
    ensures a * d <= b * d
  {
    assert (b - a) * d >= 0.0;
  }

  lemma ClampMonotone(a: real, b: real)
    requires a <= b
    ensures Clamp01(a) <= Clamp01(b)
  {}

  // ── What a planned, started, unfinished item looks like ────────────────────

  /** The item can be judged: there is work, a window, and it has started. */
  ghost predicate Judged(total: real, start: Option<int>, end: Option<int>, today: int) {
    total > 0.0 && start.Some? && end.Some? && DaysBetween(start.value, end.value) > 0 && DaysBetween(start.value, today) >= 0
  }

  function Severity(s: State): (n: int) {
    match s
    case Late => 2
    case AtRisk => 1
    case _ => 0
  }

  lemma WorseBehind(a: real, b: real, thresholds: Thresholds)
    requires a <= b
    ensures Severity(StateAt(a, thresholds)) <= Severity(StateAt(b, thresholds))
  {}

  /** As days pass with the same unfinished work accepted, the verdict never gets better. */
  lemma TimeNeverHelps(
    accepted: real, total: real, start: Option<int>, end: Option<int>, today: int, later: int, thresholds: Thresholds)
    requires Judged(total, start, end, today) && accepted < total && today <= later
    ensures Severity(ComputeHealth(accepted, total, start, end, today, thresholds).state)
            <= Severity(ComputeHealth(accepted, total, start, end, later, thresholds).state)
  {
    QuotientAgainstOne(accepted, total);
    var window := DaysBetween(start.value, end.value) as real;
    var a, b := DaysBetween(start.value, today) as real, DaysBetween(start.value, later) as real;
    assert a <= b by { assert DayOf(today) <= DayOf(later); }
    DivideMonotone(a, b, window);
    ClampMonotone(a / window, b / window);
    var done := Clamp01(accepted / total);
    WorseBehind((Clamp01(a / window) - done) * 100.0, (Clamp01(b / window) - done) * 100.0, thresholds);
  }

  /** On any one day, accepting more never makes the verdict worse. */
  lemma AcceptingNeverHurts(
    accepted: real, more: real, total: real, start: Option<int>, end: Option<int>, today: int, thresholds: Thresholds)
    requires Judged(total, start, end, today) && accepted <= more
    ensures Severity(ComputeHealth(more, total, start, end, today, thresholds).state)
            <= Severity(ComputeHealth(accepted, total, start, end, today, thresholds).state)
  {
    QuotientAgainstOne(accepted, total);
    QuotientAgainstOne(more, total);
    DivideMonotone(accepted, more, total);
    ClampMonotone(accepted / total, more / total);
    var elapsed := Clamp01(DaysBetween(start.value, today) as real / DaysBetween(start.value, end.value) as real);
    WorseBehind((elapsed - Clamp01(more / total)) * 100.0, (elapsed - Clamp01(accepted / total)) * 100.0, thresholds);
  }

  /** The verdict depends on the share of the work, not on its unit. */
  lemma UnitsDoNotMatter(
    accepted: real, total: real, scale: real, start: Option<int>, end: Option<int>, today: int, thresholds: Thresholds)
    requires scale > 0.0
    ensures ComputeHealth(scale * accepted, scale * total, start, end, today, thresholds)
            == ComputeHealth(accepted, total, start, end, today, thresholds)
  {
    if total > 0.0 {
      TimesMonotone(0.0, total, scale);
      assert scale * total > 0.0;
      SameQuotient(accepted, total, scale);
    } else {
      TimesMonotone(total, 0.0, scale);
    }
  }

  lemma SameQuotient(a: real, d: real, k: real)
    requires d > 0.0 && k > 0.0 && k * d > 0.0
    ensures (k * a) / (k * d) == a / d
  {
    var q := a / d;
    DivideTimes(a, d);
    assert k * a == q * (k * d);
    assert (q * (k * d)) / (k * d) == q;
  }

  /** The time of day never matters. */
  lemma OnlyTheDayMatters(
    accepted: real, total: real, start: Option<int>, end: Option<int>, today: int, start': Option<int>, end': Option<int>,
    today': int, thresholds: Thresholds)
    requires DayOf(today) == DayOf(today') && start.Some? == start'.Some? && end.Some? == end'.Some?
    requires start.Some? ==> DayOf(start.value) == DayOf(start'.value)
    requires end.Some? ==> DayOf(end.value) == DayOf(end'.value)
    ensures ComputeHealth(accepted, total, start, end, today, thresholds)
            == ComputeHealth(accepted, total, start', end', today', thresholds)
  {}

  /**
   * The rest of the verdict: why it could not be reached, if it could not, and the two fractions, each between 0 and 1.
   * Before the start nothing has elapsed, and at the end and after it all has.
   */
  lemma FractionsAndReasons(accepted: real, total: real, start: Option<int>, end: Option<int>, today: int, thresholds: Thresholds)
    ensures var v := ComputeHealth(accepted, total, start, end, today, thresholds);
            && (v.indeterminate == Some(NoWork) <==> total <= 0.0)
            && (v.percentDone.None? <==> total <= 0.0)
            && (v.percentElapsed.None? <==> v.indeterminate.Some?)
            && (v.indeterminate.Some? ==> v.state.NotStarted?)
            && (v.percentDone.Some? ==> v.percentDone.value * total == Least(AtLeastZero(accepted), total))
            && (v.indeterminate.None? && DayOf(today) >= DayOf(end.value) ==> v.percentElapsed == Some(1.0))
            && (v.indeterminate.None? && v.state.NotStarted? <==>
                  v.indeterminate.None? && DayOf(today) < DayOf(start.value) && !v.state.Complete?)
  {
    if total > 0.0 {
      ClampTimes(accepted, total);
      if start.Some? && end.Some? && DaysBetween(start.value, end.value) > 0 {
        QuotientAgainstOne(DaysBetween(start.value, today) as real, DaysBetween(start.value, end.value) as real);
      }
    }
  }

  /** In whole days: what has elapsed of the window, once the work has started and until the window is over. */
  lemma ElapsedIs(accepted: real, total: real, start: int, end: int, today: int, thresholds: Thresholds)
    requires total > 0.0 && DayOf(start) < DayOf(end) && DayOf(start) <= DayOf(today) <= DayOf(end)
    ensures var v, window := ComputeHealth(accepted, total, Some(start), Some(end), today, thresholds), DayOf(end) - DayOf(start);
            && v.indeterminate == None && v.percentElapsed != None
            && v.percentElapsed.value * window as real == (DayOf(today) - DayOf(start)) as real
  {
    var window, days := DaysBetween(start, end) as real, DaysBetween(start, today) as real;
    ClampTimes(days, window);
    assert Clamp01(days / window) * window == days;
  }

  lemma SeverityRises()
    ensures Severity(OnTrack) < Severity(AtRisk) < Severity(Late)
  {}

  // ── Finished work ──────────────────────────────────────────────────────────

  /** Complete is blue: all the work, both dates, and the planned end's day in the past. */
  lemma CompleteIff(accepted: real, total: real, start: Option<int>, end: Option<int>, today: int, thresholds: Thresholds)
    ensures ComputeHealth(accepted, total, start, end, today, thresholds).state == Complete
            <==> total > 0.0 && accepted >= total && start.Some? && end.Some? && DayOf(today) > DayOf(end.value)
  {
    if total > 0.0 { QuotientAgainstOne(accepted, total); }
  }

  ghost predicate FinishedIsSafe(thresholds: Thresholds) {
    forall accepted: real, total: real, start: Option<int>, end: Option<int>, today: int ::
      total > 0.0 && accepted >= total ==>
        !(ComputeHealth(accepted, total, start, end, today, thresholds).state in {AtRisk, Late})
  }

  lemma FinishedIsNotBehind(
    accepted: real, total: real, start: Option<int>, end: Option<int>, today: int, thresholds: Thresholds)
    requires thresholds.atRisk > 0.0 && thresholds.late > 0.0 && total > 0.0 && accepted >= total
    ensures !(ComputeHealth(accepted, total, start, end, today, thresholds).state in {AtRisk, Late})
  {
    QuotientAgainstOne(accepted, total);
    assert Clamp01(accepted / total) == 1.0;
  }

  /** Finished work is never at risk or late, whatever the dates, exactly when both thresholds are positive. */
  lemma FinishedIsSafeIff(thresholds: Thresholds)
    ensures FinishedIsSafe(thresholds) <==> thresholds.atRisk > 0.0 && thresholds.late > 0.0
  {
    if thresholds.atRisk > 0.0 && thresholds.late > 0.0 {
      forall accepted: real, total: real, start: Option<int>, end: Option<int>, today: int | total > 0.0 && accepted >= total
        ensures !(ComputeHealth(accepted, total, start, end, today, thresholds).state in {AtRisk, Late})
      {
        FinishedIsNotBehind(accepted, total, start, end, today, thresholds);
      }
    } else {
      var v := ComputeHealth(1.0, 1.0, Some(0), Some(MsPerDay), MsPerDay, thresholds);
      assert DayOf(MsPerDay) == 1 && DayOf(0) == 0;
      assert v.state in {AtRisk, Late};
    }
  }

  // ── The thresholds, without division ───────────────────────────────────────

  function Least(a: real, b: real): real {
    if a <= b then a else b
  }

  function AtLeastZero(a: real): real {
    if a < 0.0 then 0.0 else a
  }

  lemma ClampTimes(a: real, d: real)
    requires d > 0.0
    ensures Clamp01(a / d) * d == Least(AtLeastZero(a), d)
  {
    QuotientAgainstOne(a, d);
    DivideTimes(a, d);
    if a / d > 1.0 { assert a >= d; }
    if a / d <= 1.0 { TimesMonotone(a / d, 1.0, d); }
  }

  /** How far behind, in percent of (days × work): what the elapsed days owe, less what the accepted work has paid. */
  function Debt(accepted: real, total: real, window: real, elapsed: real): real {
    100.0 * (Least(elapsed, window) * total - Least(AtLeastZero(accepted), total) * window)
  }

  function Behind(accepted: real, total: real, window: real, elapsed: real): real
    requires window > 0.0 && total > 0.0
  {
    (Clamp01(elapsed / window) - Clamp01(accepted / total)) * 100.0
  }

  lemma JudgedByBehind(accepted: real, total: real, start: Option<int>, end: Option<int>, today: int, thresholds: Thresholds)
    requires Judged(total, start, end, today) && accepted < total
    ensures var window, elapsed := DaysBetween(start.value, end.value) as real, DaysBetween(start.value, today) as real;
            ComputeHealth(accepted, total, start, end, today, thresholds).state
            == StateAt(Behind(accepted, total, window, elapsed), thresholds)
  {
    QuotientAgainstOne(accepted, total);
  }

  lemma BehindIsDebt(accepted: real, total: real, window: real, elapsed: real, limit: real)
    requires total > 0.0 && window > 0.0 && elapsed >= 0.0
    ensures Behind(accepted, total, window, elapsed) >= limit
            <==> Debt(accepted, total, window, elapsed) >= limit * (window * total)
  {
    var p, q := Clamp01(elapsed / window), Clamp01(accepted / total);
    ClampTimes(elapsed, window);
    ClampTimes(accepted, total);
    var area := window * total;
    TimesMonotone(0.0, window, total);
    assert area > 0.0;
    assert p * area == (p * window) * total;
    assert q * area == (q * total) * window;
    var behind := (p - q) * 100.0;
    assert behind * area == 100.0 * (p * area - q * area);
    if behind >= limit {
      TimesMonotone(limit, behind, area);
    } else {
      StrictTimes(behind, limit, area);
    }
  }

  /** The debt has reached this percentage of the whole window's work. */
  predicate Owes(accepted: real, total: real, window: real, elapsed: real, percent: real) {
    Debt(accepted, total, window, elapsed) >= percent * (window * total)
  }

  lemma OwesIsBehind(accepted: real, total: real, window: real, elapsed: real, thresholds: Thresholds)
    requires total > 0.0 && window > 0.0 && elapsed >= 0.0
    ensures StateAt(Behind(accepted, total, window, elapsed), thresholds)
            == if Owes(accepted, total, window, elapsed, thresholds.late) then Late
               else if Owes(accepted, total, window, elapsed, thresholds.atRisk) then AtRisk
               else OnTrack
  {
    BehindIsDebt(accepted, total, window, elapsed, thresholds.late);
    BehindIsDebt(accepted, total, window, elapsed, thresholds.atRisk);
  }

  lemma StrictTimes(a: real, b: real, d: real)
    requires a < b && d > 0.0
    ensures a * d < b * d
  {
    assert (b - a) * d > 0.0;
  }

  /**
   * What each verdict means for unfinished work in its window, in whole days and units of work: late, and at risk, exactly
   * when the debt has reached the threshold's share of the whole.
   */
  lemma VerdictIsDebt(
    accepted: real, total: real, start: Option<int>, end: Option<int>, today: int, thresholds: Thresholds, window: real, elapsed: real)
    requires Judged(total, start, end, today) && accepted < total
    requires window == DaysBetween(start.value, end.value) as real && elapsed == DaysBetween(start.value, today) as real
    ensures ComputeHealth(accepted, total, start, end, today, thresholds).state
            == if Owes(accepted, total, window, elapsed, thresholds.late) then Late
               else if Owes(accepted, total, window, elapsed, thresholds.atRisk) then AtRisk
               else OnTrack
  {
    JudgedByBehind(accepted, total, start, end, today, thresholds);
    OwesIsBehind(accepted, total, window, elapsed, thresholds);
  }

  // ── Days ───────────────────────────────────────────────────────────────────

  /** A UTC day is 86,400,000 milliseconds, counted from the epoch in both directions. */
  lemma DayIs(ms: int, day: int)
    ensures DayOf(ms) == day <==> day * 86_400_000 <= ms < day * 86_400_000 + 86_400_000
  {}
}
