/** When a live schedule runs next: one-time and rate schedules. Times are in microseconds since the
    beginning of the year 1. */
module Schedules {
  import opened Common

  datatype Unit = Minutes | Hours | Days

  datatype Schedule =
    | OneTime(at: Option<int>)
    | Rate(unit: Option<Unit>, value: Option<int>, lastRun: Option<int>, created: int)

  const SECOND := 1_000_000

  function UnitSeconds(unit: Option<Unit>): int {
    match unit
    case None => 0
    case Some(Minutes) => 60
    case Some(Hours) => 60 * 60
    case Some(Days) => 24 * 60 * 60
  }

  /** rate_value is a plain integer column: the interval can be zero or negative. */
  function Interval(s: Schedule): int
    requires s.Rate?
  {
    UnitSeconds(s.unit) * s.value.GetOr(0) * SECOND
  }

  function Base(s: Schedule): int
    requires s.Rate?
  {
    s.lastRun.GetOr(s.created)
  }

  /** Python's floor division. */
  function FloorDiv(a: int, b: int): int
    requires b != 0
  {
    if b > 0 then a / b else (-a) / (-b)
  }

  const DAY := 24 * 60 * 60 * SECOND

  /** The beginning of the year 10000, the first time a datetime cannot hold. */
  const DATES_END := 3_652_059 * DAY

  predicate IsDate(t: int) {
    0 <= t < DATES_END
  }

  /** A timedelta holds up to 999999999 days, and any number of seconds of the last one. */
  predicate IsDelta(d: int) {
    -999_999_999 * DAY <= d < 1_000_000_000 * DAY
  }

  /** `Overflows` is the OverflowError of a timedelta or of a sum of dates, which _next_run does not
      catch. */
  datatype Answer = At(time: int) | Never | Overflows

  /** _next_run, without its cron branch. */
  function NextRun(s: Schedule, now: int): Answer {
    match s
    case OneTime(at) => if at.Some? && at.value > now then At(at.value) else Never
    case Rate(_, _, _, _) =>
      if Interval(s) == 0 then Never
      else
        var elapsed := if now - Base(s) > 0 then now - Base(s) else 0;
        var delta := (FloorDiv(elapsed, Interval(s)) + 1) * Interval(s);
        if IsDelta(delta) && IsDate(Base(s) + delta) then At(Base(s) + delta) else Overflows
  }

  /** The interval in seconds: whole minutes, hours or days; none without a unit or a value. */
  lemma IntervalSeconds(value: Option<int>, lastRun: Option<int>, created: int)
    ensures Interval(Rate(None, value, lastRun, created)) == 0
    ensures Interval(Rate(Some(Minutes), value, lastRun, created)) == value.GetOr(0) * 60 * 1_000_000
    ensures Interval(Rate(Some(Hours), value, lastRun, created)) == value.GetOr(0) * 3600 * 1_000_000
    ensures Interval(Rate(Some(Days), value, lastRun, created)) == value.GetOr(0) * 86400 * 1_000_000
    ensures Base(Rate(None, value, lastRun, created)) == if lastRun.Some? then lastRun.value else created
  {
  }

  /** Without an interval there is no next run, and there is an answer or an overflow with one. */
  lemma AnswersWithInterval(s: Schedule, now: int)
    requires s.Rate?
    ensures NextRun(s, now).Never? <==> s.unit.None? || s.value.GetOr(0) == 0
  {
  }

  /** A slot of a rate schedule: a whole positive number of intervals after its base. */
  function Slot(s: Schedule, n: int): int
    requires s.Rate?
  {
    Base(s) + n * Interval(s)
  }

  /** The number of the slot NextRun answers with. */
  function NextSlot(s: Schedule, now: int): int
    requires s.Rate? && Interval(s) > 0
  {
    (if now - Base(s) > 0 then now - Base(s) else 0) / Interval(s) + 1
  }

  lemma SlotOrder(s: Schedule, m: int, n: int)
    requires s.Rate? && Interval(s) > 0
    ensures m <= n <==> Slot(s, m) <= Slot(s, n)
  {
    if m <= n {
      MulMono(m, n, Interval(s));
    } else {
      MulMono(n + 1, m, Interval(s));
    }
  }

  /** For a positive interval the answer is the earliest slot after now, and raising an overflow exactly
      when that slot is past the last date; the slot is within one interval of now exactly when the base
      is not in the future. */
  lemma RateAnswersLeastSlot(s: Schedule, now: int)
    requires s.Rate? && Interval(s) > 0 && IsDate(Base(s))
    ensures var n := NextSlot(s, now);
            && NextRun(s, now) == (if Slot(s, n) < DATES_END then At(Slot(s, n)) else Overflows)
            && n >= 1 && now < Slot(s, n)
            && (forall m: int | m >= 1 && now < Slot(s, m) :: n <= m)
            && (Slot(s, n) <= now + Interval(s) <==> Base(s) <= now)
  {
    LeastMultipleAfter(Base(s), Interval(s), now);
    MulMono(1, NextSlot(s, now), Interval(s));
  }

  /** When asking raises: exactly when no slot after now is a date. A base and an interval that are far
      enough apart from the last date answer at all times before it. */
  lemma OverflowsExactly(s: Schedule, now: int)
    requires s.Rate? && Interval(s) > 0 && IsDate(Base(s))
    ensures NextRun(s, now) == Overflows <==> forall m: int | m >= 1 && now < Slot(s, m) :: !IsDate(Slot(s, m))
    ensures Base(s) + Interval(s) >= DATES_END ==> NextRun(s, now) == Overflows
    ensures Base(s) <= now && now + Interval(s) < DATES_END ==> NextRun(s, now).At?
  {
    RateAnswersLeastSlot(s, now);
    var n := NextSlot(s, now);
    MulMono(1, n, Interval(s));
    forall m: int | m >= 1 && now < Slot(s, m) && Slot(s, n) >= DATES_END ensures !IsDate(Slot(s, m)) {
      SlotOrder(s, n, m);
    }
  }

  /** The arithmetic of it: the least positive number of intervals that passes `now`. */
  lemma LeastMultipleAfter(base: int, i: int, now: int)
    requires i > 0
    ensures var n := (if now - base > 0 then now - base else 0) / i + 1;
            && n >= 1 && now < base + n * i
            && (forall m: int | m >= 1 && now < base + m * i :: n <= m)
            && (base + n * i <= now + i <==> base <= now)
  {
    var elapsed := if now - base > 0 then now - base else 0;
    var q := elapsed / i;
    FloorBounds(elapsed, i);
    assert (q + 1) * i == q * i + i;
    DivBound(0, elapsed, i);
    forall m: int | m >= 1 && now < base + m * i ensures q + 1 <= m {
      if m <= q {
        MulMono(m, q, i);
      }
    }
    if now < base {
      FloorOfLess(elapsed, i);
    }
  }

  lemma FloorBounds(a: int, d: int)
    requires d > 0
    ensures a / d * d <= a < a / d * d + d
  {
  }

  lemma FloorOfLess(a: int, d: int)
    requires 0 <= a < d
    ensures a / d == 0
  {
  }

  /** The same for a negative interval -p: the multiple found is below the elapsed time, or -p when no time
      has elapsed. */
  lemma NegativeMultiple(elapsed: int, p: int)
    requires elapsed >= 0 && p > 0
    ensures var offset := ((-elapsed) / p + 1) * -p;
            if elapsed == 0 then offset == -p else offset < elapsed
  {
    var q := (-elapsed) / p;
    FloorBounds(-elapsed, p);
    assert (q + 1) * -p == -(q * p + p);
    if elapsed == 0 {
      FloorOfLess(0, p);
    }
  }

  /** Later questions never get earlier answers, and none once one has overflowed. */
  lemma NextRunIsMonotone(s: Schedule, now: int, later: int)
    requires s.Rate? && Interval(s) > 0 && IsDate(Base(s)) && now <= later
    ensures NextRun(s, now).At? && NextRun(s, later).At? ==> NextRun(s, now).time <= NextRun(s, later).time
    ensures NextRun(s, now).Overflows? ==> NextRun(s, later).Overflows?
  {
    RateAnswersLeastSlot(s, now);
    RateAnswersLeastSlot(s, later);
    SlotOrder(s, NextSlot(s, now), NextSlot(s, later));
  }

  /** The k-th answer when each answer is asked about next. */
  function Iterated(s: Schedule, now: int, k: nat): Answer
    decreases k
  {
    if k == 0 then NextRun(s, now)
    else
      var before := Iterated(s, now, k - 1);
      if before.At? then NextRun(s, before.time) else before
  }

  lemma {:induction false} IteratedVisitsSlots(s: Schedule, now: int, k: nat)
    requires s.Rate? && Interval(s) > 0 && IsDate(Base(s))
    ensures var at := Slot(s, NextSlot(s, now) + k);
            Iterated(s, now, k) == if at < DATES_END then At(at) else Overflows
  {
    RateAnswersLeastSlot(s, now);
    if k > 0 {
      IteratedVisitsSlots(s, now, k - 1);
      var n := NextSlot(s, now) + k - 1;
      var at := Slot(s, n);
      RateAnswersLeastSlot(s, at);
      SlotOrder(s, n + 1, n);
      assert at < Slot(s, n + 1);
      if NextSlot(s, at) <= n {
        SlotOrder(s, NextSlot(s, at), n);
      }
      assert NextSlot(s, at) == n + 1;
    }
  }

  /** Asking again about each answer visits every later slot that is a date: no gap, no repeat, none
      other; after the last one it overflows. */
  lemma EverySlotIsVisitedOnce(s: Schedule, now: int, n: int)
    requires s.Rate? && Interval(s) > 0 && IsDate(Base(s)) && n >= 1
    ensures now < Slot(s, n) < DATES_END ==>
              n - NextSlot(s, now) >= 0 && Iterated(s, now, n - NextSlot(s, now)) == At(Slot(s, n))
    ensures forall k: nat, l: nat | Iterated(s, now, k).At? && Iterated(s, now, k) == Iterated(s, now, l) :: k == l
    ensures forall k: nat ::
              Iterated(s, now, k).Overflows? || (Iterated(s, now, k).At? && now < Iterated(s, now, k).time)
  {
    RateAnswersLeastSlot(s, now);
    var first := NextSlot(s, now);
    if now < Slot(s, n) {
      IteratedVisitsSlots(s, now, n - first);
    }
    forall k: nat, l: nat | Iterated(s, now, k).At? && Iterated(s, now, k) == Iterated(s, now, l) ensures k == l {
      IteratedVisitsSlots(s, now, k);
      IteratedVisitsSlots(s, now, l);
      SlotOrder(s, first + k, first + l);
      SlotOrder(s, first + l, first + k);
    }
    forall k: nat
      ensures Iterated(s, now, k).Overflows? || (Iterated(s, now, k).At? && now < Iterated(s, now, k).time)
    {
      IteratedVisitsSlots(s, now, k);
      SlotOrder(s, first, first + k);
    }
  }

  /** Whether an answer is a future time: exactly when the interval is positive or the base is more than
      one (negative) interval ahead. The schedule serializer refuses a rate value below 1; a row written
      by other means, on a schedule that has started, answers with a time that is past. */
  lemma RateAnswersTheFutureExactly(s: Schedule, now: int)
    requires s.Rate? && Interval(s) != 0 && IsDate(Base(s)) && NextRun(s, now).At?
    ensures NextRun(s, now).time > now <==> Interval(s) > 0 || Base(s) + Interval(s) > now
  {
    var i := Interval(s);
    if i > 0 {
      RateAnswersLeastSlot(s, now);
    } else {
      NegativeMultiple(if now - Base(s) > 0 then now - Base(s) else 0, -i);
    }
  }

  /** A one-time schedule that answers has given the same answer all along: it only ever stops answering. */
  lemma OneTimeAnswerPersists(at: Option<int>, now: int, later: int)
    requires now <= later && NextRun(OneTime(at), later).At?
    ensures NextRun(OneTime(at), now) == NextRun(OneTime(at), later)
    ensures later < NextRun(OneTime(at), later).time && at == Some(NextRun(OneTime(at), later).time)
    ensures NextRun(OneTime(at), at.value) == Never
    ensures forall before | before < at.value :: NextRun(OneTime(at), before).At?
  {
  }
}
