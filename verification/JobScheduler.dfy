/** Next run of a scheduled job: the first instant after now that its daily, weekly or monthly rule names. */
module JobScheduler {
  import opened Wrappers
  import opened Calendar

  /** Instants are microseconds, counted so that day number `d` starts at `d * DAY`. */
  const HOUR := 3_600_000_000
  const DAY := 86_400_000_000

  datatype Frequency = Daily | Weekly | Monthly | Unsupported(name: string)

  datatype Schedule = Schedule(frequency: Frequency, runHour: int, runDay: Option<int>)

  datatype ScheduleError = InvalidRunHour | InvalidWeeklyDay | InvalidMonthlyDay | UnsupportedFrequency

  /** A moment in UTC: a date and the time of day. */
  datatype Moment = Moment(date: Date, time: int)

  predicate ValidMoment(m: Moment) {
    Valid(m.date) && 0 <= m.time < DAY
  }

  function Instant(m: Moment): int
    requires ValidMoment(m)
  {
    DayNumber(m.date) * DAY + m.time
  }

  function Problem(s: Schedule): Option<ScheduleError> {
    if !(0 <= s.runHour <= 23) then Some(InvalidRunHour)
    else
      match s.frequency
      case Daily => None
      case Weekly => if s.runDay.None? || !(0 <= s.runDay.value <= 6) then Some(InvalidWeeklyDay) else None
      case Monthly => if s.runDay.None? || s.runDay.value < 1 then Some(InvalidMonthlyDay) else None
      case Unsupported(_) => Some(UnsupportedFrequency)
  }

  // ----- The instants a rule names -----

  /** The frequency is one of the three, and the day it needs is given and is one. */
  ghost predicate NamesDays(s: Schedule) {
    match s.frequency
    case Daily => true
    case Weekly => s.runDay.Some? && 0 <= s.runDay.value <= 6
    case Monthly => s.runDay.Some? && s.runDay.value >= 1
    case Unsupported(_) => false
  }

  ghost predicate IsMonthlyDay(day: int, runDay: int) {
    exists d: Date :: Valid(d) && DayNumber(d) == day && OnClampedDay(d, runDay)
  }

  ghost predicate RunsOn(s: Schedule, day: int)
    requires Problem(s).None?
  {
    match s.frequency
    case Daily => true
    case Weekly => Weekday(day) == s.runDay.value
    case Monthly => IsMonthlyDay(day, s.runDay.value)
  }

  ghost predicate Scheduled(s: Schedule, t: int)
    requires Problem(s).None?
  {
    t % 86_400_000_000 == s.runHour * 3_600_000_000 && RunsOn(s, t / 86_400_000_000)
  }

  function At(day: int, hour: int): int { day * DAY + hour * HOUR }

  lemma AtParts(day: int, hour: int)
    requires 0 <= hour <= 23
    ensures At(day, hour) / DAY == day && At(day, hour) % DAY == hour * HOUR
  {
  }

  /** The first scheduled instant strictly after `after`. */
  ghost predicate IsNext(s: Schedule, after: int, t: int)
    requires Problem(s).None?
  {
    && t > after && Scheduled(s, t)
    && forall u :: Scheduled(s, u) && u > after ==> t <= u
  }

  // ----- Computing it -----

  function NextDaily(s: Schedule, after: Moment): int
    requires ValidMoment(after)
  {
    var candidate := At(DayNumber(after.date), s.runHour);
    if candidate <= Instant(after) then candidate + DAY else candidate
  }

  function NextWeekly(s: Schedule, runDay: int, after: Moment): int
    requires ValidMoment(after)
  {
    var today := DayNumber(after.date);
    var candidate := At(today + (runDay - Weekday(today)) % 7, s.runHour);
    if candidate <= Instant(after) then candidate + 7 * DAY else candidate
  }

  function MonthlyCandidate(k: int, runDay: int, hour: int): int
    requires k >= 12 && runDay >= 1
  {
    At(DayNumber(ClampedDate(k, runDay)), hour)
  }

  function NextMonthly(s: Schedule, runDay: int, after: Moment): int
    requires ValidMoment(after) && runDay >= 1
  {
    DateMonth(after.date);
    var k := MonthIndexOf(after.date);
    if MonthlyCandidate(k, runDay, s.runHour) > Instant(after) then MonthlyCandidate(k, runDay, s.runHour)
    else MonthlyCandidate(k + 1, runDay, s.runHour)
  }

  function NextRun(s: Schedule, after: Moment): Result<int, ScheduleError>
    requires ValidMoment(after)
  {
    if Problem(s).Some? then Err(Problem(s).value)
    else
      match s.frequency
      case Daily => Ok(NextDaily(s, after))
      case Weekly => Ok(NextWeekly(s, s.runDay.value, after))
      case Monthly => Ok(NextMonthly(s, s.runDay.value, after))
  }

  method ComputeNextRun(s: Schedule, after: Moment) returns (r: Result<int, ScheduleError>)
    requires ValidMoment(after)
    ensures r == NextRun(s, after)
  {
    hide NextMonthly, Weekday, At, Instant, DayNumber;
    if !(0 <= s.runHour <= 23) {
      return Err(InvalidRunHour);
    }
    var now, today := Instant(after), DayNumber(after.date);
    match s.frequency {
      case Daily =>
        var candidate := At(today, s.runHour);
        if candidate <= now {
          candidate := candidate + DAY;
        }
        return Ok(candidate);
      case Weekly =>
        if s.runDay.None? || !(0 <= s.runDay.value <= 6) {
          return Err(InvalidWeeklyDay);
        }
        var candidate := At(today + (s.runDay.value - Weekday(today)) % 7, s.runHour);
        if candidate <= now {
          candidate := candidate + 7 * DAY;
        }
        return Ok(candidate);
      case Monthly =>
        if s.runDay.None? || s.runDay.value < 1 {
          return Err(InvalidMonthlyDay);
        }
        var next := FindMonth(s, s.runDay.value, after);
        return Ok(next);
      case Unsupported(_) =>
        return Err(UnsupportedFrequency);
    }
  }

  /** Month after month until the candidate is late enough; the second month always is. */
  method FindMonth(s: Schedule, runDay: int, after: Moment) returns (t: int)
    requires ValidMoment(after) && runDay >= 1 && 0 <= s.runHour <= 23
    ensures t == NextMonthly(s, runDay, after)
  {
    hide MonthlyCandidate;
    DateMonth(after.date);
    var now, first := Instant(after), MonthIndexOf(after.date);
    ghost var later := MonthlyCandidate(first + 1, runDay, s.runHour);
    LaterMonthIsLater(runDay, s.runHour, after, first + 1);
    var k := first;
    t := MonthlyCandidate(k, runDay, s.runHour);
    ghost var early := t;
    while t <= now
      invariant (k == first && t == early) || (k == first + 1 && t == later && early <= now)
      decreases first + 1 - k
    {
      k := k + 1;
      t := MonthlyCandidate(k, runDay, s.runHour);
    }
  }

  lemma LaterMonthIsLater(runDay: int, hour: int, after: Moment, k: int)
    requires ValidMoment(after) && runDay >= 1 && 0 <= hour <= 23 && k > MonthIndexOf(after.date)
    ensures k >= 12 && MonthlyCandidate(k, runDay, hour) > Instant(after)
  {
    DateMonth(after.date);
    DateOrder(after.date, ClampedDate(k, runDay));
  }

  // ----- It is the least scheduled instant after now -----

  /** Whatever is scheduled after now lies on today or later. */
  lemma NotBeforeToday(after: Moment, u: int)
    requires ValidMoment(after) && u > Instant(after)
    ensures u / DAY >= DayNumber(after.date)
  {
  }

  lemma SameDaySameInstant(s: Schedule, u: int)
    requires Problem(s).None? && Scheduled(s, u)
    ensures u == At(u / DAY, s.runHour)
  {
  }

  lemma DailyIsLeast(s: Schedule, after: Moment)
    requires ValidMoment(after) && Problem(s).None? && s.frequency == Daily
    ensures IsNext(s, Instant(after), NextDaily(s, after))
  {
    var today := DayNumber(after.date);
    AtParts(today, s.runHour);
    AtParts(today + 1, s.runHour);
    forall u | Scheduled(s, u) && u > Instant(after)
      ensures NextDaily(s, after) <= u
    {
      NotBeforeToday(after, u);
      SameDaySameInstant(s, u);
    }
  }

  lemma WeeklyIsLeast(s: Schedule, after: Moment)
    requires ValidMoment(after) && Problem(s).None? && s.frequency == Weekly
    ensures IsNext(s, Instant(after), NextWeekly(s, s.runDay.value, after))
  {
    hide Weekday, At, Scheduled, DayNumber;
    var today, runDay := DayNumber(after.date), s.runDay.value;
    WeekdayReached(today, runDay);
    WeeklyNext(
      s, Instant(after), today, today + (runDay - Weekday(today)) % 7, NextWeekly(s, runDay, after));
  }

  lemma WeekdayReached(today: int, runDay: int)
    requires 0 <= runDay <= 6
    ensures var day := today + (runDay - Weekday(today)) % 7;
      today <= day < today + 7 && Weekday(day) == runDay && Weekday(day + 7) == runDay
  {
  }

  /** With `day` the first day of the week rule from today on, the next run is on it, or a week later. */
  lemma WeeklyNext(s: Schedule, now: int, today: int, day: int, next: int)
    requires Problem(s).None? && s.frequency == Weekly && today * DAY <= now < (today + 1) * DAY
    requires today <= day < today + 7 && Weekday(day) == s.runDay.value && Weekday(day + 7) == s.runDay.value
    requires next == if At(day, s.runHour) <= now then At(day, s.runHour) + 7 * DAY else At(day, s.runHour)
    ensures IsNext(s, now, next)
  {
    WeeklyScheduled(s, day);
    WeeklyScheduled(s, day + 7);
    AWeekLater(s.runHour, now, today, day);
    forall u | Scheduled(s, u) && u > now
      ensures next <= u
    {
      NoEarlierWeek(s, now, today, day, u);
    }
  }

  lemma AWeekLater(hour: int, now: int, today: int, day: int)
    requires 0 <= hour && today <= day && now < (today + 1) * DAY
    ensures At(day + 7, hour) == At(day, hour) + 7 * DAY > now
  {
  }

  lemma WeeklyScheduled(s: Schedule, day: int)
    requires Problem(s).None? && s.frequency == Weekly && Weekday(day) == s.runDay.value
    ensures Scheduled(s, At(day, s.runHour))
  {
    AtParts(day, s.runHour);
  }

  lemma NoEarlierWeek(s: Schedule, now: int, today: int, day: int, u: int)
    requires Problem(s).None? && s.frequency == Weekly && today * DAY <= now
    requires today <= day < today + 7 && Weekday(day) == s.runDay.value
    requires Scheduled(s, u) && u > now
    ensures At(day, s.runHour) <= u && (At(day, s.runHour) <= now ==> At(day, s.runHour) + 7 * DAY <= u)
  {
    SameDaySameInstant(s, u);
    DayOfInstant(u, today);
    SameWeekday(today, day, u / DAY);
    AtInOrder(day, u / DAY, s.runHour);
    AtInOrder(day + 7, u / DAY, s.runHour);
  }

  lemma DayOfInstant(u: int, today: int)
    requires today * DAY <= u
    ensures u / DAY >= today
  {
  }

  lemma AtInOrder(a: int, b: int, hour: int)
    ensures a <= b ==> At(a, hour) <= At(b, hour)
    ensures a < b ==> At(a, hour) + DAY <= At(b, hour)
  {
  }

  /** Days with one weekday are a week apart. */
  lemma SameWeekday(today: int, first: int, other: int)
    requires today <= first < today + 7 && today <= other && Weekday(first) == Weekday(other)
    ensures first <= other && (other == first || other >= first + 7)
  {
  }

  lemma MonthlyIsLeast(s: Schedule, after: Moment)
    requires ValidMoment(after) && Problem(s).None? && s.frequency == Monthly
    ensures IsNext(s, Instant(after), NextMonthly(s, s.runDay.value, after))
  {
    hide MonthlyCandidate, Scheduled;
    var runDay := s.runDay.value;
    DateMonth(after.date);
    var k := MonthIndexOf(after.date);
    var next := NextMonthly(s, runDay, after);
    MonthlyScheduled(s, k);
    MonthlyScheduled(s, k + 1);
    LaterMonthIsLater(runDay, s.runHour, after, k + 1);
    forall u | Scheduled(s, u) && u > Instant(after)
      ensures next <= u
    {
      NoEarlierMonth(s, after, u);
    }
  }

  lemma MonthlyScheduled(s: Schedule, k: int)
    requires Problem(s).None? && s.frequency == Monthly && k >= 12
    ensures Scheduled(s, MonthlyCandidate(k, s.runDay.value, s.runHour))
  {
    var d := ClampedDate(k, s.runDay.value);
    AtParts(DayNumber(d), s.runHour);
    assert Valid(d) && OnClampedDay(d, s.runDay.value);
  }

  lemma NoEarlierMonth(s: Schedule, after: Moment, u: int)
    requires ValidMoment(after) && Problem(s).None? && s.frequency == Monthly
    requires Scheduled(s, u) && u > Instant(after)
    ensures NextMonthly(s, s.runDay.value, after) <= u
  {
    var runDay := s.runDay.value;
    NotBeforeToday(after, u);
    SameDaySameInstant(s, u);
    var d: Date :| Valid(d) && DayNumber(d) == u / DAY && OnClampedDay(d, runDay);
    var kd := MonthOfLaterDay(after.date, d, runDay);
    NoEarlierCandidate(s, after, kd);
  }

  lemma NoEarlierCandidate(s: Schedule, after: Moment, k: int)
    requires ValidMoment(after) && Problem(s).None? && s.frequency == Monthly
    requires k >= MonthIndexOf(after.date) >= 12 && MonthlyCandidate(k, s.runDay.value, s.runHour) > Instant(after)
    ensures NextMonthly(s, s.runDay.value, after) <= MonthlyCandidate(k, s.runDay.value, s.runHour)
  {
    hide MonthlyCandidate;
    var first, runDay := MonthIndexOf(after.date), s.runDay.value;
    CandidatesInOrder(first, k, runDay, s.runHour);
    if k > first {
      CandidatesInOrder(first + 1, k, runDay, s.runHour);
    }
    FirstLateEnough(
      Instant(after), MonthlyCandidate(first, runDay, s.runHour), MonthlyCandidate(first + 1, runDay, s.runHour),
      MonthlyCandidate(k, runDay, s.runHour));
  }

  lemma FirstLateEnough(now: int, a: int, b: int, c: int)
    requires a <= c && c > now && (c == a || b <= c)
    ensures (if a > now then a else b) <= c
  {
  }

  /** A clamped day from today on is the candidate of this month or of a later one. */
  lemma MonthOfLaterDay(today: Date, d: Date, runDay: int) returns (k: int)
    requires Valid(today) && Valid(d) && runDay >= 1
    requires DayNumber(d) >= DayNumber(today) && OnClampedDay(d, runDay)
    ensures k == MonthIndexOf(d) >= MonthIndexOf(today) >= 12 && d == ClampedDate(k, runDay)
  {
    k := MonthIndexOf(d);
    DateMonth(today);
    DateMonth(d);
    DateOrder(d, today);
    SameClampedDate(k, runDay, d);
  }

  lemma CandidatesInOrder(j: int, k: int, runDay: int, hour: int)
    requires 12 <= j <= k && runDay >= 1
    ensures MonthlyCandidate(j, runDay, hour) <= MonthlyCandidate(k, runDay, hour)
  {
    if j < k {
      DateOrder(ClampedDate(j, runDay), ClampedDate(k, runDay));
      AtInOrder(DayNumber(ClampedDate(j, runDay)), DayNumber(ClampedDate(k, runDay)), hour);
    }
  }

  lemma SameClampedDate(k: int, runDay: int, d: Date)
    requires k >= 12 && runDay >= 1 && Valid(d) && MonthIndexOf(d) == k && OnClampedDay(d, runDay)
    ensures d == ClampedDate(k, runDay)
  {
    DateOrder(d, ClampedDate(k, runDay));
    DateOrder(ClampedDate(k, runDay), d);
  }

  /** Every valid schedule has a next run after any moment, and the computed one is the least. */
  lemma NextRunIsLeast(s: Schedule, after: Moment)
    requires ValidMoment(after)
    ensures NextRun(s, after).Ok? <==> Problem(s).None?
    ensures NextRun(s, after).Err? ==> Problem(s) == Some(NextRun(s, after).error)
    ensures NextRun(s, after).Ok? ==> IsNext(s, Instant(after), NextRun(s, after).value)
  {
    if Problem(s).None? {
      match s.frequency {
        case Daily => DailyIsLeast(s, after);
        case Weekly => WeeklyIsLeast(s, after);
        case Monthly => MonthlyIsLeast(s, after);
      }
    }
  }

  /** The hour and the day alone decide whether there is a next run, and the hour is looked at first. */
  lemma NextRunExistsExactlyWhen(s: Schedule, after: Moment)
    requires ValidMoment(after)
    ensures NextRun(s, after).Ok? <==> 0 <= s.runHour <= 23 && NamesDays(s)
    ensures NextRun(s, after).Err? ==>
      NextRun(s, after).error ==
      if s.runHour < 0 || 23 < s.runHour then InvalidRunHour
      else if s.frequency == Weekly then InvalidWeeklyDay
      else if s.frequency == Monthly then InvalidMonthlyDay
      else UnsupportedFrequency
    ensures NextRun(s, after).Ok? ==>
      IsNext(s, DayNumber(after.date) * 86_400_000_000 + after.time, NextRun(s, after).value)
  {
    hide NextRun, RunsOn, DayNumber;
    NextRunIsLeast(s, after);
    assert Instant(after) == DayNumber(after.date) * 86_400_000_000 + after.time;
  }
}
