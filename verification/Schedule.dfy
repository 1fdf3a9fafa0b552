/**
 * When the next backup is due. The wall clock is any function of the instant: a zone may skip or
 * repeat local hours at will.
 */
module Schedule {
  import opened Wrappers

  type Instant = int

  const MINUTE := 60_000
  /** Nine days of minutes. */
  const HORIZON := 12960
  const SUNDAY := 3

  datatype Wall = Wall(date: int, hour: int, minute: int, weekday: int)

  datatype Frequency = Manual | Hourly | Daily | Weekly

  datatype Schedule = Schedule(frequency: Frequency, hour: int)

  function Candidate(after: Instant, minutes: nat): Instant {
    after / MINUTE * MINUTE + minutes * MINUTE
  }

  /** Is `local` a due time for someone whose clock shows `current`? */
  predicate Due(s: Schedule, current: Wall, local: Wall) {
    && local.minute == 0
    && if s.frequency.Hourly? then local.date != current.date || local.hour != current.hour
       else !(local.date == current.date && current.hour >= s.hour) && local.hour >= s.hour && (s.frequency.Weekly? ==>
           local.weekday == SUNDAY)
  }

  method NextSchedule(s: Schedule, wall: Instant -> Wall, after: Instant)
    returns (next: Result<Option<Instant>, string>)
    ensures next == Success(None) <==> s.frequency.Manual?
    ensures next.Success? && next.value.Some? ==> Follows(s, wall, after, next.value.value)
    ensures next.Failure? <==> !s.frequency.Manual? && forall minutes :: 1 <= minutes <= HORIZON ==>
      !Due(s, wall(after), wall(Candidate(after, minutes)))
  {
    if s.frequency.Manual? { return Success(None); }
    var current := wall(after);
    for minutes := 1 to HORIZON + 1
      invariant forall earlier :: 1 <= earlier < minutes ==> !Due(s, current, wall(Candidate(after, earlier)))
    {
      var candidate := Candidate(after, minutes);
      var local := wall(candidate);
      if local.minute != 0 { continue; }
      if s.frequency.Hourly? {
        if local.date != current.date || local.hour != current.hour { return Success(Some(candidate)); }
        continue;
      }
      if local.date == current.date && current.hour >= s.hour { continue; }
      if local.hour >= s.hour && (!s.frequency.Weekly? || local.weekday == SUNDAY) { return Success(Some(candidate)); }
    }
    next := Failure("Unable to resolve backup schedule");
  }

  /** The candidate `minutes` after is due, and none before it is. */
  ghost predicate IsNext(s: Schedule, wall: Instant -> Wall, after: Instant, minutes: nat) {
    && Due(s, wall(after), wall(Candidate(after, minutes)))
    && forall earlier :: 1 <= earlier < minutes ==> !Due(s, wall(after), wall(Candidate(after, earlier)))
  }

  ghost predicate Follows(s: Schedule, wall: Instant -> Wall, after: Instant, next: Instant) {
    exists minutes :: 1 <= minutes <= HORIZON && IsNext(s, wall, after, minutes) && next == Candidate(after, minutes)
  }

  /** The result is the first due whole minute strictly after the instant. */
  lemma EarliestAfter(s: Schedule, wall: Instant -> Wall, after: Instant, next: Instant)
    requires Follows(s, wall, after, next)
    ensures next > after && next % MINUTE == 0 && Due(s, wall(after), wall(next))
    ensures forall t :: after < t < next && t % MINUTE == 0 ==> !Due(s, wall(after), wall(t))
  {
    var minutes :| 1 <= minutes <= HORIZON && IsNext(s, wall, after, minutes) && next == Candidate(after, minutes);
    forall t | after < t < next && t % MINUTE == 0
      ensures !Due(s, wall(after), wall(t))
    {
      var earlier := t / MINUTE - after / MINUTE;
      assert t == Candidate(after, earlier);
      assert 1 <= earlier < minutes;
    }
  }

  /** In any zone a daily or weekly backup comes no later than the first full local hour, at or past the scheduled one,
      of a date that was not yet served. So where the clock skips that hour it falls on a later one of the same date. */
  lemma SkippedHourFallsLater(s: Schedule, wall: Instant -> Wall, after: Instant, next: Instant, t: Instant)
    requires (s.frequency.Daily? || s.frequency.Weekly?) && Follows(s, wall, after, next)
    requires after < t && t % MINUTE == 0 && wall(t).minute == 0 && wall(t).hour >= s.hour
    requires wall(t).date != wall(after).date || wall(after).hour < s.hour
    requires s.frequency.Weekly? ==> wall(t).weekday == SUNDAY
    ensures next <= t && wall(next).minute == 0 && wall(next).hour >= s.hour
    ensures wall(next).date != wall(after).date || wall(after).hour < s.hour
  {
    EarliestAfter(s, wall, after, next);
  }

  /** What a schedule counts as one slot of local time. */
  function SlotOf(s: Schedule, local: Wall): (int, int) {
    if s.frequency.Hourly? then (local.date, local.hour) else (local.date, 0)
  }

  /** Chaining moves to another local date, or for hourly schedules to another local hour, in any zone. */
  lemma ChainMoves(s: Schedule, wall: Instant -> Wall, after: Instant, first: Instant, second: Instant)
    requires !s.frequency.Manual? && Follows(s, wall, after, first) && Follows(s, wall, first, second)
    ensures first < second && SlotOf(s, wall(first)) != SlotOf(s, wall(second))
  {
    EarliestAfter(s, wall, after, first);
    EarliestAfter(s, wall, first, second);
  }

  // ----- whole chains

  /** A whole minute at which a backup may be due, whatever the one before was. */
  predicate Eligible(s: Schedule, wall: Instant -> Wall, t: Instant) {
    var local := wall(t);
    t % MINUTE == 0 && local.minute == 0 &&
    (s.frequency.Hourly? || (local.hour >= s.hour && (s.frequency.Weekly? ==> local.weekday == SUNDAY)))
  }

  /** The slot of `a` is that of `c`, and not that of `b` between them. */
  ghost predicate Returns(s: Schedule, wall: Instant -> Wall, a: Instant, b: Instant, c: Instant) {
    && a < b < c && Eligible(s, wall, a) && Eligible(s, wall, b) && Eligible(s, wall, c)
    && SlotOf(s, wall(a)) == SlotOf(s, wall(c)) && SlotOf(s, wall(a)) != SlotOf(s, wall(b))
  }

  /** Between these instants the clock comes back, at minutes that count, to a slot it had left. */
  ghost predicate ComesBack(s: Schedule, wall: Instant -> Wall, from: Instant, to: Instant) {
    exists a, b, c :: from <= a && c <= to && Returns(s, wall, a, b, c)
  }

  ghost predicate IsChain(s: Schedule, wall: Instant -> Wall, chain: seq<Instant>) {
    |chain| >= 2 && forall k :: 0 <= k < |chain| - 1 ==> Follows(s, wall, chain[k], chain[k + 1])
  }

  ghost predicate Repeats(s: Schedule, wall: Instant -> Wall, chain: seq<Instant>) {
    exists i, j :: 1 <= i < j < |chain| && SlotOf(s, wall(chain[i])) == SlotOf(s, wall(chain[j]))
  }

  lemma DueIsOtherSlot(s: Schedule, wall: Instant -> Wall, current: Instant, t: Instant)
    requires !s.frequency.Manual? && Eligible(s, wall, current) && t % MINUTE == 0
    ensures Due(s, wall(current), wall(t)) <==> Eligible(s, wall, t) && SlotOf(s, wall(t)) != SlotOf(s, wall(current))
  {
  }

  lemma {:induction false} ChainRises(s: Schedule, wall: Instant -> Wall, chain: seq<Instant>, i: nat, j: nat)
    requires !s.frequency.Manual? && IsChain(s, wall, chain) && i < j < |chain|
    ensures chain[i] < chain[j] && Eligible(s, wall, chain[j])
    decreases j
  {
    assert Follows(s, wall, chain[j - 1], chain[j - 1 + 1]);
    EarliestAfter(s, wall, chain[j - 1], chain[j]);
    if i < j - 1 { ChainRises(s, wall, chain, i, j - 1); }
  }

  /** Up to the next element of the chain the clock stays in the slot of the last one. */
  lemma {:induction false} SlotFollowsChain(s: Schedule, wall: Instant -> Wall, chain: seq<Instant>, t: Instant, n: nat)
    returns (k: nat)
    requires !s.frequency.Manual? && IsChain(s, wall, chain) && 1 <= n < |chain|
    requires Eligible(s, wall, t) && chain[1] <= t <= chain[n]
    ensures 1 <= k <= n && chain[k] <= t && (k + 1 < |chain| ==> t < chain[k + 1])
    ensures SlotOf(s, wall(t)) == SlotOf(s, wall(chain[k]))
    decreases n
  {
    if t == chain[n] {
      k := n;
      if n + 1 < |chain| { ChainRises(s, wall, chain, n, n + 1); }
    } else if t >= chain[n - 1] {
      k := n - 1;
      assert Follows(s, wall, chain[k], chain[k + 1]);
      EarliestAfter(s, wall, chain[k], chain[k + 1]);
      ChainRises(s, wall, chain, k - 1, k);
      if t > chain[k] { DueIsOtherSlot(s, wall, chain[k], t); }
    } else {
      k := SlotFollowsChain(s, wall, chain, t, n - 1);
    }
  }

  /** For any wall clock a chain repeats a slot if and only if the clock comes back, between the chain's first and last
      result, to a slot it had left. */
  lemma ChainRepeatsExactly(s: Schedule, wall: Instant -> Wall, chain: seq<Instant>)
    requires !s.frequency.Manual? && IsChain(s, wall, chain)
    ensures Repeats(s, wall, chain) <==> ComesBack(s, wall, chain[1], chain[|chain| - 1])
  {
    if i, j :| 1 <= i < j < |chain| && SlotOf(s, wall(chain[i])) == SlotOf(s, wall(chain[j])) {
      RepeatComesBack(s, wall, chain, i, j);
    }
    if a, b, c :| chain[1] <= a && c <= chain[|chain| - 1] && Returns(s, wall, a, b, c) {
      ComingBackRepeats(s, wall, chain, a, b, c);
    }
  }

  lemma RepeatComesBack(s: Schedule, wall: Instant -> Wall, chain: seq<Instant>, i: nat, j: nat)
    requires !s.frequency.Manual? && IsChain(s, wall, chain) && 1 <= i < j < |chain|
    requires SlotOf(s, wall(chain[i])) == SlotOf(s, wall(chain[j]))
    ensures ComesBack(s, wall, chain[1], chain[|chain| - 1])
  {
    assert Follows(s, wall, chain[i - 1], chain[i - 1 + 1]) && Follows(s, wall, chain[i], chain[i + 1]);
    ChainMoves(s, wall, chain[i - 1], chain[i], chain[i + 1]);
    ChainRises(s, wall, chain, 0, i);
    ChainRises(s, wall, chain, i, i + 1);
    ChainRises(s, wall, chain, i, j);
    if i + 1 < j { ChainRises(s, wall, chain, i + 1, j); }
    if 1 < i { ChainRises(s, wall, chain, 1, i); }
    if j < |chain| - 1 { ChainRises(s, wall, chain, j, |chain| - 1); }
    assert Returns(s, wall, chain[i], chain[i + 1], chain[j]);
  }

  lemma PlacesRise(s: Schedule, wall: Instant -> Wall, chain: seq<Instant>, t: Instant, u: Instant, i: nat, j: nat)
    requires !s.frequency.Manual? && IsChain(s, wall, chain) && i < |chain| && j < |chain|
    requires t < u && chain[i] <= t && (j + 1 < |chain| ==> u < chain[j + 1])
    ensures i <= j
  {
    if j + 1 < i { ChainRises(s, wall, chain, j + 1, i); }
  }

  lemma ComingBackRepeats(s: Schedule, wall: Instant -> Wall, chain: seq<Instant>, a: Instant, b: Instant, c: Instant)
    requires !s.frequency.Manual? && IsChain(s, wall, chain)
    requires chain[1] <= a && c <= chain[|chain| - 1] && Returns(s, wall, a, b, c)
    ensures Repeats(s, wall, chain)
  {
    var n := |chain| - 1;
    var i := SlotFollowsChain(s, wall, chain, a, n);
    var k := SlotFollowsChain(s, wall, chain, b, n);
    var j := SlotFollowsChain(s, wall, chain, c, n);
    PlacesRise(s, wall, chain, a, b, i, k);
    PlacesRise(s, wall, chain, b, c, k, j);
  }

  predicate NotAfter(a: (int, int), b: (int, int)) {
    a.0 < b.0 || (a.0 == b.0 && a.1 <= b.1)
  }

  /** So where local time does not go back over a slot at the minutes that count, no chain ever repeats one. */
  lemma ChainNeverRepeats(s: Schedule, wall: Instant -> Wall, chain: seq<Instant>)
    requires !s.frequency.Manual? && IsChain(s, wall, chain)
    requires forall t, u :: t <= u && Eligible(s, wall, t) && Eligible(s, wall, u) ==>
      NotAfter(SlotOf(s, wall(t)), SlotOf(s, wall(u)))
    ensures !Repeats(s, wall, chain)
  {
    ChainRepeatsExactly(s, wall, chain);
  }

  function Clock(minute: int): Wall {
    Wall(minute / 1440, minute % 1440 / 60, minute % 60, minute / 1440 % 7)
  }

  /** A zone two hours ahead that falls back to none at 01:00, local 03:00, as Antarctica/Troll does each autumn. */
  function FallingBack(t: Instant): Wall {
    if t / MINUTE < 60 then Clock(t / MINUTE + 120) else Clock(t / MINUTE)
  }

  lemma NextHour(minute: int)
    requires -120 <= minute <= 0 && minute % 60 == 0
    ensures Follows(Schedule(Hourly, 0), FallingBack, minute * MINUTE, (minute + 60) * MINUTE)
  {
    var s, after := Schedule(Hourly, 0), minute * MINUTE;
    forall k: nat
      ensures Candidate(after, k) == (minute + k) * MINUTE && Candidate(after, k) / MINUTE == minute + k
    {
      assert Candidate(after, k) == (minute + k) * MINUTE;
    }
    forall earlier: nat | 1 <= earlier < 60
      ensures !Due(s, FallingBack(after), FallingBack(Candidate(after, earlier)))
    {
      assert Candidate(after, earlier) / MINUTE == minute + earlier;
      assert (minute + earlier + 120) % 60 == earlier;
    }
    assert Candidate(after, 60) / MINUTE == minute + 60;
    assert IsNext(s, FallingBack, after, 60);
  }

  /** The promise is not one for every clock: where local time goes back two hours, an hourly backup falls on the date
      and hour of an earlier one. */
  lemma ChainCanRepeat()
    ensures var chain := [-120 * MINUTE, -60 * MINUTE, 0, 60 * MINUTE];
      IsChain(Schedule(Hourly, 0), FallingBack, chain) && Repeats(Schedule(Hourly, 0), FallingBack, chain)
  {
    var chain := [-120 * MINUTE, -60 * MINUTE, 0, 60 * MINUTE];
    NextHour(-120);
    NextHour(-60);
    NextHour(0);
    assert SlotOf(Schedule(Hourly, 0), FallingBack(chain[1])) == SlotOf(Schedule(Hourly, 0), FallingBack(chain[3]));
  }

  // ----- zones with a fixed offset of whole minutes

  function Fixed(offset: int): Instant -> Wall {
    t => Clock(t / MINUTE + offset)
  }

  lemma FixedCandidate(offset: int, after: Instant, minutes: nat)
    ensures Fixed(offset)(Candidate(after, minutes)) == Clock(after / MINUTE + offset + minutes)
  {
    assert Candidate(after, minutes) / MINUTE == after / MINUTE + minutes;
  }

  /** The local minute the next run falls on. */
  function Target(s: Schedule, now: int): int {
    var date := now / 1440;
    match s.frequency
    case Manual => now
    case Hourly => now / 60 * 60 + 60
    case Daily => if date * 1440 + s.hour * 60 > now then date * 1440 + s.hour * 60 else (date + 1) * 1440 + s.hour * 60
    case Weekly =>
      var sunday := date + (SUNDAY - date) % 7;
      if sunday * 1440 + s.hour * 60 > now then sunday * 1440 + s.hour * 60 else (sunday + 7) * 1440 + s.hour * 60
  }

  lemma DayParts(date: int, rest: int)
    requires 0 <= rest < 1440
    ensures (date * 1440 + rest) / 1440 == date && (date * 1440 + rest) % 1440 == rest
  {
  }

  lemma HourParts(hour: int, rest: int)
    requires 0 <= rest < 60
    ensures (hour * 60 + rest) / 60 == hour && (hour * 60 + rest) % 60 == rest
  {
  }

  lemma ClockAt(date: int, hour: int)
    requires 0 <= hour <= 23
    ensures Clock(date * 1440 + hour * 60) == Wall(date, hour, 0, date % 7)
  {
    DayParts(date, hour * 60);
    HourParts(hour, 0);
    HourParts(date * 24 + hour, 0);
    assert date * 1440 + hour * 60 == (date * 24 + hour) * 60;
  }

  lemma HourlyDue(s: Schedule, now: int)
    requires s.frequency.Hourly?
    ensures now < Target(s, now) <= now + 60 && Due(s, Clock(now), Clock(Target(s, now)))
  {
    var date, hour := now / 1440, now % 1440 / 60;
    HourParts(date * 24 + hour, now % 1440 - hour * 60);
    assert now == (date * 24 + hour) * 60 + (now % 1440 - hour * 60);
    assert Target(s, now) == (date * 24 + hour) * 60 + 60;
    if hour < 23 { ClockAt(date, hour + 1); } else { ClockAt(date + 1, 0); }
  }

  lemma DailyDue(s: Schedule, now: int)
    requires s.frequency.Daily? && 0 <= s.hour <= 23
    ensures now < Target(s, now) <= now + 2 * 1440 && Due(s, Clock(now), Clock(Target(s, now)))
    ensures Clock(Target(s, now)).hour == s.hour
  {
    ClockAt(now / 1440, s.hour);
    ClockAt(now / 1440 + 1, s.hour);
  }

  lemma WeeklyDue(s: Schedule, now: int)
    requires s.frequency.Weekly? && 0 <= s.hour <= 23
    ensures now < Target(s, now) <= now + 9 * 1440 && Due(s, Clock(now), Clock(Target(s, now)))
    ensures Clock(Target(s, now)).hour == s.hour
  {
    var date := now / 1440;
    var sunday := date + (SUNDAY - date) % 7;
    assert sunday % 7 == SUNDAY;
    ClockAt(sunday, s.hour);
    ClockAt(sunday + 7, s.hour);
  }

  /** With a fixed offset the search always succeeds. */
  lemma FixedSucceeds(s: Schedule, offset: int, after: Instant)
    requires !s.frequency.Manual? && 0 <= s.hour <= 23
    ensures exists minutes ::
      1 <= minutes <= HORIZON && Due(s, Fixed(offset)(after), Fixed(offset)(Candidate(after, minutes)))
  {
    var now := after / MINUTE + offset;
    match s.frequency {
      case Hourly => HourlyDue(s, now);
      case Daily => DailyDue(s, now);
      case Weekly => WeeklyDue(s, now);
    }
    var minutes := Target(s, now) - now;
    FixedCandidate(offset, after, minutes);
  }

  lemma HourIsMonotone(a: int, b: int)
    ensures a <= b && a / 1440 == b / 1440 ==> Clock(a).hour <= Clock(b).hour
    ensures a <= b <= a + 59 && a % 60 == 0 ==> a / 1440 == b / 1440
  {
  }

  lemma DueIsLate(s: Schedule, now: int, minute: int)
    requires (s.frequency.Daily? || s.frequency.Weekly?) && 0 <= s.hour <= 23
    requires now < minute && Due(s, Clock(now), Clock(minute)) && Clock(minute).hour > s.hour
    ensures now < minute - 60 && Due(s, Clock(now), Clock(minute - 60))
  {
    assert (minute - 60) / 1440 == minute / 1440;
    assert (minute - 60) % 1440 == minute % 1440 - 60;
    HourIsMonotone(minute - 60, now);
  }

  /** With a fixed offset daily and weekly backups fall exactly on the scheduled local hour. */
  lemma FixedFallsOnTheHour(s: Schedule, offset: int, after: Instant, next: Instant)
    requires (s.frequency.Daily? || s.frequency.Weekly?) && 0 <= s.hour <= 23 && Follows(s, Fixed(offset), after, next)
    ensures var local := Fixed(offset)(next);
      local.hour == s.hour && local.minute == 0 && (s.frequency.Weekly? ==> local.weekday == SUNDAY)
  {
    var minutes :| 1 <= minutes <= HORIZON && IsNext(s, Fixed(offset), after, minutes) &&
      next == Candidate(after, minutes);
    var now := after / MINUTE + offset;
    FixedCandidate(offset, after, minutes);
    if Clock(now + minutes).hour > s.hour {
      DueIsLate(s, now, now + minutes);
      FixedCandidate(offset, after, minutes - 60);
    }
  }

  /** A local time at which such a backup is to run. */
  predicate Occurs(s: Schedule, local: Wall) {
    && local.minute == 0
    && (s.frequency.Hourly? || (local.hour == s.hour && (s.frequency.Weekly? ==> local.weekday == SUNDAY)))
  }

  lemma OccursIsDue(s: Schedule, now: int, minute: int)
    requires !s.frequency.Manual? && 0 <= s.hour <= 23 && now < minute && Occurs(s, Clock(minute))
    ensures Due(s, Clock(now), Clock(minute))
  {
    if s.frequency.Hourly? {
      SameHour(now, minute);
    } else {
      ClockParts(now);
      ClockParts(minute);
    }
  }

  lemma SameHour(now: int, minute: int)
    requires now < minute && minute % 60 == 0
    ensures Clock(now).date != Clock(minute).date || Clock(now).hour != Clock(minute).hour
  {
    ClockParts(now);
    ClockParts(minute);
    HourMinutes(minute);
  }

  lemma HourMinutes(minute: int)
    ensures Clock(minute).minute == minute % 60
  {
  }

  /** A local time tells the minute. */
  lemma ClockParts(minute: int)
    ensures var c := Clock(minute);
      minute == c.date * 1440 + c.hour * 60 + c.minute && 0 <= c.hour <= 23 && 0 <= c.minute <= 59
  {
    var day := minute % 1440;
    assert minute == minute / 1440 * 1440 + day;
    assert day == day / 60 * 60 + day % 60;
    assert day % 60 == minute % 60 by { DayMinutes(minute / 1440, day); }
  }

  lemma DayMinutes(date: int, day: int)
    requires 0 <= day < 1440
    ensures day % 60 == (date * 1440 + day) % 60
  {
    HourParts(date * 24 + day / 60, day % 60);
    assert date * 1440 + day == (date * 24 + day / 60) * 60 + day % 60;
  }

  /** With a fixed offset the result is the next local occurrence: the next full hour, the next time it is the scheduled
      hour, or the next Sunday at that hour. */
  lemma FixedIsNextOccurrence(s: Schedule, offset: int, after: Instant, next: Instant)
    requires !s.frequency.Manual? && 0 <= s.hour <= 23 && Follows(s, Fixed(offset), after, next)
    ensures after < next && next % MINUTE == 0 && Occurs(s, Fixed(offset)(next))
    ensures forall t :: after < t < next && t % MINUTE == 0 ==> !Occurs(s, Fixed(offset)(t))
  {
    EarliestAfter(s, Fixed(offset), after, next);
    if !s.frequency.Hourly? { FixedFallsOnTheHour(s, offset, after, next); }
    forall t | after < t < next && t % MINUTE == 0
      ensures !Occurs(s, Fixed(offset)(t))
    {
      if Occurs(s, Fixed(offset)(t)) { OccursIsDue(s, after / MINUTE + offset, t / MINUTE + offset); }
    }
  }
}
