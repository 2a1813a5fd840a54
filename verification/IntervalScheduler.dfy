// The measurement interval scheduler shared by all collectors, on a clock in nanoseconds, and
// the time budget of the LIKWID collector that measures inside such an interval.
module IntervalScheduler {

  const NANOS_PER_MILLI := 1_000_000
  const SLEEP_SLICE := 1000

  // Integer division as C++ and duration_cast do it: towards zero. The divisor is positive.
  function TruncDiv(a: int, b: int): int
    requires b > 0
  {
    if a >= 0 then a / b else -(-a / b)
  }

  // Nothing but the remainder is cut off, and the result is never further from zero.
  lemma TruncDivIs(a: int, b: int)
    requires b > 0
    ensures var q := TruncDiv(a, b);
      if a >= 0 then 0 <= q && q * b <= a < q * b + b else q <= 0 && q * b - b < a <= q * b
  {
  }

  function Slot(interval: int): int {
    interval * NANOS_PER_MILLI
  }

  // Whole milliseconds from `now` to `end`.
  function MillisUntil(end: int, now: int): int {
    TruncDiv(end - now, NANOS_PER_MILLI)
  }

  function Abs(x: int): int { if x < 0 then -x else x }

  // The interval end chosen for an interval starting at `start`.
  function ChosenEnd(start: int, interval: int, now: int): int
    requires interval > 0
  {
    var end := start + Slot(interval);
    var remaining := MillisUntil(end, now);
    if remaining < interval / 4 then
      end + Slot(Abs(remaining) - Abs(remaining) % interval + interval)
    else end
  }

  // How many slots the catch-up leaves out.
  function Skipped(start: int, interval: int, now: int): nat
    requires interval > 0
  {
    var remaining := MillisUntil(start + Slot(interval), now);
    if remaining < interval / 4 then Abs(remaining) / interval + 1 else 0
  }

  lemma SlotTimes(k: int, interval: int)
    ensures Slot(k * interval) == k * Slot(interval)
  {
  }

  lemma RoundedCatchup(c: int, interval: int)
    requires interval > 0
    ensures c - c % interval + interval == (c / interval + 1) * interval
  {
    assert c == c / interval * interval + c % interval;
  }

  // Every chosen end is a grid point, at least one slot after the start.
  lemma EndIsOnGrid(start: int, interval: int, now: int)
    requires interval > 0
    ensures ChosenEnd(start, interval, now) == start + (1 + Skipped(start, interval, now)) * Slot(interval)
  {
    var remaining := MillisUntil(start + Slot(interval), now);
    if remaining < interval / 4 {
      RoundedCatchup(Abs(remaining), interval);
      SlotTimes(Abs(remaining) / interval + 1, interval);
    }
  }

  lemma SlotMonotone(k: int, interval: int)
    requires interval > 0 && k >= 0
    ensures k * Slot(interval) >= 0 && (k >= 1 ==> k * Slot(interval) >= Slot(interval))
  {
  }

  // What is chosen, in terms of the grid and the clock only: the next end while at least a
  // quarter of the interval is left, one slot later when less is left, and otherwise the first
  // grid point strictly after the clock reading.
  lemma EndIsNextReachableGridPoint(start: int, interval: int, now: int)
    requires interval >= 4
    ensures var next := start + Slot(interval);
      var end := ChosenEnd(start, interval, now);
      if next <= now then now < end <= now + Slot(interval)
      else if MillisUntil(next, now) < interval / 4 then end == next + Slot(interval)
      else end == next
  {
    var next := start + Slot(interval);
    var remaining := MillisUntil(next, now);
    if next <= now {
      var c := Abs(remaining);
      assert c == (now - next) / NANOS_PER_MILLI;
      assert c * NANOS_PER_MILLI <= now - next < (c + 1) * NANOS_PER_MILLI;
      assert 0 <= c % interval < interval;
    } else if remaining < interval / 4 {
      assert remaining % interval == remaining;
    }
  }

  lemma EndIsAfterClock(start: int, interval: int, now: int)
    requires interval >= 4
    ensures ChosenEnd(start, interval, now) > now
  {
    EndIsNextReachableGridPoint(start, interval, now);
  }

  // A fact about the truncating arithmetic: the end is strictly later than every reading exactly
  // when the interval has 4 ms or more. Below that the minimum of interval / 4 rounds to zero and
  // an end that is due is kept. No configured interval is that short.
  lemma EndsAfterClockIffFourMillis(interval: int)
    requires interval > 0
    ensures interval >= 4 <==> forall start, now :: ChosenEnd(start, interval, now) > now
  {
    if interval >= 4 {
      forall start, now ensures ChosenEnd(start, interval, now) > now {
        EndIsAfterClock(start, interval, now);
      }
    } else {
      assert ChosenEnd(0, interval, Slot(interval)) == Slot(interval);
    }
  }

  // ----- the intervals the daemon configures -----

  // A collector gets the job's whole seconds in milliseconds.
  function ConfiguredInterval(seconds: nat): nat { seconds * 1000 }

  // The catch-up is taken with an interval of zero and divides by it.
  predicate Faults(start: int, interval: nat, now: int) {
    interval == 0 && MillisUntil(start, now) < 0
  }

  // Over all readings, a configured interval works and ends after the clock exactly when the job
  // did not ask for zero seconds.
  lemma ConfiguredIntervalWorksIffPositive(seconds: nat)
    ensures seconds > 0 <==> forall start, now :: !Faults(start, ConfiguredInterval(seconds), now)
    ensures seconds > 0 ==> forall start, now :: ChosenEnd(start, ConfiguredInterval(seconds), now) > now
  {
    if seconds == 0 {
      assert Faults(0, ConfiguredInterval(0), NANOS_PER_MILLI);
    } else {
      EndsAfterClockIffFourMillis(ConfiguredInterval(seconds));
    }
  }

  // Milliseconds granted for measuring, and what is slept off first.
  function Granted(end: int, interval: int, now: int): int {
    var left := MillisUntil(end, now);
    if left > interval then interval else left
  }

  function ExtraSleep(end: int, interval: int, now: int): int {
    var left := MillisUntil(end, now);
    if left > interval then left - interval else 0
  }

  // Grant and sleep together fill the time to the end, and there is a sleep only before a grant of
  // the whole interval.
  lemma GrantAndSleepFillTime(end: int, interval: int, now: int)
    ensures Granted(end, interval, now) + ExtraSleep(end, interval, now) == MillisUntil(end, now)
    ensures Granted(end, interval, now) <= interval && ExtraSleep(end, interval, now) >= 0
    ensures ExtraSleep(end, interval, now) > 0 ==> Granted(end, interval, now) == interval
  {
  }

  lemma GrantedWithinInterval(start: int, interval: int, now: int)
    requires interval > 0
    ensures 0 <= Granted(ChosenEnd(start, interval, now), interval, now) <= interval
  {
    if interval >= 4 {
      EndIsAfterClock(start, interval, now);
    } else {
      var next := start + Slot(interval);
      var remaining := MillisUntil(next, now);
      if remaining < 0 {
        var c := Abs(remaining);
        assert c * NANOS_PER_MILLI <= now - next < (c + 1) * NANOS_PER_MILLI;
        assert 0 <= c % interval < interval;
      }
    }
  }

  // ----- the collector object -----

  function Sum(xs: seq<int>): int {
    if xs == [] then 0 else Sum(xs[..|xs| - 1]) + xs[|xs| - 1]
  }

  // Sleeps in slices and looks at the terminate flag before each. `stopAfter` is the number of
  // slices after which the flag is seen set.
  method SleepMillisecondsAndCheck(sleep: int, stopAfter: nat) returns (slices: seq<int>)
    ensures forall x :: x in slices ==> 0 < x <= SLEEP_SLICE
    ensures |slices| <= stopAfter
    ensures |slices| < stopAfter ==> Sum(slices) == if sleep > 0 then sleep else 0
    ensures Sum(slices) <= if sleep > 0 then sleep else 0
  {
    slices := [];
    var sleepLeft := sleep;
    while sleepLeft > 0 && |slices| < stopAfter
      invariant |slices| <= stopAfter
      invariant forall x :: x in slices ==> 0 < x <= SLEEP_SLICE
      invariant sleep > 0 ==> sleepLeft >= 0 && Sum(slices) + sleepLeft == sleep
      invariant sleep <= 0 ==> slices == [] && sleepLeft == sleep
      decreases sleepLeft
    {
      if sleepLeft < SLEEP_SLICE {
        SumAppend(slices, sleepLeft);
        slices := slices + [sleepLeft];
        return;
      }
      SumAppend(slices, SLEEP_SLICE);
      slices := slices + [SLEEP_SLICE];
      sleepLeft := sleepLeft - SLEEP_SLICE;
    }
  }

  lemma SumAppend(xs: seq<int>, x: int)
    ensures Sum(xs + [x]) == Sum(xs) + x
  {
    assert (xs + [x])[..|xs|] == xs;
  }

  class Collector {
    const interval: nat
    var intervalStart: int
    var intervalEnd: int
    var timeLeft: int

    constructor (startTime: int, interval: nat)
      ensures this.interval == interval && intervalStart == startTime
    {
      this.interval := interval;
      intervalStart, intervalEnd, timeLeft := startTime, startTime, 0;
    }

    // `now` is the one clock reading it takes. False stands for the division by zero, after
    // which the process is gone.
    method SynchronizeMeasurement(now: int, stopAfter: nat) returns (ok: bool, slices: seq<int>)
      modifies this
      ensures ok <==> !Faults(old(intervalStart), interval, now)
      ensures ok && interval > 0 ==> intervalEnd == ChosenEnd(old(intervalStart), interval, now)
      ensures ok && interval == 0 ==> intervalEnd == old(intervalStart)
      ensures ok ==> timeLeft == Granted(intervalEnd, interval, now) && 0 <= timeLeft <= interval
      ensures ok ==> intervalStart == intervalEnd + Slot(interval)
      // waiting until only one interval is left, unless told to stop
      ensures ok && |slices| < stopAfter ==> Sum(slices) == ExtraSleep(intervalEnd, interval, now)
    {
      slices := [];
      if interval > 0 { GrantedWithinInterval(intervalStart, interval, now); }
      ok := ChooseEnd(now);
      if !ok { return; }
      if timeLeft > interval {
        var sleepLeft := timeLeft - interval;
        timeLeft := interval;
        slices := SleepMillisecondsAndCheck(sleepLeft, stopAfter);
      }
      intervalStart := intervalEnd + interval * NANOS_PER_MILLI;
    }

    // Its first half: where the interval ends, catching up if that is too close or over.
    method ChooseEnd(now: int) returns (ok: bool)
      modifies `intervalEnd, `timeLeft
      ensures ok <==> !Faults(intervalStart, interval, now)
      ensures ok && interval > 0 ==> intervalEnd == ChosenEnd(intervalStart, interval, now)
      ensures ok && interval == 0 ==> intervalEnd == intervalStart
      ensures ok ==> timeLeft == MillisUntil(intervalEnd, now)
    {
      var minimumTime := interval / 4;
      intervalEnd := intervalStart + interval * NANOS_PER_MILLI;
      var remaining := TruncDiv(intervalEnd - now, NANOS_PER_MILLI);
      timeLeft := remaining;
      if remaining < minimumTime {
        var catchup := if remaining < 0 then -remaining else remaining;
        if interval == 0 { return false; }
        var remainder := catchup % interval;
        intervalEnd := intervalEnd + (catchup - remainder + interval) * NANOS_PER_MILLI;
        timeLeft := TruncDiv(intervalEnd - now, NANOS_PER_MILLI);
      }
      ok := true;
    }

    method IntervalCleanup(setIntervalEnd: bool)
      modifies this
      ensures intervalStart == if setIntervalEnd then old(intervalEnd) else old(intervalStart)
      ensures intervalEnd == old(intervalEnd) && timeLeft == old(timeLeft)
    {
      if setIntervalEnd { intervalStart := intervalEnd; }
    }
  }

  // ----- whole runs -----

  // One turn of a collector's loop: the clock reading and the argument of the cleanup.
  datatype Turn = Turn(now: int, setIntervalEnd: bool)

  function StartAfter(end: int, interval: int, turn: Turn): int {
    if turn.setIntervalEnd then end else end + Slot(interval)
  }

  // The time stamps a run leaves behind.
  function Stamps(start: int, interval: int, turns: seq<Turn>): (r: seq<int>)
    requires interval > 0
    ensures |r| == |turns|
    decreases |turns|
  {
    if turns == [] then []
    else
      var end := ChosenEnd(start, interval, turns[0].now);
      [end] + Stamps(StartAfter(end, interval, turns[0]), interval, turns[1..])
  }

  ghost predicate OnGrid(t: int, start: int, interval: int) {
    exists k: nat :: k >= 1 && t == start + k * Slot(interval)
  }

  lemma GridTransitive(t: int, mid: int, start: int, interval: int, k: nat)
    requires OnGrid(t, mid, interval) && mid == start + k * Slot(interval)
    ensures OnGrid(t, start, interval)
  {
    var j: nat :| j >= 1 && t == mid + j * Slot(interval);
    assert t == start + (k + j) * Slot(interval);
  }

  // One turn ends on the grid, and the next starts there or one slot later.
  lemma TurnStaysOnGrid(start: int, interval: int, turn: Turn) returns (m: nat)
    requires interval > 0
    ensures OnGrid(ChosenEnd(start, interval, turn.now), start, interval)
    ensures var end := ChosenEnd(start, interval, turn.now);
      start + Slot(interval) <= end <= StartAfter(end, interval, turn) == start + m * Slot(interval)
  {
    var k := 1 + Skipped(start, interval, turn.now);
    EndIsOnGrid(start, interval, turn.now);
    SlotMonotone(k, interval);
    OneSlotMore(start, k, Slot(interval));
    m := if turn.setIntervalEnd then k else k + 1;
  }

  lemma OneSlotMore(start: int, k: nat, slot: int)
    ensures start + k * slot + slot == start + (k + 1) * slot
  {
  }

  // Over every run and any clock readings: stamps lie on the grid of the start time, each at
  // least one interval after the one before.
  lemma {:induction false} StampsStayOnGrid(start: int, interval: int, turns: seq<Turn>)
    requires interval > 0
    ensures forall i :: 0 <= i < |turns| ==> OnGrid(Stamps(start, interval, turns)[i], start, interval)
    ensures forall i :: 0 <= i < |turns| ==> Stamps(start, interval, turns)[i] >= start + Slot(interval)
    ensures forall i :: 0 < i < |turns| ==>
      Stamps(start, interval, turns)[i] >= Stamps(start, interval, turns)[i - 1] + Slot(interval)
    decreases |turns|
  {
    if turns != [] {
      var m := TurnStaysOnGrid(start, interval, turns[0]);
      var end := ChosenEnd(start, interval, turns[0].now);
      var next := StartAfter(end, interval, turns[0]);
      StampsStayOnGrid(next, interval, turns[1..]);
      var later := Stamps(next, interval, turns[1..]);
      forall i | 0 <= i < |turns| ensures OnGrid(Stamps(start, interval, turns)[i], start, interval) {
        if i > 0 { GridTransitive(later[i - 1], next, start, interval, m); }
      }
    }
  }

  lemma {:induction false} StampsAreAhead(start: int, interval: int, turns: seq<Turn>)
    requires interval >= 4
    ensures forall i :: 0 <= i < |turns| ==> Stamps(start, interval, turns)[i] > turns[i].now
    decreases |turns|
  {
    if turns != [] {
      EndIsAfterClock(start, interval, turns[0].now);
      var end := ChosenEnd(start, interval, turns[0].now);
      StampsAreAhead(StartAfter(end, interval, turns[0]), interval, turns[1..]);
    }
  }

  ghost predicate WholeSlots(delta: int, interval: int) {
    exists m: int :: delta == m * Slot(interval)
  }

  lemma GridDifference(s: int, t: int, start: int, interval: int)
    requires OnGrid(s, start, interval) && OnGrid(t, start, interval)
    ensures WholeSlots(s - t, interval)
  {
    var k: nat :| k >= 1 && s == start + k * Slot(interval);
    var m: nat :| m >= 1 && t == start + m * Slot(interval);
    assert s - t == (k - m) * Slot(interval);
  }

  // Two collectors with one start time stamp the same grid: any two stamps are a whole number of
  // intervals apart, whatever their clocks and delays.
  lemma CollectorsShareTheGrid(start: int, interval: int, a: seq<Turn>, b: seq<Turn>, i: nat, j: nat)
    requires interval > 0 && i < |a| && j < |b|
    ensures WholeSlots(Stamps(start, interval, a)[i] - Stamps(start, interval, b)[j], interval)
  {
    StampsStayOnGrid(start, interval, a);
    StampsStayOnGrid(start, interval, b);
    GridDifference(Stamps(start, interval, a)[i], Stamps(start, interval, b)[j], start, interval);
  }

  // A collector that comes back within the first three quarters of every interval skips none.
  lemma {:induction false} PunctualRunsSkipNothing(start: int, interval: int, turns: seq<Turn>)
    requires interval > 0
    requires forall i :: 0 <= i < |turns| ==>
      turns[i].setIntervalEnd && MillisUntil(start + (i + 1) * Slot(interval), turns[i].now) >= interval / 4
    ensures forall i :: 0 <= i < |turns| ==>
      Stamps(start, interval, turns)[i] == start + (i + 1) * Slot(interval)
    decreases |turns|
  {
    if turns != [] {
      assert turns[0].setIntervalEnd && start + (0 + 1) * Slot(interval) == start + Slot(interval);
      var end := start + Slot(interval);
      forall i | 0 <= i < |turns[1..]|
        ensures turns[1..][i].setIntervalEnd
          && MillisUntil(end + (i + 1) * Slot(interval), turns[1..][i].now) >= interval / 4
      {
        assert end + (i + 1) * Slot(interval) == start + ((i + 1) + 1) * Slot(interval);
      }
      PunctualRunsSkipNothing(end, interval, turns[1..]);
      forall i | 0 <= i < |turns|
        ensures Stamps(start, interval, turns)[i] == start + (i + 1) * Slot(interval)
      {
        if i > 0 {
          assert Stamps(end, interval, turns[1..])[i - 1] == end + ((i - 1) + 1) * Slot(interval);
          assert end + ((i - 1) + 1) * Slot(interval) == start + (i + 1) * Slot(interval);
        }
      }
    }
  }

  // With an interval of zero every turn starts where the first one did, so a run survives exactly
  // when no reading is a millisecond or more past the start time.
  ghost predicate SurvivesWithZero(start: int, turns: seq<Turn>)
    decreases |turns|
  {
    turns == []
    || (!Faults(start, 0, turns[0].now) && SurvivesWithZero(StartAfter(start, 0, turns[0]), turns[1..]))
  }

  lemma {:induction false} ZeroSurvivesIffNeverLate(start: int, turns: seq<Turn>)
    ensures SurvivesWithZero(start, turns)
       <==> forall i :: 0 <= i < |turns| ==> turns[i].now < start + NANOS_PER_MILLI
    decreases |turns|
  {
    if turns != [] {
      ZeroSurvivesIffNeverLate(start, turns[1..]);
      assert Faults(start, 0, turns[0].now) <==> turns[0].now >= start + NANOS_PER_MILLI;
      assert turns == [turns[0]] + turns[1..];
    }
  }
}
