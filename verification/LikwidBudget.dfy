// The time budget of the LIKWID collector inside one measurement interval: how long it measures
// each event set, whether that fits in the time left, and how it predicts the overhead of the next
// cycle.
module LikwidBudget {
  import opened IntervalScheduler

  // Overhead samples are in microseconds, the prediction is in milliseconds.
  function NextPrediction(before: nat, sampleMicros: nat): nat {
    (before + 3 * (sampleMicros / 1000)) / 4
  }

  // Fault: the time available is divided by the number of sets before that number is tested.
  datatype Outcome = Ok | Error | Fault

  // The first n answers of something that is asked again and again.
  function FirstOf<T>(n: nat, f: nat -> T): (r: seq<T>)
    ensures |r| == n && forall i: nat :: i < n ==> r[i] == f(i)
  {
    if n == 0 then [] else FirstOf(n - 1, f) + [f(n - 1)]
  }

  // The event sets that are not given up, in the same order.
  function Kept(sets: seq<string>, gone: set<string>): (r: seq<string>)
    ensures forall x: string :: x in r <==> x in sets && x !in gone
  {
    if sets == [] then []
    else
      assert sets == [sets[0]] + sets[1..];
      if sets[0] in gone then Kept(sets[1..], gone) else [sets[0]] + Kept(sets[1..], gone)
  }

  // Taking out one more name is what erase and remove do to the vector.
  lemma {:induction false} KeptTwice(sets: seq<string>, gone: set<string>, more: set<string>)
    ensures Kept(Kept(sets, gone), more) == Kept(sets, gone + more)
  {
    if sets != [] {
      KeptTwice(sets[1..], gone, more);
      if sets[0] !in gone {
        var rest := Kept(sets[1..], gone);
        assert ([sets[0]] + rest)[0] == sets[0] && ([sets[0]] + rest)[1..] == rest;
      }
    }
  }

  // The order of the sets stays.
  lemma {:induction false} KeptOfParts(a: seq<string>, b: seq<string>, gone: set<string>)
    ensures Kept(a + b, gone) == Kept(a, gone) + Kept(b, gone)
  {
    if a == [] {
      assert a + b == b;
    } else {
      assert (a + b)[1..] == a[1..] + b;
      KeptOfParts(a[1..], b, gone);
    }
  }

  lemma {:induction false} KeptAll(sets: seq<string>)
    ensures Kept(sets, {}) == sets
  {
    if sets != [] { KeptAll(sets[1..]); }
  }

  function Unavailable(sets: seq<string>, groups: seq<string>): set<string> {
    set x | x in sets && x !in groups
  }

  // What the collector measures: the default sets that LIKWID offers.
  function Measured(sets: seq<string>, groups: seq<string>): seq<string> {
    Kept(sets, Unavailable(sets, groups))
  }

  // LIKWID starts, offers a set, and answers every request to add one with an id.
  predicate Prepared(sets: seq<string>, initialized: bool, groups: seq<string>, answer: nat -> int) {
    && initialized && Measured(sets, groups) != []
    && forall i: nat :: i < |Measured(sets, groups)| ==> answer(i) >= 0
  }

  // The first loop of the preparation.
  method SelectSets(defaultSets: seq<string>, groups: seq<string>) returns (setList: seq<string>)
    ensures setList == Measured(defaultSets, groups)
  {
    setList := defaultSets;
    ghost var gone: set<string> := {};
    KeptAll(defaultSets);
    for k := 0 to |defaultSets|
      invariant setList == Kept(defaultSets, gone)
      invariant gone == Unavailable(defaultSets[..k], groups)
    {
      assert defaultSets[..k + 1] == defaultSets[..k] + [defaultSets[k]];
      if defaultSets[k] !in groups {
        KeptTwice(defaultSets, gone, {defaultSets[k]});
        setList := Kept(setList, {defaultSets[k]});
        gone := gone + {defaultSets[k]};
      }
    }
    assert defaultSets[..|defaultSets|] == defaultSets;
  }

  // The second loop: it stops at the first set that LIKWID refuses.
  method AddEventSets(n: nat, answer: nat -> int) returns (ok: bool, gids: seq<int>)
    ensures ok <==> forall i: nat :: i < n ==> answer(i) >= 0
    ensures ok ==> gids == FirstOf(n, answer)
  {
    gids := [];
    for i := 0 to n
      invariant gids == FirstOf(i, answer) && forall k: nat :: k < i ==> answer(k) >= 0
    {
      var gid := answer(i);
      if gid < 0 { return false, gids; }
      gids := gids + [gid];
    }
    return true, gids;
  }

  class Budget {
    var cycleOverhead: nat
    var setList: seq<string>
    var gids: seq<int>
    const defaultSets: seq<string>

    constructor (defaultSets: seq<string>)
      ensures this.defaultSets == defaultSets && setList == [] && gids == [] && cycleOverhead == 1000
    {
      this.defaultSets, setList, gids, cycleOverhead := defaultSets, [], [], 1000;
    }

    // `groups` are the sets LIKWID offers, `answer(i)` is its answer to the i-th set added.
    method PrepareMeasurements(initialized: bool, groups: seq<string>, answer: nat -> int) returns (ok: bool)
      modifies this`setList, this`gids
      ensures ok <==> Prepared(defaultSets, initialized, groups, answer)
      ensures ok ==> forall x :: x in setList <==> x in defaultSets && x in groups
      ensures ok ==> setList == Measured(defaultSets, groups) && gids == old(gids) + FirstOf(|setList|, answer)
    {
      if !initialized { return false; }
      setList := SelectSets(defaultSets, groups);
      if |setList| < 1 { return false; }
      var added;
      ok, added := AddEventSets(|setList|, answer);
      gids := gids + added;
    }

    // `samples` are the measured overheads: two per set and one for collecting the results.
    // `failsAt` is the set at which LIKWID fails, when setting up and starting its counters or,
    // with `failsLate`, when stopping them; `stopsAt` is the set at which termination is seen.
    // `sleeps` are the planned sleeps, one per measured set.
    method MeasureSets(timeLeft: nat, samples: seq<nat>, failsAt: nat, failsLate: bool, stopsAt: nat)
      returns (r: Outcome, sleeps: seq<int>)
      requires |samples| == 2 * |gids| + 1
      modifies this`cycleOverhead
      ensures r == Fault <==> |gids| == 0 && old(cycleOverhead) <= timeLeft
      ensures r == Error <==> old(cycleOverhead) > timeLeft || (failsAt < |gids| && failsAt < stopsAt)
      // never more than the time left, and less than a millisecond wasted per set
      ensures old(cycleOverhead) <= timeLeft ==> old(cycleOverhead) + Sum(sleeps) <= timeLeft
      ensures |gids| > 0 && old(cycleOverhead) <= timeLeft && failsAt >= |gids| && stopsAt >= |gids| ==>
        |sleeps| == |gids| && timeLeft - |gids| < old(cycleOverhead) + Sum(sleeps)
        && cycleOverhead == NextPrediction(old(cycleOverhead), Total(samples))
      ensures forall i, j :: 0 <= i < |sleeps| && 0 <= j < |sleeps| ==> sleeps[i] == sleeps[j]
      ensures |gids| == 0 || old(cycleOverhead) > timeLeft || failsAt < |gids| || stopsAt < |gids| ==>
        cycleOverhead == old(cycleOverhead)
    {
      sleeps := [];
      if cycleOverhead > timeLeft { return Error, []; }
      var available := timeLeft - cycleOverhead;
      if |gids| == 0 { return Fault, []; }
      var setTime: nat := available / |gids|;
      PlanBounds(available, |gids|, setTime);
      var overheads: seq<nat> := [];
      ghost var planned := Times(|gids|, setTime);
      for i := 0 to |gids|
        invariant |sleeps| == i && overheads == samples[..2 * i]
        invariant forall k :: 0 <= k < i ==> sleeps[k] == setTime
        invariant Sum(sleeps) == Times(i, setTime) <= planned
        invariant i <= failsAt && i <= stopsAt && cycleOverhead == old(cycleOverhead)
      {
        if stopsAt == i { return Ok, sleeps; }
        if failsAt == i && !failsLate { return Error, sleeps; }
        overheads := overheads + [samples[2 * i]];
        SumAppend(sleeps, setTime);
        sleeps := sleeps + [setTime];
        TimesMonotone(i + 1, |gids|, setTime);
        if failsAt == i { return Error, sleeps; }
        overheads := overheads + [samples[2 * i + 1]];
      }
      overheads := overheads + [samples[2 * |gids|]];
      assert overheads == samples;
      var overhead := Accumulate(overheads);
      cycleOverhead := (cycleOverhead + 3 * (overhead / 1000)) / 4;
      return Ok, sleeps;
    }

    method MeasureCycles(cycles: seq<Cycle>) returns (r: Outcome)
      requires gids != []
      modifies this`cycleOverhead
      ensures r == Cycles(|gids|, old(cycleOverhead), cycles)
    {
      for k := 0 to |cycles|
        invariant Cycles(|gids|, cycleOverhead, cycles[k..]) == Cycles(|gids|, old(cycleOverhead), cycles)
      {
        var c := cycles[k];
        assert cycles[k..][0] == c && cycles[k..][1..] == cycles[k + 1..];
        var sleeps;
        r, sleeps := MeasureSets(c.timeLeft, FirstOf(2 * |gids| + 1, c.sample), c.failsAt, c.failsLate, c.stopsAt);
        if r != Ok || c.stopsAt < |gids| { return r; }
      }
      return Ok;
    }

    // The whole measurement: prepare, then one cycle after the other until one fails or terminate
    // is seen, at the latest after the given cycles.
    method Measure(initialized: bool, groups: seq<string>, answer: nat -> int, cycles: seq<Cycle>)
      returns (r: Outcome)
      requires gids == []
      modifies this
      ensures r == if !Prepared(defaultSets, initialized, groups, answer) then Error
                   else Cycles(|Measured(defaultSets, groups)|, old(cycleOverhead), cycles)
      ensures r != Fault
    {
      var ok := PrepareMeasurements(initialized, groups, answer);
      if !ok { return Error; }
      r := MeasureCycles(cycles);
    }
  }

  // What a cycle meets: the time granted, the overhead samples, and where LIKWID fails or
  // termination is seen.
  datatype Cycle = Cycle(timeLeft: nat, sample: nat -> nat, failsAt: nat, failsLate: bool, stopsAt: nat)

  function CycleMicros(sets: nat, c: Cycle): nat {
    Total(FirstOf(2 * sets + 1, c.sample))
  }

  // How a measurement over the given cycles ends.
  function Cycles(sets: nat, overhead: nat, cycles: seq<Cycle>): (r: Outcome)
    ensures r != Fault
    decreases cycles
  {
    if cycles == [] then Ok
    else
      var c := cycles[0];
      if overhead > c.timeLeft || (c.failsAt < sets && c.failsAt < c.stopsAt) then Error
      else if c.stopsAt < sets then Ok
      else Cycles(sets, NextPrediction(overhead, CycleMicros(sets, c)), cycles[1..])
  }

  function Times(n: nat, t: nat): nat {
    if n == 0 then 0 else Times(n - 1, t) + t
  }

  lemma {:induction false} TimesIsProduct(n: nat, t: nat)
    ensures Times(n, t) == n * t
  {
    if n > 0 {
      TimesIsProduct(n - 1, t);
      assert n * t == (n - 1) * t + t;
    }
  }

  lemma {:induction false} TimesMonotone(i: nat, n: nat, t: nat)
    requires i <= n
    ensures Times(i, t) <= Times(n, t)
  {
    if i < n { TimesMonotone(i, n - 1, t); }
  }

  lemma PlanBounds(a: nat, n: nat, t: nat)
    requires n > 0 && t == a / n
    ensures Times(n, t) <= a < Times(n, t) + n
  {
    TimesIsProduct(n, t);
  }

  function Total(xs: seq<nat>): nat {
    if xs == [] then 0 else xs[0] + Total(xs[1..])
  }

  lemma {:induction false} TotalOfParts(xs: seq<nat>, ys: seq<nat>, x: nat)
    ensures Total(xs + ys) == Total(xs) + Total(ys) && Total([x]) == x
  {
    if xs == [] {
      assert xs + ys == ys;
    } else {
      assert (xs + ys)[1..] == xs[1..] + ys;
      TotalOfParts(xs[1..], ys, x);
    }
  }

  method Accumulate(xs: seq<nat>) returns (sum: nat)
    ensures sum == Total(xs)
  {
    sum := 0;
    for i := 0 to |xs|
      invariant sum + Total(xs[i..]) == Total(xs)
    {
      sum := sum + xs[i];
    }
  }

  // The prediction moves from its old value towards the new sample and never past either.
  lemma PredictionStaysBetween(before: nat, sampleMicros: nat)
    ensures var x := sampleMicros / 1000;
      if before <= x then before <= NextPrediction(before, sampleMicros) <= x
      else x <= NextPrediction(before, sampleMicros) <= before
  {
  }

  // The prediction after n cycles that each cost x milliseconds.
  function Predicted(before: nat, x: nat, n: nat): nat {
    if n == 0 then before else NextPrediction(Predicted(before, x, n - 1), x * 1000)
  }

  // Under a constant cost the prediction settles: on the cost when it starts at or above it, one
  // millisecond below otherwise, after at most as many cycles as it is milliseconds off.
  lemma PredictionSettles(before: nat, x: nat, n: nat)
    requires n >= if before >= x then before - x else x - before
    ensures Predicted(before, x, n) == if before >= x then x else x - 1
  {
    PredictionCloses(before, x, n);
  }

  lemma {:induction false} PredictionCloses(before: nat, x: nat, n: nat)
    ensures var p := Predicted(before, x, n);
      if before >= x then x <= p <= if before - n > x then before - n else x
      else x > p >= if before + n < x - 1 then before + n else x - 1
  {
    if n > 0 {
      PredictionCloses(before, x, n - 1);
      assert x * 1000 / 1000 == x;
    }
  }

  // If the real overhead of a cycle is at most the prediction, the cycle ends within the time left.
  lemma CycleEndsInTime(timeLeft: nat, predicted: nat, sleeps: seq<int>, actualMicros: nat)
    requires predicted + Sum(sleeps) <= timeLeft && actualMicros <= predicted * 1000
    ensures Sum(sleeps) * 1000 + actualMicros <= timeLeft * 1000
  {
  }

  // LIKWID answers in each cycle, and nobody terminates.
  predicate Undisturbed(sets: nat, cycles: seq<Cycle>) {
    forall k :: 0 <= k < |cycles| ==> cycles[k].failsAt >= sets && cycles[k].stopsAt >= sets
  }

  // A collector keeps measuring as long as no cycle costs more than one millisecond above what
  // every interval grants.
  lemma {:induction false} AffordableCyclesGoOn(sets: nat, overhead: nat, cycles: seq<Cycle>, granted: nat)
    requires Undisturbed(sets, cycles) && overhead <= granted
    requires forall k :: 0 <= k < |cycles| ==>
      cycles[k].timeLeft >= granted && CycleMicros(sets, cycles[k]) / 1000 <= granted + 1
    ensures Cycles(sets, overhead, cycles) == Ok
    decreases cycles
  {
    if cycles != [] {
      AffordableCyclesGoOn(sets, NextPrediction(overhead, CycleMicros(sets, cycles[0])), cycles[1..], granted);
    }
  }

  // Every cycle costs x milliseconds and is granted the same time.
  predicate Steady(sets: nat, cycles: seq<Cycle>, x: nat, granted: nat) {
    Undisturbed(sets, cycles)
    && forall k :: 0 <= k < |cycles| ==>
         cycles[k].timeLeft == granted && CycleMicros(sets, cycles[k]) / 1000 == x
  }

  // Under a constant cost the collector measures on exactly when the cost is at most one
  // millisecond above the time granted: the truncating prediction settles below the cost.
  lemma {:induction false} SteadyCyclesGoOnIff(sets: nat, overhead: nat, cycles: seq<Cycle>, x: nat, granted: nat)
    requires Steady(sets, cycles, x, granted) && overhead <= granted && |cycles| >= granted - overhead + 2
    ensures Cycles(sets, overhead, cycles) == if x <= granted + 1 then Ok else Error
    decreases cycles
  {
    if x <= granted + 1 {
      AffordableCyclesGoOn(sets, overhead, cycles, granted);
    } else {
      var next := NextPrediction(overhead, CycleMicros(sets, cycles[0]));
      assert overhead < next;
      if next <= granted { SteadyCyclesGoOnIff(sets, next, cycles[1..], x, granted); }
    }
  }
}
