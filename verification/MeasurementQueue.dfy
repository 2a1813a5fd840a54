// The queue between collectors and the database writer: its lock regions as methods, and the
// wake-up protocol around them as steps of a state machine.
module MeasurementQueue {

  datatype Value = Int64(i: int) | Double(r: real)
  datatype Ilp = Ilp(measurement: string, tags: map<string, string>, value: Value, ts: int)

  function Ints(rows: seq<Ilp>): (r: seq<Ilp>)
    ensures forall x :: x in r ==> x.value.Int64?
  {
    if rows == [] then []
    else if rows[0].value.Int64? then [rows[0]] + Ints(rows[1..]) else Ints(rows[1..])
  }

  function Doubles(rows: seq<Ilp>): (r: seq<Ilp>)
    ensures forall x :: x in r ==> x.value.Double?
  {
    if rows == [] then []
    else if rows[0].value.Double? then [rows[0]] + Doubles(rows[1..]) else Doubles(rows[1..])
  }

  lemma {:induction false} IntsDistribute(a: seq<Ilp>, b: seq<Ilp>)
    ensures Ints(a + b) == Ints(a) + Ints(b)
  {
    if a == [] {
      assert a + b == b;
    } else {
      assert (a + b)[1..] == a[1..] + b && (a + b)[0] == a[0];
      IntsDistribute(a[1..], b);
    }
  }

  lemma {:induction false} DoublesDistribute(a: seq<Ilp>, b: seq<Ilp>)
    ensures Doubles(a + b) == Doubles(a) + Doubles(b)
  {
    if a == [] {
      assert a + b == b;
    } else {
      assert (a + b)[1..] == a[1..] + b && (a + b)[0] == a[0];
      DoublesDistribute(a[1..], b);
    }
  }

  lemma SplitDistributes(a: seq<Ilp>, b: seq<Ilp>)
    ensures Ints(a + b) == Ints(a) + Ints(b)
    ensures Doubles(a + b) == Doubles(a) + Doubles(b)
  {
    IntsDistribute(a, b);
    DoublesDistribute(a, b);
  }

  lemma {:induction false} SplitLosesNothing(rows: seq<Ilp>)
    ensures multiset(rows) == multiset(Ints(rows)) + multiset(Doubles(rows))
  {
    if rows != [] {
      SplitLosesNothing(rows[1..]);
      assert rows == [rows[0]] + rows[1..];
    }
  }

  lemma {:induction false} SplitOfPure(rows: seq<Ilp>)
    ensures (forall x :: x in rows ==> x.value.Int64?) ==> Ints(rows) == rows && Doubles(rows) == []
    ensures (forall x :: x in rows ==> x.value.Double?) ==> Doubles(rows) == rows && Ints(rows) == []
  {
    if rows != [] {
      assert rows == [rows[0]] + rows[1..];
      SplitOfPure(rows[1..]);
    }
  }

  // ----- the lock regions -----

  class CQueue {
    var dataQueue: seq<Ilp>

    constructor ()
      ensures dataQueue == []
    {
      dataQueue := [];
    }

    // The result tells the producer to notify once the lock is released.
    method PushMultiple(items: seq<Ilp>) returns (wasEmpty: bool)
      modifies this
      ensures dataQueue == old(dataQueue) + items
      ensures wasEmpty <==> old(dataQueue) == []
      // the lock region is the protocol's step, and the result says whether a notify is owed
      ensures forall s: Protocol, p: nat :: s.queue == old(dataQueue) && Enabled(s, Push(p, items)) ==>
        Apply(s, Push(p, items)) == s.(queue := dataQueue, owing := if wasEmpty then s.owing + {p} else s.owing)
    {
      wasEmpty := dataQueue == [];
      for k := 0 to |items|
        invariant dataQueue == old(dataQueue) + items[..k]
      {
        dataQueue := dataQueue + [items[k]];
      }
    }

    method PopFront() returns (entry: Ilp)
      requires dataQueue != []
      modifies this
      ensures [entry] + dataQueue == old(dataQueue)
    {
      entry := dataQueue[0];
      dataQueue := dataQueue[1..];
    }

    // Everything queued, split by value type, in queue order.
    method PopAll() returns (ints: seq<Ilp>, doubles: seq<Ilp>)
      modifies this
      ensures dataQueue == []
      ensures ints == Ints(old(dataQueue)) && doubles == Doubles(old(dataQueue))
      ensures forall s: Protocol, c: nat :: s.queue == old(dataQueue) && Enabled(s, Resume(c)) ==>
        Apply(s, Resume(c)) == s.(queue := dataQueue, woken := s.woken - {c})
    {
      ints, doubles := [], [];
      while dataQueue != []
        invariant ints + Ints(dataQueue) == Ints(old(dataQueue))
        invariant doubles + Doubles(dataQueue) == Doubles(old(dataQueue))
        decreases |dataQueue|
      {
        var entry := PopFront();
        match entry.value {
          case Int64(_) => ints := ints + [entry];
          case Double(_) => doubles := doubles + [entry];
        }
      }
    }

    method DropData()
      modifies this
      ensures dataQueue == []
      ensures forall s: Protocol :: s.queue == old(dataQueue) ==> Apply(s, Drop) == s.(queue := dataQueue)
    {
      dataQueue := [];
    }

    method HasData() returns (b: bool)
      ensures b <==> dataQueue != []
    {
      b := dataQueue != [];
    }
  }

  // ----- the wake-up protocol -----

  // `owing`: producers that pushed onto an empty queue, released the lock and have not notified
  // yet. `blocked`: consumers inside the wait. `woken`: consumers out of the wait that have yet
  // to take the lock again.
  datatype Protocol = Protocol(queue: seq<Ilp>, owing: set<nat>, blocked: set<nat>, woken: set<nat>)

  datatype Step =
    | Push(producer: nat, items: seq<Ilp>)
    | Notify(producer: nat, target: Option<nat>)
    | Drop
    | Check(consumer: nat)      // waitAndPopAll takes the lock and finds the queue empty or not
    | CheckOne(consumer: nat)   // the same for waitAndPop
    | Timeout(consumer: nat)    // the wait reports the deadline as passed, even if a notify came first
    | Spurious(consumer: nat)
    | Resume(consumer: nat)     // waitAndPopAll has the lock back after the wait
    | ResumeOne(consumer: nat)  // the same for waitAndPop

  datatype Option<T> = None | Some(value: T)

  predicate Enabled(s: Protocol, step: Step) {
    match step
    case Push(p, items) => p !in s.owing
    case Notify(p, target) =>
      p in s.owing && (if s.blocked == {} then target == None else target.Some? && target.value in s.blocked)
    case Drop => true
    case Check(c) => c !in s.blocked && c !in s.woken
    case CheckOne(c) => c !in s.blocked && c !in s.woken
    case Timeout(c) => c in s.blocked || c in s.woken
    case Spurious(c) => c in s.blocked
    case Resume(c) => c in s.woken
    case ResumeOne(c) => c in s.woken && s.queue != []
  }

  function Apply(s: Protocol, step: Step): Protocol
    requires Enabled(s, step)
  {
    match step
    case Push(p, items) =>
      s.(queue := s.queue + items, owing := if s.queue == [] then s.owing + {p} else s.owing)
    case Notify(p, target) =>
      if target.None? then s.(owing := s.owing - {p})
      else s.(owing := s.owing - {p}, blocked := s.blocked - {target.value}, woken := s.woken + {target.value})
    case Drop => s.(queue := [])
    case Check(c) => if s.queue == [] then s.(blocked := s.blocked + {c}) else s.(queue := [])
    case CheckOne(c) => if s.queue == [] then s.(blocked := s.blocked + {c}) else s.(queue := s.queue[1..])
    case Timeout(c) => s.(blocked := s.blocked - {c}, woken := s.woken - {c})
    case Spurious(c) => s.(blocked := s.blocked - {c}, woken := s.woken + {c})
    case Resume(c) => s.(queue := [], woken := s.woken - {c})
    case ResumeOne(c) => s.(queue := s.queue[1..], woken := s.woken - {c})
  }

  const INITIAL := Protocol([], {}, {}, {})

  ghost predicate Executes(s: Protocol, steps: seq<Step>, t: Protocol)
    decreases |steps|
  {
    if steps == [] then s == t
    else Enabled(s, steps[0]) && Executes(Apply(s, steps[0]), steps[1..], t)
  }

  predicate ConsumerIs(step: Step, c: nat) {
    match step
    case Check(d) => d == c
    case CheckOne(d) => d == c
    case Timeout(d) => d == c
    case Spurious(d) => d == c
    case Resume(d) => d == c
    case ResumeOne(d) => d == c
    case _ => true
  }

  // A blocked consumer facing a non-empty queue is about to be notified.
  predicate NoLostWakeup(s: Protocol) {
    s.blocked != {} && s.queue != [] ==> s.owing != {}
  }

  predicate OneConsumer(s: Protocol, c: nat) {
    s.blocked <= {c} && s.woken <= {c} && s.blocked !! s.woken
  }

  lemma StepKeepsWakeups(s: Protocol, step: Step, c: nat)
    requires Enabled(s, step) && ConsumerIs(step, c)
    requires NoLostWakeup(s) && OneConsumer(s, c)
    ensures NoLostWakeup(Apply(s, step)) && OneConsumer(Apply(s, step), c)
  {
    var t := Apply(s, step);
    match step
    case Push(p, items) => if s.queue == [] { assert p in t.owing; }
    case Notify(p, target) => assert t.blocked == {};
    case Timeout(_) => assert t.blocked == {};
    case Spurious(_) => assert t.blocked == {};
    case _ =>
  }

  // With a single consumer and any number of producers, under every interleaving with timeouts
  // before and after a notify and with spurious wake-ups, no wake-up is lost.
  lemma {:induction false} SingleConsumerNeverLosesWakeups(s: Protocol, steps: seq<Step>, t: Protocol, c: nat)
    requires Executes(s, steps, t) && forall k :: 0 <= k < |steps| ==> ConsumerIs(steps[k], c)
    requires NoLostWakeup(s) && OneConsumer(s, c)
    ensures NoLostWakeup(t) && OneConsumer(t, c)
    decreases |steps|
  {
    if steps != [] {
      assert ConsumerIs(steps[0], c);
      StepKeepsWakeups(s, steps[0], c);
      SingleConsumerNeverLosesWakeups(Apply(s, steps[0]), steps[1..], t, c);
    }
  }

  // The owed notification reaches the blocked consumer. Its next lock region empties the queue, or
  // else reports a timeout after all, and then the queue is emptied by the call after that.
  lemma OwedNotifyDelivers(s: Protocol, c: nat) returns (p: nat)
    requires NoLostWakeup(s) && OneConsumer(s, c) && c in s.blocked && s.queue != []
    ensures Enabled(s, Notify(p, Some(c)))
    ensures var w := Apply(s, Notify(p, Some(c)));
      w.queue == s.queue && w.blocked == {} && Enabled(w, Resume(c))
      && Apply(w, Resume(c)).queue == [] && Apply(w, Resume(c)).woken == {}
    ensures var w := Apply(Apply(s, Notify(p, Some(c))), Timeout(c));
      w.queue == s.queue && Enabled(w, Check(c))
      && Apply(w, Check(c)).queue == [] && Apply(w, Check(c)).blocked == {}
  {
    p :| p in s.owing;
    assert s.blocked == {c};
    assert s.woken == {};
  }

  // With two consumers the claim is false: the second producer finds the queue non-empty, owes
  // nothing, and the second consumer stays blocked in front of its entry.
  lemma TwoConsumersCanLoseAWakeup(a: Ilp, b: Ilp) returns (steps: seq<Step>, t: Protocol)
    ensures Executes(INITIAL, steps, t) && !NoLostWakeup(t)
    ensures t == Protocol([b], {}, {1}, {})
  {
    var s1 := Apply(INITIAL, CheckOne(0));
    var s2 := Apply(s1, CheckOne(1));
    var s3 := Apply(s2, Push(10, [a]));
    var s4 := Apply(s3, Push(11, [b]));
    var s5 := Apply(s4, Notify(10, Some(0)));
    t := Apply(s5, ResumeOne(0));
    steps := [ResumeOne(0)];
    assert Executes(s5, steps, t) by { assert steps[1..] == []; }
    steps := [Notify(10, Some(0))] + steps;
    assert Executes(s4, steps, t) by { assert steps[1..] == [ResumeOne(0)]; }
    var r3 := steps;
    steps := [Push(11, [b])] + r3;
    assert Executes(s3, steps, t) by { assert steps[1..] == r3; }
    var r2 := steps;
    steps := [Push(10, [a])] + r2;
    assert Executes(s2, steps, t) by { assert steps[1..] == r2; }
    var r1 := steps;
    steps := [CheckOne(1)] + r1;
    assert Executes(s1, steps, t) by { assert steps[1..] == r1; }
    var r0 := steps;
    steps := [CheckOne(0)] + r0;
    assert Executes(INITIAL, steps, t) by { assert steps[1..] == r0; }
    assert t.queue == [b] && t.blocked == {1} && t.owing == {} && t.woken == {};
  }
}
