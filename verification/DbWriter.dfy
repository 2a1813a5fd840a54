// The thread that moves queued rows into the database: its loop body as a method, and the whole
// loop, interleaved with any number of producers, as a state machine.
module DbWriter {
  import opened MeasurementQueue

  const BUFFER_SIZE := 1000
  const WRITER: nat := 0

  // Row buffer of the sender; `flushed` are the rows the sender has accepted so far.
  class Sink {
    var buffer: seq<Ilp>
    var bufferSize: int
    var flushed: seq<Ilp>

    constructor ()
      ensures buffer == [] && bufferSize == 0 && flushed == []
    {
      buffer, bufferSize, flushed := [], 0, [];
    }

    // `accepted` is the sender's answer should a flush be due. A failed flush leaves the loop.
    method Store(ints: seq<Ilp>, doubles: seq<Ilp>, accepted: bool) returns (ok: bool)
      requires bufferSize == |buffer|
      modifies this
      ensures ok <==> (accepted || |old(buffer)| + |ints| + |doubles| < BUFFER_SIZE)
      ensures flushed + buffer == old(flushed + buffer) + ints + doubles
      ensures ok ==> bufferSize == |buffer| < BUFFER_SIZE
      ensures ok && |old(buffer)| + |ints| + |doubles| >= BUFFER_SIZE ==> buffer == []
      ensures !ok || |old(buffer)| + |ints| + |doubles| < BUFFER_SIZE ==> flushed == old(flushed)
      // the loop body after the pop is the state machine's move
      ensures forall s: System :: Popped(s, ints, doubles, old(buffer), old(bufferSize), old(flushed)) ==>
        Stored(MoveOn(s, Buffer(accepted)), buffer, bufferSize, flushed, ok)
    {
      for k := 0 to |ints|
        invariant buffer == old(buffer) + ints[..k] && flushed == old(flushed) && bufferSize == old(bufferSize)
      {
        buffer := buffer + [ints[k]];
      }
      for k := 0 to |doubles|
        invariant buffer == old(buffer) + ints + doubles[..k]
        invariant flushed == old(flushed) && bufferSize == old(bufferSize)
      {
        buffer := buffer + [doubles[k]];
      }
      bufferSize := bufferSize + |ints| + |doubles|;
      if bufferSize >= BUFFER_SIZE {
        if !accepted { return false; }
        flushed := flushed + buffer;
        buffer := [];
        bufferSize := 0;
      }
      return true;
    }
  }

  datatype Pc =
    | Top                                             // about to test `canceled`
    | InQueue                                         // inside waitAndPopAll
    | Holding(ints: seq<Ilp>, doubles: seq<Ilp>)      // popped, not buffered yet
    | Done
    | Failed

  // `pushed` and `dropped` record everything ever put into the queue and thrown away by a drop.
  datatype System = System(
    proto: Protocol, pc: Pc, buffer: seq<Ilp>, bufferSize: int, flushed: seq<Ilp>,
    canceled: bool, pushed: seq<Ilp>, dropped: seq<Ilp>)

  datatype Move =
    | Produce(producer: nat, items: seq<Ilp>)
    | SendNotify(producer: nat, target: Option<nat>)
    | DropQueue
    | Cancel
    | Enter                    // loop test passed, first lock region of waitAndPopAll
    | WakeUp(timedOut: bool)   // the wait ends with a timeout, or without any reason
    | Pop                      // second lock region of waitAndPopAll
    | Buffer(accepted: bool)   // the rest of the loop body
    | Leave(accepted: bool)    // loop test failed, final flush

  predicate CanMove(s: System, m: Move) {
    match m
    case Produce(p, items) => Enabled(s.proto, Push(p, items))
    case SendNotify(p, target) => Enabled(s.proto, Notify(p, target))
    case DropQueue => true
    case Cancel => true
    case Enter => s.pc.Top? && !s.canceled && Enabled(s.proto, Check(WRITER))
    case WakeUp(timedOut) =>
      s.pc.InQueue? && (WRITER in s.proto.blocked || (timedOut && WRITER in s.proto.woken))
    case Pop => s.pc.InQueue? && WRITER in s.proto.woken
    case Buffer(_) => s.pc.Holding?
    case Leave(_) => s.pc.Top? && s.canceled
  }

  function MoveOn(s: System, m: Move): System
    requires CanMove(s, m)
  {
    match m
    case Produce(p, items) => s.(proto := Apply(s.proto, Push(p, items)), pushed := s.pushed + items)
    case SendNotify(p, target) => s.(proto := Apply(s.proto, Notify(p, target)))
    case DropQueue => s.(proto := Apply(s.proto, Drop), dropped := s.dropped + s.proto.queue)
    case Cancel => s.(canceled := true)
    case Enter =>
      s.(proto := Apply(s.proto, Check(WRITER)),
         pc := if s.proto.queue == [] then InQueue else Holding(Ints(s.proto.queue), Doubles(s.proto.queue)))
    case WakeUp(timedOut) =>
      if timedOut then s.(proto := Apply(s.proto, Timeout(WRITER)), pc := Top)
      else s.(proto := Apply(s.proto, Spurious(WRITER)))
    case Pop =>
      s.(proto := Apply(s.proto, Resume(WRITER)), pc := Holding(Ints(s.proto.queue), Doubles(s.proto.queue)))
    case Buffer(accepted) =>
      var rows := s.buffer + s.pc.ints + s.pc.doubles;
      var size := s.bufferSize + |s.pc.ints| + |s.pc.doubles|;
      if size < BUFFER_SIZE then s.(buffer := rows, bufferSize := size, pc := Top)
      else if accepted then s.(buffer := [], bufferSize := 0, flushed := s.flushed + rows, pc := Top)
      else s.(buffer := rows, bufferSize := size, pc := Failed, canceled := true)
    case Leave(accepted) =>
      if s.bufferSize <= 0 then s.(pc := Done)
      else if accepted then s.(buffer := [], flushed := s.flushed + s.buffer, pc := Done)
      else s.(pc := Failed, canceled := true)
  }

  predicate Popped(s: System, ints: seq<Ilp>, doubles: seq<Ilp>, buffer: seq<Ilp>, bufferSize: int, flushed: seq<Ilp>) {
    s.pc == Holding(ints, doubles) && s.buffer == buffer && s.bufferSize == bufferSize && s.flushed == flushed
  }

  predicate Stored(t: System, buffer: seq<Ilp>, bufferSize: int, flushed: seq<Ilp>, ok: bool) {
    t.buffer == buffer && t.bufferSize == bufferSize && t.flushed == flushed
    && t.pc == (if ok then Top else Failed)
  }

  const START := System(INITIAL, Top, [], 0, [], false, [], [])

  ghost predicate Runs(s: System, moves: seq<Move>, t: System)
    decreases |moves|
  {
    if moves == [] then s == t
    else CanMove(s, moves[0]) && Runs(MoveOn(s, moves[0]), moves[1..], t)
  }

  function InHand(s: System): seq<Ilp> {
    if s.pc.Holding? then s.pc.ints + s.pc.doubles else []
  }

  // All rows the system still knows of, from the oldest on.
  function Tracked(s: System): seq<Ilp> {
    s.flushed + s.buffer + InHand(s) + s.proto.queue
  }

  // Nothing lost or duplicated; without drops, the order within each value type is kept too.
  predicate Accounts(pushed: seq<Ilp>, tracked: seq<Ilp>, dropped: seq<Ilp>) {
    multiset(pushed) == multiset(tracked) + multiset(dropped)
    && (dropped == [] ==> Ints(pushed) == Ints(tracked) && Doubles(pushed) == Doubles(tracked))
  }

  predicate Conserved(s: System) {
    Accounts(s.pushed, Tracked(s), s.dropped)
  }

  predicate Counted(s: System) {
    && (!s.pc.Done? && !s.pc.Failed? ==> s.bufferSize == |s.buffer| < BUFFER_SIZE)
    && (s.pc.Done? ==> s.buffer == [])
    && (s.pc.Holding? ==> (forall x :: x in s.pc.ints ==> x.value.Int64?)
                          && forall x :: x in s.pc.doubles ==> x.value.Double?)
  }

  predicate Waiting(s: System) {
    NoLostWakeup(s.proto) && OneConsumer(s.proto, WRITER)
    && (s.proto.blocked != {} || s.proto.woken != {} <==> s.pc.InQueue?)
  }

  predicate Inv(s: System) {
    Conserved(s) && Counted(s) && Waiting(s)
  }

  lemma MoveKeepsWaiting(s: System, m: Move)
    requires Waiting(s) && CanMove(s, m)
    ensures Waiting(MoveOn(s, m))
  {
    match m
    case Produce(p, items) => StepKeepsWakeups(s.proto, Push(p, items), WRITER);
    case SendNotify(p, target) => StepKeepsWakeups(s.proto, Notify(p, target), WRITER);
    case DropQueue => StepKeepsWakeups(s.proto, Drop, WRITER);
    case Enter =>
      StepKeepsWakeups(s.proto, Check(WRITER), WRITER);
      if s.proto.queue == [] { assert WRITER in MoveOn(s, m).proto.blocked; }
    case WakeUp(timedOut) =>
      StepKeepsWakeups(s.proto, if timedOut then Timeout(WRITER) else Spurious(WRITER), WRITER);
      if !timedOut { assert WRITER in MoveOn(s, m).proto.woken; }
    case Pop =>
      StepKeepsWakeups(s.proto, Resume(WRITER), WRITER);
      assert s.proto.woken == {WRITER};
    case _ =>
  }

  lemma SplitTwice(queue: seq<Ilp>)
    ensures multiset(Ints(queue) + Doubles(queue)) == multiset(queue)
    ensures Ints(Ints(queue) + Doubles(queue)) == Ints(queue)
    ensures Doubles(Ints(queue) + Doubles(queue)) == Doubles(queue)
  {
    SplitLosesNothing(queue);
    SplitDistributes(Ints(queue), Doubles(queue));
    SplitOfPure(Ints(queue));
    SplitOfPure(Doubles(queue));
    assert Ints(queue) + [] == Ints(queue) && [] + Doubles(queue) == Doubles(queue);
  }

  // Popping splits the queue by type; within a type the order stays.
  lemma AccountsAfterPop(pushed: seq<Ilp>, front: seq<Ilp>, queue: seq<Ilp>, dropped: seq<Ilp>)
    requires Accounts(pushed, front + queue, dropped)
    ensures Accounts(pushed, front + (Ints(queue) + Doubles(queue)), dropped)
  {
    SplitTwice(queue);
    SplitDistributes(front, queue);
    SplitDistributes(front, Ints(queue) + Doubles(queue));
  }

  lemma AccountsAfterPush(pushed: seq<Ilp>, tracked: seq<Ilp>, dropped: seq<Ilp>, items: seq<Ilp>)
    requires Accounts(pushed, tracked, dropped)
    ensures Accounts(pushed + items, tracked + items, dropped)
  {
    SplitDistributes(pushed, items);
    SplitDistributes(tracked, items);
  }

  lemma AccountsAfterDrop(pushed: seq<Ilp>, front: seq<Ilp>, dropped: seq<Ilp>, queue: seq<Ilp>)
    requires Accounts(pushed, front + queue, dropped)
    ensures Accounts(pushed, front, dropped + queue)
  {
    if dropped + queue == [] {
      assert front + queue == front;
    }
  }

  lemma ProduceKeepsConserved(s: System, m: Move)
    requires Conserved(s) && CanMove(s, m) && m.Produce?
    ensures Conserved(MoveOn(s, m))
  {
    AccountsAfterPush(s.pushed, Tracked(s), s.dropped, m.items);
    assert Tracked(MoveOn(s, m)) == Tracked(s) + m.items;
  }

  lemma DropKeepsConserved(s: System, m: Move)
    requires Conserved(s) && CanMove(s, m) && m.DropQueue?
    ensures Conserved(MoveOn(s, m))
  {
    var front := s.flushed + s.buffer + InHand(s);
    AccountsAfterDrop(s.pushed, front, s.dropped, s.proto.queue);
    assert Tracked(MoveOn(s, m)) == front;
  }

  // What both ways of taking the queue do: the rows go into the writer's hand, split by type.
  predicate Takes(s: System, t: System) {
    && !s.pc.Holding? && t.pc == Holding(Ints(s.proto.queue), Doubles(s.proto.queue)) && t.proto.queue == []
    && t.flushed == s.flushed && t.buffer == s.buffer && t.pushed == s.pushed && t.dropped == s.dropped
  }

  lemma PopTakes(s: System)
    requires CanMove(s, Pop)
    ensures Takes(s, MoveOn(s, Pop))
  {
  }

  lemma EnterTakes(s: System)
    requires CanMove(s, Enter) && s.proto.queue != []
    ensures Takes(s, MoveOn(s, Enter))
  {
  }

  lemma TakingKeepsConserved(s: System, t: System)
    requires Conserved(s) && Takes(s, t)
    ensures Conserved(t)
  {
    var front := s.flushed + s.buffer;
    assert InHand(s) == [] && Tracked(s) == front + s.proto.queue;
    AccountsAfterPop(s.pushed, front, s.proto.queue, s.dropped);
    assert Tracked(t) == front + (Ints(s.proto.queue) + Doubles(s.proto.queue));
  }

  lemma MoveKeepsConserved(s: System, m: Move)
    requires Conserved(s) && Waiting(s) && CanMove(s, m)
    ensures Conserved(MoveOn(s, m))
  {
    if m.Produce? {
      ProduceKeepsConserved(s, m);
    } else if m.DropQueue? {
      DropKeepsConserved(s, m);
    } else if m.Pop? {
      PopTakes(s);
      TakingKeepsConserved(s, MoveOn(s, m));
    } else if m.Enter? && s.proto.queue != [] {
      EnterTakes(s);
      TakingKeepsConserved(s, MoveOn(s, m));
    } else {
      MoveOnlyShifts(s, m);
    }
  }

  lemma BufferingShifts(s: System, accepted: bool)
    requires s.pc.Holding?
    ensures Tracked(MoveOn(s, Buffer(accepted))) == Tracked(s)
  {
    var hand := s.pc.ints + s.pc.doubles;
    assert s.buffer + s.pc.ints + s.pc.doubles == s.buffer + hand;
    assert s.flushed + (s.buffer + hand) == s.flushed + s.buffer + hand;
  }

  lemma LeavingShifts(s: System, accepted: bool)
    requires CanMove(s, Leave(accepted))
    ensures Tracked(MoveOn(s, Leave(accepted))) == Tracked(s)
  {
  }

  // The other moves shift rows between hand, buffer and database without changing their order.
  lemma MoveOnlyShifts(s: System, m: Move)
    requires CanMove(s, m) && !m.Produce? && !m.DropQueue? && !m.Pop?
    requires m.Enter? ==> s.proto.queue == []
    ensures Tracked(MoveOn(s, m)) == Tracked(s)
    ensures MoveOn(s, m).pushed == s.pushed && MoveOn(s, m).dropped == s.dropped
  {
    match m
    case Buffer(accepted) => BufferingShifts(s, accepted);
    case Leave(accepted) => LeavingShifts(s, accepted);
    case _ =>
  }

  lemma MoveKeepsCounted(s: System, m: Move)
    requires Counted(s) && CanMove(s, m)
    ensures Counted(MoveOn(s, m))
  {
  }

  // Every reachable state: nothing lost or duplicated, the counter right, no wake-up lost.
  lemma {:induction false} EveryRunKeepsInv(s: System, moves: seq<Move>, t: System)
    requires Inv(s) && Runs(s, moves, t)
    ensures Inv(t)
    decreases |moves|
  {
    if moves != [] {
      MoveKeepsConserved(s, moves[0]);
      MoveKeepsWaiting(s, moves[0]);
      MoveKeepsCounted(s, moves[0]);
      EveryRunKeepsInv(MoveOn(s, moves[0]), moves[1..], t);
    }
  }

  // When the loop ends without a sender error, the rows pushed are exactly the rows flushed plus
  // those still queued (and those dropped), and without drops the order within a type is kept.
  lemma CleanExitConservesRows(moves: seq<Move>, t: System)
    requires Runs(START, moves, t) && t.pc == Done
    ensures multiset(t.pushed) == multiset(t.flushed) + multiset(t.proto.queue) + multiset(t.dropped)
    ensures t.dropped == [] ==>
      Ints(t.pushed) == Ints(t.flushed) + Ints(t.proto.queue)
      && Doubles(t.pushed) == Doubles(t.flushed) + Doubles(t.proto.queue)
  {
    EveryRunKeepsInv(START, moves, t);
    assert Tracked(t) == t.flushed + t.proto.queue;
    SplitDistributes(t.flushed, t.proto.queue);
  }

  // A sender error loses exactly the rows buffered at that moment.
  lemma FailedExitLosesOnlyTheBuffer(moves: seq<Move>, t: System)
    requires Runs(START, moves, t) && t.pc == Failed
    ensures multiset(t.pushed)
         == multiset(t.flushed) + multiset(t.buffer) + multiset(t.proto.queue) + multiset(t.dropped)
  {
    EveryRunKeepsInv(START, moves, t);
    assert Tracked(t) == t.flushed + t.buffer + t.proto.queue;
  }

  // Once notified, the writer takes all rows queued: by popping them, or if its wait reports a
  // timeout after all, in the next round of the loop unless it was canceled.
  predicate TakesAllWhenNotified(s: System, p: nat)
    requires CanMove(s, SendNotify(p, Some(WRITER)))
  {
    var hand := Holding(Ints(s.proto.queue), Doubles(s.proto.queue));
    var w := MoveOn(s, SendNotify(p, Some(WRITER)));
    && CanMove(w, Pop) && MoveOn(w, Pop).pc == hand
    && CanMove(w, WakeUp(true))
    && (s.canceled || (CanMove(MoveOn(w, WakeUp(true)), Enter) && MoveOn(MoveOn(w, WakeUp(true)), Enter).pc == hand))
  }

  lemma NotifiedWriterTakesAll(s: System, p: nat)
    requires Waiting(s) && s.pc.InQueue? && CanMove(s, SendNotify(p, Some(WRITER))) && s.proto.queue != []
    ensures TakesAllWhenNotified(s, p)
  {
    assert s.proto.blocked == {WRITER} && s.proto.woken == {};
  }

  // The writer never sleeps on a non-empty queue unless a producer is about to notify it.
  lemma WriterIsAlwaysAboutToWake(moves: seq<Move>, t: System)
    requires Runs(START, moves, t) && WRITER in t.proto.blocked && t.proto.queue != []
    ensures exists p :: CanMove(t, SendNotify(p, Some(WRITER)))
    ensures forall p :: CanMove(t, SendNotify(p, Some(WRITER))) ==> TakesAllWhenNotified(t, p)
  {
    EveryRunKeepsInv(START, moves, t);
    assert Waiting(t);
    var p := OwedNotifyDelivers(t.proto, WRITER);
    assert CanMove(t, SendNotify(p, Some(WRITER)));
    forall q | CanMove(t, SendNotify(q, Some(WRITER))) ensures TakesAllWhenNotified(t, q) {
      NotifiedWriterTakesAll(t, q);
    }
  }
}
