// The pool of host pipes: a bounded semaphore, a lock and a list shared by any number of workers.
// The lock regions are methods; the workers' interleavings are a state machine.
module PipePool {

  type Pipe = nat
  type Worker = nat

  // ----- the pool object, one method per lock region or semaphore operation -----

  class Pool {
    var availablePipes: seq<Pipe>
    var permits: int
    const poolSize: nat

    constructor (pipes: seq<Pipe>)
      ensures availablePipes == pipes && poolSize == permits == |pipes|
    {
      availablePipes, permits, poolSize := pipes, |pipes|, |pipes|;
    }

    // False stands for the acquire timing out.
    method Acquire() returns (ok: bool)
      modifies this
      ensures availablePipes == old(availablePipes)
      ensures ok <==> old(permits) > 0
      ensures permits == if ok then old(permits) - 1 else old(permits)
      ensures forall s: State, w: Worker :: s.permits == old(permits) && Enabled(s, GetPermit(w)) ==>
        ok && Apply(s, GetPermit(w)) == Go(s, w, Acquired).(permits := permits)
    {
      ok := permits > 0;
      if ok { permits := permits - 1; }
    }

    method TakePipe() returns (r: Option<Pipe>)
      modifies this
      ensures permits == old(permits)
      ensures r == None <==> old(availablePipes) == []
      ensures availablePipes + (if r.Some? then [r.value] else []) == old(availablePipes)
      // the lock region is the worker's step
      ensures forall s: State, w: Worker :: s.available == old(availablePipes) && Enabled(s, Take(w)) ==>
        Apply(s, Take(w))
        == Go(s, w, if r.Some? then Holding(r.value) else NoPipeDespitePermit).(available := availablePipes)
    {
      if availablePipes == [] { return None; }
      r := Some(availablePipes[|availablePipes| - 1]);
      availablePipes := availablePipes[..|availablePipes| - 1];
    }

    method ReturnPipe(pipe: Pipe)
      modifies this
      ensures permits == old(permits) && availablePipes == old(availablePipes) + [pipe]
      ensures forall s: State, w: Worker ::
        s.available == old(availablePipes) && Enabled(s, PutBack(w)) && s.pcs[w].pipe == pipe ==>
        Apply(s, PutBack(w)) == Go(s, w, Appended(s.pcs[w].outcome)).(available := availablePipes)
    {
      availablePipes := availablePipes + [pipe];
    }

    // False stands for the ValueError of a bounded semaphore released too often.
    method Release() returns (ok: bool)
      modifies this
      ensures availablePipes == old(availablePipes)
      ensures ok <==> old(permits) < poolSize
      ensures permits == if ok then old(permits) + 1 else old(permits)
      ensures forall s: State, w: Worker ::
        s.permits == old(permits) && s.size == poolSize && Enabled(s, ReleasePermit(w)) ==>
        Apply(s, ReleasePermit(w)).permits == permits
        && Apply(s, ReleasePermit(w)).pcs[w] == (if ok then Finished else OverReleased)
    {
      ok := permits < poolSize;
      if ok { permits := permits + 1; }
    }
  }

  datatype Option<T> = None | Some(value: T)

  // How the part of execute_on_host that holds the pipe ends. TestRaised: looking at the pipe fails
  // with an error that is passed on, such as a denied permission.
  datatype Outcome = TestRaised | NotAFifo | Sent | CallTimedOut | CallRaised

  // What execute_on_host hands back: a (code, output) pair or an exception.
  datatype HostResult = Answer(code: int, output: string) | Raised

  method AllocPipe(pool: Pool) returns (r: Option<Pipe>)
    modifies pool
    ensures r.Some? <==> old(pool.permits) > 0 && old(pool.availablePipes) != []
    ensures pool.permits == if old(pool.permits) > 0 then old(pool.permits) - 1 else old(pool.permits)
    ensures pool.availablePipes + (if r.Some? then [r.value] else []) == old(pool.availablePipes)
  {
    var ok := pool.Acquire();
    if !ok { return None; }
    r := pool.TakePipe();
  }

  method FreePipe(pool: Pool, pipe: Pipe) returns (ok: bool)
    modifies pool
    ensures pool.availablePipes == old(pool.availablePipes) + [pipe]
    ensures ok <==> old(pool.permits) < pool.poolSize
    ensures pool.permits == if ok then old(pool.permits) + 1 else old(pool.permits)
  {
    pool.ReturnPipe(pipe);
    ok := pool.Release();
  }

  // One call with nobody else in between. The pool ends up as it began, so a pipe that was
  // allocated is freed exactly once, on every path but one: when the test of the pipe raises, which
  // stands outside the try, the pipe and its permit are lost.
  method ExecuteOnHost(pool: Pool, outcome: Outcome, results: Option<(int, string)>) returns (r: HostResult)
    requires pool.permits == |pool.availablePipes| <= pool.poolSize
    modifies pool
    ensures pool.permits == |pool.availablePipes|
    ensures pool.availablePipes == if outcome.TestRaised? && old(pool.availablePipes) != []
                                   then old(pool.availablePipes[..|pool.availablePipes| - 1])
                                   else old(pool.availablePipes)
    ensures r == if old(pool.availablePipes) == [] || outcome.NotAFifo? || outcome.CallTimedOut? then Answer(-1, "")
                 else if outcome.TestRaised? || outcome.CallRaised? then Raised
                 else if results.None? then Answer(-1, "")
                 else Answer(results.value.0, results.value.1)
  {
    var pipe := AllocPipe(pool);
    if pipe.None? { return Answer(-1, ""); }
    if outcome.TestRaised? { return Raised; }
    var freed;
    if outcome.NotAFifo? {
      freed := FreePipe(pool, pipe.value);
      return Answer(-1, "");
    }
    // the finally clause runs on all three ends of the shell call
    freed := FreePipe(pool, pipe.value);
    if outcome.CallTimedOut? { return Answer(-1, ""); }
    if outcome.CallRaised? { return Raised; }
    if results.None? { return Answer(-1, ""); }
    return Answer(results.value.0, results.value.1);
  }

  // ----- the workers -----

  // Where a worker stands inside execute_on_host. A thread that goes on after an exception of the
  // pipe test counts as a new worker.
  datatype Pc =
    | Waiting                                             // in semaphore.acquire
    | Acquired                                            // has a permit, before the lock region
    | Holding(pipe: Pipe)                                 // alloc_pipe returned the pipe
    | Lost(pipe: Pipe)                                    // left by an exception, pipe and permit in hand
    | Freeing(pipe: Pipe, outcome: Outcome)               // about to enter free_pipe
    | Appended(outcome: Outcome)                          // pipe is back, permit not yet
    | Finished                                            // no permit, no pipe: the rest only reads files
    | NoPipeDespitePermit                                 // the branch logging the inconsistency
    | OverReleased                                        // semaphore.release raised

  datatype State = State(size: nat, permits: int, available: seq<Pipe>, pcs: map<Worker, Pc>)

  datatype Step =
    | Enter(w: Worker)
    | GetPermit(w: Worker)
    | GiveUp(w: Worker)
    | Take(w: Worker)
    | UsePipe(w: Worker, outcome: Outcome)
    | PutBack(w: Worker)
    | ReleasePermit(w: Worker)

  predicate Enabled(s: State, step: Step) {
    match step
    case Enter(w) => w !in s.pcs || s.pcs[w].Finished?
    case GetPermit(w) => w in s.pcs && s.pcs[w].Waiting? && s.permits > 0
    case GiveUp(w) => w in s.pcs && s.pcs[w].Waiting?
    case Take(w) => w in s.pcs && s.pcs[w].Acquired?
    case UsePipe(w, _) => w in s.pcs && s.pcs[w].Holding?
    case PutBack(w) => w in s.pcs && s.pcs[w].Freeing?
    case ReleasePermit(w) => w in s.pcs && s.pcs[w].Appended?
  }

  function Go(s: State, w: Worker, pc: Pc): State {
    s.(pcs := s.pcs[w := pc])
  }

  function Apply(s: State, step: Step): State
    requires Enabled(s, step)
  {
    match step
    case Enter(w) => Go(s, w, Waiting)
    case GetPermit(w) => Go(s, w, Acquired).(permits := s.permits - 1)
    case GiveUp(w) => Go(s, w, Finished)
    case Take(w) =>
      if s.available == [] then Go(s, w, NoPipeDespitePermit)
      else Go(s, w, Holding(s.available[|s.available| - 1])).(available := s.available[..|s.available| - 1])
    case UsePipe(w, outcome) =>
      Go(s, w, if outcome.TestRaised? then Lost(s.pcs[w].pipe) else Freeing(s.pcs[w].pipe, outcome))
    case PutBack(w) => Go(s, w, Appended(s.pcs[w].outcome)).(available := s.available + [s.pcs[w].pipe])
    case ReleasePermit(w) =>
      if s.permits < s.size then Go(s, w, Finished).(permits := s.permits + 1)
      else Go(s, w, OverReleased)
  }

  function Initial(pipes: seq<Pipe>): State {
    State(|pipes|, |pipes|, pipes, map[])
  }

  ghost predicate Executes(s: State, steps: seq<Step>, t: State)
    decreases |steps|
  {
    if steps == [] then s == t
    else Enabled(s, steps[0]) && Executes(Apply(s, steps[0]), steps[1..], t)
  }

  // ----- the invariant -----

  predicate Holds(pc: Pc) { pc.Holding? || pc.Lost? || pc.Freeing? }

  // A permit is out for every worker between acquire and release.
  predicate HasPermit(pc: Pc) { pc.Acquired? || Holds(pc) || pc.Appended? }

  // Which worker holds which pipe.
  ghost function Held(s: State): map<Worker, Pipe> {
    map w | w in s.pcs && Holds(s.pcs[w]) :: s.pcs[w].pipe
  }

  ghost function PermitOwners(s: State): set<Worker> { set w | w in s.pcs && HasPermit(s.pcs[w]) }

  predicate Sane(pc: Pc) { !pc.NoPipeDespitePermit? && !pc.OverReleased? }

  // Every pipe is either listed once or held by one worker, never both.
  ghost predicate Partition(available: seq<Pipe>, held: map<Worker, Pipe>, pipes: seq<Pipe>) {
    && |available| + |held| == |pipes|
    && (forall i, j :: 0 <= i < j < |available| ==> available[i] != available[j])
    && (forall v, w :: v in held && w in held && v != w ==> held[v] != held[w])
    && (forall w :: w in held ==> held[w] !in available)
    && (forall p :: p in pipes <==> p in available || p in held.Values)
  }

  ghost predicate Inv(s: State, pipes: seq<Pipe>) {
    && s.size == |pipes|
    && s.permits >= 0
    && s.permits + |PermitOwners(s)| == s.size
    && Partition(s.available, Held(s), pipes)
    && (forall w :: w in s.pcs ==> Sane(s.pcs[w]))
  }

  lemma PartitionAfterTake(available: seq<Pipe>, held: map<Worker, Pipe>, pipes: seq<Pipe>, w: Worker)
    requires Partition(available, held, pipes) && available != [] && w !in held
    ensures Partition(available[..|available| - 1], held[w := available[|available| - 1]], pipes)
  {
    var rest, pipe := available[..|available| - 1], available[|available| - 1];
    assert available == rest + [pipe];
    var h := held[w := pipe];
    forall p ensures p in pipes <==> p in rest || p in h.Values {
      if p in held.Values {
        var v :| v in held && held[v] == p;
        assert v in h && h[v] == p;
      }
      if p == pipe { assert w in h && h[w] == p; }
    }
  }

  lemma PartitionAfterPutBack(available: seq<Pipe>, held: map<Worker, Pipe>, pipes: seq<Pipe>, w: Worker)
    requires Partition(available, held, pipes) && w in held
    ensures Partition(available + [held[w]], held - {w}, pipes)
  {
    var h := held - {w};
    assert h.Keys == held.Keys - {w};
    forall p ensures p in pipes <==> p in available + [held[w]] || p in h.Values {
      if p in held.Values && p != held[w] {
        var v :| v in held && held[v] == p;
        assert v in h && h[v] == p;
      }
      if p in h.Values {
        var v :| v in h && h[v] == p;
        assert v in held && held[v] == p;
      }
      if p == held[w] { assert p in held.Values; }
    }
  }

  lemma GoMovesOneWorker(s: State, w: Worker, pc: Pc)
    ensures Held(Go(s, w, pc)) == if Holds(pc) then Held(s)[w := pc.pipe] else Held(s) - {w}
    ensures PermitOwners(Go(s, w, pc))
         == if HasPermit(pc) then PermitOwners(s) + {w} else PermitOwners(s) - {w}
  {
  }

  lemma CardinalityMonotone(a: set<Worker>, b: set<Worker>)
    requires a <= b
    ensures |a| <= |b|
  {
    assert b == a + (b - a);
  }

  // A granted permit without a pipe means that the list still has one.
  lemma PermitMeansPipe(s: State, pipes: seq<Pipe>, w: Worker)
    requires Inv(s, pipes) && w in s.pcs && s.pcs[w].Acquired?
    ensures s.available != []
  {
    CardinalityMonotone(Held(s).Keys + {w}, PermitOwners(s));
    assert |Held(s).Keys + {w}| == |Held(s)| + 1;
  }

  lemma HeldAfterStep(s: State, step: Step)
    requires Enabled(s, step) && (step.Take? ==> s.available != [])
    ensures Held(Apply(s, step)) ==
      match step
      case Take(w) => Held(s)[w := s.available[|s.available| - 1]]
      case PutBack(w) => Held(s) - {w}
      case _ => Held(s)
  {
    var w, t := step.w, Apply(s, step);
    GoMovesOneWorker(s, w, t.pcs[w]);
    assert Held(t) == Held(Go(s, w, t.pcs[w]));
  }

  lemma PermitOwnersAfterStep(s: State, step: Step)
    requires Enabled(s, step) && (step.Take? ==> s.available != [])
    requires step.ReleasePermit? ==> s.permits < s.size
    ensures PermitOwners(Apply(s, step)) ==
      match step
      case GetPermit(w) => PermitOwners(s) + {w}
      case ReleasePermit(w) => PermitOwners(s) - {w}
      case _ => PermitOwners(s)
    ensures step.GetPermit? ==> step.w !in PermitOwners(s)
    ensures step.ReleasePermit? ==> step.w in PermitOwners(s)
  {
    var w, t := step.w, Apply(s, step);
    GoMovesOneWorker(s, w, t.pcs[w]);
    assert PermitOwners(t) == PermitOwners(Go(s, w, t.pcs[w]));
  }

  lemma SaneAfterStep(s: State, step: Step)
    requires Enabled(s, step) && (step.Take? ==> s.available != [])
    requires step.ReleasePermit? ==> s.permits < s.size
    requires forall w :: w in s.pcs ==> Sane(s.pcs[w])
    ensures forall w :: w in Apply(s, step).pcs ==> Sane(Apply(s, step).pcs[w])
  {
  }

  // One lemma for each step that moves a pipe, and one for the others.
  lemma PartitionAfterTakeStep(s: State, pipes: seq<Pipe>, w: Worker)
    requires Enabled(s, Take(w)) && s.available != [] && Partition(s.available, Held(s), pipes)
    ensures Partition(Apply(s, Take(w)).available, Held(Apply(s, Take(w))), pipes)
  {
    HeldAfterStep(s, Take(w));
    PartitionAfterTake(s.available, Held(s), pipes, w);
  }

  lemma PartitionAfterPutBackStep(s: State, pipes: seq<Pipe>, w: Worker)
    requires Enabled(s, PutBack(w)) && Partition(s.available, Held(s), pipes)
    ensures Partition(Apply(s, PutBack(w)).available, Held(Apply(s, PutBack(w))), pipes)
  {
    HeldAfterStep(s, PutBack(w));
    PartitionAfterPutBack(s.available, Held(s), pipes, w);
  }

  lemma OtherStepsMoveNoPipe(s: State, step: Step)
    requires Enabled(s, step) && !step.Take? && !step.PutBack?
    ensures Apply(s, step).available == s.available && Held(Apply(s, step)) == Held(s)
  {
    HeldAfterStep(s, step);
  }

  lemma PartitionAfterStep(s: State, pipes: seq<Pipe>, step: Step)
    requires Enabled(s, step) && (step.Take? ==> s.available != [])
    requires Partition(s.available, Held(s), pipes)
    ensures Partition(Apply(s, step).available, Held(Apply(s, step)), pipes)
  {
    if step.Take? {
      PartitionAfterTakeStep(s, pipes, step.w);
    } else if step.PutBack? {
      PartitionAfterPutBackStep(s, pipes, step.w);
    } else {
      OtherStepsMoveNoPipe(s, step);
    }
  }

  lemma PermitsAfterStep(s: State, step: Step)
    requires Enabled(s, step) && (step.Take? ==> s.available != [])
    requires step.ReleasePermit? ==> s.permits < s.size
    requires s.permits >= 0 && s.permits + |PermitOwners(s)| == s.size
    ensures Apply(s, step).permits >= 0
    ensures Apply(s, step).permits + |PermitOwners(Apply(s, step))| == Apply(s, step).size == s.size
  {
    PermitOwnersAfterStep(s, step);
  }

  lemma StepKeepsInv(s: State, pipes: seq<Pipe>, step: Step)
    requires Inv(s, pipes) && Enabled(s, step)
    ensures Inv(Apply(s, step), pipes)
  {
    if step.Take? { PermitMeansPipe(s, pipes, step.w); }
    if step.ReleasePermit? { CardinalityMonotone({step.w}, PermitOwners(s)); }
    PartitionAfterStep(s, pipes, step);
    PermitsAfterStep(s, step);
    SaneAfterStep(s, step);
  }

  lemma {:induction false} EveryRunKeepsInv(s: State, pipes: seq<Pipe>, steps: seq<Step>, t: State)
    requires Inv(s, pipes) && Executes(s, steps, t)
    ensures Inv(t, pipes)
    decreases |steps|
  {
    if steps != [] {
      StepKeepsInv(s, pipes, steps[0]);
      EveryRunKeepsInv(Apply(s, steps[0]), pipes, steps[1..], t);
    }
  }

  // Any number of workers, any interleaving: available and held pipes together are always the
  // initial set, no pipe has two holders, and the two error branches are never reached: the list is
  // not empty when a permit was granted, and the semaphore is never released too often.
  lemma PoolIsSafe(pipes: seq<Pipe>, steps: seq<Step>, t: State)
    requires forall i, j :: 0 <= i < j < |pipes| ==> pipes[i] != pipes[j]
    requires Executes(Initial(pipes), steps, t)
    ensures forall p :: p in pipes <==> p in t.available || p in Held(t).Values
    ensures forall v, w :: v in Held(t) && w in Held(t) && v != w ==> Held(t)[v] != Held(t)[w]
    ensures forall w :: w in Held(t) ==> Held(t)[w] !in t.available
    ensures forall w :: w in t.pcs ==> Sane(t.pcs[w])
    ensures 0 <= t.permits <= |pipes|
  {
    InitialInv(pipes);
    EveryRunKeepsInv(Initial(pipes), pipes, steps, t);
  }

  lemma InitialInv(pipes: seq<Pipe>)
    requires forall i, j :: 0 <= i < j < |pipes| ==> pipes[i] != pipes[j]
    ensures Inv(Initial(pipes), pipes)
  {
    assert Held(Initial(pipes)) == map[] && PermitOwners(Initial(pipes)) == {};
  }

  // The pipes that exceptions of the pipe test took out of the pool.
  ghost function LostBy(s: State): map<Worker, Pipe> {
    map w | w in s.pcs && s.pcs[w].Lost? :: s.pcs[w].pipe
  }

  // Once every worker is done or left by an exception of the pipe test, the pipes and permits gone
  // are exactly those that were lost that way.
  lemma QuietPoolMissesTheLost(pipes: seq<Pipe>, steps: seq<Step>, t: State)
    requires forall i, j :: 0 <= i < j < |pipes| ==> pipes[i] != pipes[j]
    requires Executes(Initial(pipes), steps, t)
    requires forall w :: w in t.pcs ==> t.pcs[w].Finished? || t.pcs[w].Lost?
    ensures t.permits == |t.available| == |pipes| - |LostBy(t)|
    ensures forall p :: p in t.available <==> p in pipes && p !in LostBy(t).Values
  {
    InitialInv(pipes);
    EveryRunKeepsInv(Initial(pipes), pipes, steps, t);
    assert Held(t) == LostBy(t) && PermitOwners(t) == LostBy(t).Keys;
    forall p | p in LostBy(t).Values ensures p !in t.available {
      var w :| w in Held(t) && Held(t)[w] == p;
    }
  }

  // In particular, without such exceptions list and permits are back where they started.
  lemma QuietPoolIsWhole(pipes: seq<Pipe>, steps: seq<Step>, t: State)
    requires forall i, j :: 0 <= i < j < |pipes| ==> pipes[i] != pipes[j]
    requires Executes(Initial(pipes), steps, t)
    requires forall w :: w in t.pcs ==> t.pcs[w].Finished?
    ensures t.permits == |pipes| == |t.available|
    ensures forall p :: p in pipes <==> p in t.available
  {
    assert LostBy(t) == map[];
    QuietPoolMissesTheLost(pipes, steps, t);
  }
}
