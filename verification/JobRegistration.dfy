// Registration of jobs and nodes: one lock region per job registration, one atomic step per node
// registration, and the shared run counter.
module JobRegistration {

  datatype Option<T> = None | Some(value: T)

  const BENCHMARKING_WINDOW := 900.0
  const DEFAULT_INTERVAL := 10

  type Hash = string

  datatype Configuration = Configuration(interval: int, enableMonitoring: bool, enableLikwid: bool)

  // Jobs registered from the command line have no configuration.
  datatype Job = Job(jobId: int, runNr: int, configuration: Option<Configuration>, nodes: map<string, Hash>, cli: bool)

  // Which of the required benchmark results are present.
  datatype Benchmarks = Benchmarks(bandwidthMem: bool, peakflops: bool, peakflopsSp: bool)

  datatype Node = Node(lastUpdate: Option<real>, benchmarks: Benchmarks)

  const NO_BENCHMARKS := Benchmarks(false, false, false)

  predicate HasRequiredBenchmarks(n: Node) {
    n.benchmarks.bandwidthMem && n.benchmarks.peakflops && n.benchmarks.peakflopsSp
  }

  datatype Reply =
    | Settings(jobId: int, configuration: Configuration, benchmarkRequired: bool)
    | ServerError

  // ----- the database as the endpoints see it -----

  datatype Database = Database(jobs: seq<Job>, nodes: map<Hash, Node>, lastRun: int)

  function FindJob(jobs: seq<Job>, jobId: int): (r: Option<nat>)
    ensures r.Some? ==> r.value < |jobs| && jobs[r.value].jobId == jobId
    ensures r.Some? ==> forall k :: 0 <= k < r.value ==> jobs[k].jobId != jobId
    ensures r.None? ==> forall k :: 0 <= k < |jobs| ==> jobs[k].jobId != jobId
  {
    if jobs == [] then None
    else if jobs[0].jobId == jobId then Some(0)
    else
      match FindJob(jobs[1..], jobId)
      case None => None
      case Some(k) => Some(k + 1)
  }

  // `check` and `stamp` are the clock readings of the window test and of the stored time stamp.
  function Expired(n: Node, check: real): bool {
    n.lastUpdate.None? || check - n.lastUpdate.value > BENCHMARKING_WINDOW
  }

  function BenchmarkRequired(db: Database, hash: Hash, check: real): bool {
    hash !in db.nodes || (!HasRequiredBenchmarks(db.nodes[hash]) && Expired(db.nodes[hash], check))
  }

  function StampNode(db: Database, hash: Hash, check: real, stamp: real): Database {
    if !BenchmarkRequired(db, hash, check) then db
    else if hash !in db.nodes then db.(nodes := db.nodes[hash := Node(Some(stamp), NO_BENCHMARKS)])
    else db.(nodes := db.nodes[hash := db.nodes[hash].(lastUpdate := Some(stamp))])
  }

  // Whether the registration gets past reading the job's configuration.
  predicate Registers(db: Database, jobId: int) {
    var k := FindJob(db.jobs, jobId);
    k.None? || db.jobs[k.value].configuration.Some?
  }

  function WithJob(db: Database, jobId: int, hostname: string, hash: Hash): Database {
    match FindJob(db.jobs, jobId)
    case None =>
      db.(jobs := db.jobs + [Job(jobId, db.lastRun + 1, None, map[hostname := hash], true)],
          lastRun := db.lastRun + 1)
    case Some(k) =>
      if db.jobs[k].configuration.None? then db
      else db.(jobs := db.jobs[k := db.jobs[k].(nodes := db.jobs[k].nodes[hostname := hash])])
  }

  // The database after a successful registration.
  function Registered(db: Database, jobId: int, hostname: string, hash: Hash, check: real, stamp: real): Database {
    StampNode(WithJob(db, jobId, hostname, hash), hash, check, stamp)
  }

  function WithNode(nodes: map<Hash, Node>, hash: Hash, benchmarks: Option<Benchmarks>, now: real): map<Hash, Node> {
    var kept := if hash in nodes then nodes[hash].benchmarks else NO_BENCHMARKS;
    nodes[hash := Node(Some(now), if benchmarks.Some? then benchmarks.value else kept)]
  }

  // The endpoint's object: the fields are the collections it reads and writes.
  class Store {
    var jobs: seq<Job>
    var nodes: map<Hash, Node>
    var lastRun: int

    function Db(): Database
      reads this
    {
      Database(jobs, nodes, lastRun)
    }

    constructor (db: Database)
      ensures Db() == db
    {
      jobs, nodes, lastRun := db.jobs, db.nodes, db.lastRun;
    }

    method NextRunNr() returns (run: int)
      modifies this`lastRun
      ensures run == old(lastRun) + 1 && lastRun == run
    {
      run := lastRun + 1;
      lastRun := lastRun + 1;
    }

    // `cliInterval` is the configured interval of jobs from the command line, if there is one.
    method RegisterJob(jobId: int, hostname: string, hash: Hash, cliInterval: Option<int>, check: real, stamp: real)
      returns (reply: Reply)
      modifies this
      ensures reply.Settings? <==> Registers(old(Db()), jobId)
      ensures Db() == if reply.ServerError? then old(Db())
                      else Registered(old(Db()), jobId, hostname, hash, check, stamp)
      ensures reply.Settings? ==>
        reply.jobId == jobId && (reply.benchmarkRequired <==> BenchmarkRequired(old(Db()), hash, check))
      ensures reply.Settings? ==>
        reply.configuration == match FindJob(old(jobs), jobId)
                               case None =>
                                 Configuration(if cliInterval.Some? then cliInterval.value else 10, true, true)
                               case Some(k) => old(jobs)[k].configuration.value
    {
      var interval := if cliInterval.Some? then cliInterval.value else DEFAULT_INTERVAL;
      var settings := Configuration(interval, true, true);
      var found := FindJob(jobs, jobId);
      if found.None? {
        var runNr := NextRunNr();
        jobs := jobs + [Job(jobId, runNr, None, map[hostname := hash], true)];
      } else {
        var job := jobs[found.value];
        if job.configuration.None? { return ServerError; }
        settings := job.configuration.value;
        jobs := jobs[found.value := job.(nodes := job.nodes[hostname := hash])];
      }
      var required := false;
      if hash !in nodes {
        required := true;
        nodes := nodes[hash := Node(Some(stamp), NO_BENCHMARKS)];
      } else {
        var node := nodes[hash];
        var expired := node.lastUpdate.None? || check - node.lastUpdate.value > BENCHMARKING_WINDOW;
        if !HasRequiredBenchmarks(node) && expired {
          required := true;
          nodes := nodes[hash := node.(lastUpdate := Some(stamp))];
        }
      }
      return Settings(jobId, settings, required);
    }

    // Benchmark results that are not posted stay as they are.
    method RegisterNode(hash: Hash, benchmarks: Option<Benchmarks>, now: real)
      modifies this`nodes
      ensures nodes == WithNode(old(nodes), hash, benchmarks, now)
      ensures nodes.Keys == old(nodes.Keys) + {hash}
      ensures forall h :: h in old(nodes) && h != hash ==> nodes[h] == old(nodes)[h]
      ensures nodes[hash].lastUpdate == Some(now)
      ensures nodes[hash].benchmarks == if benchmarks.Some? then benchmarks.value
                                        else if hash in old(nodes) then old(nodes)[hash].benchmarks
                                        else Benchmarks(false, false, false)
    {
      if hash !in nodes {
        nodes := nodes[hash := Node(Some(now), if benchmarks.Some? then benchmarks.value else NO_BENCHMARKS)];
      } else {
        var node := nodes[hash].(lastUpdate := Some(now));
        if benchmarks.Some? { node := node.(benchmarks := benchmarks.value); }
        nodes := nodes[hash := node];
      }
    }
  }

  // The first record of the job is at place k.
  predicate FirstRecord(jobs: seq<Job>, jobId: int, k: nat) {
    k < |jobs| && jobs[k].jobId == jobId && forall i :: 0 <= i < k ==> jobs[i].jobId != jobId
  }

  // The job's record gets this host besides those it has, and nothing else about any job changes.
  lemma RegistrationAddsHost(db: Database, jobId: int, hostname: string, hash: Hash, check: real, stamp: real, k: nat)
    requires FirstRecord(db.jobs, jobId, k) && db.jobs[k].configuration.Some?
    ensures var t := Registered(db, jobId, hostname, hash, check, stamp);
      && |t.jobs| == |db.jobs| && t.lastRun == db.lastRun
      && (forall i :: 0 <= i < |db.jobs| && i != k ==> t.jobs[i] == db.jobs[i])
      && t.jobs[k].jobId == jobId && t.jobs[k].runNr == db.jobs[k].runNr
      && t.jobs[k].configuration == db.jobs[k].configuration && t.jobs[k].cli == db.jobs[k].cli
      && t.jobs[k].nodes.Keys == db.jobs[k].nodes.Keys + {hostname} && t.jobs[k].nodes[hostname] == hash
      && forall h :: h in db.jobs[k].nodes && h != hostname ==> t.jobs[k].nodes[h] == db.jobs[k].nodes[h]
  {
    assert FindJob(db.jobs, jobId) == Some(k);
  }

  // A job without a record gets one behind all others, with this host only, the next run number
  // and no configuration.
  lemma RegistrationCreatesJob(db: Database, jobId: int, hostname: string, hash: Hash, check: real, stamp: real)
    requires forall i :: 0 <= i < |db.jobs| ==> db.jobs[i].jobId != jobId
    ensures var t := Registered(db, jobId, hostname, hash, check, stamp);
      && |t.jobs| == |db.jobs| + 1 && t.jobs[..|db.jobs|] == db.jobs && t.lastRun == db.lastRun + 1
      && t.jobs[|db.jobs|] == Job(jobId, db.lastRun + 1, None, map[hostname := hash], true)
  {
  }

  // The node is stamped when it is new, or when a benchmark is missing and its last stamp is over
  // 15 minutes old or there is none. No other node changes, and no benchmark result.
  lemma RegistrationStampsNode(db: Database, jobId: int, hostname: string, hash: Hash, check: real, stamp: real)
    ensures var t := Registered(db, jobId, hostname, hash, check, stamp);
      && t.nodes.Keys == db.nodes.Keys + {hash}
      && (forall h :: h in db.nodes && h != hash ==> t.nodes[h] == db.nodes[h])
      && (hash !in db.nodes ==> t.nodes[hash] == Node(Some(stamp), Benchmarks(false, false, false)))
      && (hash in db.nodes ==> t.nodes[hash].benchmarks == db.nodes[hash].benchmarks)
      && (hash in db.nodes ==>
            var b, last := db.nodes[hash].benchmarks, db.nodes[hash].lastUpdate;
            var complete := b.bandwidthMem && b.peakflops && b.peakflopsSp;
            var due := !complete && (last == None || check - last.value > 900.0);
            t.nodes[hash].lastUpdate == (if due then Some(stamp) else last)
            && (BenchmarkRequired(db, hash, check) <==> due))
      && (hash !in db.nodes ==> BenchmarkRequired(db, hash, check))
  {
  }

  // Registration gets past the record exactly when there is none or it has a configuration.
  lemma RegistersIff(db: Database, jobId: int)
    ensures Registers(db, jobId) <==> forall k: nat :: FirstRecord(db.jobs, jobId, k) ==> db.jobs[k].configuration.Some?
  {
    if FindJob(db.jobs, jobId).Some? { assert FirstRecord(db.jobs, jobId, FindJob(db.jobs, jobId).value); }
  }

  // A job registered from the command line has no configuration, so the second node of a
  // multi-node job gets an error instead of its settings.
  lemma SecondNodeOfCliJobFails(db: Database, jobId: int, hostname: string, hash: Hash)
    requires FindJob(db.jobs, jobId).None?
    ensures !Registers(WithJob(db, jobId, hostname, hash), jobId)
  {
    var t := WithJob(db, jobId, hostname, hash);
    AppendedJobIsFound(db.jobs, t.jobs[|db.jobs|]);
  }

  lemma {:induction false} AppendedJobIsFound(jobs: seq<Job>, job: Job)
    requires FindJob(jobs, job.jobId).None?
    ensures FindJob(jobs + [job], job.jobId) == Some(|jobs|)
  {
    if jobs != [] {
      assert (jobs + [job])[1..] == jobs[1..] + [job];
      AppendedJobIsFound(jobs[1..], job);
    }
  }

  // ----- whole runs -----

  // What happened to nodes: positive replies, and imports that put in another record.
  datatype NodeEntry = Commissioned(hash: Hash, check: real, stamp: real) | Replaced(hash: Hash)

  // What happened to jobs: records the endpoint created, and changes made by others.
  datatype JobEntry = Created(jobId: int) | Edited(before: seq<Job>, after: seq<Job>)

  // `runs` are the run numbers handed out.
  datatype State = State(db: Database, now: real, nodeLog: seq<NodeEntry>, jobLog: seq<JobEntry>, runs: seq<int>)

  datatype Event =
    | JobRegisters(jobId: int, hostname: string, hash: Hash, check: real, stamp: real)
    | NodeRegisters(hash: Hash, benchmarks: Option<Benchmarks>, at: real)
    | SubmitJob(job: Job)                       // a job filed by the control daemon or an import
    | ReplaceJob(k: nat, job: Job)              // an import over an existing record
    | DeleteBenchmark(runNr: int)               // with all its jobs
    | ImportNode(hash: Hash, node: Node, updateColl: bool)
    | TakeRunNr                                 // another process allocates a run number

  // The clock never runs backwards.
  predicate Possible(s: State, e: Event) {
    match e
    case JobRegisters(_, _, _, check, stamp) => s.now <= check <= stamp
    case NodeRegisters(_, _, at) => s.now <= at
    case ReplaceJob(k, _) => k < |s.db.jobs|
    case _ => true
  }

  function WithoutRun(jobs: seq<Job>, runNr: int): (r: seq<Job>)
    ensures forall job :: job in r <==> job in jobs && job.runNr != runNr
  {
    if jobs == [] then []
    else if jobs[0].runNr == runNr then WithoutRun(jobs[1..], runNr)
    else [jobs[0]] + WithoutRun(jobs[1..], runNr)
  }

  function EditJobs(s: State, jobs: seq<Job>): State {
    s.(db := s.db.(jobs := jobs), jobLog := s.jobLog + [Edited(s.db.jobs, jobs)])
  }

  function Happen(s: State, e: Event): State
    requires Possible(s, e)
  {
    match e
    case JobRegisters(jobId, hostname, hash, check, stamp) =>
      if !Registers(s.db, jobId) then s.(now := stamp)
      else
        var isNew := FindJob(s.db.jobs, jobId).None?;
        State(
          Registered(s.db, jobId, hostname, hash, check, stamp), stamp,
          if BenchmarkRequired(s.db, hash, check) then s.nodeLog + [Commissioned(hash, check, stamp)] else s.nodeLog,
          if isNew then s.jobLog + [Created(jobId)] else s.jobLog,
          if isNew then s.runs + [s.db.lastRun + 1] else s.runs)
    case NodeRegisters(hash, benchmarks, at) =>
      s.(db := s.db.(nodes := WithNode(s.db.nodes, hash, benchmarks, at)), now := at)
    case SubmitJob(job) => EditJobs(s, s.db.jobs + [job])
    case ReplaceJob(k, job) => EditJobs(s, s.db.jobs[k := job])
    case DeleteBenchmark(runNr) => EditJobs(s, WithoutRun(s.db.jobs, runNr))
    case ImportNode(hash, node, updateColl) =>
      if hash !in s.db.nodes then s.(db := s.db.(nodes := s.db.nodes[hash := node]))
      else if !updateColl then s
      else s.(db := s.db.(nodes := s.db.nodes[hash := node]), nodeLog := s.nodeLog + [Replaced(hash)])
    case TakeRunNr => s.(db := s.db.(lastRun := s.db.lastRun + 1), runs := s.runs + [s.db.lastRun + 1])
  }

  ghost predicate History(s: State, events: seq<Event>, t: State)
    decreases |events|
  {
    if events == [] then s == t
    else Possible(s, events[0]) && History(Happen(s, events[0]), events[1..], t)
  }

  // ----- the benchmarking window -----

  // Some import put in another record for the node at or after entry i.
  predicate ReplacedSince(log: seq<NodeEntry>, hash: Hash, i: nat, n: nat)
    requires n <= |log|
  {
    exists k :: i <= k < n && log[k] == Replaced(hash)
  }

  // The stored time stamp of a hash is not older than the commission.
  predicate Stamped(db: Database, now: real, c: NodeEntry)
    requires c.Commissioned?
  {
    c.check <= c.stamp <= now
    && c.hash in db.nodes && db.nodes[c.hash].lastUpdate.Some? && c.stamp <= db.nodes[c.hash].lastUpdate.value
  }

  // Two commissions of one node are more than the window apart, unless its record was replaced.
  predicate WindowKept(log: seq<NodeEntry>) {
    forall i, j :: 0 <= i < j < |log| && log[i].Commissioned? && log[j].Commissioned? && log[i].hash == log[j].hash ==>
      log[j].check - log[i].stamp > BENCHMARKING_WINDOW || ReplacedSince(log, log[i].hash, i, j)
  }

  predicate WindowInv(s: State) {
    WindowKept(s.nodeLog)
    && forall i :: 0 <= i < |s.nodeLog| && s.nodeLog[i].Commissioned? ==>
         Stamped(s.db, s.now, s.nodeLog[i]) || ReplacedSince(s.nodeLog, s.nodeLog[i].hash, i, |s.nodeLog|)
  }

  lemma ReplacedStays(log: seq<NodeEntry>, e: NodeEntry, hash: Hash, i: nat, n: nat)
    requires n <= |log|
    ensures ReplacedSince(log, hash, i, n) ==> ReplacedSince(log + [e], hash, i, n)
    ensures ReplacedSince(log, hash, i, |log|) ==> ReplacedSince(log + [e], hash, i, |log + [e]|)
    ensures e == Replaced(hash) && i <= |log| ==> ReplacedSince(log + [e], hash, i, |log + [e]|)
  {
    if ReplacedSince(log, hash, i, n) {
      var k :| i <= k < n && log[k] == Replaced(hash);
      assert (log + [e])[k] == Replaced(hash);
    }
    if ReplacedSince(log, hash, i, |log|) {
      var k :| i <= k < |log| && log[k] == Replaced(hash);
      assert (log + [e])[k] == Replaced(hash);
    }
    assert (log + [e])[|log|] == e;
  }

  lemma WindowKeptAfter(log: seq<NodeEntry>, e: NodeEntry)
    requires WindowKept(log)
    requires e.Commissioned? ==> forall i :: 0 <= i < |log| && log[i].Commissioned? && log[i].hash == e.hash ==>
      e.check - log[i].stamp > BENCHMARKING_WINDOW || ReplacedSince(log, e.hash, i, |log|)
    ensures WindowKept(log + [e])
  {
    var all := log + [e];
    forall i, j | 0 <= i < j < |all| && all[i].Commissioned? && all[j].Commissioned? && all[i].hash == all[j].hash
      ensures all[j].check - all[i].stamp > BENCHMARKING_WINDOW || ReplacedSince(all, all[i].hash, i, j)
    {
      ReplacedStays(log, e, all[i].hash, i, j);
    }
  }

  // A commission stays stamped while only registrations touch the node.
  lemma StampedAfter(s: State, e: Event, c: NodeEntry)
    requires Possible(s, e) && c.Commissioned? && Stamped(s.db, s.now, c)
    requires e.ImportNode? ==> e.hash != c.hash || e.hash !in s.db.nodes || !e.updateColl
    ensures Stamped(Happen(s, e).db, Happen(s, e).now, c)
  {
  }

  lemma CommissionKeepsWindow(s: State, e: Event)
    requires WindowInv(s) && Possible(s, e) && e.JobRegisters?
    ensures WindowInv(Happen(s, e))
  {
    var t, log := Happen(s, e), s.nodeLog;
    if |t.nodeLog| > |log| {
      var c := t.nodeLog[|log|];
      forall i | 0 <= i < |log| && log[i].Commissioned? && log[i].hash == c.hash
        ensures c.check - log[i].stamp > BENCHMARKING_WINDOW || ReplacedSince(log, c.hash, i, |log|)
      {
      }
      WindowKeptAfter(log, c);
      assert Stamped(t.db, t.now, c);
    }
    forall i | 0 <= i < |log| && log[i].Commissioned?
      ensures Stamped(t.db, t.now, log[i]) || ReplacedSince(t.nodeLog, log[i].hash, i, |t.nodeLog|)
    {
      if Stamped(s.db, s.now, log[i]) { StampedAfter(s, e, log[i]); }
      else if |t.nodeLog| > |log| { ReplacedStays(log, t.nodeLog[|log|], log[i].hash, i, |log|); }
    }
  }

  lemma ImportKeepsWindow(s: State, e: Event)
    requires WindowInv(s) && Possible(s, e) && e.ImportNode?
    ensures WindowInv(Happen(s, e))
  {
    var t, log := Happen(s, e), s.nodeLog;
    if |t.nodeLog| > |log| {
      var r := Replaced(e.hash);
      WindowKeptAfter(log, r);
      forall i | 0 <= i < |log| && log[i].Commissioned?
        ensures Stamped(t.db, t.now, log[i]) || ReplacedSince(t.nodeLog, log[i].hash, i, |t.nodeLog|)
      {
        ReplacedStays(log, r, log[i].hash, i, |log|);
        if Stamped(s.db, s.now, log[i]) && log[i].hash != e.hash { StampedAfter(s, e, log[i]); }
      }
    } else {
      forall i | 0 <= i < |log| && log[i].Commissioned? && Stamped(s.db, s.now, log[i])
        ensures Stamped(t.db, t.now, log[i])
      {
        StampedAfter(s, e, log[i]);
      }
    }
  }

  lemma EventKeepsWindow(s: State, e: Event)
    requires WindowInv(s) && Possible(s, e)
    ensures WindowInv(Happen(s, e))
  {
    if e.JobRegisters? {
      CommissionKeepsWindow(s, e);
    } else if e.ImportNode? {
      ImportKeepsWindow(s, e);
    } else {
      forall i | 0 <= i < |s.nodeLog| && s.nodeLog[i].Commissioned? && Stamped(s.db, s.now, s.nodeLog[i])
        ensures Stamped(Happen(s, e).db, Happen(s, e).now, s.nodeLog[i])
      {
        StampedAfter(s, e, s.nodeLog[i]);
      }
    }
  }

  // ----- one record per job id -----

  // The change took away the last record of the job.
  predicate Removes(e: JobEntry, jobId: int) {
    e.Edited? && FindJob(e.before, jobId).Some? && FindJob(e.after, jobId).None?
  }

  predicate RemovedSince(log: seq<JobEntry>, jobId: int, i: nat, n: nat)
    requires n <= |log|
  {
    exists k :: i <= k < n && Removes(log[k], jobId)
  }

  // Between two records the endpoint created for one job, somebody removed the first.
  predicate CreatedOnce(log: seq<JobEntry>) {
    forall i, j :: 0 <= i < j < |log| && log[i].Created? && log[j] == log[i] ==> RemovedSince(log, log[i].jobId, i, j)
  }

  predicate RecordInv(s: State) {
    CreatedOnce(s.jobLog)
    && (forall i :: 0 <= i < |s.jobLog| && s.jobLog[i].Created? ==>
          FindJob(s.db.jobs, s.jobLog[i].jobId).Some? || RemovedSince(s.jobLog, s.jobLog[i].jobId, i, |s.jobLog|))
    && (forall i :: 0 <= i < |s.runs| ==> s.runs[i] <= s.db.lastRun)
    && forall i, j :: 0 <= i < j < |s.runs| ==> s.runs[i] < s.runs[j]
  }

  lemma RemovedStays(log: seq<JobEntry>, e: JobEntry, jobId: int, i: nat, n: nat)
    requires n <= |log|
    ensures RemovedSince(log, jobId, i, n) ==> RemovedSince(log + [e], jobId, i, n)
    ensures RemovedSince(log, jobId, i, |log|) ==> RemovedSince(log + [e], jobId, i, |log + [e]|)
    ensures Removes(e, jobId) && i <= |log| ==> RemovedSince(log + [e], jobId, i, |log + [e]|)
  {
    if RemovedSince(log, jobId, i, n) {
      var k :| i <= k < n && Removes(log[k], jobId);
      assert (log + [e])[k] == log[k];
    }
    if RemovedSince(log, jobId, i, |log|) {
      var k :| i <= k < |log| && Removes(log[k], jobId);
      assert (log + [e])[k] == log[k];
    }
    assert (log + [e])[|log|] == e;
  }

  lemma CreatedOnceAfter(log: seq<JobEntry>, e: JobEntry)
    requires CreatedOnce(log)
    requires e.Created? ==> forall i :: 0 <= i < |log| && log[i] == e ==> RemovedSince(log, e.jobId, i, |log|)
    ensures CreatedOnce(log + [e])
  {
    var all := log + [e];
    forall i, j | 0 <= i < j < |all| && all[i].Created? && all[j] == all[i]
      ensures RemovedSince(all, all[i].jobId, i, j)
    {
      RemovedStays(log, e, all[i].jobId, i, j);
    }
  }

  lemma {:induction false} FindAfterAppend(jobs: seq<Job>, job: Job, jobId: int)
    ensures FindJob(jobs + [job], jobId).Some? <==> FindJob(jobs, jobId).Some? || job.jobId == jobId
  {
    if jobs != [] {
      assert (jobs + [job])[1..] == jobs[1..] + [job];
      FindAfterAppend(jobs[1..], job, jobId);
    }
  }

  lemma FindAfterUpdate(jobs: seq<Job>, k: nat, job: Job, jobId: int)
    requires k < |jobs| && job.jobId == jobs[k].jobId
    ensures FindJob(jobs[k := job], jobId).Some? <==> FindJob(jobs, jobId).Some?
  {
    var after := jobs[k := job];
    assert forall i :: 0 <= i < |jobs| ==> after[i].jobId == jobs[i].jobId;
    var r, q := FindJob(after, jobId), FindJob(jobs, jobId);
    assert r.Some? ==> jobs[r.value].jobId == jobId;
    assert q.Some? ==> after[q.value].jobId == jobId;
  }

  // A registration removes no record, and leaves one for its own job.
  lemma RegistrationKeepsJobs(db: Database, jobId: int, hostname: string, hash: Hash, id: int)
    requires Registers(db, jobId)
    ensures FindJob(db.jobs, id).Some? || id == jobId ==> FindJob(WithJob(db, jobId, hostname, hash).jobs, id).Some?
  {
    match FindJob(db.jobs, jobId)
    case None => FindAfterAppend(db.jobs, Job(jobId, db.lastRun + 1, None, map[hostname := hash], true), id);
    case Some(k) => FindAfterUpdate(db.jobs, k, db.jobs[k].(nodes := db.jobs[k].nodes[hostname := hash]), id);
  }

  lemma RegistrationKeepsRecords(s: State, e: Event)
    requires RecordInv(s) && Possible(s, e) && e.JobRegisters?
    ensures RecordInv(Happen(s, e))
  {
    var t, log := Happen(s, e), s.jobLog;
    if Registers(s.db, e.jobId) {
      if |t.jobLog| > |log| { CreatedOnceAfter(log, Created(e.jobId)); }
      RegistrationKeepsJobs(s.db, e.jobId, e.hostname, e.hash, e.jobId);
      forall i | 0 <= i < |log| && log[i].Created?
        ensures FindJob(t.db.jobs, log[i].jobId).Some? || RemovedSince(t.jobLog, log[i].jobId, i, |t.jobLog|)
      {
        RegistrationKeepsJobs(s.db, e.jobId, e.hostname, e.hash, log[i].jobId);
        if |t.jobLog| > |log| { RemovedStays(log, t.jobLog[|log|], log[i].jobId, i, |log|); }
      }
    }
  }

  lemma EditKeepsRecords(s: State, jobs: seq<Job>)
    requires RecordInv(s)
    ensures RecordInv(EditJobs(s, jobs))
  {
    var t, log := EditJobs(s, jobs), s.jobLog;
    CreatedOnceAfter(log, Edited(s.db.jobs, jobs));
    forall i | 0 <= i < |log| && log[i].Created?
      ensures FindJob(jobs, log[i].jobId).Some? || RemovedSince(t.jobLog, log[i].jobId, i, |t.jobLog|)
    {
      RemovedStays(log, Edited(s.db.jobs, jobs), log[i].jobId, i, |log|);
    }
  }

  lemma EventKeepsRecords(s: State, e: Event)
    requires RecordInv(s) && Possible(s, e)
    ensures RecordInv(Happen(s, e))
  {
    match e
    case JobRegisters(_, _, _, _, _) => RegistrationKeepsRecords(s, e);
    case SubmitJob(job) => EditKeepsRecords(s, s.db.jobs + [job]);
    case ReplaceJob(k, job) => EditKeepsRecords(s, s.db.jobs[k := job]);
    case DeleteBenchmark(runNr) => EditKeepsRecords(s, WithoutRun(s.db.jobs, runNr));
    case _ =>
  }

  lemma {:induction false} EveryHistoryKeepsInv(s: State, events: seq<Event>, t: State)
    requires History(s, events, t) && WindowInv(s) && RecordInv(s)
    ensures WindowInv(t) && RecordInv(t)
    decreases |events|
  {
    if events != [] {
      EventKeepsWindow(s, events[0]);
      EventKeepsRecords(s, events[0]);
      EveryHistoryKeepsInv(Happen(s, events[0]), events[1..], t);
    }
  }

  // From any database and any clock: two replies that commission benchmarks for one hash are more
  // than the window apart unless an import replaced the node in between; between two records the
  // endpoint creates for one job id, somebody removed the first; and run numbers are handed out
  // in strictly increasing order, by whatever process.
  lemma RegistrationIsSafe(db: Database, now: real, events: seq<Event>, t: State)
    requires History(State(db, now, [], [], []), events, t)
    ensures WindowKept(t.nodeLog) && CreatedOnce(t.jobLog)
    ensures forall i, j :: 0 <= i < j < |t.runs| ==> t.runs[i] < t.runs[j]
  {
    EveryHistoryKeepsInv(State(db, now, [], [], []), events, t);
  }

  // Only deletions and imports over job records remove one.
  lemma SubmittingRemovesNothing(s: State, job: Job, jobId: int)
    ensures !Removes(Edited(s.db.jobs, s.db.jobs + [job]), jobId)
  {
    FindAfterAppend(s.db.jobs, job, jobId);
  }

  // In a history without them, every job id gets at most one record from the endpoint, and every
  // two commissions of one hash are more than the window apart.
  predicate Quiet(e: Event) { !e.ReplaceJob? && !e.DeleteBenchmark? && !e.ImportNode? }

  ghost predicate NothingTaken(s: State) {
    (forall k :: 0 <= k < |s.nodeLog| ==> s.nodeLog[k].Commissioned?)
    && forall k, id :: 0 <= k < |s.jobLog| ==> !Removes(s.jobLog[k], id)
  }

  lemma {:induction false} QuietHistoryTakesNothing(s: State, events: seq<Event>, t: State)
    requires History(s, events, t) && NothingTaken(s)
    requires forall k :: 0 <= k < |events| ==> Quiet(events[k])
    ensures NothingTaken(t)
    decreases |events|
  {
    if events != [] {
      assert Quiet(events[0]);
      if events[0].SubmitJob? {
        forall id: int ensures !Removes(Edited(s.db.jobs, s.db.jobs + [events[0].job]), id) {
          SubmittingRemovesNothing(s, events[0].job, id);
        }
      }
      QuietHistoryTakesNothing(Happen(s, events[0]), events[1..], t);
    }
  }

  lemma QuietRegistrationIsSafe(db: Database, now: real, events: seq<Event>, t: State)
    requires History(State(db, now, [], [], []), events, t)
    requires forall k :: 0 <= k < |events| ==> Quiet(events[k])
    ensures forall i, j :: 0 <= i < j < |t.nodeLog| && t.nodeLog[i].hash == t.nodeLog[j].hash ==>
      t.nodeLog[i].Commissioned? && t.nodeLog[j].Commissioned?
      && t.nodeLog[j].check - t.nodeLog[i].stamp > BENCHMARKING_WINDOW
    ensures forall i, j :: 0 <= i < j < |t.jobLog| && t.jobLog[i].Created? ==> t.jobLog[j] != t.jobLog[i]
  {
    RegistrationIsSafe(db, now, events, t);
    QuietHistoryTakesNothing(State(db, now, [], [], []), events, t);
  }

  // ----- what deletions and imports reopen -----

  lemma {:induction false} FoundAfterDeletionIff(jobs: seq<Job>, runNr: int, jobId: int)
    ensures FindJob(WithoutRun(jobs, runNr), jobId).Some?
       <==> exists k :: 0 <= k < |jobs| && jobs[k].jobId == jobId && jobs[k].runNr != runNr
  {
    if jobs != [] {
      FoundAfterDeletionIff(jobs[1..], runNr, jobId);
      var kept := WithoutRun(jobs[1..], runNr);
      if jobs[0].runNr != runNr { assert ([jobs[0]] + kept)[1..] == kept; }
      if k :| 0 <= k < |jobs[1..]| && jobs[1..][k].jobId == jobId && jobs[1..][k].runNr != runNr {
        assert jobs[k + 1] == jobs[1..][k];
      }
      if k :| 1 <= k < |jobs| && jobs[k].jobId == jobId && jobs[k].runNr != runNr {
        assert jobs[1..][k - 1] == jobs[k];
      }
    }
  }

  // The registration creates a record.
  predicate CreatesRecord(s: State, e: Event)
    requires Possible(s, e) && e.JobRegisters?
  {
    Happen(s, e).jobLog == s.jobLog + [Created(e.jobId)]
  }

  // After a deletion the next registration of a job records it again exactly when the deletion
  // took its last record.
  lemma DeletedJobIsRecordedAgainIff(s: State, runNr: int, e: Event)
    requires e.JobRegisters? && Possible(Happen(s, DeleteBenchmark(runNr)), e)
    ensures CreatesRecord(Happen(s, DeleteBenchmark(runNr)), e)
       <==> forall k :: 0 <= k < |s.db.jobs| && s.db.jobs[k].jobId == e.jobId ==> s.db.jobs[k].runNr == runNr
  {
    FoundAfterDeletionIff(s.db.jobs, runNr, e.jobId);
    var t := Happen(s, DeleteBenchmark(runNr));
    assert |t.jobLog + [Created(e.jobId)]| != |t.jobLog|;
  }

  // The reply commissions benchmarks.
  predicate Commissions(s: State, e: Event)
    requires Possible(s, e) && e.JobRegisters?
  {
    Happen(s, e).nodeLog == s.nodeLog + [Commissioned(e.hash, e.check, e.stamp)]
  }

  // After an import over a node, a registration that succeeds commissions it exactly when the
  // imported record lacks benchmarks and is itself out of its window.
  lemma ReplacedNodeIsCommissionedAgainIff(s: State, node: Node, e: Event)
    requires e.JobRegisters? && e.hash in s.db.nodes && Registers(s.db, e.jobId)
    requires Possible(Happen(s, ImportNode(e.hash, node, true)), e)
    ensures Commissions(Happen(s, ImportNode(e.hash, node, true)), e)
       <==> !HasRequiredBenchmarks(node) && Expired(node, e.check)
  {
    var t := Happen(s, ImportNode(e.hash, node, true));
    assert |t.nodeLog + [Commissioned(e.hash, e.check, e.stamp)]| != |t.nodeLog|;
  }

  lemma ThreeEvents(s: State, a: Event, b: Event, c: Event)
    requires Possible(s, a) && Possible(Happen(s, a), b) && Possible(Happen(Happen(s, a), b), c)
    ensures History(s, [a, b, c], Happen(Happen(Happen(s, a), b), c))
  {
    var t := Happen(Happen(Happen(s, a), b), c);
    assert [a, b, c][1..] == [b, c] && [b, c][1..] == [c] && [c][1..] == [];
    assert History(Happen(Happen(s, a), b), [c], t);
    assert History(Happen(s, a), [b, c], t);
  }

  lemma NewJobIsRecorded(s: State, e: Event)
    requires Possible(s, e) && e.JobRegisters? && FindJob(s.db.jobs, e.jobId).None?
    ensures Happen(s, e).jobLog == s.jobLog + [Created(e.jobId)]
    ensures Happen(s, e).runs == s.runs + [s.db.lastRun + 1] && Happen(s, e).db.lastRun == s.db.lastRun + 1
    ensures Happen(s, e).now == e.stamp
  {
  }

  // A deletion takes the record that a registration has just created.
  lemma NewRecordIsDeleted(s: State, e: Event)
    requires Possible(s, e) && e.JobRegisters? && FindJob(s.db.jobs, e.jobId).None?
    ensures FindJob(WithoutRun(Happen(s, e).db.jobs, s.db.lastRun + 1), e.jobId).None?
  {
    var jobs := Happen(s, e).db.jobs;
    assert forall k :: 0 <= k < |s.db.jobs| ==> jobs[k] == s.db.jobs[k];
    FoundAfterDeletionIff(jobs, s.db.lastRun + 1, e.jobId);
  }

  // In whatever database: a job that registers, is deleted with its run and registers again is
  // recorded twice, under two run numbers.
  lemma JobCanBeRecordedTwice(db: Database, first: Event, second: Event) returns (t: State)
    requires first.JobRegisters? && second.JobRegisters? && first.jobId == second.jobId
    requires first.check <= first.stamp <= second.check <= second.stamp && FindJob(db.jobs, first.jobId).None?
    ensures History(State(db, first.check, [], [], []), [first, DeleteBenchmark(db.lastRun + 1), second], t)
    ensures |t.jobLog| == 3 && t.jobLog[0] == t.jobLog[2] == Created(first.jobId)
    ensures t.runs == [db.lastRun + 1, db.lastRun + 2]
  {
    var s := State(db, first.check, [], [], []);
    NewJobIsRecorded(s, first);
    NewRecordIsDeleted(s, first);
    var b := Happen(Happen(s, first), DeleteBenchmark(db.lastRun + 1));
    NewJobIsRecorded(b, second);
    ThreeEvents(s, first, DeleteBenchmark(db.lastRun + 1), second);
    t := Happen(b, second);
  }

  // In whatever database: a new node that registers with a job, is imported over with a record out
  // of its window and without benchmarks, and registers with another new job is commissioned twice,
  // however short the time between.
  lemma NodeCanBeCommissionedTwice(db: Database, first: Event, record: Node, second: Event) returns (t: State)
    requires first.JobRegisters? && second.JobRegisters? && first.hash == second.hash && first.hash !in db.nodes
    requires first.check <= first.stamp <= second.check <= second.stamp && first.jobId != second.jobId
    requires FindJob(db.jobs, first.jobId).None? && FindJob(db.jobs, second.jobId).None?
    requires !HasRequiredBenchmarks(record) && Expired(record, second.check)
    ensures History(State(db, first.check, [], [], []), [first, ImportNode(first.hash, record, true), second], t)
    ensures t.nodeLog == [Commissioned(first.hash, first.check, first.stamp), Replaced(first.hash),
                          Commissioned(first.hash, second.check, second.stamp)]
  {
    var s, load := State(db, first.check, [], [], []), ImportNode(first.hash, record, true);
    var a := Happen(s, first);
    FindAfterAppend(db.jobs, a.db.jobs[|db.jobs|], second.jobId);
    ReplacedNodeIsCommissionedAgainIff(a, record, second);
    ThreeEvents(s, first, load, second);
    t := Happen(Happen(a, load), second);
  }

  // ----- the hosts of a job -----

  // The job is on record with this hash for the host.
  predicate HasHost(db: Database, jobId: int, hostname: string, hash: Hash) {
    var k := FindJob(db.jobs, jobId);
    k.Some? && hostname in db.jobs[k.value].nodes && db.jobs[k.value].nodes[hostname] == hash
  }

  // The event is a successful registration of this host for the job.
  predicate SetsHost(s: State, e: Event, jobId: int, hostname: string) {
    e.JobRegisters? && e.jobId == jobId && e.hostname == hostname && Registers(s.db, jobId)
  }

  // No event deletes or replaces jobs, and no registration of this host gets another hash through.
  ghost predicate KeepsHost(s: State, events: seq<Event>, jobId: int, hostname: string, hash: Hash)
    decreases |events|
  {
    events == [] || (
      && Possible(s, events[0]) && !events[0].ReplaceJob? && !events[0].DeleteBenchmark?
      && (SetsHost(s, events[0], jobId, hostname) ==> events[0].hash == hash)
      && KeepsHost(Happen(s, events[0]), events[1..], jobId, hostname, hash))
  }

  lemma {:induction false} AppendKeepsFirst(jobs: seq<Job>, job: Job, jobId: int)
    requires FindJob(jobs, jobId).Some?
    ensures FindJob(jobs + [job], jobId) == FindJob(jobs, jobId)
  {
    if jobs[0].jobId != jobId {
      assert (jobs + [job])[1..] == jobs[1..] + [job];
      AppendKeepsFirst(jobs[1..], job, jobId);
    }
  }

  lemma UpdateKeepsFirst(jobs: seq<Job>, k: nat, job: Job, jobId: int)
    requires k < |jobs| && job.jobId == jobs[k].jobId
    ensures FindJob(jobs[k := job], jobId) == FindJob(jobs, jobId)
  {
    var after := jobs[k := job];
    assert forall i :: 0 <= i < |jobs| ==> after[i].jobId == jobs[i].jobId;
    FindAfterUpdate(jobs, k, job, jobId);
  }

  lemma NewJobHasHost(db: Database, e: Event, jobId: int, hostname: string, hash: Hash)
    requires e.JobRegisters? && FindJob(db.jobs, e.jobId).None?
    ensures HasHost(WithJob(db, e.jobId, e.hostname, e.hash), e.jobId, e.hostname, e.hash)
    ensures HasHost(db, jobId, hostname, hash) ==>
      HasHost(WithJob(db, e.jobId, e.hostname, e.hash), jobId, hostname, hash)
  {
    var job := Job(e.jobId, db.lastRun + 1, None, map[e.hostname := e.hash], true);
    AppendedJobIsFound(db.jobs, job);
    if FindJob(db.jobs, jobId).Some? { AppendKeepsFirst(db.jobs, job, jobId); }
  }

  lemma OldJobHasHost(db: Database, e: Event, jobId: int, hostname: string, hash: Hash)
    requires e.JobRegisters? && FindJob(db.jobs, e.jobId).Some? && Registers(db, e.jobId)
    ensures HasHost(WithJob(db, e.jobId, e.hostname, e.hash), e.jobId, e.hostname, e.hash)
    ensures HasHost(db, jobId, hostname, hash) && (e.jobId != jobId || e.hostname != hostname) ==>
      HasHost(WithJob(db, e.jobId, e.hostname, e.hash), jobId, hostname, hash)
  {
    var k := FindJob(db.jobs, e.jobId).value;
    var job := db.jobs[k].(nodes := db.jobs[k].nodes[e.hostname := e.hash]);
    UpdateKeepsFirst(db.jobs, k, job, e.jobId);
    UpdateKeepsFirst(db.jobs, k, job, jobId);
  }

  lemma StampKeepsHosts(db: Database, h: Hash, check: real, stamp: real, jobId: int, hostname: string, hash: Hash)
    ensures HasHost(StampNode(db, h, check, stamp), jobId, hostname, hash) <==> HasHost(db, jobId, hostname, hash)
  {
  }

  // A successful registration puts its host on record and leaves the other hosts of every job.
  lemma RegistrationKeepsHosts(s: State, e: Event, jobId: int, hostname: string, hash: Hash)
    requires Possible(s, e) && e.JobRegisters? && Registers(s.db, e.jobId)
    ensures HasHost(Happen(s, e).db, e.jobId, e.hostname, e.hash)
    ensures HasHost(s.db, jobId, hostname, hash) && (e.jobId != jobId || e.hostname != hostname) ==>
      HasHost(Happen(s, e).db, jobId, hostname, hash)
  {
    var mid := WithJob(s.db, e.jobId, e.hostname, e.hash);
    if FindJob(s.db.jobs, e.jobId).None? {
      NewJobHasHost(s.db, e, jobId, hostname, hash);
    } else {
      OldJobHasHost(s.db, e, jobId, hostname, hash);
    }
    StampKeepsHosts(mid, e.hash, e.check, e.stamp, e.jobId, e.hostname, e.hash);
    StampKeepsHosts(mid, e.hash, e.check, e.stamp, jobId, hostname, hash);
  }

  lemma EventKeepsHost(s: State, e: Event, jobId: int, hostname: string, hash: Hash)
    requires KeepsHost(s, [e], jobId, hostname, hash) && HasHost(s.db, jobId, hostname, hash)
    ensures HasHost(Happen(s, e).db, jobId, hostname, hash)
  {
    if e.JobRegisters? && Registers(s.db, e.jobId) { RegistrationKeepsHosts(s, e, jobId, hostname, hash); }
    if e.SubmitJob? { AppendKeepsFirst(s.db.jobs, e.job, jobId); }
  }

  lemma {:induction false} HostStays(s: State, events: seq<Event>, t: State, jobId: int, hostname: string, hash: Hash)
    requires History(s, events, t) && KeepsHost(s, events, jobId, hostname, hash)
    requires HasHost(s.db, jobId, hostname, hash)
    ensures HasHost(t.db, jobId, hostname, hash)
    decreases |events|
  {
    if events != [] {
      assert KeepsHost(s, [events[0]], jobId, hostname, hash) by { assert [events[0]][1..] == []; }
      EventKeepsHost(s, events[0], jobId, hostname, hash);
      HostStays(Happen(s, events[0]), events[1..], t, jobId, hostname, hash);
    }
  }

  // Every host that registered for a job is in its record with its latest hash, until jobs are
  // deleted or replaced.
  lemma RegisteredHostStays(s: State, e: Event, events: seq<Event>, t: State)
    requires Possible(s, e) && e.JobRegisters? && Registers(s.db, e.jobId)
    requires History(Happen(s, e), events, t) && KeepsHost(Happen(s, e), events, e.jobId, e.hostname, e.hash)
    ensures HasHost(t.db, e.jobId, e.hostname, e.hash)
  {
    RegistrationKeepsHosts(s, e, e.jobId, e.hostname, e.hash);
    HostStays(Happen(s, e), events, t, e.jobId, e.hostname, e.hash);
  }
}
