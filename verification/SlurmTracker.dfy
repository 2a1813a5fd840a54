// Tracking Slurm jobs by polling: jobs that drop out of the queue listing are looked up once
// more in the next successful poll, and jobs that ended more than seven days ago are evicted from
// the table.
module SlurmTracker {

  datatype Option<T> = None | Some(value: T)

  const WEEK := 7 * 24 * 60 * 60

  // `endTime` is absent while it is unknown.
  datatype JobInfo = JobInfo(endTime: Option<int>, state: string)

  // A listed job; `info` is absent for jobs not started for monitoring.
  datatype Listing = Listing(jobId: int, info: Option<JobInfo>)

  // What one poll sees: the queue listing, unless it fails, the answers of the single-job
  // lookups, and the clock at the eviction.
  datatype Poll = Poll(listing: Option<seq<Listing>>, lookup: map<int, JobInfo>, now: int)

  // ----- the poll as a function of the state -----

  function Recorded(listing: seq<Listing>): seq<int> {
    if listing == [] then []
    else
      var l, before := listing[|listing| - 1], Recorded(listing[..|listing| - 1]);
      if l.info.Some? then before + [l.jobId] else before
  }

  function Listed(jobs: map<int, JobInfo>, listing: seq<Listing>): map<int, JobInfo> {
    if listing == [] then jobs
    else
      var l := listing[|listing| - 1];
      var before := Listed(jobs, listing[..|listing| - 1]);
      if l.info.Some? then before[l.jobId := l.info.value] else before
  }

  function ToSet(xs: seq<int>): set<int> { set x | x in xs }

  function Dropped(previous: seq<int>, recorded: seq<int>): set<int> {
    ToSet(previous) - ToSet(recorded)
  }

  // Lookups that fail change nothing.
  function Refreshed(jobs: map<int, JobInfo>, ids: set<int>, lookup: map<int, JobInfo>): map<int, JobInfo> {
    jobs + map id | id in ids && id in lookup :: lookup[id]
  }

  lemma RefreshOneMore(jobs: map<int, JobInfo>, ids: set<int>, id: int, lookup: map<int, JobInfo>)
    ensures id in lookup ==> Refreshed(jobs, ids + {id}, lookup) == Refreshed(jobs, ids, lookup)[id := lookup[id]]
    ensures id !in lookup ==> Refreshed(jobs, ids + {id}, lookup) == Refreshed(jobs, ids, lookup)
  {
  }

  // An end time of zero counts as unknown.
  predicate Outdated(job: JobInfo, now: int) {
    job.endTime.Some? && job.endTime.value != 0 && job.endTime.value < now - WEEK
  }

  function OutdatedIds(jobs: map<int, JobInfo>, now: int): set<int> {
    set id | id in jobs && Outdated(jobs[id], now)
  }

  function Kept(jobs: map<int, JobInfo>, now: int): map<int, JobInfo> {
    map id | id in jobs && !Outdated(jobs[id], now) :: jobs[id]
  }

  datatype State = State(jobs: map<int, JobInfo>, previous: seq<int>)

  function Next(s: State, poll: Poll): State {
    match poll.listing
    case None => s
    case Some(listing) =>
      var recorded := Recorded(listing);
      State(Kept(Refreshed(Listed(s.jobs, listing), Dropped(s.previous, recorded), poll.lookup), poll.now), recorded)
  }

  // The jobs a poll looks up.
  function Looked(s: State, poll: Poll): set<int> {
    match poll.listing
    case None => {}
    case Some(listing) => Dropped(s.previous, Recorded(listing))
  }

  // Some element, as the iteration order of a set leaves open.
  method Pick<T(==)>(s: set<T>) returns (x: T)
    requires s != {}
    ensures x in s
  {
    x :| x in s;
  }

  lemma MoveOver(a: set<int>, b: set<int>, x: int)
    requires x in b
    ensures (a + {x}) + (b - {x}) == a + b && |b - {x}| < |b|
  {
  }

  // ----- the connector -----

  class SlurmConnector {
    var jobs: map<int, JobInfo>
    var previouslyRecorded: seq<int>

    ghost function Model(): State
      reads this
    {
      State(jobs, previouslyRecorded)
    }

    constructor ()
      ensures Model() == State(map[], [])
    {
      jobs, previouslyRecorded := map[], [];
    }

    method UpdateJobScontrol(jobId: int, lookup: map<int, JobInfo>)
      modifies `jobs
      ensures jobId in lookup ==> jobs == old(jobs)[jobId := lookup[jobId]]
      ensures jobId !in lookup ==> jobs == old(jobs)
    {
      if jobId in lookup { jobs := jobs[jobId := lookup[jobId]]; }
    }

    // `looked` are the jobs that got their lookup in this poll.
    method GetSqueue(poll: Poll) returns (looked: set<int>)
      modifies this
      ensures Model() == Next(old(Model()), poll)
      ensures looked == Looked(old(Model()), poll)
    {
      looked := {};
      if poll.listing.None? { return; }
      var listing := poll.listing.value;
      var recordedJobs: seq<int> := [];
      for i := 0 to |listing|
        invariant jobs == Listed(old(jobs), listing[..i]) && recordedJobs == Recorded(listing[..i])
        invariant previouslyRecorded == old(previouslyRecorded)
      {
        assert listing[..i + 1][..i] == listing[..i];
        if listing[i].info.Some? {
          jobs := jobs[listing[i].jobId := listing[i].info.value];
          recordedJobs := recordedJobs + [listing[i].jobId];
        }
      }
      assert listing[..|listing|] == listing;
      var dropped: set<int> := (set x | x in previouslyRecorded) - (set x | x in recordedJobs);
      previouslyRecorded := recordedJobs;
      looked := RefreshDropped(dropped, poll.lookup);
      EvictOld(poll.now);
    }

    // One lookup for each dropped job, in any order. `looked` collects the jobs as they are looked up.
    method RefreshDropped(dropped: set<int>, lookup: map<int, JobInfo>) returns (looked: set<int>)
      modifies `jobs
      ensures jobs == Refreshed(old(jobs), dropped, lookup)
      ensures looked == dropped
    {
      looked := {};
      var todo: set<int> := dropped;
      while todo != {}
        invariant looked + todo == dropped
        invariant jobs == Refreshed(old(jobs), looked, lookup)
        decreases |todo|
      {
        var jobId := Pick(todo);
        RefreshOneMore(old(jobs), looked, jobId, lookup);
        UpdateJobScontrol(jobId, lookup);
        MoveOver(looked, todo, jobId);
        todo, looked := todo - {jobId}, looked + {jobId};
      }
    }

    method EvictOld(now: int)
      modifies `jobs
      ensures jobs == Kept(old(jobs), now)
    {
      var delete: set<int>, todo: set<int> := {}, jobs.Keys;
      while todo != {}
        invariant todo <= jobs.Keys
        invariant jobs == old(jobs)
        invariant delete == OutdatedIds(jobs, now) - todo
        decreases |todo|
      {
        var id := Pick(todo);
        if Outdated(jobs[id], now) { delete := delete + {id}; }
        todo := todo - {id};
      }
      jobs := jobs - delete;
    }
  }

  // ----- whole runs of polls -----

  function After(s: State, polls: seq<Poll>): State {
    if polls == [] then s else Next(After(s, polls[..|polls| - 1]), polls[|polls| - 1])
  }

  // The jobs recorded by the last successful poll among the first n, or initially.
  function LastRecorded(previous: seq<int>, polls: seq<Poll>, n: nat): seq<int>
    requires n <= |polls|
  {
    if n == 0 then previous
    else if polls[n - 1].listing.Some? then Recorded(polls[n - 1].listing.value)
    else LastRecorded(previous, polls, n - 1)
  }

  lemma {:induction false} PreviousIsLastRecorded(s: State, polls: seq<Poll>, n: nat)
    requires n <= |polls|
    ensures After(s, polls[..n]).previous == LastRecorded(s.previous, polls, n)
  {
    if n > 0 {
      PreviousIsLastRecorded(s, polls, n - 1);
      assert polls[..n][..n - 1] == polls[..n - 1];
    }
  }

  // Poll n looks a job up exactly when it succeeds without the job and the last successful poll
  // before it had recorded it, however many polls failed in between.
  lemma LookedUpExactlyWhenDropped(s: State, polls: seq<Poll>, n: nat, id: int)
    requires n < |polls|
    ensures id in Looked(After(s, polls[..n]), polls[n])
      <==> polls[n].listing.Some? && id !in Recorded(polls[n].listing.value) && id in LastRecorded(s.previous, polls, n)
  {
    PreviousIsLastRecorded(s, polls, n);
  }

  lemma {:induction false} RecordedStays(previous: seq<int>, polls: seq<Poll>, i: nat, n: nat)
    requires i < n <= |polls| && polls[i].listing.Some?
    requires forall k :: i < k < n ==> polls[k].listing.None?
    ensures LastRecorded(previous, polls, n) == Recorded(polls[i].listing.value)
  {
    if n > i + 1 { RecordedStays(previous, polls, i, n - 1); }
  }

  // No poll from j to before n records the job.
  predicate UnrecordedWithin(polls: seq<Poll>, j: nat, n: nat, id: int)
    requires n <= |polls|
  {
    forall m :: j <= m < n ==> !Records(polls[m], id)
  }

  predicate Records(poll: Poll, id: int) {
    poll.listing.Some? && id in Recorded(poll.listing.value)
  }

  // Recorded by successful poll i, missing from the next successful poll j: looked up in poll j,
  // in none between and in none after until it is recorded again. Failed polls neither lose nor
  // repeat it.
  lemma DroppedJobIsLookedUpOnce(s: State, polls: seq<Poll>, i: nat, j: nat, id: int)
    requires i < j < |polls| && polls[i].listing.Some? && polls[j].listing.Some?
    requires forall k :: i < k < j ==> polls[k].listing.None?
    requires id in Recorded(polls[i].listing.value) && id !in Recorded(polls[j].listing.value)
    ensures id in Looked(After(s, polls[..j]), polls[j])
    ensures forall k :: i < k < j ==> id !in Looked(After(s, polls[..k]), polls[k])
    ensures forall k :: j < k < |polls| && UnrecordedWithin(polls, j, k, id) ==>
      id !in Looked(After(s, polls[..k]), polls[k])
  {
    RecordedStays(s.previous, polls, i, j);
    LookedUpExactlyWhenDropped(s, polls, j, id);
    forall k | j < k < |polls| && UnrecordedWithin(polls, j, k, id)
      ensures id !in Looked(After(s, polls[..k]), polls[k])
    {
      LookedUpExactlyWhenDropped(s, polls, k, id);
      NotRecordedSince(s.previous, polls, j, k, id);
    }
  }

  lemma {:induction false} NotRecordedSince(previous: seq<int>, polls: seq<Poll>, j: nat, n: nat, id: int)
    requires j < n <= |polls| && polls[j].listing.Some?
    requires UnrecordedWithin(polls, j, n, id)
    ensures id !in LastRecorded(previous, polls, n)
  {
    if n > j + 1 && polls[n - 1].listing.None? { NotRecordedSince(previous, polls, j, n - 1, id); }
  }

  // A job leaves the table only with a known end time more than seven days old, and that end
  // time is the one on record after the poll's own listing and lookups.
  lemma OnlyOldJobsLeave(s: State, poll: Poll, id: int)
    requires id in s.jobs && id !in Next(s, poll).jobs
    ensures poll.listing.Some?
    ensures var jobs := Refreshed(Listed(s.jobs, poll.listing.value), Looked(s, poll), poll.lookup);
      id in jobs && Outdated(jobs[id], poll.now)
  {
    ListedKeeps(s.jobs, poll.listing.value, id);
  }

  lemma {:induction false} ListedKeeps(jobs: map<int, JobInfo>, listing: seq<Listing>, id: int)
    requires id in jobs
    ensures id in Listed(jobs, listing)
  {
    if listing != [] { ListedKeeps(jobs, listing[..|listing| - 1], id); }
  }

  // A job that a successful poll records stays exactly when its own record is not outdated.
  lemma RecordedJobStaysUnlessOld(s: State, poll: Poll, id: int)
    requires poll.listing.Some? && id in Recorded(poll.listing.value)
    ensures id in Listed(s.jobs, poll.listing.value)
    ensures id in Next(s, poll).jobs <==> !Outdated(Listed(s.jobs, poll.listing.value)[id], poll.now)
  {
    RecordedIsListed(s.jobs, poll.listing.value, id);
  }

  lemma {:induction false} RecordedIsListed(jobs: map<int, JobInfo>, listing: seq<Listing>, id: int)
    requires id in Recorded(listing)
    ensures id in Listed(jobs, listing)
  {
    var before := listing[..|listing| - 1];
    if id in Recorded(before) { RecordedIsListed(jobs, before, id); }
  }

  // ----- the table after a poll, read off the poll -----

  // Entry k is the last one of the listing that carries an info for the job.
  predicate LastEntry(listing: seq<Listing>, id: int, k: nat) {
    k < |listing| && Carries(listing[k], id) && forall j :: k < j < |listing| ==> !Carries(listing[j], id)
  }

  predicate Carries(l: Listing, id: int) { l.jobId == id && l.info.Some? }

  ghost predicate CarriedBy(listing: seq<Listing>, id: int) {
    exists k :: 0 <= k < |listing| && Carries(listing[k], id)
  }

  // The record is known to have ended more than seven days before.
  predicate EndedLongAgo(job: JobInfo, now: int) {
    match job.endTime
    case None => false
    case Some(end) => end != 0 && now - end > 604_800
  }

  // What the poll says about a job: its last entry, or the answer of its lookup if it was recorded
  // before and is no more; otherwise what was known.
  ghost predicate Learned(s: State, poll: Poll, id: int, job: Option<JobInfo>)
    requires poll.listing.Some?
  {
    var listing := poll.listing.value;
    (forall k: nat :: LastEntry(listing, id, k) ==> job == listing[k].info)
    && (!CarriedBy(listing, id) ==>
          job == if id in s.previous && id in poll.lookup then Some(poll.lookup[id])
                 else if id in s.jobs then Some(s.jobs[id]) else None)
  }

  lemma EntriesSnoc(front: seq<Listing>, last: Listing, id: int)
    ensures Carries(last, id) ==> forall k: nat :: LastEntry(front + [last], id, k) <==> k == |front|
    ensures !Carries(last, id) ==> forall k: nat :: LastEntry(front + [last], id, k) <==> LastEntry(front, id, k)
    ensures CarriedBy(front + [last], id) <==> Carries(last, id) || CarriedBy(front, id)
  {
    var all := front + [last];
    assert all[|front|] == last && forall j :: 0 <= j < |front| ==> all[j] == front[j];
    if k :| 0 <= k < |front| && Carries(front[k], id) { assert Carries(all[k], id); }
  }

  lemma {:induction false} RecordedIffCarried(listing: seq<Listing>, id: int)
    ensures id in Recorded(listing) <==> CarriedBy(listing, id)
  {
    if listing != [] {
      var front, last := listing[..|listing| - 1], listing[|listing| - 1];
      RecordedIffCarried(front, id);
      assert listing == front + [last];
      EntriesSnoc(front, last, id);
    }
  }

  lemma {:induction false} ListedIs(jobs: map<int, JobInfo>, listing: seq<Listing>, id: int)
    ensures forall k: nat :: LastEntry(listing, id, k) ==>
      id in Listed(jobs, listing) && Some(Listed(jobs, listing)[id]) == listing[k].info
    ensures !CarriedBy(listing, id) ==>
      (id in Listed(jobs, listing) <==> id in jobs) && (id in jobs ==> Listed(jobs, listing)[id] == jobs[id])
  {
    if listing != [] {
      var front, last := listing[..|listing| - 1], listing[|listing| - 1];
      ListedIs(jobs, front, id);
      assert listing == front + [last];
      EntriesSnoc(front, last, id);
    }
  }

  // The whole table: every job has what the poll says about it, unless that ended long ago, and the
  // jobs recorded are those of the listing.
  lemma TableAfterPoll(s: State, poll: Poll, id: int, job: Option<JobInfo>)
    requires poll.listing.Some? && Learned(s, poll, id, job)
    ensures id in Next(s, poll).jobs <==> job.Some? && !EndedLongAgo(job.value, poll.now)
    ensures id in Next(s, poll).jobs ==> Next(s, poll).jobs[id] == job.value
    ensures id in Next(s, poll).previous <==> CarriedBy(poll.listing.value, id)
    ensures id in Looked(s, poll) <==> id in s.previous && !CarriedBy(poll.listing.value, id)
  {
    var listing := poll.listing.value;
    RecordedIffCarried(listing, id);
    ListedIs(s.jobs, listing, id);
    if CarriedBy(listing, id) {
      var k := SomeLastEntry(listing, id);
    }
  }

  lemma {:induction false} SomeLastEntry(listing: seq<Listing>, id: int) returns (k: nat)
    requires CarriedBy(listing, id)
    ensures LastEntry(listing, id, k)
  {
    var n := |listing| - 1;
    if Carries(listing[n], id) {
      k := n;
    } else {
      var i :| 0 <= i < |listing| && Carries(listing[i], id);
      assert Carries(listing[..n][i], id);
      k := SomeLastEntry(listing[..n], id);
      assert forall j :: 0 <= j < n ==> listing[..n][j] == listing[j];
    }
  }

  // A poll without a listing changes nothing and looks nothing up.
  lemma FailedPollKeepsTable(s: State, poll: Poll)
    requires poll.listing.None?
    ensures Next(s, poll) == s && Looked(s, poll) == {}
  {
  }
}
