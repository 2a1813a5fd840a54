// Renaming job ids on import: the map to fresh ids, and what applying it to a set of records
// preserves.
module JobIdRemap {

  datatype Option<T> = None | Some(value: T)

  // Old ids to new ids: the i-th id becomes maxJobId + 1 + i, the last occurrence counting.
  function LastIndex(jobIds: seq<int>, id: int): (i: nat)
    requires id in jobIds
    ensures i < |jobIds| && jobIds[i] == id && forall j :: i < j < |jobIds| ==> jobIds[j] != id
  {
    if jobIds[|jobIds| - 1] == id then |jobIds| - 1
    else
      assert jobIds == jobIds[..|jobIds| - 1] + [jobIds[|jobIds| - 1]];
      LastIndex(jobIds[..|jobIds| - 1], id)
  }

  // The map of the import, as a function of the ids and the maximum.
  function NewIds(jobIds: seq<int>, maxJobId: int): map<int, int> {
    map id | id in jobIds :: maxJobId + 1 + LastIndex(jobIds, id)
  }

  predicate Injective(m: map<int, int>) {
    forall a, b :: a in m && b in m && m[a] == m[b] ==> a == b
  }

  // New ids are fresh and distinct.
  lemma NewIdsAreFresh(jobIds: seq<int>, maxJobId: int)
    ensures forall id :: id in NewIds(jobIds, maxJobId) ==> NewIds(jobIds, maxJobId)[id] > maxJobId
    ensures Injective(NewIds(jobIds, maxJobId))
  {
  }

  method GetNewJobIds(jobIds: seq<int>, maxJobId: int) returns (jobIdMap: map<int, int>)
    ensures jobIdMap == NewIds(jobIds, maxJobId)
  {
    jobIdMap := map[];
    for i := 0 to |jobIds|
      invariant jobIdMap == NewIds(jobIds[..i], maxJobId)
    {
      OneMoreId(jobIds[..i], jobIds[i], maxJobId);
      assert jobIds[..i + 1] == jobIds[..i] + [jobIds[i]];
      jobIdMap := jobIdMap[jobIds[i] := maxJobId + 1 + i];
    }
    assert jobIds[..|jobIds|] == jobIds;
  }

  lemma LastIndexAppended(before: seq<int>, id: int, x: int)
    requires x in before + [id]
    ensures x == id ==> LastIndex(before + [id], x) == |before|
    ensures x != id ==> x in before && LastIndex(before + [id], x) == LastIndex(before, x)
  {
    assert (before + [id])[..|before|] == before;
  }

  lemma OneMoreId(before: seq<int>, id: int, maxJobId: int)
    ensures NewIds(before + [id], maxJobId) == NewIds(before, maxJobId)[id := maxJobId + 1 + |before|]
  {
    var m, n := NewIds(before + [id], maxJobId), NewIds(before, maxJobId)[id := maxJobId + 1 + |before|];
    assert forall x :: x in before + [id] <==> x in before || x == id;
    forall x | x in m ensures x in n && m[x] == n[x] {
      LastIndexAppended(before, id, x);
    }
    forall x | x in n ensures x in m {
    }
  }

  // The stored job ids, each once, in the order of the records.
  function CollectedIds(jobs: seq<Option<int>>): (ids: seq<int>)
    ensures forall id :: id in ids <==> Some(id) in jobs
    ensures forall i, j :: 0 <= i < j < |ids| ==> ids[i] != ids[j]
  {
    if jobs == [] then []
    else
      var before, job := CollectedIds(jobs[..|jobs| - 1]), jobs[|jobs| - 1];
      assert jobs == jobs[..|jobs| - 1] + [job];
      if job.Some? && job.value !in before then before + [job.value] else before
  }

  // The id is stored in record i for the first time.
  predicate FirstStored(jobs: seq<Option<int>>, id: int, i: nat) {
    i < |jobs| && jobs[i] == Some(id) && forall k :: 0 <= k < i ==> jobs[k] != Some(id)
  }

  // The ids are in the order of the records that hold them first.
  lemma {:induction false} CollectedInOrder(jobs: seq<Option<int>>, a: nat, b: nat, i: nat, j: nat)
    requires a < b < |CollectedIds(jobs)|
    requires FirstStored(jobs, CollectedIds(jobs)[a], i) && FirstStored(jobs, CollectedIds(jobs)[b], j)
    ensures i < j
  {
    var front := jobs[..|jobs| - 1];
    assert forall k :: 0 <= k < |front| ==> front[k] == jobs[k];
    StoredInFront(jobs, CollectedIds(jobs)[a], i);
    StoredInFront(jobs, CollectedIds(jobs)[b], j);
    if b < |CollectedIds(front)| { CollectedInOrder(front, a, b, i, j); }
  }

  lemma StoredInFront(jobs: seq<Option<int>>, id: int, i: nat)
    requires jobs != [] && FirstStored(jobs, id, i)
    ensures var front := jobs[..|jobs| - 1];
      if Some(id) in front then FirstStored(front, id, i) else i == |front|
  {
    var front := jobs[..|jobs| - 1];
    assert forall k :: 0 <= k < |front| ==> front[k] == jobs[k];
    if Some(id) in front {
      var k :| 0 <= k < |front| && front[k] == Some(id);
      assert jobs[k] == Some(id);
    }
  }

  // Without a list in the benchmark, the ids are collected from the stored jobs.
  method CollectJobIds(jobs: seq<Option<int>>) returns (jobIds: seq<int>)
    ensures jobIds == CollectedIds(jobs)
  {
    jobIds := [];
    for i := 0 to |jobs|
      invariant jobIds == CollectedIds(jobs[..i])
    {
      assert jobs[..i + 1][..i] == jobs[..i];
      if jobs[i].Some? && jobs[i].value !in jobIds { jobIds := jobIds + [jobs[i].value]; }
    }
    assert jobs[..|jobs|] == jobs;
  }

  function Renamed(m: map<int, int>, id: int): int {
    if id in m then m[id] else id
  }

  function RenamedInfo(m: map<int, int>, id: Option<int>): Option<int> {
    match id case None => None case Some(i) => Some(Renamed(m, i))
  }

  // ----- the rewriting in place -----

  // The id list of a benchmark.
  method RenameList(jobIds: array<int>, m: map<int, int>)
    modifies jobIds
    ensures forall i :: 0 <= i < jobIds.Length ==> jobIds[i] == Renamed(m, old(jobIds[i]))
  {
    for i := 0 to jobIds.Length
      invariant forall k :: 0 <= k < i ==> jobIds[k] == Renamed(m, old(jobIds[k]))
      invariant forall k :: i <= k < jobIds.Length ==> jobIds[k] == old(jobIds[k])
    {
      var oldId := jobIds[i];
      jobIds[i] := if oldId in m then m[oldId] else oldId;
    }
  }

  // A record of the jobs or outputs collection. `infoJobId` is the id inside jobInfo, if any.
  class Record {
    var jobId: int
    var infoJobId: Option<int>

    constructor (jobId: int, infoJobId: Option<int>)
      ensures this.jobId == jobId && this.infoJobId == infoJobId
    {
      this.jobId, this.infoJobId := jobId, infoJobId;
    }

    method RenameJob(m: map<int, int>)
      modifies this
      ensures jobId == Renamed(m, old(jobId)) && infoJobId == RenamedInfo(m, old(infoJobId))
    {
      jobId := if jobId in m then m[jobId] else jobId;
      if infoJobId.Some? {
        var nested := infoJobId.value;
        infoJobId := Some(if nested in m then m[nested] else nested);
      }
    }

    method RenameOutput(m: map<int, int>)
      modifies this
      ensures jobId == Renamed(m, old(jobId)) && infoJobId == old(infoJobId)
    {
      if jobId in m { jobId := m[jobId]; }
    }
  }

  // ----- what renaming preserves -----

  predicate RenamedBy(m: map<int, int>, before: seq<int>, after: seq<int>) {
    |after| == |before| && forall i :: 0 <= i < |before| ==> after[i] == Renamed(m, before[i])
  }

  // References agree before and after: two of them name the same job now exactly if they did.
  predicate KeepsReferences(before: seq<int>, after: seq<int>) {
    |before| == |after|
    && forall i, j :: 0 <= i < |before| && 0 <= j < |before| ==> (after[i] == after[j] <==> before[i] == before[j])
  }

  // The id that gets the number r is listed at the place that r is above the maximum.
  predicate Claims(jobIds: seq<int>, maxJobId: int, id: int, r: int) {
    maxJobId < r <= maxJobId + |jobIds| && jobIds[r - maxJobId - 1] == id
    && forall k :: r - maxJobId - 1 < k < |jobIds| ==> jobIds[k] != id
  }

  // Some unlisted reference has a number that an id among the references is about to get. This
  // can be read off the file and the maximum before anything is renamed.
  predicate Collides(jobIds: seq<int>, maxJobId: int, refs: seq<int>) {
    exists i, j :: 0 <= i < |refs| && 0 <= j < |refs| && refs[j] !in jobIds
      && Claims(jobIds, maxJobId, refs[i], refs[j])
  }

  // Which number an id gets, read from the number's side.
  lemma NewIdIffClaimed(jobIds: seq<int>, maxJobId: int, id: int, r: int)
    ensures id in jobIds && NewIds(jobIds, maxJobId)[id] == r <==> Claims(jobIds, maxJobId, id, r)
  {
    if Claims(jobIds, maxJobId, id, r) {
      var k := r - maxJobId - 1;
      assert jobIds[k] == id && id in jobIds;
      assert LastIndex(jobIds, id) == k;
    }
  }

  // Which references name the same job is preserved exactly when none collides.
  lemma ReferencesKeptIffNoCollision(jobIds: seq<int>, maxJobId: int, before: seq<int>, after: seq<int>)
    requires RenamedBy(NewIds(jobIds, maxJobId), before, after)
    ensures KeepsReferences(before, after) <==> !Collides(jobIds, maxJobId, before)
  {
    if Collides(jobIds, maxJobId, before) {
      var i, j :| 0 <= i < |before| && 0 <= j < |before| && before[j] !in jobIds
        && Claims(jobIds, maxJobId, before[i], before[j]);
      NewIdIffClaimed(jobIds, maxJobId, before[i], before[j]);
      assert after[i] == after[j] && before[i] != before[j];
    } else {
      forall i, j | 0 <= i < |before| && 0 <= j < |before|
        ensures after[i] == after[j] <==> before[i] == before[j]
      {
        PairKept(jobIds, maxJobId, before, i, j);
      }
    }
  }

  lemma PairKept(jobIds: seq<int>, maxJobId: int, refs: seq<int>, i: nat, j: nat)
    requires i < |refs| && j < |refs| && !Collides(jobIds, maxJobId, refs)
    ensures var m := NewIds(jobIds, maxJobId); Renamed(m, refs[i]) == Renamed(m, refs[j]) <==> refs[i] == refs[j]
  {
    NewIdIffClaimed(jobIds, maxJobId, refs[i], refs[j]);
    NewIdIffClaimed(jobIds, maxJobId, refs[j], refs[i]);
    NewIdsAreFresh(jobIds, maxJobId);
  }

  // In particular when the benchmark lists every id, or when no unlisted id is above the maximum.
  lemma ListedIdsDoNotCollide(jobIds: seq<int>, maxJobId: int, refs: seq<int>)
    requires forall i :: 0 <= i < |refs| ==> refs[i] in jobIds || refs[i] <= maxJobId
    ensures !Collides(jobIds, maxJobId, refs)
  {
  }

  // The map of a folder. `stored` are the job ids on record for the benchmark's run number; a
  // maximum of 0 stands for none, and then nothing is renamed.
  function FolderIds(listed: seq<int>, stored: seq<Option<int>>, maxJobId: int): seq<int> {
    if maxJobId == 0 then [] else if listed != [] then listed else CollectedIds(stored)
  }

  // Which ids get a new number: the listed ones if the benchmark lists any, else all stored ones,
  // and none without a maximum.
  lemma RenamedIds(listed: seq<int>, stored: seq<Option<int>>, maxJobId: int, id: int)
    ensures var m := NewIds(FolderIds(listed, stored, maxJobId), maxJobId);
      (id in m <==> maxJobId != 0 && if listed != [] then id in listed else Some(id) in stored)
      && (id in m ==> maxJobId < m[id] <= maxJobId + if listed != [] then |listed| else |stored|)
  {
    CollectedIsShorter(stored);
  }

  lemma {:induction false} CollectedIsShorter(stored: seq<Option<int>>)
    ensures |CollectedIds(stored)| <= |stored|
  {
    if stored != [] { CollectedIsShorter(stored[..|stored| - 1]); }
  }

  // An unlisted id above the maximum can collide: the benchmark lists job 7, an output refers to
  // job 11, and with a maximum of 10 job 7 becomes 11 as well.
  lemma UnlistedIdCanCollide(stored: seq<Option<int>>, after: seq<int>)
    requires RenamedBy(NewIds(FolderIds([7], stored, 10), 10), [7, 7, 11], after)
    ensures after == [11, 11, 11] && !KeepsReferences([7, 7, 11], after)
  {
    var refs := [7, 7, 11];
    assert FolderIds([7], stored, 10) == [7];
    NewIdIffClaimed([7], 10, 7, 11);
    assert refs[2] !in [7] && Claims([7], 10, refs[1], refs[2]);
    ReferencesKeptIffNoCollision([7], 10, refs, after);
  }

  // ----- one imported folder -----

  function JobIdsOf(records: seq<Record>): (ids: seq<int>)
    reads records
    ensures |ids| == |records| && forall k :: 0 <= k < |ids| ==> ids[k] == records[k].jobId
  {
    if records == [] then [] else JobIdsOf(records[..|records| - 1]) + [records[|records| - 1].jobId]
  }

  function InfosOf(records: seq<Record>): (infos: seq<Option<int>>)
    reads records
    ensures |infos| == |records| && forall k :: 0 <= k < |infos| ==> infos[k] == records[k].infoJobId
  {
    if records == [] then [] else InfosOf(records[..|records| - 1]) + [records[|records| - 1].infoJobId]
  }

  // The ids that are there.
  function Present(infos: seq<Option<int>>): (ids: seq<int>)
    ensures forall id :: id in ids <==> Some(id) in infos
  {
    if infos == [] then []
    else
      assert infos == infos[..|infos| - 1] + [infos[|infos| - 1]];
      var before, info := Present(infos[..|infos| - 1]), infos[|infos| - 1];
      if info.Some? then before + [info.value] else before
  }

  lemma {:induction false} PresentRenamed(m: map<int, int>, before: seq<Option<int>>, after: seq<Option<int>>)
    requires |before| == |after| && forall k :: 0 <= k < |before| ==> after[k] == RenamedInfo(m, before[k])
    ensures RenamedBy(m, Present(before), Present(after))
  {
    if before != [] { PresentRenamed(m, before[..|before| - 1], after[..|after| - 1]); }
  }

  // Every reference to a job in the folder: the benchmark's list, its jobs, the ids nested in
  // their job info, and the outputs.
  function References(benchmark: array<int>, jobs: seq<Record>, outputs: seq<Record>): seq<int>
    reads benchmark, jobs, outputs
  {
    benchmark[..] + JobIdsOf(jobs) + Present(InfosOf(jobs)) + JobIdsOf(outputs)
  }

  ghost predicate DistinctRecords(records: seq<Record>) {
    forall i, j :: 0 <= i < j < |records| ==> records[i] != records[j]
  }

  ghost predicate DistinctFrom(jobs: seq<Record>, outputs: seq<Record>) {
    forall i, j :: 0 <= i < |jobs| && 0 <= j < |outputs| ==> jobs[i] != outputs[j]
  }

  method RenameJobs(jobs: seq<Record>, m: map<int, int>)
    requires DistinctRecords(jobs)
    modifies jobs
    ensures RenamedBy(m, old(JobIdsOf(jobs)), JobIdsOf(jobs))
    ensures RenamedBy(m, old(Present(InfosOf(jobs))), Present(InfosOf(jobs)))
  {
    for i := 0 to |jobs|
      invariant forall k :: 0 <= k < i ==>
        jobs[k].jobId == Renamed(m, old(jobs[k].jobId)) && jobs[k].infoJobId == RenamedInfo(m, old(jobs[k].infoJobId))
      invariant forall k :: i <= k < |jobs| ==>
        jobs[k].jobId == old(jobs[k].jobId) && jobs[k].infoJobId == old(jobs[k].infoJobId)
    {
      jobs[i].RenameJob(m);
    }
    PresentRenamed(m, old(InfosOf(jobs)), InfosOf(jobs));
  }

  method RenameOutputs(outputs: seq<Record>, m: map<int, int>)
    requires DistinctRecords(outputs)
    modifies outputs
    ensures RenamedBy(m, old(JobIdsOf(outputs)), JobIdsOf(outputs))
  {
    for i := 0 to |outputs|
      invariant forall k :: 0 <= k < i ==> outputs[k].jobId == Renamed(m, old(outputs[k].jobId))
      invariant forall k :: i <= k < |outputs| ==> outputs[k].jobId == old(outputs[k].jobId)
    {
      outputs[i].RenameOutput(m);
    }
  }

  lemma RenamedParts(m: map<int, int>, a: seq<int>, b: seq<int>, a': seq<int>, b': seq<int>)
    requires RenamedBy(m, a, a') && RenamedBy(m, b, b')
    ensures RenamedBy(m, a + b, a' + b')
  {
  }

  lemma RenamedWhole(m: map<int, int>, a: seq<int>, b: seq<int>, c: seq<int>, d: seq<int>,
      a': seq<int>, b': seq<int>, c': seq<int>, d': seq<int>)
    requires RenamedBy(m, a, a') && RenamedBy(m, b, b') && RenamedBy(m, c, c') && RenamedBy(m, d, d')
    ensures RenamedBy(m, a + b + c + d, a' + b' + c' + d')
  {
    RenamedParts(m, a, b, a', b');
    RenamedParts(m, a + b, c, a' + b', c');
    RenamedParts(m, a + b + c, d, a' + b' + c', d');
  }

  method FolderMap(listed: seq<int>, stored: seq<Option<int>>, maxJobId: int) returns (m: map<int, int>)
    ensures m == NewIds(FolderIds(listed, stored, maxJobId), maxJobId)
  {
    if maxJobId == 0 { return map[]; }
    var jobIds := listed;
    if listed == [] { jobIds := CollectJobIds(stored); }
    m := GetNewJobIds(jobIds, maxJobId);
  }

  // The folder's references, and what survives of them: which of them name the same job is
  // preserved exactly when none collides, and in particular when every one is listed.
  method ImportFolder(benchmark: array<int>, stored: seq<Option<int>>, jobs: seq<Record>, outputs: seq<Record>,
      maxJobId: int)
    requires DistinctRecords(jobs) && DistinctRecords(outputs) && DistinctFrom(jobs, outputs)
    modifies benchmark, jobs, outputs
    ensures RenamedBy(NewIds(FolderIds(old(benchmark[..]), stored, maxJobId), maxJobId),
                      old(References(benchmark, jobs, outputs)), References(benchmark, jobs, outputs))
    ensures KeepsReferences(old(References(benchmark, jobs, outputs)), References(benchmark, jobs, outputs))
       <==> !Collides(FolderIds(old(benchmark[..]), stored, maxJobId), maxJobId,
              old(References(benchmark, jobs, outputs)))
    ensures AllListed(old(References(benchmark, jobs, outputs)), old(benchmark[..]), stored, maxJobId) ==>
      KeepsReferences(old(References(benchmark, jobs, outputs)), References(benchmark, jobs, outputs))
  {
    ghost var ids, before := FolderIds(benchmark[..], stored, maxJobId), References(benchmark, jobs, outputs);
    var m := FolderMap(benchmark[..], stored, maxJobId);
    Rewrite(benchmark, jobs, outputs, m);
    ReferencesKeptIffNoCollision(ids, maxJobId, before, References(benchmark, jobs, outputs));
    if AllListed(before, old(benchmark[..]), stored, maxJobId) && maxJobId != 0 {
      ListedIdsDoNotCollide(ids, maxJobId, before);
    }
  }

  // Every reference is to a job that gets a new id, unless none does.
  predicate AllListed(refs: seq<int>, listed: seq<int>, stored: seq<Option<int>>, maxJobId: int) {
    maxJobId == 0 || forall i :: 0 <= i < |refs| ==> refs[i] in FolderIds(listed, stored, maxJobId)
  }

  method Rewrite(benchmark: array<int>, jobs: seq<Record>, outputs: seq<Record>, m: map<int, int>)
    requires DistinctRecords(jobs) && DistinctRecords(outputs) && DistinctFrom(jobs, outputs)
    modifies benchmark, jobs, outputs
    ensures RenamedBy(m, old(References(benchmark, jobs, outputs)), References(benchmark, jobs, outputs))
  {
    ghost var a, b, c, d := benchmark[..], JobIdsOf(jobs), Present(InfosOf(jobs)), JobIdsOf(outputs);
    RenameList(benchmark, m);
    ghost var a' := benchmark[..];
    assert JobIdsOf(jobs) == b && InfosOf(jobs) == old(InfosOf(jobs)) && JobIdsOf(outputs) == d;
    RewriteRecords(jobs, outputs, m);
    assert benchmark[..] == a';
    RenamedWhole(m, a, b, c, d, a', JobIdsOf(jobs), Present(InfosOf(jobs)), JobIdsOf(outputs));
  }

  method RewriteRecords(jobs: seq<Record>, outputs: seq<Record>, m: map<int, int>)
    requires DistinctRecords(jobs) && DistinctRecords(outputs) && DistinctFrom(jobs, outputs)
    modifies jobs, outputs
    ensures RenamedBy(m, old(JobIdsOf(jobs)), JobIdsOf(jobs))
    ensures RenamedBy(m, old(Present(InfosOf(jobs))), Present(InfosOf(jobs)))
    ensures RenamedBy(m, old(JobIdsOf(outputs)), JobIdsOf(outputs))
  {
    RenameJobs(jobs, m);
    ghost var b, infos := JobIdsOf(jobs), InfosOf(jobs);
    assert forall k :: 0 <= k < |outputs| ==> outputs[k] !in jobs;
    assert JobIdsOf(outputs) == old(JobIdsOf(outputs));
    RenameOutputs(outputs, m);
    assert forall k :: 0 <= k < |jobs| ==> jobs[k] !in outputs;
    assert JobIdsOf(jobs) == b && InfosOf(jobs) == infos;
  }
}
