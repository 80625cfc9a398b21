/** The job records of renderer/renderer.js and the pure operations on the
    job list: `queue.find` by id, `Object.assign` of a change set, the Clear Done
    filter and the Start All selection. */
module Jobs {
  import opened Wrappers
  import opened Seqs

  /** A job's `status`: a string, or `undefined` once a progress event without
      a status has been merged into the job. */
  datatype Status = Named(name: string) | Absent

  const Queued := Named("queued")
  const Fetching := Named("fetching")
  const Downloading := Named("downloading")
  const Completed := Named("completed")
  const Failed := Named("failed")

  /** One download request. `resolution` is JavaScript `null` for non-mp4 jobs. */
  datatype Job = Job(
    id: nat,
    url: string,
    format: string,
    resolution: Option<string>,
    outputFolder: string,
    status: Status,
    percent: real,
    fileSize: string,
    title: string,
    error: string)

  /** The argument of `updateJob`: an object literal naming some of the five
      mutable fields; `None` means the key is not in the literal. */
  datatype Changes = Changes(
    status: Option<Status>,
    percent: Option<real>,
    fileSize: Option<string>,
    title: Option<string>,
    error: Option<string>)

  /** `Object.assign(job, changes)`: every key present in `changes` overwrites
      the job's field, every key left out keeps its old value; the identifying
      fields are never among them. */
  function Assign(job: Job, ch: Changes): (r: Job)
    ensures r.id == job.id && r.url == job.url && r.format == job.format
    ensures r.resolution == job.resolution && r.outputFolder == job.outputFolder
    ensures r.status == (if ch.status.Some? then ch.status.value else job.status)
    ensures r.percent == (if ch.percent.Some? then ch.percent.value else job.percent)
    ensures r.fileSize == (if ch.fileSize.Some? then ch.fileSize.value else job.fileSize)
    ensures r.title == (if ch.title.Some? then ch.title.value else job.title)
    ensures r.error == (if ch.error.Some? then ch.error.value else job.error)
    ensures ch == Changes(None, None, None, None, None) ==> r == job
  {
    job.(status := ch.status.GetOr(job.status),
         percent := ch.percent.GetOr(job.percent),
         fileSize := ch.fileSize.GetOr(job.fileSize),
         title := ch.title.GetOr(job.title),
         error := ch.error.GetOr(job.error))
  }

  /** `{ status: s }`: merging it sets the status and nothing else. */
  function StatusChange(s: Status): (r: Changes)
    ensures forall job :: Assign(job, r) == job.(status := s)
  {
    Changes(Some(s), None, None, None, None)
  }

  /** `{ title: t }`: merging it sets the title and nothing else. */
  function TitleChange(t: string): (r: Changes)
    ensures forall job :: Assign(job, r) == job.(title := t)
  {
    Changes(None, None, None, Some(t), None)
  }

  /** `{ status: 'failed', error: message }`: merging it sets exactly those two. */
  function FailureChange(message: string): (r: Changes)
    ensures forall job :: Assign(job, r) == job.(status := Failed, error := message)
  {
    Changes(Some(Failed), None, None, None, Some(message))
  }

  // ------------------------------------------------ find / update

  /** `queue.find(j => j.id === id)`, as the index of the job it returns. */
  function FindIndex(q: seq<Job>, id: int): (r: Option<nat>)
    ensures r.None? <==> forall i :: 0 <= i < |q| ==> q[i].id != id
    ensures r.Some? ==> r.value < |q| && q[r.value].id == id
    ensures r.Some? ==> forall i :: 0 <= i < r.value ==> q[i].id != id
    decreases |q|
  {
    if q == [] then None
    else if q[0].id == id then Some(0)
    else match FindIndex(q[1..], id)
      case None => None
      case Some(k) => Some(k + 1)
  }

  /** `updateJob(id, changes)` on the list: merge `changes` into the first job
      with that id; no job with that id, no change. */
  function Update(q: seq<Job>, id: int, ch: Changes): (r: seq<Job>)
    ensures |r| == |q|
    ensures forall i :: 0 <= i < |q| ==> r[i].id == q[i].id
  {
    match FindIndex(q, id)
    case None => q
    case Some(k) => q[k := Assign(q[k], ch)]
  }

  /** What `updateJob` does, position by position: the first job with the id
      receives the changes, every other job is untouched. */
  lemma UpdateEffect(q: seq<Job>, id: int, ch: Changes)
    ensures FindIndex(q, id).None? ==> Update(q, id, ch) == q
    ensures FindIndex(q, id).Some? ==>
      var k := FindIndex(q, id).value;
      && Update(q, id, ch)[k] == Assign(q[k], ch)
      && forall i :: 0 <= i < |q| && i != k ==> Update(q, id, ch)[i] == q[i]
  {
  }

  /** Lists with the same ids position by position answer `find` alike. */
  lemma {:induction false} FindIndexSameIds(q: seq<Job>, q': seq<Job>, id: int)
    requires |q| == |q'| && forall i :: 0 <= i < |q| ==> q[i].id == q'[i].id
    ensures FindIndex(q, id) == FindIndex(q', id)
    decreases |q|
  {
    if q != [] {
      FindIndexSameIds(q[1..], q'[1..], id);
    }
  }

  // ------------------------------------------------ id discipline

  /** Ids strictly increase along the list, so no two jobs share one. */
  predicate IdsIncreasing(q: seq<Job>) {
    forall i, j :: 0 <= i < j < |q| ==> q[i].id < q[j].id
  }

  /** Every id was handed out by a counter that has reached `n`. */
  predicate IdsAtMost(q: seq<Job>, n: nat) {
    forall i :: 0 <= i < |q| ==> 1 <= q[i].id <= n
  }

  /** With distinct ids, `find` by a job's id lands on that job. */
  lemma FindIndexOfMember(q: seq<Job>, k: nat)
    requires IdsIncreasing(q) && k < |q|
    ensures FindIndex(q, q[k].id) == Some(k)
  {
  }

  /** Filtering keeps ids strictly increasing. */
  lemma {:induction false} FilterKeepsIdsIncreasing(q: seq<Job>, p: Job -> bool)
    requires IdsIncreasing(q)
    ensures IdsIncreasing(Filter(q, p))
    decreases |q|
  {
    if q != [] {
      var tail := q[1..];
      FilterKeepsIdsIncreasing(tail, p);
      var rest := Filter(tail, p);
      if p(q[0]) {
        FilterKeepsIdsAbove(tail, p, q[0].id);
        ConsIdsIncreasing(q[0], rest);
        assert Filter(q, p) == [q[0]] + rest;
      } else {
        assert Filter(q, p) == rest;
      }
    }
  }

  /** Filtering keeps a lower bound on the ids. */
  lemma FilterKeepsIdsAbove(q: seq<Job>, p: Job -> bool, bound: int)
    requires forall i :: 0 <= i < |q| ==> bound < q[i].id
    ensures forall j :: 0 <= j < |Filter(q, p)| ==> bound < Filter(q, p)[j].id
  {
    var r := Filter(q, p);
    forall j | 0 <= j < |r| ensures bound < r[j].id {
      var i :| 0 <= i < |q| && q[i] == r[j];
    }
  }

  lemma ConsIdsIncreasing(x: Job, rest: seq<Job>)
    requires IdsIncreasing(rest) && forall j :: 0 <= j < |rest| ==> x.id < rest[j].id
    ensures IdsIncreasing([x] + rest)
  {
    var r := [x] + rest;
    forall i, j | 0 <= i < j < |r| ensures r[i].id < r[j].id {
      assert r[j] == rest[j - 1];
      if i > 0 { assert r[i] == rest[i - 1]; }
    }
  }

  /** Filtering keeps every id at most `n`. */
  lemma FilterKeepsIdsAtMost(q: seq<Job>, p: Job -> bool, n: nat)
    requires IdsAtMost(q, n)
    ensures IdsAtMost(Filter(q, p), n)
  {
    var r := Filter(q, p);
    forall j | 0 <= j < |r| ensures 1 <= r[j].id <= n {
      var i :| 0 <= i < |q| && q[i] == r[j];
    }
  }

  // ------------------------------------------------ Clear Done

  /** The statuses Clear Done removes: `completed` and `failed` (and no other). */
  predicate IsDone(j: Job): (r: bool)
    ensures r ==> j.status != Queued && j.status != Fetching && j.status != Downloading
    ensures j.status == Absent || j.status == Named("canceled") ==> !r
  {
    j.status == Completed || j.status == Failed
  }

  /** `queue.filter(j => j.status !== 'completed' && j.status !== 'failed')`. */
  function ClearDone(q: seq<Job>): (r: seq<Job>)
    ensures forall i :: 0 <= i < |r| ==> !IsDone(r[i]) && r[i] in q
    ensures forall i :: 0 <= i < |q| && !IsDone(q[i]) ==> q[i] in r
  {
    Filter(q, j => !IsDone(j))
  }

  /** Clear Done keeps the surviving jobs in their original order: clearing a
      concatenation clears each part. */
  lemma ClearDoneAppend(a: seq<Job>, b: seq<Job>)
    ensures ClearDone(a + b) == ClearDone(a) + ClearDone(b)
  {
    FilterAppend(a, b, j => !IsDone(j));
  }

  /** A list with nothing finished is left as it is, so clearing twice is
      clearing once. */
  lemma ClearDoneIdempotent(q: seq<Job>)
    ensures ClearDone(ClearDone(q)) == ClearDone(q)
  {
    FilterIdempotent(q, j => !IsDone(j));
  }

  /** Removed and kept jobs together are the original jobs. */
  lemma ClearDonePartition(q: seq<Job>)
    ensures multiset(ClearDone(q)) + multiset(Filter(q, IsDone)) == multiset(q)
  {
    FilterPartition(q, j => !IsDone(j), IsDone);
  }

  /** Clear Done keeps ids unique and increasing. */
  lemma ClearDoneKeepsIds(q: seq<Job>, n: nat)
    requires IdsIncreasing(q) && IdsAtMost(q, n)
    ensures IdsIncreasing(ClearDone(q)) && IdsAtMost(ClearDone(q), n)
  {
    FilterKeepsIdsIncreasing(q, j => !IsDone(j));
    FilterKeepsIdsAtMost(q, j => !IsDone(j), n);
  }

  // ------------------------------------------------ Start All

  predicate IsQueued(j: Job): (r: bool)
    ensures r ==> !IsDone(j) && j.status != Absent
  {
    j.status == Queued
  }

  /** `queue.filter(j => j.status === 'queued')`: the jobs Start All dispatches. */
  function QueuedJobs(q: seq<Job>): (r: seq<Job>)
    ensures forall i :: 0 <= i < |r| ==> IsQueued(r[i]) && r[i] in q
    ensures forall i :: 0 <= i < |q| && IsQueued(q[i]) ==> q[i] in r
  {
    Filter(q, IsQueued)
  }

  /** The list after every queued job has been moved to `fetching`, which is
      what each dispatched `runDownload` does before its first await. */
  function AllFetching(q: seq<Job>): (r: seq<Job>)
    ensures |r| == |q|
    ensures forall i :: 0 <= i < |q| ==> r[i] == if IsQueued(q[i]) then q[i].(status := Fetching) else q[i]
  {
    seq(|q|, i requires 0 <= i < |q| => if IsQueued(q[i]) then q[i].(status := Fetching) else q[i])
  }
}
