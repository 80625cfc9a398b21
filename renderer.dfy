/** The renderer's global state (`queue` and `idCounter`) and the handlers that
    change it: Add to Queue, Start All, Clear Done, `updateJob`, `runDownload`
    and the progress listener. */
module Renderer {
  import opened Wrappers
  import opened Seqs
  import opened Jobs
  import opened Submission
  import opened Lifecycle
  import opened ErrorMessages

  class JobQueue {
    var queue: seq<Job>
    var idCounter: nat

    /** Ids are handed out by `++idCounter` and never change, so they are
        unique, increase along the queue and never exceed the counter. */
    ghost predicate Valid()
      reads this
    {
      IdsIncreasing(queue) && IdsAtMost(queue, idCounter)
    }

    /** `let queue = []; let idCounter = 0;` */
    constructor ()
      ensures Valid() && queue == [] && idCounter == 0
    {
      queue := [];
      idCounter := 0;
    }

    /** `updateJob(id, changes)`: find the first job with the id and merge the
        changes into it; do nothing when there is none. */
    method UpdateJob(id: int, changes: Changes)
      requires Valid()
      modifies this
      ensures Valid()
      ensures queue == Update(old(queue), id, changes)
      ensures idCounter == old(idCounter)
    {
      var i := 0;
      while i < |queue| && queue[i].id != id
        invariant 0 <= i <= |queue|
        invariant forall j :: 0 <= j < i ==> queue[j].id != id
      {
        i := i + 1;
      }
      if i < |queue| {
        assert FindIndex(queue, id) == Some(i);
        queue := queue[i := Assign(queue[i], changes)];
      }
    }

    /** The "Add to Queue" click. `folder` is `downloadFolder`, `text` the
        textarea, `format` and `selectedResolution` the two selectors,
        `validUrl` stands for `new URL(u)` not throwing and `userContinues` for
        the answer to the invalid-URL confirmation. */
    method AddToQueue(folder: string, text: string, format: string, selectedResolution: string,
                      validUrl: string -> bool, userContinues: bool) returns (outcome: AddOutcome)
      requires Valid()
      modifies this
      ensures Valid()
      ensures var urls := ParseUrls(text);
        var valid := Filter(urls, validUrl);
        var invalid := Filter(urls, Not(validUrl));
        outcome == if folder == "" then NoFolder
                   else if urls == [] then NoUrls
                   else if invalid != [] && !userContinues then Declined
                   else if valid == [] then NoValidUrls
                   else Added(|valid|)
      ensures !outcome.Added? ==> queue == old(queue) && idCounter == old(idCounter)
      ensures outcome.Added? ==>
        && idCounter == old(idCounter) + outcome.count
        && queue == old(queue) + NewJobs(old(idCounter), Filter(ParseUrls(text), validUrl), format,
                                         ResolutionFor(format, selectedResolution), folder)
    {
      if folder == "" {
        return NoFolder;
      }
      var urls := ParseUrls(text);
      if |urls| == 0 {
        return NoUrls;
      }
      var valid, invalid := SplitByValidity(urls, validUrl);
      if |invalid| > 0 && !userContinues {
        return Declined;
      }
      if |valid| == 0 {
        return NoValidUrls;
      }
      var resolution := ResolutionFor(format, selectedResolution);
      AppendJobs(valid, format, resolution, folder);
      outcome := Added(|valid|);
    }

    /** `valid.forEach(url => queue.push({ id: ++idCounter, ... }))`. */
    method AppendJobs(valid: seq<string>, format: string, resolution: Option<string>, folder: string)
      requires Valid()
      modifies this
      ensures Valid()
      ensures idCounter == old(idCounter) + |valid|
      ensures queue == old(queue) + NewJobs(old(idCounter), valid, format, resolution, folder)
    {
      ghost var q0, c0 := queue, idCounter;
      var k := 0;
      while k < |valid|
        invariant 0 <= k <= |valid|
        invariant idCounter == c0 + k
        invariant queue == q0 + NewJobs(c0, valid[..k], format, resolution, folder)
      {
        NewJobsStep(c0, valid, k, format, resolution, folder);
        idCounter := idCounter + 1;
        queue := queue + [NewJob(idCounter, valid[k], format, resolution, folder)];
        k := k + 1;
      }
      assert valid[..k] == valid;
      NewJobsKeepIds(q0, c0, valid, format, resolution, folder);
    }

    /** The "Clear Done" click: drop `completed` and `failed` jobs. */
    method ClearDone()
      requires Valid()
      modifies this
      ensures Valid()
      ensures queue == Jobs.ClearDone(old(queue))
      ensures idCounter == old(idCounter)
    {
      ClearDoneKeepsIds(queue, idCounter);
      queue := Jobs.ClearDone(queue);
    }

    /** The first, synchronous step of `runDownload(job)`. */
    method BeginDownload(job: Job)
      requires Valid()
      modifies this
      ensures Valid()
      ensures queue == Begin(old(queue), job.id)
      ensures idCounter == old(idCounter)
    {
      UpdateJob(job.id, StatusChange(Fetching));
    }

    /** The rest of `runDownload(job)`: `title` is what `fetchFormats`
        returned (`None` when it rejected), `transfer` how `startDownload`
        settled. */
    method FinishDownload(job: Job, title: Option<string>, transfer: Transfer)
      requires Valid()
      modifies this
      ensures Valid()
      ensures queue == Finish(old(queue), job.id, title, transfer)
      ensures idCounter == old(idCounter)
    {
      if title.Some? {
        UpdateJob(job.id, TitleChange(title.value));
      }
      UpdateJob(job.id, StatusChange(Downloading));
      match transfer {
        case Resolved =>
        case Rejected(m) =>
          UpdateJob(job.id, FailureChange(FriendlyError(m)));
      }
    }

    /** `runDownload(job)` from start to end, without other events in between. */
    method RunDownload(job: Job, title: Option<string>, transfer: Transfer)
      requires Valid()
      modifies this
      ensures Valid()
      ensures queue == Download(old(queue), job.id, title, transfer)
      ensures idCounter == old(idCounter)
    {
      BeginDownload(job);
      FinishDownload(job, title, transfer);
    }

    /** The download-progress listener. */
    method OnDownloadProgress(p: Progress)
      requires Valid()
      modifies this
      ensures Valid()
      ensures queue == ApplyProgress(old(queue), p)
      ensures idCounter == old(idCounter)
    {
      UpdateJob(p.downloadId, ProgressChanges(p));
    }

    /** The "Start All" click: select the queued jobs and call `runDownload`
        on each, which moves each of them to `fetching` before its first
        await. An empty selection only raises an alert. */
    method StartAll() returns (started: seq<Job>)
      requires Valid()
      modifies this
      ensures Valid()
      ensures started == QueuedJobs(old(queue))
      ensures queue == AllFetching(old(queue))
      ensures idCounter == old(idCounter)
    {
      started := QueuedJobs(queue);
      ghost var q0 := queue;
      assert MarkedUpTo(q0, queue, started, 0);
      if |started| == 0 {
        MarkedAll(q0, queue, started);
        return;
      }
      FilterKeepsIdsIncreasing(q0, IsQueued);
      var i := 0;
      while i < |started|
        invariant 0 <= i <= |started|
        invariant Valid() && idCounter == old(idCounter)
        invariant MarkedUpTo(q0, queue, started, i)
      {
        MarkStep(q0, queue, started, i);
        BeginDownload(started[i]);
        i := i + 1;
      }
      MarkedAll(q0, queue, started);
    }
  }

  /** Some job among the first `i` dispatched has id `id`. */
  ghost predicate StartedBefore(started: seq<Job>, i: nat, id: int) {
    exists j :: 0 <= j < i && j < |started| && started[j].id == id
  }

  /** After the first `i` dispatched jobs have begun, exactly the jobs with
      their ids are `fetching`; everything else is as it was in `q0`. */
  ghost predicate MarkedUpTo(q0: seq<Job>, q: seq<Job>, started: seq<Job>, i: nat) {
    && |q| == |q0|
    && forall k :: 0 <= k < |q0| ==>
         q[k] == if StartedBefore(started, i, q0[k].id) then q0[k].(status := Fetching) else q0[k]
  }

  /** Beginning the next dispatched job marks exactly that job. */
  lemma MarkStep(q0: seq<Job>, q: seq<Job>, started: seq<Job>, i: nat)
    requires IdsIncreasing(q0) && started == QueuedJobs(q0) && IdsIncreasing(started)
    requires i < |started| && MarkedUpTo(q0, q, started, i)
    ensures MarkedUpTo(q0, Begin(q, started[i].id), started, i + 1)
  {
    var id := started[i].id;
    var k0 :| 0 <= k0 < |q0| && q0[k0] == started[i];
    FindIndexOfMember(q0, k0);
    assert forall k :: 0 <= k < |q0| ==> q[k].id == q0[k].id;
    FindIndexSameIds(q0, q, id);
    assert !StartedBefore(started, i, id);
    MarkOne(q0, q, Begin(q, id), started, i, k0);
  }

  /** The bookkeeping of `MarkStep`, once `r` is known to differ from `q`
      only at the dispatched job's position `k0`, which is now `fetching`. */
  lemma MarkOne(q0: seq<Job>, q: seq<Job>, r: seq<Job>, started: seq<Job>, i: nat, k0: nat)
    requires IdsIncreasing(q0) && i < |started| && MarkedUpTo(q0, q, started, i)
    requires k0 < |q0| && q0[k0].id == started[i].id && !StartedBefore(started, i, started[i].id)
    requires |r| == |q| && r[k0] == q[k0].(status := Fetching)
    requires forall k :: 0 <= k < |q| && k != k0 ==> r[k] == q[k]
    ensures MarkedUpTo(q0, r, started, i + 1)
  {
    forall k | 0 <= k < |q0|
      ensures r[k] == if StartedBefore(started, i + 1, q0[k].id) then q0[k].(status := Fetching) else q0[k]
    {
      if k == k0 {
        assert StartedBefore(started, i + 1, q0[k].id);
      } else {
        assert q0[k].id != q0[k0].id;
        if StartedBefore(started, i + 1, q0[k].id) {
          var j :| 0 <= j < i + 1 && j < |started| && started[j].id == q0[k].id;
          assert j != i;
        }
      }
    }
  }

  /** Once every dispatched job has begun, every queued job is `fetching`. */
  lemma MarkedAll(q0: seq<Job>, q: seq<Job>, started: seq<Job>)
    requires IdsIncreasing(q0) && started == QueuedJobs(q0)
    requires MarkedUpTo(q0, q, started, |started|)
    ensures q == AllFetching(q0)
  {
    var r := AllFetching(q0);
    forall k | 0 <= k < |q0| ensures q[k] == r[k] {
      StartedIffQueued(q0, started, k);
    }
  }

  /** The dispatched ids are exactly the ids of the queued jobs. */
  lemma StartedIffQueued(q0: seq<Job>, started: seq<Job>, k: nat)
    requires IdsIncreasing(q0) && started == QueuedJobs(q0) && k < |q0|
    ensures StartedBefore(started, |started|, q0[k].id) == IsQueued(q0[k])
  {
    if IsQueued(q0[k]) {
      var j :| 0 <= j < |started| && started[j] == q0[k];
    }
    if StartedBefore(started, |started|, q0[k].id) {
      var j :| 0 <= j < |started| && started[j].id == q0[k].id;
      var k' :| 0 <= k' < |q0| && q0[k'] == started[j];
    }
  }
}
