/** `runDownload` and the download-progress listener of renderer/renderer.js,
    stated on the job list: the updates one download makes, in order. */
module Lifecycle {
  import opened Wrappers
  import opened Jobs
  import opened ErrorMessages

  /** How the `startDownload` call settles: it resolves, or it rejects with an
      error whose `message` may be absent. */
  datatype Transfer = Resolved | Rejected(message: Option<string>)

  /** The `data` of one download-progress message from the main process.
      A field the message leaves out is `None`; for `status` that is `Absent`. */
  datatype Progress = Progress(
    downloadId: int,
    percent: Option<real>,
    fileSize: Option<string>,
    status: Status,
    error: Option<string>)

  /** The change set the listener passes to `updateJob`: `??` defaults for
      percent, size and error; `status` is copied even when absent. */
  function ProgressChanges(p: Progress): (r: Changes)
    ensures r.status == Some(p.status) && r.title.None?
    ensures r.percent == (if p.percent.Some? then p.percent else Some(0.0))
    ensures r.fileSize == (if p.fileSize.Some? then p.fileSize else Some(""))
    ensures r.error == (if p.error.Some? then p.error else Some(""))
  {
    Changes(Some(p.status), Some(p.percent.GetOr(0.0)), Some(p.fileSize.GetOr("")), None, Some(p.error.GetOr("")))
  }

  /** One progress message applied to the list through `updateJob`. */
  function ApplyProgress(q: seq<Job>, p: Progress): (r: seq<Job>)
    ensures |r| == |q| && forall i :: 0 <= i < |q| ==> r[i].id == q[i].id
  {
    Update(q, p.downloadId, ProgressChanges(p))
  }

  /** What one progress message does to the list. */
  lemma ProgressEffect(q: seq<Job>, p: Progress)
    ensures |ApplyProgress(q, p)| == |q|
    ensures FindIndex(q, p.downloadId).None? ==> ApplyProgress(q, p) == q
    ensures FindIndex(q, p.downloadId).Some? ==>
      var k := FindIndex(q, p.downloadId).value;
      var r := ApplyProgress(q, p);
      && r[k] == q[k].(status := p.status,
                       percent := if p.percent.Some? then p.percent.value else 0.0,
                       fileSize := if p.fileSize.Some? then p.fileSize.value else "",
                       error := if p.error.Some? then p.error.value else "")
      && forall i :: 0 <= i < |q| && i != k ==> r[i] == q[i]
  {
    UpdateEffect(q, p.downloadId, ProgressChanges(p));
  }

  /** The reported percentage is stored as it is, with no clamping to 0..100. */
  lemma ProgressNotClamped(q: seq<Job>, k: nat, over: real)
    requires IdsIncreasing(q) && k < |q| && over > 100.0
    ensures ApplyProgress(q, Progress(q[k].id, Some(over), None, Downloading, None))[k].percent == over
  {
    FindIndexOfMember(q, k);
    ProgressEffect(q, Progress(q[k].id, Some(over), None, Downloading, None));
  }

  // ------------------------------------------------ runDownload

  /** The step before the first await: `updateJob(job.id, { status: 'fetching' })`. */
  function Begin(q: seq<Job>, id: nat): (r: seq<Job>)
    ensures |r| == |q| && forall i :: 0 <= i < |q| ==> r[i].id == q[i].id
    ensures FindIndex(q, id).None? ==> r == q
    ensures FindIndex(q, id).Some? ==>
      var k := FindIndex(q, id).value;
      && r[k] == q[k].(status := Fetching)
      && forall i :: 0 <= i < |q| && i != k ==> r[i] == q[i]
  {
    UpdateEffect(q, id, StatusChange(Fetching));
    Update(q, id, StatusChange(Fetching))
  }

  /** The rest of `runDownload` once the metadata call has settled (`title` is
      `None` when it rejected) and the transfer has settled as `transfer`. */
  function Finish(q: seq<Job>, id: nat, title: Option<string>, transfer: Transfer): (r: seq<Job>)
    ensures |r| == |q| && forall i :: 0 <= i < |q| ==> r[i].id == q[i].id
    ensures FindIndex(q, id).None? ==> r == q
    ensures FindIndex(q, id).Some? ==>
      var k := FindIndex(q, id).value;
      && r[k] == q[k].(status := if transfer.Rejected? then Failed else Downloading,
                       title := if title.Some? then title.value else q[k].title,
                       error := if transfer.Rejected? then FriendlyError(transfer.message) else q[k].error)
      && forall i :: 0 <= i < |q| && i != k ==> r[i] == q[i]
  {
    var q1 := if title.Some? then Update(q, id, TitleChange(title.value)) else q;
    var q2 := Update(q1, id, StatusChange(Downloading));
    FindIndexSameIds(q, q1, id);
    FindIndexSameIds(q, q2, id);
    UpdateEffect(q, id, TitleChange(title.GetOr("")));
    UpdateEffect(q1, id, StatusChange(Downloading));
    match transfer
    case Resolved => q2
    case Rejected(m) =>
      UpdateEffect(q2, id, FailureChange(FriendlyError(m)));
      Update(q2, id, FailureChange(FriendlyError(m)))
  }

  /** One whole `runDownload(job)` with the two outcomes given. */
  function Download(q: seq<Job>, id: nat, title: Option<string>, transfer: Transfer): (r: seq<Job>)
    ensures |r| == |q| && forall i :: 0 <= i < |q| ==> r[i].id == q[i].id
  {
    Finish(Begin(q, id), id, title, transfer)
  }

  /** The net effect of a download on the list: only the job's status, title
      and error change; it ends `failed` with the classified message when the
      transfer rejects and `downloading` otherwise, and keeps its old title
      when the metadata call fails. Without a job of that id nothing changes. */
  lemma DownloadEffect(q: seq<Job>, id: nat, title: Option<string>, transfer: Transfer)
    ensures |Download(q, id, title, transfer)| == |q|
    ensures FindIndex(q, id).None? ==> Download(q, id, title, transfer) == q
    ensures FindIndex(q, id).Some? ==>
      var k := FindIndex(q, id).value;
      var r := Download(q, id, title, transfer);
      && r[k] == q[k].(status := if transfer.Rejected? then Failed else Downloading,
                       title := if title.Some? then title.value else q[k].title,
                       error := if transfer.Rejected? then FriendlyError(transfer.message) else q[k].error)
      && forall i :: 0 <= i < |q| && i != k ==> r[i] == q[i]
  {
    FindIndexSameIds(q, Begin(q, id), id);
  }

  /** `runDownload` never marks a job `completed`: that status only arrives with
      a progress message. */
  lemma DownloadNeverCompletes(q: seq<Job>, id: nat, title: Option<string>, transfer: Transfer, k: nat)
    requires k < |q| && q[k].status != Completed
    ensures Download(q, id, title, transfer)[k].status != Completed
  {
    DownloadEffect(q, id, title, transfer);
    var r := Download(q, id, title, transfer);
    if FindIndex(q, id).Some? && k == FindIndex(q, id).value {
      assert r[k].status == if transfer.Rejected? then Failed else Downloading;
    } else {
      assert r[k] == q[k];
    }
  }
}
