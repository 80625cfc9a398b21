# MediaDl renderer job queue, modelled in Dafny

MediaDl is an Electron front end for a media downloader. Its renderer script
(`renderer/renderer.js`) keeps a global list of download jobs and a global id
counter. Its handlers do five things: add jobs from pasted URLs, dispatch the
queued jobs ("Start All"), drop finished jobs ("Clear Done"), drive one job
through `runDownload`, and merge progress messages from the main process into
the jobs. When a download fails, `friendlyError` turns the raw diagnostic into
one of ten fixed messages.

The model has these modules:

- `JsStrings` (`js_strings.dfy`): the string built-ins the renderer relies on.
  `includes`, `split` on `'\n'`, and `trim` with the ECMAScript white-space set.
- `Seqs` (`seqs.dfy`): `Array.prototype.filter` as an order-preserving function.
- `ErrorMessages` (`error_messages.dfy`): `friendlyError` as the same chain of
  tests. For a non-empty message it is proved equal to a table-driven
  first-match classifier, and the first-match and default properties are
  proved from that; the unknown-error case is proved from the chain itself.
- `Jobs` (`jobs.dfy`): the job record and `Object.assign` of a change set.
  Also `queue.find` by id, `updateJob` on the list, the Clear Done filter and
  the Start All selection, with the id discipline (ids unique and increasing,
  never above the counter).
- `Submission` (`submission.dfy`): parsing the pasted text, splitting URLs by
  validity (the `forEach` loop), the resolution rule and the new jobs.
- `Lifecycle` (`lifecycle.dfy`): the updates `runDownload` makes, and the
  defaulting done by the progress listener.
- `Renderer` (`renderer.dfy`): class `JobQueue` with the fields `queue: seq<Job>`
  and `idCounter: nat`. Its methods are the handlers. Each method keeps the id
  invariant `Valid()` and states the new queue as a function of the old one.

Inputs the renderer gets from the DOM or from dialogs become parameters:

- the download folder;
- the textarea text;
- the format and resolution selectors;
- the answer to the invalid-URL confirmation (`userContinues`);
- URL validity (`validUrl`, standing for `new URL(u)` not throwing).

The outcome of each executor call is also a parameter: the metadata title, or
`None` when `fetchFormats` rejects, and a `Transfer` for `startDownload`. The
alerts become the values of `AddOutcome`.

The model follows the code as written, including where a fuller job-queue
manager would behave differently. The code has no duplicate detection, no concurrency cap, no persistence or
restore, no cancel and no retry. It does not clamp the percentage; the model
proves that a reported 137 is stored as 137. Clear Done removes only
`completed` and `failed` jobs: `canceled` or any other status stays. The
classifier has no "canceled by user" category. `runDownload` never sets
`completed`; only a progress message does. A progress message without a
`status` overwrites the job's status with `undefined` (`Status.Absent` here),
because `Object.assign` copies the key whatever its value.

## Model

| member | source | states |
|---|---|---|
| `ErrorMessages.FriendlyError` | renderer/renderer.js:234-245 | the result is always one of the ten fixed messages |
| `ErrorMessages.FriendlyErrorUnknown` | renderer/renderer.js:235 | 'Unknown error occurred.' is returned exactly when the message is absent or empty |
| `ErrorMessages.FriendlyErrorPriority` | renderer/renderer.js:236-243 | a non-empty message gets rule i's message iff it contains marker i and none of the markers checked before it (first match wins) |
| `ErrorMessages.FriendlyErrorGeneric` | renderer/renderer.js:244 | the generic 'Download failed…' message is returned iff the message is present, non-empty and contains none of the eight markers |
| `ErrorMessages.FriendlyErrorIsFirstMatch` | renderer/renderer.js:236-244 | for a non-empty message the if-chain equals the first-match classifier over the ordered rule table |
| `ErrorMessages.FirstMatchPicks` | renderer/renderer.js:236-243 | with distinct messages, a first-match table picks rule i iff its marker occurs and no earlier marker does |
| `ErrorMessages.FirstMatchDefault` | renderer/renderer.js:244 | with distinct messages, a first-match table falls through to its default iff no marker occurs |
| `ErrorMessages.UnavailableBeatsRateLimit` | renderer/renderer.js:237-243 | a diagnostic containing both 'unavailable' and '429' yields the unavailable message, not the rate-limit one |
| `JsStrings.Includes` | renderer/renderer.js:236-243 | the empty pattern is always included, and an included pattern is never longer than the text |
| `JsStrings.IncludesIff` | renderer/renderer.js:236-243 | `includes` holds iff the pattern occurs at some index |
| `JsStrings.NotIncludedWithoutFirstChar` | renderer/renderer.js:236 | a pattern whose first character never occurs in the text is not included |
| `JsStrings.Split` | renderer/renderer.js:47 | `split('\n')` gives at least one piece and no piece contains the separator |
| `JsStrings.JoinSplit` | renderer/renderer.js:47 | joining the pieces with the separator restores the input |
| `JsStrings.SplitJoin` | renderer/renderer.js:47 | splitting a join of separator-free pieces restores the pieces |
| `JsStrings.SplitConcat` | renderer/renderer.js:47 | the pieces of `a + '\n' + b` are the pieces of `a` followed by those of `b` |
| `JsStrings.LeadingSpaces` | renderer/renderer.js:48 | counts exactly the white space at the start: all counted characters are spaces and the next is not |
| `JsStrings.TrailingSpaces` | renderer/renderer.js:48 | counts exactly the white space at the end |
| `JsStrings.Trim` | renderer/renderer.js:48 | the result has no white space at either end and is the input minus white space at both ends |
| `JsStrings.TrimIdempotent` | renderer/renderer.js:48 | trimming twice equals trimming once |
| `Submission.TrimAll` | renderer/renderer.js:48 | each line is replaced by its trimmed form, position by position |
| `Submission.ParseUrls` | renderer/renderer.js:46-49 | every parsed URL is non-empty, trimmed and free of newlines |
| `Submission.ParseUrlsLine` | renderer/renderer.js:46-49 | a single line yields its trimmed form, or nothing when it is blank |
| `Submission.ParseUrlsConcat` | renderer/renderer.js:46-49 | input order is preserved: the URLs of two newline-joined blocks are the first block's followed by the second's |
| `Submission.SplitByValidity` | renderer/renderer.js:57-62 | `valid` is the in-order sublist of URLs that parse and `invalid` the in-order sublist of those that do not |
| `Submission.ValidityPartition` | renderer/renderer.js:57-62 | every parsed URL lands in exactly one of `valid` and `invalid` (multisets add up, lengths add up) |
| `Submission.ResolutionFor` | renderer/renderer.js:74 | the resolution is set iff the format is 'mp4', and then it is the selected value |
| `Submission.NewJob` | renderer/renderer.js:77-88 | the new job carries the given id, URL, format, resolution and folder, and is queued (so Start All selects it and Clear Done keeps it) with percent 0 and empty size, title and error |
| `Submission.NewJobs` | renderer/renderer.js:76-91 | one job per valid URL |
| `Submission.NewJobsAt` | renderer/renderer.js:76-91 | the i-th new job is the i-th valid URL with id counter+i+1, status 'queued', percent 0 and empty size, title and error |
| `Submission.NewJobsStep` | renderer/renderer.js:76-89 | one more URL appends one job carrying the next id |
| `Submission.NewJobsKeepIds` | renderer/renderer.js:78 | appending the new jobs keeps ids unique, increasing and at most the advanced counter |
| `Renderer.JobQueue.constructor` | renderer/renderer.js:2-4 | the queue starts empty with the counter at 0 |
| `Renderer.JobQueue.AddToQueue` | renderer/renderer.js:40-95 | the outcome follows the handler's checks in source order (no folder, no URLs, declined confirmation, no valid URL); on every rejection queue and counter are unchanged; otherwise k jobs for the k valid URLs are appended in order and the counter advances by k |
| `Renderer.JobQueue.AppendJobs` | renderer/renderer.js:76-91 | the loop appends exactly the new jobs and advances the counter by their number, keeping the id invariant |
| `Jobs.Assign` | renderer/renderer.js:156 | each of status, percent, size, title and error takes the supplied value when the change set names it and keeps its old value otherwise; id, url, format, resolution and output folder never change; an empty change set changes nothing |
| `Jobs.StatusChange` | renderer/renderer.js:116 | merging `{ status }` into any job sets its status and nothing else |
| `Jobs.TitleChange` | renderer/renderer.js:119 | merging `{ title }` into any job sets its title and nothing else |
| `Jobs.FailureChange` | renderer/renderer.js:135-138 | merging `{ status: 'failed', error }` into any job sets exactly those two fields |
| `Jobs.FindIndex` | renderer/renderer.js:154 | returns the first index whose job has the id, and none exactly when no job has it |
| `Jobs.FindIndexOfMember` | renderer/renderer.js:154 | with increasing ids, finding a job's id returns that job's position |
| `Jobs.FindIndexSameIds` | renderer/renderer.js:154 | lists with the same ids position by position give the same find result |
| `Jobs.Update` | renderer/renderer.js:153-158 | the length and every job's id are unchanged |
| `Jobs.UpdateEffect` | renderer/renderer.js:153-158 | no job with the id: nothing changes; otherwise only the first such job receives the changes and all others are untouched |
| `Renderer.JobQueue.UpdateJob` | renderer/renderer.js:153-158 | the linear search and merge give `Update` of the old queue; counter unchanged |
| `Seqs.Filter` | renderer/renderer.js:109 | keeps exactly the elements passing the test, never more than the input |
| `Seqs.FilterAppend` | renderer/renderer.js:109 | filtering distributes over concatenation, so the relative order is kept |
| `Seqs.FilterPartition` | renderer/renderer.js:59-62 | a test and its negation split the input into two parts whose multisets add up to the input's |
| `Jobs.IsDone` | renderer/renderer.js:109 | a job Clear Done removes is never queued, fetching or downloading; a canceled job or one whose status is missing is never removed |
| `Jobs.ClearDone` | renderer/renderer.js:109 | kept jobs are never 'completed' or 'failed' and come from the queue; every other job is kept |
| `Jobs.ClearDoneAppend` | renderer/renderer.js:109 | clearing preserves the original order of the kept jobs |
| `Jobs.ClearDoneIdempotent` | renderer/renderer.js:109 | clearing twice equals clearing once |
| `Jobs.ClearDonePartition` | renderer/renderer.js:109 | kept and removed jobs together are the original jobs |
| `Jobs.ClearDoneKeepsIds` | renderer/renderer.js:109 | clearing keeps ids unique, increasing and within the counter |
| `Jobs.FilterKeepsIdsIncreasing` | renderer/renderer.js:99 | any filter of a list with increasing ids has increasing ids |
| `Renderer.JobQueue.ClearDone` | renderer/renderer.js:108-111 | the queue becomes the Clear Done filter of the old one and the counter is unchanged, so ids are never reused |
| `Jobs.IsQueued` | renderer/renderer.js:99 | a job Start All selects has a status and is never one Clear Done removes |
| `Jobs.QueuedJobs` | renderer/renderer.js:99 | the selection holds exactly the 'queued' jobs of the queue |
| `Jobs.AllFetching` | renderer/renderer.js:104 | every queued job becomes 'fetching' and every other job is unchanged |
| `Renderer.JobQueue.StartAll` | renderer/renderer.js:98-105 | returns the queued jobs in queue order, and dispatching each leaves the queue as `AllFetching` of the old one (nothing changes when none is queued) |
| `Renderer.MarkStep` | renderer/renderer.js:104 | beginning the next dispatched job marks exactly that job 'fetching' |
| `Renderer.MarkedAll` | renderer/renderer.js:98-105 | once every dispatched job has begun, the queue is `AllFetching` of the original |
| `Renderer.StartedIffQueued` | renderer/renderer.js:99-104 | a job's id is among the dispatched ids iff the job was queued |
| `Renderer.JobQueue.BeginDownload` | renderer/renderer.js:116 | `runDownload`'s first step sets the job's status to 'fetching' |
| `Renderer.JobQueue.FinishDownload` | renderer/renderer.js:117-139 | the title update (when metadata succeeded), then 'downloading', then 'failed' with the classified error (when the transfer rejected), in that order |
| `Renderer.JobQueue.RunDownload` | renderer/renderer.js:114-140 | one whole `runDownload` with the given outcomes |
| `Lifecycle.Begin` | renderer/renderer.js:116 | the first job with the id becomes 'fetching' and every other job is untouched; no job with the id, no change |
| `Lifecycle.Finish` | renderer/renderer.js:117-139 | after the metadata and transfer settle, the first job with the id has the fetched title (or keeps its own), ends 'failed' with `friendlyError` of the message when the transfer rejects and 'downloading' otherwise; nothing else changes |
| `Lifecycle.Download` | renderer/renderer.js:114-140 | a whole download keeps the length of the list and every job's id |
| `Lifecycle.DownloadEffect` | renderer/renderer.js:114-140 | net effect of a download: only status, title and error of the job change; it ends 'failed' with `friendlyError` of the message when the transfer rejects and 'downloading' otherwise; the title is kept when metadata fails; no job, no change |
| `Lifecycle.DownloadNeverCompletes` | renderer/renderer.js:114-140 | `runDownload` never marks a job 'completed' |
| `Lifecycle.ProgressChanges` | renderer/renderer.js:144-149 | the change set copies the status even when absent, never names the title, and gives percent, size and error the sent value or 0, '' and '' when missing |
| `Lifecycle.ApplyProgress` | renderer/renderer.js:143-150 | one progress message keeps the length of the list and every job's id |
| `Lifecycle.ProgressEffect` | renderer/renderer.js:143-150 | a progress message sets status as sent (even when absent), percent or 0, size or '', error or '' on the first job with its id; title and identity are untouched; unknown id, no change |
| `Lifecycle.ProgressNotClamped` | renderer/renderer.js:145 | a reported percentage above 100 is stored unchanged |
| `Renderer.JobQueue.OnDownloadProgress` | renderer/renderer.js:143-150 | the listener applies the defaulted change set through `updateJob`; counter unchanged |

## Left out

- Card rendering (`renderCard`, `refreshCard`, `buildCardHTML`, `rebuildQueue`, `syncEmptyState`, renderer/renderer.js:161-231): DOM output with float formatting, no queue logic.
- The `alert` and `confirm` dialogs: alerts are the `AddOutcome` values and the empty Start All selection; the confirmation answer is the `userContinues` parameter.
- The folder picker (renderer/renderer.js:31-37) and the format radio buttons that hide the resolution selector (renderer/renderer.js:14-23): the folder, format and resolution are parameters.
- Clearing the textarea after adding (renderer/renderer.js:93): UI only.
- `new URL(u)`: a foreign parser, modelled as the `validUrl` parameter.
- Window controls (renderer/renderer.js:26-28), `renderer/components/legacy/LegacyTitleBar.jsx` (markup) and `preload.js` (IPC wiring).
- Interleaving: each `runDownload` is modelled from start to end with both executor outcomes given. `StartAll` models only the part of each `runDownload` before its first await. Progress messages or a Clear Done arriving between the awaits are not modelled; each of them is a separate handler, modelled on its own.
- The options object passed to `startDownload` (renderer/renderer.js:127-133): it only copies five fields of the job to the main process.
- JavaScript numbers: percentages are `real`, so NaN, infinities and rounding are not modelled. Ids are unbounded naturals, so precision loss beyond 2^53 is not modelled.
- `info.title` is taken to be a string. An executor reply without a title, which would store `undefined`, is not modelled. A rejection whose value has no `message` is modelled as an absent message.
- JsStrings.Includes: compares Unicode scalar values where JavaScript compares UTF-16 code units; the two agree on every marker it looks for, since all lie in the Basic Multilingual Plane.
- JsStrings.Split: splits a sequence of Unicode scalar values rather than UTF-16 code units; for the one-character separator `'\n'` the pieces are the same text.
- JsStrings.Trim: works on Unicode scalar values; every character `trim` removes lies in the Basic Multilingual Plane, so the result is the same text.
