/** The "Add to Queue" handler of renderer/renderer.js, minus its dialogs:
    turning the pasted text into URLs, splitting them by validity and building
    the new jobs. */
module Submission {
  import opened Wrappers
  import opened JsStrings
  import opened Seqs
  import opened Jobs

  // ------------------------------------------------ parsing the pasted text

  /** `.map(u => u.trim())`. */
  function TrimAll(lines: seq<string>): (r: seq<string>)
    ensures |r| == |lines|
    ensures forall i :: 0 <= i < |lines| ==> r[i] == Trim(lines[i])
  {
    seq(|lines|, i requires 0 <= i < |lines| => Trim(lines[i]))
  }

  predicate NonEmpty(u: string) {
    |u| > 0
  }

  /** `text.split('\n').map(u => u.trim()).filter(u => u.length > 0)`. */
  function ParseUrls(text: string): (urls: seq<string>)
    ensures forall i :: 0 <= i < |urls| ==> urls[i] != "" && IsTrimmed(urls[i]) && '\n' !in urls[i]
  {
    var lines := Split(text, '\n');
    var urls := Filter(TrimAll(lines), NonEmpty);
    forall i | 0 <= i < |urls| ensures '\n' !in urls[i] {
      var j :| 0 <= j < |TrimAll(lines)| && TrimAll(lines)[j] == urls[i];
      TrimKeepsAbsent(lines[j], '\n');
    }
    urls
  }

  /** Trimming takes a substring, so it cannot introduce a character. */
  lemma TrimKeepsAbsent(s: string, c: char)
    requires c !in s
    ensures c !in Trim(s)
  {
    var r := Trim(s);
    var i :| TrimmedFrom(s, r, i);
    forall k | 0 <= k < |r| ensures r[k] != c {
      assert r[k] == s[i + k];
    }
  }

  /** A single line (no newline) yields its trimmed form, or nothing when it is
      blank. */
  lemma ParseUrlsLine(line: string)
    requires '\n' !in line
    ensures ParseUrls(line) == if Trim(line) == "" then [] else [Trim(line)]
  {
    SplitFree(line, '\n');
    assert TrimAll([line]) == [Trim(line)];
  }

  /** Lines are taken in order: the URLs of two newline-separated blocks are the
      URLs of the first followed by those of the second. */
  lemma ParseUrlsConcat(a: string, b: string)
    ensures ParseUrls(a + "\n" + b) == ParseUrls(a) + ParseUrls(b)
  {
    SplitConcat(a, '\n', b);
    var la, lb := Split(a, '\n'), Split(b, '\n');
    TrimAllAppend(la, lb);
    FilterAppend(TrimAll(la), TrimAll(lb), NonEmpty);
  }

  lemma TrimAllAppend(a: seq<string>, b: seq<string>)
    ensures TrimAll(a + b) == TrimAll(a) + TrimAll(b)
  {
  }

  // ------------------------------------------------ validity

  /** The `urls.forEach` that pushes each URL onto `valid` or `invalid`
      according to whether `new URL(u)` accepts it. */
  method SplitByValidity(urls: seq<string>, validUrl: string -> bool) returns (valid: seq<string>, invalid: seq<string>)
    ensures valid == Filter(urls, validUrl)
    ensures invalid == Filter(urls, Not(validUrl))
  {
    valid, invalid := [], [];
    var i := 0;
    while i < |urls|
      invariant 0 <= i <= |urls|
      invariant valid == Filter(urls[..i], validUrl)
      invariant invalid == Filter(urls[..i], Not(validUrl))
    {
      var u := urls[i];
      if validUrl(u) {
        valid := valid + [u];
      } else {
        invalid := invalid + [u];
      }
      FilterSnoc(urls[..i], u, validUrl);
      FilterSnoc(urls[..i], u, Not(validUrl));
      assert urls[..i + 1] == urls[..i] + [u];
      i := i + 1;
    }
    assert urls[..i] == urls;
  }

  /** Every parsed URL lands in exactly one of `valid` and `invalid`. */
  lemma ValidityPartition(urls: seq<string>, validUrl: string -> bool)
    ensures multiset(Filter(urls, validUrl)) + multiset(Filter(urls, Not(validUrl))) == multiset(urls)
    ensures |Filter(urls, validUrl)| + |Filter(urls, Not(validUrl))| == |urls|
  {
    FilterPartition(urls, validUrl, Not(validUrl));
  }

  // ------------------------------------------------ new jobs

  /** `format === 'mp4' ? resSelect.value : null`. */
  function ResolutionFor(format: string, selected: string): (r: Option<string>)
    ensures r.Some? <==> format == "mp4"
    ensures r.Some? ==> r.value == selected
  {
    if format == "mp4" then Some(selected) else None
  }

  /** The object literal built for each valid URL. */
  function NewJob(id: nat, url: string, format: string, resolution: Option<string>, folder: string): (r: Job)
    ensures r.id == id && r.url == url && r.format == format
    ensures r.resolution == resolution && r.outputFolder == folder
    ensures IsQueued(r) && !IsDone(r)
    ensures r.percent == 0.0 && r.fileSize == "" && r.title == "" && r.error == ""
  {
    Job(id, url, format, resolution, folder, Queued, 0.0, "", "", "")
  }

  /** The jobs `valid.forEach` creates when the counter stands at `counter`. */
  function NewJobs(counter: nat, urls: seq<string>, format: string, resolution: Option<string>, folder: string): (r: seq<Job>)
    ensures |r| == |urls|
    decreases |urls|
  {
    if urls == [] then []
    else [NewJob(counter + 1, urls[0], format, resolution, folder)] + NewJobs(counter + 1, urls[1..], format, resolution, folder)
  }

  /** The `i`-th new job is the `i`-th valid URL with id `counter + i + 1`,
      status `queued`, percent 0 and empty size, title and error: ids are
      consecutive and follow the input order. */
  lemma {:induction false} NewJobsAt(counter: nat, urls: seq<string>, format: string, resolution: Option<string>, folder: string, i: nat)
    requires i < |urls|
    ensures NewJobs(counter, urls, format, resolution, folder)[i] == NewJob(counter + i + 1, urls[i], format, resolution, folder)
    decreases |urls|
  {
    if i > 0 {
      NewJobsAt(counter + 1, urls[1..], format, resolution, folder, i - 1);
    }
  }

  /** One more URL, one more job, with the next id. */
  lemma NewJobsStep(counter: nat, urls: seq<string>, k: nat, format: string, resolution: Option<string>, folder: string)
    requires k < |urls|
    ensures NewJobs(counter, urls[..k + 1], format, resolution, folder)
         == NewJobs(counter, urls[..k], format, resolution, folder) + [NewJob(counter + k + 1, urls[k], format, resolution, folder)]
  {
    var a := NewJobs(counter, urls[..k + 1], format, resolution, folder);
    var b := NewJobs(counter, urls[..k], format, resolution, folder) + [NewJob(counter + k + 1, urls[k], format, resolution, folder)];
    assert |a| == |b|;
    forall i | 0 <= i < |a| ensures a[i] == b[i] {
      NewJobsAt(counter, urls[..k + 1], format, resolution, folder, i);
      if i < k {
        NewJobsAt(counter, urls[..k], format, resolution, folder, i);
      }
    }
  }

  /** Appending the new jobs keeps ids unique and increasing and below the
      advanced counter: ids are never reused. */
  lemma NewJobsKeepIds(q: seq<Job>, counter: nat, urls: seq<string>, format: string, resolution: Option<string>, folder: string)
    requires IdsIncreasing(q) && IdsAtMost(q, counter)
    ensures IdsIncreasing(q + NewJobs(counter, urls, format, resolution, folder))
    ensures IdsAtMost(q + NewJobs(counter, urls, format, resolution, folder), counter + |urls|)
  {
    var made := NewJobs(counter, urls, format, resolution, folder);
    forall i | 0 <= i < |made| ensures made[i].id == counter + i + 1 {
      NewJobsAt(counter, urls, format, resolution, folder, i);
    }
  }

  /** Outcome of one press of "Add to Queue". */
  datatype AddOutcome =
    | NoFolder      // "Please select a download folder first."
    | NoUrls        // "Please paste at least one URL."
    | Declined      // the user cancelled the invalid-URL confirmation
    | NoValidUrls   // "No valid URLs found."
    | Added(count: nat)
}
