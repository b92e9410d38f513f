/**
 * services/ghaBuilder.js: the build that runs on GitHub Actions. `triggerBuild` registers a
 * job, dispatches the workflow with the configuration as inputs, polls for the run it
 * started and for that run's completion, and downloads the first artifact of a successful
 * run. Every HTTP exchange and clock reading is a parameter: the poll sequences list what the
 * successive passes of the two polling loops observe.
 */
module RemoteBuilder {
  import opened Wrappers
  import opened Text
  import opened Files
  import LocalBuilder

  type BuildConfig = LocalBuilder.BuildConfig

  type JobId = string

  datatype Status = Queued | Triggering | Dispatched | Running | Done | Error

  /** A thrown value as a `catch` sees it: its `message` and its `JSON.stringify` rendering. */
  datatype Thrown = Thrown(message: string, json: string)

  /** `new Error(message)`, which `JSON.stringify` renders as an empty object. */
  function NewError(message: string): Thrown {
    Thrown(message, "{}")
  }

  /** `err.message || JSON.stringify(err)`. */
  function Caught(t: Thrown): string {
    if t.message != "" then t.message else t.json
  }

  const TokenMissing: string := "GITHUB_TOKEN not set in env"
  const RunNotFound: string := "workflow run not found after dispatch"
  const CompletionTimedOut: string := "timeout waiting for workflow run completion"
  const ConclusionPrefix: string := "workflow finished with conclusion: "
  const NoArtifact: string := "no artifact found"
  const Downloads: string := "/downloads/"
  const ArtifactSuffix: string := "-artifact.zip"
  const OutputDir: string := "/uploads/output"

  // ---------------------------------------------------------------------------
  // The dispatch inputs.

  /** The `inputs` object of the `workflow_dispatch` request. */
  datatype Inputs = Inputs(appName: string, packageName: string, webUrl: string, adjustToken: string, eventToken: string)

  const DefaultAppName: string := "DEFAULT_APP_NAME"
  const DefaultPackageName: string := "com.example.app"
  const DefaultWebUrl: string := "https://default.com"
  const DefaultAdjustToken: string := "DEFAULT_ADJUST_TOKEN"
  const DefaultEventToken: string := "DEFAULT_EVENT_TOKEN"

  /** `v || d`. */
  function OrDefault(v: Option<string>, d: string): string {
    if Truthy(v) then v.value else d
  }

  /** The inputs as the code builds them, with `appName` tested twice before its default. */
  function InputsOf(cfg: BuildConfig): Inputs {
    Inputs(
      OrDefault(cfg.appName, OrDefault(cfg.appName, DefaultAppName)),
      OrDefault(cfg.packageName, DefaultPackageName),
      OrDefault(cfg.webUrl, DefaultWebUrl),
      OrDefault(cfg.adjustToken, DefaultAdjustToken),
      OrDefault(cfg.eventToken, DefaultEventToken))
  }

  /**
   * Each input is its configuration field when that is a non-empty string and the field's
   * default otherwise; in particular no input is empty.
   */
  lemma InputsFromConfig(cfg: BuildConfig)
    ensures var r := InputsOf(cfg);
      && r.appName == (if Truthy(cfg.appName) then cfg.appName.value else "DEFAULT_APP_NAME")
      && r.packageName == (if Truthy(cfg.packageName) then cfg.packageName.value else "com.example.app")
      && r.webUrl == (if Truthy(cfg.webUrl) then cfg.webUrl.value else "https://default.com")
      && r.adjustToken == (if Truthy(cfg.adjustToken) then cfg.adjustToken.value else "DEFAULT_ADJUST_TOKEN")
      && r.eventToken == (if Truthy(cfg.eventToken) then cfg.eventToken.value else "DEFAULT_EVENT_TOKEN")
      && r.appName != "" && r.packageName != "" && r.webUrl != "" && r.adjustToken != "" && r.eventToken != ""
  {
  }

  // ---------------------------------------------------------------------------
  // `findNewestRunId`.

  const DiscoveryWindow: int := 120000

  /**
   * One pass of the discovery loop: the clock reading of the loop test and, when the loop
   * goes on, the listing the GET returns (the ids of the listed runs, newest first, with a
   * missing list read as empty) or the error it throws.
   */
  datatype ListingPoll = ListingPoll(now: int, listing: Result<seq<int>, Thrown>)

  /** A pass after which the loop goes on: inside the window and an empty listing. */
  predicate StillLooking(start: int, p: ListingPoll) {
    p.now - start < DiscoveryWindow && p.listing == Ok([])
  }

  /** The passes describe a whole run of the loop: one of them ends it. */
  predicate DiscoveryEnds(start: int, polls: seq<ListingPoll>) {
    exists i :: 0 <= i < |polls| && !StillLooking(start, polls[i])
  }

  /** The pass that ends the loop: the first that is not followed by another. */
  function DiscoveryEnd(start: int, polls: seq<ListingPoll>): (i: nat)
    requires DiscoveryEnds(start, polls)
    ensures i < |polls| && !StillLooking(start, polls[i])
    ensures forall j :: 0 <= j < i ==> StillLooking(start, polls[j])
    decreases |polls|
  {
    if !StillLooking(start, polls[0]) then 0
    else
      assert DiscoveryEnds(start, polls[1..]) by {
        var k :| 0 <= k < |polls| && !StillLooking(start, polls[k]);
        assert polls[1..][k - 1] == polls[k];
      }
      var i := DiscoveryEnd(start, polls[1..]);
      assert forall j :: 1 <= j <= i ==> polls[j] == polls[1..][j - 1];
      1 + i
  }

  /**
   * What `findNewestRunId` ends with: the id of the first run in the listing of the ending
   * pass, the error of that pass's GET, or `workflow run not found after dispatch` once the
   * window has passed.
   */
  function Discovered(start: int, polls: seq<ListingPoll>): (r: Result<int, Thrown>)
    requires DiscoveryEnds(start, polls)
  {
    var p := polls[DiscoveryEnd(start, polls)];
    if p.now - start >= DiscoveryWindow then Err(NewError(RunNotFound))
    else if p.listing.Err? then Err(p.listing.error)
    else Ok(p.listing.value[0])
  }

  /**
   * A run id is found exactly when some pass inside the window lists a run after passes that
   * listed none; it is the first run of that listing.
   */
  lemma {:induction false} DiscoveredFirstListed(start: int, polls: seq<ListingPoll>, i: nat)
    requires i < |polls| && forall j :: 0 <= j < i ==> StillLooking(start, polls[j])
    requires polls[i].now - start < DiscoveryWindow && polls[i].listing.Ok? && polls[i].listing.value != []
    ensures DiscoveryEnds(start, polls)
    ensures Discovered(start, polls) == Ok(polls[i].listing.value[0])
  {
    assert !StillLooking(start, polls[i]);
    var e := DiscoveryEnd(start, polls);
  }

  /** `findNewestRunId(inputs)`: polls the run listing until a run appears or 120 s have passed. */
  method FindNewestRunId(start: int, polls: seq<ListingPoll>) returns (r: Result<int, Thrown>)
    requires DiscoveryEnds(start, polls)
    ensures r == Discovered(start, polls)
  {
    ghost var end := DiscoveryEnd(start, polls);
    var i := 0;
    while polls[i].now - start < DiscoveryWindow
      invariant i <= end
      invariant forall j :: 0 <= j < i ==> StillLooking(start, polls[j])
      decreases end - i
    {
      match polls[i].listing
      case Err(t) =>
        return Err(t);
      case Ok(runs) =>
        if |runs| > 0 {
          return Ok(runs[0]);
        }
      i := i + 1;
    }
    r := Err(NewError(RunNotFound));
  }

  // ---------------------------------------------------------------------------
  // `waitForRunCompletion`.

  const CompletionTimeout: int := 1200000

  /** A workflow run as the API reports it; a `null` conclusion is `None`. */
  datatype Run = Run(id: int, status: string, conclusion: Option<string>)

  /**
   * One pass of the completion loop: the run the GET returns or the error it throws, and the
   * clock reading made when the run is not yet completed.
   */
  datatype RunPoll = RunPoll(run: Result<Run, Thrown>, now: int)

  /** A pass after which the loop goes on: a run not yet completed, within the 20 minutes. */
  predicate StillRunning(start: int, p: RunPoll) {
    p.run.Ok? && p.run.value.status != "completed" && p.now - start <= CompletionTimeout
  }

  predicate CompletionEnds(start: int, polls: seq<RunPoll>) {
    exists i :: 0 <= i < |polls| && !StillRunning(start, polls[i])
  }

  function CompletionEnd(start: int, polls: seq<RunPoll>): (i: nat)
    requires CompletionEnds(start, polls)
    ensures i < |polls| && !StillRunning(start, polls[i])
    ensures forall j :: 0 <= j < i ==> StillRunning(start, polls[j])
    decreases |polls|
  {
    if !StillRunning(start, polls[0]) then 0
    else
      assert CompletionEnds(start, polls[1..]) by {
        var k :| 0 <= k < |polls| && !StillRunning(start, polls[k]);
        assert polls[1..][k - 1] == polls[k];
      }
      var i := CompletionEnd(start, polls[1..]);
      assert forall j :: 1 <= j <= i ==> polls[j] == polls[1..][j - 1];
      1 + i
  }

  /**
   * What `waitForRunCompletion` ends with: a completed run, the error of a GET, or the
   * timeout error once more than 20 minutes have passed without completion.
   */
  function Completed(start: int, polls: seq<RunPoll>): (r: Result<Run, Thrown>)
    requires CompletionEnds(start, polls)
    ensures r.Ok? ==> r.value.status == "completed"
    ensures r == Err(NewError(CompletionTimedOut)) || r == polls[CompletionEnd(start, polls)].run
  {
    var p := polls[CompletionEnd(start, polls)];
    if p.run.Err? then Err(p.run.error)
    else if p.run.value.status == "completed" then Ok(p.run.value)
    else Err(NewError(CompletionTimedOut))
  }

  /** The timeout error comes only after a reading more than 20 minutes past the start. */
  lemma CompletionTimesOut(start: int, polls: seq<RunPoll>)
    requires CompletionEnds(start, polls)
    requires forall i :: 0 <= i < |polls| ==> polls[i].run.Ok? && polls[i].run.value.status != "completed"
    ensures Completed(start, polls) == Err(NewError(CompletionTimedOut))
    ensures polls[CompletionEnd(start, polls)].now - start > CompletionTimeout
  {
  }

  /** `waitForRunCompletion(runId)`: polls the run until it is completed. */
  method WaitForRunCompletion(start: int, polls: seq<RunPoll>) returns (r: Result<Run, Thrown>)
    requires CompletionEnds(start, polls)
    ensures r == Completed(start, polls)
  {
    ghost var end := CompletionEnd(start, polls);
    var i := 0;
    while true
      invariant i <= end
      invariant forall j :: 0 <= j < i ==> StillRunning(start, polls[j])
      decreases end - i
    {
      match polls[i].run
      case Err(t) =>
        return Err(t);
      case Ok(run) =>
        if run.status == "completed" {
          return Ok(run);
        }
        if polls[i].now - start > CompletionTimeout {
          return Err(NewError(CompletionTimedOut));
        }
      i := i + 1;
    }
  }

  // ---------------------------------------------------------------------------
  // The specification of `triggerBuild` after the dispatch payload is built.

  /**
   * What the outside world does during one remote build: the error of the dispatch POST if
   * it fails, the clock when it succeeds, the passes of the two polling loops with the clock
   * reading each loop starts from, the artifact listing (the archive URLs, a missing list read
   * as empty) or its error, the response to the download of the first archive, and the clock
   * at the end.
   */
  datatype Remote = Remote(
    dispatch: Option<Thrown>,
    dispatchedAt: int,
    discoveryStart: int,
    listings: seq<ListingPoll>,
    completionStart: int,
    runPolls: seq<RunPoll>,
    artifacts: Result<seq<string>, Thrown>,
    download: Result<seq<bv8>, Thrown>,
    finishedAt: int)

  /** Both polling loops are described to their end. */
  predicate Described(fx: Remote) {
    DiscoveryEnds(fx.discoveryStart, fx.listings) && CompletionEnds(fx.completionStart, fx.runPolls)
  }

  /** The job record with every field the code may add. */
  datatype Job = Job(
    status: Status,
    createdAt: int,
    cfg: BuildConfig,
    dispatchedAt: Option<int>,
    runId: Option<int>,
    runInfo: Option<Run>,
    error: Option<string>,
    artifactZip: Option<string>,
    message: Option<string>,
    finishedAt: Option<int>)

  /** The end of one stage: the record, the status writes made and the archive saved, if any. */
  datatype Stage = Stage(job: Job, trace: seq<Status>, zip: Option<seq<bv8>>)

  /** The `catch` of `triggerBuild`. */
  function Failed(job: Job, t: Thrown): Stage {
    Stage(job.(status := Error, error := Some(Caught(t))), [Error], None)
  }

  /** `Date.now().toString()`. */
  function JobIdOf(now: nat): JobId {
    DecimalString(now)
  }

  /** `/downloads/<jobId>-artifact.zip`. */
  function ArtifactUrl(jobId: JobId): string {
    Downloads + jobId + ArtifactSuffix
  }

  function ZipPath(root: Path, jobId: JobId): Path {
    Join(root + OutputDir, jobId + ArtifactSuffix)
  }

  /** The files after the archive, if any, is saved; it is never unzipped. */
  function ZipSaved(files: map<Path, FileData>, root: Path, jobId: JobId, zip: Option<seq<bv8>>): map<Path, FileData> {
    if zip.Some? then files[ZipPath(root, jobId) := Blob(zip.value)] else files
  }

  /** After the run completed: the conclusion check, the artifact listing and the download. */
  function Collected(job: Job, jobId: JobId, run: Run, fx: Remote): (s: Stage)
    ensures s.trace == [s.job.status] && (s.job.status == Done || s.job.status == Error)
    ensures s.job.status == Error ==> s.job.error.Some?
    ensures s.zip.Some? ==> s.job.status == Done
  {
    if run.conclusion != Some("success") then
      Stage(job.(status := Error, error := Some(ConclusionPrefix + run.conclusion.GetOr("null"))), [Error], None)
    else match fx.artifacts
      case Err(t) => Failed(job, t)
      case Ok(urls) =>
        if urls == [] then Stage(job.(status := Done, message := Some(NoArtifact)), [Done], None)
        else match fx.download
          case Err(t) => Failed(job, t)
          case Ok(bytes) =>
            Stage(job.(status := Done, artifactZip := Some(ArtifactUrl(jobId)), finishedAt := Some(fx.finishedAt)), [Done], Some(bytes))
  }

  /** After `running` is set, with `found` the outcome of the run discovery. */
  function Watched(job: Job, jobId: JobId, found: Result<int, Thrown>, fx: Remote): (s: Stage)
    requires Described(fx)
    ensures s.trace == [s.job.status] && (s.job.status == Done || s.job.status == Error)
    ensures s.job.status == Error ==> s.job.error.Some?
    ensures s.zip.Some? ==> s.job.status == Done
  {
    match found
    case Err(t) => Failed(job, t)
    case Ok(id) =>
      var j := job.(runId := Some(id));
      match Completed(fx.completionStart, fx.runPolls)
      case Err(t) => Failed(j, t)
      case Ok(run) => Collected(j.(runInfo := Some(run)), jobId, run, fx)
  }

  /** The `try` of `triggerBuild`, from a record in status `triggering`. */
  function Triggered(job: Job, jobId: JobId, fx: Remote): Stage
    requires Described(fx)
  {
    match fx.dispatch
    case Some(t) => Failed(job, t)
    case None =>
      var w := Watched(job.(status := Running, dispatchedAt := Some(fx.dispatchedAt)), jobId,
                       Discovered(fx.discoveryStart, fx.listings), fx);
      w.(trace := [Dispatched, Running] + w.trace)
  }

  // ---------------------------------------------------------------------------
  // What a remote build promises.

  /** The order statuses advance in; `done` and `error` both end a build. */
  function Rank(s: Status): nat {
    match s
    case Queued => 0
    case Triggering => 1
    case Dispatched => 2
    case Running => 3
    case Done => 4
    case Error => 4
  }

  predicate Forward(t: seq<Status>) {
    forall i, j :: 0 <= i < j < |t| ==> Rank(t[i]) < Rank(t[j])
  }

  /** The three ways a build can go after `triggering`; the record ends in the last status written. */
  lemma TriggeredTraces(job: Job, jobId: JobId, fx: Remote)
    requires Described(fx)
    ensures var s := Triggered(job, jobId, fx);
      && s.trace in {[Error], [Dispatched, Running, Error], [Dispatched, Running, Done]}
      && s.job.status == s.trace[|s.trace| - 1]
      && (s.job.status == Error ==> s.job.error.Some?)
      && (s.zip.Some? ==> s.job.status == Done)
  {
    var s := Triggered(job, jobId, fx);
    if fx.dispatch.None? {
      var j := job.(status := Running, dispatchedAt := Some(fx.dispatchedAt));
      var w := Watched(j, jobId, Discovered(fx.discoveryStart, fx.listings), fx);
      if w.job.status == Error {
        assert s.trace == [Dispatched, Running, Error];
      } else {
        assert s.trace == [Dispatched, Running, Done];
      }
    }
  }

  /**
   * A job moves forward through `queued`, `triggering`, `dispatched` and `running` and ends
   * in exactly one of `done` and `error`, which it reaches last.
   */
  lemma {:induction false} BuildEnds(job: Job, jobId: JobId, fx: Remote)
    requires Described(fx)
    ensures var t := [Queued, Triggering] + Triggered(job, jobId, fx).trace;
      && Forward(t)
      && Rank(t[|t| - 1]) == 4
  {
    TriggeredTraces(job, jobId, fx);
  }

  /**
   * A run that completes with any conclusion but `success` ends the job in `error` with the
   * conclusion in the message, and nothing is downloaded.
   */
  lemma UnsuccessfulConclusion(job: Job, jobId: JobId, fx: Remote, id: int, run: Run)
    requires Described(fx) && fx.dispatch.None?
    requires Discovered(fx.discoveryStart, fx.listings) == Ok(id)
    requires Completed(fx.completionStart, fx.runPolls) == Ok(run)
    requires run.conclusion != Some("success")
    ensures var s := Triggered(job, jobId, fx);
      && s.job.status == Error
      && s.job.error == Some("workflow finished with conclusion: " + (if run.conclusion.Some? then run.conclusion.value else "null"))
      && s.job.runId == Some(id) && s.job.runInfo == Some(run)
      && s.zip.None?
  {
  }

  /**
   * After a successful run: an empty artifact list gives `done` with `no artifact found` and
   * no archive; otherwise the first archive is saved and `artifactZip` is its download path.
   */
  lemma SuccessfulConclusion(job: Job, jobId: JobId, fx: Remote, id: int, run: Run)
    requires Described(fx) && fx.dispatch.None?
    requires Discovered(fx.discoveryStart, fx.listings) == Ok(id)
    requires Completed(fx.completionStart, fx.runPolls) == Ok(run)
    requires run.conclusion == Some("success")
    ensures var s := Triggered(job, jobId, fx);
      && (fx.artifacts == Ok([]) ==>
            s.job.status == Done && s.job.message == Some("no artifact found") && s.job.artifactZip == job.artifactZip && s.zip.None?)
      && (s.zip.Some? <==> fx.artifacts.Ok? && fx.artifacts.value != [] && fx.download.Ok?)
      && (s.zip.Some? ==>
            && s.zip == Some(fx.download.value)
            && s.job.status == Done
            && s.job.artifactZip == Some("/downloads/" + jobId + "-artifact.zip")
            && s.job.finishedAt == Some(fx.finishedAt))
  {
  }

  /** Job ids from different clock readings are different; two builds in the same millisecond share one. */
  lemma {:induction false} JobIdCollides(n1: nat, n2: nat)
    ensures JobIdOf(n1) == JobIdOf(n2) <==> n1 == n2
  {
    DecimalRoundTrip(n1);
    DecimalRoundTrip(n2);
  }

  // ---------------------------------------------------------------------------
  // The job table.

  class RemoteBuilder {
    var jobs: map<JobId, Job>
    /** The status writes made to each job, in order, starting with its registration. */
    ghost var history: map<JobId, seq<Status>>
    /** The payloads of the dispatch requests sent, in order. */
    ghost var sent: seq<Inputs>

    constructor ()
      ensures jobs == map[] && history == map[] && sent == []
    {
      jobs := map[];
      history := map[];
      sent := [];
    }

    ghost function History(jobId: JobId): seq<Status>
      reads this
    {
      if jobId in history then history[jobId] else []
    }

    /** `getJobStatus(jobId)`: the stored record, or `None` (`undefined`) for an unknown id. */
    function GetJobStatus(jobId: JobId): (r: Option<Job>)
      reads this
      ensures r.Some? <==> jobId in jobs
      ensures r.Some? ==> r.value == jobs[jobId]
    {
      if jobId in jobs then Some(jobs[jobId]) else None
    }

    /** Records the end of a stage: its record and its status writes. */
    method Record(jobId: JobId, s: Stage)
      requires jobId in jobs
      modifies this
      ensures jobs == old(jobs)[jobId := s.job]
      ensures history == old(history)[jobId := old(History(jobId)) + s.trace]
      ensures sent == old(sent)
    {
      jobs := jobs[jobId := s.job];
      history := history[jobId := History(jobId) + s.trace];
    }

    /**
     * `triggerBuild(cfg)`. Without a token it throws before any record exists. Otherwise the
     * job is registered, dispatched and followed to its end, and its id is returned; a record
     * already under the same id is overwritten.
     */
    method TriggerBuild(fs: FileSystem, root: Path, token: Option<string>, cfg: BuildConfig, now: nat, createdAt: int, fx: Remote)
      returns (r: Result<JobId, Thrown>)
      requires Described(fx)
      modifies this, fs
      ensures !Truthy(token) ==>
        && r == Err(NewError(TokenMissing))
        && jobs == old(jobs) && history == old(history) && sent == old(sent) && fs.files == old(fs.files)
      ensures Truthy(token) ==>
        var jobId := JobIdOf(now);
        var s := Triggered(Job(Triggering, createdAt, cfg, None, None, None, None, None, None, None), jobId, fx);
        && r == Ok(jobId)
        && jobs == old(jobs)[jobId := s.job]
        && history == old(history)[jobId := [Queued, Triggering] + s.trace]
        && sent == old(sent) + [InputsOf(cfg)]
        && fs.files == ZipSaved(old(fs.files), root, jobId, s.zip)
    {
      if !Truthy(token) {
        return Err(NewError(TokenMissing));
      }
      var jobId := JobIdOf(now);
      Register(jobId, cfg, createdAt);
      var inputs := InputsOf(cfg);
      sent := sent + [inputs];
      var s := Dispatch(fs, root, jobId, fx);
      Record(jobId, s);
      r := Ok(jobId);
    }

    /** The synchronous start of `triggerBuild`: the record as `queued`, then `triggering`. */
    method Register(jobId: JobId, cfg: BuildConfig, createdAt: int)
      modifies this
      ensures jobs == old(jobs)[jobId := Job(Triggering, createdAt, cfg, None, None, None, None, None, None, None)]
      ensures history == old(history)[jobId := [Queued, Triggering]]
      ensures sent == old(sent)
    {
      jobs := jobs[jobId := Job(Queued, createdAt, cfg, None, None, None, None, None, None, None)];
      history := history[jobId := [Queued]];
      jobs := jobs[jobId := jobs[jobId].(status := Triggering)];
      history := history[jobId := history[jobId] + [Triggering]];
      assert [Queued] + [Triggering] == [Queued, Triggering];
    }

    /** The `try` of `triggerBuild`: its stage, with the archive saved when there is one. */
    method Dispatch(fs: FileSystem, root: Path, jobId: JobId, fx: Remote) returns (s: Stage)
      requires jobId in jobs && Described(fx)
      modifies fs
      ensures s == Triggered(old(jobs[jobId]), jobId, fx)
      ensures fs.files == ZipSaved(old(fs.files), root, jobId, s.zip)
    {
      if fx.dispatch.Some? {
        return Failed(jobs[jobId], fx.dispatch.value);
      }
      var job := jobs[jobId].(status := Running, dispatchedAt := Some(fx.dispatchedAt));
      var found := FindNewestRunId(fx.discoveryStart, fx.listings);
      var w := Watch(fs, root, job, jobId, found, fx);
      s := w.(trace := [Dispatched, Running] + w.trace);
    }

    /** From `running`: the run id, the wait for completion and the collection of the result. */
    method Watch(fs: FileSystem, root: Path, job: Job, jobId: JobId, found: Result<int, Thrown>, fx: Remote) returns (s: Stage)
      requires Described(fx)
      modifies fs
      ensures s == Watched(job, jobId, found, fx)
      ensures fs.files == ZipSaved(old(fs.files), root, jobId, s.zip)
    {
      if found.Err? {
        return Failed(job, found.error);
      }
      var j := job.(runId := Some(found.value));
      var run := WaitForRunCompletion(fx.completionStart, fx.runPolls);
      if run.Err? {
        return Failed(j, run.error);
      }
      s := Collect(fs, root, j.(runInfo := Some(run.value)), jobId, run.value, fx);
    }

    /** The conclusion check, the artifact listing, the download and the saved archive. */
    method Collect(fs: FileSystem, root: Path, job: Job, jobId: JobId, run: Run, fx: Remote) returns (s: Stage)
      modifies fs
      ensures s == Collected(job, jobId, run, fx)
      ensures fs.files == ZipSaved(old(fs.files), root, jobId, s.zip)
    {
      if run.conclusion != Some("success") {
        var c := if run.conclusion.Some? then run.conclusion.value else "null";
        return Stage(job.(status := Error, error := Some(ConclusionPrefix + c)), [Error], None);
      }
      if fx.artifacts.Err? {
        return Failed(job, fx.artifacts.error);
      }
      if |fx.artifacts.value| == 0 {
        return Stage(job.(status := Done, message := Some(NoArtifact)), [Done], None);
      }
      if fx.download.Err? {
        return Failed(job, fx.download.error);
      }
      fs.Write(ZipPath(root, jobId), Blob(fx.download.value));
      s := Stage(job.(status := Done, artifactZip := Some(ArtifactUrl(jobId)), finishedAt := Some(fx.finishedAt)),
                 [Done], Some(fx.download.value));
    }
  }
}
