/**
 * services/builder.js: the local build pipeline and its in-memory job table.
 *
 * `startBuild` registers a job and starts `runJob` without waiting for it. `runJob` copies the
 * template into a job workspace, injects the configuration, runs the build script, checks for
 * the unsigned APK and the keystore, runs the signing script and records the outcome.
 *
 * The table `jobs` is the field of `LocalBuilder`. The ghost field `history` lists the status
 * writes to each job in order, so the order of the stages can be stated. `RunOutcome` specifies the part
 * of `runJob` after its first `await`, and `RunJobRest` is proved against it. The copy, the
 * two scripts and the clock are not run: their outcomes are the `Effects` the caller passes.
 */
module LocalBuilder {
  import opened Wrappers
  import opened Text
  import opened Files
  import StringsEditor
  import GradleEditor
  import IconReplacer

  /** The configuration `startBuild` receives; `None` is an absent field. */
  datatype BuildConfig = BuildConfig(
    appName: Option<string>,
    packageName: Option<string>,
    webUrl: Option<string>,
    adjustToken: Option<string>,
    eventToken: Option<string>,
    firebasePath: Option<string>,
    iconPath: Option<string>)

  datatype Status = Queued | Running | Building | Signing | Done | Error

  /** One record of `jobs`; `apk`, `error` and `finishedAt` are absent until they are set. */
  datatype Job = Job(
    status: Status,
    startedAt: int,
    cfg: BuildConfig,
    apk: Option<string>,
    error: Option<string>,
    finishedAt: Option<int>)

  type JobId = string

  /** `Date.now().toString() + '-' + uuidv4()`. */
  function JobIdOf(now: nat, uuid: string): JobId {
    DecimalString(now) + "-" + uuid
  }

  /** The first `-` of a job id is the one after the clock reading. */
  lemma DashAfterDigits(now: nat, uuid: string)
    ensures CharFrom(JobIdOf(now, uuid), '-', 0) == |DecimalString(now)|
  {
    var d := DecimalString(now);
    DecimalDigits(now);
    CharFromAt(JobIdOf(now, uuid), '-', 0, |d|);
  }

  /** Job ids from different clock readings or different UUIDs are different. */
  lemma JobIdInjective(n1: nat, u1: string, n2: nat, u2: string)
    requires JobIdOf(n1, u1) == JobIdOf(n2, u2)
    ensures n1 == n2 && u1 == u2
  {
    var id := JobIdOf(n1, u1);
    var d1, d2 := DecimalString(n1), DecimalString(n2);
    DashAfterDigits(n1, u1);
    DashAfterDigits(n2, u2);
    assert d1 == id[..|d1|] == d2;
    assert u1 == id[|d1| + 1..] == u2;
    DecimalRoundTrip(n1);
    DecimalRoundTrip(n2);
  }

  // ---------------------------------------------------------------------------
  // Paths. `root` is `path.join(__dirname, '..')`, the server's own directory.

  const JobsDir: string := "/temp/jobs"
  const Template: string := "/template/MyWebviewApp_Fixed3"
  const StringsXmlPath: string := "/app/src/main/res/values/strings.xml"
  const BuildGradlePath: string := "/app/build.gradle"
  const GoogleServicesPath: string := "/app/google-services.json"
  const UnsignedApkPath: string := "/app/build/outputs/apk/release/app-release-unsigned.apk"
  const DefaultKeystore: string := "/keystore/keystore.jks"
  const Downloads: string := "/downloads/"

  function JobDir(root: Path, jobId: JobId): Path {
    Join(root + JobsDir, jobId)
  }

  function TemplateDir(root: Path): Path {
    root + Template
  }

  function StringsPath(jobDir: Path): Path {
    jobDir + StringsXmlPath
  }

  function GradlePath(jobDir: Path): Path {
    jobDir + BuildGradlePath
  }

  function FirebaseDest(jobDir: Path): Path {
    jobDir + GoogleServicesPath
  }

  function UnsignedPath(jobDir: Path): Path {
    jobDir + UnsignedApkPath
  }

  /** `${cfg.packageName || 'app'}-${jobId}.apk`. */
  function OutName(cfg: BuildConfig, jobId: JobId): string {
    (if Truthy(cfg.packageName) then cfg.packageName.value else "app") + "-" + jobId + ".apk"
  }

  /** The `apk` field of a finished job. */
  function ApkUrl(cfg: BuildConfig, jobId: JobId): string {
    Downloads + OutName(cfg, jobId)
  }

  /** `process.env.KEYSTORE_PATH || '/keystore/keystore.jks'`. */
  function KeystorePath(env: Option<string>): Path {
    if Truthy(env) then env.value else DefaultKeystore
  }

  // ---------------------------------------------------------------------------
  // Error texts.

  /** `new Error(message).toString()`. */
  function ErrorText(message: string): (t: string)
    ensures t != ""
  {
    if message == "" then "Error" else "Error: " + message
  }

  /** `(e && e.toString()) || 'unknown'`, given the rendering of `e`. */
  function OrUnknown(rendered: string): (t: string)
    ensures t != ""
  {
    if rendered == "" then "unknown" else rendered
  }

  const KeystoreNotFound: string := "keystore not found at "
  const KeystoreHint: string := ". Please mount your keystore and set KEYSTORE_PATH env var."
  const UnsignedNotFound: string := "unsigned apk not found: "

  function KeystoreMissing(keystore: Path): string {
    KeystoreNotFound + keystore + KeystoreHint
  }

  function UnsignedMissing(unsigned: Path): string {
    UnsignedNotFound + unsigned
  }

  // ---------------------------------------------------------------------------
  // The specification of `runJob` after its first `await`.

  /**
   * What the outside world does during one run: whether `copyDir` fails (with the rendering
   * of its error), the rendering of the error a failed read or parse of an edited file
   * throws, the files each script writes or the message it fails with, and the clock at the end.
   */
  datatype Effects = Effects(
    copyError: Option<string>,
    readError: string,
    build: Result<map<Path, FileData>, string>,
    sign: Result<map<Path, FileData>, string>,
    finishedAt: int)

  /** The status writes of the run after `running`, the files it leaves and the apk or error it records. */
  datatype Outcome = Outcome(files: map<Path, FileData>, trace: seq<Status>, result: Result<string, string>)

  function StringsCfg(cfg: BuildConfig): StringsEditor.StringsConfig {
    StringsEditor.StringsConfig(cfg.appName, cfg.webUrl, cfg.adjustToken, cfg.eventToken)
  }

  function GradleCfg(cfg: BuildConfig): GradleEditor.GradleConfig {
    GradleEditor.GradleConfig(cfg.appName, cfg.webUrl, cfg.adjustToken, cfg.eventToken, cfg.packageName)
  }

  /**
   * Steps 1 and 2 of the injection: the two editors. `Err` carries the files as they are
   * when an edited file is missing or cannot be parsed, which throws inside the `try`.
   */
  function Edited(files: map<Path, FileData>, jobDir: Path, cfg: BuildConfig): Result<map<Path, FileData>, map<Path, FileData>> {
    var sp := StringsPath(jobDir);
    var gp := GradlePath(jobDir);
    if sp !in files || !files[sp].StringsXml? then Err(files)
    else
      var f1 := files[sp := StringsXml(StringsEditor.UpdatedDoc(files[sp].doc, StringsCfg(cfg)))];
      if gp !in f1 || !f1[gp].Text? then Err(f1)
      else Ok(f1[gp := Text(GradleEditor.ResValuesReplacedAsWritten(f1[gp].text, GradleCfg(cfg)))])
  }

  /** Step 3: the Firebase file is copied only when it is given and exists. */
  function WithFirebase(files: map<Path, FileData>, jobDir: Path, cfg: BuildConfig, root: Path): (r: map<Path, FileData>)
    ensures r.Keys <= files.Keys + {FirebaseDest(jobDir)}
  {
    if Truthy(cfg.firebasePath) && Join(root, cfg.firebasePath.value) in files then
      files[FirebaseDest(jobDir) := files[Join(root, cfg.firebasePath.value)]]
    else files
  }

  /** Step 4: the icons are replaced only when an icon is given and exists. */
  function WithIcon(files: map<Path, FileData>, jobDir: Path, cfg: BuildConfig, root: Path): (r: map<Path, FileData>)
    ensures r.Keys == files.Keys
  {
    if Truthy(cfg.iconPath) && Join(root, cfg.iconPath.value) in files then
      IconReplacer.ReplacedFiles(files, IconReplacer.Targets(jobDir), Join(root, cfg.iconPath.value))
    else files
  }

  /** The template copy and the four injection steps, in order: the workspace the build script finds. */
  function Prepared(files: map<Path, FileData>, jobDir: Path, cfg: BuildConfig, root: Path): Result<map<Path, FileData>, map<Path, FileData>> {
    var copied := files + Rebased(files, TemplateDir(root), jobDir);
    match Edited(copied, jobDir, cfg)
    case Err(f) => Err(f)
    case Ok(f) => Ok(WithIcon(WithFirebase(f, jobDir, cfg, root), jobDir, cfg, root))
  }

  /** After a successful build: the unsigned APK and keystore checks, then signing. */
  function AfterBuild(built: map<Path, FileData>, jobId: JobId, cfg: BuildConfig, root: Path, keystoreEnv: Option<string>, fx: Effects): Outcome {
    var unsigned := UnsignedPath(JobDir(root, jobId));
    var keystore := KeystorePath(keystoreEnv);
    if unsigned !in built then Outcome(built, [Error], Err(ErrorText(UnsignedMissing(unsigned))))
    else if keystore !in built then Outcome(built, [Error], Err(ErrorText(KeystoreMissing(keystore))))
    else SignOutcome(built, jobId, cfg, fx)
  }

  /** The signing script and the result fields. */
  function SignOutcome(built: map<Path, FileData>, jobId: JobId, cfg: BuildConfig, fx: Effects): Outcome {
    match fx.sign
    case Err(m) => Outcome(built, [Signing, Error], Err(ErrorText(m)))
    case Ok(signed) => Outcome(built + signed, [Signing, Done], Ok(ApkUrl(cfg, jobId)))
  }

  /** After `building` is set, in a prepared workspace. */
  function BuildOutcome(prepared: map<Path, FileData>, jobId: JobId, cfg: BuildConfig, root: Path, keystoreEnv: Option<string>, fx: Effects): Outcome {
    match fx.build
    case Err(m) => Outcome(prepared, [Error], Err(ErrorText(m)))
    case Ok(written) => AfterBuild(prepared + written, jobId, cfg, root, keystoreEnv, fx)
  }

  /** The whole run after `running`: a copy failure escapes the `try` and reaches `startBuild`'s `catch`. */
  function RunOutcome(files: map<Path, FileData>, jobId: JobId, cfg: BuildConfig, root: Path, keystoreEnv: Option<string>, fx: Effects): Outcome {
    RunFrom(files, Prepared(files, JobDir(root, jobId), cfg, root), jobId, cfg, root, keystoreEnv, fx)
  }

  /** The run once the preparation has ended as `prepared`. */
  function RunFrom(files: map<Path, FileData>, prepared: Result<map<Path, FileData>, map<Path, FileData>>, jobId: JobId,
                   cfg: BuildConfig, root: Path, keystoreEnv: Option<string>, fx: Effects): Outcome {
    if fx.copyError.Some? then Outcome(files, [Error], Err(OrUnknown(fx.copyError.value)))
    else match prepared
      case Err(f) => Outcome(f, [Error], Err(OrUnknown(fx.readError)))
      case Ok(f) =>
        var o := BuildOutcome(f, jobId, cfg, root, keystoreEnv, fx);
        o.(trace := [Building] + o.trace)
  }

  /** The record a run leaves: `done` with the apk and the finish time, or `error` with its message. */
  function Finished(job: Job, o: Outcome, finishedAt: int): Job {
    match o.result
    case Ok(apk) => job.(status := Done, apk := Some(apk), finishedAt := Some(finishedAt))
    case Err(m) => job.(status := Error, error := Some(m))
  }

  /**
   * Materialisation and steps 1 to 4 of the injection, on the file system: `false` when an
   * edited file is missing or cannot be parsed, which throws in the source.
   */
  method PrepareWorkspace(fs: FileSystem, jobDir: Path, cfg: BuildConfig, root: Path) returns (ok: bool)
    modifies fs
    ensures var p := Prepared(old(fs.files), jobDir, cfg, root);
      && ok == p.Ok?
      && fs.files == if ok then p.value else p.error
  {
    fs.CopyTree(TemplateDir(root), jobDir);
    ok := StringsEditor.UpdateStrings(fs, StringsPath(jobDir), StringsCfg(cfg));
    if !ok {
      return;
    }
    ok := GradleEditor.ReplaceResValues(fs, GradlePath(jobDir), GradleCfg(cfg));
    if !ok {
      return;
    }
    var copied: bool;
    if Truthy(cfg.firebasePath) {
      var src := Join(root, cfg.firebasePath.value);
      if fs.Exists(src) {
        copied := fs.Copy(src, FirebaseDest(jobDir));
      }
    }
    if Truthy(cfg.iconPath) {
      var iconSrc := Join(root, cfg.iconPath.value);
      if fs.Exists(iconSrc) {
        copied := IconReplacer.ReplaceIcon(fs, jobDir, iconSrc);
      }
    }
  }

  /** When the workspace is prepared, the run is `building` followed by what the build leads to. */
  lemma RunFromBuilt(files0: map<Path, FileData>, files1: map<Path, FileData>, jobId: JobId, cfg: BuildConfig, root: Path,
                     keystoreEnv: Option<string>, fx: Effects, job0: Job, h0: seq<Status>)
    requires fx.copyError.None?
    ensures var o := RunFrom(files0, Ok(files1), jobId, cfg, root, keystoreEnv, fx);
      var b := BuildOutcome(files1, jobId, cfg, root, keystoreEnv, fx);
      && o.files == b.files
      && Finished(job0, o, fx.finishedAt) == Finished(job0.(status := Building), b, fx.finishedAt)
      && h0 + o.trace == h0 + [Building] + b.trace
  {
    var b := BuildOutcome(files1, jobId, cfg, root, keystoreEnv, fx);
    assert h0 + [Building] + b.trace == h0 + ([Building] + b.trace);
  }

  // ---------------------------------------------------------------------------
  // What a run promises.

  /** The order statuses advance in; `done` and `error` both end a run. */
  function Rank(s: Status): nat {
    match s
    case Queued => 0
    case Running => 1
    case Building => 2
    case Signing => 3
    case Done => 4
    case Error => 4
  }

  /** Every status write moves the job forward. */
  predicate Forward(t: seq<Status>) {
    forall i, j :: 0 <= i < j < |t| ==> Rank(t[i]) < Rank(t[j])
  }

  /** The four ways a run can go after `running`. */
  lemma RunTraces(files: map<Path, FileData>, prepared: Result<map<Path, FileData>, map<Path, FileData>>, jobId: JobId,
                  cfg: BuildConfig, root: Path, keystoreEnv: Option<string>, fx: Effects)
    ensures var o := RunFrom(files, prepared, jobId, cfg, root, keystoreEnv, fx);
      && o.trace in {[Error], [Building, Error], [Building, Signing, Error], [Building, Signing, Done]}
      && (o.result.Ok? <==> o.trace[|o.trace| - 1] == Done)
      && (o.result.Err? ==> o.result.error != "")
  {
    var o := RunFrom(files, prepared, jobId, cfg, root, keystoreEnv, fx);
    if fx.copyError.None? && prepared.Ok? {
      if fx.build.Err? {
        assert o.trace == [Building, Error];
      } else {
        var built := prepared.value + fx.build.value;
        if UnsignedPath(JobDir(root, jobId)) !in built || KeystorePath(keystoreEnv) !in built {
          assert o.trace == [Building, Error];
        } else if fx.sign.Err? {
          assert o.trace == [Building, Signing, Error];
        } else {
          assert o.trace == [Building, Signing, Done];
        }
      }
    }
  }

  /**
   * A job moves forward through `queued`, `running`, `building` and `signing` and ends in
   * exactly one of `done` and `error`, which it reaches last; `done` is the successful run.
   */
  lemma {:induction false} RunEnds(files: map<Path, FileData>, jobId: JobId, cfg: BuildConfig, root: Path,
                                   keystoreEnv: Option<string>, fx: Effects)
    ensures var o := RunOutcome(files, jobId, cfg, root, keystoreEnv, fx);
      var t := [Queued, Running] + o.trace;
      && Forward(t)
      && Rank(t[|t| - 1]) == 4
      && (o.result.Ok? <==> t[|t| - 1] == Done)
      && (o.result.Err? <==> t[|t| - 1] == Error)
  {
    var p := Prepared(files, JobDir(root, jobId), cfg, root);
    var o := RunFrom(files, p, jobId, cfg, root, keystoreEnv, fx);
    assert RunOutcome(files, jobId, cfg, root, keystoreEnv, fx) == o;
    RunTraces(files, p, jobId, cfg, root, keystoreEnv, fx);
    TraceForward(o.trace);
  }

  /** Each of the four traces after `running` moves forward and ends in `done` or `error`. */
  lemma TraceForward(tr: seq<Status>)
    requires tr in {[Error], [Building, Error], [Building, Signing, Error], [Building, Signing, Done]}
    ensures var t := [Queued, Running] + tr;
      && Forward(t) && Rank(t[|t| - 1]) == 4
      && t[|t| - 1] == tr[|tr| - 1] && (tr[|tr| - 1] == Done || tr[|tr| - 1] == Error)
  {
  }

  /**
   * A run ends in `done` exactly when the template is copied, the workspace is prepared, both
   * scripts succeed and the unsigned APK and the keystore are present before signing; the
   * `apk` it records is then the download path of the output name.
   */
  lemma RunSucceeds(files: map<Path, FileData>, prepared: Result<map<Path, FileData>, map<Path, FileData>>, jobId: JobId,
                    cfg: BuildConfig, root: Path, keystoreEnv: Option<string>, fx: Effects)
    ensures var o := RunFrom(files, prepared, jobId, cfg, root, keystoreEnv, fx);
      && (o.result.Ok? <==>
            && fx.copyError.None? && prepared.Ok? && fx.build.Ok? && fx.sign.Ok?
            && UnsignedPath(JobDir(root, jobId)) in prepared.value + fx.build.value
            && KeystorePath(keystoreEnv) in prepared.value + fx.build.value)
      && (o.result.Ok? ==>
            && o.result.value == "/downloads/" + OutName(cfg, jobId)
            && o.files == prepared.value + fx.build.value + fx.sign.value)
  {
  }

  /**
   * A missing unsigned APK or keystore after a successful build stops the run before the
   * signing script: the unsigned APK is checked first, and the error names the missing path.
   */
  lemma MissingInputsStopBeforeSigning(files: map<Path, FileData>, prepared: map<Path, FileData>, jobId: JobId,
                                       cfg: BuildConfig, root: Path, keystoreEnv: Option<string>, fx: Effects)
    requires fx.copyError.None? && fx.build.Ok?
    requires var built := prepared + fx.build.value;
      UnsignedPath(JobDir(root, jobId)) !in built || KeystorePath(keystoreEnv) !in built
    ensures var o := RunFrom(files, Ok(prepared), jobId, cfg, root, keystoreEnv, fx);
      var built := prepared + fx.build.value;
      && Signing !in o.trace
      && o.files == built
      && o.result == Err(
           if UnsignedPath(JobDir(root, jobId)) !in built
           then "Error: " + UnsignedNotFound + UnsignedPath(JobDir(root, jobId))
           else "Error: " + KeystoreNotFound + KeystorePath(keystoreEnv) + KeystoreHint)
  {
    var u, k := UnsignedPath(JobDir(root, jobId)), KeystorePath(keystoreEnv);
    var built := prepared + fx.build.value;
    var m := if u !in built then UnsignedMissing(u) else KeystoreMissing(k);
    assert RunFrom(files, Ok(prepared), jobId, cfg, root, keystoreEnv, fx) == Outcome(built, [Building, Error], Err(ErrorText(m))) by {
      assert BuildOutcome(prepared, jobId, cfg, root, keystoreEnv, fx) == Outcome(built, [Error], Err(ErrorText(m)));
    }
    MissingMessages(u, k);
  }

  /** The texts of the two missing-file errors. */
  lemma MissingMessages(u: Path, k: Path)
    ensures ErrorText(UnsignedMissing(u)) == "Error: " + UnsignedNotFound + u
    ensures ErrorText(KeystoreMissing(k)) == "Error: " + KeystoreNotFound + k + KeystoreHint
  {
  }

  /** The configuration reaches the outcome after preparation only through the package name. */
  lemma RunFromPackageOnly(files: map<Path, FileData>, prepared: Result<map<Path, FileData>, map<Path, FileData>>, jobId: JobId,
                           cfg: BuildConfig, plain: BuildConfig, root: Path, keystoreEnv: Option<string>, fx: Effects)
    requires plain.packageName == cfg.packageName
    ensures RunFrom(files, prepared, jobId, cfg, root, keystoreEnv, fx) == RunFrom(files, prepared, jobId, plain, root, keystoreEnv, fx)
  {
    assert OutName(cfg, jobId) == OutName(plain, jobId);
  }

  /** The editors only change files that exist. */
  lemma EditedKeys(files: map<Path, FileData>, jobDir: Path, cfg: BuildConfig)
    ensures Edited(files, jobDir, cfg).Ok? ==> Edited(files, jobDir, cfg).value.Keys == files.Keys
  {
  }

  /** The Firebase file lands inside the job directory. */
  lemma FirebaseDestUnder(jobDir: Path)
    ensures IsUnder(FirebaseDest(jobDir), jobDir)
  {
    assert FirebaseDest(jobDir)[..|jobDir| + 1] == jobDir + "/";
  }

  /**
   * A source outside the job directory that is missing before the run is missing at steps 3
   * and 4 as well: neither the template copy nor the editors nor the Firebase copy create it.
   */
  lemma {:induction false} OutsideStaysMissing(files: map<Path, FileData>, jobDir: Path, cfg: BuildConfig, root: Path, src: Path)
    requires src !in files && !IsUnder(src, jobDir)
    ensures var copied := files + Rebased(files, TemplateDir(root), jobDir);
      Edited(copied, jobDir, cfg).Ok? ==>
        && src !in Edited(copied, jobDir, cfg).value
        && src !in WithFirebase(Edited(copied, jobDir, cfg).value, jobDir, cfg, root)
  {
    var copied := files + Rebased(files, TemplateDir(root), jobDir);
    assert src !in copied;
    EditedKeys(copied, jobDir, cfg);
    FirebaseDestUnder(jobDir);
  }

  /** Steps 1 and 2 do not look at the Firebase file or the icon. */
  lemma EditedIgnoresSources(files: map<Path, FileData>, jobDir: Path, cfg: BuildConfig, plain: BuildConfig)
    requires plain == cfg.(firebasePath := plain.firebasePath, iconPath := plain.iconPath)
    ensures Edited(files, jobDir, cfg) == Edited(files, jobDir, plain)
  {
    assert StringsCfg(cfg) == StringsCfg(plain) && GradleCfg(cfg) == GradleCfg(plain);
  }

  /** Dropping a Firebase file that step 3 does not find leaves the prepared workspace as it is. */
  lemma {:induction false} PreparedWithoutFirebase(files: map<Path, FileData>, jobDir: Path, cfg: BuildConfig, root: Path)
    requires cfg.firebasePath.Some?
    requires Join(root, cfg.firebasePath.value) !in files && !IsUnder(Join(root, cfg.firebasePath.value), jobDir)
    ensures Prepared(files, jobDir, cfg, root) == Prepared(files, jobDir, cfg.(firebasePath := None), root)
  {
    var copied := files + Rebased(files, TemplateDir(root), jobDir);
    EditedIgnoresSources(copied, jobDir, cfg, cfg.(firebasePath := None));
    OutsideStaysMissing(files, jobDir, cfg, root, Join(root, cfg.firebasePath.value));
  }

  /** Dropping an icon that step 4 does not find leaves the prepared workspace as it is. */
  lemma {:induction false} PreparedWithoutIcon(files: map<Path, FileData>, jobDir: Path, cfg: BuildConfig, root: Path)
    requires cfg.iconPath.Some?
    requires Join(root, cfg.iconPath.value) !in files && !IsUnder(Join(root, cfg.iconPath.value), jobDir)
    ensures Prepared(files, jobDir, cfg, root) == Prepared(files, jobDir, cfg.(iconPath := None), root)
  {
    var copied := files + Rebased(files, TemplateDir(root), jobDir);
    EditedIgnoresSources(copied, jobDir, cfg, cfg.(iconPath := None));
    OutsideStaysMissing(files, jobDir, cfg, root, Join(root, cfg.iconPath.value));
  }

  /** A Firebase file that is named but missing is skipped with a warning: the run goes as if none was named. */
  lemma {:induction false} MissingFirebaseSkipped(files: map<Path, FileData>, jobId: JobId, cfg: BuildConfig, root: Path,
                                                  keystoreEnv: Option<string>, fx: Effects)
    requires cfg.firebasePath.Some?
    requires Join(root, cfg.firebasePath.value) !in files && !IsUnder(Join(root, cfg.firebasePath.value), JobDir(root, jobId))
    ensures RunOutcome(files, jobId, cfg, root, keystoreEnv, fx) == RunOutcome(files, jobId, cfg.(firebasePath := None), root, keystoreEnv, fx)
  {
    var plain := cfg.(firebasePath := None);
    var p := Prepared(files, JobDir(root, jobId), cfg, root);
    PreparedWithoutFirebase(files, JobDir(root, jobId), cfg, root);
    RunFromPackageOnly(files, p, jobId, cfg, plain, root, keystoreEnv, fx);
  }

  /** An icon that is named but missing is skipped with a warning: the run goes as if none was named. */
  lemma {:induction false} MissingIconSkipped(files: map<Path, FileData>, jobId: JobId, cfg: BuildConfig, root: Path,
                                              keystoreEnv: Option<string>, fx: Effects)
    requires cfg.iconPath.Some?
    requires Join(root, cfg.iconPath.value) !in files && !IsUnder(Join(root, cfg.iconPath.value), JobDir(root, jobId))
    ensures RunOutcome(files, jobId, cfg, root, keystoreEnv, fx) == RunOutcome(files, jobId, cfg.(iconPath := None), root, keystoreEnv, fx)
  {
    var plain := cfg.(iconPath := None);
    var p := Prepared(files, JobDir(root, jobId), cfg, root);
    PreparedWithoutIcon(files, JobDir(root, jobId), cfg, root);
    RunFromPackageOnly(files, p, jobId, cfg, plain, root, keystoreEnv, fx);
  }

  // ---------------------------------------------------------------------------
  // The job table.

  class LocalBuilder {
    var jobs: map<JobId, Job>
    /** The status writes made to each job, in order, starting with its registration. */
    ghost var history: map<JobId, seq<Status>>

    constructor ()
      ensures jobs == map[] && history == map[]
    {
      jobs := map[];
      history := map[];
    }

    ghost function History(jobId: JobId): seq<Status>
      reads this
    {
      if jobId in history then history[jobId] else []
    }

    /** `getJobStatus(jobId)`: the stored record, or `None` (`undefined`) for an unknown id. */
    function GetJobStatus(jobId: JobId): (r: Option<Job>)
      reads this
      ensures r.Some? <==> jobId in jobs
      ensures r.Some? ==> r.value == jobs[jobId]
    {
      if jobId in jobs then Some(jobs[jobId]) else None
    }

    /** `jobs[jobId].status = status`. */
    method SetStatus(jobId: JobId, status: Status)
      requires jobId in jobs
      modifies this
      ensures jobs == old(jobs)[jobId := old(jobs)[jobId].(status := status)]
      ensures history == old(history)[jobId := old(History(jobId)) + [status]]
    {
      jobs := jobs[jobId := jobs[jobId].(status := status)];
      history := history[jobId := History(jobId) + [status]];
    }

    /** The `catch` blocks: status `error` and the error's text. */
    method Fail(jobId: JobId, message: string)
      requires jobId in jobs
      modifies this
      ensures jobs == old(jobs)[jobId := old(jobs)[jobId].(status := Error, error := Some(message))]
      ensures history == old(history)[jobId := old(History(jobId)) + [Error]]
    {
      SetStatus(jobId, Error);
      jobs := jobs[jobId := jobs[jobId].(error := Some(message))];
    }

    /** The end of the `try`: status `done`, the `apk` reference and the finish time. */
    method Complete(jobId: JobId, apk: string, finishedAt: int)
      requires jobId in jobs
      modifies this
      ensures jobs == old(jobs)[jobId := old(jobs)[jobId].(status := Done, apk := Some(apk), finishedAt := Some(finishedAt))]
      ensures history == old(history)[jobId := old(History(jobId)) + [Done]]
    {
      SetStatus(jobId, Done);
      jobs := jobs[jobId := jobs[jobId].(apk := Some(apk), finishedAt := Some(finishedAt))];
    }

    /**
     * `startBuild(cfg)` up to its return. The job is registered as `queued`, then `runJob` runs
     * synchronously up to its first `await`, which sets `running`. `now` is the clock reading
     * the id is made from and `startedAt` the second reading. A record already under the
     * same id is overwritten.
     */
    method StartBuild(cfg: BuildConfig, now: nat, uuid: string, startedAt: int) returns (jobId: JobId)
      modifies this
      ensures jobId == JobIdOf(now, uuid)
      ensures jobs == old(jobs)[jobId := Job(Running, startedAt, cfg, None, None, None)]
      ensures history == old(history)[jobId := [Queued, Running]]
    {
      jobId := JobIdOf(now, uuid);
      jobs := jobs[jobId := Job(Queued, startedAt, cfg, None, None, None)];
      history := history[jobId := [Queued]];
      SetStatus(jobId, Running);
      assert [Queued] + [Running] == [Queued, Running];
    }

    /**
     * The rest of `runJob(jobId, cfg)` after the template copy is started, together with the
     * `catch` `startBuild` attaches to it.
     */
    method RunJobRest(fs: FileSystem, jobId: JobId, cfg: BuildConfig, root: Path, keystoreEnv: Option<string>, fx: Effects)
      requires jobId in jobs
      modifies this, fs
      ensures var o := RunOutcome(old(fs.files), jobId, cfg, root, keystoreEnv, fx);
        && fs.files == o.files
        && jobs == old(jobs)[jobId := Finished(old(jobs)[jobId], o, fx.finishedAt)]
        && history == old(history)[jobId := old(History(jobId)) + o.trace]
    {
      ghost var files0 := fs.files;
      if fx.copyError.Some? {
        Fail(jobId, OrUnknown(fx.copyError.value));
        return;
      }
      var ok := PrepareWorkspace(fs, JobDir(root, jobId), cfg, root);
      ghost var p := Prepared(files0, JobDir(root, jobId), cfg, root);
      AfterPrepare(fs, ok, files0, p, jobId, cfg, root, keystoreEnv, fx);
    }

    /** The rest of the run once the workspace preparation has ended as `prepared`. */
    method AfterPrepare(fs: FileSystem, ok: bool, ghost files0: map<Path, FileData>, ghost prepared: Result<map<Path, FileData>, map<Path, FileData>>,
                        jobId: JobId, cfg: BuildConfig, root: Path, keystoreEnv: Option<string>, fx: Effects)
      requires jobId in jobs && fx.copyError.None?
      requires ok == prepared.Ok? && fs.files == if ok then prepared.value else prepared.error
      modifies this, fs
      ensures var o := RunFrom(files0, prepared, jobId, cfg, root, keystoreEnv, fx);
        && fs.files == o.files
        && jobs == old(jobs)[jobId := Finished(old(jobs)[jobId], o, fx.finishedAt)]
        && history == old(history)[jobId := old(History(jobId)) + o.trace]
    {
      if !ok {
        Fail(jobId, OrUnknown(fx.readError));
        return;
      }
      ghost var files1, h0, job0 := fs.files, History(jobId), jobs[jobId];
      SetStatus(jobId, Building);
      Build(fs, jobId, cfg, root, keystoreEnv, fx);
      RunFromBuilt(files0, files1, jobId, cfg, root, keystoreEnv, fx, job0, h0);
    }

    /** Step 5 of the `try` after `building` is set: the build script, then step 6. */
    method Build(fs: FileSystem, jobId: JobId, cfg: BuildConfig, root: Path, keystoreEnv: Option<string>, fx: Effects)
      requires jobId in jobs
      modifies this, fs
      ensures var o := BuildOutcome(old(fs.files), jobId, cfg, root, keystoreEnv, fx);
        && fs.files == o.files
        && jobs == old(jobs)[jobId := Finished(old(jobs)[jobId], o, fx.finishedAt)]
        && history == old(history)[jobId := old(History(jobId)) + o.trace]
    {
      if fx.build.Err? {
        Fail(jobId, ErrorText(fx.build.error));
        return;
      }
      fs.WriteAll(fx.build.value);
      CheckAndSign(fs, jobId, cfg, root, keystoreEnv, fx);
    }

    /** Step 6 of the `try`: the two checks, signing and the result fields. */
    method CheckAndSign(fs: FileSystem, jobId: JobId, cfg: BuildConfig, root: Path, keystoreEnv: Option<string>, fx: Effects)
      requires jobId in jobs
      modifies this, fs
      ensures var o := AfterBuild(old(fs.files), jobId, cfg, root, keystoreEnv, fx);
        && fs.files == o.files
        && jobs == old(jobs)[jobId := Finished(old(jobs)[jobId], o, fx.finishedAt)]
        && history == old(history)[jobId := old(History(jobId)) + o.trace]
    {
      ghost var o := AfterBuild(fs.files, jobId, cfg, root, keystoreEnv, fx);
      var unsigned := UnsignedPath(JobDir(root, jobId));
      if !fs.Exists(unsigned) {
        assert o == Outcome(fs.files, [Error], Err(ErrorText(UnsignedMissing(unsigned))));
        Fail(jobId, ErrorText(UnsignedMissing(unsigned)));
        return;
      }
      var keystore := KeystorePath(keystoreEnv);
      if !fs.Exists(keystore) {
        assert o == Outcome(fs.files, [Error], Err(ErrorText(KeystoreMissing(keystore))));
        Fail(jobId, ErrorText(KeystoreMissing(keystore)));
        return;
      }
      assert o == SignOutcome(fs.files, jobId, cfg, fx);
      Sign(fs, jobId, cfg, fx);
    }

    /** `signing`, the signing script, then `done` with `apk` and `finishedAt`. */
    method Sign(fs: FileSystem, jobId: JobId, cfg: BuildConfig, fx: Effects)
      requires jobId in jobs
      modifies this, fs
      ensures var o := SignOutcome(old(fs.files), jobId, cfg, fx);
        && fs.files == o.files
        && jobs == old(jobs)[jobId := Finished(old(jobs)[jobId], o, fx.finishedAt)]
        && history == old(history)[jobId := old(History(jobId)) + o.trace]
    {
      SetStatus(jobId, Signing);
      if fx.sign.Err? {
        Fail(jobId, ErrorText(fx.sign.error));
        assert old(History(jobId)) + [Signing] + [Error] == old(History(jobId)) + [Signing, Error];
        return;
      }
      fs.WriteAll(fx.sign.value);
      Complete(jobId, ApkUrl(cfg, jobId), fx.finishedAt);
      assert old(History(jobId)) + [Signing] + [Done] == old(History(jobId)) + [Signing, Done];
    }
  }
}
