/**
 * `replaceIcon` of services/iconReplacer.js: overwrite the launcher icons of a job workspace
 * with the uploaded icon, in each of five density folders, but only where an icon file is
 * already present.
 */
module IconReplacer {
  import opened Files

  /** The density folders, in the order they are visited. */
  const Densities: seq<string> := ["mipmap-mdpi", "mipmap-hdpi", "mipmap-xhdpi", "mipmap-xxhdpi", "mipmap-xxxhdpi"]

  function ResDir(projectPath: Path, density: string): Path {
    projectPath + "/app/src/main/res/" + density
  }

  function LauncherPath(projectPath: Path, density: string): Path {
    Join(ResDir(projectPath, density), "ic_launcher.png")
  }

  function ForegroundPath(projectPath: Path, density: string): Path {
    Join(ResDir(projectPath, density), "ic_launcher_foreground.png")
  }

  /** The candidate paths of the density folders `ds` in visiting order: for each, the icon and then its foreground. */
  function TargetsOf(projectPath: Path, ds: seq<string>): (ts: seq<Path>)
    ensures |ts| == 2 * |ds|
    ensures forall t :: t in ts ==> exists d :: d in ds && (t == LauncherPath(projectPath, d) || t == ForegroundPath(projectPath, d))
  {
    if ds == [] then []
    else [LauncherPath(projectPath, ds[0]), ForegroundPath(projectPath, ds[0])] + TargetsOf(projectPath, ds[1..])
  }

  lemma {:induction false} TargetsOfConcat(projectPath: Path, ds: seq<string>, es: seq<string>)
    ensures TargetsOf(projectPath, ds + es) == TargetsOf(projectPath, ds) + TargetsOf(projectPath, es)
  {
    if ds == [] {
      assert ds + es == es;
    } else {
      assert (ds + es)[1..] == ds[1..] + es;
      TargetsOfConcat(projectPath, ds[1..], es);
    }
  }

  /** The ten candidate paths `replaceIcon` looks at. */
  function Targets(projectPath: Path): seq<Path> {
    TargetsOf(projectPath, Densities)
  }

  /** The file map after every existing path among `targets` received a copy of `icon`. */
  function ReplacedFiles(files: map<Path, FileData>, targets: seq<Path>, icon: Path): (r: map<Path, FileData>)
    ensures r.Keys == files.Keys
    ensures forall p :: p in files && p !in targets ==> r[p] == files[p]
    ensures icon in files ==> forall p :: p in files && p in targets ==> r[p] == files[icon]
  {
    map p | p in files :: if p in targets && icon in files then files[icon] else files[p]
  }

  /** One `if (fs.existsSync(dest)) fs.copyFileSync(iconSrc, dest)` step. */
  method CopyIfExists(fs: FileSystem, iconSrc: Path, dest: Path) returns (ok: bool)
    modifies fs
    ensures ok == (dest !in old(fs.files) || iconSrc in old(fs.files))
    ensures ok && dest in old(fs.files) ==> fs.files == old(fs.files)[dest := old(fs.files)[iconSrc]]
    ensures !ok || dest !in old(fs.files) ==> fs.files == old(fs.files)
  {
    ok := true;
    if fs.Exists(dest) {
      ok := fs.Copy(iconSrc, dest);
    }
  }

  /** Extending the visited prefix by one path is one conditional copy. */
  lemma ReplacedStep(start: map<Path, FileData>, prefix: seq<Path>, t: Path, icon: Path)
    requires icon in start
    ensures var before := ReplacedFiles(start, prefix, icon);
      && icon in before && before[icon] == start[icon]
      && ReplacedFiles(start, prefix + [t], icon) == if t in start then before[t := start[icon]] else before
  {
  }

  /** The paths of density folder `i` follow those of the folders before it, and are among the ten targets. */
  lemma TargetsStep(projectPath: Path, i: nat)
    requires i < |Densities|
    ensures var dest := LauncherPath(projectPath, Densities[i]);
      var fg := ForegroundPath(projectPath, Densities[i]);
      && TargetsOf(projectPath, Densities[..i + 1]) == TargetsOf(projectPath, Densities[..i]) + [dest] + [fg]
      && dest in Targets(projectPath) && fg in Targets(projectPath)
  {
    var dest := LauncherPath(projectPath, Densities[i]);
    var fg := ForegroundPath(projectPath, Densities[i]);
    assert Densities[..i + 1] == Densities[..i] + [Densities[i]];
    TargetsOfConcat(projectPath, Densities[..i], [Densities[i]]);
    assert TargetsOf(projectPath, [Densities[i]]) == [dest, fg];
    assert Densities == Densities[..i + 1] + Densities[i + 1..];
    TargetsOfConcat(projectPath, Densities[..i + 1], Densities[i + 1..]);
  }

  /**
   * `replaceIcon(projectPath, iconSrc)`. A copy from a missing source throws on the first
   * existing target, before any file has changed; that is the `false` outcome.
   */
  method ReplaceIcon(fs: FileSystem, projectPath: Path, iconSrc: Path) returns (ok: bool)
    modifies fs
    ensures ok == (iconSrc in old(fs.files) || forall t :: t in Targets(projectPath) ==> t !in old(fs.files))
    ensures ok ==> fs.files == ReplacedFiles(old(fs.files), Targets(projectPath), iconSrc)
    ensures !ok ==> fs.files == old(fs.files)
  {
    ghost var start := fs.files;
    var i := 0;
    while i < |Densities|
      invariant 0 <= i <= |Densities|
      invariant iconSrc in start ==> fs.files == ReplacedFiles(start, TargetsOf(projectPath, Densities[..i]), iconSrc)
      invariant iconSrc !in start ==> fs.files == start && forall t :: t in TargetsOf(projectPath, Densities[..i]) ==> t !in start
    {
      ok := ReplaceDensity(fs, projectPath, iconSrc, i, start);
      if !ok {
        return;
      }
      i := i + 1;
    }
    assert Densities[..i] == Densities;
    ok := true;
  }

  /** The loop body of `replaceIcon` for density folder `i`: the icon, then the foreground. */
  method ReplaceDensity(fs: FileSystem, projectPath: Path, iconSrc: Path, i: nat, ghost start: map<Path, FileData>) returns (ok: bool)
    requires i < |Densities|
    requires iconSrc in start ==> fs.files == ReplacedFiles(start, TargetsOf(projectPath, Densities[..i]), iconSrc)
    requires iconSrc !in start ==> fs.files == start && forall t :: t in TargetsOf(projectPath, Densities[..i]) ==> t !in start
    modifies fs
    ensures ok ==> iconSrc in start ==> fs.files == ReplacedFiles(start, TargetsOf(projectPath, Densities[..i + 1]), iconSrc)
    ensures ok ==> iconSrc !in start ==> fs.files == start && forall t :: t in TargetsOf(projectPath, Densities[..i + 1]) ==> t !in start
    ensures !ok ==> iconSrc !in start && fs.files == start && exists t :: t in Targets(projectPath) && t in start
  {
    var dest := LauncherPath(projectPath, Densities[i]);
    var fg := ForegroundPath(projectPath, Densities[i]);
    ghost var done := TargetsOf(projectPath, Densities[..i]);
    TargetsStep(projectPath, i);
    if iconSrc in start {
      ReplacedStep(start, done, dest, iconSrc);
      ReplacedStep(start, done + [dest], fg, iconSrc);
    }
    ok := CopyIfExists(fs, iconSrc, dest);
    if !ok {
      return;
    }
    ok := CopyIfExists(fs, iconSrc, fg);
  }

  /** A second replacement with the same icon leaves the file map as the first one left it. */
  lemma ReplaceIdempotent(files: map<Path, FileData>, targets: seq<Path>, icon: Path)
    ensures ReplacedFiles(ReplacedFiles(files, targets, icon), targets, icon) == ReplacedFiles(files, targets, icon)
  {
  }
}
