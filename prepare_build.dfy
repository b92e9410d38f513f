/**
 * tools/prepare-build.js: a one-shot script that reads `config/buildConfig.json` and edits the
 * Android project in place. It rewrites the app name, moves the Java sources to the package
 * directory and rewrites the application id, injects the H5 URL, the Adjust token and the
 * Adjust event tokens, and writes the Firebase file and the launcher icons when the config
 * holds them.
 *
 * Every text edit is `replaceInFile`: a global regular-expression replacement of a pattern
 * `head.*tail`, where `head` and `tail` are literal text.
 */
module PrepareBuild {
  import opened Wrappers
  import opened Text
  import opened Files

  // ---------------------------------------------------------------------------
  // The global replacement `data.replace(new RegExp(head + ".*" + tail, "g"), replacement)`.

  /** The largest `k` in `[lo, hi]` where `p` occurs in `s`. */
  function LastStartIn(s: string, p: string, lo: nat, hi: nat): (r: Option<nat>)
    decreases hi
    ensures r.Some? ==> lo <= r.value <= hi && StartsAt(s, p, r.value)
    ensures r.Some? ==> forall k :: r.value < k <= hi ==> !StartsAt(s, p, k)
    ensures r.None? ==> forall k :: lo <= k <= hi ==> !StartsAt(s, p, k)
  {
    if hi < lo then None
    else if StartsAt(s, p, hi) then Some(hi)
    else if hi == lo then None
    else LastStartIn(s, p, lo, hi - 1)
  }

  /**
   * The end of the match of `head.*tail` that starts at `p`, if there is one: `head` at `p`,
   * then the longest run of characters other than line terminators that `tail` follows.
   */
  function MatchAt(s: string, head: string, tail: string, p: nat): (r: Option<nat>)
    ensures r.Some? ==> p + |head| + |tail| <= r.value <= |s|
  {
    if !StartsAt(s, head, p) then None
    else
      var from := p + |head|;
      match LastStartIn(s, tail, from, LineEnd(s, from))
      case None => None
      case Some(k) => Some(k + |tail|)
  }

  /**
   * A match is `head`, a run without line terminators and `tail`, and no later `tail` on the
   * line ends a longer one; without a match, `head` is missing or no `tail` follows on its line.
   */
  lemma MatchAtSpec(s: string, head: string, tail: string, p: nat)
    ensures var r := MatchAt(s, head, tail, p);
      && (r.Some? ==> StartsAt(s, head, p) && StartsAt(s, tail, r.value - |tail|))
      && (r.Some? ==> forall k :: p + |head| <= k < r.value - |tail| ==> !IsJsLineTerminator(s[k]))
      && (r.Some? ==> forall k :: r.value - |tail| < k <= LineEnd(s, p + |head|) ==> !StartsAt(s, tail, k))
      && (r.None? && StartsAt(s, head, p) ==> forall k :: p + |head| <= k <= LineEnd(s, p + |head|) ==> !StartsAt(s, tail, k))
  {
    if StartsAt(s, head, p) {
      LineEndSpec(s, p + |head|);
    }
  }

  /** A matcher for `s`: the end of the match that starts at each position, if any; a match is never empty. */
  ghost predicate IsMatcher(s: string, m: nat -> Option<nat>) {
    forall p: nat :: m(p).Some? ==> p < m(p).value <= |s|
  }

  /** `MatchAt` as a matcher, for a non-empty `head`. */
  function PatternMatcher(s: string, head: string, tail: string): (m: nat -> Option<nat>)
    requires |head| > 0
    ensures IsMatcher(s, m)
    ensures forall p :: m(p) == MatchAt(s, head, tail, p)
  {
    var m := (p: nat) => MatchAt(s, head, tail, p);
    assert forall p: nat :: m(p).Some? ==> p + |head| + |tail| <= m(p).value <= |s|;
    m
  }

  /**
   * The spans a global search matches from `from` on, in order: the search tries each position
   * in turn, takes the match found there, and resumes at its end.
   */
  function MatchSpans(s: string, m: nat -> Option<nat>, from: nat): (r: seq<(nat, nat)>)
    requires IsMatcher(s, m)
    decreases |s| + 1 - from
    ensures forall j :: 0 <= j < |r| ==> from <= r[j].0 < r[j].1 <= |s|
    ensures forall i, j :: 0 <= i < j < |r| ==> r[i].1 <= r[j].0
  {
    if from >= |s| then []
    else
      match m(from)
      case None => MatchSpans(s, m, from + 1)
      case Some(e) => [(from, e)] + MatchSpans(s, m, e)
  }

  /** Each span is the match found at its start. */
  lemma {:induction false} SpansAreMatches(s: string, m: nat -> Option<nat>, from: nat, j: nat)
    requires IsMatcher(s, m) && j < |MatchSpans(s, m, from)|
    ensures var r := MatchSpans(s, m, from);
      m(r[j].0) == Some(r[j].1)
    decreases |s| + 1 - from
  {
    if m(from).None? {
      SpansAreMatches(s, m, from + 1, j);
    } else if j > 0 {
      SpansAreMatches(s, m, m(from).value, j - 1);
    }
  }

  /** `q` lies inside one of the spans. */
  ghost predicate Covered(spans: seq<(nat, nat)>, q: nat) {
    exists j :: 0 <= j < |spans| && spans[j].0 <= q < spans[j].1
  }

  /** No match is left standing: every position where a match starts lies inside a replaced span. */
  lemma {:induction false} EveryMatchReplaced(s: string, m: nat -> Option<nat>, from: nat, q: nat)
    requires IsMatcher(s, m) && from <= q && m(q).Some?
    ensures Covered(MatchSpans(s, m, from), q)
    decreases |s| + 1 - from
  {
    var r := MatchSpans(s, m, from);
    assert q < m(q).value <= |s|;
    if m(from).None? {
      EveryMatchReplaced(s, m, from + 1, q);
      assert r == MatchSpans(s, m, from + 1);
    } else {
      var e := m(from).value;
      var rest := MatchSpans(s, m, e);
      assert r == [(from, e)] + rest;
      if e <= q {
        EveryMatchReplaced(s, m, e, q);
        var j :| 0 <= j < |rest| && rest[j].0 <= q < rest[j].1;
        assert r[j + 1] == rest[j];
        assert 0 <= j + 1 < |r| && r[j + 1].0 <= q < r[j + 1].1;
      } else {
        assert 0 < |r| && r[0].0 <= q < r[0].1;
      }
    }
  }

  /** What one match is replaced by: the replacement itself, or its expansion of `$` patterns. */
  function Insertion(s: string, p: nat, e: nat, replacement: string, expandPatterns: bool): string
    requires p <= e <= |s|
  {
    if expandPatterns then ExpandTemplate(replacement, s[..p], s[p..e], s[e..]) else replacement
  }

  /** `s` from `from` on, with each of the ordered spans replaced. */
  function Splice(s: string, from: nat, spans: seq<(nat, nat)>, replacement: string, expandPatterns: bool): string
    requires from <= |s|
    requires forall j :: 0 <= j < |spans| ==> from <= spans[j].0 <= spans[j].1 <= |s|
    requires forall i, j :: 0 <= i < j < |spans| ==> spans[i].1 <= spans[j].0
    decreases |spans|
  {
    if spans == [] then s[from..]
    else
      s[from..spans[0].0] + Insertion(s, spans[0].0, spans[0].1, replacement, expandPatterns)
        + Splice(s, spans[0].1, spans[1..], replacement, expandPatterns)
  }

  /** The global replacement, inserting `replacement` literally at every match. */
  function ReplaceAll(s: string, head: string, tail: string, replacement: string): string
    requires |head| > 0
  {
    Splice(s, 0, MatchSpans(s, PatternMatcher(s, head, tail), 0), replacement, false)
  }

  /** The global replacement as `String.prototype.replace` performs it, expanding `$` patterns in each insertion. */
  function ReplaceAllAsWritten(s: string, head: string, tail: string, replacement: string): string
    requires |head| > 0
  {
    Splice(s, 0, MatchSpans(s, PatternMatcher(s, head, tail), 0), replacement, true)
  }

  /** A text in which the pattern matches nowhere is left as it is. */
  lemma NoMatchUnchanged(s: string, head: string, tail: string, replacement: string)
    requires |head| > 0 && forall q :: MatchAt(s, head, tail, q).None?
    ensures ReplaceAll(s, head, tail, replacement) == s
  {
    var m := PatternMatcher(s, head, tail);
    if MatchSpans(s, m, 0) != [] {
      SpansAreMatches(s, m, 0, 0);
    }
  }

  /** A text that is one whole match becomes the insertion. */
  lemma WholeMatch(s: string, head: string, tail: string, replacement: string, expandPatterns: bool)
    requires |head| > 0 && MatchAt(s, head, tail, 0) == Some(|s|)
    ensures MatchSpans(s, PatternMatcher(s, head, tail), 0) == [(0, |s|)]
    ensures Splice(s, 0, [(0, |s|)], replacement, expandPatterns) == Insertion(s, 0, |s|, replacement, expandPatterns)
  {
    var m := PatternMatcher(s, head, tail);
    assert MatchSpans(s, m, |s|) == [];
    assert s[0..0] == [] && s[|s|..] == [];
  }

  /** A single-line text `head`, `v`, `tail` is one whole match. */
  lemma SingleLineMatch(head: string, v: string, tail: string)
    requires NoJsLineTerminator(v + tail)
    ensures var s := head + v + tail;
      MatchAt(s, head, tail, 0) == Some(|s|)
  {
    var s := head + v + tail;
    assert s[..|head|] == head;
    forall k | |head| <= k < |s|
      ensures !IsJsLineTerminator(s[k])
    {
      assert s[k] == (v + tail)[k - |head|];
    }
    LineEndUnique(s, |head|, |s|);
    assert s[|s| - |tail|..] == tail;
    assert StartsAt(s, tail, |s| - |tail|);
  }

  /** A single-line text `head`, `v`, `tail` becomes the replacement, and nothing else is left. */
  lemma WholeLineReplaced(head: string, v: string, tail: string, replacement: string)
    requires |head| > 0 && NoJsLineTerminator(v + tail)
    ensures ReplaceAll(head + v + tail, head, tail, replacement) == replacement
  {
    var s := head + v + tail;
    SingleLineMatch(head, v, tail);
    WholeMatch(s, head, tail, replacement, false);
  }

  /** Without `$` in the replacement, the code's replacement and the literal one agree. */
  lemma {:induction false} SpliceWithoutDollar(s: string, from: nat, spans: seq<(nat, nat)>, replacement: string)
    requires from <= |s| && '$' !in replacement
    requires forall j :: 0 <= j < |spans| ==> from <= spans[j].0 <= spans[j].1 <= |s|
    requires forall i, j :: 0 <= i < j < |spans| ==> spans[i].1 <= spans[j].0
    ensures Splice(s, from, spans, replacement, true) == Splice(s, from, spans, replacement, false)
    decreases |spans|
  {
    if spans != [] {
      var (p, e) := spans[0];
      ExpandWithoutDollar(replacement, s[..p], s[p..e], s[e..]);
      SpliceWithoutDollar(s, e, spans[1..], replacement);
    }
  }

  /** Without `$` in the replacement, `ReplaceAllAsWritten` is `ReplaceAll`. */
  lemma AsWrittenAgreesWithoutDollar(s: string, head: string, tail: string, replacement: string)
    requires |head| > 0
    ensures '$' !in replacement ==> ReplaceAllAsWritten(s, head, tail, replacement) == ReplaceAll(s, head, tail, replacement)
  {
    if '$' !in replacement {
      SpliceWithoutDollar(s, 0, MatchSpans(s, PatternMatcher(s, head, tail), 0), replacement);
    }
  }

  const Root: string := "./MyWebviewApp_Fixed3/MyWebviewApp_Fixed3"
  const ConfigPath: string := "./config/buildConfig.json"
  const StringsXmlPath: string := Root + "/app/src/main/res/values/strings.xml"
  const JavaRoot: string := Root + "/app/src/main/java"
  const OldPackagePath: string := JavaRoot + "/com/go606/br33"
  const BuildGradlePath: string := Root + "/app/build.gradle"
  const FirebasePath: string := Root + "/app/google-services.json"
  const ResRoot: string := Root + "/app/src/main/res"

  const AppNameHead: string := "<string name=\"app_name\">"
  const StringClose: string := "</string>"
  const AppIdHead: string := "applicationId \""
  const QuoteTail: string := "\""
  const BaseUrlHead: string := "String BASE_URL = \""
  const TokenHead: string := "String ADJUST_TOKEN = \""
  const StatementTail: string := "\";"

  /** The app name line holds no `$` and, with a one-letter name, no line terminator. */
  lemma AppNameLiterals()
    ensures '$' !in AppNameHead && '$' !in StringClose
    ensures NoJsLineTerminator("A" + StringClose)
  {
    assert "A" + StringClose == "A</string>";
  }

  /** The app name line of a config with `appName` = `A`, when the name is `$&`, as the code rewrites it: the old line lands inside the new one. */
  lemma AppNameAsWrittenExpandsDollar()
    ensures var s := AppNameHead + "A" + StringClose;
      var r := AppNameHead + "$&" + StringClose;
      && ReplaceAllAsWritten(s, AppNameHead, StringClose, r) == AppNameHead + s + StringClose
      && ReplaceAll(s, AppNameHead, StringClose, r) == r
  {
    var s := AppNameHead + "A" + StringClose;
    var r := AppNameHead + "$&" + StringClose;
    AppNameLiterals();
    SingleLineMatch(AppNameHead, "A", StringClose);
    WholeMatch(s, AppNameHead, StringClose, r, true);
    WholeMatch(s, AppNameHead, StringClose, r, false);
    ExpandMatched(AppNameHead, StringClose, s[..0], s[0..|s|], s[|s|..]);
    assert s[0..|s|] == s;
  }

  // ---------------------------------------------------------------------------
  // Moving the Java sources to the package directory.

  /** `packageName.replace(/\./g, "/")`: every `.` becomes `/`, and nothing else changes. */
  function Slashed(name: string): (r: string)
    ensures |r| == |name|
    ensures forall i :: 0 <= i < |name| ==> r[i] == if name[i] == '.' then '/' else name[i]
  {
    if name == [] then []
    else Slashed(name[..|name| - 1]) + [if name[|name| - 1] == '.' then '/' else name[|name| - 1]]
  }

  /** `p` is a file directly inside `dir`. */
  predicate InDir(p: Path, dir: Path) {
    IsUnder(p, dir) && '/' !in p[|dir| + 1..]
  }

  /** The name of a file inside `dir`. */
  function NameIn(p: Path, dir: Path): string
    requires IsUnder(p, dir)
  {
    p[|dir| + 1..]
  }

  /** A non-empty name without `/` joined to `dir` is a file directly inside `dir`, with that name. */
  lemma JoinInDir(dir: Path, n: string)
    requires n != [] && '/' !in n
    ensures InDir(Join(dir, n), dir) && NameIn(Join(dir, n), dir) == n
  {
  }

  /** A suffix without `/` has no `/` at any of its positions. */
  lemma NoSlashFrom(p: string, lo: nat)
    requires lo <= |p| && '/' !in p[lo..]
    ensures forall i :: lo <= i < |p| ==> p[i] != '/'
  {
    forall i | lo <= i < |p|
      ensures p[i] != '/'
    {
      assert p[lo..][i - lo] == p[i];
    }
  }

  /** A file is directly inside one directory only, and its path is that directory joined to its name. */
  lemma InDirUnique(p: Path, a: Path, b: Path)
    requires InDir(p, a) && InDir(p, b)
    ensures a == b && p == Join(a, NameIn(p, a))
  {
    NoSlashFrom(p, |a| + 1);
    NoSlashFrom(p, |b| + 1);
    assert p[..|a| + 1][|a|] == '/' && p[..|b| + 1][|b|] == '/';
    assert a == p[..|a|] && b == p[..|b|];
    assert p == p[..|a| + 1] + p[|a| + 1..];
  }

  /** The names `readdirSync(dir)` lists: those of the files directly inside `dir`. */
  function Listing(files: map<Path, FileData>, dir: Path): (names: set<string>)
    ensures forall n :: n in names ==> n != [] && '/' !in n && Join(dir, n) in files
    ensures forall p :: p in files && InDir(p, dir) ==> NameIn(p, dir) in names
  {
    assert forall p :: InDir(p, dir) ==> Join(dir, NameIn(p, dir)) == p by {
      forall p | InDir(p, dir)
        ensures Join(dir, NameIn(p, dir)) == p
      {
        assert p == p[..|dir| + 1] + p[|dir| + 1..];
      }
    }
    set p | p in files && InDir(p, dir) :: NameIn(p, dir)
  }

  /** Names a move can take: non-empty, without `/`, each naming a file of `src`. */
  ghost predicate Movable(files: map<Path, FileData>, src: Path, names: set<string>) {
    forall n :: n in names ==> n != [] && '/' !in n && Join(src, n) in files
  }

  /**
   * The files after each name in `names` has been renamed from `src` to `dest`: the sources
   * are gone and each target holds its source's contents, replacing what was there.
   */
  function Moved(files: map<Path, FileData>, src: Path, dest: Path, names: set<string>): map<Path, FileData>
    requires Movable(files, src, names)
  {
    var sources := set n | n in names :: Join(src, n);
    var targets := set n | n in names :: Join(dest, n);
    assert forall t :: t in targets ==> IsUnder(t, dest) && Join(src, NameIn(t, dest)) in files by {
      forall t | t in targets
        ensures IsUnder(t, dest) && Join(src, NameIn(t, dest)) in files
      {
        var n :| n in names && t == Join(dest, n);
        JoinInDir(dest, n);
      }
    }
    map p | p in (files.Keys - sources) + targets ::
      if p in targets then files[Join(src, NameIn(p, dest))] else files[p]
  }

  /** `p` is the file named `n` in `dir`, for one of `names`: a file the move takes from or to `dir`. */
  ghost predicate Renamed(p: Path, dir: Path, names: set<string>) {
    InDir(p, dir) && NameIn(p, dir) in names
  }

  /**
   * Each name's file ends up in `dest` with its source's contents, the sources are gone when
   * the directories differ, every other file is as it was, and only targets are new.
   */
  lemma MovedSpec(files: map<Path, FileData>, src: Path, dest: Path, names: set<string>)
    requires Movable(files, src, names)
    ensures var r := Moved(files, src, dest, names);
      && (forall n :: n in names ==> Join(dest, n) in r && r[Join(dest, n)] == files[Join(src, n)])
      && (src != dest ==> forall n :: n in names ==> Join(src, n) !in r)
      && (forall p :: p in files && !Renamed(p, src, names) && !Renamed(p, dest, names) ==> p in r && r[p] == files[p])
      && (forall p :: p in r ==> p in files || Renamed(p, dest, names))
  {
    var r := Moved(files, src, dest, names);
    var sources := set n | n in names :: Join(src, n);
    var targets := set n | n in names :: Join(dest, n);
    forall n | n in names
      ensures Join(dest, n) in r && r[Join(dest, n)] == files[Join(src, n)]
    {
      JoinInDir(dest, n);
      assert Join(dest, n) in targets;
    }
    if src != dest {
      forall n | n in names
        ensures Join(src, n) !in r
      {
        JoinInDir(src, n);
        if Join(src, n) in targets {
          var m :| m in names && Join(src, n) == Join(dest, m);
          JoinInDir(dest, m);
          InDirUnique(Join(src, n), src, dest);
        }
      }
    }
    forall p | p in files && !Renamed(p, src, names) && !Renamed(p, dest, names)
      ensures p in r && r[p] == files[p]
    {
      if p in sources {
        var n :| n in names && p == Join(src, n);
        JoinInDir(src, n);
      }
      if p in targets {
        var n :| n in names && p == Join(dest, n);
        JoinInDir(dest, n);
      }
    }
    forall p | p in r
      ensures p in files || Renamed(p, dest, names)
    {
      if p in targets {
        var n :| n in names && p == Join(dest, n);
        JoinInDir(dest, n);
      }
    }
  }

  /** A move within one directory changes nothing. */
  lemma MovedInPlace(files: map<Path, FileData>, dir: Path, names: set<string>)
    requires Movable(files, dir, names)
    ensures Moved(files, dir, dir, names) == files
  {
    var r := Moved(files, dir, dir, names);
    MovedSpec(files, dir, dir, names);
    forall p | p in files
      ensures p in r && r[p] == files[p]
    {
      if Renamed(p, dir, names) {
        InDirUnique(p, dir, dir);
      }
    }
  }

  /** `Moved` at one path: the targets, and the files that are not sources. */
  lemma MovedAt(files: map<Path, FileData>, src: Path, dest: Path, names: set<string>, p: Path)
    requires Movable(files, src, names)
    ensures var r := Moved(files, src, dest, names);
      && (p in r <==> (p in files && !Renamed(p, src, names)) || Renamed(p, dest, names))
      && (p in r ==> r[p] == if Renamed(p, dest, names) then files[Join(src, NameIn(p, dest))] else files[p])
  {
    var sources := set n | n in names :: Join(src, n);
    var targets := set n | n in names :: Join(dest, n);
    if p in sources {
      var n :| n in names && p == Join(src, n);
      JoinInDir(src, n);
    } else if Renamed(p, src, names) {
      InDirUnique(p, src, src);
    }
    if p in targets {
      var n :| n in names && p == Join(dest, n);
      JoinInDir(dest, n);
    } else if Renamed(p, dest, names) {
      InDirUnique(p, dest, dest);
    }
  }

  /** Moving one more name is one rename on the files moved so far. */
  lemma MovedStep(files: map<Path, FileData>, src: Path, dest: Path, done: set<string>, n: string)
    requires Movable(files, src, done + {n}) && n !in done && src != dest
    ensures var r := Moved(files, src, dest, done);
      && Join(src, n) in r && r[Join(src, n)] == files[Join(src, n)]
      && Moved(files, src, dest, done + {n}) == (r - {Join(src, n)})[Join(dest, n) := files[Join(src, n)]]
  {
    var r := Moved(files, src, dest, done);
    var r' := Moved(files, src, dest, done + {n});
    var s := Join(src, n);
    var t := Join(dest, n);
    JoinInDir(src, n);
    JoinInDir(dest, n);
    assert !InDir(s, dest) by {
      if InDir(s, dest) {
        InDirUnique(s, src, dest);
      }
    }
    assert !InDir(t, src) by {
      if InDir(t, src) {
        InDirUnique(t, src, dest);
      }
    }
    MovedAt(files, src, dest, done, s);
    var expected := (r - {s})[t := files[s]];
    forall p
      ensures p in r' <==> p in expected
      ensures p in r' ==> r'[p] == expected[p]
    {
      MovedAt(files, src, dest, done, p);
      MovedAt(files, src, dest, done + {n}, p);
    }
  }

  /** One more name moved is what `renameSync` does to the files moved so far. */
  lemma MoveOne(files: map<Path, FileData>, src: Path, dest: Path, done: set<string>, n: string)
    requires Movable(files, src, done + {n}) && n !in done
    ensures var r := Moved(files, src, dest, done);
      && Join(src, n) in r
      && Moved(files, src, dest, done + {n})
         == if src != dest then (r - {Join(src, n)})[Join(dest, n) := r[Join(src, n)]] else r
  {
    if src != dest {
      MovedStep(files, src, dest, done, n);
    } else {
      MovedInPlace(files, src, done);
      MovedInPlace(files, src, done + {n});
      JoinInDir(src, n);
    }
  }

  /** Before any rename, nothing has moved. */
  lemma MovedNone(files: map<Path, FileData>, src: Path, dest: Path)
    ensures Moved(files, src, dest, {}) == files
  {
  }

  /** No name occurs twice. */
  ghost predicate Distinct(order: seq<string>) {
    forall i, j :: 0 <= i < j < |order| ==> order[i] != order[j]
  }

  /** The files after `renameSync(Join(src, n), Join(dest, n))` for each name `n` of `order` in turn. */
  function Renamings(files: map<Path, FileData>, src: Path, dest: Path, order: seq<string>): map<Path, FileData>
    decreases |order|
  {
    if order == [] then files
    else
      var r := Renamings(files, src, dest, order[..|order| - 1]);
      var n := order[|order| - 1];
      if Join(src, n) in r && Join(src, n) != Join(dest, n) then (r - {Join(src, n)})[Join(dest, n) := r[Join(src, n)]]
      else r
  }

  /** Renaming the listed names one by one, in any order, gives the move. */
  lemma {:induction false} RenamingsMoved(files: map<Path, FileData>, src: Path, dest: Path, order: seq<string>)
    requires Distinct(order) && Movable(files, src, set n | n in order)
    ensures Renamings(files, src, dest, order) == Moved(files, src, dest, set n | n in order)
    decreases |order|
  {
    if order == [] {
      MovedNone(files, src, dest);
    } else {
      var prefix := order[..|order| - 1];
      var n := order[|order| - 1];
      var done := set m | m in prefix;
      assert order == prefix + [n];
      assert (set m | m in order) == done + {n};
      assert n !in done;
      RenamingsMoved(files, src, dest, prefix);
      MoveOne(files, src, dest, done, n);
      assert Join(src, n) == Join(dest, n) ==> src == dest;
    }
  }

  /**
   * Renames every file listed in `src` to the same name in `dest`, one at a time in an
   * unspecified order: the outcome is the same whatever the order.
   */
  method MovePackage(fs: FileSystem, src: Path, dest: Path)
    modifies fs
    ensures fs.files == Moved(old(fs.files), src, dest, Listing(old(fs.files), src))
  {
    ghost var files0 := fs.files;
    var names := Listing(fs.files, src);
    var rest := names;
    ghost var order: seq<string> := [];
    while rest != {}
      invariant rest <= names && Distinct(order)
      invariant forall m :: m in order <==> m in names && m !in rest
      invariant fs.files == Renamings(files0, src, dest, order)
      decreases |rest|
    {
      var n :| n in rest;
      var _ := fs.Rename(Join(src, n), Join(dest, n));
      rest := rest - {n};
      order := order + [n];
    }
    assert (set m | m in order) == names;
    RenamingsMoved(files0, src, dest, order);
  }

  // ---------------------------------------------------------------------------
  // `replaceInFile`.

  /** `readFileSync(path, "utf8")` succeeds: the file exists and holds text. */
  predicate Readable(files: map<Path, FileData>, path: Path) {
    path in files && files[path].Text?
  }

  /**
   * `replaceInFile(path, head + ".*" + tail, replacement)`: `None` when the read throws;
   * otherwise only `path` changes, and it stays readable.
   */
  function ReplacedIn(files: map<Path, FileData>, path: Path, head: string, tail: string, replacement: string): (r: Option<map<Path, FileData>>)
    requires |head| > 0
    ensures r.Some? <==> Readable(files, path)
    ensures r.Some? ==> r.value.Keys == files.Keys && Readable(r.value, path)
    ensures r.Some? ==> forall p :: p in files && p != path ==> r.value[p] == files[p]
    ensures r.Some? && '$' !in replacement ==> r.value[path] == Text(ReplaceAll(files[path].text, head, tail, replacement))
  {
    if Readable(files, path) then
      AsWrittenAgreesWithoutDollar(files[path].text, head, tail, replacement);
      Some(files[path := Text(ReplaceAllAsWritten(files[path].text, head, tail, replacement))])
    else None
  }

  /** `replaceInFile`: reads the file, replaces every match and writes the result back; `false` when the read throws. */
  method ReplaceInFile(fs: FileSystem, path: Path, head: string, tail: string, replacement: string) returns (ok: bool)
    requires |head| > 0
    modifies fs
    ensures ok == Readable(old(fs.files), path)
    ensures ok ==> Some(fs.files) == ReplacedIn(old(fs.files), path, head, tail, replacement)
    ensures !ok ==> fs.files == old(fs.files)
  {
    ok := path in fs.files && fs.files[path].Text?;
    if ok {
      fs.Write(path, Text(ReplaceAllAsWritten(fs.files[path].text, head, tail, replacement)));
    }
  }

  // ---------------------------------------------------------------------------
  // The run.

  /** How the script ends: normally, by `process.exit(1)` for a missing config, or by an exception. */
  datatype Exit = Completed | ConfigMissing | Crashed

  /** How a run, or the rest of a run, ends and the files it leaves. */
  datatype Run = Run(exit: Exit, files: map<Path, FileData>)

  /** The fields `main` destructures from the parsed config; a missing field is `None`. */
  datatype PrepConfig = PrepConfig(
    appName: Option<string>,
    packageName: Option<string>,
    h5Url: Option<string>,
    appIconBase64: Option<string>,
    firebaseJsonBase64: Option<string>,
    adjustToken: Option<string>,
    adjustEvents: Option<seq<(string, string)>>)

  /** A value interpolated into a template string: `undefined` when missing. */
  function Shown(o: Option<string>): (r: string)
    ensures o.Some? ==> r == o.value
  {
    match o
    case None => "undefined"
    case Some(v) => v
  }

  /** The directory of the package's Java sources. */
  function PackageDir(packageName: string): Path {
    JavaRoot + "/" + Slashed(packageName)
  }

  /** `` `${eventKey} = ".*";` `` without its `.*`: the key taken literally. */
  function EventHead(key: string): string {
    key + " = \""
  }

  /** The event replacements, one per key in order, on the `JsInterface.java` at `path`; the first failed read ends the run. */
  function EventsApplied(files: map<Path, FileData>, path: Path, events: seq<(string, string)>): (r: Run)
    decreases |events|
    ensures r.exit == Completed || r.exit == Crashed
    ensures r.exit == Crashed <==> events != [] && !Readable(files, path)
    ensures r.files.Keys == files.Keys
    ensures forall p :: p in files && p != path ==> r.files[p] == files[p]
    ensures events == [] ==> r.files == files
  {
    if events == [] then Run(Completed, files)
    else
      var head := EventHead(events[0].0);
      match ReplacedIn(files, path, head, StatementTail, head + events[0].1 + StatementTail)
      case None => Run(Crashed, files)
      case Some(f) => EventsApplied(f, path, events[1..])
  }

  /** The head of an event line and the end of a statement hold no `$` when the key has none. */
  lemma EventLiterals(key: string)
    requires '$' !in key
    ensures '$' !in EventHead(key) && '$' !in StatementTail
  {
    assert EventHead(key) == key + [' ', '=', ' ', '"'];
  }

  /**
   * On a `JsInterface.java` that is the one line `KEY = "…";`, the event `KEY` with a token
   * free of `$` leaves the line holding that token.
   */
  lemma EventLineSet(files: map<Path, FileData>, path: Path, key: string, prior: string, token: string)
    requires Readable(files, path) && files[path].text == EventHead(key) + prior + StatementTail
    requires NoJsLineTerminator(prior + StatementTail) && '$' !in key && '$' !in token
    ensures EventsApplied(files, path, [(key, token)]) == Run(Completed, files[path := Text(EventHead(key) + token + StatementTail)])
  {
    var head := EventHead(key);
    var line := head + token + StatementTail;
    EventLiterals(key);
    WholeLineReplaced(head, prior, StatementTail, line);
    assert [(key, token)][1..] == [];
  }

  /** Step 5: replaces each event's token in `path` in turn; `false` when a read throws. */
  method ApplyEvents(fs: FileSystem, path: Path, events: seq<(string, string)>) returns (completed: bool)
    modifies fs
    ensures Run(if completed then Completed else Crashed, fs.files) == EventsApplied(old(fs.files), path, events)
  {
    var i := 0;
    while i < |events|
      invariant 0 <= i <= |events|
      invariant EventsApplied(old(fs.files), path, events) == EventsApplied(fs.files, path, events[i..])
    {
      var head := EventHead(events[i].0);
      assert events[i..][0] == events[i] && events[i..][1..] == events[i + 1..];
      var ok := ReplaceInFile(fs, path, head, StatementTail, head + events[i].1 + StatementTail);
      if !ok {
        return false;
      }
      i := i + 1;
    }
    assert events[i..] == [];
    return true;
  }

  const MipmapFolders: seq<string> := ["mipmap-hdpi", "mipmap-mdpi", "mipmap-xhdpi", "mipmap-xxhdpi", "mipmap-xxxhdpi"]

  /** The launcher icon of one `mipmap` folder. */
  function LauncherPath(folder: string): Path {
    ResRoot + "/" + folder + "/ic_launcher.png"
  }

  /** The launcher icons of the folders. */
  function Launchers(folders: seq<string>): set<Path> {
    set f | f in folders :: LauncherPath(f)
  }

  /** Step 7's loop: each folder's launcher icon is overwritten with `icon` when it exists, and never created. */
  function IconsWritten(files: map<Path, FileData>, folders: seq<string>, icon: FileData): (r: map<Path, FileData>)
    decreases |folders|
    ensures r.Keys == files.Keys
    ensures forall p :: p in files ==> r[p] == if p in Launchers(folders) then icon else files[p]
  {
    if folders == [] then files
    else
      var prefix := folders[..|folders| - 1];
      var r := IconsWritten(files, prefix, icon);
      var dest := LauncherPath(folders[|folders| - 1]);
      assert folders == prefix + [folders[|folders| - 1]];
      assert Launchers(folders) == Launchers(prefix) + {dest};
      if dest in r then r[dest := icon] else r
  }

  /** Step 7: writes the icon over every launcher icon that exists. */
  method WriteIcons(fs: FileSystem, icon: FileData)
    modifies fs
    ensures fs.files == IconsWritten(old(fs.files), MipmapFolders, icon)
  {
    for i := 0 to |MipmapFolders|
      invariant fs.files == IconsWritten(old(fs.files), MipmapFolders[..i], icon)
    {
      var dest := LauncherPath(MipmapFolders[i]);
      IconsWrittenStep(old(fs.files), MipmapFolders, i, icon);
      if fs.Exists(dest) {
        fs.Write(dest, icon);
      }
    }
    assert MipmapFolders[..|MipmapFolders|] == MipmapFolders;
  }

  /** Writing the icons of one more folder: its launcher icon is overwritten when it is there. */
  lemma IconsWrittenStep(files: map<Path, FileData>, folders: seq<string>, i: nat, icon: FileData)
    requires i < |folders|
    ensures var r := IconsWritten(files, folders[..i], icon);
      var dest := LauncherPath(folders[i]);
      IconsWritten(files, folders[..i + 1], icon) == if dest in r then r[dest := icon] else r
  {
    assert folders[..i + 1][..i] == folders[..i];
  }

  /** A move adds files only in `dest` and removes them only from `src`. */
  lemma MovedBounds(files: map<Path, FileData>, src: Path, dest: Path, names: set<string>)
    requires Movable(files, src, names)
    ensures var r := Moved(files, src, dest, names);
      && (forall p :: p in r && p !in files ==> InDir(p, dest))
      && (forall p :: p in files && p !in r ==> InDir(p, src))
  {
    forall p
      ensures var r := Moved(files, src, dest, names);
        (p in r && p !in files ==> InDir(p, dest)) && (p in files && p !in r ==> InDir(p, src))
    {
      MovedAt(files, src, dest, names, p);
    }
  }

  /** Every file the run adds is the Firebase file or a Java file moved into the package directory. */
  ghost predicate OnlyAdded(before: map<Path, FileData>, after: map<Path, FileData>, c: PrepConfig) {
    forall p :: p in after && p !in before ==>
      (p == FirebasePath && Truthy(c.firebaseJsonBase64))
      || (Truthy(c.packageName) && InDir(p, PackageDir(c.packageName.value)))
  }

  /** Every file the run removes is a Java file moved out of the template's package directory. */
  ghost predicate OnlyRemoved(before: map<Path, FileData>, after: map<Path, FileData>) {
    forall p :: p in before && p !in after ==> InDir(p, OldPackagePath)
  }

  /** Steps 6 and 7: the Firebase file when the config has one, then the launcher icons when it has an icon. */
  function AssetsWritten(files: map<Path, FileData>, c: PrepConfig): (r: map<Path, FileData>)
    ensures OnlyAdded(files, r, c) && OnlyRemoved(files, r)
    ensures Truthy(c.firebaseJsonBase64) ==> FirebasePath in r && r[FirebasePath] == Base64Of(c.firebaseJsonBase64.value)
    ensures Truthy(c.appIconBase64) ==> forall p :: p in r && p in Launchers(MipmapFolders) ==> r[p] == Base64Of(c.appIconBase64.value)
  {
    var f := if Truthy(c.firebaseJsonBase64) then files[FirebasePath := Base64Of(c.firebaseJsonBase64.value)] else files;
    FirebaseNotLauncher();
    if Truthy(c.appIconBase64) then IconsWritten(f, MipmapFolders, Base64Of(c.appIconBase64.value)) else f
  }

  /** Steps 3 to 7, in the package directory named by the config. */
  function SourcesEdited(files: map<Path, FileData>, c: PrepConfig): (r: Run)
    ensures r.exit != ConfigMissing
    ensures r.exit == Completed ==> c.packageName.Some? && c.adjustEvents.Some?
    ensures OnlyAdded(files, r.files, c) && OnlyRemoved(files, r.files)
    ensures r.exit == Completed && Truthy(c.firebaseJsonBase64) ==>
      FirebasePath in r.files && r.files[FirebasePath] == Base64Of(c.firebaseJsonBase64.value)
    ensures r.exit == Completed && Truthy(c.appIconBase64) ==>
      forall p :: p in r.files && p in Launchers(MipmapFolders) ==> r.files[p] == Base64Of(c.appIconBase64.value)
  {
    match c.packageName
    case None => Run(Crashed, files)
    case Some(pkg) =>
      var dir := PackageDir(pkg);
      match ReplacedIn(files, dir + "/MainActivity.java", BaseUrlHead, StatementTail, BaseUrlHead + Shown(c.h5Url) + StatementTail)
      case None => Run(Crashed, files)
      case Some(f) =>
        match ReplacedIn(f, dir + "/MyApp.java", TokenHead, StatementTail, TokenHead + Shown(c.adjustToken) + StatementTail)
        case None => Run(Crashed, f)
        case Some(g) =>
          match c.adjustEvents
          case None => Run(Crashed, g)
          case Some(events) =>
            var e := EventsApplied(g, dir + "/JsInterface.java", events);
            if e.exit == Crashed then e else Run(Completed, AssetsWritten(e.files, c))
  }

  /** Step 2 when the package name is truthy (the move and `applicationId`), then the rest. */
  function PackageRenamed(files: map<Path, FileData>, c: PrepConfig): (r: Run)
    ensures r.exit != ConfigMissing
    ensures r.exit == Completed ==> c.packageName.Some? && c.adjustEvents.Some?
    ensures OnlyAdded(files, r.files, c) && OnlyRemoved(files, r.files)
    ensures r.exit == Completed && Truthy(c.firebaseJsonBase64) ==>
      FirebasePath in r.files && r.files[FirebasePath] == Base64Of(c.firebaseJsonBase64.value)
    ensures r.exit == Completed && Truthy(c.appIconBase64) ==>
      forall p :: p in r.files && p in Launchers(MipmapFolders) ==> r.files[p] == Base64Of(c.appIconBase64.value)
  {
    if Truthy(c.packageName) then
      var pkg := c.packageName.value;
      var moved := Moved(files, OldPackagePath, PackageDir(pkg), Listing(files, OldPackagePath));
      MovedBounds(files, OldPackagePath, PackageDir(pkg), Listing(files, OldPackagePath));
      match ReplacedIn(moved, BuildGradlePath, AppIdHead, QuoteTail, AppIdHead + pkg + QuoteTail)
      case None => Run(Crashed, moved)
      case Some(f) => SourcesEdited(f, c)
    else SourcesEdited(files, c)
  }

  /**
   * The whole script on the files, given what `JSON.parse` makes of the config file: a missing
   * config ends it at once and changes nothing; otherwise step 1, then the rest.
   */
  function PrepareRun(files: map<Path, FileData>, c: PrepConfig): (r: Run)
    ensures r.exit == ConfigMissing <==> ConfigPath !in files
    ensures r.exit == ConfigMissing ==> r.files == files
    ensures ConfigPath in files && !Readable(files, StringsXmlPath) ==> r == Run(Crashed, files)
    ensures ConfigPath in files && Readable(files, StringsXmlPath) && c.packageName.None? ==>
      r == Run(Crashed, files[StringsXmlPath := Text(ReplaceAllAsWritten(files[StringsXmlPath].text, AppNameHead, StringClose, AppNameHead + Shown(c.appName) + StringClose))])
    ensures r.exit == Completed ==> c.packageName.Some? && c.adjustEvents.Some?
    ensures OnlyAdded(files, r.files, c) && OnlyRemoved(files, r.files)
    ensures r.exit == Completed && Truthy(c.firebaseJsonBase64) ==>
      FirebasePath in r.files && r.files[FirebasePath] == Base64Of(c.firebaseJsonBase64.value)
    ensures r.exit == Completed && Truthy(c.appIconBase64) ==>
      forall p :: p in r.files && p in Launchers(MipmapFolders) ==> r.files[p] == Base64Of(c.appIconBase64.value)
  {
    if ConfigPath !in files then Run(ConfigMissing, files)
    else
      match ReplacedIn(files, StringsXmlPath, AppNameHead, StringClose, AppNameHead + Shown(c.appName) + StringClose)
      case None => Run(Crashed, files)
      case Some(f) => PackageRenamed(f, c)
  }

  /** The Firebase file is none of the launcher icons. */
  lemma FirebaseNotLauncher()
    ensures FirebasePath !in Launchers(MipmapFolders)
  {
    forall f | f in MipmapFolders
      ensures LauncherPath(f) != FirebasePath
    {
      assert LauncherPath(f)[|Root| + 5] == 's';
      assert FirebasePath[|Root| + 5] == 'g';
    }
  }

  /** No launcher icon lies in a package directory. */
  lemma LauncherNotInPackage(f: string, pkg: string)
    ensures !InDir(LauncherPath(f), PackageDir(pkg))
  {
    var p := LauncherPath(f);
    var d := PackageDir(pkg);
    assert p[|Root| + 14] == 'r';
    assert d[|Root| + 14] == 'j';
  }

  /** The run never creates a launcher icon: one present afterwards was present before. */
  lemma IconsNeverCreated(files: map<Path, FileData>, c: PrepConfig, f: string)
    requires f in MipmapFolders
    ensures LauncherPath(f) in PrepareRun(files, c).files ==> LauncherPath(f) in files
  {
    FirebaseNotLauncher();
    if c.packageName.Some? {
      LauncherNotInPackage(f, c.packageName.value);
    }
  }

  /** Steps 6 and 7 on the file system. */
  method WriteAssets(fs: FileSystem, c: PrepConfig)
    modifies fs
    ensures fs.files == AssetsWritten(old(fs.files), c)
  {
    if Truthy(c.firebaseJsonBase64) {
      fs.Write(FirebasePath, Base64Of(c.firebaseJsonBase64.value));
    }
    if Truthy(c.appIconBase64) {
      WriteIcons(fs, Base64Of(c.appIconBase64.value));
    }
  }

  /** Steps 3 to 7 on the file system. */
  method EditSources(fs: FileSystem, c: PrepConfig) returns (exit: Exit)
    modifies fs
    ensures Run(exit, fs.files) == SourcesEdited(old(fs.files), c)
  {
    if c.packageName.None? {
      return Crashed;
    }
    var dir := PackageDir(c.packageName.value);
    var ok := ReplaceInFile(fs, dir + "/MainActivity.java", BaseUrlHead, StatementTail, BaseUrlHead + Shown(c.h5Url) + StatementTail);
    if !ok {
      return Crashed;
    }
    ok := ReplaceInFile(fs, dir + "/MyApp.java", TokenHead, StatementTail, TokenHead + Shown(c.adjustToken) + StatementTail);
    if !ok || c.adjustEvents.None? {
      return Crashed;
    }
    ok := ApplyEvents(fs, dir + "/JsInterface.java", c.adjustEvents.value);
    if !ok {
      return Crashed;
    }
    WriteAssets(fs, c);
    return Completed;
  }

  /** Step 2 and the rest on the file system. */
  method RenamePackage(fs: FileSystem, c: PrepConfig) returns (exit: Exit)
    modifies fs
    ensures Run(exit, fs.files) == PackageRenamed(old(fs.files), c)
  {
    if Truthy(c.packageName) {
      var pkg := c.packageName.value;
      MovePackage(fs, OldPackagePath, PackageDir(pkg));
      var ok := ReplaceInFile(fs, BuildGradlePath, AppIdHead, QuoteTail, AppIdHead + pkg + QuoteTail);
      if !ok {
        return Crashed;
      }
    }
    exit := EditSources(fs, c);
  }

  /** `main()`: the script on the file system, given the parsed config. */
  method Prepare(fs: FileSystem, c: PrepConfig) returns (exit: Exit)
    modifies fs
    ensures Run(exit, fs.files) == PrepareRun(old(fs.files), c)
  {
    if !fs.Exists(ConfigPath) {
      return ConfigMissing;
    }
    var ok := ReplaceInFile(fs, StringsXmlPath, AppNameHead, StringClose, AppNameHead + Shown(c.appName) + StringClose);
    if !ok {
      return Crashed;
    }
    exit := RenamePackage(fs, c);
  }
}
