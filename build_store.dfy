/**
 * services/buildStore.js: build records kept one file per id, `<id>.json`, in the `builds`
 * directory. The directory is the state: a map from file name to the JSON value the file
 * holds (the serialisation round trip is taken to give back the saved value).
 */
module BuildStore {
  import opened Wrappers
  import opened Text

  const Json: string := ".json"

  /** The file a build id is saved under: `${id}.json`. */
  function FileName(id: string): string {
    id + Json
  }

  /** Different ids are saved under different files. */
  lemma FileNameInjective(a: string, b: string)
    requires FileName(a) == FileName(b)
    ensures a == b
  {
    assert a == FileName(a)[..|a|] && b == FileName(b)[..|b|];
  }

  /** `f.replace(".json", "")` as the code writes it: the first `.json` anywhere in the name is removed. */
  function ListedAsWritten(f: string): (r: string)
    ensures Contains(f, Json) ==> |r| == |f| - |Json|
    ensures Contains(f, Json) ==> var i := IndexOf(f, Json); 0 <= i && r == f[..i] + f[i + |Json|..]
    ensures !Contains(f, Json) ==> r == f
  {
    var i := IndexOf(f, Json);
    if i < 0 then f else ReplaceSpan(f, i, i + |Json|, "")
  }

  /** No proper prefix of `.json` is also a suffix of it, so an occurrence cannot straddle the end of an id. */
  lemma JsonNoBorder(id: string, k: nat)
    requires k < |id| < k + |Json|
    ensures !StartsAt(id + Json, Json, k)
  {
    var s := id + Json;
    var m := |id| - k;
    assert s[|id|] == '.' && Json[m] != '.';
    assert s[k..k + |Json|][m] == s[|id|];
  }

  /** For an id without `.json` in it, the code's listing gives the id back. */
  lemma {:induction false} ListedAsWrittenPlainId(id: string)
    requires !Contains(id, Json)
    ensures ListedAsWritten(FileName(id)) == id
  {
    var s := FileName(id);
    assert StartsAt(s, Json, |id|);
    var i := IndexOf(s, Json);
    if i < |id| {
      if i + |Json| <= |id| {
        assert s[i..i + |Json|] == id[i..i + |Json|];
        assert StartsAt(id, Json, i);
      } else {
        JsonNoBorder(id, i);
      }
    }
    assert i == |id|;
    assert ReplaceSpan(s, i, i + |Json|, "") == id;
  }

  /** The id `a.jsonb` is listed as `ab.json`: the `.json` inside the id is the one removed. */
  lemma ListedAsWrittenMangles()
    ensures ListedAsWritten(FileName("a.jsonb")) == "ab.json"
  {
    var s := FileName("a.jsonb");
    MangledNameFacts(s);
    var i := IndexOf(s, Json);
    assert i == 1;
  }

  /** Where `.json` does and does not occur in `a.jsonb.json`, and what is left around its first occurrence. */
  lemma MangledNameFacts(s: string)
    requires s == FileName("a.jsonb")
    ensures StartsAt(s, Json, 1) && !StartsAt(s, Json, 0)
    ensures s[..1] + "" + s[6..] == "ab.json"
  {
    assert s == "a.jsonb.json";
    assert s[0..|Json|][0] == 'a' != Json[0];
  }

  /** The id a file name stands for: the name without its `.json` suffix. */
  function Listed(f: string): (r: string)
    ensures |r| <= |f|
  {
    if |f| >= |Json| && f[|f| - |Json|..] == Json then f[..|f| - |Json|] else f
  }

  /** Every saved id is listed as itself. */
  lemma ListedRoundTrip(id: string)
    ensures Listed(FileName(id)) == id
  {
    var f := FileName(id);
    assert f[|f| - |Json|..] == Json;
    assert f[..|f| - |Json|] == id;
  }

  /** `loadBuild(id)` on a directory: the value in `<id>.json`, or `None` (`null`) when there is no such file. */
  function Loaded<D>(dir: map<string, D>, id: string): (r: Option<D>)
    ensures r.Some? <==> FileName(id) in dir
  {
    if FileName(id) in dir then Some(dir[FileName(id)]) else None
  }

  /** `listBuilds()` on a directory: every file name with its first `.json` removed. */
  function ListedIds<D>(dir: map<string, D>): (r: set<string>)
    ensures forall f :: f in dir ==> ListedAsWritten(f) in r
    ensures forall x :: x in r ==> exists f :: f in dir && ListedAsWritten(f) == x
  {
    set f | f in dir :: ListedAsWritten(f)
  }

  /** A load after a save of the same id gives the saved value, whatever was there before. */
  lemma LoadAfterSave<D>(dir: map<string, D>, id: string, data: D)
    ensures Loaded(dir[FileName(id) := data], id) == Some(data)
  {
  }

  /** A save leaves the load of every other id as it was. */
  lemma SaveIsolated<D>(dir: map<string, D>, id: string, data: D, other: string)
    requires other != id
    ensures Loaded(dir[FileName(id) := data], other) == Loaded(dir, other)
  {
    if FileName(other) == FileName(id) {
      FileNameInjective(other, id);
    }
  }

  /** After a save the listing gains what the new file's name lists as, next to everything listed before. */
  lemma ListAfterSave<D>(dir: map<string, D>, id: string, data: D)
    ensures ListedIds(dir[FileName(id) := data]) == ListedIds(dir) + {ListedAsWritten(FileName(id))}
  {
    var after := dir[FileName(id) := data];
    assert forall f :: f in after ==> f in dir || f == FileName(id);
  }

  /** After a save of an id without `.json` in it, that id is listed, next to every id listed before. */
  lemma ListAfterSavePlainId<D>(dir: map<string, D>, id: string, data: D)
    requires !Contains(id, Json)
    ensures ListedIds(dir[FileName(id) := data]) == ListedIds(dir) + {id}
  {
    ListAfterSave(dir, id, data);
    ListedAsWrittenPlainId(id);
  }

  /** The `builds` directory. */
  class Store<D> {
    /** File name to the value the file holds. */
    var dir: map<string, D>

    constructor (initial: map<string, D>)
      ensures dir == initial
    {
      dir := initial;
    }

    /** `saveBuild(id, data)`: writes `<id>.json`, replacing any earlier file of that name. */
    method SaveBuild(id: string, data: D)
      modifies this
      ensures dir == old(dir)[FileName(id) := data]
      ensures Loaded(dir, id) == Some(data)
      ensures forall other :: other != id ==> Loaded(dir, other) == Loaded(old(dir), other)
    {
      dir := dir[FileName(id) := data];
      forall other | other != id
        ensures Loaded(dir, other) == Loaded(old(dir), other)
      {
        SaveIsolated(old(dir), id, data, other);
      }
    }

    /** `loadBuild(id)`. */
    function LoadBuild(id: string): (r: Option<D>)
      reads this
      ensures r == Loaded(dir, id)
      ensures r.Some? ==> r.value == dir[FileName(id)]
    {
      if FileName(id) in dir then Some(dir[FileName(id)]) else None
    }

    /** `listBuilds()`: the names of the files in the directory, each with its first `.json` removed. */
    function ListBuilds(): (r: set<string>)
      reads this
      ensures r == ListedIds(dir)
    {
      set f | f in dir :: ListedAsWritten(f)
    }
  }
}
