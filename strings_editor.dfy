/**
 * `updateStrings` of services/stringsEditor.js: upsert the four backend string resources
 * into the parsed `strings.xml` of a job workspace.
 *
 * The source keeps the parsed `<string>` list in an array `strs` and updates it in place
 * through the closure `put`: the list is the field of `StringList`, `Put` is the closure,
 * and `Upserted` is the function that specifies one `put`.
 */
module StringsEditor {
  import opened Wrappers
  import opened Files

  const AppNameKey: string := "backend_app_name"
  const WebUrlKey: string := "backend_web_url"
  const AdjustTokenKey: string := "backend_adjust_token"
  const EventTokenKey: string := "backend_event_token"

  /** The fields of the build configuration that reach `updateStrings`; `None` is `undefined` or `null`. */
  datatype StringsConfig = StringsConfig(
    appName: Option<string>,
    webUrl: Option<string>,
    adjustToken: Option<string>,
    eventToken: Option<string>)

  /** `s.$ && s.$.name === name`. */
  predicate Named(e: StringEntry, name: string) {
    e.attrs.Some? && "name" in e.attrs.value && e.attrs.value["name"] == name
  }

  /** The entry `put` appends: `{ $: { name }, _: value }`. */
  function NewEntry(name: string, value: string): (e: StringEntry)
    ensures Named(e, name) && e.text == value
  {
    StringEntry(Some(map["name" := name]), value)
  }

  /** The index `strs.findIndex(s => s.$ && s.$.name === name)` returns. */
  function FirstNamed(entries: seq<StringEntry>, name: string): (r: int)
    ensures -1 <= r < |entries|
    ensures r >= 0 ==> Named(entries[r], name)
    ensures r >= 0 ==> forall k :: 0 <= k < r ==> !Named(entries[k], name)
    ensures r == -1 ==> forall k :: 0 <= k < |entries| ==> !Named(entries[k], name)
  {
    if |entries| == 0 then -1
    else if Named(entries[0], name) then 0
    else
      var r := FirstNamed(entries[1..], name);
      assert forall k :: 1 <= k < |entries| ==> entries[k] == entries[1..][k - 1];
      if r < 0 then -1 else r + 1
  }

  /** `strs.findIndex(...)` as the loop it is. */
  method FindIndex(entries: seq<StringEntry>, name: string) returns (idx: int)
    ensures idx == FirstNamed(entries, name)
  {
    var i := 0;
    while i < |entries|
      invariant 0 <= i <= |entries|
      invariant forall k :: 0 <= k < i ==> !Named(entries[k], name)
    {
      if Named(entries[i], name) {
        return i;
      }
      i := i + 1;
    }
    return -1;
  }

  /**
   * One call `put(name, value)`: nothing for a missing value; otherwise the first entry named
   * `name` gets the value as its text, or a new entry is appended when there is none.
   */
  function Upserted(entries: seq<StringEntry>, name: string, value: Option<string>): (r: seq<StringEntry>)
    ensures value.None? ==> r == entries
    ensures value.Some? ==> FirstNamed(r, name) >= 0 && r[FirstNamed(r, name)].text == value.value
    ensures value.Some? && FirstNamed(entries, name) >= 0 ==>
      var i := FirstNamed(entries, name);
      && |r| == |entries|
      && FirstNamed(r, name) == i
      && r[i].attrs == entries[i].attrs
      && (forall k :: 0 <= k < |r| && k != i ==> r[k] == entries[k])
    ensures value.Some? && FirstNamed(entries, name) < 0 ==> r == entries + [NewEntry(name, value.value)]
  {
    match value
    case None => entries
    case Some(v) =>
      var i := FirstNamed(entries, name);
      if i >= 0 then
        var r := entries[i := entries[i].(text := v)];
        assert Named(r[i], name);
        r
      else
        var r := entries + [NewEntry(name, v)];
        assert forall k :: 0 <= k < |entries| ==> r[k] == entries[k];
        FirstNamedUnique(r, name, |entries|);
        r
  }

  /** The `strs` array that `put` mutates. */
  class StringList {
    var strs: seq<StringEntry>

    constructor (initial: seq<StringEntry>)
      ensures strs == initial
    {
      strs := initial;
    }

    /** The closure `put(name, value)`. */
    method Put(name: string, value: Option<string>)
      modifies this
      ensures strs == Upserted(old(strs), name, value)
    {
      if value.None? {
        return;
      }
      var idx := FindIndex(strs, name);
      if idx >= 0 {
        strs := strs[idx := strs[idx].(text := value.value)];
      } else {
        strs := strs + [NewEntry(name, value.value)];
      }
    }
  }

  /** The four `put` calls, in the source's order. */
  function UpdatedEntries(entries: seq<StringEntry>, cfg: StringsConfig): seq<StringEntry> {
    var e1 := Upserted(entries, AppNameKey, cfg.appName);
    var e2 := Upserted(e1, WebUrlKey, cfg.webUrl);
    var e3 := Upserted(e2, AdjustTokenKey, cfg.adjustToken);
    Upserted(e3, EventTokenKey, cfg.eventToken)
  }

  /** The `<string>` list of a document; a document without `resources` or without a list has none. */
  function EntryList(doc: StringsDoc): seq<StringEntry> {
    if doc.resources.None? || doc.resources.value.strings.None? then []
    else doc.resources.value.strings.value
  }

  /** The document `updateStrings` writes back. */
  function UpdatedDoc(doc: StringsDoc, cfg: StringsConfig): (r: StringsDoc)
    ensures r.resources.Some? && r.resources.value.strings.Some?
    ensures EntryList(r) == UpdatedEntries(EntryList(doc), cfg)
    ensures doc.resources.Some? ==> r.resources.value.otherChildren == doc.resources.value.otherChildren
  {
    var others := if doc.resources.Some? then doc.resources.value.otherChildren else [];
    StringsDoc(Some(ResourcesNode(Some(UpdatedEntries(EntryList(doc), cfg)), others)))
  }

  /**
   * `updateStrings(stringsPath, config)`: fails, writing nothing, when the file is missing or
   * is not a parsable resource file; otherwise writes back the updated document.
   */
  method UpdateStrings(fs: FileSystem, stringsPath: Path, cfg: StringsConfig) returns (ok: bool)
    modifies fs
    ensures ok == (stringsPath in old(fs.files) && old(fs.files)[stringsPath].StringsXml?)
    ensures ok ==> fs.files == old(fs.files)[stringsPath := StringsXml(UpdatedDoc(old(fs.files)[stringsPath].doc, cfg))]
    ensures !ok ==> fs.files == old(fs.files)
  {
    if stringsPath !in fs.files || !fs.files[stringsPath].StringsXml? {
      return false;
    }
    var doc := fs.files[stringsPath].doc;
    var others := if doc.resources.Some? then doc.resources.value.otherChildren else [];
    var list := new StringList(EntryList(doc));
    list.Put(AppNameKey, cfg.appName);
    list.Put(WebUrlKey, cfg.webUrl);
    list.Put(AdjustTokenKey, cfg.adjustToken);
    list.Put(EventTokenKey, cfg.eventToken);
    fs.Write(stringsPath, StringsXml(StringsDoc(Some(ResourcesNode(Some(list.strs), others)))));
    ok := true;
  }

  // ---------------------------------------------------------------------------
  // Properties of the update.

  /** An upsert of one name leaves the first entry of every other name where it was, with its text. */
  lemma UpsertKeepsOtherName(entries: seq<StringEntry>, name: string, value: Option<string>, other: string)
    requires name != other
    ensures var r := Upserted(entries, name, value);
      && FirstNamed(r, other) == FirstNamed(entries, other)
      && (FirstNamed(r, other) >= 0 ==> r[FirstNamed(r, other)] == entries[FirstNamed(entries, other)])
  {
    var r := Upserted(entries, name, value);
    var j := FirstNamed(entries, other);
    if value.Some? {
      var i := FirstNamed(entries, name);
      if i >= 0 {
        assert forall k :: 0 <= k < |r| ==> (Named(r[k], other) <==> Named(entries[k], other));
        FirstNamedUnique(r, other, j);
      } else {
        assert !Named(NewEntry(name, value.value), other);
        assert forall k :: 0 <= k < |entries| ==> r[k] == entries[k];
        FirstNamedUnique(r, other, j);
      }
    }
  }

  /** Any index that is the first one carrying `name` (or -1 when none does) is `FirstNamed`. */
  lemma FirstNamedUnique(entries: seq<StringEntry>, name: string, j: int)
    requires -1 <= j < |entries|
    requires j >= 0 ==> Named(entries[j], name) && forall k :: 0 <= k < j ==> !Named(entries[k], name)
    requires j == -1 ==> forall k :: 0 <= k < |entries| ==> !Named(entries[k], name)
    ensures FirstNamed(entries, name) == j
  {
  }

  /** After `updateStrings`, the first entry of each key with a value holds that value; keys without one are untouched. */
  lemma UpdateHoldsValues(entries: seq<StringEntry>, cfg: StringsConfig)
    ensures var r := UpdatedEntries(entries, cfg);
      && (cfg.appName.Some? ==> FirstNamed(r, AppNameKey) >= 0 && r[FirstNamed(r, AppNameKey)].text == cfg.appName.value)
      && (cfg.webUrl.Some? ==> FirstNamed(r, WebUrlKey) >= 0 && r[FirstNamed(r, WebUrlKey)].text == cfg.webUrl.value)
      && (cfg.adjustToken.Some? ==> FirstNamed(r, AdjustTokenKey) >= 0 && r[FirstNamed(r, AdjustTokenKey)].text == cfg.adjustToken.value)
      && (cfg.eventToken.Some? ==> FirstNamed(r, EventTokenKey) >= 0 && r[FirstNamed(r, EventTokenKey)].text == cfg.eventToken.value)
      && (cfg.appName.None? ==> FirstNamed(r, AppNameKey) == FirstNamed(entries, AppNameKey))
      && (cfg.webUrl.None? ==> FirstNamed(r, WebUrlKey) == FirstNamed(entries, WebUrlKey))
      && (cfg.adjustToken.None? ==> FirstNamed(r, AdjustTokenKey) == FirstNamed(entries, AdjustTokenKey))
      && (cfg.eventToken.None? ==> FirstNamed(r, EventTokenKey) == FirstNamed(entries, EventTokenKey))
  {
    var e1 := Upserted(entries, AppNameKey, cfg.appName);
    var e2 := Upserted(e1, WebUrlKey, cfg.webUrl);
    var e3 := Upserted(e2, AdjustTokenKey, cfg.adjustToken);
    UpsertKeepsOtherName(entries, AppNameKey, cfg.appName, WebUrlKey);
    UpsertKeepsOtherName(entries, AppNameKey, cfg.appName, AdjustTokenKey);
    UpsertKeepsOtherName(entries, AppNameKey, cfg.appName, EventTokenKey);
    UpsertKeepsOtherName(e1, WebUrlKey, cfg.webUrl, AppNameKey);
    UpsertKeepsOtherName(e1, WebUrlKey, cfg.webUrl, AdjustTokenKey);
    UpsertKeepsOtherName(e1, WebUrlKey, cfg.webUrl, EventTokenKey);
    UpsertKeepsOtherName(e2, AdjustTokenKey, cfg.adjustToken, AppNameKey);
    UpsertKeepsOtherName(e2, AdjustTokenKey, cfg.adjustToken, WebUrlKey);
    UpsertKeepsOtherName(e2, AdjustTokenKey, cfg.adjustToken, EventTokenKey);
    UpsertKeepsOtherName(e3, EventTokenKey, cfg.eventToken, AppNameKey);
    UpsertKeepsOtherName(e3, EventTokenKey, cfg.eventToken, WebUrlKey);
    UpsertKeepsOtherName(e3, EventTokenKey, cfg.eventToken, AdjustTokenKey);
  }

  /** Upserting the value the first entry of a name already holds changes nothing. */
  lemma UpsertSameValue(entries: seq<StringEntry>, name: string, value: Option<string>)
    requires value.Some? ==> FirstNamed(entries, name) >= 0 && entries[FirstNamed(entries, name)].text == value.value
    ensures Upserted(entries, name, value) == entries
  {
    if value.Some? {
      var i := FirstNamed(entries, name);
      assert entries[i].(text := value.value) == entries[i];
    }
  }

  /** Running `updateStrings` twice with the same configuration gives the list of running it once. */
  lemma UpdateIdempotent(entries: seq<StringEntry>, cfg: StringsConfig)
    ensures UpdatedEntries(UpdatedEntries(entries, cfg), cfg) == UpdatedEntries(entries, cfg)
  {
    var r := UpdatedEntries(entries, cfg);
    UpdateHoldsValues(entries, cfg);
    UpsertSameValue(r, AppNameKey, cfg.appName);
    UpsertSameValue(r, WebUrlKey, cfg.webUrl);
    UpsertSameValue(r, AdjustTokenKey, cfg.adjustToken);
    UpsertSameValue(r, EventTokenKey, cfg.eventToken);
  }

  /** The same at the level of the whole document. */
  lemma UpdatedDocIdempotent(doc: StringsDoc, cfg: StringsConfig)
    ensures UpdatedDoc(UpdatedDoc(doc, cfg), cfg) == UpdatedDoc(doc, cfg)
  {
    UpdateIdempotent(EntryList(doc), cfg);
  }

  /** The entry carries one of the four backend names. */
  predicate BackendNamed(e: StringEntry) {
    Named(e, AppNameKey) || Named(e, WebUrlKey) || Named(e, AdjustTokenKey) || Named(e, EventTokenKey)
  }

  /** The entries that are not backend strings, in order. */
  function Others(entries: seq<StringEntry>): (r: seq<StringEntry>)
    ensures |r| <= |entries|
  {
    if |entries| == 0 then []
    else if BackendNamed(entries[0]) then Others(entries[1..])
    else [entries[0]] + Others(entries[1..])
  }

  lemma {:induction false} OthersAppend(entries: seq<StringEntry>, e: StringEntry)
    requires BackendNamed(e)
    ensures Others(entries + [e]) == Others(entries)
  {
    if |entries| > 0 {
      assert (entries + [e])[1..] == entries[1..] + [e];
      OthersAppend(entries[1..], e);
    } else {
      assert Others([e]) == Others([]);
    }
  }

  lemma {:induction false} OthersUpdate(entries: seq<StringEntry>, i: nat, e: StringEntry)
    requires i < |entries| && BackendNamed(entries[i]) && BackendNamed(e)
    ensures Others(entries[i := e]) == Others(entries)
  {
    if i > 0 {
      assert entries[i := e][1..] == entries[1..][i - 1 := e];
      OthersUpdate(entries[1..], i - 1, e);
    } else {
      assert entries[0 := e][1..] == entries[1..];
    }
  }

  lemma OthersUpsert(entries: seq<StringEntry>, name: string, value: Option<string>)
    requires name == AppNameKey || name == WebUrlKey || name == AdjustTokenKey || name == EventTokenKey
    ensures Others(Upserted(entries, name, value)) == Others(entries)
  {
    if value.Some? {
      var i := FirstNamed(entries, name);
      if i >= 0 {
        assert Upserted(entries, name, value) == entries[i := entries[i].(text := value.value)];
        OthersUpdate(entries, i, entries[i].(text := value.value));
      } else {
        OthersAppend(entries, NewEntry(name, value.value));
      }
    }
  }

  /** Entries that are not backend strings keep their contents and their relative order. */
  lemma UpdateKeepsOthers(entries: seq<StringEntry>, cfg: StringsConfig)
    ensures Others(UpdatedEntries(entries, cfg)) == Others(entries)
  {
    var e1 := Upserted(entries, AppNameKey, cfg.appName);
    var e2 := Upserted(e1, WebUrlKey, cfg.webUrl);
    var e3 := Upserted(e2, AdjustTokenKey, cfg.adjustToken);
    OthersUpsert(entries, AppNameKey, cfg.appName);
    OthersUpsert(e1, WebUrlKey, cfg.webUrl);
    OthersUpsert(e2, AdjustTokenKey, cfg.adjustToken);
    OthersUpsert(e3, EventTokenKey, cfg.eventToken);
  }

  /** A document without `resources`, or without a `string` list, is updated as an empty list. */
  lemma MissingListIsEmpty(doc: StringsDoc, cfg: StringsConfig)
    requires doc.resources.None? || doc.resources.value.strings.None?
    ensures EntryList(UpdatedDoc(doc, cfg)) == UpdatedEntries([], cfg)
    ensures cfg.appName.Some? ==> EntryList(UpdatedDoc(doc, cfg))[0] == NewEntry(AppNameKey, cfg.appName.value)
  {
    var e1 := Upserted([], AppNameKey, cfg.appName);
    UpsertKeepsOtherName(e1, WebUrlKey, cfg.webUrl, AppNameKey);
    var e2 := Upserted(e1, WebUrlKey, cfg.webUrl);
    UpsertKeepsOtherName(e2, AdjustTokenKey, cfg.adjustToken, AppNameKey);
    var e3 := Upserted(e2, AdjustTokenKey, cfg.adjustToken);
    UpsertKeepsOtherName(e3, EventTokenKey, cfg.eventToken, AppNameKey);
  }
}
