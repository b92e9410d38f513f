/**
 * packger.js: the older in-place packager. It rewrites the label and package attributes of
 * the manifest, the Adjust configuration call and the marker-delimited event block of
 * `MainActivity.java`, which it finds by searching the Java source tree.
 *
 * Each rewrite is a `String.prototype.replace` with a non-global regular expression whose
 * first match is the text from the first occurrence of an opening literal to the first
 * occurrence of a closing literal after it (`DelimitedSpan`). The model inserts the new text
 * literally; `ReplaceDelimitedAsWritten` keeps the `$`-pattern expansion the code performs.
 */
module Packager {
  import opened Wrappers
  import opened Text
  import opened Files

  const ManifestPath: Path := "./MyWebviewApp_Fixed3/app/src/main/AndroidManifest.xml"
  const JavaRoot: Path := "./MyWebviewApp_Fixed3/app/src/main/java"

  const LabelOpen: string := "android:label=\""
  const PackageOpen: string := "package=\""
  const Quote: string := "\""
  const AdjustOpen: string := "new AdjustConfig("
  const AdjustClose: string := ");"
  const EventsBegin: string := "//[ADJUST_EVENTS_BEGIN]"
  const EventsEnd: string := "//[ADJUST_EVENTS_END]"
  const MainActivityJava: string := "MainActivity.java"

  // ---------------------------------------------------------------------------
  // Replacing the first delimited span.

  /** The first delimited span replaced by `r`; without a span the text is unchanged. */
  function ReplaceDelimited(s: string, open: string, close: string, r: string): (t: string)
    ensures DelimitedSpan(s, open, close).None? ==> t == s
  {
    match DelimitedSpan(s, open, close)
    case None => s
    case Some((a, b)) => ReplaceSpan(s, a, b, r)
  }

  /** The same replacement as `String.prototype.replace` performs it, expanding `$` patterns in `template`. */
  function ReplaceDelimitedAsWritten(s: string, open: string, close: string, template: string): (t: string)
    ensures DelimitedSpan(s, open, close).None? ==> t == s
    ensures '$' !in template ==> t == ReplaceDelimited(s, open, close, template)
  {
    match DelimitedSpan(s, open, close)
    case None => s
    case Some((a, b)) => ReplaceSpanAsWritten(s, a, b, template)
  }

  /** Characterises the first span by where its literals occur. */
  lemma DelimitedAt(t: string, open: string, close: string, a: nat, c: nat)
    requires StartsAt(t, open, a) && forall k :: 0 <= k < a ==> !StartsAt(t, open, k)
    requires a + |open| <= c && StartsAt(t, close, c)
    requires forall k :: a + |open| <= k < c ==> !StartsAt(t, close, k)
    ensures DelimitedSpan(t, open, close) == Some((a, c + |close|))
  {
    assert Contains(t, open);
  }

  /** An occurrence that ends inside a common prefix is in both texts or in neither. */
  lemma NoOccurrenceBefore(s: string, t: string, p: string, a: nat, m: nat)
    requires m <= |s| && m <= |t| && s[..m] == t[..m] && a + |p| <= m
    requires forall k :: 0 <= k < a ==> !StartsAt(s, p, k)
    ensures forall k :: 0 <= k < a ==> !StartsAt(t, p, k)
  {
    forall k | 0 <= k < a
      ensures !StartsAt(t, p, k)
    {
      StartsAtLocal(s, t, m, p, k);
    }
  }

  /** No occurrence of `p` starts inside a piece of text that lacks `p`'s first character. */
  lemma NoOccurrenceInside(t: string, v: string, p: string, x: nat)
    requires StartsAt(t, v, x) && |p| > 0 && p[0] !in v
    ensures forall k :: x <= k < x + |v| ==> !StartsAt(t, p, k)
  {
    forall k | x <= k < x + |v|
      ensures !StartsAt(t, p, k)
    {
      CharAt(t, v, x, k - x);
      assert t[k] != p[0];
    }
  }

  /**
   * A text that agrees with `s` up to the end of the first `open` of `s`, and holds
   * `open + v + close` there, has that block as its first span when `v` lacks the first
   * character of `close`.
   */
  lemma SpanAfterEdit(s: string, t: string, open: string, close: string, v: string, a: nat)
    requires a + |open| <= |s| && a + |open| <= |t| && s[..a + |open|] == t[..a + |open|]
    requires IndexOf(s, open) == a && StartsAt(t, open + v + close, a)
    requires |close| > 0 && close[0] !in v
    ensures DelimitedSpan(t, open, close) == Some((a, a + |open| + |v| + |close|))
  {
    StartsAtConcat(t, open + v, close, a);
    StartsAtConcat(t, open, v, a);
    NoOccurrenceBefore(s, t, open, a, a + |open|);
    NoOccurrenceInside(t, v, close, a + |open|);
    DelimitedAt(t, open, close, a, a + |open| + |v|);
  }

  /** Two texts that agree up to `a` and both hold `p` there agree up to the end of `p`. */
  lemma PrefixExtends(s: string, t: string, p: string, a: nat)
    requires a <= |s| && a <= |t| && s[..a] == t[..a] && StartsAt(s, p, a) && StartsAt(t, p, a)
    ensures s[..a + |p|] == t[..a + |p|]
  {
    assert s[..a + |p|] == s[..a] + s[a..a + |p|];
    assert t[..a + |p|] == t[..a] + t[a..a + |p|];
  }

  /**
   * After the span is replaced by `open + v + close`, with `v` free of the first character of
   * `close`, the first span is exactly the new text.
   */
  lemma ReplacedSpanFound(s: string, open: string, close: string, v: string, a: nat, b: nat)
    requires DelimitedSpan(s, open, close) == Some((a, b)) && |close| > 0 && close[0] !in v
    ensures DelimitedSpan(ReplaceSpan(s, a, b, open + v + close), open, close) == Some((a, a + |open| + |v| + |close|))
  {
    var t := ReplaceSpan(s, a, b, open + v + close);
    ReplaceSpanParts(s, a, b, open + v + close);
    StartsAtConcat(t, open, v + close, a);
    PrefixExtends(s, t, open, a);
    SpanAfterEdit(s, t, open, close, v, a);
  }

  /**
   * `t` is `s` with its first span, `s[a..b]`, replaced by `open + v + close`: the text around
   * the span is kept, and the new block is the first span of `t`.
   */
  predicate SpanSet(s: string, t: string, open: string, close: string, v: string, a: nat, b: nat) {
    var e := a + |open| + |v| + |close|;
    && a <= b <= |s| && e <= |t|
    && DelimitedSpan(t, open, close) == Some((a, e))
    && t[..a] == s[..a] && t[a..e] == open + v + close && t[e..] == s[b..]
  }

  /**
   * Replacing the first span by `open + v + close`, with `v` free of the first character of
   * `close`, sets the span, and a second replacement changes nothing.
   */
  lemma ReplaceDelimitedSets(s: string, open: string, close: string, v: string, a: nat, b: nat)
    requires DelimitedSpan(s, open, close) == Some((a, b)) && |close| > 0 && close[0] !in v
    ensures SpanSet(s, ReplaceDelimited(s, open, close, open + v + close), open, close, v, a, b)
    ensures var t := ReplaceDelimited(s, open, close, open + v + close);
      ReplaceDelimited(t, open, close, open + v + close) == t
  {
    var r := open + v + close;
    var t := ReplaceSpan(s, a, b, r);
    assert ReplaceDelimited(s, open, close, r) == t;
    ReplacedSpanFound(s, open, close, v, a, b);
    ReplaceSpanParts(s, a, b, r);
    ReplaceSpanSame(t, a, a + |r|, r);
    assert ReplaceDelimited(t, open, close, r) == ReplaceSpan(t, a, a + |r|, r);
  }

  // ---------------------------------------------------------------------------
  // `updateAppName`, `updatePackageName`.

  /** The manifest with the value of its first `android:label="…"` set to `appName`. */
  function LabelReplaced(s: string, appName: string): string {
    ReplaceDelimited(s, LabelOpen, Quote, LabelOpen + appName + Quote)
  }

  /** The code's version, in which `$` patterns in the name are expanded; a name without `$` is written as given. */
  function LabelReplacedAsWritten(s: string, appName: string): (r: string)
    ensures '$' !in appName ==> r == LabelReplaced(s, appName)
  {
    ReplaceDelimitedAsWritten(s, LabelOpen, Quote, LabelOpen + appName + Quote)
  }

  /**
   * The name `$&` is not written as given: it stands for the matched attribute, which ends up
   * nested inside itself, where the intended update writes the two characters.
   */
  lemma LabelAsWrittenExpandsDollar()
    ensures var s := LabelOpen + "A" + Quote;
      LabelReplacedAsWritten(s, "$&") == LabelOpen + s + Quote && LabelReplaced(s, "$&") == LabelOpen + "$&" + Quote
  {
    var s := LabelOpen + "A" + Quote;
    LabelSampleSpan(s);
    WholeSpanReplaced(s, LabelOpen, Quote);
  }

  /** In `android:label="A"` the first label attribute is the whole text. */
  lemma LabelSampleSpan(s: string)
    requires s == LabelOpen + "A" + Quote
    ensures DelimitedSpan(s, LabelOpen, Quote) == Some((0, |s|))
  {
    StartsAtConcat(s, LabelOpen, "A", 0);
    assert StartsAt(s, LabelOpen + "A", 0);
    assert StartsAt(s, Quote, |LabelOpen| + 1);
    assert s[|LabelOpen|] == 'A';
    DelimitedAt(s, LabelOpen, Quote, 0, |LabelOpen| + 1);
  }

  /**
   * A template `t1 + "$&" + t2` puts the matched span itself between `t1` and `t2`, where the
   * literal replacement writes the two characters `$&`.
   */
  lemma DelimitedNests(s: string, open: string, close: string, t1: string, t2: string, a: nat, b: nat)
    requires DelimitedSpan(s, open, close) == Some((a, b)) && '$' !in t1 && '$' !in t2
    ensures ReplaceDelimitedAsWritten(s, open, close, t1 + "$&" + t2) == s[..a] + t1 + s[a..b] + t2 + s[b..]
    ensures ReplaceDelimited(s, open, close, t1 + "$&" + t2) == s[..a] + (t1 + "$&" + t2) + s[b..]
  {
    ReplaceSpanMatched(s, a, b, t1, t2);
  }

  /** A text made of an opening literal and a closing literal is its own first span. */
  lemma BareSpan(open: string, close: string)
    ensures DelimitedSpan(open + close, open, close) == Some((0, |open| + |close|))
  {
    StartsAtConcat(open + close, open, close, 0);
    DelimitedAt(open + close, open, close, 0, |open|);
  }

  /**
   * On a text made of an opening and a closing literal, a template `t1 + "$&" + t2` wraps the
   * whole text in `t1` and `t2`; the literal replacement writes the template itself.
   */
  lemma BareNests(open: string, close: string, t1: string, t2: string)
    requires '$' !in t1 && '$' !in t2
    ensures ReplaceDelimitedAsWritten(open + close, open, close, t1 + "$&" + t2) == t1 + (open + close) + t2
    ensures ReplaceDelimited(open + close, open, close, t1 + "$&" + t2) == t1 + "$&" + t2
  {
    var s := open + close;
    BareSpan(open, close);
    DelimitedNests(s, open, close, t1, t2, 0, |s|);
    assert s[..0] == [] && s[0..|s|] == s && s[|s|..] == [];
  }

  /** Replacing a whole text by a template with `$&` nests the text; the literal replacement does not. */
  lemma WholeSpanReplaced(s: string, t1: string, t2: string)
    requires '$' !in t1 && '$' !in t2
    ensures ReplaceSpanAsWritten(s, 0, |s|, t1 + "$&" + t2) == t1 + s + t2
    ensures ReplaceSpan(s, 0, |s|, t1 + "$&" + t2) == t1 + "$&" + t2
  {
    ReplaceSpanMatched(s, 0, |s|, t1, t2);
    assert s[..0] == [] && s[0..|s|] == s && s[|s|..] == [];
  }

  /**
   * With a name free of `"`, the first label of the result holds the name, the text around it
   * is kept, and a second update changes nothing.
   */
  lemma LabelSet(s: string, appName: string, a: nat, b: nat)
    requires DelimitedSpan(s, LabelOpen, Quote) == Some((a, b)) && '"' !in appName
    ensures SpanSet(s, LabelReplaced(s, appName), LabelOpen, Quote, appName, a, b)
    ensures LabelReplaced(LabelReplaced(s, appName), appName) == LabelReplaced(s, appName)
  {
    ReplaceDelimitedSets(s, LabelOpen, Quote, appName, a, b);
  }

  /** The code's label update, for a name free of `"` and `$`: the label holds the name and a second update changes nothing. */
  lemma LabelSetAsWritten(s: string, appName: string, a: nat, b: nat)
    requires DelimitedSpan(s, LabelOpen, Quote) == Some((a, b)) && '"' !in appName && '$' !in appName
    ensures SpanSet(s, LabelReplacedAsWritten(s, appName), LabelOpen, Quote, appName, a, b)
    ensures LabelReplacedAsWritten(LabelReplacedAsWritten(s, appName), appName) == LabelReplacedAsWritten(s, appName)
  {
    LabelSet(s, appName, a, b);
  }

  /** The manifest with the value of its first `package="…"` set to `packageName`. */
  function PackageReplaced(s: string, packageName: string): string {
    ReplaceDelimited(s, PackageOpen, Quote, PackageOpen + packageName + Quote)
  }

  /** The fixed parts of the package attribute hold no `$`. */
  lemma PackageDollarFree()
    ensures '$' !in PackageOpen && '$' !in Quote
  {
  }

  /** The code's version, in which `$` patterns in the name are expanded; a name without `$` is written as given. */
  function PackageReplacedAsWritten(s: string, packageName: string): (r: string)
    ensures '$' !in packageName ==> r == PackageReplaced(s, packageName)
  {
    ReplaceDelimitedAsWritten(s, PackageOpen, Quote, PackageOpen + packageName + Quote)
  }

  /**
   * The package name `$&` stands for the matched attribute, which ends up nested inside
   * itself, where the intended update writes the two characters.
   */
  lemma PackageAsWrittenExpandsDollar()
    ensures var s := PackageOpen + Quote;
      PackageReplacedAsWritten(s, "$&") == PackageOpen + s + Quote && PackageReplaced(s, "$&") == PackageOpen + "$&" + Quote
  {
    PackageDollarFree();
    BareNests(PackageOpen, Quote, PackageOpen, Quote);
  }

  /** With a name free of `"`, the first package attribute holds the name and a second update changes nothing. */
  lemma PackageSet(s: string, packageName: string, a: nat, b: nat)
    requires DelimitedSpan(s, PackageOpen, Quote) == Some((a, b)) && '"' !in packageName
    ensures SpanSet(s, PackageReplaced(s, packageName), PackageOpen, Quote, packageName, a, b)
    ensures PackageReplaced(PackageReplaced(s, packageName), packageName) == PackageReplaced(s, packageName)
  {
    ReplaceDelimitedSets(s, PackageOpen, Quote, packageName, a, b);
  }

  /** The code's package update, for a name free of `"` and `$`: the attribute holds the name and a second update changes nothing. */
  lemma PackageSetAsWritten(s: string, packageName: string, a: nat, b: nat)
    requires DelimitedSpan(s, PackageOpen, Quote) == Some((a, b)) && '"' !in packageName && '$' !in packageName
    ensures SpanSet(s, PackageReplacedAsWritten(s, packageName), PackageOpen, Quote, packageName, a, b)
    ensures PackageReplacedAsWritten(PackageReplacedAsWritten(s, packageName), packageName) == PackageReplacedAsWritten(s, packageName)
  {
    PackageSet(s, packageName, a, b);
  }

  /** `updateAppName(appName)`: `false` when the manifest is missing, which makes `readFileSync` throw. */
  method UpdateAppName(fs: FileSystem, appName: string) returns (ok: bool)
    modifies fs
    ensures ok == (ManifestPath in old(fs.files) && old(fs.files)[ManifestPath].Text?)
    ensures fs.files == if ok then old(fs.files)[ManifestPath := Text(LabelReplacedAsWritten(old(fs.files)[ManifestPath].text, appName))]
      else old(fs.files)
  {
    ok := ManifestPath in fs.files && fs.files[ManifestPath].Text?;
    if ok {
      var content := fs.files[ManifestPath].text;
      content := LabelReplacedAsWritten(content, appName);
      fs.Write(ManifestPath, Text(content));
    }
  }

  /** `updatePackageName(packageName)`. */
  method UpdatePackageName(fs: FileSystem, packageName: string) returns (ok: bool)
    modifies fs
    ensures ok == (ManifestPath in old(fs.files) && old(fs.files)[ManifestPath].Text?)
    ensures fs.files == if ok then old(fs.files)[ManifestPath := Text(PackageReplacedAsWritten(old(fs.files)[ManifestPath].text, packageName))]
      else old(fs.files)
  {
    ok := ManifestPath in fs.files && fs.files[ManifestPath].Text?;
    if ok {
      var content := fs.files[ManifestPath].text;
      content := PackageReplacedAsWritten(content, packageName);
      fs.Write(ManifestPath, Text(content));
    }
  }

  // ---------------------------------------------------------------------------
  // `updateAdjust`.

  const ArgsHead: string := "this, \""
  const ArgsTail: string := "\", AdjustConfig.ENVIRONMENT_PRODUCTION"

  /** The arguments of the production `AdjustConfig` call. */
  function AdjustArgs(appToken: string): string {
    ArgsHead + appToken + ArgsTail
  }

  /** The fixed parts of the arguments hold no `)`. */
  lemma ArgsWithoutParen(appToken: string)
    requires ')' !in appToken
    ensures ')' !in AdjustArgs(appToken)
  {
    assert ')' !in ArgsHead && ')' !in ArgsTail;
  }

  /** The first `new AdjustConfig(…);` call, across lines, replaced by the production call. */
  function AdjustReplaced(code: string, appToken: string): string {
    ReplaceDelimited(code, AdjustOpen, AdjustClose, AdjustOpen + AdjustArgs(appToken) + AdjustClose)
  }

  /** With a token free of `)`, the first call becomes the production call and a second rewrite changes nothing. */
  lemma AdjustSet(code: string, appToken: string, a: nat, b: nat)
    requires DelimitedSpan(code, AdjustOpen, AdjustClose) == Some((a, b)) && ')' !in appToken
    ensures SpanSet(code, AdjustReplaced(code, appToken), AdjustOpen, AdjustClose, AdjustArgs(appToken), a, b)
    ensures AdjustReplaced(AdjustReplaced(code, appToken), appToken) == AdjustReplaced(code, appToken)
  {
    ArgsWithoutParen(appToken);
    ReplaceDelimitedSets(code, AdjustOpen, AdjustClose, AdjustArgs(appToken), a, b);
  }

  /** The fixed parts of the production call hold no `$`. */
  lemma AdjustLiterals()
    ensures '$' !in AdjustOpen && '$' !in ArgsHead && '$' !in ArgsTail && '$' !in AdjustClose
  {
  }

  /** The code's version, in which `$` patterns in the token are expanded; a token without `$` is written as given. */
  function AdjustReplacedAsWritten(code: string, appToken: string): (r: string)
    ensures '$' !in appToken ==> r == AdjustReplaced(code, appToken)
  {
    AdjustLiterals();
    ReplaceDelimitedAsWritten(code, AdjustOpen, AdjustClose, AdjustOpen + AdjustArgs(appToken) + AdjustClose)
  }

  /**
   * The token `$&` stands for the matched call: `new AdjustConfig();` ends up nested inside
   * the string argument of the new call, where the intended rewrite writes `$&` there.
   */
  lemma AdjustAsWrittenExpandsDollar()
    ensures var s := AdjustOpen + AdjustClose;
      && AdjustReplacedAsWritten(s, "$&") == AdjustOpen + ArgsHead + s + ArgsTail + AdjustClose
      && AdjustReplaced(s, "$&") == AdjustOpen + ArgsHead + "$&" + ArgsTail + AdjustClose
  {
    AdjustLiterals();
    assert AdjustOpen + AdjustArgs("$&") + AdjustClose == (AdjustOpen + ArgsHead) + "$&" + (ArgsTail + AdjustClose);
    BareNests(AdjustOpen, AdjustClose, AdjustOpen + ArgsHead, ArgsTail + AdjustClose);
  }

  /** The code's rewrite of the call, for a token free of `)` and `$`: the production call is set and a second rewrite changes nothing. */
  lemma AdjustSetAsWritten(code: string, appToken: string, a: nat, b: nat)
    requires DelimitedSpan(code, AdjustOpen, AdjustClose) == Some((a, b)) && ')' !in appToken && '$' !in appToken
    ensures SpanSet(code, AdjustReplacedAsWritten(code, appToken), AdjustOpen, AdjustClose, AdjustArgs(appToken), a, b)
    ensures AdjustReplacedAsWritten(AdjustReplacedAsWritten(code, appToken), appToken) == AdjustReplacedAsWritten(code, appToken)
  {
    AdjustSet(code, appToken, a, b);
  }

  /** One event of the generated block: a declaration of `event_<key>` and its `trackEvent` call. */
  function EventSnippet(key: string, token: string): string {
    SnippetDeclare + key + SnippetNew + token + SnippetTrack + key + SnippetEnd
  }

  const SnippetDeclare: string := "\n            AdjustEvent event_"
  const SnippetNew: string := " = new AdjustEvent(\""
  const SnippetTrack: string := "\");\n            Adjust.trackEvent(event_"
  const SnippetEnd: string := ");\n        "

  /** The snippets of `events`, in enumeration order. */
  function EventSnippets(events: seq<(string, string)>): string {
    if events == [] then ""
    else EventSnippets(events[..|events| - 1]) + EventSnippet(events[|events| - 1].0, events[|events| - 1].1)
  }

  /** The generated code of a sequence of events is the code of its parts, one after the other. */
  lemma {:induction false} EventSnippetsConcat(e1: seq<(string, string)>, e2: seq<(string, string)>)
    ensures EventSnippets(e1 + e2) == EventSnippets(e1) + EventSnippets(e2)
    decreases |e2|
  {
    if e2 == [] {
      assert e1 + e2 == e1;
    } else {
      assert (e1 + e2)[..|e1 + e2| - 1] == e1 + e2[..|e2| - 1];
      EventSnippetsConcat(e1, e2[..|e2| - 1]);
    }
  }

  /** Each event's snippet appears in the block, after those of the events before it. */
  lemma EventSnippetAt(events: seq<(string, string)>, i: nat)
    requires i < |events|
    ensures var at := |EventSnippets(events[..i])|;
      StartsAt(EventSnippets(events), EventSnippet(events[i].0, events[i].1), at)
  {
    var x, y := EventSnippets(events[..i]), EventSnippet(events[i].0, events[i].1);
    assert events[..i + 1][..i] == events[..i];
    assert EventSnippets(events[..i + 1]) == x + y;
    assert events == events[..i + 1] + events[i + 1..];
    EventSnippetsConcat(events[..i + 1], events[i + 1..]);
    var z := EventSnippets(events[i + 1..]);
    assert (x + y + z)[|x|..|x| + |y|] == y;
  }

  /** The `for … in` loop that builds `eventCode`. */
  method EventCode(events: seq<(string, string)>) returns (code: string)
    ensures code == EventSnippets(events)
  {
    code := "";
    var i := 0;
    while i < |events|
      invariant i <= |events|
      invariant code == EventSnippets(events[..i])
    {
      var (key, token) := events[i];
      code := code + EventSnippet(key, token);
      assert events[..i + 1][..i] == events[..i];
      i := i + 1;
    }
    assert events[..i] == events;
  }

  /** The text between the markers in the new block. */
  function EventsBody(eventCode: string): string {
    Indent + eventCode + Indent
  }

  const Indent: string := "\n         "

  /** The indentation around the generated code holds no `/`. */
  lemma BodyWithoutSlash(eventCode: string)
    requires '/' !in eventCode
    ensures '/' !in EventsBody(eventCode)
  {
    assert '/' !in Indent;
  }

  /** The span from the begin marker to the first end marker after it replaced by the new block. */
  function EventsReplaced(code: string, eventCode: string): string {
    ReplaceDelimited(code, EventsBegin, EventsEnd, EventsBegin + EventsBody(eventCode) + EventsEnd)
  }

  /**
   * With both markers present and generated code free of `/`: the text around the span is
   * kept, the span becomes the begin marker, the new block and the end marker, and a second
   * rewrite with the same code changes nothing.
   */
  lemma EventsBlockSet(code: string, eventCode: string, a: nat, b: nat)
    requires DelimitedSpan(code, EventsBegin, EventsEnd) == Some((a, b)) && '/' !in eventCode
    ensures SpanSet(code, EventsReplaced(code, eventCode), EventsBegin, EventsEnd, EventsBody(eventCode), a, b)
    ensures EventsReplaced(EventsReplaced(code, eventCode), eventCode) == EventsReplaced(code, eventCode)
  {
    BodyWithoutSlash(eventCode);
    ReplaceDelimitedSets(code, EventsBegin, EventsEnd, EventsBody(eventCode), a, b);
  }

  /** The code's version, in which `$` patterns in the generated code are expanded; code without `$` is written as given. */
  function EventsReplacedAsWritten(code: string, eventCode: string): (r: string)
    ensures '$' !in eventCode ==> r == EventsReplaced(code, eventCode)
  {
    MarkersDollarFree();
    ReplaceDelimitedAsWritten(code, EventsBegin, EventsEnd, EventsBegin + EventsBody(eventCode) + EventsEnd)
  }

  /** The code's rewrite of the block, for generated code free of `/` and `$`: the block is set and a second rewrite changes nothing. */
  lemma EventsBlockSetAsWritten(code: string, eventCode: string, a: nat, b: nat)
    requires DelimitedSpan(code, EventsBegin, EventsEnd) == Some((a, b)) && '/' !in eventCode && '$' !in eventCode
    ensures SpanSet(code, EventsReplacedAsWritten(code, eventCode), EventsBegin, EventsEnd, EventsBody(eventCode), a, b)
    ensures EventsReplacedAsWritten(EventsReplacedAsWritten(code, eventCode), eventCode) == EventsReplacedAsWritten(code, eventCode)
  {
    EventsBlockSet(code, eventCode, a, b);
  }

  /**
   * An event token `$&` stands for the matched block: the old markers end up inside the
   * string argument of `new AdjustEvent`, where the intended rewrite writes `$&` there.
   */
  lemma EventsAsWrittenExpandsDollar(key: string)
    requires '$' !in key
    ensures var s := EventsBegin + EventsEnd;
      var t1 := EventsBegin + Indent + SnippetDeclare + key + SnippetNew;
      var t2 := SnippetTrack + key + SnippetEnd + Indent + EventsEnd;
      && EventsReplacedAsWritten(s, EventSnippet(key, "$&")) == t1 + s + t2
      && EventsReplaced(s, EventSnippet(key, "$&")) == t1 + "$&" + t2
  {
    var s := EventsBegin + EventsEnd;
    var t1 := EventsBegin + Indent + SnippetDeclare + key + SnippetNew;
    var t2 := SnippetTrack + key + SnippetEnd + Indent + EventsEnd;
    EventTemplateCut(key, t1, t2);
    BareNests(EventsBegin, EventsEnd, t1, t2);
  }

  /** The template of a block whose single event has the token `$&`, cut around the `$&`. */
  lemma EventTemplateCut(key: string, t1: string, t2: string)
    requires '$' !in key
    requires t1 == EventsBegin + Indent + SnippetDeclare + key + SnippetNew
    requires t2 == SnippetTrack + key + SnippetEnd + Indent + EventsEnd
    ensures EventsBegin + EventsBody(EventSnippet(key, "$&")) + EventsEnd == t1 + "$&" + t2
    ensures '$' !in t1 && '$' !in t2
  {
    SnippetPartsLack();
    MarkersDollarFree();
    TemplateCut(EventsBegin, Indent, SnippetDeclare, key, SnippetNew, SnippetTrack, SnippetEnd, EventsEnd);
  }

  /** Regrouping the pieces of a one-event template around its token. */
  lemma TemplateCut(b: string, ind: string, d: string, key: string, n: string, tr: string, e: string, en: string)
    ensures b + (ind + (d + key + n + "$&" + tr + key + e) + ind) + en == (b + ind + d + key + n) + "$&" + (tr + key + e + ind + en)
  {
  }

  /** A block with the single event `key` generates that event's snippet. */
  lemma OneEvent(key: string, token: string)
    ensures EventSnippets([(key, token)]) == EventSnippet(key, token)
  {
    assert [(key, token)][..0] == [];
  }

  /** Each fixed part of a snippet, one at a time, holds neither `/` nor `$`. */
  lemma DeclareLacks()
    ensures '/' !in SnippetDeclare && '$' !in SnippetDeclare
  {
  }

  lemma NewLacks()
    ensures '/' !in SnippetNew && '$' !in SnippetNew
  {
  }

  lemma TrackLacks()
    ensures '/' !in SnippetTrack && '$' !in SnippetTrack
  {
    TrackSlashFree();
    TrackDollarFree();
  }

  lemma TrackSlashFree()
    ensures '/' !in SnippetTrack
  {
  }

  lemma TrackDollarFree()
    ensures '$' !in SnippetTrack
  {
  }

  lemma EndLacks()
    ensures '/' !in SnippetEnd && '$' !in SnippetEnd
  {
  }

  /** The fixed parts of a snippet hold neither `/` nor `$`. */
  lemma SnippetPartsLack()
    ensures '/' !in SnippetDeclare && '/' !in SnippetNew && '/' !in SnippetTrack && '/' !in SnippetEnd
    ensures '$' !in SnippetDeclare && '$' !in SnippetNew && '$' !in SnippetTrack && '$' !in SnippetEnd
  {
    DeclareLacks();
    NewLacks();
    TrackLacks();
    EndLacks();
  }

  /** The markers and the indentation of the block hold no `$`. */
  lemma MarkersDollarFree()
    ensures '$' !in EventsBegin && '$' !in Indent && '$' !in EventsEnd
  {
  }

  /** Keys and tokens free of `/` give generated code free of `/`. */
  lemma {:induction false} EventSnippetsNoSlash(events: seq<(string, string)>)
    requires forall i :: 0 <= i < |events| ==> '/' !in events[i].0 && '/' !in events[i].1
    ensures '/' !in EventSnippets(events)
  {
    if events != [] {
      EventSnippetsNoSlash(events[..|events| - 1]);
      SnippetPartsLack();
    }
  }

  /** Keys and tokens free of `$` give generated code free of `$`. */
  lemma {:induction false} EventSnippetsNoDollar(events: seq<(string, string)>)
    ensures (forall i :: 0 <= i < |events| ==> '$' !in events[i].0 && '$' !in events[i].1) ==> '$' !in EventSnippets(events)
  {
    if events != [] {
      EventSnippetsNoDollar(events[..|events| - 1]);
      SnippetPartsLack();
    }
  }

  /** The whole rewrite of `MainActivity.java`. */
  function AdjustedCode(code: string, appToken: string, events: seq<(string, string)>): string {
    EventsReplaced(AdjustReplaced(code, appToken), EventSnippets(events))
  }

  /** The whole rewrite as the code does it; without `$` in the token, keys and event tokens it is the intended one. */
  function AdjustedCodeAsWritten(code: string, appToken: string, events: seq<(string, string)>): (r: string)
    ensures '$' !in appToken && (forall i :: 0 <= i < |events| ==> '$' !in events[i].0 && '$' !in events[i].1)
      ==> r == AdjustedCode(code, appToken, events)
  {
    EventSnippetsNoDollar(events);
    EventsReplacedAsWritten(AdjustReplacedAsWritten(code, appToken), EventSnippets(events))
  }

  // ---------------------------------------------------------------------------
  // `findMainActivity`.

  /** An entry of a directory listing, in `readdirSync` order. */
  datatype Node = File(name: string) | Dir(name: string, children: seq<Node>)

  /** The paths of the `MainActivity.java` files under `dir`, in the order the search visits them. */
  function Hits(dir: Path, items: seq<Node>): (r: seq<Path>)
    decreases items
  {
    if items == [] then []
    else
      var here := match items[0]
        case File(name) => if name == MainActivityJava then [Join(dir, name)] else []
        case Dir(name, children) => Hits(Join(dir, name), children);
      here + Hits(dir, items[1..])
  }

  /** The hits of a listing are the hits of its parts. */
  lemma {:induction false} HitsConcat(dir: Path, a: seq<Node>, b: seq<Node>)
    ensures Hits(dir, a + b) == Hits(dir, a) + Hits(dir, b)
    decreases |a|
  {
    if a == [] {
      assert a + b == b;
    } else {
      assert (a + b)[0] == a[0] && (a + b)[1..] == a[1..] + b;
      HitsConcat(dir, a[1..], b);
    }
  }

  /** Every hit is a `MainActivity.java` file below `dir`. */
  lemma {:induction false} HitsAreMainActivities(dir: Path, items: seq<Node>)
    ensures forall p :: p in Hits(dir, items) ==> IsUnder(p, dir) && |p| >= |MainActivityJava| && p[|p| - |MainActivityJava|..] == MainActivityJava
    decreases items
  {
    if items != [] {
      HitsAreMainActivities(dir, items[1..]);
      match items[0]
      case File(name) =>
        if name == MainActivityJava {
          JoinUnder(dir, name);
        }
      case Dir(name, children) =>
        var sub := Join(dir, name);
        HitsAreMainActivities(sub, children);
        forall p | p in Hits(sub, children)
          ensures IsUnder(p, dir)
        {
          UnderJoin(p, dir, name);
        }
    }
  }

  /** A non-empty name joined to a directory is under it. */
  lemma JoinUnder(dir: Path, name: string)
    requires name != ""
    ensures IsUnder(Join(dir, name), dir)
  {
    var p := Join(dir, name);
    assert p[..|dir| + 1] == dir + "/";
  }

  /** A path under a subdirectory is under the directory that holds it. */
  lemma UnderJoin(p: Path, dir: Path, name: string)
    requires IsUnder(p, Join(dir, name))
    ensures IsUnder(p, dir)
  {
    var sub := Join(dir, name);
    assert p[..|sub| + 1] == sub + "/";
    assert p[..|dir| + 1] == p[..|sub| + 1][..|dir| + 1];
    assert sub[..|dir| + 1] == dir + "/";
  }

  /** The last of `hits`, or `file` when there is none. */
  function LastOr(hits: seq<Path>, file: Path): Path {
    if hits == [] then file else hits[|hits| - 1]
  }

  /** `search(dir)` on the listing `items` of `dir`, with `file` the variable it updates. */
  method Search(dir: Path, items: seq<Node>, file: Path) returns (found: Path)
    ensures found == LastOr(Hits(dir, items), file)
    decreases items
  {
    found := file;
    for i := 0 to |items|
      invariant found == LastOr(Hits(dir, items[..i]), file)
    {
      HitsConcat(dir, items[..i], [items[i]]);
      assert items[..i + 1] == items[..i] + [items[i]];
      assert Hits(dir, [items[i]]) == match items[i]
        case File(name) => if name == MainActivityJava then [Join(dir, name)] else []
        case Dir(name, children) => Hits(Join(dir, name), children);
      match items[i]
      case Dir(name, children) =>
        found := Search(Join(dir, name), children, found);
      case File(name) =>
        if name == MainActivityJava {
          found := Join(dir, name);
        }
    }
    assert items[..|items|] == items;
  }

  /**
   * `findMainActivity()`: the last `MainActivity.java` the depth-first search visits under
   * the Java root, or `""` when there is none.
   */
  method FindMainActivity(listing: seq<Node>) returns (file: Path)
    ensures file == LastOr(Hits(JavaRoot, listing), "")
    ensures file == "" <==> Hits(JavaRoot, listing) == []
    ensures file != "" ==> IsUnder(file, JavaRoot) && file[|file| - |MainActivityJava|..] == MainActivityJava
  {
    file := Search(JavaRoot, listing, "");
    HitsAreMainActivities(JavaRoot, listing);
  }

  /**
   * `updateAdjust(appToken, events)`. `listing` is the Java root as the search finds it. When
   * no file is found or it is not readable, `readFileSync` throws and nothing is written.
   */
  method UpdateAdjust(fs: FileSystem, listing: seq<Node>, appToken: string, events: seq<(string, string)>) returns (ok: bool)
    modifies fs
    ensures var p := LastOr(Hits(JavaRoot, listing), "");
      && ok == (p in old(fs.files) && old(fs.files)[p].Text?)
      && fs.files == if ok then old(fs.files)[p := Text(AdjustedCodeAsWritten(old(fs.files)[p].text, appToken, events))] else old(fs.files)
  {
    var mainActivity := FindMainActivity(listing);
    ok := mainActivity in fs.files && fs.files[mainActivity].Text?;
    if ok {
      var code := fs.files[mainActivity].text;
      code := AdjustReplacedAsWritten(code, appToken);
      var eventCode := EventCode(events);
      code := EventsReplacedAsWritten(code, eventCode);
      fs.Write(mainActivity, Text(code));
    }
  }
}
