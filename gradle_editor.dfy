/**
 * `replaceResValues` and `escapeGradleString` of services/gradleEditor.js: rewrite the
 * `applicationId` of a job's `app/build.gradle` and upsert one `resValue "string"` line per
 * backend key into its `defaultConfig` block.
 *
 * The regular expressions of the source are modelled by scanners:
 *   - `applicationId\s+"[^"]+"`                      AppIdEnd
 *   - `resValue\s+"string",\s*"<key>".*`            ResFixedEnd, then LineEnd
 *   - `(defaultConfig\s*{)([\s\S]*?)(\n\s*})`       HeaderEnd, IsClose, InsertionPoint
 * Each leftmost match is found by a search that tries the start positions in order.
 */
module GradleEditor {
  import opened Wrappers
  import opened Text
  import opened Files

  const AppNameKey: string := "backend_app_name"
  const WebUrlKey: string := "backend_web_url"
  const AdjustTokenKey: string := "backend_adjust_token"
  const EventTokenKey: string := "backend_event_token"

  /** The configuration object `replaceResValues` receives; `None` is `undefined` or `null`. */
  datatype GradleConfig = GradleConfig(
    appName: Option<string>,
    webUrl: Option<string>,
    adjustToken: Option<string>,
    eventToken: Option<string>,
    packageName: Option<string>)

  // ---------------------------------------------------------------------------
  // escapeGradleString

  /** `s.replace(/c/g, sub)` for a one-character pattern: every `c` becomes `sub`. */
  function ReplaceChar(s: string, c: char, sub: string): (r: string)
    ensures |sub| >= 1 ==> |r| >= |s|
  {
    if |s| == 0 then ""
    else (if s[0] == c then sub else [s[0]]) + ReplaceChar(s[1..], c, sub)
  }

  /** `escapeGradleString(s)`: backslashes are doubled first (`s.replace(/\\/g, '\\\\')`), then quotes are escaped (`.replace(/"/g, '\\"')`). */
  function Escape(s: string): string {
    ReplaceChar(ReplaceChar(s, '\\', "\\\\"), '"', "\\\"")
  }

  /**
   * Reads the body of a Gradle double-quoted string back: a backslash takes the next character
   * literally; a bare quote or a trailing lone backslash make the text unreadable.
   */
  function Unescape(t: string): (r: Option<string>)
    ensures r.Some? ==> |r.value| <= |t|
  {
    if |t| == 0 then Some("")
    else if t[0] == '"' then None
    else if t[0] == '\\' then
      if |t| == 1 then None
      else match Unescape(t[2..]) {
        case None => None
        case Some(rest) => Some([t[1]] + rest)
      }
    else match Unescape(t[1..]) {
      case None => None
      case Some(rest) => Some([t[0]] + rest)
    }
  }

  /** The escaped text in one step, character by character. */
  function EscapeChars(s: string): string {
    if |s| == 0 then ""
    else (if s[0] == '\\' then "\\\\" else if s[0] == '"' then "\\\"" else [s[0]]) + EscapeChars(s[1..])
  }

  /** Replacing a character in two texts one after the other is replacing it in each. */
  lemma {:induction false} ReplaceCharConcat(a: string, b: string, c: char, sub: string)
    ensures ReplaceChar(a + b, c, sub) == ReplaceChar(a, c, sub) + ReplaceChar(b, c, sub)
  {
    if |a| > 0 {
      assert (a + b)[1..] == a[1..] + b;
      ReplaceCharConcat(a[1..], b, c, sub);
    } else {
      assert a + b == b;
    }
  }

  /** Doing the two global replacements in the source's order escapes each character on its own. */
  lemma {:induction false} EscapeIsCharwise(s: string)
    ensures Escape(s) == EscapeChars(s)
  {
    if |s| > 0 {
      var head := if s[0] == '\\' then "\\\\" else [s[0]];
      ReplaceCharConcat(head, ReplaceChar(s[1..], '\\', "\\\\"), '"', "\\\"");
      EscapeIsCharwise(s[1..]);
      if s[0] == '\\' {
        assert ReplaceChar("\\\\", '"', "\\\"") == "\\\\";
      } else if s[0] == '"' {
        assert ReplaceChar(['"'], '"', "\\\"") == "\\\"";
      } else {
        assert ReplaceChar([s[0]], '"', "\\\"") == [s[0]];
      }
    }
  }

  lemma {:induction false} UnescapeEscapeChars(s: string)
    ensures Unescape(EscapeChars(s)) == Some(s)
  {
    if |s| > 0 {
      UnescapeEscapeChars(s[1..]);
      var e := EscapeChars(s);
      if s[0] == '\\' || s[0] == '"' {
        assert e[2..] == EscapeChars(s[1..]);
        assert e[0] == '\\' && e[1] == s[0];
      } else {
        assert e == [s[0]] + EscapeChars(s[1..]);
        assert e[1..] == EscapeChars(s[1..]);
      }
      assert [s[0]] + s[1..] == s;
    }
  }

  /** Reading an escaped value back gives the value: no bare quote remains and nothing is lost. */
  lemma EscapeRoundTrip(s: string)
    ensures Unescape(Escape(s)) == Some(s)
  {
    EscapeIsCharwise(s);
    UnescapeEscapeChars(s);
  }

  lemma {:induction false} EscapeCharsKeepsOtherChars(s: string, c: char)
    requires c != '\\' && c !in s
    ensures c !in EscapeChars(s)
  {
    if |s| > 0 {
      assert c !in s[1..];
      EscapeCharsKeepsOtherChars(s[1..], c);
    }
  }

  /** Escaping adds backslashes only: a character other than `\` is in the result only if it is in `s`. */
  lemma EscapeKeepsOtherChars(s: string, c: char)
    requires c != '\\' && c !in s
    ensures c !in Escape(s)
  {
    EscapeIsCharwise(s);
    EscapeCharsKeepsOtherChars(s, c);
  }

  lemma EscapeNoLineTerminator(s: string)
    requires NoJsLineTerminator(s)
    ensures NoJsLineTerminator(Escape(s))
  {
    var e := Escape(s);
    forall k | 0 <= k < |e|
      ensures !IsJsLineTerminator(e[k])
    {
      if IsJsLineTerminator(e[k]) {
        assert e[k] in e;
        assert e[k] !in s;
        EscapeKeepsOtherChars(s, e[k]);
      }
    }
  }

  // ---------------------------------------------------------------------------
  // applicationId\s+"[^"]+"

  /** The end of an `applicationId` match starting at `i`, if one starts there. */
  function AppIdEnd(s: string, i: nat): (r: Option<nat>)
    ensures r.Some? ==> i + 16 <= r.value <= |s| && StartsAt(s, "applicationId", i)
  {
    if !StartsAt(s, "applicationId", i) then None
    else
      var b := SkipSpaces(s, i + 13);
      if b == i + 13 || b + 1 >= |s| || s[b] != '"' || s[b + 1] == '"' then None
      else
        var q := CharFrom(s, '"', b + 1);
        if q == |s| then None else Some(q + 1)
  }

  /** The leftmost `applicationId` match at or after `from`: its start and end. */
  function FirstAppId(s: string, from: nat): (r: Option<(nat, nat)>)
    decreases |s| - from
    ensures r.Some? ==> from <= r.value.0 && r.value.0 + 16 <= r.value.1 <= |s|
  {
    if from >= |s| then None
    else match AppIdEnd(s, from) {
      case Some(e) => Some((from, e))
      case None => FirstAppId(s, from + 1)
    }
  }

  /** What `FirstAppId` finds is a match. */
  lemma {:induction false} FirstAppIdMatches(s: string, from: nat)
    requires FirstAppId(s, from).Some?
    decreases |s| - from
    ensures AppIdEnd(s, FirstAppId(s, from).value.0) == Some(FirstAppId(s, from).value.1)
  {
    if AppIdEnd(s, from).None? {
      FirstAppIdMatches(s, from + 1);
    }
  }

  /** No match lies between `from` and what `FirstAppId` finds, nor anywhere after `from` when it finds none. */
  lemma {:induction false} NoAppIdBefore(s: string, from: nat, j: nat)
    requires from <= j
    requires FirstAppId(s, from).None? || j < FirstAppId(s, from).value.0
    ensures AppIdEnd(s, j).None?
    decreases j - from
  {
    if from < j && from < |s| {
      NoAppIdBefore(s, from + 1, j);
    }
  }

  function AppIdLine(pkg: string): string {
    "applicationId \"" + pkg + "\""
  }

  /**
   * The `applicationId` step of `replaceResValues` as the code does it: the replacement string
   * goes through the `$` expansion of `String.prototype.replace`.
   */
  function AppIdReplacedAsWritten(s: string, pkg: Option<string>): (r: string)
    ensures !Truthy(pkg) || FirstAppId(s, 0).None? ==> r == s
  {
    if !Truthy(pkg) then s
    else match FirstAppId(s, 0) {
      case None => s
      case Some((i, e)) => ReplaceSpanAsWritten(s, i, e, AppIdLine(pkg.value))
    }
  }

  /** The `applicationId` step with the package name inserted verbatim. */
  function AppIdReplaced(s: string, pkg: Option<string>): (r: string)
    ensures !Truthy(pkg) || FirstAppId(s, 0).None? ==> r == s
  {
    if !Truthy(pkg) then s
    else match FirstAppId(s, 0) {
      case None => s
      case Some((i, e)) => ReplaceSpan(s, i, e, AppIdLine(pkg.value))
    }
  }

  /** The quoted name of a canonical `applicationId` line holds no quote. */
  lemma AppIdLineNoQuote(r: string, i: nat, v: string)
    requires '"' !in v && StartsAt(r, AppIdLine(v), i)
    ensures forall k :: i + 15 <= k < i + |AppIdLine(v)| - 1 ==> r[k] != '"'
  {
    var line := AppIdLine(v);
    forall k | i + 15 <= k < i + |line| - 1
      ensures r[k] != '"'
    {
      CharAt(r, line, i, k - i);
      assert line[k - i] == v[k - i - 15];
    }
  }

  /** A canonical `applicationId` line at `i` is a match ending where the line ends. */
  lemma AppIdLineMatches(r: string, i: nat, v: string)
    requires v != "" && '"' !in v && StartsAt(r, AppIdLine(v), i)
    ensures AppIdEnd(r, i) == Some(i + |AppIdLine(v)|)
  {
    var n := |AppIdLine(v)|;
    AppIdLineKeyword(r, i, v);
    AppIdLineQuotes(r, i, v);
    assert CharFrom(r, '"', i + 15) == i + n - 1;
  }

  /** A canonical `applicationId` line starts with the keyword, one space and a quote. */
  lemma AppIdLineKeyword(r: string, i: nat, v: string)
    requires v != "" && StartsAt(r, AppIdLine(v), i)
    ensures StartsAt(r, "applicationId", i) && SkipSpaces(r, i + 13) == i + 14
    ensures i + 15 < |r| && r[i + 14] == '"' && r[i + 15] == v[0]
  {
    var line := AppIdLine(v);
    assert line == "applicationId" + (" \"" + v + "\"");
    StartsAtConcat(r, "applicationId", " \"" + v + "\"", i);
    CharAt(r, line, i, 13);
    CharAt(r, line, i, 14);
    CharAt(r, line, i, 15);
    SkipSpacesUnique(r, i + 13, i + 14);
  }

  /** In a canonical `applicationId` line the quote after the name is the last character. */
  lemma AppIdLineQuotes(r: string, i: nat, v: string)
    requires v != "" && '"' !in v && StartsAt(r, AppIdLine(v), i)
    ensures CharFrom(r, '"', i + 15) == i + |AppIdLine(v)| - 1
  {
    var line := AppIdLine(v);
    CharAt(r, line, i, |line| - 1);
    AppIdLineNoQuote(r, i, v);
    CharFromAt(r, '"', i + 15, i + |line| - 1);
  }

  /** The replacement of `s[i..e]` by a canonical line keeps the rest and holds a match with the name. */
  lemma AppIdSpanReplaced(s: string, i: nat, e: nat, v: string, r: string)
    requires i <= e <= |s| && v != "" && '"' !in v && r == ReplaceSpan(s, i, e, AppIdLine(v))
    ensures var n := |AppIdLine(v)|;
      && r[..i] == s[..i]
      && r[i + n..] == s[e..]
      && AppIdEnd(r, i) == Some(i + n)
      && r[i + 15..i + n - 1] == v
  {
    var line := AppIdLine(v);
    ReplaceSpanParts(s, i, e, line);
    AppIdLineMatches(r, i, v);
    assert line[15..|line| - 1] == v;
    assert r[i + 15..i + |line| - 1] == r[i..i + |line|][15..|line| - 1];
  }

  /** The `applicationId` step replaces the span of the first match. */
  lemma AppIdReplacedSpan(s: string, pkg: Option<string>, i: nat, e: nat)
    requires Truthy(pkg) && FirstAppId(s, 0) == Some((i, e))
    ensures i <= e <= |s| && AppIdReplaced(s, pkg) == ReplaceSpan(s, i, e, AppIdLine(pkg.value))
  {
    var found := FirstAppId(s, 0);
    assert found.value == (i, e) && i <= e <= |s|;
    assert AppIdReplaced(s, pkg) == ReplaceSpan(s, found.value.0, found.value.1, AppIdLine(pkg.value));
  }

  /**
   * Only the first `applicationId` match changes: the text before and after it is kept, and the
   * new text has a match at the same place whose quoted value is the package name.
   */
  lemma AppIdReplacesFirstOnly(s: string, pkg: Option<string>, i: nat, e: nat)
    requires Truthy(pkg) && '"' !in pkg.value && FirstAppId(s, 0) == Some((i, e))
    ensures var r := AppIdReplaced(s, pkg); var n := |AppIdLine(pkg.value)|;
      && r[..i] == s[..i]
      && r[i + n..] == s[e..]
      && AppIdEnd(r, i) == Some(i + n)
      && r[i + 15..i + n - 1] == pkg.value
  {
    AppIdReplacedSpan(s, pkg, i, e);
    AppIdSpanReplaced(s, i, e, pkg.value, AppIdReplaced(s, pkg));
  }

  // ---------------------------------------------------------------------------
  // resValue\s+"string",\s*"<key>".*

  /** A key that is a plain identifier, as the four backend keys are. */
  predicate ValidKey(key: string) {
    |key| > 0 && forall k :: 0 <= k < |key| ==> 'a' <= key[k] <= 'z' || key[k] == '_'
  }

  function Quoted(key: string): string {
    "\"" + key + "\""
  }

  const ResValue: string := "resValue"
  const StringType: string := "\"string\","

  /** Where `resValue\s+"string",` ends, if it starts at `i`. */
  function AfterStringType(s: string, i: nat): (r: Option<nat>)
    ensures r.Some? ==> i + 18 <= r.value <= |s| && s[i] == 'r'
  {
    if !StartsAt(s, ResValue, i) then None
    else
      CharAt(s, ResValue, i, 0);
      var b := SkipSpaces(s, i + 8);
      if b > i + 8 && StartsAt(s, StringType, b) then Some(b + 9) else None
  }

  /** Where the part of a `resValue` match before `.*` ends, if a match for `key` starts at `i`. */
  function ResFixedEnd(s: string, i: nat, key: string): (r: Option<nat>)
    ensures r.Some? ==> i + 8 < r.value <= |s| && s[i] == 'r'
  {
    match AfterStringType(s, i) {
      case None => None
      case Some(a) =>
        var c := SkipSpaces(s, a);
        if StartsAt(s, Quoted(key), c) then Some(c + |key| + 2) else None
    }
  }

  /** The leftmost `resValue` match for `key` at or after `from`. */
  function FirstRes(s: string, key: string, from: nat): (r: Option<nat>)
    decreases |s| - from
    ensures r.Some? ==> from <= r.value && ResFixedEnd(s, r.value, key).Some?
  {
    if from >= |s| then None
    else if ResFixedEnd(s, from, key).Some? then Some(from)
    else FirstRes(s, key, from + 1)
  }

  /** No match lies between `from` and what `FirstRes` finds, nor anywhere after `from` when it finds none. */
  lemma {:induction false} NoResBefore(s: string, key: string, from: nat, j: nat)
    requires from <= j
    requires FirstRes(s, key, from).None? || j < FirstRes(s, key, from).value
    ensures ResFixedEnd(s, j, key).None?
    decreases j - from
  {
    if from < j && from < |s| {
      NoResBefore(s, key, from + 1, j);
    }
  }

  /** A match with none before it, from `from` on, is what `FirstRes` finds. */
  lemma {:induction false} FirstResFrom(s: string, key: string, from: nat, w: nat)
    requires from <= w && ResFixedEnd(s, w, key).Some?
    requires forall j :: from <= j < w ==> ResFixedEnd(s, j, key).None?
    ensures FirstRes(s, key, from) == Some(w)
    decreases w - from
  {
    if from < w {
      FirstResFrom(s, key, from + 1, w);
    }
  }

  /** Any position satisfying the leftmost-match conditions is the leftmost match. */
  lemma FirstResUnique(s: string, key: string, w: nat)
    requires ResFixedEnd(s, w, key).Some?
    requires forall j :: 0 <= j < w ==> ResFixedEnd(s, j, key).None?
    ensures FirstRes(s, key, 0) == Some(w)
  {
    FirstResFrom(s, key, 0, w);
  }

  /** No match lies before `p` when `p` is at most what `FirstRes` finds. */
  lemma NoResUpTo(s: string, key: string, p: nat)
    requires FirstRes(s, key, 0).None? || p <= FirstRes(s, key, 0).value
    ensures forall j :: 0 <= j < p ==> ResFixedEnd(s, j, key).None?
  {
    forall j | 0 <= j < p
      ensures ResFixedEnd(s, j, key).None?
    {
      NoResBefore(s, key, 0, j);
    }
  }

  const Indent: string := "        "

  /** The text after the key on the canonical line. */
  function Tail(value: string): string {
    ", \"" + Escape(value) + "\""
  }

  /** The part of the canonical line that the search pattern matches. */
  function Fixed(key: string): string {
    ResValue + " " + StringType + " " + Quoted(key)
  }

  /** The line `setRes(key, value)` writes. */
  function Line(key: string, value: string): string {
    Indent + Fixed(key) + Tail(value)
  }

  // ---------------------------------------------------------------------------
  // (defaultConfig\s*{)([\s\S]*?)(\n\s*})

  /** The end of a `defaultConfig {` header starting at `i`, if one starts there. */
  function HeaderEnd(s: string, i: nat): (r: Option<nat>)
    ensures r.Some? ==> i + 14 <= r.value <= |s| && StartsAt(s, "defaultConfig", i) && s[r.value - 1] == '{'
  {
    if !StartsAt(s, "defaultConfig", i) then None
    else
      var j := SkipSpaces(s, i + 13);
      if j < |s| && s[j] == '{' then Some(j + 1) else None
  }

  /** The leftmost header at or after `from`: its start and end. */
  function FirstHeader(s: string, from: nat): (r: Option<(nat, nat)>)
    decreases |s| - from
    ensures r.Some? ==> from <= r.value.0 && HeaderEnd(s, r.value.0) == Some(r.value.1)
  {
    if from >= |s| then None
    else match HeaderEnd(s, from) {
      case Some(h) => Some((from, h))
      case None => FirstHeader(s, from + 1)
    }
  }

  lemma {:induction false} FirstHeaderSpec(s: string, from: nat)
    decreases |s| - from
    ensures var r := FirstHeader(s, from);
      && (r.Some? ==> forall j :: from <= j < r.value.0 ==> HeaderEnd(s, j).None?)
      && (r.None? ==> forall j :: from <= j ==> HeaderEnd(s, j).None?)
  {
    if from >= |s| {
      forall j | from <= j
        ensures HeaderEnd(s, j).None?
      {
        NoHeaderPast(s, j);
      }
    } else if HeaderEnd(s, from).None? {
      FirstHeaderSpec(s, from + 1);
      assert FirstHeader(s, from) == FirstHeader(s, from + 1);
    }
  }

  /** No header starts at or past the end of the text. */
  lemma NoHeaderPast(s: string, j: nat)
    requires j >= |s|
    ensures HeaderEnd(s, j).None?
  {
    assert !StartsAt(s, "defaultConfig", j);
  }

  /** A newline at `p` followed by whitespace and a closing brace: what `(\n\s*})` matches. */
  predicate IsClose(s: string, p: nat) {
    p < |s| && s[p] == '\n' && var k := SkipSpaces(s, p + 1); k < |s| && s[k] == '}'
  }

  function FirstClose(s: string, from: nat): (r: Option<nat>)
    decreases |s| - from
    ensures r.Some? ==> from <= r.value < |s|
  {
    if from >= |s| then None
    else if IsClose(s, from) then Some(from)
    else FirstClose(s, from + 1)
  }

  lemma {:induction false} FirstCloseSpec(s: string, from: nat)
    decreases |s| - from
    ensures var r := FirstClose(s, from);
      && (r.Some? ==> IsClose(s, r.value) && forall p :: from <= p < r.value ==> !IsClose(s, p))
      && (r.None? ==> forall p :: from <= p ==> !IsClose(s, p))
  {
    if from < |s| && !IsClose(s, from) {
      FirstCloseSpec(s, from + 1);
    }
  }

  /**
   * Where the line is inserted: at the first newline-whitespace-brace after the first
   * `defaultConfig {` header. A later header cannot match when the first one does not, since
   * every closing brace after a later header is also after the first.
   */
  function InsertionPoint(s: string): (r: Option<nat>)
    ensures r.Some? ==> r.value < |s|
  {
    match FirstHeader(s, 0) {
      case None => None
      case Some((i, h)) => FirstClose(s, h)
    }
  }

  /** Two headers do not overlap: "efaultConfig", whitespace and `{` hold no `d`. */
  lemma HeadersApart(s: string, i: nat, i2: nat)
    requires i < i2 && HeaderEnd(s, i).Some? && HeaderEnd(s, i2).Some?
    ensures HeaderEnd(s, i).value <= i2
  {
    var h := HeaderEnd(s, i).value;
    CharAt(s, "defaultConfig", i2, 0);
    SkipSpacesSpec(s, i + 13);
    if i2 < i + 13 {
      CharAt(s, "defaultConfig", i, i2 - i);
    }
  }

  /**
   * The insertion point lies after the body of the first `defaultConfig {` header, at the first
   * newline-whitespace-brace that follows it; there is none exactly when no header has one after it.
   */
  lemma InsertionPointSpec(s: string)
    ensures var r := InsertionPoint(s);
      && (r.Some? ==> exists i: nat, h: nat :: HeaderEnd(s, i) == Some(h) && h <= r.value && (forall j: nat :: j < i ==> HeaderEnd(s, j).None?)
                        && IsClose(s, r.value) && (forall p: nat :: h <= p < r.value ==> !IsClose(s, p)))
      && (r.None? ==> forall i: nat, h: nat, p: nat :: HeaderEnd(s, i) == Some(h) && h <= p ==> !IsClose(s, p))
  {
    FirstHeaderSpec(s, 0);
    match FirstHeader(s, 0) {
      case None =>
      case Some((i, h)) =>
        FirstCloseSpec(s, h);
        forall i2: nat, h2: nat, p: nat | HeaderEnd(s, i2) == Some(h2) && h2 <= p && InsertionPoint(s).None?
          ensures !IsClose(s, p)
        {
          if i < i2 {
            HeadersApart(s, i, i2);
          }
        }
    }
  }

  /** The text with `line` inserted on its own line at the insertion point, if there is one. */
  function Inserted(s: string, line: string): (r: string)
    ensures InsertionPoint(s).None? ==> r == s
    ensures InsertionPoint(s).Some? ==> var p := InsertionPoint(s).value;
      && |r| == |s| + |line| + 2
      && r[..p] == s[..p] && r[p..p + |line| + 2] == "\n" + line + "\n" && r[p + |line| + 2..] == s[p..]
  {
    match InsertionPoint(s) {
      case None => s
      case Some(p) => s[..p] + "\n" + line + "\n" + s[p..]
    }
  }

  // ---------------------------------------------------------------------------
  // setRes

  /**
   * `setRes(key, value)` as the code does it: the replacement starts at `resValue`, keeping
   * the indentation already in front of it, and goes through the `$` expansion.
   */
  function SetResAsWritten(s: string, key: string, value: Option<string>): string {
    if !Truthy(value) then s
    else match FirstRes(s, key, 0) {
      case Some(i) =>
        var e := LineEnd(s, ResFixedEnd(s, i, key).value);
        ReplaceSpanAsWritten(s, i, e, Line(key, value.value))
      case None => Inserted(s, Line(key, value.value))
    }
  }

  /**
   * `setRes(key, value)` with the canonical line replacing the indentation in front of the
   * match as well, inserted verbatim.
   */
  function SetRes(s: string, key: string, value: Option<string>): (r: string)
    ensures !Truthy(value) ==> r == s
    ensures Truthy(value) && FirstRes(s, key, 0).None? ==> r == Inserted(s, Line(key, value.value))
  {
    if !Truthy(value) then s
    else match FirstRes(s, key, 0) {
      case Some(i) =>
        var e := LineEnd(s, ResFixedEnd(s, i, key).value);
        ReplaceSpan(s, IndentStart(s, i), e, Line(key, value.value))
      case None => Inserted(s, Line(key, value.value))
    }
  }

  /** The four `setRes` calls, in the source's order. */
  function ResValuesSet(s: string, cfg: GradleConfig): string {
    var s1 := SetRes(s, AppNameKey, cfg.appName);
    var s2 := SetRes(s1, WebUrlKey, cfg.webUrl);
    var s3 := SetRes(s2, AdjustTokenKey, cfg.adjustToken);
    SetRes(s3, EventTokenKey, cfg.eventToken)
  }

  /** The whole rewrite of `replaceResValues`. */
  function ResValuesReplaced(s: string, cfg: GradleConfig): string {
    ResValuesSet(AppIdReplaced(s, cfg.packageName), cfg)
  }

  /** The whole rewrite as the code does it. */
  function ResValuesReplacedAsWritten(s: string, cfg: GradleConfig): string {
    var s0 := AppIdReplacedAsWritten(s, cfg.packageName);
    var s1 := SetResAsWritten(s0, AppNameKey, cfg.appName);
    var s2 := SetResAsWritten(s1, WebUrlKey, cfg.webUrl);
    var s3 := SetResAsWritten(s2, AdjustTokenKey, cfg.adjustToken);
    SetResAsWritten(s3, EventTokenKey, cfg.eventToken)
  }

  /**
   * `replaceResValues(appGradlePath, config)`: the local `text` is read, rewritten step by step
   * and written back. A missing file makes the read throw: the `false` outcome, with nothing written.
   */
  method ReplaceResValues(fs: FileSystem, appGradlePath: Path, cfg: GradleConfig) returns (ok: bool)
    modifies fs
    ensures ok == (appGradlePath in old(fs.files) && old(fs.files)[appGradlePath].Text?)
    ensures ok ==> fs.files == old(fs.files)[appGradlePath := Text(ResValuesReplacedAsWritten(old(fs.files)[appGradlePath].text, cfg))]
    ensures !ok ==> fs.files == old(fs.files)
  {
    if appGradlePath !in fs.files || !fs.files[appGradlePath].Text? {
      return false;
    }
    var text := fs.files[appGradlePath].text;
    text := AppIdReplacedAsWritten(text, cfg.packageName);
    text := SetResAsWritten(text, AppNameKey, cfg.appName);
    text := SetResAsWritten(text, WebUrlKey, cfg.webUrl);
    text := SetResAsWritten(text, AdjustTokenKey, cfg.adjustToken);
    text := SetResAsWritten(text, EventTokenKey, cfg.eventToken);
    fs.Write(appGradlePath, Text(text));
    ok := true;
  }

  // ---------------------------------------------------------------------------
  // Reading a resValue back, and the properties of setRes.

  /**
   * The value of the first `resValue` line for `key`: the rest of its line must be
   * `, "<escaped value>"`.
   */
  function ReadRes(s: string, key: string): Option<string> {
    match FirstRes(s, key, 0) {
      case None => None
      case Some(i) =>
        var fe := ResFixedEnd(s, i, key).value;
        var rest := s[fe..LineEnd(s, fe)];
        if |rest| >= 4 && rest[..3] == ", \"" && rest[|rest| - 1] == '"' then Unescape(rest[3..|rest| - 1])
        else None
    }
  }

  lemma KeyFacts(key: string)
    requires ValidKey(key)
    ensures NoSpace(Quoted(key)) && NoSpace(ResValue) && NoSpace(StringType)
    ensures Quoted(key)[0] == '"' && StringType[0] == '"' && |Fixed(key)| == 21 + |key|
    ensures '$' !in key && NoJsLineTerminator(key)
  {
    assert forall k :: 0 <= k < |Quoted(key)| ==> Quoted(key)[k] == '"' || Quoted(key)[k] == key[k - 1];
  }

  lemma BackendKeysValid()
    ensures ValidKey(AppNameKey) && ValidKey(WebUrlKey) && ValidKey(AdjustTokenKey) && ValidKey(EventTokenKey)
  {
  }

  /** The fixed part of the canonical line at `w` is a match for `key` ending where that part ends. */
  lemma FixedMatches(t: string, w: nat, key: string)
    requires ValidKey(key) && StartsAt(t, Fixed(key), w)
    ensures ResFixedEnd(t, w, key) == Some(w + |Fixed(key)|)
  {
    KeyFacts(key);
    StartsAtConcat(t, ResValue + " " + StringType + " ", Quoted(key), w);
    StartsAtConcat(t, ResValue + " " + StringType, " ", w);
    StartsAtConcat(t, ResValue + " ", StringType, w);
    StartsAtConcat(t, ResValue, " ", w);
    CharAt(t, " ", w + 8, 0);
    CharAt(t, StringType, w + 9, 0);
    SkipSpacesUnique(t, w + 8, w + 9);
    CharAt(t, " ", w + 18, 0);
    CharAt(t, Quoted(key), w + 19, 0);
    SkipSpacesUnique(t, w + 18, w + 19);
  }

  /** The tail of the canonical line has no line terminator when the value has none. */
  lemma TailNoTerminator(value: string)
    requires NoJsLineTerminator(value)
    ensures NoJsLineTerminator(Tail(value))
  {
    var e := Escape(value);
    EscapeNoLineTerminator(value);
    var tail := Tail(value);
    forall k | 0 <= k < |tail|
      ensures !IsJsLineTerminator(tail[k])
    {
      if 3 <= k < 3 + |e| {
        assert tail[k] == e[k - 3];
      }
    }
  }

  /** `resValue\s+"string",` transfers from `t` to `s` under the conditions of `MatchTransfers`. */
  lemma AfterStringTypeTransfers(s: string, t: string, m: nat, w: nat, j: nat)
    requires m <= |s| && m < w < |t| && t[w] == 'r' && s[..m] == t[..m]
    requires forall k :: m <= k < w ==> IsJsSpace(t[k])
    requires j < m && AfterStringType(t, j).Some?
    ensures AfterStringType(s, j) == AfterStringType(t, j) && AfterStringType(t, j).value <= m
  {
    TypeLiterals();
    assert j + 8 <= m && StartsAt(s, ResValue, j) && StartsAt(t, ResValue, j) by {
      StaysBefore(t, ResValue, j, m);
      StartsAtLocal(s, t, m, ResValue, j);
    }
    SpacedLiteralTransfers(s, t, m, w, j + 8, StringType);
  }

  /** The two literals at the head of a `resValue` match hold no whitespace. */
  lemma TypeLiterals()
    ensures NoSpace(ResValue) && NoSpace(StringType) && StringType[0] == '"' && |ResValue| == 8
  {
  }

  /**
   * A match in `t` that starts inside a prefix `t` shares with `s`, where a run of whitespace
   * `t[m..w]` follows that prefix and an `r` follows the run, is the same match in `s`.
   */
  lemma MatchTransfers(s: string, t: string, m: nat, w: nat, key: string, j: nat)
    requires ValidKey(key)
    requires m <= |s| && m < w < |t| && t[w] == 'r' && s[..m] == t[..m]
    requires forall k :: m <= k < w ==> IsJsSpace(t[k])
    requires j < m && ResFixedEnd(t, j, key).Some?
    ensures ResFixedEnd(s, j, key) == ResFixedEnd(t, j, key)
  {
    KeyFacts(key);
    AfterStringTypeTransfers(s, t, m, w, j);
    var a := AfterStringType(t, j).value;
    SpacedLiteralTransfers(s, t, m, w, a, Quoted(key));
  }

  /**
   * When `s` has no match before `m`, and `t` agrees with `s` up to `m`, then has whitespace up
   * to `w` and a match at `w`, the leftmost match in `t` is at `w`.
   */
  lemma FirstMatchAt(s: string, t: string, m: nat, w: nat, key: string)
    requires ValidKey(key) && ResFixedEnd(t, w, key).Some?
    requires m <= |s| && m < w && s[..m] == t[..m]
    requires forall k :: m <= k < w ==> IsJsSpace(t[k])
    requires forall j :: 0 <= j < m ==> ResFixedEnd(s, j, key).None?
    ensures FirstRes(t, key, 0) == Some(w)
  {
    forall j | 0 <= j < m && ResFixedEnd(t, j, key).Some?
      ensures false
    {
      MatchTransfers(s, t, m, w, key, j);
    }
    FirstResUnique(t, key, w);
  }

  /** The canonical line is its indentation and fixed part, `29 + |key|` characters, then its tail. */
  lemma LineSplit(key: string, value: string)
    requires ValidKey(key)
    ensures Line(key, value) == (Indent + Fixed(key)) + Tail(value) && |Indent + Fixed(key)| == 29 + |key|
  {
    KeyFacts(key);
  }

  /** The indentation of a canonical line is eight spaces. */
  lemma LineAtIndent(t: string, st: nat, key: string, value: string)
    requires ValidKey(key) && StartsAt(t, Line(key, value), st)
    ensures forall k :: st <= k < st + 8 ==> IsHSpace(t[k]) && IsJsSpace(t[k])
  {
    LineSplit(key, value);
    StartsAtConcat(t, Indent + Fixed(key), Tail(value), st);
    StartsAtConcat(t, Indent, Fixed(key), st);
    forall k | st <= k < st + 8
      ensures t[k] == ' '
    {
      CharAt(t, Indent, st, k - st);
    }
  }

  /** A tail without line terminators, followed by a line end, is where `.*` stops. */
  lemma TailLineEnd(t: string, fe: nat, value: string)
    requires NoJsLineTerminator(value) && StartsAt(t, Tail(value), fe)
    requires fe + |Tail(value)| == |t| || IsJsLineTerminator(t[fe + |Tail(value)|])
    ensures LineEnd(t, fe) == fe + |Tail(value)|
  {
    var tail := Tail(value);
    TailNoTerminator(value);
    forall k | fe <= k < fe + |tail|
      ensures !IsJsLineTerminator(t[k])
    {
      CharAt(t, tail, fe, k - fe);
    }
    LineEndUnique(t, fe, fe + |tail|);
  }

  /** The indentation run that ends at a canonical line's `resValue` starts where the line starts. */
  lemma PlacedIndent(t: string, key: string, v: string, st: nat)
    requires ValidKey(key) && StartsAt(t, Line(key, v), st) && (st == 0 || !IsHSpace(t[st - 1]))
    ensures IndentStart(t, st + 8) == st
  {
    LineAtIndent(t, st, key, v);
    IndentStartUnique(t, st + 8, st);
  }

  /** Where the canonical line is, its fixed part is at `st + 8` and its tail at `st + 29 + |key|`. */
  lemma LineParts(t: string, st: nat, key: string, value: string)
    requires ValidKey(key) && StartsAt(t, Line(key, value), st)
    ensures StartsAt(t, Fixed(key), st + 8) && StartsAt(t, Tail(value), st + 29 + |key|)
    ensures |Line(key, value)| == 29 + |key| + |Tail(value)|
  {
    LineSplit(key, value);
    StartsAtConcat(t, Indent + Fixed(key), Tail(value), st);
    StartsAtConcat(t, Indent, Fixed(key), st);
  }

  /** The facts about a text that holds the canonical line at `st`, followed by a line end. */
  lemma LineAt(t: string, st: nat, key: string, value: string)
    requires ValidKey(key) && NoJsLineTerminator(value)
    requires StartsAt(t, Line(key, value), st)
    requires st + |Line(key, value)| == |t| || IsJsLineTerminator(t[st + |Line(key, value)|])
    ensures ResFixedEnd(t, st + 8, key) == Some(st + 29 + |key|)
    ensures LineEnd(t, st + 29 + |key|) == st + |Line(key, value)|
    ensures forall k :: st <= k < st + 8 ==> IsHSpace(t[k]) && IsJsSpace(t[k])
  {
    var fe := st + 29 + |key|;
    assert StartsAt(t, Fixed(key), st + 8) && StartsAt(t, Tail(value), fe) && fe + |Tail(value)| == st + |Line(key, value)| by {
      LineParts(t, st, key, value);
    }
    assert ResFixedEnd(t, st + 8, key) == Some(fe) by {
      FixedMatches(t, st + 8, key);
    }
    assert LineEnd(t, fe) == st + |Line(key, value)| by {
      TailLineEnd(t, fe, value);
    }
    LineAtIndent(t, st, key, value);
  }

  /**
   * `t` holds the canonical line for `key` and `v` at `st`; its `resValue` is the first match
   * for `key`, and the match's `.*` runs exactly to the end of that line.
   */
  predicate Placed(t: string, key: string, v: string, st: nat) {
    var L := Line(key, v);
    && StartsAt(t, L, st)
    && FirstRes(t, key, 0) == Some(st + 8)
    && ResFixedEnd(t, st + 8, key) == Some(st + 29 + |key|)
    && LineEnd(t, st + 29 + |key|) == st + |L|
  }

  /** What `Placed` says, one fact at a time. */
  lemma PlacedFacts(t: string, key: string, v: string, st: nat)
    requires Placed(t, key, v, st)
    ensures StartsAt(t, Line(key, v), st)
    ensures FirstRes(t, key, 0) == Some(st + 8) && ResFixedEnd(t, st + 8, key) == Some(st + 29 + |key|)
    ensures LineEnd(t, st + 29 + |key|) == st + |Line(key, v)|
  {
  }

  /**
   * A text that agrees with `s` up to `m`, has whitespace from `m` to `st` and the canonical line
   * at `st`, ended by a line terminator or the end of the text, has its first match for `key`
   * in that line, when `s` has none before `m`.
   */
  lemma CanonicalFirst(s: string, t: string, m: nat, st: nat, key: string, value: string)
    requires ValidKey(key) && NoJsLineTerminator(value)
    requires StartsAt(t, Line(key, value), st)
    requires st + |Line(key, value)| == |t| || IsJsLineTerminator(t[st + |Line(key, value)|])
    requires m <= st && m <= |s| && s[..m] == t[..m]
    requires forall k :: m <= k < st ==> IsJsSpace(t[k])
    requires forall j :: 0 <= j < m ==> ResFixedEnd(s, j, key).None?
    ensures Placed(t, key, value, st)
    ensures forall k :: st <= k < st + 8 ==> IsHSpace(t[k])
  {
    LineAt(t, st, key, value);
    FirstMatchAt(s, t, m, st + 8, key);
  }

  /** After a replacement of `s[st..e]` by the canonical line, the line is the first match. */
  lemma ReplacedLineFirst(s: string, key: string, value: string, st: nat, e: nat)
    requires ValidKey(key) && NoJsLineTerminator(value)
    requires st <= e <= |s| && (e == |s| || IsJsLineTerminator(s[e]))
    requires forall j :: 0 <= j < st ==> ResFixedEnd(s, j, key).None?
    ensures var t := ReplaceSpan(s, st, e, Line(key, value));
      && Placed(t, key, value, st)
      && (forall k :: st <= k < st + 8 ==> IsHSpace(t[k]))
      && (st == 0 || t[st - 1] == s[st - 1])
  {
    var L := Line(key, value);
    var t := ReplaceSpan(s, st, e, L);
    ReplaceSpanParts(s, st, e, L);
    assert e < |s| ==> t[st + |L|] == t[st + |L|..][0] == s[e..][0];
    CanonicalFirst(s, t, st, st, key, value);
    assert st == 0 || t[st - 1] == t[..st][st - 1] == s[..st][st - 1];
  }

  /** After the canonical line is inserted on its own line at `p`, it is the first match. */
  lemma InsertedAtFirst(s: string, t: string, key: string, value: string, p: nat)
    requires ValidKey(key) && NoJsLineTerminator(value)
    requires p <= |s| && forall j :: 0 <= j < p ==> ResFixedEnd(s, j, key).None?
    requires p + |Line(key, value)| + 1 < |t| && t[..p] == s[..p]
    requires t[p] == '\n' && StartsAt(t, Line(key, value), p + 1) && t[p + 1 + |Line(key, value)|] == '\n'
    ensures Placed(t, key, value, p + 1)
    ensures forall k :: p + 1 <= k < p + 9 ==> IsHSpace(t[k])
  {
    CanonicalFirst(s, t, p, p + 1, key, value);
  }

  /** The inserted line sits on a line of its own, right after the insertion point. */
  lemma InsertedShape(s: string, line: string)
    requires InsertionPoint(s).Some?
    ensures var p := InsertionPoint(s).value; var t := Inserted(s, line);
      && p + |line| + 1 < |t| && t[..p] == s[..p]
      && t[p] == '\n' && StartsAt(t, line, p + 1) && t[p + 1 + |line|] == '\n'
  {
    var p := InsertionPoint(s).value;
    var t := Inserted(s, line);
    var mid := t[p..p + |line| + 2];
    assert mid == "\n" + line + "\n";
    assert t[p] == mid[0];
    assert t[p + 1 + |line|] == mid[|line| + 1];
    assert t[p + 1..p + 1 + |line|] == mid[1..|line| + 1];
  }

  /** After the insertion of the canonical line, the line is the first match. */
  lemma InsertedLineFirst(s: string, key: string, value: string)
    requires ValidKey(key) && NoJsLineTerminator(value)
    requires InsertionPoint(s).Some? && FirstRes(s, key, 0).None?
    ensures var t := Inserted(s, Line(key, value)); var st := InsertionPoint(s).value + 1;
      && Placed(t, key, value, st)
      && (forall k :: st <= k < st + 8 ==> IsHSpace(t[k]))
      && t[st - 1] == '\n'
  {
    var p := InsertionPoint(s).value;
    var L := Line(key, value);
    var t := Inserted(s, L);
    InsertedShape(s, L);
    NoResUpTo(s, key, p);
    InsertedAtFirst(s, t, key, value, p);
  }

  /** The span the corrected `setRes` replaces: from the indentation before the match to its line end. */
  lemma MatchLineBounds(s: string, key: string, i: nat, fe: nat)
    requires FirstRes(s, key, 0) == Some(i) && ResFixedEnd(s, i, key) == Some(fe)
    ensures var st := IndentStart(s, i); var e := LineEnd(s, fe);
      && st <= i <= e <= |s| && (e == |s| || IsJsLineTerminator(s[e]))
      && (st == 0 || !IsHSpace(s[st - 1]))
      && forall j :: 0 <= j < i ==> ResFixedEnd(s, j, key).None?
  {
    LineEndSpec(s, fe);
    IndentStartSpec(s, i);
    NoResUpTo(s, key, i);
  }

  /** The replacement branch of the corrected `setRes` places the line where the indentation began. */
  lemma ReplacedPlaced(s: string, key: string, v: string, i: nat, fe: nat, st: nat, e: nat)
    requires ValidKey(key) && NoJsLineTerminator(v) && FirstRes(s, key, 0) == Some(i) && ResFixedEnd(s, i, key) == Some(fe)
    requires st == IndentStart(s, i) && e == LineEnd(s, fe)
    ensures st <= e <= |s|
    ensures var t := ReplaceSpan(s, st, e, Line(key, v)); Placed(t, key, v, st) && IndentStart(t, st + 8) == st
  {
    MatchLineBounds(s, key, i, fe);
    ReplacedLinePlaced(s, key, v, st, e);
  }

  /** A canonical line put over a whole line with no match before it is placed, and is its own indentation. */
  lemma ReplacedLinePlaced(s: string, key: string, v: string, st: nat, e: nat)
    requires ValidKey(key) && NoJsLineTerminator(v)
    requires st <= e <= |s| && (e == |s| || IsJsLineTerminator(s[e])) && (st == 0 || !IsHSpace(s[st - 1]))
    requires forall j :: 0 <= j < st ==> ResFixedEnd(s, j, key).None?
    ensures var t := ReplaceSpan(s, st, e, Line(key, v)); Placed(t, key, v, st) && IndentStart(t, st + 8) == st
  {
    var t := ReplaceSpan(s, st, e, Line(key, v));
    ReplacedLineFirst(s, key, v, st, e);
    PlacedIndent(t, key, v, st);
  }

  /** The replacement branch of the code as written places the line at the old match. */
  lemma ReplacedAsWrittenPlaced(s: string, key: string, v: string, i: nat)
    requires ValidKey(key) && NoJsLineTerminator(v) && FirstRes(s, key, 0) == Some(i)
    ensures Placed(ReplaceSpan(s, i, LineEnd(s, ResFixedEnd(s, i, key).value), Line(key, v)), key, v, i)
  {
    var fe := ResFixedEnd(s, i, key).value;
    var e := LineEnd(s, fe);
    MatchLineBounds(s, key, i, fe);
    ReplacedLineFirst(s, key, v, i, e);
  }

  /** The insertion branch places the line just after the inserted newline. */
  lemma InsertedPlaced(s: string, key: string, v: string) returns (st: nat)
    requires ValidKey(key) && NoJsLineTerminator(v)
    requires InsertionPoint(s).Some? && FirstRes(s, key, 0).None?
    ensures st == InsertionPoint(s).value + 1
    ensures var t := Inserted(s, Line(key, v)); Placed(t, key, v, st) && IndentStart(t, st + 8) == st
  {
    st := InsertionPoint(s).value + 1;
    InsertedLineFirst(s, key, v);
    PlacedIndent(Inserted(s, Line(key, v)), key, v, st);
  }

  /** What the corrected `setRes` leaves: the canonical line at `st`, found first, indented from `st`. */
  lemma SetResPlacesLine(s: string, key: string, value: Option<string>) returns (st: nat)
    requires ValidKey(key) && Truthy(value) && NoJsLineTerminator(value.value)
    requires FirstRes(s, key, 0).Some? || InsertionPoint(s).Some?
    ensures var t := SetRes(s, key, value); Placed(t, key, value.value, st) && IndentStart(t, st + 8) == st
  {
    var v := value.value;
    if FirstRes(s, key, 0).Some? {
      var i := FirstRes(s, key, 0).value;
      st := IndentStart(s, i);
      var fe := ResFixedEnd(s, i, key).value;
      var e := LineEnd(s, fe);
      ReplacedPlaced(s, key, v, i, fe, st, e);
      SetResSpan(s, key, value, i, st, e);
    } else {
      st := InsertedPlaced(s, key, v);
    }
  }

  /** A placed line reads back as the value it was written with. */
  lemma ReadPlaced(t: string, key: string, v: string, st: nat)
    requires ValidKey(key) && Placed(t, key, v, st)
    ensures ReadRes(t, key) == Some(v)
  {
    LineSplit(key, v);
    StartsAtConcat(t, Indent + Fixed(key), Tail(v), st);
    ReadAt(t, key, st + 8, st + 29 + |key|, v);
  }

  /** The tail's text between `, "` and the closing quote is the escaped value. */
  lemma TailParts(v: string)
    ensures var tail := Tail(v);
      |tail| >= 4 && tail[..3] == ", \"" && tail[|tail| - 1] == '"' && tail[3..|tail| - 1] == Escape(v)
  {
  }

  /** A first match whose `.*` is exactly a tail reads back as the tail's value. */
  lemma ReadAt(t: string, key: string, i: nat, fe: nat, v: string)
    requires FirstRes(t, key, 0) == Some(i) && ResFixedEnd(t, i, key) == Some(fe)
    requires StartsAt(t, Tail(v), fe) && LineEnd(t, fe) == fe + |Tail(v)|
    ensures ReadRes(t, key) == Some(v)
  {
    TailParts(v);
    assert t[fe..LineEnd(t, fe)] == Tail(v);
    EscapeRoundTrip(v);
  }

  /** Where the corrected `setRes` puts the canonical line, the value reads back. */
  lemma SetResReadsBack(s: string, key: string, value: Option<string>)
    requires ValidKey(key) && Truthy(value) && NoJsLineTerminator(value.value)
    requires FirstRes(s, key, 0).Some? || InsertionPoint(s).Some?
    ensures ReadRes(SetRes(s, key, value), key) == Some(value.value)
  {
    var st := SetResPlacesLine(s, key, value);
    ReadPlaced(SetRes(s, key, value), key, value.value, st);
  }

  /** The corrected `setRes` leaves a text with the line already placed, from its indentation on, unchanged. */
  lemma SetResOnPlaced(t: string, key: string, value: Option<string>, st: nat)
    requires Truthy(value) && Placed(t, key, value.value, st) && IndentStart(t, st + 8) == st
    ensures SetRes(t, key, value) == t
  {
    var L := Line(key, value.value);
    PlacedFacts(t, key, value.value, st);
    SetResKept(t, key, value, L, st + 8, st, st + 29 + |key|, st + |L|);
  }

  /** The corrected `setRes` keeps a text whose first match's line, from its indentation on, is already `L`. */
  lemma SetResKept(t: string, key: string, value: Option<string>, L: string, i: nat, st: nat, fe: nat, e: nat)
    requires Truthy(value) && L == Line(key, value.value)
    requires FirstRes(t, key, 0) == Some(i) && IndentStart(t, i) == st
    requires ResFixedEnd(t, i, key) == Some(fe) && LineEnd(t, fe) == e
    requires e == st + |L| && StartsAt(t, L, st)
    ensures SetRes(t, key, value) == t
  {
    SetResSpan(t, key, value, i, st, e);
    ReplaceSpanSame(t, st, e, L);
  }

  /** When a match exists, the corrected `setRes` replaces the span from its indentation to its line end. */
  lemma SetResSpan(t: string, key: string, value: Option<string>, i: nat, st: nat, e: nat)
    requires Truthy(value) && FirstRes(t, key, 0) == Some(i)
    requires IndentStart(t, i) == st && LineEnd(t, ResFixedEnd(t, i, key).value) == e
    ensures st <= e <= |t| && SetRes(t, key, value) == ReplaceSpan(t, st, e, Line(key, value.value))
  {
  }

  /** Running the corrected `setRes` a second time with the same value leaves the text unchanged. */
  lemma SetResIdempotent(s: string, key: string, value: Option<string>)
    requires ValidKey(key) && NoJsLineTerminator(value.GetOr(""))
    ensures SetRes(SetRes(s, key, value), key, value) == SetRes(s, key, value)
  {
    if !Truthy(value) || (FirstRes(s, key, 0).None? && InsertionPoint(s).None?) {
      return;
    }
    var st := SetResPlacesLine(s, key, value);
    SetResOnPlaced(SetRes(s, key, value), key, value, st);
  }

  /** The same facts for the code as written, whose replacement starts at `resValue` itself. */
  lemma SetResAsWrittenPlacesLine(s: string, key: string, value: Option<string>) returns (st: nat)
    requires ValidKey(key) && Truthy(value) && NoJsLineTerminator(value.value) && '$' !in value.value
    requires FirstRes(s, key, 0).Some? || InsertionPoint(s).Some?
    ensures Placed(SetResAsWritten(s, key, value), key, value.value, st)
  {
    var v := value.value;
    DollarFreeLine(key, v);
    if FirstRes(s, key, 0).Some? {
      var i := FirstRes(s, key, 0).value;
      st := i;
      ReplacedAsWrittenPlaced(s, key, v, i);
      assert SetResAsWritten(s, key, value) == ReplaceSpan(s, i, LineEnd(s, ResFixedEnd(s, i, key).value), Line(key, v));
    } else {
      st := InsertedPlaced(s, key, v);
    }
  }

  /**
   * The code's `setRes` reads back: after it, the first `resValue` line for `key` holds the
   * value, as long as the value has no `$` for `replace` to expand.
   */
  lemma SetResAsWrittenReadsBack(s: string, key: string, value: Option<string>)
    requires ValidKey(key) && Truthy(value) && NoJsLineTerminator(value.value) && '$' !in value.value
    requires FirstRes(s, key, 0).Some? || InsertionPoint(s).Some?
    ensures ReadRes(SetResAsWritten(s, key, value), key) == Some(value.value)
  {
    var st := SetResAsWrittenPlacesLine(s, key, value);
    ReadPlaced(SetResAsWritten(s, key, value), key, value.value, st);
  }

  /** On a placed line the code as written replaces from `resValue` on, keeping the indentation in front. */
  lemma AsWrittenOnPlaced(t: string, key: string, value: Option<string>, st: nat)
    requires Truthy(value) && Placed(t, key, value.value, st) && '$' !in Line(key, value.value)
    ensures |SetResAsWritten(t, key, value)| == |t| + 8
  {
    var L := Line(key, value.value);
    PlacedFacts(t, key, value.value, st);
    AsWrittenAt(t, key, value, st + 8, st + 29 + |key|, st + |L|);
  }

  /** The code's `setRes` on a text whose first match for `key` is at `i`, its line ending at `e`. */
  lemma AsWrittenAt(t: string, key: string, value: Option<string>, i: nat, fe: nat, e: nat)
    requires Truthy(value) && FirstRes(t, key, 0) == Some(i) && ResFixedEnd(t, i, key) == Some(fe) && LineEnd(t, fe) == e
    ensures i <= e <= |t| && SetResAsWritten(t, key, value) == ReplaceSpanAsWritten(t, i, e, Line(key, value.value))
  {
  }

  /**
   * The code as written is not idempotent: whenever `setRes` writes a line, running it again
   * adds eight more characters of indentation in front of that line.
   */
  lemma SetResAsWrittenGrows(s: string, key: string, value: Option<string>)
    requires ValidKey(key) && Truthy(value) && NoJsLineTerminator(value.value) && '$' !in value.value
    requires FirstRes(s, key, 0).Some? || InsertionPoint(s).Some?
    ensures |SetResAsWritten(SetResAsWritten(s, key, value), key, value)| == |SetResAsWritten(s, key, value)| + 8
  {
    DollarFreeLine(key, value.value);
    var st := SetResAsWrittenPlacesLine(s, key, value);
    AsWrittenOnPlaced(SetResAsWritten(s, key, value), key, value, st);
  }

  lemma DollarFreeLine(key: string, v: string)
    requires ValidKey(key) && '$' !in v
    ensures '$' !in Line(key, v)
  {
    KeyFacts(key);
    EscapeKeepsOtherChars(v, '$');
    var q := Quoted(key);
    assert '$' !in q by {
      assert forall k :: 0 <= k < |q| ==> q[k] == '"' || q[k] == key[k - 1];
    }
  }

  /**
   * The `$` expansion as written: a package name `$&` puts the matched text back instead of the
   * name, so the new `applicationId` line is not the one the configuration asks for.
   */
  lemma AppIdAsWrittenExpandsDollar(s: string)
    requires FirstAppId(s, 0).Some?
    ensures var (i, e) := FirstAppId(s, 0).value;
      && AppIdReplacedAsWritten(s, Some("$&")) == s[..i] + "applicationId \"" + s[i..e] + "\"" + s[e..]
      && AppIdReplacedAsWritten(s, Some("$&")) != AppIdReplaced(s, Some("$&"))
  {
    var (i, e) := FirstAppId(s, 0).value;
    MatchedLine(s, i, e);
    assert |AppIdReplacedAsWritten(s, Some("$&"))| == |s| + 16;
    assert |AppIdReplaced(s, Some("$&"))| == |s| - (e - i) + 18;
  }

  /** Expanding the line template for the name `$&` over `s[i..e]` puts `s[i..e]` where the name goes. */
  lemma MatchedLine(s: string, i: nat, e: nat)
    requires i <= e <= |s|
    ensures ReplaceSpanAsWritten(s, i, e, AppIdLine("$&")) == s[..i] + "applicationId \"" + s[i..e] + "\"" + s[e..]
  {
    var head := "applicationId \"";
    assert AppIdLine("$&") == head + "$&" + "\"";
    ReplaceSpanMatched(s, i, e, head, "\"");
  }
}
