/**
 * String primitives shared by the editors and by the Android app model:
 * the character classes of JavaScript and Java regular expressions,
 * substring search, Java's String.trim, and the replacement-template
 * expansion that JavaScript's String.prototype.replace applies to a
 * replacement given as a string.
 */
module Text {
  import opened Wrappers

  /** JavaScript truthiness of an optional string: present and non-empty. */
  predicate Truthy(o: Option<string>) {
    o.Some? && o.value != ""
  }

  /** The characters matched by `\s` in a JavaScript regular expression. */
  predicate IsJsSpace(c: char) {
    || c == ' ' || c == '\t' || c == '\n' || c == '\r'
    || c == '\U{000B}' || c == '\U{000C}' || c == '\U{00A0}' || c == '\U{1680}'
    || ('\U{2000}' <= c <= '\U{200A}')
    || c == '\U{2028}' || c == '\U{2029}' || c == '\U{202F}' || c == '\U{205F}'
    || c == '\U{3000}' || c == '\U{FEFF}'
  }

  /** The characters that `.` does not match in a JavaScript regular expression without the `s` flag. */
  predicate IsJsLineTerminator(c: char) {
    c == '\n' || c == '\r' || c == '\U{2028}' || c == '\U{2029}'
  }

  /** The characters that `.` does not match in a Java regular expression by default. */
  predicate IsJavaLineTerminator(c: char) {
    c == '\n' || c == '\r' || c == '\U{0085}' || c == '\U{2028}' || c == '\U{2029}'
  }

  predicate NoJsLineTerminator(s: string) {
    forall k :: 0 <= k < |s| ==> !IsJsLineTerminator(s[k])
  }

  /** `p` occurs in `s` starting at index `i`. */
  predicate StartsAt(s: string, p: string, i: int) {
    0 <= i && i + |p| <= |s| && s[i..i + |p|] == p
  }

  /** Java's `String.contains` and JavaScript's `String.prototype.includes`. */
  predicate Contains(s: string, p: string) {
    exists i :: 0 <= i <= |s| - |p| && StartsAt(s, p, i)
  }

  /** The first index at or after `from` where `p` occurs in `s`, or -1 (`indexOf(p, from)`). */
  function IndexOfFrom(s: string, p: string, from: nat): (r: int)
    decreases |s| - from
    ensures -1 <= r
    ensures r == -1 ==> forall k :: from <= k ==> !StartsAt(s, p, k)
    ensures r >= 0 ==> from <= r && StartsAt(s, p, r)
    ensures r >= 0 ==> forall k :: from <= k < r ==> !StartsAt(s, p, k)
  {
    if from + |p| > |s| then -1
    else if s[from..from + |p|] == p then from
    else IndexOfFrom(s, p, from + 1)
  }

  /** The first index where `p` occurs in `s`, or -1 (`indexOf(p)`). */
  function IndexOf(s: string, p: string): (r: int)
    ensures r == -1 <==> !Contains(s, p)
    ensures r >= 0 ==> StartsAt(s, p, r) && forall k :: 0 <= k < r ==> !StartsAt(s, p, k)
  {
    IndexOfFrom(s, p, 0)
  }

  /** The last index of character `c` in `s`, or -1 (`lastIndexOf` with a one-character argument). */
  function LastIndexOf(s: string, c: char): (r: int)
    ensures -1 <= r < |s|
    ensures r == -1 <==> c !in s
    ensures r >= 0 ==> s[r] == c && forall k :: r < k < |s| ==> s[k] != c
  {
    if |s| == 0 then -1
    else if s[|s| - 1] == c then |s| - 1
    else LastIndexOf(s[..|s| - 1], c)
  }

  /** The first index at or after `from` that holds `c`, or `|s|` when there is none. */
  function CharFrom(s: string, c: char, from: nat): (r: nat)
    requires from <= |s|
    decreases |s| - from
    ensures from <= r <= |s| && (r < |s| ==> s[r] == c)
  {
    if from == |s| || s[from] == c then from else CharFrom(s, c, from + 1)
  }

  /** `CharFrom` skips no occurrence of `c`. */
  lemma {:induction false} CharFromFirst(s: string, c: char, from: nat, k: nat)
    requires from <= |s| && from <= k < CharFrom(s, c, from)
    ensures s[k] != c
    decreases k - from
  {
    if from < k {
      CharFromFirst(s, c, from + 1, k);
    }
  }

  /** An occurrence with none before it, from `from` on, is what `CharFrom` finds. */
  lemma {:induction false} CharFromAt(s: string, c: char, from: nat, q: nat)
    requires from <= q < |s| && s[q] == c
    requires forall k :: from <= k < q ==> s[k] != c
    ensures CharFrom(s, c, from) == q
    decreases q - from
  {
    if from < q {
      CharFromAt(s, c, from + 1, q);
    }
  }

  /** The characters of an occurrence. */
  lemma CharAt(s: string, p: string, x: int, k: int)
    requires StartsAt(s, p, x) && 0 <= k < |p|
    ensures s[x + k] == p[k]
  {
    assert s[x + k] == s[x..x + |p|][k];
  }

  /** `p` occurs at `x` in `p1 + p2` exactly when `p1` occurs at `x` and `p2` right after it. */
  lemma StartsAtConcat(s: string, p1: string, p2: string, x: int)
    ensures StartsAt(s, p1 + p2, x) <==> StartsAt(s, p1, x) && StartsAt(s, p2, x + |p1|)
  {
    if StartsAt(s, p1 + p2, x) {
      assert s[x..x + |p1|] == s[x..x + |p1| + |p2|][..|p1|];
      assert s[x + |p1|..x + |p1| + |p2|] == s[x..x + |p1| + |p2|][|p1|..];
    }
    if StartsAt(s, p1, x) && StartsAt(s, p2, x + |p1|) {
      assert s[x..x + |p1| + |p2|] == s[x..x + |p1|] + s[x + |p1|..x + |p1| + |p2|];
    }
  }

  /** An occurrence that lies inside a common prefix of two strings is an occurrence in both. */
  lemma StartsAtLocal(s: string, t: string, m: nat, p: string, x: int)
    requires m <= |s| && m <= |t| && s[..m] == t[..m]
    requires 0 <= x && x + |p| <= m
    ensures StartsAt(s, p, x) <==> StartsAt(t, p, x)
  {
    assert s[x..x + |p|] == s[..m][x..x + |p|];
    assert t[x..x + |p|] == t[..m][x..x + |p|];
  }

  /** Occurrences of a longer pattern contain occurrences of each of its suffixes. */
  lemma {:induction false} ContainsSuffixOfPattern(s: string, p: string, q: string)
    requires Contains(s, p + q)
    ensures Contains(s, q)
  {
    var i :| 0 <= i <= |s| - |p + q| && StartsAt(s, p + q, i);
    assert s[i + |p|..i + |p| + |q|] == (p + q)[|p|..];
    assert StartsAt(s, q, i + |p|);
  }

  lemma SliceOfSlice(s: string, a: nat, b: nat, i: nat, j: nat)
    requires a <= b <= |s| && i <= j <= b - a
    ensures s[a..b][i..j] == s[a + i..a + j]
  {
    assert forall k :: 0 <= k < j - i ==> s[a..b][i..j][k] == s[a + i + k];
  }

  // ---------------------------------------------------------------------------
  // Scanning runs of characters.

  /** The end of the run of `\s` characters starting at `i` (what a greedy `\s*` consumes). */
  function SkipSpaces(s: string, i: nat): (j: nat)
    requires i <= |s|
    decreases |s| - i
    ensures i <= j <= |s|
  {
    if i < |s| && IsJsSpace(s[i]) then SkipSpaces(s, i + 1) else i
  }

  /** The run consists of whitespace and stops at the first character that is not. */
  lemma {:induction false} SkipSpacesSpec(s: string, i: nat)
    requires i <= |s|
    decreases |s| - i
    ensures forall k :: i <= k < SkipSpaces(s, i) ==> IsJsSpace(s[k])
    ensures SkipSpaces(s, i) == |s| || !IsJsSpace(s[SkipSpaces(s, i)])
  {
    if i < |s| && IsJsSpace(s[i]) {
      SkipSpacesSpec(s, i + 1);
    }
  }

  /** The end of a run is determined by its start. */
  lemma {:induction false} SkipSpacesUnique(s: string, i: nat, j: nat)
    requires i <= j <= |s|
    requires forall k :: i <= k < j ==> IsJsSpace(s[k])
    requires j == |s| || !IsJsSpace(s[j])
    ensures SkipSpaces(s, i) == j
    decreases j - i
  {
    if i < j {
      SkipSpacesUnique(s, i + 1, j);
    }
  }

  /** A run that ends inside a common prefix ends at the same place in both strings. */
  lemma SkipSpacesLocal(s: string, t: string, m: nat, a: nat)
    requires a <= m <= |s| && m <= |t| && s[..m] == t[..m]
    requires SkipSpaces(t, a) < m
    ensures SkipSpaces(s, a) == SkipSpaces(t, a)
  {
    var b := SkipSpaces(t, a);
    SkipSpacesSpec(t, a);
    assert forall k :: 0 <= k < m ==> s[k] == s[..m][k] && t[k] == t[..m][k];
    SkipSpacesUnique(s, a, b);
  }

  /**
   * A run starting at or before `m`, where `t[m..w]` is all whitespace and `t[w]` is not, either
   * ends before `m` or exactly at `w`.
   */
  lemma SkipSpacesAcross(t: string, a: nat, m: nat, w: nat)
    requires a <= m < w < |t|
    requires forall k :: m <= k < w ==> IsJsSpace(t[k])
    requires !IsJsSpace(t[w])
    ensures SkipSpaces(t, a) < m || SkipSpaces(t, a) == w
  {
    SkipSpacesSpec(t, a);
    if SkipSpaces(t, a) >= m {
      SkipSpacesUnique(t, m, w);
      SkipSpacesSuffix(t, a, m);
    }
  }

  /** A run that reaches `m` ends where the run starting at `m` ends. */
  lemma {:induction false} SkipSpacesSuffix(s: string, a: nat, m: nat)
    requires a <= m <= |s| && m <= SkipSpaces(s, a)
    decreases m - a
    ensures SkipSpaces(s, a) == SkipSpaces(s, m)
  {
    if a < m {
      SkipSpacesSpec(s, a);
      assert IsJsSpace(s[a]);
      SkipSpacesSuffix(s, a + 1, m);
    }
  }

  /**
   * A `\s*` run followed by a space-free literal `p`, starting at or before `m` in `t`, where
   * `t[m..w]` is whitespace and `t[w]` can start neither, lies before `m`: it is found in every
   * `s` that agrees with `t` up to `m`.
   */
  lemma SpacedLiteralTransfers(s: string, t: string, m: nat, w: nat, a: nat, p: string)
    requires NoSpace(p) && p != []
    requires a <= m < w < |t| && m <= |s| && s[..m] == t[..m]
    requires forall k :: m <= k < w ==> IsJsSpace(t[k])
    requires !IsJsSpace(t[w]) && t[w] != p[0]
    requires StartsAt(t, p, SkipSpaces(t, a))
    ensures SkipSpaces(s, a) == SkipSpaces(t, a) && SkipSpaces(t, a) + |p| <= m
    ensures StartsAt(s, p, SkipSpaces(s, a))
  {
    SkipSpacesAcross(t, a, m, w);
    var b := SkipSpaces(t, a);
    if b == w {
      CharAt(t, p, b, 0);
    }
    SkipSpacesLocal(s, t, m, a);
    StaysBefore(t, p, b, m);
    StartsAtLocal(s, t, m, p, b);
  }

  /** The first line terminator at or after `i`, or the end of the text: where a greedy `.*` stops. */
  function LineEnd(s: string, i: nat): (j: nat)
    requires i <= |s|
    decreases |s| - i
    ensures i <= j <= |s|
  {
    if i < |s| && !IsJsLineTerminator(s[i]) then LineEnd(s, i + 1) else i
  }

  /** The line runs up to, and not past, the first line terminator. */
  lemma {:induction false} LineEndSpec(s: string, i: nat)
    requires i <= |s|
    decreases |s| - i
    ensures forall k :: i <= k < LineEnd(s, i) ==> !IsJsLineTerminator(s[k])
    ensures LineEnd(s, i) == |s| || IsJsLineTerminator(s[LineEnd(s, i)])
  {
    if i < |s| && !IsJsLineTerminator(s[i]) {
      LineEndSpec(s, i + 1);
    }
  }

  lemma {:induction false} LineEndUnique(s: string, i: nat, j: nat)
    requires i <= j <= |s|
    requires forall k :: i <= k < j ==> !IsJsLineTerminator(s[k])
    requires j == |s| || IsJsLineTerminator(s[j])
    ensures LineEnd(s, i) == j
    decreases j - i
  {
    if i < j {
      LineEndUnique(s, i + 1, j);
    }
  }

  /** A space or a tab. */
  predicate IsHSpace(c: char) {
    c == ' ' || c == '\t'
  }

  /** The start of the run of spaces and tabs that ends at `i`. */
  function IndentStart(s: string, i: nat): (st: nat)
    requires i <= |s|
    ensures st <= i
  {
    if i > 0 && IsHSpace(s[i - 1]) then IndentStart(s, i - 1) else i
  }

  /** The run consists of spaces and tabs and is preceded by neither. */
  lemma {:induction false} IndentStartSpec(s: string, i: nat)
    requires i <= |s|
    ensures forall k :: IndentStart(s, i) <= k < i ==> IsHSpace(s[k])
    ensures IndentStart(s, i) == 0 || !IsHSpace(s[IndentStart(s, i) - 1])
  {
    if i > 0 && IsHSpace(s[i - 1]) {
      IndentStartSpec(s, i - 1);
    }
  }

  lemma {:induction false} IndentStartUnique(s: string, i: nat, st: nat)
    requires st <= i <= |s|
    requires forall k :: st <= k < i ==> IsHSpace(s[k])
    requires st == 0 || !IsHSpace(s[st - 1])
    ensures IndentStart(s, i) == st
    decreases i - st
  {
    if st < i {
      IndentStartUnique(s, i - 1, st);
    }
  }

  /** No character of `p` is matched by `\s`. */
  predicate NoSpace(p: string) {
    forall k :: 0 <= k < |p| ==> !IsJsSpace(p[k])
  }

  /**
   * An occurrence of a space-free `p` that starts before `m`, where `t[m]` is whitespace, ends
   * at or before `m`.
   */
  lemma StaysBefore(t: string, p: string, x: nat, m: nat)
    requires NoSpace(p) && StartsAt(t, p, x)
    requires x < m < |t| && IsJsSpace(t[m])
    ensures x + |p| <= m
  {
  }

  // ---------------------------------------------------------------------------
  // Java's String.trim: strip every leading and trailing character <= U+0020.

  predicate IsTrimmable(c: char) {
    c <= ' '
  }

  function TrimStart(s: string): (r: string)
    ensures |r| <= |s| && r == s[|s| - |r|..]
    ensures forall k :: 0 <= k < |s| - |r| ==> IsTrimmable(s[k])
    ensures r == [] || !IsTrimmable(r[0])
  {
    if |s| > 0 && IsTrimmable(s[0]) then TrimStart(s[1..]) else s
  }

  function TrimEnd(s: string): (r: string)
    ensures |r| <= |s| && r == s[..|r|]
    ensures forall k :: |r| <= k < |s| ==> IsTrimmable(s[k])
    ensures r == [] || !IsTrimmable(r[|r| - 1])
  {
    if |s| > 0 && IsTrimmable(s[|s| - 1]) then TrimEnd(s[..|s| - 1]) else s
  }

  /** Java's `String.trim()`. */
  function Trim(s: string): (r: string)
    ensures |r| <= |s|
    ensures r == [] || (!IsTrimmable(r[0]) && !IsTrimmable(r[|r| - 1]))
  {
    TrimEnd(TrimStart(s))
  }

  /** Dropping a trimmable prefix keeps the occurrences of a pattern that starts with a non-trimmable character. */
  lemma {:induction false} ContainsDropLeading(s: string, n: nat, p: string)
    requires n <= |s| && p != [] && !IsTrimmable(p[0])
    requires forall k :: 0 <= k < n ==> IsTrimmable(s[k])
    ensures Contains(s[n..], p) <==> Contains(s, p)
  {
    if Contains(s[n..], p) {
      var i :| 0 <= i <= |s[n..]| - |p| && StartsAt(s[n..], p, i);
      SliceOfSlice(s, n, |s|, i, i + |p|);
      assert StartsAt(s, p, n + i);
    }
    if Contains(s, p) {
      var i :| 0 <= i <= |s| - |p| && StartsAt(s, p, i);
      assert s[i] == p[0];
      SliceOfSlice(s, n, |s|, i - n, i - n + |p|);
      assert StartsAt(s[n..], p, i - n);
    }
  }

  /** Dropping a trimmable suffix keeps the occurrences of a pattern that ends with a non-trimmable character. */
  lemma {:induction false} ContainsDropTrailing(s: string, n: nat, p: string)
    requires n <= |s| && p != [] && !IsTrimmable(p[|p| - 1])
    requires forall k :: n <= k < |s| ==> IsTrimmable(s[k])
    ensures Contains(s[..n], p) <==> Contains(s, p)
  {
    if Contains(s[..n], p) {
      var i :| 0 <= i <= |s[..n]| - |p| && StartsAt(s[..n], p, i);
      SliceOfSlice(s, 0, n, i, i + |p|);
      assert StartsAt(s, p, i);
    }
    if Contains(s, p) {
      var i :| 0 <= i <= |s| - |p| && StartsAt(s, p, i);
      assert s[i + |p| - 1] == p[|p| - 1];
      SliceOfSlice(s, 0, n, i, i + |p|);
      assert StartsAt(s[..n], p, i);
    }
  }

  /** A pattern none of whose characters is trimmable occurs in `s` exactly when it occurs in `Trim(s)`. */
  lemma {:induction false} TrimKeepsContains(s: string, p: string)
    requires p != []
    requires forall k :: 0 <= k < |p| ==> !IsTrimmable(p[k])
    ensures Contains(Trim(s), p) <==> Contains(s, p)
  {
    var t := TrimStart(s);
    ContainsDropLeading(s, |s| - |t|, p);
    ContainsDropTrailing(t, |TrimEnd(t)|, p);
  }

  // ---------------------------------------------------------------------------
  // Replacement strings of JavaScript's String.prototype.replace.

  /**
   * The text that `String.prototype.replace(pattern, template)` inserts for one match when
   * the pattern has no capture groups: `$$` gives `$`, `$&` the matched text, `` $` `` the
   * text before the match, `$'` the text after it; every other character, including a `$`
   * that starts none of these, is copied.
   */
  function ExpandTemplate(template: string, before: string, matched: string, after: string): string
    decreases |template|
  {
    if |template| == 0 then ""
    else if template[0] == '$' && |template| >= 2 && template[1] == '$' then
      "$" + ExpandTemplate(template[2..], before, matched, after)
    else if template[0] == '$' && |template| >= 2 && template[1] == '&' then
      matched + ExpandTemplate(template[2..], before, matched, after)
    else if template[0] == '$' && |template| >= 2 && template[1] == '`' then
      before + ExpandTemplate(template[2..], before, matched, after)
    else if template[0] == '$' && |template| >= 2 && template[1] == '\'' then
      after + ExpandTemplate(template[2..], before, matched, after)
    else
      [template[0]] + ExpandTemplate(template[1..], before, matched, after)
  }

  /** A template without `$` is inserted verbatim. */
  lemma {:induction false} ExpandWithoutDollar(template: string, before: string, matched: string, after: string)
    requires '$' !in template
    ensures ExpandTemplate(template, before, matched, after) == template
  {
    if |template| > 0 {
      assert '$' !in template[1..];
      ExpandWithoutDollar(template[1..], before, matched, after);
    }
  }

  /** A `$`-free prefix of a template is copied as it is. */
  lemma {:induction false} ExpandConcatNoDollar(t1: string, t2: string, before: string, matched: string, after: string)
    requires '$' !in t1
    ensures ExpandTemplate(t1 + t2, before, matched, after) == t1 + ExpandTemplate(t2, before, matched, after)
  {
    if |t1| > 0 {
      assert (t1 + t2)[0] == t1[0];
      assert (t1 + t2)[1..] == t1[1..] + t2;
      assert '$' !in t1[1..];
      ExpandConcatNoDollar(t1[1..], t2, before, matched, after);
    } else {
      assert t1 + t2 == t2;
    }
  }

  /** `$&` in a template stands for the matched text. */
  lemma ExpandMatched(t1: string, t2: string, before: string, matched: string, after: string)
    requires '$' !in t1 && '$' !in t2
    ensures ExpandTemplate(t1 + "$&" + t2, before, matched, after) == t1 + matched + t2
  {
    var rest := "$&" + t2;
    assert t1 + "$&" + t2 == t1 + rest;
    ExpandConcatNoDollar(t1, rest, before, matched, after);
    assert rest[0] == '$' && rest[1] == '&' && rest[2..] == t2;
    ExpandWithoutDollar(t2, before, matched, after);
  }

  /** Replace `s[i..j]` by `template` as `String.prototype.replace` does with a string replacement. */
  function ReplaceSpanAsWritten(s: string, i: nat, j: nat, template: string): (r: string)
    requires i <= j <= |s|
    ensures '$' !in template ==> r == s[..i] + template + s[j..]
  {
    var e := ExpandTemplate(template, s[..i], s[i..j], s[j..]);
    assert '$' !in template ==> e == template by {
      if '$' !in template { ExpandWithoutDollar(template, s[..i], s[i..j], s[j..]); }
    }
    s[..i] + e + s[j..]
  }
  /** A template `t1 + "$&" + t2` without other `$` puts the replaced span back between `t1` and `t2`. */
  lemma ReplaceSpanMatched(s: string, i: nat, j: nat, t1: string, t2: string)
    requires i <= j <= |s| && '$' !in t1 && '$' !in t2
    ensures ReplaceSpanAsWritten(s, i, j, t1 + "$&" + t2) == s[..i] + t1 + s[i..j] + t2 + s[j..]
  {
    ExpandMatched(t1, t2, s[..i], s[i..j], s[j..]);
  }


  /** Replace `s[i..j]` by `r` literally. */
  function ReplaceSpan(s: string, i: nat, j: nat, r: string): (t: string)
    requires i <= j <= |s|
    ensures |t| == |s| - (j - i) + |r|
  {
    s[..i] + r + s[j..]
  }

  /** The text before the span is kept, `r` takes the span's place, and the text after it follows. */
  lemma ReplaceSpanParts(s: string, i: nat, j: nat, r: string)
    requires i <= j <= |s|
    ensures var t := ReplaceSpan(s, i, j, r);
      t[..i] == s[..i] && StartsAt(t, r, i) && t[i + |r|..] == s[j..]
  {
    var t := ReplaceSpan(s, i, j, r);
    assert t[i..i + |r|] == r;
  }

  /** Replacing a span by the text it already holds changes nothing. */
  lemma ReplaceSpanSame(s: string, i: nat, j: nat, r: string)
    requires StartsAt(s, r, i) && j == i + |r|
    ensures ReplaceSpan(s, i, j, r) == s
  {
    assert s == s[..i] + s[i..j] + s[j..];
  }

  /** The first span of `s` that starts with `open` and ends with the first `close` after it. */
  function DelimitedSpan(s: string, open: string, close: string): (r: Option<(nat, nat)>)
    ensures r.None? <==> (!Contains(s, open) || IndexOfFrom(s, close, IndexOf(s, open) + |open|) < 0)
    ensures r.Some? ==> var (a, b) := r.value;
      && a + |open| + |close| <= b <= |s|
      && a == IndexOf(s, open)
      && StartsAt(s, close, b - |close|)
      && forall k :: a + |open| <= k < b - |close| ==> !StartsAt(s, close, k)
  {
    var a := IndexOf(s, open);
    if a < 0 then None
    else
      var k := IndexOfFrom(s, close, a + |open|);
      if k < 0 then None else Some((a, k + |close|))
  }

  // ---------------------------------------------------------------------------
  // Number.prototype.toString on a non-negative integer, as `Date.now().toString()` uses it.

  predicate IsDigit(c: char) {
    '0' <= c <= '9'
  }

  /** The decimal digits of `n`, without sign or leading zeros. */
  function DecimalString(n: nat): (s: string)
    ensures |s| >= 1
  {
    var d := [(('0' as int) + n % 10) as char];
    if n < 10 then d else DecimalString(n / 10) + d
  }

  /** The value of a string of decimal digits. */
  function DecimalValue(s: string): nat {
    if s == [] then 0
    else 10 * DecimalValue(s[..|s| - 1]) + ((s[|s| - 1] as int) - ('0' as int)) % 10
  }

  /** Every character of a decimal rendering is a digit: in particular, none is a `-`. */
  lemma {:induction false} DecimalDigits(n: nat)
    ensures forall k :: 0 <= k < |DecimalString(n)| ==> IsDigit(DecimalString(n)[k])
  {
    if n >= 10 {
      DecimalDigits(n / 10);
    }
  }

  /** Reading a rendering back gives the number: distinct numbers have distinct renderings. */
  lemma {:induction false} DecimalRoundTrip(n: nat)
    ensures DecimalValue(DecimalString(n)) == n
  {
    var s := DecimalString(n);
    if n >= 10 {
      DecimalRoundTrip(n / 10);
      assert s[..|s| - 1] == DecimalString(n / 10);
    }
  }
}
