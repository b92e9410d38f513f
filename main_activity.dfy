/**
 * The URL handling of the app's MainActivity.java: which navigations the WebView keeps, which
 * go to the main WebView, which leave the app, and `buildAppLink`, which rewrites a web link to
 * a social network into that network's app scheme before it is opened.
 *
 * A URL that may be Java's `null` is an `Option<string>`. What a navigation does beyond its
 * return value is an `Effect`; starting an activity is the list of URIs `openExternal` tries.
 * `buildAppLink` is called outside any `try`, so its exception leaves `openExternal` and the
 * WebView callback that called it: the `Thrown` decision.
 */
module MainActivity {
  import opened Wrappers
  import opened Text

  const OwnDomain: string := "go606.com"
  const OwnDomain3: string := "3go606.com"
  const OwnDomain1: string := "1go606.com"

  const TelegramPath: string := "t.me/"
  const FacebookPath: string := "facebook.com/"
  const InstagramPath: string := "instagram.com/"
  const WhatsAppChannelPath: string := "whatsapp.com/channel/"
  const XPath: string := "x.com/"
  const TwitterPath: string := "twitter.com/"
  const ComSlash: string := ".com/"

  const TelegramScheme: string := "tg://resolve?domain="
  const FacebookScheme: string := "fb://facewebmodal/f?href="
  const InstagramScheme: string := "instagram://user?username="
  const TwitterScheme: string := "twitter://user?screen_name="

  // ---------------------------------------------------------------------------
  // Classification.

  /** `url.contains("3go606.com") || url.contains("go606.com") || url.contains("1go606.com")`. */
  predicate IsOwnDomain(url: string) {
    Contains(url, OwnDomain3) || Contains(url, OwnDomain) || Contains(url, OwnDomain1)
  }

  /** The two longer domains end with `go606.com`, so the test is one `contains`. */
  lemma OwnDomainIsGo606(url: string)
    ensures IsOwnDomain(url) <==> Contains(url, OwnDomain)
  {
    assert OwnDomain3 == "3" + OwnDomain && OwnDomain1 == "1" + OwnDomain;
    if Contains(url, OwnDomain3) {
      ContainsSuffixOfPattern(url, "3", OwnDomain);
    }
    if Contains(url, OwnDomain1) {
      ContainsSuffixOfPattern(url, "1", OwnDomain);
    }
  }

  /** No character of `go606.com` is one `trim` strips. */
  lemma OwnDomainNotTrimmable()
    ensures OwnDomain != [] && forall k :: 0 <= k < |OwnDomain| ==> !IsTrimmable(OwnDomain[k])
  {
  }

  /** What a navigation does besides its return value. */
  datatype Effect =
    | NoEffect                  // nothing: the WebView loads the URL itself, or nothing happens
    | External(url: string)     // `openExternal(url)`
    | LoadInMain(url: string)   // the main WebView is told to load the URL

  /**
   * The return value of `shouldOverrideUrlLoading` (`true`: the WebView does not load it) and
   * the effect, or the exception that ends the callback instead.
   */
  datatype Decision = Decision(overridden: bool, effect: Effect) | Thrown

  /** `openExternal(url)` as the callbacks reach it: it throws, or it returns having started the URL's attempts. */
  function Opened(url: string): (d: Decision)
    ensures d.Thrown? <==> ExternalAttempts(Some(url)).Throws?
    ensures d.Decision? ==> d == Decision(true, External(url))
  {
    if ExternalAttempts(Some(url)).Throws? then Thrown else Decision(true, External(url))
  }

  /**
   * `handleUrl` of the main WebView: `null` is let through; a URL on the app's own domain is
   * loaded in the WebView; any other URL is trimmed and opened outside it.
   */
  function HandleUrl(raw: Option<string>): (d: Decision)
    ensures raw.None? ==> d == Decision(false, NoEffect)
    ensures raw.Some? && Contains(raw.value, OwnDomain) ==> d == Decision(false, NoEffect)
    ensures raw.Some? && !Contains(raw.value, OwnDomain) ==>
      (d.Thrown? <==> ExternalAttempts(Some(Trim(raw.value))).Throws?)
      && (d.Decision? ==> d == Decision(true, External(Trim(raw.value))))
  {
    match raw
    case None => Decision(false, NoEffect)
    case Some(r) =>
      var url := Trim(r);
      OwnDomainIsGo606(url);
      OwnDomainNotTrimmable();
      TrimKeepsContains(r, OwnDomain);
      if IsOwnDomain(url) then Decision(false, NoEffect) else Opened(url)
  }

  /** No character of `s` is one that `.` of a Java pattern leaves out. */
  predicate NoJavaLineTerminator(s: string) {
    forall k :: 0 <= k < |s| ==> !IsJavaLineTerminator(s[k])
  }

  /** `s` ends with `t`. */
  predicate EndsWith(s: string, t: string) {
    |t| <= |s| && s[|s| - |t|..] == t
  }

  /** `s` ends with the extension of a PNG or JPEG image. */
  predicate EndsWithImageExtension(s: string) {
    EndsWith(s, ".png") || EndsWith(s, ".jpg") || EndsWith(s, ".jpeg")
  }

  /**
   * The language of `.*\.(png|jpg|jpeg)(\?.*)?$` under `String.matches`, which must match the
   * whole string: no line terminator anywhere, and an image extension at the end or right
   * before a `?`.
   */
  ghost predicate ImagePattern(url: string) {
    && NoJavaLineTerminator(url)
    && (|| EndsWithImageExtension(url)
        || exists i :: 0 <= i < |url| && url[i] == '?' && EndsWithImageExtension(url[..i]))
  }

  /** Some `?` at or after `from` has an image extension right before it. */
  function ExtensionBeforeQuery(url: string, from: nat): (b: bool)
    requires from <= |url|
    decreases |url| - from
    ensures b <==> exists i :: from <= i < |url| && url[i] == '?' && EndsWithImageExtension(url[..i])
  {
    if from == |url| then false
    else (url[from] == '?' && EndsWithImageExtension(url[..from])) || ExtensionBeforeQuery(url, from + 1)
  }

  /** `url.matches(".*\\.(png|jpg|jpeg)(\\?.*)?$")`. */
  function IsImageUrl(url: string): (b: bool)
    ensures b <==> ImagePattern(url)
  {
    NoJavaLineTerminator(url) && (EndsWithImageExtension(url) || ExtensionBeforeQuery(url, 0))
  }

  /**
   * `handleNewWebViewUrl` of a window opened by the page: `null` is let through; an image goes
   * outside the app even on the app's own domain; the app's own domain is loaded in the main
   * WebView; anything else goes outside. The new window never loads a URL itself.
   */
  function HandleNewWebViewUrl(url: Option<string>): (d: Decision)
    ensures url.None? ==> d == Decision(false, NoEffect)
    ensures url.Some? && !ImagePattern(url.value) && Contains(url.value, OwnDomain) ==> d == Decision(true, LoadInMain(url.value))
    ensures url.Some? && (ImagePattern(url.value) || !Contains(url.value, OwnDomain)) ==>
      (d.Thrown? <==> ExternalAttempts(url).Throws?)
      && (d.Decision? ==> d == Decision(true, External(url.value)))
  {
    match url
    case None => Decision(false, NoEffect)
    case Some(u) =>
      OwnDomainIsGo606(u);
      if IsImageUrl(u) then Opened(u)
      else if IsOwnDomain(u) then Decision(true, LoadInMain(u))
      else Opened(u)
  }

  // ---------------------------------------------------------------------------
  // Java's `String.split` with a one-character class and `[0]`.

  /** The index of the first delimiter in `s`, or `|s|`. */
  function FirstDelimiter(s: string, delims: set<char>): (i: nat)
    ensures i <= |s| && (i < |s| ==> s[i] in delims)
    ensures forall k :: 0 <= k < i ==> s[k] !in delims
  {
    if s == [] || s[0] in delims then 0 else 1 + FirstDelimiter(s[1..], delims)
  }

  /** The text before the first delimiter: `s.split(re)[0]` where the split gives at least one piece. */
  function FirstField(s: string, delims: set<char>): (r: string)
    ensures forall c :: c in delims ==> c !in r
    ensures |r| <= |s| && s[..|r|] == r
    ensures |r| == |s| || s[|r|] in delims
  {
    s[..FirstDelimiter(s, delims)]
  }

  /** The pieces between delimiters, empty ones included: one more than there are delimiters. */
  function Pieces(s: string, delims: set<char>): (r: seq<string>)
    ensures |r| >= 1
    decreases |s|
  {
    if s == [] then [""]
    else if s[0] in delims then [""] + Pieces(s[1..], delims)
    else
      var rest := Pieces(s[1..], delims);
      [[s[0]] + rest[0]] + rest[1..]
  }

  /** The first piece is the text before the first delimiter, and every piece is empty exactly when every character is a delimiter. */
  lemma {:induction false} PiecesSpec(s: string, delims: set<char>)
    ensures Pieces(s, delims)[0] == FirstField(s, delims)
    ensures (forall j :: 0 <= j < |Pieces(s, delims)| ==> Pieces(s, delims)[j] == "")
        <==> (forall k :: 0 <= k < |s| ==> s[k] in delims)
    decreases |s|
  {
    if s != [] {
      PiecesSpec(s[1..], delims);
      var rest := Pieces(s[1..], delims);
      var r := Pieces(s, delims);
      if s[0] in delims {
        assert r == [""] + rest;
        assert (forall j :: 0 <= j < |r| ==> r[j] == "") <==> (forall j :: 0 <= j < |rest| ==> rest[j] == "") by {
          assert forall j :: 0 < j < |r| ==> r[j] == rest[j - 1];
          assert forall j :: 0 <= j < |rest| ==> rest[j] == r[j + 1];
        }
        assert (forall k :: 0 <= k < |s| ==> s[k] in delims) <==> (forall k :: 0 <= k < |s| - 1 ==> s[1..][k] in delims) by {
          assert forall k :: 0 < k < |s| ==> s[k] == s[1..][k - 1];
          assert forall k :: 0 <= k < |s| - 1 ==> s[1..][k] == s[k + 1];
        }
      } else {
        var n := FirstDelimiter(s[1..], delims);
        assert r[0] == [s[0]] + rest[0] && r[0] != "";
        assert FirstDelimiter(s, delims) == 1 + n;
        assert s[..1 + n] == [s[0]] + s[1..][..n] by {
          assert s == [s[0]] + s[1..];
        }
      }
    }
  }

  /** The pieces without the empty ones at the end. */
  function DropTrailingEmpty(ps: seq<string>): (r: seq<string>)
    ensures |r| <= |ps| && r == ps[..|r|]
    ensures r == [] <==> forall j :: 0 <= j < |ps| ==> ps[j] == ""
    ensures r != [] ==> r[|r| - 1] != ""
  {
    if ps == [] then []
    else if ps[|ps| - 1] == "" then DropTrailingEmpty(ps[..|ps| - 1])
    else ps
  }

  /** Java's `s.split(re)` for a pattern matching one character of `delims`. */
  function JavaSplit(s: string, delims: set<char>): seq<string> {
    if s == [] then [""] else DropTrailingEmpty(Pieces(s, delims))
  }

  /** `s.split(re)[0]` as Java evaluates it: `None` is the `ArrayIndexOutOfBoundsException` of an empty result. */
  function SplitFirstAsWritten(s: string, delims: set<char>): (r: Option<string>)
  {
    var parts := JavaSplit(s, delims);
    if |parts| == 0 then None else Some(parts[0])
  }

  /** The split throws exactly on a non-empty text made only of delimiters; otherwise it gives the first field. */
  lemma SplitFirstAsWrittenSpec(s: string, delims: set<char>)
    ensures var r := SplitFirstAsWritten(s, delims);
      && (r.None? <==> s != [] && forall k :: 0 <= k < |s| ==> s[k] in delims)
      && (r.Some? ==> r.value == FirstField(s, delims))
  {
    PiecesSpec(s, delims);
  }

  // ---------------------------------------------------------------------------
  // buildAppLink.

  /** The rule of `buildAppLink` that applies to a URL: the first whose test holds. */
  datatype LinkRule = Telegram | Facebook | Instagram | WhatsAppChannel | Twitter | Unchanged

  function RuleOf(url: string): LinkRule {
    if Contains(url, TelegramPath) then Telegram
    else if Contains(url, FacebookPath) then Facebook
    else if Contains(url, InstagramPath) then Instagram
    else if Contains(url, WhatsAppChannelPath) then WhatsAppChannel
    else if Contains(url, XPath) || Contains(url, TwitterPath) then Twitter
    else Unchanged
  }

  /** The text after the last `/`; `url` has one under the Telegram and X rules. */
  function AfterLastSlash(url: string): (r: string)
    ensures '/' !in r && |r| <= |url| && url[|url| - |r|..] == r
    ensures |r| < |url| ==> url[|url| - |r| - 1] == '/'
  {
    url[LastIndexOf(url, '/') + 1..]
  }

  /** The text after the first `.com/`, which an Instagram URL has. */
  function AfterFirstCom(url: string): (r: string)
    requires Contains(url, ComSlash)
    ensures |r| < |url| && url[|url| - |r|..] == r && StartsAt(url, ComSlash, |url| - |r| - |ComSlash|)
    ensures forall k :: 0 <= k < |url| - |r| - |ComSlash| ==> !StartsAt(url, ComSlash, k)
  {
    var i := IndexOf(url, ComSlash);
    url[i + |ComSlash|..]
  }

  /** An Instagram or X URL contains `/`, and an Instagram URL contains `.com/`. */
  lemma RulePatterns(url: string)
    ensures RuleOf(url) == Instagram ==> Contains(url, ComSlash)
    ensures RuleOf(url) == Telegram || RuleOf(url) == Twitter ==> '/' in url
  {
    assert InstagramPath == "instagram" + ComSlash;
    if RuleOf(url) == Instagram {
      ContainsSuffixOfPattern(url, "instagram", ComSlash);
    }
    var p := if RuleOf(url) == Telegram then TelegramPath else if Contains(url, XPath) then XPath else TwitterPath;
    if RuleOf(url) == Telegram || RuleOf(url) == Twitter {
      assert p == p[..|p| - 1] + "/";
      ContainsSuffixOfPattern(url, p[..|p| - 1], "/");
      var i :| 0 <= i <= |url| - 1 && StartsAt(url, "/", i);
      assert url[i] == "/"[0];
    }
  }

  const InstagramDelimiters: set<char> := {'/', '?'}
  const TwitterDelimiters: set<char> := {'?'}

  /**
   * `buildAppLink(url)` as the code writes it: `None` is the exception a `split(..)[0]` throws
   * when the segment it splits is made only of delimiters.
   */
  function BuildAppLinkAsWritten(url: string): (r: Option<string>)
  {
    match RuleOf(url)
    case Telegram => Some(TelegramScheme + AfterLastSlash(url))
    case Facebook => Some(FacebookScheme + url)
    case Instagram =>
      RulePatterns(url);
      (match SplitFirstAsWritten(AfterFirstCom(url), InstagramDelimiters)
       case None => None
       case Some(user) => Some(InstagramScheme + user))
    case WhatsAppChannel => Some(url)
    case Twitter =>
      (match SplitFirstAsWritten(AfterLastSlash(url), TwitterDelimiters)
       case None => None
       case Some(user) => Some(TwitterScheme + user))
    case Unchanged => Some(url)
  }

  /**
   * `buildAppLink(url)` with the user name taken as the text before the first delimiter, empty
   * when the segment is made only of delimiters: Telegram gets the text after the last `/`,
   * Facebook the whole URL, Instagram the text after the first `.com/` up to a `/` or `?`,
   * X the text after the last `/` up to a `?`; WhatsApp channels and other URLs are kept.
   */
  function BuildAppLink(url: string): (r: string)
    ensures RuleOf(url) == Telegram ==> r == TelegramScheme + AfterLastSlash(url)
    ensures RuleOf(url) == Facebook ==> r == FacebookScheme + url
    ensures RuleOf(url) == Instagram ==> Contains(url, ComSlash) && r == InstagramScheme + FirstField(AfterFirstCom(url), InstagramDelimiters)
    ensures RuleOf(url) == Twitter ==> r == TwitterScheme + FirstField(AfterLastSlash(url), TwitterDelimiters)
    ensures RuleOf(url) == WhatsAppChannel || RuleOf(url) == Unchanged ==> r == url
  {
    RulePatterns(url);
    match RuleOf(url)
    case Telegram => TelegramScheme + AfterLastSlash(url)
    case Facebook => FacebookScheme + url
    case Instagram => InstagramScheme + FirstField(AfterFirstCom(url), InstagramDelimiters)
    case WhatsAppChannel => url
    case Twitter => TwitterScheme + FirstField(AfterLastSlash(url), TwitterDelimiters)
    case Unchanged => url
  }

  /** Wherever the code's `buildAppLink` returns, it returns the corrected link. */
  lemma BuildAppLinkAgrees(url: string)
    ensures BuildAppLinkAsWritten(url).Some? ==> BuildAppLinkAsWritten(url).value == BuildAppLink(url)
  {
    RulePatterns(url);
    if RuleOf(url) == Instagram {
      SplitFirstAsWrittenSpec(AfterFirstCom(url), InstagramDelimiters);
    } else if RuleOf(url) == Twitter {
      SplitFirstAsWrittenSpec(AfterLastSlash(url), TwitterDelimiters);
    }
  }

  /** A pattern with a character the text lacks does not occur in it. */
  lemma MissingCharacter(s: string, p: string, c: char)
    requires c in p && c !in s
    ensures !Contains(s, p)
  {
    var k :| 0 <= k < |p| && p[k] == c;
    forall i | 0 <= i <= |s| - |p|
      ensures !StartsAt(s, p, i)
    {
      assert s[i..i + |p|][k] == s[i + k];
    }
  }

  const XQueryUrl: string := "https://x.com/?"

  /** A letter of each rule's pattern before the X rule. */
  lemma PatternLetters()
    ensures 'e' in TelegramPath && 'f' in FacebookPath && 'i' in InstagramPath && 'w' in WhatsAppChannelPath
  {
    assert TelegramPath[3] == 'e' && FacebookPath[0] == 'f' && InstagramPath[0] == 'i' && WhatsAppChannelPath[0] == 'w';
  }

  /** None of those letters is in `https://x.com/?`. */
  lemma XQueryUrlLetters()
    ensures 'e' !in XQueryUrl && 'f' !in XQueryUrl && 'i' !in XQueryUrl && 'w' !in XQueryUrl
  {
  }

  /** `https://x.com/?` falls under the X rule, and its last segment is `?`. */
  lemma XQueryOnly()
    ensures RuleOf(XQueryUrl) == Twitter
    ensures AfterLastSlash(XQueryUrl) == "?"
  {
    var url := XQueryUrl;
    PatternLetters();
    XQueryUrlLetters();
    MissingCharacter(url, TelegramPath, 'e');
    MissingCharacter(url, FacebookPath, 'f');
    MissingCharacter(url, InstagramPath, 'i');
    MissingCharacter(url, WhatsAppChannelPath, 'w');
    assert StartsAt(url, XPath, 8);
    assert url[14] == '?' && url[13] == '/';
    assert LastIndexOf(url, '/') == 13;
  }

  /** The code's `buildAppLink` throws on `https://x.com/?`, whose last segment is only `?`. */
  lemma BuildAppLinkAsWrittenThrows()
    ensures BuildAppLinkAsWritten(XQueryUrl).None?
    ensures BuildAppLink(XQueryUrl) == TwitterScheme
  {
    XQueryOnly();
    SplitFirstAsWrittenSpec("?", TwitterDelimiters);
    assert FirstField("?", TwitterDelimiters) == "";
  }

  /** With a user name, the Telegram link names the text after the last `/`. */
  lemma TelegramLink(user: string)
    requires '/' !in user
    ensures BuildAppLink("https://t.me/" + user) == TelegramScheme + user
  {
    var url := "https://t.me/" + user;
    assert StartsAt(url, TelegramPath, 8);
    assert url[12] == '/';
    assert LastIndexOf(url, '/') == 12;
    assert AfterLastSlash(url) == user;
  }

  // ---------------------------------------------------------------------------
  // openExternal.

  /**
   * What `openExternal` does: the URIs it hands to `startActivity`, in order, until one
   * starts, or the exception of `buildAppLink`, which no `try` around the call catches.
   */
  datatype Launch = Attempts(uris: seq<string>) | Throws

  /**
   * `openExternal(url)`: nothing for `null` or an empty URL; otherwise the app link first,
   * then the URL itself, unless building the app link throws.
   */
  function ExternalAttempts(url: Option<string>): (r: Launch)
    ensures url.None? || url.value == "" <==> r == Attempts([])
    ensures r.Throws? <==> url.Some? && url.value != "" && BuildAppLinkAsWritten(url.value).None?
    ensures r.Attempts? && r.uris != [] ==> r.uris == [BuildAppLink(url.value), url.value]
  {
    if url.None? || url.value == "" then Attempts([])
    else
      BuildAppLinkAgrees(url.value);
      match BuildAppLinkAsWritten(url.value)
      case None => Throws
      case Some(link) => Attempts([link, url.value])
  }

  /** A link that no rule rewrites is tried twice, as itself. */
  lemma PlainLinkTriedTwice(url: string)
    requires url != "" && RuleOf(url) == Unchanged
    ensures ExternalAttempts(Some(url)) == Attempts([url, url])
  {
  }

  /** `https://x.com/?`, reached from either WebView, ends the callback with the exception of `buildAppLink`. */
  lemma XQueryUrlThrows()
    ensures HandleUrl(Some(XQueryUrl)) == Thrown
    ensures HandleNewWebViewUrl(Some(XQueryUrl)) == Thrown
  {
    BuildAppLinkAsWrittenThrows();
    XQueryFacts();
    WithoutGNoImage(XQueryUrl);
  }

  /** `https://x.com/?` has no `g`, so it is not on the app's own domain, and `trim` keeps it. */
  lemma XQueryFacts()
    ensures 'g' !in XQueryUrl && !Contains(XQueryUrl, OwnDomain)
    ensures Trim(XQueryUrl) == XQueryUrl
  {
    assert OwnDomain[0] == 'g';
    MissingCharacter(XQueryUrl, OwnDomain, 'g');
    assert !IsTrimmable(XQueryUrl[0]) && !IsTrimmable(XQueryUrl[|XQueryUrl| - 1]);
  }

  /** Every image extension ends with `g`, so a URL without `g` is no image. */
  lemma WithoutGNoImage(url: string)
    requires 'g' !in url
    ensures !ImagePattern(url)
  {
    forall t | EndsWithImageExtension(t)
      ensures 'g' in t
    {
      assert t[|t| - 1] == 'g';
    }
    assert forall i :: 0 <= i < |url| ==> 'g' !in url[..i];
  }

  /** `handleUrl` on blank text opens nothing: the trimmed URL is empty and `openExternal` returns at once. */
  lemma BlankUrlOpensNothing(raw: string)
    requires forall k :: 0 <= k < |raw| ==> IsTrimmable(raw[k])
    ensures HandleUrl(Some(raw)) == Decision(true, External(""))
    ensures ExternalAttempts(Some(Trim(raw))) == Attempts([])
  {
    assert Trim(raw) == [];
    assert !Contains(raw, OwnDomain) by {
      if Contains(raw, OwnDomain) {
        var i :| 0 <= i <= |raw| - |OwnDomain| && StartsAt(raw, OwnDomain, i);
        CharAt(raw, OwnDomain, i, 0);
      }
    }
  }
}
