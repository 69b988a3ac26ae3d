/**
 * The admin diagnostic endpoint (src/app/api/admin/debug-gallery/route.ts):
 * after a session check it fetches the album page and reports what each URL
 * pattern finds on it. The cookie jar, the session verifier and the fetch
 * are inputs.
 */
module DebugGallery {
  import opened Wrappers
  import opened Text
  import opened Seqs
  import opened Scanner

  /** The cookie the route reads, as written (route.ts:13). */
  const CookieAsWritten: string := "admin-session"
  /** The cookie the login route sets (`SESSION_COOKIE`, src/lib/auth.ts:14). */
  const SessionCookie: string := "admin_session"

  const SampleSize: nat := 3
  const ExcerptLength: nat := 600
  const ContextBefore: nat := 50
  const ContextAfter: nat := 200
  const NotFound: string := "NOT FOUND"

  /** What the album fetch returns: status, final URL and body. */
  datatype AlbumPage = AlbumPage(status: int, finalUrl: string, html: string)

  /** The JSON report of a successful request. */
  datatype Report = Report(
    httpStatus: int, finalUrl: string, htmlLengthChars: nat, lh3Mentions: nat,
    patternACount: nat, patternBCount: nat, patternCCount: nat,
    patternASample: seq<string>, patternCSample: seq<string>,
    excerptStart: string, lh3Context: string)

  datatype DebugResponse = Unauthorized | Diagnostics(report: Report) | DebugError

  function Status(r: DebugResponse): nat {
    match r
    case Unauthorized => 401
    case Diagnostics(_) => 200
    case DebugError => 500
  }

  /** `[...new Set(tokens)]` for the tokens pattern `p` captures on the normalised text. */
  function DistinctTokens(p: Pattern, norm: string): seq<string> {
    Dedup(AllMatches(p, norm))
  }

  /** The lh3 excerpt: `norm.slice(Math.max(0, idx - 50), idx + 200)`, or "NOT FOUND". */
  function Lh3Context(norm: string): string {
    match IndexOf(norm, Mention)
    case None => NotFound
    case Some(idx) =>
      var from := if idx < ContextBefore then 0 else idx - ContextBefore;
      var to := if idx + ContextAfter < |norm| then idx + ContextAfter else |norm|;
      norm[from..to]
  }

  /** The report for a fetched page (route.ts:28-53). */
  function Diagnose(page: AlbumPage): (r: Report)
    ensures r.httpStatus == page.status && r.finalUrl == page.finalUrl && r.htmlLengthChars == |page.html|
    ensures |r.patternASample| == (if r.patternACount < SampleSize then r.patternACount else SampleSize)
    ensures |r.patternCSample| == (if r.patternCCount < SampleSize then r.patternCCount else SampleSize)
    ensures |r.excerptStart| <= ExcerptLength && |r.excerptStart| <= |page.html| && r.excerptStart == page.html[..|r.excerptStart|]
    ensures |page.html| >= ExcerptLength ==> |r.excerptStart| == ExcerptLength
  {
    var norm := Normalise(page.html);
    var a := DistinctTokens(FullUrl, norm);
    var b := DistinctTokens(ProtocolRelative, norm);
    var c := DistinctTokens(BareId, norm);
    Report(page.status, page.finalUrl, |page.html|, |AllMatches(Lh3Mention, norm)|,
      |a|, |b|, |c|, Take(a, SampleSize), Take(c, SampleSize),
      Take(page.html, ExcerptLength), Lh3Context(norm))
  }

  /** `!token || !(await verifySession(token))` for the cookie named `cookieName`. */
  predicate Rejected(cookies: map<string, string>, cookieName: string, verify: string -> bool) {
    cookieName !in cookies || cookies[cookieName] == "" || !verify(cookies[cookieName])
  }

  /** `GET()` reading the session from cookie `cookieName`; `fetch` is `None` when the album fetch throws. */
  function Handle(cookies: map<string, string>, cookieName: string, verify: string -> bool, fetch: Option<AlbumPage>): (r: DebugResponse)
    ensures r.Unauthorized? <==> Rejected(cookies, cookieName, verify)
    ensures r.DebugError? <==> !Rejected(cookies, cookieName, verify) && fetch.None?
    ensures r.Diagnostics? ==> fetch.Some? && r.report == Diagnose(fetch.value)
  {
    if Rejected(cookies, cookieName, verify) then Unauthorized
    else if fetch.None? then DebugError
    else Diagnostics(Diagnose(fetch.value))
  }

  /**
   * The route as written: it looks for the session under `admin-session`, so
   * it answers 401 exactly when that cookie is missing, empty or rejected.
   */
  function GetAsWritten(cookies: map<string, string>, verify: string -> bool, fetch: Option<AlbumPage>): (r: DebugResponse)
    ensures Status(r) == 401 <==> Rejected(cookies, CookieAsWritten, verify)
    ensures Status(r) == 500 <==> !Rejected(cookies, CookieAsWritten, verify) && fetch.None?
    ensures Status(r) == 200 ==> fetch.Some? && r == Diagnostics(Diagnose(fetch.value))
  {
    Handle(cookies, CookieAsWritten, verify, fetch)
  }

  /** The route reading the cookie the login route sets, `admin_session`. */
  function Get(cookies: map<string, string>, verify: string -> bool, fetch: Option<AlbumPage>): (r: DebugResponse)
    ensures Status(r) == 401 <==> Rejected(cookies, SessionCookie, verify)
    ensures Status(r) == 500 <==> !Rejected(cookies, SessionCookie, verify) && fetch.None?
    ensures Status(r) == 200 ==> fetch.Some? && r == Diagnostics(Diagnose(fetch.value))
  {
    Handle(cookies, SessionCookie, verify, fetch)
  }

  /** A rejected request is answered 401 whatever the album holds: the album is not fetched. */
  lemma UnauthorizedWithoutFetch(cookies: map<string, string>, cookieName: string, verify: string -> bool, f1: Option<AlbumPage>, f2: Option<AlbumPage>)
    requires Rejected(cookies, cookieName, verify)
    ensures Handle(cookies, cookieName, verify, f1) == Handle(cookies, cookieName, verify, f2) == Unauthorized
  {
  }

  /** The cookies a browser holds after logging in: the session token under `admin_session`. */
  function LoginCookies(token: string): map<string, string> {
    map[SessionCookie := token]
  }

  /** As written, an admin who has just logged in is refused, whatever the token. */
  lemma LoggedInRefusedAsWritten(token: string, verify: string -> bool, fetch: Option<AlbumPage>)
    ensures GetAsWritten(LoginCookies(token), verify, fetch) == Unauthorized
  {
    assert CookieAsWritten != SessionCookie by {
      assert CookieAsWritten[5] != SessionCookie[5];
    }
  }

  /** Reading `admin_session`, a logged-in admin with a valid token gets the report. */
  lemma LoggedInServed(token: string, verify: string -> bool, page: AlbumPage)
    requires token != "" && verify(token)
    ensures Get(LoginCookies(token), verify, Some(page)) == Diagnostics(Diagnose(page))
  {
  }

  /**
   * Each count is the number of distinct captured tokens (zero exactly when the
   * pattern matches nowhere) and each sample the first three of them, distinct,
   * in first-occurrence order.
   */
  lemma CountsAndSamples(page: AlbumPage, p: Pattern)
    requires p != Lh3Mention
    ensures var norm := Normalise(page.html);
      var d := DistinctTokens(p, norm);
      |d| <= |AllMatches(p, norm)| && Distinct(d) &&
      (|d| == 0 <==> forall j :: 0 <= j <= |norm| ==> MatchAt(p, norm, j).None?) &&
      (forall t :: t in d <==> t in AllMatches(p, norm))
    ensures var norm := Normalise(page.html);
      var s := Take(DistinctTokens(p, norm), SampleSize);
      |s| <= SampleSize && s == DistinctTokens(p, norm)[..|s|] &&
      forall i, j :: 0 <= i < j < |s| ==> FirstIndex(AllMatches(p, norm), s[i]) < FirstIndex(AllMatches(p, norm), s[j])
  {
    var norm := Normalise(page.html);
    var all := AllMatches(p, norm);
    var d := Dedup(all);
    assert DistinctTokens(p, norm) == d;
    ScanEmptyIff(p, norm);
    DedupEmptyIff(all);
    DedupFirstOccurrenceOrder(all);
    var s := Take(d, SampleSize);
    forall i, j | 0 <= i < j < |s| ensures FirstIndex(all, s[i]) < FirstIndex(all, s[j]) {
      assert s[i] == d[i] && s[j] == d[j];
    }
  }

  /** The three patterns run independently: pattern B never reports fewer than one token when A reports some. */
  lemma PatternsIndependent(page: AlbumPage)
    ensures Diagnose(page).patternACount > 0 ==> Diagnose(page).patternBCount > 0
  {
    var norm := Normalise(page.html);
    DedupEmptyIff(AllMatches(FullUrl, norm));
    DedupEmptyIff(AllMatches(ProtocolRelative, norm));
    if AllMatches(FullUrl, norm) != [] {
      ProtocolRelativeFindsWhenFullUrlDoes(norm);
    }
  }

  /** The length reported is the raw page's, never shorter than the normalised text. */
  lemma LengthIsRaw(page: AlbumPage)
    ensures Diagnose(page).htmlLengthChars == |page.html| >= |Normalise(page.html)|
  {
  }

  /** No mention is counted exactly when the excerpt is "NOT FOUND". */
  lemma MentionsIffContext(page: AlbumPage)
    ensures Diagnose(page).lh3Mentions == 0 <==> Diagnose(page).lh3Context == NotFound
  {
    var norm := Normalise(page.html);
    MentionCountZeroIffNotFound(norm);
    if IndexOf(norm, Mention).Some? {
      ContextBounds(norm);
      var ctx := Lh3Context(norm);
      assert |ctx| >= |Mention| > |NotFound|;
    }
  }

  /** The excerpt is at most 250 characters and holds the first mention, at most 50 characters in. */
  lemma ContextBounds(norm: string)
    requires IndexOf(norm, Mention).Some?
    ensures var idx := IndexOf(norm, Mention).value;
      var k := if idx < ContextBefore then idx else ContextBefore;
      |Lh3Context(norm)| <= ContextBefore + ContextAfter && OccursAt(Lh3Context(norm), Mention, k)
  {
    var idx := IndexOf(norm, Mention).value;
    var from := if idx < ContextBefore then 0 else idx - ContextBefore;
    var to := if idx + ContextAfter < |norm| then idx + ContextAfter else |norm|;
    assert Lh3Context(norm) == norm[from..to];
    OccursInSlice(norm, Mention, idx, from, to);
  }

  /** An occurrence inside a slice is an occurrence in the slice, shifted by its start. */
  lemma OccursInSlice(s: string, pat: string, idx: nat, from: nat, to: nat)
    requires OccursAt(s, pat, idx) && from <= idx && idx + |pat| <= to <= |s|
    ensures OccursAt(s[from..to], pat, idx - from)
  {
    forall i | 0 <= i < |pat|
      ensures s[from..to][idx - from..idx - from + |pat|][i] == pat[i]
    {
      assert pat[i] == s[idx..idx + |pat|][i];
    }
  }
}
