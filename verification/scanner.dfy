/**
 * Hand-written scanners for the regular expressions that find photo tokens
 * in the album page (src/actions/gallery.ts and
 * src/app/api/admin/debug-gallery/route.ts):
 *
 *   FullUrl           /https?:\/\/lh3\.googleusercontent\.com\/pw\/([a-zA-Z0-9_-]+)/g
 *   ProtocolRelative  /\/\/lh3\.googleusercontent\.com\/pw\/([a-zA-Z0-9_-]+)/g
 *   BareId            /"(AF1Qip[a-zA-Z0-9_-]{20,})"/g
 *   Lh3Mention        /lh3\.googleusercontent/g
 *
 * `Scan` is `String.prototype.matchAll` with a global regex: it tries every
 * start position from left to right, and after a match resumes at the end of
 * that match. None of the patterns can match the empty string.
 */
module Scanner {
  import opened Wrappers
  import opened Text

  /** `lh3.googleusercontent`, the host name without its top-level domain. */
  const Mention: string := "lh3." + "googleusercontent"
  /** `//lh3.googleusercontent.com/pw/`. */
  const SlashPrefix: string := "//" + Mention + ".com" + "/pw/"
  /** `https://lh3.googleusercontent.com/pw/`. */
  const HttpsPrefix: string := "https:" + SlashPrefix
  /** `http://lh3.googleusercontent.com/pw/`. */
  const HttpPrefix: string := "http:" + SlashPrefix
  const IdPrefix: string := "AF1Qip"

  /** The regex character class `[a-zA-Z0-9_-]`. */
  predicate IsTokenChar(c: char) {
    ('a' <= c <= 'z') || ('A' <= c <= 'Z') || ('0' <= c <= '9') || c == '_' || c == '-'
  }

  predicate AllTokenChars(s: string) { forall i :: 0 <= i < |s| ==> IsTokenChar(s[i]) }

  // ---------------------------------------------------------------------
  // Normalisation: html.replace(/\\\//g, "/")
  // ---------------------------------------------------------------------

  const EscapedSlash: string := "\\/"

  /** Every `\/` becomes `/`, scanning left to right without overlap. */
  function Normalise(s: string): (r: string)
    ensures |r| <= |s|
  {
    if |s| >= 2 && s[0] == '\\' && s[1] == '/' then "/" + Normalise(s[2..])
    else if s == [] then []
    else [s[0]] + Normalise(s[1..])
  }

  /** Normalisation changes the text exactly when it contains a `\/`. */
  lemma {:induction false} NormaliseFixpoint(s: string)
    ensures Normalise(s) == s <==> forall i: nat :: !OccursAt(s, EscapedSlash, i)
  {
    if |s| >= 2 && s[0] == '\\' && s[1] == '/' {
      assert OccursAt(s, EscapedSlash, 0);
    } else if s != [] {
      NormaliseFixpoint(s[1..]);
      assert Normalise(s) == [s[0]] + Normalise(s[1..]);
      assert s == [s[0]] + s[1..];
      assert !OccursAt(s, EscapedSlash, 0);
      EscapeFreeTail(s);
    }
  }

  /** Without a `\/` at its head, a text is free of `\/` exactly when its tail is. */
  lemma EscapeFreeTail(s: string)
    requires s != [] && !OccursAt(s, EscapedSlash, 0)
    ensures (forall i: nat :: !OccursAt(s, EscapedSlash, i)) <==> (forall i: nat :: !OccursAt(s[1..], EscapedSlash, i))
  {
    forall i: nat | OccursAt(s, EscapedSlash, i)
      ensures OccursAt(s[1..], EscapedSlash, i - 1)
    {
      assert s[1..][i - 1..i - 1 + 2] == s[i..i + 2];
    }
    forall i: nat | OccursAt(s[1..], EscapedSlash, i)
      ensures OccursAt(s, EscapedSlash, i + 1)
    {
      assert s[i + 1..i + 3] == s[1..][i..i + 2];
    }
  }

  // ---------------------------------------------------------------------
  // Single matches
  // ---------------------------------------------------------------------

  /** End of the longest run of token characters starting at `j` (greedy `+`, `{20,}`). */
  function RunEnd(s: string, j: nat): (e: nat)
    requires j <= |s|
    ensures j <= e <= |s| && AllTokenChars(s[j..e])
    ensures e == |s| || !IsTokenChar(s[e])
    decreases |s| - j
  {
    if j < |s| && IsTokenChar(s[j]) then
      var e := RunEnd(s, j + 1);
      assert s[j..e] == [s[j]] + s[j + 1..e];
      e
    else j
  }

  datatype Pattern = FullUrl | ProtocolRelative | BareId | Lh3Mention

  /** A match: the captured group (or, for Lh3Mention, the matched text) and where the match ends. */
  datatype Match = Match(token: string, end: nat)

  /** What a captured token of each pattern looks like. */
  predicate WellFormedToken(p: Pattern, t: string) {
    match p
    case FullUrl => |t| >= 1 && AllTokenChars(t)
    case ProtocolRelative => |t| >= 1 && AllTokenChars(t)
    case BareId => |t| >= |IdPrefix| + 20 && StartsWith(t, IdPrefix) && AllTokenChars(t)
    case Lh3Mention => t == Mention
  }

  /** A token run of at least one character after a URL prefix ending at `j`. */
  function UrlTokenAt(s: string, j: nat): (r: Option<Match>)
    requires j <= |s|
    ensures r.Some? ==> j < r.value.end <= |s| && r.value.token == s[j..r.value.end]
  {
    var e := RunEnd(s, j);
    if e > j then Some(Match(s[j..e], e)) else None
  }

  /** A quoted `AF1Qip` id with at least 20 more token characters, starting at `i`. */
  function BareIdAt(s: string, i: nat): (r: Option<Match>)
    requires i <= |s|
    ensures r.Some? ==> i < r.value.end <= |s| && WellFormedToken(BareId, r.value.token)
  {
    if i < |s| && s[i] == '"' && OccursAt(s, IdPrefix, i + 1) then
      var e := RunEnd(s, i + 1 + |IdPrefix|);
      if e - (i + 1 + |IdPrefix|) >= 20 && e < |s| && s[e] == '"' then
        assert s[i + 1..e][..|IdPrefix|] == s[i + 1..i + 1 + |IdPrefix|];
        assert s[i + 1..e] == IdPrefix + s[i + 1 + |IdPrefix|..e];
        Some(Match(s[i + 1..e], e + 1))
      else None
    else None
  }

  /** The match of pattern `p` that starts exactly at position `i`, if any. */
  function MatchAt(p: Pattern, s: string, i: nat): (r: Option<Match>)
    requires i <= |s|
    ensures r.Some? ==> i < r.value.end <= |s| && WellFormedToken(p, r.value.token)
  {
    match p
    case FullUrl =>
      if OccursAt(s, HttpsPrefix, i) then UrlTokenAt(s, i + |HttpsPrefix|)
      else if OccursAt(s, HttpPrefix, i) then UrlTokenAt(s, i + |HttpPrefix|)
      else None
    case ProtocolRelative =>
      if OccursAt(s, SlashPrefix, i) then UrlTokenAt(s, i + |SlashPrefix|) else None
    case BareId => BareIdAt(s, i)
    case Lh3Mention =>
      if OccursAt(s, Mention, i) then Some(Match(Mention, i + |Mention|)) else None
  }

  // ---------------------------------------------------------------------
  // All matches: [...s.matchAll(re)].map(m => m[1])
  // ---------------------------------------------------------------------

  /** The tokens of the successive leftmost, non-overlapping matches of `p` from position `i` on. */
  function Scan(p: Pattern, s: string, i: nat): (r: seq<string>)
    requires i <= |s|
    ensures forall t :: t in r ==> WellFormedToken(p, t)
    decreases |s| - i
  {
    if i == |s| then []
    else
      match MatchAt(p, s, i)
      case Some(m) => [m.token] + Scan(p, s, m.end)
      case None => Scan(p, s, i + 1)
  }

  function AllMatches(p: Pattern, s: string): seq<string> { Scan(p, s, 0) }

  /** A scan that reaches a position where the pattern matches finds at least one token. */
  lemma {:induction false} ScanFindsMatch(p: Pattern, s: string, i: nat, j: nat)
    requires i <= j <= |s| && MatchAt(p, s, j).Some?
    ensures Scan(p, s, i) != []
    decreases j - i
  {
    if i < j && MatchAt(p, s, i).None? {
      ScanFindsMatch(p, s, i + 1, j);
    }
  }

  /** A scan that finds a token has a position where the pattern matches. */
  lemma {:induction false} ScanFoundHasMatch(p: Pattern, s: string, i: nat) returns (j: nat)
    requires i <= |s| && Scan(p, s, i) != []
    ensures i <= j <= |s| && MatchAt(p, s, j).Some?
    decreases |s| - i
  {
    if MatchAt(p, s, i).Some? {
      j := i;
    } else {
      j := ScanFoundHasMatch(p, s, i + 1);
    }
  }

  /** A pattern finds nothing iff it matches at no position. */
  lemma ScanEmptyIff(p: Pattern, s: string)
    ensures AllMatches(p, s) == [] <==> forall j :: 0 <= j <= |s| ==> MatchAt(p, s, j).None?
  {
    if AllMatches(p, s) != [] {
      var j := ScanFoundHasMatch(p, s, 0);
    } else {
      forall j | 0 <= j <= |s| ensures MatchAt(p, s, j).None? {
        if MatchAt(p, s, j).Some? {
          ScanFindsMatch(p, s, 0, j);
        }
      }
    }
  }

  lemma SlashPrefixInside(s: string, i: nat, prefix: string, scheme: string)
    requires prefix == scheme + SlashPrefix && OccursAt(s, prefix, i)
    ensures OccursAt(s, SlashPrefix, i + |scheme|)
  {
    assert s[i + |scheme|..i + |scheme| + |SlashPrefix|] == s[i..i + |prefix|][|scheme|..];
  }

  /** Where the `//` of a full URL starting at `i` lies. */
  function SchemeLength(s: string, i: nat): nat {
    if OccursAt(s, HttpsPrefix, i) then 6 else 5
  }

  lemma SecureUrlContainsProtocolRelative(s: string, i: nat)
    requires i <= |s| && OccursAt(s, HttpsPrefix, i)
    ensures i + 6 <= |s| && OccursAt(s, SlashPrefix, i + 6)
    ensures MatchAt(FullUrl, s, i) == UrlTokenAt(s, i + |HttpsPrefix|)
    ensures MatchAt(ProtocolRelative, s, i + 6) == UrlTokenAt(s, i + |HttpsPrefix|)
  {
    SlashPrefixInside(s, i, HttpsPrefix, "https:");
  }

  lemma PlainUrlContainsProtocolRelative(s: string, i: nat)
    requires i <= |s| && !OccursAt(s, HttpsPrefix, i) && OccursAt(s, HttpPrefix, i)
    ensures i + 5 <= |s| && OccursAt(s, SlashPrefix, i + 5)
    ensures MatchAt(FullUrl, s, i) == UrlTokenAt(s, i + |HttpPrefix|)
    ensures MatchAt(ProtocolRelative, s, i + 5) == UrlTokenAt(s, i + |HttpPrefix|)
  {
    SlashPrefixInside(s, i, HttpPrefix, "http:");
  }

  /** Every full URL contains a protocol-relative URL with the same token. */
  lemma FullUrlContainsProtocolRelative(s: string, i: nat)
    requires i <= |s| && MatchAt(FullUrl, s, i).Some?
    ensures i + SchemeLength(s, i) <= |s|
    ensures MatchAt(ProtocolRelative, s, i + SchemeLength(s, i)) == MatchAt(FullUrl, s, i)
  {
    if OccursAt(s, HttpsPrefix, i) {
      SecureUrlContainsProtocolRelative(s, i);
    } else {
      PlainUrlContainsProtocolRelative(s, i);
    }
  }

  /**
   * Pattern B can only be needed when pattern A finds nothing: whenever A
   * finds a token, B finds one too.
   */
  lemma ProtocolRelativeFindsWhenFullUrlDoes(s: string)
    requires AllMatches(FullUrl, s) != []
    ensures AllMatches(ProtocolRelative, s) != []
  {
    var j := ScanFoundHasMatch(FullUrl, s, 0);
    FullUrlContainsProtocolRelative(s, j);
    ScanFindsMatch(ProtocolRelative, s, 0, j + SchemeLength(s, j));
  }

  /** `s.indexOf("lh3.googleusercontent")` is -1 exactly when lh3Mentions is 0. */
  lemma MentionCountZeroIffNotFound(s: string)
    ensures AllMatches(Lh3Mention, s) == [] <==> IndexOf(s, Mention).None?
  {
    ScanEmptyIff(Lh3Mention, s);
    if IndexOf(s, Mention).Some? {
      var j := IndexOf(s, Mention).value;
      assert MatchAt(Lh3Mention, s, j).Some?;
    } else {
      forall j | 0 <= j <= |s| ensures MatchAt(Lh3Mention, s, j).None? {
        assert !OccursAt(s, Mention, j);
      }
    }
  }
}
