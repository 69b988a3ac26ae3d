/**
 * Post-processing of the vision classifier's reply and the rate-limit retry
 * rule of `classifyImageWithGemini` (src/actions/gallery.ts). The network
 * (image bytes, the model call) is replaced by an injected outcome per
 * attempt, and `JSON.parse` by an injected parser.
 */
module Classifier {
  import opened Wrappers
  import opened Text
  import opened Categories

  /**
   * The object `JSON.parse` produced, seen through the two properties the code
   * reads: a property that is absent or is not a string is `None`.
   */
  datatype ParsedReply = ParsedReply(category: Option<string>, description: Option<string>)

  /**
   * `JSON.parse` on the unwrapped reply: `None` when it throws, or when the
   * result is `null` (reading a property of it throws too).
   */
  type Parser = string -> Option<ParsedReply>

  /** What one call to the classifier does: reply with text, or throw an error with an optional `status`. */
  datatype CallOutcome = Answered(text: string) | Failed(status: Option<int>)

  /** The `{ category, description }` a classification resolves to. */
  datatype Classification = Classification(category: Category, description: string)

  const RateLimitStatus: int := 429
  const BackoffStepMs: nat := 15000
  const MaxRetries: nat := 3

  /** The fallback of every failure path: `{ category: "Uncategorized", description: "" }`. */
  const Unclassified: Classification := Classification(Uncategorized, "")

  // ---------------------------------------------------------------------
  // Unwrapping the reply text
  // ---------------------------------------------------------------------

  /** Length of the run of `\s` characters starting at `k`. */
  function SpaceRun(s: string, k: nat): (n: nat)
    requires k <= |s|
    ensures k + n <= |s| && AllSpace(s[k..k + n]) && (k + n == |s| || !IsSpace(s[k + n]))
    decreases |s| - k
  {
    if k < |s| && IsSpace(s[k]) then
      var n := SpaceRun(s, k + 1);
      assert s[k..k + 1 + n] == [s[k]] + s[k + 1..k + 1 + n];
      1 + n
    else 0
  }

  /** `s` has the letters of `word` (lower case) at position `k`, ignoring ASCII case. */
  predicate WordAt(s: string, k: nat, word: string) {
    k + |word| <= |s| && ToLower(s[k..k + |word|]) == word
  }

  /** Length of the text that `^```json?\s*` (flag i) matches at the start of `s`, as written. */
  function OpeningFenceAsWritten(s: string): (r: Option<nat>)
    ensures r.Some? ==> r.value <= |s|
  {
    if StartsWith(s, "```") && WordAt(s, 3, "jso") then
      var k := if WordAt(s, 6, "n") then 7 else 6;
      Some(k + SpaceRun(s, k))
    else None
  }

  /** Length of the text that `^```(json)?\s*` (flag i) matches: an opening fence with or without a language tag. */
  function OpeningFence(s: string): (r: Option<nat>)
    ensures r.Some? ==> r.value <= |s|
  {
    if StartsWith(s, "```") then
      var k := if WordAt(s, 3, "json") then 7 else 3;
      Some(k + SpaceRun(s, k))
    else None
  }

  /** `.replace(/```$/i, "")`: drop a closing fence at the very end. */
  function StripClosingFence(s: string): (r: string)
    ensures EndsWith(s, "```") ==> r == s[..|s| - 3]
    ensures !EndsWith(s, "```") ==> r == s
  {
    if EndsWith(s, "```") then s[..|s| - 3] else s
  }

  function DropPrefix(s: string, n: Option<nat>): string
    requires n.Some? ==> n.value <= |s|
  {
    if n.Some? then s[n.value..] else s
  }

  /**
   * The text handed to `JSON.parse`, exactly as gallery.ts:173-176 computes it:
   * never longer than the reply and with no white space at either end.
   */
  function JsonTextAsWritten(reply: string): (r: string)
    ensures |r| <= |reply|
    ensures r == [] || (!IsSpace(r[0]) && !IsSpace(r[|r| - 1]))
  {
    var raw := Trim(reply);
    Trim(StripClosingFence(DropPrefix(raw, OpeningFenceAsWritten(raw))))
  }

  /**
   * The text handed to `JSON.parse` when a bare ``` fence is stripped as well:
   * never longer than the reply and with no white space at either end.
   */
  function JsonText(reply: string): (r: string)
    ensures |r| <= |reply|
    ensures r == [] || (!IsSpace(r[0]) && !IsSpace(r[|r| - 1]))
  {
    var raw := Trim(reply);
    Trim(StripClosingFence(DropPrefix(raw, OpeningFence(raw))))
  }

  /** A JSON text as the classifier is asked to give it: an object, not padded. */
  predicate IsBareObject(body: string) {
    |body| >= 2 && body[0] == '{' && body[|body| - 1] == '}'
  }

  lemma TrimOfUnpadded(s: string)
    requires s != [] && !IsSpace(s[0]) && !IsSpace(s[|s| - 1])
    ensures Trim(s) == s
  {
    assert TrimStart(s) == s;
    assert TrimEnd(s) == s;
  }

  /** Trimming an unpadded text followed by a newline drops just the newline. */
  lemma TrimNewlineAfter(s: string)
    requires s != [] && !IsSpace(s[0]) && !IsSpace(s[|s| - 1])
    ensures Trim(s + "\n") == s
  {
    var t := s + "\n";
    assert TrimStart(t) == t;
    assert t[..|t| - 1] == s;
    assert TrimEnd(t) == TrimEnd(s);
    assert TrimEnd(s) == s;
  }

  /** A fenced reply whose opening fence carries no language tag. */
  function BareFenced(body: string): string { "```\n" + body + "\n```" }

  /** A fenced reply tagged as JSON. */
  function JsonFenced(body: string): string { "```json\n" + body + "\n```" }

  /** What the two fence shapes have in common: trimming keeps them, the closing fence goes. */
  lemma ClosingFenceStripped(body: string, opening: string)
    requires IsBareObject(body) && |opening| >= 1 && opening[0] == '`'
    ensures Trim(opening + body + "\n```") == opening + body + "\n```"
    ensures StripClosingFence(opening + body + "\n```") == opening + body + "\n"
  {
    var fenced := opening + body + "\n```";
    TrimOfUnpadded(fenced);
    assert fenced == (opening + body + "\n") + "```";
    StripOfFenced(opening + body + "\n");
  }

  /** A closing fence at the very end is all that goes. */
  lemma StripOfFenced(x: string)
    ensures StripClosingFence(x + "```") == x
  {
    var t := x + "```";
    assert t[|t| - 3..] == "```";
    assert t[..|t| - 3] == x;
  }

  lemma OpeningOfBareFence(body: string)
    requires IsBareObject(body)
    ensures OpeningFenceAsWritten(BareFenced(body)).None?
    ensures OpeningFence(BareFenced(body)) == Some(4)
    ensures BareFenced(body)[4..] == body + "\n```"
  {
    var f := BareFenced(body);
    assert f[..4] == "```\n";
    assert ToLower(f[3..6])[0] == LowerChar(f[3]) == '\n';
    assert ToLower(f[3..7])[0] == LowerChar(f[3]) == '\n';
    assert SpaceRun(f, 3) == 1;
  }

  lemma OpeningOfJsonFence(body: string)
    requires IsBareObject(body)
    ensures OpeningFenceAsWritten(JsonFenced(body)) == Some(8)
    ensures OpeningFence(JsonFenced(body)) == Some(8)
    ensures JsonFenced(body)[8..] == body + "\n```"
  {
    var f := JsonFenced(body);
    JsonFenceLayout(body);
    LowerWordAt(f, 3, "jso");
    LowerWordAt(f, 6, "n");
    LowerWordAt(f, 3, "json");
    assert SpaceRun(f, 8) == 0;
    assert SpaceRun(f, 7) == 1;
  }

  lemma JsonFenceLayout(body: string)
    requires IsBareObject(body)
    ensures var f := JsonFenced(body);
      |f| > 8 && StartsWith(f, "```") && f[3..6] == "jso" && f[6..7] == "n" && f[3..7] == "json" &&
      f[7] == '\n' && f[8] == '{' && f[8..] == body + "\n```"
  {
    var f := JsonFenced(body);
    assert f == "```json\n" + (body + "\n```");
  }

  /** A lower-case word found verbatim is found ignoring case. */
  lemma LowerWordAt(s: string, k: nat, word: string)
    requires k + |word| <= |s| && s[k..k + |word|] == word
    requires forall i :: 0 <= i < |word| ==> LowerChar(word[i]) == word[i]
    ensures WordAt(s, k, word)
  {
    assert ToLower(word) == word;
  }

  /** After the opening fence is gone, the closing fence goes and trimming leaves the object. */
  lemma ClosingOfFence(body: string)
    requires IsBareObject(body)
    ensures Trim(StripClosingFence(body + "\n```")) == body
  {
    assert body + "\n```" == (body + "\n") + "```";
    StripOfFenced(body + "\n");
    TrimNewlineAfter(body);
  }

  /**
   * As written, a reply fenced with a bare ``` keeps its opening fence: the
   * text handed to `JSON.parse` still starts with a backquote.
   */
  lemma BareFenceKeptAsWritten(body: string)
    requires IsBareObject(body)
    ensures JsonTextAsWritten(BareFenced(body)) == "```\n" + body
  {
    BareFenceSteps(body);
    KeptFence(body);
  }

  lemma BareFenceSteps(body: string)
    requires IsBareObject(body)
    ensures Trim(BareFenced(body)) == BareFenced(body)
    ensures OpeningFenceAsWritten(BareFenced(body)).None?
    ensures StripClosingFence(BareFenced(body)) == "```\n" + body + "\n"
  {
    ClosingFenceStripped(body, "```\n");
    OpeningOfBareFence(body);
  }

  /** The closing fence goes and trimming drops the newline, but the opening fence stays. */
  lemma KeptFence(body: string)
    requires IsBareObject(body)
    ensures Trim(StripClosingFence(BareFenced(body))) == "```\n" + body
  {
    BareFenceSteps(body);
    TrimKeptFence(body);
  }

  lemma TrimKeptFence(body: string)
    requires IsBareObject(body)
    ensures Trim("```\n" + body + "\n") == "```\n" + body
  {
    var kept := "```\n" + body;
    assert kept[0] == '`' && kept[|kept| - 1] == '}';
    TrimNewlineAfter(kept);
  }

  /** As written, a ```json fence is removed and the object comes back unchanged. */
  lemma JsonFenceStrippedAsWritten(body: string)
    requires IsBareObject(body)
    ensures JsonTextAsWritten(JsonFenced(body)) == body
  {
    ClosingFenceStripped(body, "```json\n");
    OpeningOfJsonFence(body);
    ClosingOfFence(body);
  }

  lemma BareFenceStripped(body: string)
    requires IsBareObject(body)
    ensures JsonText(BareFenced(body)) == body
  {
    ClosingFenceStripped(body, "```\n");
    OpeningOfBareFence(body);
    ClosingOfFence(body);
  }

  lemma JsonFenceStripped(body: string)
    requires IsBareObject(body)
    ensures JsonText(JsonFenced(body)) == body
  {
    ClosingFenceStripped(body, "```json\n");
    OpeningOfJsonFence(body);
    ClosingOfFence(body);
  }

  lemma BareObjectUnwrapped(body: string)
    requires IsBareObject(body)
    ensures JsonText(body) == body
  {
    TrimOfUnpadded(body);
    assert body[0] == '{';
    assert OpeningFence(body).None?;
    assert !EndsWith(body, "```");
    TrimOfUnpadded(body);
  }

  /** Unwrapping recovers the object from a bare reply and from both kinds of fence. */
  lemma JsonTextRecoversObject(body: string)
    requires IsBareObject(body)
    ensures JsonText(body) == body
    ensures JsonText(BareFenced(body)) == body
    ensures JsonText(JsonFenced(body)) == body
  {
    BareObjectUnwrapped(body);
    BareFenceStripped(body);
    JsonFenceStripped(body);
  }

  // ---------------------------------------------------------------------
  // Coercing the parsed reply
  // ---------------------------------------------------------------------

  /** `validCategories.includes(parsed.category) ? parsed.category : "Uncategorized"`. */
  function CoerceCategory(v: Option<string>): (c: Category)
    ensures v.Some? && IsLabel(v.value) ==> Label(c) == v.value
    ensures !(v.Some? && IsLabel(v.value)) ==> c == Uncategorized
  {
    if v.Some? then FromLabel(v.value).GetOr(Uncategorized) else Uncategorized
  }

  /** `typeof parsed.description === "string" ? parsed.description : ""`. */
  function CoerceDescription(v: Option<string>): (d: string)
    ensures v.Some? ==> d == v.value
    ensures v.None? ==> d == ""
  {
    v.GetOr("")
  }

  /** What one attempt ends in: a classification, or an error with an optional status. */
  datatype AttemptResult = Done(result: Classification) | Threw(status: Option<int>)

  /** How one attempt ends once its reply text has been unwrapped by `unwrap`. */
  function AttemptWith(outcome: CallOutcome, parse: Parser, unwrap: string -> string): (r: AttemptResult)
    ensures outcome.Failed? ==> r == Threw(outcome.status)
    ensures outcome.Answered? ==> (r.Done? <==> parse(unwrap(outcome.text)).Some?)
    ensures outcome.Answered? && r.Threw? ==> r.status.None?
  {
    match outcome
    case Failed(status) => Threw(status)
    case Answered(text) =>
      match parse(unwrap(text))
      case None => Threw(None)
      case Some(p) => Done(Classification(CoerceCategory(p.category), CoerceDescription(p.description)))
  }

  /**
   * The body of the `try` block for one attempt (gallery.ts:141-195), with the
   * reply unwrapped exactly as the code does: an error keeps its status, an
   * answer either classifies or throws without one.
   */
  function Attempt(outcome: CallOutcome, parse: Parser): (r: AttemptResult)
    ensures outcome.Failed? ==> r == Threw(outcome.status)
    ensures outcome.Answered? ==> (r.Done? <==> parse(JsonTextAsWritten(outcome.text)).Some?)
    ensures outcome.Answered? && r.Threw? ==> r.status.None?
  {
    AttemptWith(outcome, parse, JsonTextAsWritten)
  }

  /** One attempt as intended, with a bare ``` fence stripped as well. */
  function AttemptIntended(outcome: CallOutcome, parse: Parser): (r: AttemptResult)
    ensures outcome.Failed? ==> r == Threw(outcome.status)
    ensures outcome.Answered? ==> (r.Done? <==> parse(JsonText(outcome.text)).Some?)
    ensures outcome.Answered? && r.Threw? ==> r.status.None?
  {
    AttemptWith(outcome, parse, JsonText)
  }

  predicate IsRateLimited(r: AttemptResult) { r.Threw? && r.status == Some(RateLimitStatus) }

  /** The classification an attempt settles on when it is not retried. */
  function Settle(r: AttemptResult): Classification {
    if r.Done? then r.result else Unclassified
  }

  // ---------------------------------------------------------------------
  // The retry rule
  // ---------------------------------------------------------------------

  /**
   * A run of `classifyImageWithGemini`: the classification it returns, the
   * URL it fetched on each attempt, and the waits it slept between attempts.
   */
  datatype ClassifyRun = ClassifyRun(result: Classification, fetches: seq<string>, waits: seq<nat>)

  /** What each attempt ends in when attempt `k` meets `outcomes(k)`. */
  function Results(outcomes: nat -> CallOutcome, parse: Parser): nat -> AttemptResult {
    (k: nat) => Attempt(outcomes(k), parse)
  }

  /** `classifyImageWithGemini(imageUrl, attempt)`, with `results(k)` what attempt `k` ends in. */
  function ClassifyFrom(imageUrl: string, results: nat -> AttemptResult, attempt: nat): (r: ClassifyRun)
    requires 1 <= attempt <= MaxRetries + 1
    ensures |r.fetches| == |r.waits| + 1 <= MaxRetries + 2 - attempt
    ensures forall k :: 0 <= k < |r.fetches| ==> r.fetches[k] == imageUrl
    ensures forall k :: 0 <= k < |r.waits| ==> r.waits[k] == (attempt + k) * BackoffStepMs
    decreases MaxRetries + 1 - attempt
  {
    var a := results(attempt);
    if IsRateLimited(a) && attempt <= MaxRetries then
      var rest := ClassifyFrom(imageUrl, results, attempt + 1);
      ClassifyRun(rest.result, [imageUrl] + rest.fetches, [attempt * BackoffStepMs] + rest.waits)
    else
      ClassifyRun(Settle(a), [imageUrl], [])
  }

  /** `classifyImageWithGemini(imageUrl)`: at most four calls, waiting 15 s, 30 s, 45 s between them. */
  function ClassifyImage(imageUrl: string, outcomes: nat -> CallOutcome, parse: Parser): (r: ClassifyRun)
    ensures 1 <= |r.fetches| <= MaxRetries + 1 && |r.waits| == |r.fetches| - 1
    ensures r.waits == [15000, 30000, 45000][..|r.waits|]
  {
    ClassifyFrom(imageUrl, Results(outcomes, parse), 1)
  }

  /**
   * The run stops at the first attempt `k` that is not rate limited (or at the
   * fourth, whatever it meets): it makes exactly `k` calls and settles on
   * what attempt `k` produced.
   */
  lemma {:induction false} RetryUntilNotRateLimited(imageUrl: string, results: nat -> AttemptResult, attempt: nat, k: nat)
    requires 1 <= attempt <= k <= MaxRetries + 1
    requires forall j :: attempt <= j < k ==> IsRateLimited(results(j))
    requires k <= MaxRetries ==> !IsRateLimited(results(k))
    ensures |ClassifyFrom(imageUrl, results, attempt).fetches| == k - attempt + 1
    ensures ClassifyFrom(imageUrl, results, attempt).result == Settle(results(k))
    decreases k - attempt
  {
    if attempt < k {
      RetryUntilNotRateLimited(imageUrl, results, attempt + 1, k);
    }
  }

  /** Four rate-limited attempts in a row end in `Uncategorized` with an empty description. */
  lemma RateLimitedFourTimes(imageUrl: string, outcomes: nat -> CallOutcome, parse: Parser)
    requires forall j :: 1 <= j <= 4 ==> outcomes(j) == Failed(Some(RateLimitStatus))
    ensures ClassifyImage(imageUrl, outcomes, parse) == ClassifyRun(Unclassified, [imageUrl, imageUrl, imageUrl, imageUrl], [15000, 30000, 45000])
  {
    var rs := Results(outcomes, parse);
    assert forall j :: 1 <= j <= 4 ==> rs(j) == Threw(Some(RateLimitStatus));
    RetryUntilNotRateLimited(imageUrl, rs, 1, 4);
    var r := ClassifyImage(imageUrl, outcomes, parse);
    assert |r.fetches| == 4 && |r.waits| == 3;
    assert r.fetches == [imageUrl, imageUrl, imageUrl, imageUrl];
  }

  /** An answer is never a rate limit, whether or not it parses. */
  lemma AnswerNotRateLimited(text: string, parse: Parser)
    ensures !IsRateLimited(Attempt(Answered(text), parse))
  {
  }

  /**
   * Two rate limits then anything else (an answer, by `AnswerNotRateLimited`):
   * three calls, waits of 15 s and 30 s, and the third attempt's classification.
   */
  lemma RateLimitedTwiceThenSettled(imageUrl: string, outcomes: nat -> CallOutcome, parse: Parser)
    requires outcomes(1) == Failed(Some(RateLimitStatus)) && outcomes(2) == Failed(Some(RateLimitStatus))
    requires !IsRateLimited(Attempt(outcomes(3), parse))
    ensures ClassifyImage(imageUrl, outcomes, parse).fetches == [imageUrl, imageUrl, imageUrl]
    ensures ClassifyImage(imageUrl, outcomes, parse).waits == [15000, 30000]
    ensures ClassifyImage(imageUrl, outcomes, parse).result == Settle(Attempt(outcomes(3), parse))
  {
    var rs := Results(outcomes, parse);
    assert rs(1) == Threw(Some(RateLimitStatus)) && rs(2) == Threw(Some(RateLimitStatus));
    assert rs(3) == Attempt(outcomes(3), parse);
    ThirdAttemptSettles(imageUrl, rs);
  }

  /** The run over any attempt results that are rate limited twice and then not. */
  lemma ThirdAttemptSettles(imageUrl: string, rs: nat -> AttemptResult)
    requires IsRateLimited(rs(1)) && IsRateLimited(rs(2)) && !IsRateLimited(rs(3))
    ensures ClassifyFrom(imageUrl, rs, 1) == ClassifyRun(Settle(rs(3)), [imageUrl, imageUrl, imageUrl], [15000, 30000])
  {
    forall j | 1 <= j < 3 ensures IsRateLimited(rs(j)) {
      assert j == 1 || j == 2;
    }
    RetryUntilNotRateLimited(imageUrl, rs, 1, 3);
    var r := ClassifyFrom(imageUrl, rs, 1);
    assert r.fetches == [imageUrl, imageUrl, imageUrl] by {
      assert |r.fetches| == 3 && r.fetches[0] == r.fetches[1] == r.fetches[2] == imageUrl;
    }
    assert r.waits == [15000, 30000] by {
      assert |r.waits| == 2 && r.waits[0] == 15000 && r.waits[1] == 30000;
    }
  }

  /** Any failure other than a rate limit is not retried and gives `Uncategorized` with "". */
  lemma OtherFailureNotRetried(imageUrl: string, outcomes: nat -> CallOutcome, parse: Parser)
    requires outcomes(1).Failed? && outcomes(1).status != Some(RateLimitStatus)
    ensures ClassifyImage(imageUrl, outcomes, parse) == ClassifyRun(Unclassified, [imageUrl], [])
  {
  }

  /** A parser that rejects text starting with a backquote, as every JSON parser does. */
  ghost predicate RejectsBackquote(parse: Parser) {
    forall t :: |t| > 0 && t[0] == '`' ==> parse(t).None?
  }

  /**
   * The consequence of the as-written fence pattern: an answer fenced with a
   * bare ``` is never parsed, so the attempt throws without a status and is
   * not retried.
   */
  lemma BareFenceUnparsedAsWritten(body: string, parse: Parser)
    requires IsBareObject(body) && RejectsBackquote(parse)
    ensures parse(JsonTextAsWritten(BareFenced(body))).None?
    ensures Attempt(Answered(BareFenced(body)), parse) == Threw(None)
  {
    BareFenceKeptAsWritten(body);
  }

  /**
   * With the fence stripped as intended, an answer fenced either way is
   * classified as the bare object would be.
   */
  lemma BareFenceParsed(body: string, parse: Parser)
    requires IsBareObject(body)
    ensures AttemptIntended(Answered(BareFenced(body)), parse) == AttemptIntended(Answered(body), parse)
    ensures AttemptIntended(Answered(JsonFenced(body)), parse) == AttemptIntended(Answered(body), parse)
  {
    JsonTextRecoversObject(body);
  }

  /** As written, a bare object and a ```json fence still unwrap to the object. */
  lemma AsWrittenAgreesOffBareFence(body: string, parse: Parser)
    requires IsBareObject(body)
    ensures JsonTextAsWritten(body) == body
    ensures Attempt(Answered(JsonFenced(body)), parse) == Attempt(Answered(body), parse)
    ensures Attempt(Answered(body), parse) == AttemptIntended(Answered(body), parse)
  {
    BareObjectUnwrappedAsWritten(body);
    BareObjectUnwrapped(body);
    JsonFenceStrippedAsWritten(body);
  }

  lemma BareObjectUnwrappedAsWritten(body: string)
    requires IsBareObject(body)
    ensures JsonTextAsWritten(body) == body
  {
    TrimOfUnpadded(body);
    assert body[0] == '{';
    assert OpeningFenceAsWritten(body).None?;
    assert !EndsWith(body, "```");
    TrimOfUnpadded(body);
  }
}
