/**
 * The public gallery pipeline of src/actions/gallery.ts: scrape the album page
 * for photo URLs, cap them, classify each photo and assemble the records, and
 * fall back to a fixed list whenever something is missing or fails.
 */
module Gallery {
  import opened Wrappers
  import opened Text
  import opened Seqs
  import opened Categories
  import opened Scanner
  import opened Classifier

  /** A photo as the gallery shows it (`GalleryImage`, src/types/gallery.ts). */
  datatype GalleryImage = GalleryImage(
    id: string, url: string, width: nat, height: nat,
    category: Category, description: Option<string>)

  const MaxPhotos: nat := 30
  const PacingDelayMs: nat := 13000
  const DisplayWidth: nat := 1200
  const DisplayHeight: nat := 800
  const DisplaySuffix: string := "=w800"
  const DownloadSuffix: string := "=w512-h512"
  /** "ผลงาน " ("work "), the start of the fallback description. */
  const WorkPrefix: string := "ผลงาน "

  // ---------------------------------------------------------------------
  // Extraction of the base URLs
  // ---------------------------------------------------------------------

  /** `https://lh3.googleusercontent.com/pw/${token}` for every captured token. */
  function Canonicals(tokens: seq<string>): (r: seq<string>)
    ensures |r| == |tokens|
    ensures forall i :: 0 <= i < |tokens| ==> r[i] == HttpsPrefix + tokens[i]
  {
    seq(|tokens|, i requires 0 <= i < |tokens| => HttpsPrefix + tokens[i])
  }

  /** The tokens the first pattern that finds anything captures, trying A, then B, then C. */
  function Candidates(norm: string): seq<string> {
    var a := AllMatches(FullUrl, norm);
    if a != [] then a
    else
      var b := AllMatches(ProtocolRelative, norm);
      if b != [] then b else AllMatches(BareId, norm)
  }

  /** `[...found]` at gallery.ts:76: the distinct canonical URLs in first-occurrence order. */
  function BaseUrls(html: string): seq<string> {
    Dedup(Canonicals(Candidates(Normalise(html))))
  }

  /** One `for … of norm.matchAll(…)` loop adding into an empty `Set`. */
  method CollectCanonical(tokens: seq<string>) returns (found: seq<string>)
    ensures found == Dedup(Canonicals(tokens))
  {
    found := [];
    for k := 0 to |tokens|
      invariant found == Dedup(Canonicals(tokens[..k]))
    {
      var xs := Canonicals(tokens[..k + 1]);
      assert xs[..|xs| - 1] == Canonicals(tokens[..k]);
      found := AddUnique(found, HttpsPrefix + tokens[k]);
    }
    assert tokens[..|tokens|] == tokens;
  }

  /** gallery.ts:53-76: normalise, then pattern A, B only if A found nothing, C only if neither did. */
  method ExtractBaseUrls(html: string) returns (urls: seq<string>)
    ensures urls == BaseUrls(html)
  {
    var norm := Normalise(html);
    var a := AllMatches(FullUrl, norm);
    var b := AllMatches(ProtocolRelative, norm);
    var found := CollectCanonical(a);
    DedupEmptyIff(Canonicals(a));
    if |found| == 0 {
      found := CollectCanonical(b);
      DedupEmptyIff(Canonicals(b));
    }
    if |found| == 0 {
      found := CollectCanonical(AllMatches(BareId, norm));
    }
    urls := found;
  }

  /** Whatever pattern supplied them, the candidates are non-empty runs of token characters. */
  lemma CandidatesAreTokens(norm: string)
    ensures forall t :: t in Candidates(norm) ==> |t| >= 1 && AllTokenChars(t)
  {
    var p := if AllMatches(FullUrl, norm) != [] then FullUrl
      else if AllMatches(ProtocolRelative, norm) != [] then ProtocolRelative else BareId;
    assert Candidates(norm) == AllMatches(p, norm);
  }

  lemma CanonicalShape(tokens: seq<string>)
    requires forall t :: t in tokens ==> |t| >= 1 && AllTokenChars(t)
    ensures forall u :: u in Canonicals(tokens) ==>
      StartsWith(u, HttpsPrefix) && |u| > |HttpsPrefix| && AllTokenChars(u[|HttpsPrefix|..])
    ensures forall t :: t in tokens ==> HttpsPrefix + t in Canonicals(tokens)
  {
    var cs := Canonicals(tokens);
    forall u | u in cs
      ensures StartsWith(u, HttpsPrefix) && |u| > |HttpsPrefix| && AllTokenChars(u[|HttpsPrefix|..])
    {
      var i :| 0 <= i < |cs| && cs[i] == u;
      assert tokens[i] in tokens;
      assert u[..|HttpsPrefix|] == HttpsPrefix && u[|HttpsPrefix|..] == tokens[i];
    }
    forall t | t in tokens ensures HttpsPrefix + t in cs {
      var i :| 0 <= i < |tokens| && tokens[i] == t;
      assert cs[i] == HttpsPrefix + t;
    }
  }

  /**
   * Every extracted URL is the canonical https prefix followed by a non-empty
   * run of token characters; there are no duplicates; and every token the
   * chosen pattern captured is represented.
   */
  lemma BaseUrlsCanonical(html: string)
    ensures Distinct(BaseUrls(html))
    ensures forall u :: u in BaseUrls(html) ==>
      StartsWith(u, HttpsPrefix) && |u| > |HttpsPrefix| && AllTokenChars(u[|HttpsPrefix|..])
    ensures forall t :: t in Candidates(Normalise(html)) ==> HttpsPrefix + t in BaseUrls(html)
  {
    CandidatesAreTokens(Normalise(html));
    CanonicalShape(Candidates(Normalise(html)));
  }

  /** The URLs come in the order in which their tokens first occur among the matches. */
  lemma BaseUrlsFirstOccurrenceOrder(html: string)
    ensures forall i, j :: 0 <= i < j < |BaseUrls(html)| ==>
      FirstIndex(Canonicals(Candidates(Normalise(html))), BaseUrls(html)[i])
        < FirstIndex(Canonicals(Candidates(Normalise(html))), BaseUrls(html)[j])
  {
    DedupFirstOccurrenceOrder(Canonicals(Candidates(Normalise(html))));
  }

  /**
   * Nothing is found exactly when neither the protocol-relative nor the bare-id
   * pattern matches: a full URL always contains a protocol-relative one, so
   * pattern A never finds something B would miss.
   */
  lemma BaseUrlsEmptyIff(html: string)
    ensures BaseUrls(html) == [] <==>
      AllMatches(ProtocolRelative, Normalise(html)) == [] && AllMatches(BareId, Normalise(html)) == []
  {
    var norm := Normalise(html);
    DedupEmptyIff(Canonicals(Candidates(norm)));
    if AllMatches(FullUrl, norm) != [] {
      ProtocolRelativeFindsWhenFullUrlDoes(norm);
    }
  }

  /** Pattern B's tokens are used only when pattern A found none, C's only when A and B found none. */
  lemma FallbackOrder(html: string)
    ensures var norm := Normalise(html);
      (AllMatches(FullUrl, norm) != [] ==> BaseUrls(html) == Dedup(Canonicals(AllMatches(FullUrl, norm)))) &&
      (AllMatches(FullUrl, norm) == [] && AllMatches(ProtocolRelative, norm) != [] ==>
        BaseUrls(html) == Dedup(Canonicals(AllMatches(ProtocolRelative, norm)))) &&
      (AllMatches(ProtocolRelative, norm) == [] ==>
        BaseUrls(html) == Dedup(Canonicals(AllMatches(BareId, norm))))
  {
    var norm := Normalise(html);
    if AllMatches(FullUrl, norm) != [] {
      ProtocolRelativeFindsWhenFullUrlDoes(norm);
    }
  }

  // ---------------------------------------------------------------------
  // Assembly of the records
  // ---------------------------------------------------------------------

  function DownloadUrl(baseUrl: string): string { baseUrl + DownloadSuffix }

  /** `description || \`ผลงาน ${i + 1}\``. */
  function DescriptionOr(description: string, i: nat): (d: string)
    ensures d != []
    ensures description != [] ==> d == description
    ensures description == [] ==> d == WorkPrefix + NatToString(i + 1)
  {
    if description != [] then description else WorkPrefix + NatToString(i + 1)
  }

  /** The record pushed for photo `i` (gallery.ts:101-108). */
  function Photo(i: nat, baseUrl: string, c: Classification): GalleryImage {
    GalleryImage("photo_" + NatToString(i), baseUrl + DisplaySuffix, DisplayWidth, DisplayHeight,
      c.category, Some(DescriptionOr(c.description, i)))
  }

  /** The classifier runs for `urls`: photo `i` meets `outcomes(i)` on its successive attempts. */
  function Runs(urls: seq<string>, outcomes: nat -> nat -> CallOutcome, parse: Parser): (r: seq<ClassifyRun>)
    ensures |r| == |urls|
    ensures forall i :: 0 <= i < |r| ==> RetryWaits(r[i])
  {
    var r := seq(|urls|, i requires 0 <= i < |urls| => ClassifyImage(DownloadUrl(urls[i]), outcomes(i), parse));
    assert forall i :: 0 <= i < |r| ==> r[i] == ClassifyImage(DownloadUrl(urls[i]), outcomes(i), parse);
    r
  }

  /** The waits of one run are a prefix of the back-off schedule 15 s, 30 s, 45 s. */
  predicate RetryWaits(run: ClassifyRun) {
    |run.waits| <= 3 && run.waits == [15000, 30000, 45000][..|run.waits|]
  }

  /** The records of the first `k` photos, photo `i` classified by `runs[i]`. */
  function Records(urls: seq<string>, runs: seq<ClassifyRun>, k: nat): (r: seq<GalleryImage>)
    requires k <= |urls| == |runs|
    ensures |r| == k
    decreases k
  {
    if k == 0 then []
    else Records(urls, runs, k - 1) + [Photo(k - 1, urls[k - 1], runs[k - 1].result)]
  }

  /** The waits requested while handling the first `k` of `urls`: retries, and 13 s after every photo but the last. */
  function Timeline(urls: seq<string>, runs: seq<ClassifyRun>, k: nat): seq<nat>
    requires k <= |urls| == |runs|
    decreases k
  {
    if k == 0 then []
    else
      Timeline(urls, runs, k - 1) + runs[k - 1].waits
        + (if k - 1 < |urls| - 1 then [PacingDelayMs] else [])
  }

  /** The loop at gallery.ts:93-124, classifying the photos one after another. */
  method Assemble(urls: seq<string>, outcomes: nat -> nat -> CallOutcome, parse: Parser)
    returns (images: seq<GalleryImage>, delays: seq<nat>)
    ensures images == Records(urls, Runs(urls, outcomes, parse), |urls|)
    ensures delays == Timeline(urls, Runs(urls, outcomes, parse), |urls|)
  {
    ghost var runs := Runs(urls, outcomes, parse);
    images, delays := [], [];
    for i := 0 to |urls|
      invariant images == Records(urls, runs, i)
      invariant delays == Timeline(urls, runs, i)
    {
      var run := ClassifyImage(DownloadUrl(urls[i]), outcomes(i), parse);
      assert run == runs[i];
      images := images + [Photo(i, urls[i], run.result)];
      delays := delays + run.waits;
      if i < |urls| - 1 {
        delays := delays + [PacingDelayMs];
      }
    }
  }

  /** Record `i` is the one built from base URL `i` and the classification of photo `i`. */
  lemma {:induction false} RecordAt(urls: seq<string>, runs: seq<ClassifyRun>, k: nat, i: nat)
    requires i < k <= |urls| == |runs|
    ensures Records(urls, runs, k)[i] == Photo(i, urls[i], runs[i].result)
    decreases k
  {
    var prev, last := Records(urls, runs, k - 1), Photo(k - 1, urls[k - 1], runs[k - 1].result);
    assert Records(urls, runs, k) == prev + [last];
    if i < k - 1 {
      RecordAt(urls, runs, k - 1, i);
      assert (prev + [last])[i] == prev[i];
    }
  }

  /**
   * Record `i` describes base URL `i`: id `photo_i`, the `=w800` URL, 1200×800,
   * the classifier's category, and its description or `ผลงาน {i+1}` when that is empty.
   */
  lemma RecordsFollowUrls(urls: seq<string>, runs: seq<ClassifyRun>, i: nat)
    requires i < |urls| == |runs|
    ensures var r := Records(urls, runs, |urls|)[i];
      var c := runs[i].result;
      r.id == "photo_" + NatToString(i) && r.url == urls[i] + DisplaySuffix &&
      r.width == DisplayWidth && r.height == DisplayHeight && r.category == c.category &&
      r.description == Some(if c.description != [] then c.description else WorkPrefix + NatToString(i + 1))
  {
    RecordAt(urls, runs, |urls|, i);
  }

  /** Ids are pairwise distinct and every record has a non-empty description. */
  lemma RecordsIdsDistinct(urls: seq<string>, runs: seq<ClassifyRun>)
    requires |urls| == |runs|
    ensures var rs := Records(urls, runs, |urls|);
      (forall i, j :: 0 <= i < j < |rs| ==> rs[i].id != rs[j].id) &&
      (forall i :: 0 <= i < |rs| ==> rs[i].description.Some? && rs[i].description.value != [])
  {
    var rs := Records(urls, runs, |urls|);
    forall i, j | 0 <= i < j < |rs| ensures rs[i].id != rs[j].id {
      RecordAt(urls, runs, |urls|, i);
      RecordAt(urls, runs, |urls|, j);
      NatToStringInjective(i, j);
      assert rs[i].id[6..] == NatToString(i) && rs[j].id[6..] == NatToString(j);
    }
    forall i | 0 <= i < |rs| ensures rs[i].description.Some? && rs[i].description.value != [] {
      RecordAt(urls, runs, |urls|, i);
    }
  }

  /** Waits between photos: `n` photos give exactly `n - 1` pacing delays of 13 s, as retry waits are never 13 s. */
  lemma {:induction false} PacingDelays(urls: seq<string>, runs: seq<ClassifyRun>, k: nat)
    requires k <= |urls| == |runs| && urls != []
    requires forall i :: 0 <= i < |runs| ==> RetryWaits(runs[i])
    ensures Count(Timeline(urls, runs, k), PacingDelayMs) == if k < |urls| then k else k - 1
    decreases k
  {
    if k == 0 { return; }
    var waits := runs[k - 1].waits;
    assert RetryWaits(runs[k - 1]);
    assert PacingDelayMs !in waits;
    CountAbsent(waits, PacingDelayMs);
    var tail := if k - 1 < |urls| - 1 then [PacingDelayMs] else [];
    var before := Timeline(urls, runs, k - 1);
    assert Timeline(urls, runs, k) == before + waits + tail;
    CountAppend(before + waits, tail, PacingDelayMs);
    CountAppend(before, waits, PacingDelayMs);
    PacingDelays(urls, runs, k - 1);
    if k < |urls| {
      assert tail[1..] == [];
    }
  }

  /** For the whole list, the number of pacing delays is one less than the number of photos. */
  lemma PacingDelaysAll(urls: seq<string>, outcomes: nat -> nat -> CallOutcome, parse: Parser)
    requires urls != []
    ensures Count(Timeline(urls, Runs(urls, outcomes, parse), |urls|), PacingDelayMs) == |urls| - 1
  {
    PacingDelays(urls, Runs(urls, outcomes, parse), |urls|);
  }

  // ---------------------------------------------------------------------
  // The fixed fallback list and the entry points
  // ---------------------------------------------------------------------

  /** `getMockData()` (gallery.ts:208-223). */
  function MockData(): (r: seq<GalleryImage>)
    ensures |r| == 12
  {
    seq(12, k requires 0 <= k < 12 => MockEntry(k))
  }

  /** Entry `k` of the fallback list, kept as four columns: id, image URL, category, description. */
  function MockEntry(k: nat): GalleryImage
    requires k < 12
  {
    GalleryImage(MockId(k), MockUrl(k), DisplayWidth, DisplayHeight, MockCategory(k), Some(MockDescription(k)))
  }

  /** The ids of the fallback entries. */
  function MockId(k: nat): string
    requires k < 12
  {
    match k
    case 0 => "1"
    case 1 => "2"
    case 2 => "3"
    case 3 => "4"
    case 4 => "5"
    case 5 => "6"
    case 6 => "7"
    case 7 => "8"
    case 8 => "9"
    case 9 => "10"
    case 10 => "11"
    case _ => "12"
  }

  /** The Unsplash image of each fallback entry. */
  function MockUrl(k: nat): string
    requires k < 12
  {
    UnsplashPrefix + MockPhotoId(k) + UnsplashQuery
  }

  const UnsplashPrefix: string := "https://images.unsplash.com/" + "photo-"
  const UnsplashQuery: string := "?q=80" + "&w=1200" + "&auto=format" + "&fit=crop"

  /** The Unsplash photo of each fallback entry. */
  function MockPhotoId(k: nat): string
    requires k < 12
  {
    match k
    case 0 => "1558494949-ef010cbdcc31"
    case 1 => "1557597774-9d273605dfa9"
    case 2 => "1498050108023-c5249f4df085"
    case 3 => "1544197150-b99a580bb7a8"
    case 4 => "1520697830682-bbb6e85e2b0b"
    case 5 => "1551288049-bebda4e38f71"
    case 6 => "1573164713988-8665fc963095"
    case 7 => "1517430816045-df4b7de11d1d"
    case 8 => "1453873531674-2151bcd01707"
    case 9 => "1504307651254-35680f356dfd"
    case 10 => "1621905251918-48416bd8575a"
    case _ => "1531482615713-2afd69097998"
  }

  /** The category of each fallback entry. */
  function MockCategory(k: nat): Category
    requires k < 12
  {
    match k
    case 0 => NetworkFiber
    case 1 => CctvSecurity
    case 2 => SoftwareAi
    case 3 => NetworkFiber
    case 4 => CctvSecurity
    case 5 => SoftwareAi
    case 6 => NetworkFiber
    case 7 => SoftwareAi
    case 8 => CctvSecurity
    case 9 => OnSiteWork
    case 10 => OnSiteWork
    case _ => TeamTraining
  }

  /** The description of each fallback entry. */
  function MockDescription(k: nat): string
    requires k < 12
  {
    match k
    case 0 => "ห้อง Server ได้มาตรฐาน สายเป็นระเบียบ ค้นหาง่าย"
    case 1 => "กล้องภาพชัด ดูง่าย ทั้งกลางวันและกลางคืน"
    case 2 => "Dashboard บริหารข้อมูลองค์กรแบบ Real-time"
    case 3 => "เดินสาย LAN อย่างเป็นระเบียบ คงทนยาวนาน"
    case 4 => "ติดตั้งกล้องครอบคลุมทุกจุด ปลอดภัยตลอด 24 ชม."
    case 5 => "ระบบรายงานผลอัตโนมัติ ลดงานซ้ำซ้อนได้ทันที"
    case 6 => "เดินสายไฟเบอร์ออปติก สัญญาณแรง ไม่หลุดไม่สะดุด"
    case 7 => "ระบบ AI Automation ลดเวลางานลงกว่า 70%"
    case 8 => "ศูนย์ควบคุมกล้องวงจรปิด ดูแลได้จากทุกที่"
    case 9 => "ลงพื้นที่จริง ทำงานละเอียด ไม่ทิ้งงาน"
    case 10 => "ช่างผู้เชี่ยวชาญลงพื้นที่ติดตั้งด้วยตนเอง"
    case _ => "อบรมทีมงานเพิ่มทักษะใหม่ รองรับเทคโนโลยียุค AI"
  }

  /** The fallback records have ids "1" to "12" in order, the display size, and a description. */
  lemma MockDataShape()
    ensures forall k :: 0 <= k < 12 ==>
      MockData()[k].id == NatToString(k + 1) &&
      MockData()[k].width == DisplayWidth && MockData()[k].height == DisplayHeight &&
      MockData()[k].description.Some?
  {
    forall k | 0 <= k < 12
      ensures MockData()[k].id == NatToString(k + 1) &&
        MockData()[k].width == DisplayWidth && MockData()[k].height == DisplayHeight &&
        MockData()[k].description.Some?
    {
      MockIdsInOrder(k);
    }
  }

  /** The id column counts from "1" to "12". */
  lemma MockIdsInOrder(k: nat)
    requires k < 12
    ensures MockId(k) == NatToString(k + 1)
  {
    match k
    case 0 => assert NatToString(1) == "1";
    case 1 => assert NatToString(2) == "2";
    case 2 => assert NatToString(3) == "3";
    case 3 => assert NatToString(4) == "4";
    case 4 => assert NatToString(5) == "5";
    case 5 => assert NatToString(6) == "6";
    case 6 => assert NatToString(7) == "7";
    case 7 => assert NatToString(8) == "8";
    case 8 => assert NatToString(9) == "9";
    case 9 => NatToStringTeens(10);
    case 10 => NatToStringTeens(11);
    case 11 => NatToStringTeens(12);
  }

  lemma NatToStringTeens(n: nat)
    requires 10 <= n < 20
    ensures NatToString(n) == ['1', DigitChar(n - 10)]
  {
    assert n / 10 == 1 && n % 10 == n - 10;
  }

  /** No two fallback records share an id. */
  lemma MockIdsDistinct()
    ensures forall i, j :: 0 <= i < j < 12 ==> MockData()[i].id != MockData()[j].id
  {
    forall i, j | 0 <= i < j < 12 ensures MockData()[i].id != MockData()[j].id {
      MockIdsDiffer(i, j);
    }
  }

  lemma MockIdsDiffer(i: nat, j: nat)
    requires i < j < 12
    ensures MockId(i) != MockId(j)
  {
    MockIdsInOrder(i);
    MockIdsInOrder(j);
    NatToStringInjective(i + 1, j + 1);
  }

  function MockCategorySet(): set<Category> {
    set k | 0 <= k < 12 :: MockData()[k].category
  }

  /** The fallback list shows every category but `Uncategorized`. */
  lemma MockCategories()
    ensures forall c: Category :: c in MockCategorySet() <==> c != Uncategorized
  {
    forall c: Category ensures c in MockCategorySet() <==> c != Uncategorized {
      if c == Uncategorized {
        forall k | 0 <= k < 12 ensures MockData()[k].category != c {
          assert MockData()[k].category == MockCategory(k);
        }
      } else {
        var k := match c
          case NetworkFiber => 0
          case CctvSecurity => 1
          case SoftwareAi => 2
          case OnSiteWork => 9
          case _ => 11;
        assert MockData()[k].category == MockCategory(k);
      }
    }
  }

  /** The album page as the fetch delivers it: an HTTP status and body, or a thrown error. */
  datatype AlbumResponse = AlbumPage(status: int, html: string) | AlbumUnreachable

  /** `response.ok`. */
  predicate IsOk(status: int) { 200 <= status <= 299 }

  /** Whether `_fetchAndClassify` gives up and returns the fallback list. */
  predicate AlbumFails(album: AlbumResponse) {
    album.AlbumUnreachable? || !IsOk(album.status) || BaseUrls(album.html) == []
  }

  /** `_fetchAndClassify()` (gallery.ts:31-131), with the requested waits alongside the photos. */
  method FetchAndClassify(album: AlbumResponse, outcomes: nat -> nat -> CallOutcome, parse: Parser)
    returns (photos: seq<GalleryImage>, delays: seq<nat>)
    ensures AlbumFails(album) ==> photos == MockData() && delays == []
    ensures !AlbumFails(album) ==>
      var urls := Take(BaseUrls(album.html), MaxPhotos);
      var runs := Runs(urls, outcomes, parse);
      photos == Records(urls, runs, |urls|) && delays == Timeline(urls, runs, |urls|)
    ensures !AlbumFails(album) ==>
      |photos| == (if |BaseUrls(album.html)| < MaxPhotos then |BaseUrls(album.html)| else MaxPhotos)
  {
    if album.AlbumUnreachable? || !IsOk(album.status) {
      return MockData(), [];
    }
    var allUrls := ExtractBaseUrls(album.html);
    if |allUrls| == 0 {
      return MockData(), [];
    }
    var uniqueBaseUrls := Take(allUrls, MaxPhotos);
    photos, delays := Assemble(uniqueBaseUrls, outcomes, parse);
  }

  /** `fetchAndClassifyPhotos()` (gallery.ts:18-29): the fallback list when the API key is unset or empty. */
  method FetchAndClassifyPhotos(apiKey: Option<string>, album: AlbumResponse, outcomes: nat -> nat -> CallOutcome, parse: Parser)
    returns (photos: seq<GalleryImage>)
    ensures apiKey.None? || apiKey.value == "" || AlbumFails(album) ==> photos == MockData()
    ensures apiKey.Some? && apiKey.value != "" && !AlbumFails(album) ==>
      var urls := Take(BaseUrls(album.html), MaxPhotos);
      photos == Records(urls, Runs(urls, outcomes, parse), |urls|)
    ensures 1 <= |photos| <= MaxPhotos
  {
    if apiKey.None? || apiKey.value == "" {
      return MockData();
    }
    var delays;
    photos, delays := FetchAndClassify(album, outcomes, parse);
  }
}
