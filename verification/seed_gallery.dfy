/**
 * The development-only seeding route (src/app/api/seed-gallery/route.ts): a
 * curated table of 30 photos written into the store with upserts, and the
 * visible/hidden counts of the store.
 */
module SeedGallery {
  import opened Wrappers
  import opened Text
  import opened Categories
  import opened GalleryDb

  /** An entry of `CURATED_PHOTOS`: a 10-character id prefix, a category label and a Thai description. */
  datatype Curated = Curated(key: string, cat: string, desc: string)

  const KeyPrefix: string := "AP1Gcz"

  /**
   * `Object.entries(CURATED_PHOTOS)`, in the order the table lists them
   * (route.ts:4-35); the table is kept as three columns of the same length.
   */
  function CuratedPhotos(): (r: seq<Curated>)
    ensures |r| == 30
  {
    seq(30, i requires 0 <= i < 30 => Curated(CuratedKeys()[i], CuratedCats()[i], CuratedDesc(i)))
  }

  /** The `cat` column. */
  function CuratedCats(): (r: seq<string>)
    ensures |r| == 30
  {
    [ "On-site Work", "CCTV & Security", "Team & Training", "Team & Training",
      "Team & Training", "Network & Fiber", "Network & Fiber", "Network & Fiber",
      "Network & Fiber", "On-site Work", "Network & Fiber", "Team & Training",
      "Network & Fiber", "On-site Work", "On-site Work", "On-site Work",
      "Network & Fiber", "Network & Fiber", "Network & Fiber", "Network & Fiber",
      "CCTV & Security", "CCTV & Security", "CCTV & Security", "Team & Training",
      "On-site Work", "On-site Work", "On-site Work", "On-site Work",
      "On-site Work", "CCTV & Security" ]
  }

  /** The `desc` column: the description of entry `i`. */
  function CuratedDesc(i: nat): string
    requires i < 30
  {
    match i
    case 0 => "ช่างขึ้นรถกระเช้าจัดระเบียบสายสื่อสารหน้าอาคาร"
    case 1 => "ติดตั้งกล้องวงจรปิดบนเสา พร้อมเก็บสายเข้ากล่องกันน้ำ"
    case 2 => "ทีมงานทดสอบระบบกล้องและอุปกรณ์ในห้องประชุม"
    case 3 => "ตั้งค่าอุปกรณ์บันทึกภาพและตรวจเช็คกล้องก่อนใช้งาน"
    case 4 => "ประชุมทีมและสาธิตการใช้งานระบบกล้องในห้องควบคุม"
    case 5 => "ติดตั้งอุปกรณ์รับสัญญาณไร้สายบนดาดฟ้าพร้อมเดินสาย"
    case 6 => "ช่างตั้งค่าตู้ควบคุมภายในอาคารด้วยโน้ตบุ๊ก"
    case 7 => "ตรวจสอบชุดอุปกรณ์สื่อสารบนดาดฟ้าและเตรียมเดินสาย"
    case 8 => "ติดตั้งเสาสัญญาณและอุปกรณ์สื่อสารบนจุดสูง"
    case 9 => "ทดสอบสัญญาณและเชื่อมต่ออุปกรณ์ภายนอกอาคาร"
    case 10 => "ตั้งค่าระบบรับสัญญาณพร้อมจัดการสายบนดาดฟ้า"
    case 11 => "ทีมงานเตรียมอุปกรณ์และทดสอบระบบในห้องปฏิบัติการ"
    case 12 => "ตรวจเช็คสวิตช์และอุปกรณ์เครือข่ายในตู้แร็ค"
    case 13 => "ช่างขึ้นบันไดติดตั้งและเดินสายบนเสาไฟ"
    case 14 => "งานลงพื้นที่ใช้รถกระเช้าซ่อมบำรุงสายสื่อสาร"
    case 15 => "ทีมช่างจัดระเบียบสายสื่อสารบนเสาในย่านชุมชน"
    case 16 => "ทีมงานช่วยกันคลี่สายสื่อสารจากม้วนสายขนาดใหญ่"
    case 17 => "ใช้งานเครื่องฟิวชันสไปซ์สำหรับเชื่อมต่อไฟเบอร์ออปติก"
    case 18 => "ติดตั้งตู้ควบคุมพร้อมเดินสายเข้ารางเก็บสายอย่างเรียบร้อย"
    case 19 => "ตรวจสอบและเข้าสายอุปกรณ์เครือข่ายในตู้เซิร์ฟเวอร์"
    case 20 => "ทดสอบภาพจากกล้องวงจรปิดผ่านจอมอนิเตอร์หน้างาน"
    case 21 => "หน้าจอควบคุม NVR แสดงภาพกล้องหลายจุดพร้อมกัน"
    case 22 => "ติดตั้งและต่อสายกล้องวงจรปิดแบบ IP พร้อมจ่ายไฟ"
    case 23 => "ประสานงานทีมช่างและแบ่งหน้าที่ในงานภาคสนาม"
    case 24 => "ช่างทำงานบนบันไดแก้ไขสายสื่อสารริมแม่น้ำ"
    case 25 => "ติดตั้งเสาและอุปกรณ์สื่อสารตลอดแนวทางเดิน"
    case 26 => "ลงพื้นที่ติดตั้งสายสื่อสารและอุปกรณ์บนเสา"
    case 27 => "ปรับตำแหน่งโครงเหล็กและเดินสายระบบไฟบนเสาสูง"
    case 28 => "ติดตั้งกล่องควบคุมและตรวจเช็คสายบนเสาไฟ"
    case _ => "ติดตั้งกล้องวงจรปิดเฝ้าระวังริมแม่น้ำ"
  }

  /** A four-character key suffix read as a base-256 number. */
  function SuffixCode(sfx: string): int
    requires |sfx| == 4
  {
    ((sfx[0] as int * 256 + sfx[1] as int) * 256 + sfx[2] as int) * 256 + sfx[3] as int
  }

  /** The keys of the table, in table order: `AP1Gcz` and a four-character suffix. */
  function CuratedKeys(): (r: seq<string>)
    ensures |r| == 30
  {
    seq(30, i requires 0 <= i < 30 => KeyPrefix + CuratedSuffix(i))
  }

  /** The last four characters of key `i`. */
  function CuratedSuffix(i: nat): string
    requires i < 30
  {
    match i
    case 0 => "MRup"
    case 1 => "PJjI"
    case 2 => "PZRM"
    case 3 => "P9wR"
    case 4 => "NJCX"
    case 5 => "NmCK"
    case 6 => "MCmj"
    case 7 => "Pkgh"
    case 8 => "OZR-"
    case 9 => "Phx5"
    case 10 => "PLfa"
    case 11 => "OWTM"
    case 12 => "OKc9"
    case 13 => "PRRa"
    case 14 => "ONVb"
    case 15 => "OaqY"
    case 16 => "MyFw"
    case 17 => "OCbw"
    case 18 => "MJ-a"
    case 19 => "OTZS"
    case 20 => "Or1f"
    case 21 => "POOG"
    case 22 => "Pun6"
    case 23 => "ORWq"
    case 24 => "PT6W"
    case 25 => "MyQp"
    case 26 => "P4lC"
    case 27 => "ONWv"
    case 28 => "Mjc8"
    case _ => "Nj6O"
  }

  /** The entry whose suffix has `SuffixCode` equal to `code`; 30 for any other number. */
  function CodeIndex(code: int): nat {
    if code == 1297249648 then 0
    else if code == 1347054153 then 1
    else if code == 1348096589 then 2
    else if code == 1345943378 then 3
    else if code == 1313489752 then 4
    else if code == 1315783499 then 5
    else if code == 1296264554 then 6
    else if code == 1349216104 then 7
    else if code == 1331319341 then 8
    else if code == 1349023797 then 9
    else if code == 1347184225 then 10
    else if code == 1331123277 then 11
    else if code == 1330340665 then 12
    else if code == 1347572321 then 13
    else if code == 1330533986 then 14
    else if code == 1331786073 then 15
    else if code == 1299793527 then 16
    else if code == 1329816183 then 17
    else if code == 1296706913 then 18
    else if code == 1330928211 then 19
    else if code == 1332883814 then 20
    else if code == 1347374919 then 21
    else if code == 1349873206 then 22
    else if code == 1330796401 then 23
    else if code == 1347696215 then 24
    else if code == 1299796336 then 25
    else if code == 1345612867 then 26
    else if code == 1330534262 then 27
    else if code == 1298817848 then 28
    else if code == 1315583567 then 29
    else 30
  }

  /** Each suffix's code leads back to its entry, so no two suffixes are equal. */
  lemma SuffixesIndexed()
    ensures forall i :: 0 <= i < 30 ==> |CuratedSuffix(i)| == 4 && CodeIndex(SuffixCode(CuratedSuffix(i))) == i
  {
    SuffixesIndexedFrom0();
    SuffixesIndexedFrom10();
    SuffixesIndexedFrom20();
  }

  lemma SuffixesIndexedFrom0()
    ensures forall i :: 0 <= i < 10 ==> |CuratedSuffix(i)| == 4 && CodeIndex(SuffixCode(CuratedSuffix(i))) == i
  {
  }

  lemma SuffixesIndexedFrom10()
    ensures forall i :: 10 <= i < 20 ==> |CuratedSuffix(i)| == 4 && CodeIndex(SuffixCode(CuratedSuffix(i))) == i
  {
  }

  lemma SuffixesIndexedFrom20()
    ensures forall i :: 20 <= i < 30 ==> |CuratedSuffix(i)| == 4 && CodeIndex(SuffixCode(CuratedSuffix(i))) == i
  {
  }

  /** Every curated key is 10 characters starting with `AP1Gcz`, and no key repeats. */
  lemma CuratedKeysWellFormed()
    ensures forall i :: 0 <= i < 30 ==> |CuratedPhotos()[i].key| == 10 && StartsWith(CuratedPhotos()[i].key, KeyPrefix)
    ensures forall i, j :: 0 <= i < j < 30 ==> CuratedPhotos()[i].key != CuratedPhotos()[j].key
  {
    SuffixesIndexed();
    forall i | 0 <= i < 30
      ensures |CuratedPhotos()[i].key| == 10 && StartsWith(CuratedPhotos()[i].key, KeyPrefix)
    {
      var k := CuratedPhotos()[i].key;
      assert k == KeyPrefix + CuratedSuffix(i);
      assert k[..6] == KeyPrefix;
    }
    forall i, j | 0 <= i < j < 30 ensures CuratedPhotos()[i].key != CuratedPhotos()[j].key {
      var ki, kj := CuratedPhotos()[i].key, CuratedPhotos()[j].key;
      assert ki == KeyPrefix + CuratedSuffix(i) && kj == KeyPrefix + CuratedSuffix(j);
      assert ki[6..] == CuratedSuffix(i) && kj[6..] == CuratedSuffix(j);
      assert CodeIndex(SuffixCode(ki[6..])) == i && CodeIndex(SuffixCode(kj[6..])) == j;
    }
  }

  lemma CuratedCatsAreLabels()
    ensures forall i :: 0 <= i < 30 ==> IsLabel(CuratedCats()[i])
  {
  }

  /** Every curated `cat` is a label of the category enumeration. */
  lemma CuratedCategoriesAreLabels()
    ensures forall i :: 0 <= i < 30 ==> IsLabel(CuratedPhotos()[i].cat)
  {
    CuratedCatsAreLabels();
  }

  // ---------------------------------------------------------------------
  // POST: the seeding loop
  // ---------------------------------------------------------------------

  /** The row a curated entry is written as. */
  function RowOf(e: Curated): PhotoRow {
    PhotoRow(e.key, e.cat, Some(e.desc), false)
  }

  /** The store after upserting the entries one after another. */
  function SeedRows(rows: map<string, PhotoRow>, es: seq<Curated>): map<string, PhotoRow>
    decreases |es|
  {
    if es == [] then rows
    else
      var e := es[|es| - 1];
      Upserted(SeedRows(rows, es[..|es| - 1]), e.key, e.cat, Some(e.desc), false)
  }

  predicate KeysDistinct(es: seq<Curated>) {
    forall i, j :: 0 <= i < j < |es| ==> es[i].key != es[j].key
  }

  /** Some entry of `es` has key `k`. */
  ghost predicate Lists(es: seq<Curated>, k: string) {
    exists i :: 0 <= i < |es| && es[i].key == k
  }

  /**
   * Seeding writes every entry's row under its key (entries have distinct
   * keys), adds those keys and nothing else, and leaves every other row as it was.
   */
  lemma SeedRowsEffect(rows: map<string, PhotoRow>, es: seq<Curated>)
    requires KeysDistinct(es)
    ensures forall i :: 0 <= i < |es| ==> es[i].key in SeedRows(rows, es) && SeedRows(rows, es)[es[i].key] == RowOf(es[i])
    ensures forall k :: k in SeedRows(rows, es) <==> k in rows || Lists(es, k)
    ensures forall k :: k in rows && !Lists(es, k) ==> SeedRows(rows, es)[k] == rows[k]
  {
    SeedRowsWrites(rows, es);
    SeedRowsKeys(rows, es);
    SeedRowsOthers(rows, es);
  }

  lemma {:induction false} SeedRowsWrites(rows: map<string, PhotoRow>, es: seq<Curated>)
    requires KeysDistinct(es)
    ensures forall i :: 0 <= i < |es| ==> es[i].key in SeedRows(rows, es) && SeedRows(rows, es)[es[i].key] == RowOf(es[i])
    decreases |es|
  {
    if es != [] {
      var init := es[..|es| - 1];
      assert KeysDistinct(init);
      SeedRowsWrites(rows, init);
      forall i | 0 <= i < |es|
        ensures es[i].key in SeedRows(rows, es) && SeedRows(rows, es)[es[i].key] == RowOf(es[i])
      {
        if i < |init| {
          assert init[i] == es[i];
        }
      }
    }
  }

  lemma {:induction false} SeedRowsKeys(rows: map<string, PhotoRow>, es: seq<Curated>)
    ensures forall k :: k in SeedRows(rows, es) <==> k in rows || Lists(es, k)
    decreases |es|
  {
    if es != [] {
      var init := es[..|es| - 1];
      var e := es[|es| - 1];
      SeedRowsKeys(rows, init);
      assert SeedRows(rows, es).Keys == SeedRows(rows, init).Keys + {e.key};
      forall k ensures Lists(es, k) <==> Lists(init, k) || k == e.key {
        if Lists(init, k) {
          var i :| 0 <= i < |init| && init[i].key == k;
          assert es[i].key == k;
        }
        if Lists(es, k) && k != e.key {
          var i :| 0 <= i < |es| && es[i].key == k;
          assert init[i].key == k;
        }
      }
    }
  }

  lemma {:induction false} SeedRowsOthers(rows: map<string, PhotoRow>, es: seq<Curated>)
    ensures forall k :: k in rows && !Lists(es, k) ==> k in SeedRows(rows, es) && SeedRows(rows, es)[k] == rows[k]
    decreases |es|
  {
    SeedRowsKeys(rows, es);
    if es != [] {
      var init := es[..|es| - 1];
      SeedRowsOthers(rows, init);
      forall k | k in rows && !Lists(es, k) ensures SeedRows(rows, es)[k] == rows[k] {
        forall i | 0 <= i < |init| ensures init[i].key != k {
          assert init[i] == es[i];
        }
        assert k != es[|es| - 1].key;
      }
    }
  }

  /** Seeding twice leaves the store as seeding once. */
  lemma SeedIdempotent(rows: map<string, PhotoRow>, es: seq<Curated>)
    requires KeysDistinct(es)
    ensures SeedRows(SeedRows(rows, es), es) == SeedRows(rows, es)
  {
    var once := SeedRows(rows, es);
    SeedRowsEffect(rows, es);
    SeedRowsEffect(once, es);
    var twice := SeedRows(once, es);
    assert twice.Keys == once.Keys;
    forall k | k in once ensures twice[k] == once[k] {
      if i :| 0 <= i < |es| && es[i].key == k {
      }
    }
  }

  /** The answer of `POST`. */
  datatype SeedResponse = NotAllowed | Seeded(message: string, total: nat) | SeedError

  function Status(r: SeedResponse): nat {
    match r
    case NotAllowed => 403
    case Seeded(_, _) => 200
    case SeedError => 500
  }

  /** `Seeded ${seeded} photos, skipped ${skipped}`. */
  function SeedMessage(seeded: nat, skipped: nat): string {
    "Seeded " + NatToString(seeded) + " photos, skipped " + NatToString(skipped)
  }

  /**
   * `POST()` (route.ts:37-74). In production nothing is written. Otherwise the
   * entries are upserted in order; when upsert number `failAt` throws, the
   * earlier ones stay written and the answer is a 500.
   */
  method Post(store: GalleryStore, production: bool, failAt: Option<nat>) returns (resp: SeedResponse)
    requires store.Valid()
    modifies store
    ensures store.Valid()
    ensures production ==> resp == NotAllowed && store.rows == old(store.rows)
    ensures !production && (failAt.None? || failAt.value >= 30) ==>
      resp == Seeded(SeedMessage(30, 0), 30) && store.rows == SeedRows(old(store.rows), CuratedPhotos())
    ensures !production && failAt.Some? && failAt.value < 30 ==>
      resp == SeedError && store.rows == SeedRows(old(store.rows), CuratedPhotos()[..failAt.value])
  {
    if production {
      return NotAllowed;
    }
    var seeded := UpsertAll(store, CuratedPhotos(), failAt);
    var skipped: nat := 0;
    if seeded.None? {
      return SeedError;
    }
    resp := Seeded(SeedMessage(seeded.value, skipped), seeded.value);
  }

  /**
   * The loop at route.ts:47-63: upsert the entries in order, counting them;
   * `None` when upsert number `failAt` throws, the earlier ones staying written.
   */
  method UpsertAll(store: GalleryStore, table: seq<Curated>, failAt: Option<nat>) returns (seeded: Option<nat>)
    requires store.Valid()
    modifies store
    ensures store.Valid()
    ensures failAt.None? || failAt.value >= |table| ==>
      seeded == Some(|table|) && store.rows == SeedRows(old(store.rows), table)
    ensures failAt.Some? && failAt.value < |table| ==>
      seeded.None? && store.rows == SeedRows(old(store.rows), table[..failAt.value])
  {
    var count: nat := 0;
    for k := 0 to |table|
      invariant store.Valid()
      invariant count == k
      invariant store.rows == SeedRows(old(store.rows), table[..k])
      invariant failAt.Some? ==> k <= failAt.value
    {
      if failAt == Some(k) {
        return None;
      }
      var e := table[k];
      assert table[..k + 1][..k] == table[..k];
      var _ := store.Upsert(e.key, e.cat, Some(e.desc), false);
      count := count + 1;
    }
    assert table[..|table|] == table;
    seeded := Some(count);
  }

  /** The message a successful seeding returns. */
  lemma SeedMessageText()
    ensures SeedMessage(30, 0) == "Seeded 30 photos, skipped 0"
  {
    assert 30 / 10 == 3 && 30 % 10 == 0;
    assert NatToString(30) == NatToString(3) + [DigitChar(0)] == "30";
    assert NatToString(0) == "0";
  }

  /** After a successful seeding every curated id holds its category and description, visible. */
  lemma SeedWritesCurated(rows: map<string, PhotoRow>)
    ensures forall i :: 0 <= i < 30 ==>
      CuratedPhotos()[i].key in SeedRows(rows, CuratedPhotos()) &&
      SeedRows(rows, CuratedPhotos())[CuratedPhotos()[i].key] ==
        PhotoRow(CuratedPhotos()[i].key, CuratedPhotos()[i].cat, Some(CuratedPhotos()[i].desc), false)
    ensures forall k :: k in rows && (forall i :: 0 <= i < 30 ==> CuratedPhotos()[i].key != k) ==>
      k in SeedRows(rows, CuratedPhotos()) && SeedRows(rows, CuratedPhotos())[k] == rows[k]
  {
    CuratedKeysWellFormed();
    SeedRowsEffect(rows, CuratedPhotos());
  }

  /** Seeding the curated table twice gives the store seeding it once gives. */
  lemma SeedCuratedIdempotent(rows: map<string, PhotoRow>)
    ensures SeedRows(SeedRows(rows, CuratedPhotos()), CuratedPhotos()) == SeedRows(rows, CuratedPhotos())
  {
    CuratedKeysWellFormed();
    SeedIdempotent(rows, CuratedPhotos());
  }

  // ---------------------------------------------------------------------
  // GET: the counts
  // ---------------------------------------------------------------------

  datatype CountsResponse = Counts(total: int, visible: int, hidden: int) | CountsError

  function VisibleIds(rows: map<string, PhotoRow>): set<string> {
    set id | id in rows && !rows[id].isHidden
  }

  function HiddenIds(rows: map<string, PhotoRow>): set<string> {
    set id | id in rows && rows[id].isHidden
  }

  /** `GET()` (route.ts:76-84): `hidden` is the number of hidden rows. */
  method Get(store: GalleryStore, fault: bool) returns (resp: CountsResponse)
    ensures fault ==> resp == CountsError
    ensures !fault ==> resp.Counts? && resp.total == |store.rows| && resp.visible == |VisibleIds(store.rows)|
    ensures !fault ==> resp.hidden == |HiddenIds(store.rows)| && 0 <= resp.visible <= resp.total
  {
    if fault {
      return CountsError;
    }
    var count := |store.rows|;
    var visible := |VisibleIds(store.rows)|;
    HiddenIsTheRest(store.rows);
    resp := Counts(count, visible, count - visible);
  }

  /** Visible and hidden rows split the table. */
  lemma HiddenIsTheRest(rows: map<string, PhotoRow>)
    ensures |rows| == |VisibleIds(rows)| + |HiddenIds(rows)|
  {
    assert rows.Keys == VisibleIds(rows) + HiddenIds(rows);
    assert VisibleIds(rows) * HiddenIds(rows) == {};
    assert |rows| == |rows.Keys|;
  }
}
