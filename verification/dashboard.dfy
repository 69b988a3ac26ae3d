/**
 * The admin dashboard's uptime clock and gallery-stats total
 * (src/components/AdminDashboard.tsx). The interval callback is a method
 * of a `Dashboard` object that takes the current clock reading as input;
 * the locale-formatted time string is an input too.
 */
module Dashboard {
  import opened Text

  /** `Math.trunc(a / b)` for `b > 0`: the quotient rounded toward zero. */
  function TruncDiv(a: int, b: int): int
    requires b > 0
  {
    if a >= 0 then a / b else -((-a) / b)
  }

  /**
   * JavaScript `a % b` for `b > 0`: the remainder of the quotient rounded
   * toward zero, so it takes the sign of `a`.
   */
  function JsRem(a: int, b: int): (r: int)
    requires b > 0
    ensures a == b * TruncDiv(a, b) + r
    ensures a >= 0 ==> 0 <= r < b && r == a % b
    ensures a < 0 ==> -b < r <= 0
  {
    if a >= 0 then a % b
    else
      assert b * -((-a) / b) == -(b * ((-a) / b));
      -((-a) % b)
  }

  /** `Math.floor((now - start) / 1000)`; Dafny's `/` by a positive divisor is already the floor. */
  function ElapsedSeconds(start: int, now: int): int { (now - start) / 1000 }

  function Hours(elapsed: int): int { elapsed / 3600 }
  function Minutes(elapsed: int): int { JsRem(elapsed, 3600) / 60 }
  function Seconds(elapsed: int): int { JsRem(elapsed, 60) }

  /** `String(n).padStart(2, "0")`. */
  function Pad2(n: int): string { PadStart(IntToString(n), 2, '0') }

  /**
   * The `${h}:${m}:${s}` text shown as the uptime; for a non-negative count it
   * reads back as that count.
   */
  function UptimeText(elapsed: int): (t: string)
    ensures elapsed >= 0 ==> ReadsAs(t, elapsed)
  {
    var t := Pad2(Hours(elapsed)) + ":" + Pad2(Minutes(elapsed)) + ":" + Pad2(Seconds(elapsed));
    if elapsed >= 0 then
      PartsRoundTrip(elapsed);
      PartsReadBack(Hours(elapsed), Minutes(elapsed), Seconds(elapsed), t, elapsed);
      t
    else t
  }

  /** A clock that has not gone backwards gives a non-negative elapsed count, whole seconds rounded down. */
  lemma ElapsedSpec(start: int, now: int)
    ensures now >= start ==> ElapsedSeconds(start, now) >= 0
    ensures ElapsedSeconds(start, now) * 1000 <= now - start < ElapsedSeconds(start, now) * 1000 + 1000
  {
  }

  /** For a non-negative count, minutes and seconds are below 60 and the three parts add back up to it. */
  lemma PartsRoundTrip(elapsed: int)
    requires elapsed >= 0
    ensures 0 <= Minutes(elapsed) < 60 && 0 <= Seconds(elapsed) < 60 && Hours(elapsed) >= 0
    ensures Hours(elapsed) * 3600 + Minutes(elapsed) * 60 + Seconds(elapsed) == elapsed
  {
    var r := elapsed % 3600;
    assert elapsed == Hours(elapsed) * 3600 + r;
    assert r == Minutes(elapsed) * 60 + r % 60;
    assert elapsed % 60 == r % 60 by {
      assert elapsed == (Hours(elapsed) * 60) * 60 + r;
    }
  }

  /** Padding a digit string with zeros keeps its value. */
  lemma PadStartValue(s: string, width: nat)
    requires AllDigits(s)
    ensures AllDigits(PadStart(s, width, '0'))
    ensures DigitsValue(PadStart(s, width, '0')) == DigitsValue(s)
  {
    var r := PadStart(s, width, '0');
    var k := |r| - |s|;
    assert r == Repeat('0', k) + s;
    LeadingZerosValue(k, s);
  }

  /** A padded part is at least two characters, exactly two below 100, never cut, and reads back as the number. */
  lemma Pad2Spec(n: nat)
    ensures |Pad2(n)| >= 2 && AllDigits(Pad2(n)) && DigitsValue(Pad2(n)) == n
    ensures n < 100 <==> |Pad2(n)| == 2
    ensures |Pad2(n)| >= |NatToString(n)|
  {
    Pad2Value(n);
    Pad2Width(n);
  }

  lemma Pad2Value(n: nat)
    ensures |Pad2(n)| >= 2 && AllDigits(Pad2(n)) && DigitsValue(Pad2(n)) == n
  {
    var s := NatToString(n);
    assert IntToString(n) == s;
    PadStartValue(s, 2);
    NatToStringRoundTrip(n);
  }

  lemma Pad2Width(n: nat)
    ensures n < 100 <==> |Pad2(n)| == 2
    ensures |Pad2(n)| >= |NatToString(n)|
  {
    assert IntToString(n) == NatToString(n);
    NatToStringShort(n);
  }

  /** Below 100 a number takes at most two digits, and from 100 on at least three. */
  lemma NatToStringShort(n: nat)
    ensures |NatToString(n)| <= 2 <==> n < 100
  {
    if n >= 100 {
      NatToStringAtLeastThree(n);
    } else if n >= 10 {
      assert |NatToString(n)| == |NatToString(n / 10)| + 1;
      assert n / 10 < 10;
    }
  }

  lemma NatToStringAtLeastThree(n: nat)
    requires n >= 100
    ensures |NatToString(n)| >= 3
  {
    assert |NatToString(n)| == |NatToString(n / 10)| + 1;
    assert n / 10 >= 10;
  }

  /** Where the parts of an `h:mm:ss` text lie. */
  lemma ClockLayout(h: string, m: string, s: string)
    requires |m| == 2 && |s| == 2
    ensures var t := h + ":" + m + ":" + s;
      |t| == |h| + 6 && t[|t| - 6] == ':' && t[|t| - 3] == ':' &&
      t[..|t| - 6] == h && t[|t| - 5..|t| - 3] == m && t[|t| - 2..] == s
  {
  }

  /**
   * `t` reads as `e` seconds: its last six characters are ":mm:ss", and the
   * digits before them (as many as needed) are the hours.
   */
  predicate ReadsAs(t: string, e: int) {
    |t| >= 8 && t[|t| - 6] == ':' && t[|t| - 3] == ':' &&
    AllDigits(t[..|t| - 6]) && AllDigits(t[|t| - 5..|t| - 3]) && AllDigits(t[|t| - 2..]) &&
    DigitsValue(t[..|t| - 6]) * 3600 + DigitsValue(t[|t| - 5..|t| - 3]) * 60 + DigitsValue(t[|t| - 2..]) == e
  }

  lemma PartsReadBack(h: nat, m: nat, s: nat, t: string, e: int)
    requires m < 60 && s < 60
    requires t == Pad2(h) + ":" + Pad2(m) + ":" + Pad2(s) && e == h * 3600 + m * 60 + s
    ensures ReadsAs(t, e)
  {
    Pad2Value(h);
    Pad2Value(m);
    Pad2Value(s);
    Pad2Width(m);
    Pad2Width(s);
    DigitsReadBack(Pad2(h), Pad2(m), Pad2(s), t, h, m, s, e);
  }

  lemma DigitsReadBack(hs: string, ms: string, ss: string, t: string, h: nat, m: nat, s: nat, e: int)
    requires |hs| >= 2 && |ms| == 2 && |ss| == 2 && AllDigits(hs) && AllDigits(ms) && AllDigits(ss)
    requires DigitsValue(hs) == h && DigitsValue(ms) == m && DigitsValue(ss) == s
    requires t == hs + ":" + ms + ":" + ss && e == h * 3600 + m * 60 + s
    ensures ReadsAs(t, e)
  {
    ClockLayout(hs, ms, ss);
  }

  /** The initial "00:00:00" is the text for zero seconds. */
  lemma InitialUptime()
    ensures UptimeText(0) == "00:00:00"
  {
    assert NatToString(0) == "0";
    assert Pad2(0) == "00";
  }

  /** The dashboard's clock state. */
  class Dashboard {
    const start: int
    var currentTime: string
    var uptime: string

    /** The component mounts at `start`, showing no time and zero uptime. */
    constructor (start: int)
      ensures this.start == start && currentTime == "" && uptime == "00:00:00"
    {
      this.start := start;
      currentTime := "";
      uptime := "00:00:00";
    }

    /** One run of the interval callback at clock reading `now`. */
    method Tick(now: int, localTime: string)
      modifies this
      ensures currentTime == localTime && uptime == UptimeText(ElapsedSeconds(start, now))
    {
      currentTime := localTime;
      var elapsed := (now - start) / 1000;
      var h := Pad2(elapsed / 3600);
      var m := Pad2(JsRem(elapsed, 3600) / 60);
      var s := Pad2(JsRem(elapsed, 60));
      uptime := h + ":" + m + ":" + s;
    }
  }

  // ---------------------------------------------------------------------
  // Gallery stats
  // ---------------------------------------------------------------------

  datatype GalleryStat = GalleryStat(name: string, count: int)

  function GalleryStats(): (r: seq<GalleryStat>)
    ensures |r| == 3 && forall i :: 0 <= i < |r| ==> r[i].count == 0
  {
    [GalleryStat("CCTV / Security", 0), GalleryStat("Network / Infra", 0), GalleryStat("Software / Dev", 0)]
  }

  /** `stats.reduce((a, b) => a + b.count, 0)`. */
  function StatsTotal(stats: seq<GalleryStat>): int
    decreases |stats|
  {
    if stats == [] then 0 else StatsTotal(stats[..|stats| - 1]) + stats[|stats| - 1].count
  }

  /** The total adds up the parts: over a concatenation it is the sum of the two totals. */
  lemma {:induction false} StatsTotalAppend(a: seq<GalleryStat>, b: seq<GalleryStat>)
    ensures StatsTotal(a + b) == StatsTotal(a) + StatsTotal(b)
    decreases |b|
  {
    if b == [] {
      assert a + b == a;
    } else {
      assert (a + b)[..|a + b| - 1] == a + b[..|b| - 1];
      StatsTotalAppend(a, b[..|b| - 1]);
    }
  }

  /** With non-negative counts the total bounds each count, and it is 0 exactly when all counts are 0. */
  lemma {:induction false} StatsTotalBounds(stats: seq<GalleryStat>)
    requires forall i :: 0 <= i < |stats| ==> stats[i].count >= 0
    ensures forall i :: 0 <= i < |stats| ==> stats[i].count <= StatsTotal(stats)
    ensures StatsTotal(stats) == 0 <==> forall i :: 0 <= i < |stats| ==> stats[i].count == 0
    decreases |stats|
  {
    if stats != [] {
      var init := stats[..|stats| - 1];
      StatsTotalBounds(init);
    }
  }

  /** The dashboard as shipped shows a total of 0. */
  lemma ShippedTotalIsZero()
    ensures StatsTotal(GalleryStats()) == 0
  {
    StatsTotalBounds(GalleryStats());
  }
}
