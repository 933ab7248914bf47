/**
 The live stats block (internal/otlp/proxy_sparkline.go and the formatting half of
 internal/otlp/proxy_stderr_writer.go). Rates are reals; every character is one column wide.
 */
module StatsBlock {
  import opened ProxyStats
  import opened Wrappers

  const SPARKLINE_HISTORY_CAPACITY := 30
  const SPARKLINE_MIN_WIDTH := 5
  const SPARKLINE_DEFAULT_WIDTH := 5
  const FIXED_OVERHEAD := 8 + 1 + 5 + 2 + 1 + 1 + 6
  const ASSUMED_TOTAL_WIDTH := 10
  const SAFETY_MARGIN := 2

  // Seven block elements of rising height.
  const GLYPHS: string := ['\U{2581}', '\U{2582}', '\U{2583}', '\U{2584}', '\U{2585}', '\U{2586}', '\U{2587}']

  // ----- Sparkline -----

  function Max(a: real, b: real): real {
    if a >= b then a else b
  }

  /** The largest value of the series, or zero if none is positive. */
  function Peak(series: seq<real>): real {
    if series == [] then 0.0 else Max(Peak(series[..|series| - 1]), series[|series| - 1])
  }

  /** Level of v on a scale from 0 to peak: the nearest one, halves rounded up. */
  function Level(v: real, peak: real): int {
    if v <= 0.0 || peak == 0.0 then 0 else (v / peak * 6.0 + 0.5).Floor
  }

  function SparklineOf(series: seq<real>): (spark: string)
    ensures |spark| == |series|
  {
    var peak := Peak(series);
    seq(|series|, i requires 0 <= i < |series| => PeakBounds(series, i); GLYPHS[Level(series[i], peak)])
  }

  method Sparkline(series: seq<real>) returns (spark: string)
    ensures spark == SparklineOf(series)
  {
    var maxVal := 0.0;
    for i := 0 to |series|
      invariant maxVal == Peak(series[..i])
    {
      if series[i] > maxVal {
        maxVal := series[i];
      }
      assert series[..i + 1][..i] == series[..i];
    }
    assert series[..|series|] == series;
    spark := "";
    for i := 0 to |series|
      invariant spark == SparklineOf(series)[..i]
    {
      var v := series[i];
      PeakBounds(series, i);
      if v <= 0.0 || maxVal == 0.0 {
        spark := spark + [GLYPHS[0]];
      } else {
        var idx := (v / maxVal * (|GLYPHS| - 1) as real + 0.5).Floor;
        if idx < 0 {
          idx := 0;
        } else if idx >= |GLYPHS| {
          idx := |GLYPHS| - 1;
        }
        spark := spark + [GLYPHS[idx]];
      }
    }
  }

  /** The clamps of the index are never needed. */
  lemma {:induction false} PeakBounds(series: seq<real>, i: nat)
    requires i < |series|
    ensures series[i] <= Peak(series) && Peak(series) >= 0.0
    ensures 0 <= Level(series[i], Peak(series)) < |GLYPHS|
  {
    PeakIsMax(series);
    Proportion(series[i], Peak(series));
  }

  lemma {:induction false} PeakIsMax(series: seq<real>)
    ensures Peak(series) >= 0.0
    ensures forall i :: 0 <= i < |series| ==> series[i] <= Peak(series)
    ensures Peak(series) == 0.0 || Peak(series) in series
  {
    if series != [] {
      var init := series[..|series| - 1];
      PeakIsMax(init);
      assert forall i :: 0 <= i < |init| ==> init[i] == series[i];
    }
  }

  lemma Proportion(v: real, peak: real)
    requires v <= peak && peak >= 0.0
    ensures 0 <= Level(v, peak) <= 6
    ensures v == peak > 0.0 ==> Level(v, peak) == 6
  {
    if 0.0 < v {
      ShareOfPeak(v, peak);
    }
  }

  lemma ShareOfPeak(v: real, peak: real)
    requires 0.0 < v <= peak
    ensures 0.0 < v / peak <= 1.0
    ensures v == peak ==> v / peak == 1.0
  {
  }

  /** A glyph is never more than half a level away from its value's share of the peak. */
  lemma NearestLevel(v: real, peak: real)
    requires 0.0 < v <= peak
    ensures Level(v, peak) as real - 0.5 <= v / peak * 6.0 < Level(v, peak) as real + 0.5
  {
  }

  /** Larger samples never get a lower glyph; the peak gets the highest, and what is not positive the lowest. */
  lemma GlyphsFollowSamples(series: seq<real>, i: nat, j: nat)
    requires i < |series| && j < |series| && series[i] <= series[j]
    ensures SparklineOf(series)[i] <= SparklineOf(series)[j]
    ensures series[j] <= 0.0 ==> SparklineOf(series)[j] == '\U{2581}'
    ensures series[j] == Peak(series) > 0.0 ==> SparklineOf(series)[j] == '\U{2587}'
  {
    hide Level, Peak;
    var peak := Peak(series);
    PeakBounds(series, i);
    PeakBounds(series, j);
    Proportion(series[j], peak);
    LevelMonotone(series[i], series[j], peak);
    LowestLevel(series[j], peak);
  }

  /** The seven glyphs are consecutive code points, and a positive sample gets the one nearest to its share of the peak. */
  lemma GlyphIsNearest(series: seq<real>, i: nat)
    requires i < |series|
    ensures var n := SparklineOf(series)[i] as int - 0x2581;
            && 0 <= n <= 6
            && (series[i] > 0.0 ==>
                  Peak(series) > 0.0 && n as real - 0.5 <= series[i] / Peak(series) * 6.0 < n as real + 0.5)
  {
    hide Level, Peak;
    PeakBounds(series, i);
    GlyphCodes(Level(series[i], Peak(series)));
    if series[i] > 0.0 {
      NearestLevel(series[i], Peak(series));
    }
  }

  lemma GlyphCodes(level: nat)
    requires level < |GLYPHS|
    ensures GLYPHS[level] as int == 0x2581 + level
  {
  }

  lemma LowestLevel(v: real, peak: real)
    ensures v <= 0.0 ==> Level(v, peak) == 0
  {
  }

  lemma LevelMonotone(v: real, w: real, peak: real)
    requires v <= w <= peak && peak >= 0.0
    ensures Level(v, peak) <= Level(w, peak)
  {
    Proportion(w, peak);
    if 0.0 < v {
      assert w / peak - v / peak == (w - v) / peak >= 0.0;
    }
  }

  function Times(c: real, v: real): real {
    c * v
  }

  function Scale(c: real, series: seq<real>): (scaled: seq<real>)
    ensures |scaled| == |series| && forall i :: 0 <= i < |series| ==> scaled[i] == Times(c, series[i])
  {
    if series == [] then [] else Scale(c, series[..|series| - 1]) + [Times(c, series[|series| - 1])]
  }

  /** The silhouette does not depend on the unit of the rates. */
  lemma ScaleFree(c: real, series: seq<real>)
    requires c > 0.0
    ensures SparklineOf(Scale(c, series)) == SparklineOf(series)
  {
    hide Level, Peak, Scale, Times;
    var scaled := Scale(c, series);
    PeakScales(c, series);
    forall i | 0 <= i < |series| ensures SparklineOf(scaled)[i] == SparklineOf(series)[i] {
      PeakBounds(series, i);
      PeakBounds(scaled, i);
      LevelScales(c, series[i], Peak(series));
    }
  }

  lemma LevelScales(c: real, v: real, peak: real)
    requires c > 0.0 && v <= peak && peak >= 0.0
    ensures Level(Times(c, v), Times(c, peak)) == Level(v, peak)
  {
    if 0.0 < v {
      SameQuotient(c, v, peak);
      assert c * v > 0.0;
    } else {
      assert c * v <= 0.0;
    }
  }

  lemma SameQuotient(c: real, v: real, peak: real)
    requires c > 0.0 && peak > 0.0
    ensures c * peak > 0.0 && (c * v) / (c * peak) == v / peak
  {
    var x, y := (c * v) / (c * peak), v / peak;
    assert x * (c * peak) == c * v;
    assert y * (c * peak) == c * (y * peak) == c * v;
    Cancel(x, y, c * peak);
  }

  lemma Cancel(x: real, y: real, d: real)
    requires x * d == y * d && d > 0.0
    ensures x == y
  {
    assert (x - y) * d == 0.0;
  }

  lemma {:induction false} PeakScales(c: real, series: seq<real>)
    requires c > 0.0
    ensures Peak(Scale(c, series)) == Times(c, Peak(series))
  {
    hide Times;
    if series == [] {
      ZeroTimes(c);
    } else {
      var n := |series| - 1;
      PeakScales(c, series[..n]);
      assert Scale(c, series)[..n] == Scale(c, series[..n]);
      MaxScales(Peak(series[..n]), series[n], c);
    }
  }

  lemma MaxScales(a: real, b: real, c: real)
    requires c > 0.0
    ensures Max(Times(c, a), Times(c, b)) == Times(c, Max(a, b))
  {
    if a >= b {
      assert c * (a - b) >= 0.0;
    } else {
      assert c * (b - a) > 0.0;
    }
  }

  lemma ZeroTimes(c: real)
    ensures Times(c, 0.0) == 0.0
  {
  }

  // ----- Numbers as text -----

  function Spaces(n: nat): (s: string)
    ensures |s| == n
  {
    seq(n, _ => ' ')
  }

  /** Right-aligned in w columns; wider text is kept whole. */
  function PadLeft(w: nat, text: string): (s: string)
    ensures |s| == if |text| < w then w else |text|
  {
    if |text| < w then Spaces(w - |text|) + text else text
  }

  lemma PadLeftAligns(w: nat, text: string, i: nat)
    requires i < |PadLeft(w, text)|
    ensures var s := PadLeft(w, text);
            s[|s| - |text|..] == text && (i < |s| - |text| ==> s[i] == ' ')
  {
    var s := PadLeft(w, text);
    assert s[|s| - |text|..] == text;
  }

  function DigitChar(d: nat): char
    requires d < 10
  {
    '0' + d as char
  }

  function Digits(n: nat): (s: string)
    ensures |s| >= 1
  {
    if n < 10 then [DigitChar(n)] else Digits(n / 10) + [DigitChar(n % 10)]
  }

  function FormatInt(n: int): (s: string)
    ensures |s| >= 1
  {
    if n < 0 then "-" + Digits(-n) else Digits(n)
  }

  /** Nearest integer, halves to even, as the %.0f verb rounds. */
  function RoundHalfEven(r: real): int {
    var f := r.Floor;
    var rest := r - f as real;
    if rest < 0.5 then f else if rest > 0.5 then f + 1 else if f % 2 == 0 then f else f + 1
  }

  /** The %.0f verb; a negative value keeps its sign even when it rounds to zero. */
  function FormatRate(r: real): (s: string)
    ensures |s| >= 1
  {
    if r < 0.0 then "-" + Digits(-RoundHalfEven(r)) else Digits(RoundHalfEven(r))
  }

  function Pow10(k: nat): nat {
    if k == 0 then 1 else 10 * Pow10(k - 1)
  }

  lemma {:induction false} DigitCount(n: nat, k: nat)
    requires k >= 1
    ensures |Digits(n)| <= k <==> n < Pow10(k)
    decreases k
  {
    if k == 1 {
      assert Pow10(1) == 10;
    } else if n >= 10 {
      DigitCount(n / 10, k - 1);
    } else {
      Pow10AtLeast(k);
    }
  }

  lemma {:induction false} Pow10AtLeast(k: nat)
    requires k >= 1
    ensures Pow10(k) >= 10
  {
    if k > 1 {
      Pow10AtLeast(k - 1);
    } else {
      assert Pow10(1) == 10;
    }
  }

  function ValueOf(s: string): int {
    if s == "" then 0 else 10 * ValueOf(s[..|s| - 1]) + (s[|s| - 1] as int - '0' as int)
  }

  /** The digits printed are those of the number. */
  lemma {:induction false} DigitsReadBack(n: nat)
    ensures ValueOf(Digits(n)) == n
  {
    if n >= 10 {
      DigitsReadBack(n / 10);
      assert Digits(n)[..|Digits(n)| - 1] == Digits(n / 10);
    } else {
      assert Digits(n)[..0] == "";
    }
  }

  /** A printed rate is the nearest whole number, the even one of two. */
  lemma RateReadsBack(r: real)
    requires r >= 0.0
    ensures var n := ValueOf(FormatRate(r));
            && n as real - 0.5 <= r <= n as real + 0.5
            && (r == n as real - 0.5 || r == n as real + 0.5 ==> n % 2 == 0)
  {
    hide Digits, ValueOf, RoundHalfEven;
    RoundNearest(r);
    DigitsReadBack(RoundHalfEven(r));
  }

  lemma RoundNearest(r: real)
    requires r >= 0.0
    ensures var n := RoundHalfEven(r);
            && n >= 0 && n as real - 0.5 <= r <= n as real + 0.5
            && (r == n as real - 0.5 || r == n as real + 0.5 ==> n % 2 == 0)
  {
  }

  /** The digits of a negative number follow a minus sign. */
  lemma SignsReadBack(n: int, r: real)
    requires n >= 0
    ensures n > 0 ==> FormatInt(-n)[0] == '-' && ValueOf(FormatInt(-n)[1..]) == n
    ensures ValueOf(FormatInt(n)) == n
    ensures r < 0.0 ==> FormatRate(r)[0] == '-' && ValueOf(FormatRate(r)[1..]) == -RoundHalfEven(r)
  {
    hide ValueOf, Digits, RoundHalfEven;
    DigitsReadBack(n);
    if n > 0 {
      assert FormatInt(-n)[1..] == Digits(n);
    }
    if r < 0.0 {
      NegativeRounds(r);
      DigitsReadBack(-RoundHalfEven(r));
      assert FormatRate(r)[1..] == Digits(-RoundHalfEven(r));
    }
  }

  lemma NegativeRounds(r: real)
    requires r < 0.0
    ensures RoundHalfEven(r) <= 0
  {
  }

  // ----- Layout -----

  const LABELS: seq<string> := ["logs", "spans", "metrics"]
  const LABEL_WIDTH := |"metrics:"|

  /** Columns left for the sparkline; cols is what the terminal reports, if there is one and it answers. */
  function CurrentSparklineWidth(isTTY: bool, cols: Option<int>): (w: nat)
    ensures SPARKLINE_MIN_WIDTH <= w <= SPARKLINE_HISTORY_CAPACITY
  {
    if !isTTY || cols.None? || cols.value <= 0 then SPARKLINE_DEFAULT_WIDTH
    else
      var w := cols.value - FIXED_OVERHEAD - ASSUMED_TOTAL_WIDTH - SAFETY_MARGIN;
      if w < SPARKLINE_MIN_WIDTH then SPARKLINE_MIN_WIDTH
      else if w > SPARKLINE_HISTORY_CAPACITY then SPARKLINE_HISTORY_CAPACITY
      else w
  }

  /** On a terminal of known width the sparkline takes all but 36 columns, within 5 to 30; else 5. */
  lemma SparklineWidthIs(isTTY: bool, cols: Option<int>)
    ensures var w := CurrentSparklineWidth(isTTY, cols);
            if isTTY && cols.Some? && cols.value > 0 then
              w == if cols.value <= 41 then 5 else if cols.value >= 66 then 30 else cols.value - 36
            else w == 5
  {
  }

  /** The newest samples end at the right edge of exactly w columns. */
  function RenderPaddedSparkline(samples: seq<real>, w: nat): (s: string)
    ensures |s| == w
  {
    if samples == [] then Spaces(w)
    else
      var spark := SparklineOf(LastN(samples, w));
      if w > |spark| then Spaces(w - |spark|) + spark else spark
  }

  /** Counted from the right edge, column j shows the sample before the j newest ones, scaled
      to the peak of what is shown; columns without a sample are blank. */
  lemma NewestAtRightEdge(samples: seq<real>, w: nat, j: nat)
    requires j < w
    ensures var c := RenderPaddedSparkline(samples, w)[w - 1 - j];
            if j >= |samples| then c == ' '
            else
              var level := Level(samples[|samples| - 1 - j], Peak(LastN(samples, w)));
              0 <= level < |GLYPHS| && c == GLYPHS[level]
  {
    hide Level, Peak;
    var shown := LastN(samples, w);
    if j < |samples| {
      PeakBounds(shown, |shown| - 1 - j);
    }
  }

  function StatsLine(name: string, rate: real, spark: string, totalWidth: nat, total: string): string {
    PadLeft(LABEL_WIDTH, name + ":") + " " + PadLeft(5, FormatRate(rate)) + "/s " + spark + " "
      + PadLeft(totalWidth, total) + " total"
  }

  /** Digits of the widest of the first n totals. */
  function TotalWidth(forwarded: Counts, n: nat): (w: nat)
    requires n <= SIGNAL_COUNT
    ensures forall i :: 0 <= i < n ==> |FormatInt(forwarded[i])| <= w
  {
    if n == 0 then 0
    else
      var w := TotalWidth(forwarded, n - 1);
      if |FormatInt(forwarded[n - 1])| > w then |FormatInt(forwarded[n - 1])| else w
  }

  type Histories = s: seq<seq<real>> | |s| == SIGNAL_COUNT witness [[], [], []]

  function LineOf(history: Histories, snap: SnapshotWithRate, width: nat, i: nat): string
    requires i < SIGNAL_COUNT
  {
    StatsLine(LABELS[i], snap.rate[i], RenderPaddedSparkline(history[i], width),
              TotalWidth(snap.snapshot.forwarded, SIGNAL_COUNT), FormatInt(snap.snapshot.forwarded[i]))
  }

  /** The block: one line per signal. */
  function BlockLines(history: Histories, snap: SnapshotWithRate, width: int): (lines: seq<string>)
    ensures |lines| == SIGNAL_COUNT
  {
    var w := if width < 1 then 1 else width;
    seq(SIGNAL_COUNT, i requires 0 <= i < SIGNAL_COUNT => LineOf(history, snap, w, i))
  }

  /** The totals as text and the width of the widest. */
  method RenderTotals(forwarded: Counts) returns (totals: seq<string>, totalWidth: nat)
    ensures |totals| == SIGNAL_COUNT && forall i :: 0 <= i < SIGNAL_COUNT ==> totals[i] == FormatInt(forwarded[i])
    ensures totalWidth == TotalWidth(forwarded, SIGNAL_COUNT)
  {
    hide FormatInt;
    totals := [];
    totalWidth := 0;
    for i := 0 to SIGNAL_COUNT
      invariant |totals| == i && forall k :: 0 <= k < i ==> totals[k] == FormatInt(forwarded[k])
      invariant totalWidth == TotalWidth(forwarded, i)
    {
      totals := totals + [FormatInt(forwarded[i])];
      if |totals[i]| > totalWidth {
        totalWidth := |totals[i]|;
      }
    }
  }

  method FormatStatsBlock(history: Histories, snap: SnapshotWithRate, width: int) returns (out: seq<string>)
    ensures out == BlockLines(history, snap, width)
  {
    hide FormatInt, StatsLine, RenderPaddedSparkline, TotalWidth;
    var w := if width < 1 then 1 else width;
    var totals, totalWidth := RenderTotals(snap.snapshot.forwarded);
    out := [];
    for i := 0 to SIGNAL_COUNT
      invariant |out| == i && forall k :: 0 <= k < i ==> out[k] == LineOf(history, snap, w, k)
    {
      var spark := RenderPaddedSparkline(history[i], w);
      out := out + [StatsLine(LABELS[i], snap.rate[i], spark, totalWidth, totals[i])];
    }
  }

  /** Appends each signal's rate, dropping the oldest beyond the capacity. */
  method RecordRate(history: array<seq<real>>, rates: Rates)
    requires history.Length == SIGNAL_COUNT
    requires forall i :: 0 <= i < SIGNAL_COUNT ==> |history[i]| <= SPARKLINE_HISTORY_CAPACITY
    modifies history
    ensures forall i :: 0 <= i < SIGNAL_COUNT ==>
      history[i] == LastN(old(history[i]) + [rates[i]], SPARKLINE_HISTORY_CAPACITY)
  {
    for i := 0 to SIGNAL_COUNT
      invariant forall k :: 0 <= k < i ==>
        history[k] == LastN(old(history[k]) + [rates[k]], SPARKLINE_HISTORY_CAPACITY)
      invariant forall k :: i <= k < SIGNAL_COUNT ==> history[k] == old(history[k])
    {
      if |history[i]| >= SPARKLINE_HISTORY_CAPACITY {
        history[i] := history[i][1..];
      }
      history[i] := history[i] + [rates[i]];
    }
  }

  // ----- Width and alignment -----

  /** The rate column holds what is printed. */
  predicate RateFits(r: real) {
    |FormatRate(r)| <= 5
  }

  /** Exactly the rates that print in five columns. */
  lemma RateFitsIff(r: real)
    ensures RateFits(r) <==> -9999.5 < r < 99999.5
  {
    var n := RoundHalfEven(r);
    assert Pow10(5) == 100000 && Pow10(4) == 10000 by {
      assert Pow10(1) == 10 && Pow10(2) == 100 && Pow10(3) == 1000;
    }
    if r < 0.0 {
      DigitCount(-n, 4);
    } else {
      DigitCount(n, 5);
    }
  }

  predicate RatesFit(snap: SnapshotWithRate) {
    forall i :: 0 <= i < SIGNAL_COUNT ==> RateFits(snap.rate[i])
  }

  /** Columns a rate takes: five, or more if it does not fit them. */
  function RateColumns(r: real): (w: nat)
    ensures w >= 5 && (w == 5 <==> RateFits(r))
  {
    if |FormatRate(r)| < 5 then 5 else |FormatRate(r)|
  }

  /** Width of the line of one rate. */
  function LineWidth(rate: real, forwarded: Counts, width: int): int {
    FIXED_OVERHEAD - 5 + RateColumns(rate) + (if width < 1 then 1 else width) + TotalWidth(forwarded, SIGNAL_COUNT)
  }

  /** A line is as wide as its numbers make it, whatever the history. */
  lemma LineWidthIs(history: Histories, snap: SnapshotWithRate, width: int, i: nat)
    requires i < SIGNAL_COUNT
    ensures |BlockLines(history, snap, width)[i]| == LineWidth(snap.rate[i], snap.snapshot.forwarded, width)
  {
    hide FormatInt, FormatRate, RenderPaddedSparkline, TotalWidth;
    var w := if width < 1 then 1 else width;
    var forwarded := snap.snapshot.forwarded;
    assert BlockLines(history, snap, width)[i] == LineOf(history, snap, w, i);
    assert |LABELS[i] + ":"| <= LABEL_WIDTH;
    assert |FormatInt(forwarded[i])| <= TotalWidth(forwarded, SIGNAL_COUNT);
  }

  /** Two lines are equally wide exactly when their rates take equally many columns;
      rates that fit their column do. */
  lemma EqualWidthsIff(history: Histories, snap: SnapshotWithRate, width: int, i: nat, j: nat)
    requires i < SIGNAL_COUNT && j < SIGNAL_COUNT
    ensures |BlockLines(history, snap, width)[i]| == |BlockLines(history, snap, width)[j]|
       <==> RateColumns(snap.rate[i]) == RateColumns(snap.rate[j])
    ensures RatesFit(snap) ==> |BlockLines(history, snap, width)[i]| == |BlockLines(history, snap, width)[j]|
  {
    hide BlockLines, RateFits, TotalWidth, RateColumns;
    LineWidthIs(history, snap, width, i);
    LineWidthIs(history, snap, width, j);
    if RatesFit(snap) {
      assert RateFits(snap.rate[i]) && RateFits(snap.rate[j]);
      assert RateColumns(snap.rate[i]) == 5 == RateColumns(snap.rate[j]);
    }
  }

  /** Columns of the widest rate. */
  function WidestRate(snap: SnapshotWithRate): (w: nat)
    ensures w >= 5 && forall i :: 0 <= i < SIGNAL_COUNT ==> RateColumns(snap.rate[i]) <= w
    ensures exists i :: 0 <= i < SIGNAL_COUNT && RateColumns(snap.rate[i]) == w
  {
    var a, b, c := RateColumns(snap.rate[0]), RateColumns(snap.rate[1]), RateColumns(snap.rate[2]);
    if a >= b && a >= c then a else if b >= c then b else c
  }

  /** Width of the widest line. */
  function BlockWidth(snap: SnapshotWithRate, width: int): int {
    FIXED_OVERHEAD - 5 + WidestRate(snap) + (if width < 1 then 1 else width)
      + TotalWidth(snap.snapshot.forwarded, SIGNAL_COUNT)
  }

  lemma WidestLineDecides(history: Histories, snap: SnapshotWithRate, width: int, cols: int)
    ensures (forall i :: 0 <= i < SIGNAL_COUNT ==> |BlockLines(history, snap, width)[i]| <= cols)
       <==> BlockWidth(snap, width) <= cols
  {
    hide BlockLines, TotalWidth, WidestRate, RateColumns;
    forall i | 0 <= i < SIGNAL_COUNT
      ensures |BlockLines(history, snap, width)[i]| == LineWidth(snap.rate[i], snap.snapshot.forwarded, width)
    {
      LineWidthIs(history, snap, width, i);
    }
    var widest :| 0 <= widest < SIGNAL_COUNT && RateColumns(snap.rate[widest]) == WidestRate(snap);
    assert |BlockLines(history, snap, width)[widest]| == BlockWidth(snap, width);
  }

  /** The line of a signal, column by column: label, rate, sparkline, total. */
  lemma SameColumns(history: Histories, snap: SnapshotWithRate, width: nat, i: nat)
    requires RatesFit(snap) && i < SIGNAL_COUNT && width >= 1
    ensures var line := BlockLines(history, snap, width)[i];
            var tw := TotalWidth(snap.snapshot.forwarded, SIGNAL_COUNT);
            && |line| == 24 + width + tw
            && line[..8] == (if i == 0 then "   logs:" else if i == 1 then "  spans:" else "metrics:")
            && line[8] == ' ' && line[9..14] == PadLeft(5, FormatRate(snap.rate[i])) && line[14..17] == "/s "
            && line[17..17 + width] == RenderPaddedSparkline(history[i], width) && line[17 + width] == ' '
            && line[18 + width..18 + width + tw] == PadLeft(tw, FormatInt(snap.snapshot.forwarded[i]))
            && line[18 + width + tw..] == " total"
  {
    hide FormatInt, FormatRate, RenderPaddedSparkline, SparklineOf, TotalWidth, PadLeft;
    LineWidthIs(history, snap, width, i);
    assert RateFits(snap.rate[i]);
    var tw := TotalWidth(snap.snapshot.forwarded, SIGNAL_COUNT);
    assert |FormatInt(snap.snapshot.forwarded[i])| <= tw;
    assert |LABELS[i] + ":"| <= 8;
    assert BlockLines(history, snap, width)[i] == LineOf(history, snap, width, i);
    LabelsAre(i);
    Fields(PadLeft(8, LABELS[i] + ":"), PadLeft(5, FormatRate(snap.rate[i])),
           RenderPaddedSparkline(history[i], width), PadLeft(tw, FormatInt(snap.snapshot.forwarded[i])));
  }

  lemma LabelsAre(i: nat)
    requires i < 3
    ensures PadLeft(8, LABELS[i] + ":") == if i == 0 then "   logs:" else if i == 1 then "  spans:" else "metrics:"
  {
  }

  lemma Fields(name: string, rate: string, spark: string, total: string)
    requires |name| == 8 && |rate| == 5
    ensures var line := name + " " + rate + "/s " + spark + " " + total + " total";
            var w, tw := |spark|, |total|;
            && |line| == 24 + w + tw
            && line[..8] == name && line[8] == ' ' && line[9..14] == rate && line[14..17] == "/s "
            && line[17..17 + w] == spark && line[17 + w] == ' '
            && line[18 + w..18 + w + tw] == total && line[18 + w + tw..] == " total"
  {
  }

  lemma {:induction false} TotalWidthAttained(forwarded: Counts, n: nat)
    requires 1 <= n <= SIGNAL_COUNT
    ensures exists i :: 0 <= i < n && |FormatInt(forwarded[i])| == TotalWidth(forwarded, n)
  {
    hide FormatInt;
    if n > 1 {
      TotalWidthAttained(forwarded, n - 1);
    } else {
      assert |FormatInt(forwarded[0])| == TotalWidth(forwarded, 1);
    }
  }

  /** Column widths are those of the numbers: k columns hold every total below 10^k. */
  lemma TotalsFitIff(forwarded: Counts, k: nat)
    requires k >= 1 && forall i :: 0 <= i < SIGNAL_COUNT ==> forwarded[i] >= 0
    ensures TotalWidth(forwarded, SIGNAL_COUNT) <= k <==> forall i :: 0 <= i < SIGNAL_COUNT ==> forwarded[i] < Pow10(k)
  {
    hide Digits, Pow10, TotalWidth;
    TotalWidthAttained(forwarded, SIGNAL_COUNT);
    forall i | 0 <= i < SIGNAL_COUNT ensures |FormatInt(forwarded[i])| <= k <==> forwarded[i] < Pow10(k) {
      DigitCount(forwarded[i], k);
    }
  }

  /** The lines keep `margin` columns free at the right edge (two are meant to be) exactly when
      the terminal is wide enough for the narrowest sparkline and these numbers; with numbers beyond
      the five-column rates and ten-digit totals assumed when sizing, only if it is wide enough
      for the widest sparkline. */
  lemma LeavesMarginIff(snap: SnapshotWithRate, cols: int, margin: nat)
    requires cols > 0 && margin <= SAFETY_MARGIN
    ensures var numbers := WidestRate(snap) - 5 + TotalWidth(snap.snapshot.forwarded, SIGNAL_COUNT);
            BlockWidth(snap, CurrentSparklineWidth(true, Some(cols))) + margin <= cols
            <==> cols >= FIXED_OVERHEAD + numbers + margin
                       + if numbers + margin <= ASSUMED_TOTAL_WIDTH + SAFETY_MARGIN then SPARKLINE_MIN_WIDTH
                         else SPARKLINE_HISTORY_CAPACITY
  {
    hide TotalWidth, WidestRate;
  }

  /** The case the constants are made for: 41 columns, five-column rates, ten-digit totals. */
  lemma FitsAsSized(history: Histories, snap: SnapshotWithRate, cols: int, i: nat)
    requires cols >= 41 && i < SIGNAL_COUNT && RatesFit(snap) && TotalWidth(snap.snapshot.forwarded, SIGNAL_COUNT) <= 10
    ensures |BlockLines(history, snap, CurrentSparklineWidth(true, Some(cols)))[i]| <= cols - SAFETY_MARGIN
  {
    hide TotalWidth, BlockLines;
    assert RateFits(snap.rate[i]);
    LineWidthIs(history, snap, CurrentSparklineWidth(true, Some(cols)), i);
  }
}
