/**
 The stderr writer (internal/otlp/proxy_stderr_writer.go): it redraws a block of stats lines
 in place and inserts messages above it. Run on a terminal, it shows a plain log with the
 latest block below.
 */
module StderrWriter {
  import opened ProxyStats
  import opened StatsBlock
  import opened Terminal
  import opened Wrappers

  datatype Event = Tick(snap: SnapshotWithRate) | Lifecycle(message: string)

  /** Whether stderr is a terminal, and the width it reports, if it does. */
  datatype Tty = Tty(isTTY: bool, cols: Option<int>)

  /** Column 0, up to the block's first line, clear to the end of the screen. */
  const ERASE: string := "\r" + [ESC] + "[" + Digits(SIGNAL_COUNT - 1) + "A" + [ESC] + "[J"

  function Join(lines: seq<string>): string {
    if lines == [] then ""
    else if |lines| == 1 then lines[0]
    else Join(lines[..|lines| - 1]) + "\n" + lines[|lines| - 1]
  }

  function Block(tty: Tty, history: Histories, snap: SnapshotWithRate): string {
    Join(BlockLines(history, snap, CurrentSparklineWidth(tty.isTTY, tty.cols)))
  }

  // ----- What the writer does -----

  datatype Writer = Writer(history: Histories, last: Option<SnapshotWithRate>, blockRendered: bool, out: string)

  const INITIAL := Writer([[], [], []], None, false, "")

  function Erase(tty: Tty, w: Writer): Writer {
    if !tty.isTTY || !w.blockRendered then w else w.(out := w.out + ERASE, blockRendered := false)
  }

  function Render(tty: Tty, w: Writer): Writer {
    if !tty.isTTY || w.last.None? then w
    else
      var e := Erase(tty, w);
      e.(out := e.out + Block(tty, e.history, e.last.value), blockRendered := true)
  }

  function RecordRates(history: Histories, rates: Rates): Histories {
    seq(SIGNAL_COUNT, i requires 0 <= i < SIGNAL_COUNT =>
      LastN(history[i] + [rates[i]], SPARKLINE_HISTORY_CAPACITY))
  }

  function Step(tty: Tty, w: Writer, e: Event): Writer {
    match e
    case Tick(snap) => Render(tty, w.(history := RecordRates(w.history, snap.rate), last := Some(snap)))
    case Lifecycle(message) =>
      var erased := Erase(tty, w);
      Render(tty, erased.(out := erased.out + message + "\n"))
  }

  function Steps(tty: Tty, w: Writer, events: seq<Event>): Writer {
    if events == [] then w else Step(tty, Steps(tty, w, events[..|events| - 1]), events[|events| - 1])
  }

  class StderrWriter {
    const tty: Tty
    const history: array<seq<real>>
    var lastSnapshot: SnapshotWithRate
    var lastSnapshotSet: bool
    var blockRendered: bool
    var out: string

    ghost predicate Valid()
      reads this, history
    {
      && history.Length == SIGNAL_COUNT
      && forall i :: 0 <= i < SIGNAL_COUNT ==> |history[i]| <= SPARKLINE_HISTORY_CAPACITY
    }

    ghost function State(): Writer
      reads this, history
      requires Valid()
    {
      Writer(history[..], if lastSnapshotSet then Some(lastSnapshot) else None, blockRendered, out)
    }

    constructor (tty: Tty)
      ensures Valid() && fresh(history) && this.tty == tty && State() == INITIAL
    {
      this.tty := tty;
      history := new seq<real>[SIGNAL_COUNT](_ => []);
      lastSnapshot := SnapshotWithRate(Snapshot([0, 0, 0], [0, 0, 0], 0.0), [0.0, 0.0, 0.0]);
      lastSnapshotSet, blockRendered, out := false, false, "";
    }

    method EraseBlock()
      requires Valid()
      modifies this
      ensures Valid() && State() == Erase(tty, old(State()))
    {
      if !tty.isTTY || !blockRendered {
        return;
      }
      out := out + ERASE;
      blockRendered := false;
    }

    method RenderBlock()
      requires Valid()
      modifies this
      ensures Valid() && State() == Render(tty, old(State()))
    {
      if !tty.isTTY || !lastSnapshotSet {
        return;
      }
      EraseBlock();
      var lines := FormatStatsBlock(history[..], lastSnapshot, CurrentSparklineWidth(tty.isTTY, tty.cols));
      out := out + Join(lines);
      blockRendered := true;
    }

    method OnTick(snap: SnapshotWithRate)
      requires Valid()
      modifies this, history
      ensures Valid() && State() == Step(tty, old(State()), Tick(snap))
    {
      RecordRate(history, snap.rate);
      assert history[..] == RecordRates(old(history[..]), snap.rate);
      lastSnapshot := snap;
      lastSnapshotSet := true;
      RenderBlock();
    }

    method OnLifecycle(message: string)
      requires Valid()
      modifies this
      ensures Valid() && State() == Step(tty, old(State()), Lifecycle(message))
    {
      EraseBlock();
      out := out + message + "\n";
      RenderBlock();
    }

    /** The events are those received before cancellation, in the order they were received. */
    method Run(events: seq<Event>)
      requires Valid()
      modifies this, history
      ensures Valid() && State() == Erase(tty, Steps(tty, old(State()), events))
    {
      for i := 0 to |events|
        invariant Valid() && State() == Steps(tty, old(State()), events[..i])
      {
        assert events[..i + 1][..i] == events[..i];
        match events[i]
        case Tick(snap) => OnTick(snap);
        case Lifecycle(message) => OnLifecycle(message);
      }
      assert events[..|events|] == events;
      EraseBlock();
    }
  }

  // ----- What there is to show -----

  /** Every message so far, each on lines of its own. */
  function Log(events: seq<Event>): string {
    if events == [] then ""
    else
      Log(events[..|events| - 1])
        + match events[|events| - 1]
          case Tick(_) => ""
          case Lifecycle(message) => message + "\n"
  }

  function Ticks(events: seq<Event>): seq<SnapshotWithRate> {
    if events == [] then []
    else
      Ticks(events[..|events| - 1])
        + match events[|events| - 1]
          case Tick(snap) => [snap]
          case Lifecycle(_) => []
  }

  function RatesOf(ticks: seq<SnapshotWithRate>, i: nat): seq<real>
    requires i < SIGNAL_COUNT
  {
    seq(|ticks|, k requires 0 <= k < |ticks| => ticks[k].rate[i])
  }

  /** Each signal's last thirty rates. */
  function HistoryOf(ticks: seq<SnapshotWithRate>): Histories {
    seq(SIGNAL_COUNT, i requires 0 <= i < SIGNAL_COUNT => LastN(RatesOf(ticks, i), SPARKLINE_HISTORY_CAPACITY))
  }

  /** The latest block: nothing before the first tick. */
  function LatestBlock(tty: Tty, ticks: seq<SnapshotWithRate>): string {
    if ticks == [] then "" else Block(tty, HistoryOf(ticks), ticks[|ticks| - 1])
  }

  predicate IsStateAfter(tty: Tty, w: Writer, events: seq<Event>) {
    var ticks := Ticks(events);
    && w.history == HistoryOf(ticks)
    && w.last == (if ticks == [] then None else Some(ticks[|ticks| - 1]))
    && w.blockRendered == (tty.isTTY && ticks != [])
  }

  lemma RecordsRates(ticks: seq<SnapshotWithRate>, snap: SnapshotWithRate)
    ensures RecordRates(HistoryOf(ticks), snap.rate) == HistoryOf(ticks + [snap])
  {
    hide LastN;
    forall i | 0 <= i < SIGNAL_COUNT
      ensures RecordRates(HistoryOf(ticks), snap.rate)[i] == HistoryOf(ticks + [snap])[i]
    {
      assert RatesOf(ticks + [snap], i) == RatesOf(ticks, i) + [snap.rate[i]];
      LastNSnoc(RatesOf(ticks, i), snap.rate[i], SPARKLINE_HISTORY_CAPACITY);
      LastNSnoc(LastN(RatesOf(ticks, i), SPARKLINE_HISTORY_CAPACITY), snap.rate[i], SPARKLINE_HISTORY_CAPACITY);
      LastNIsShort(RatesOf(ticks, i), SPARKLINE_HISTORY_CAPACITY);
    }
  }

  lemma LastNIsShort(s: seq<real>, n: nat)
    ensures |LastN(s, n)| <= n && LastN(LastN(s, n), n) == LastN(s, n)
  {
  }

  lemma {:induction false} StateAfter(tty: Tty, events: seq<Event>)
    ensures IsStateAfter(tty, Steps(tty, INITIAL, events), events)
  {
    hide Block, HistoryOf, RecordRates;
    if events == [] {
      assert HistoryOf([]) == [[], [], []] by { NoHistory(); }
    } else {
      var init := events[..|events| - 1];
      StateAfter(tty, init);
      match events[|events| - 1]
      case Tick(snap) => RecordsRates(Ticks(init), snap);
      case Lifecycle(_) =>
        assert Ticks(events) == Ticks(init);
    }
  }

  lemma NoHistory()
    ensures HistoryOf([]) == [[], [], []]
  {
  }

  // ----- What the terminal shows -----

  /** The screen shows base with text typed on it, and text began on the screen. */
  ghost predicate Shows(size: Size, s: Screen, base: Page, text: string) {
    && Ready(size, s)
    && Clean(base) && base.col == 0
    && s.top <= base.row
    && s.page == Type(size.cols, base, text)
  }

  /** The terminal the writer finds: large enough, nothing below the cursor, which is at column 0. */
  predicate Fresh(size: Size, s: Screen) {
    Ready(size, s) && size.rows >= SIGNAL_COUNT && Clean(s.page) && s.page.col == 0
  }

  lemma Typed(size: Size, s: Screen, base: Page, t: string)
    requires Shows(size, s, base, "") && IsText(t) && t != "" && t[|t| - 1] == '\n'
    ensures Shows(size, Feed(size, s, t), Type(size.cols, base, t), "")
  {
    FeedIsType(size, s, t);
    TypeKeeps(size.cols, base, t);
  }

  /** The erase sequence, character by character. */
  lemma EraseEffect(size: Size, s: Screen)
    requires Ready(size, s)
    ensures var row := if s.page.row - 2 < s.top then s.top else s.page.row - 2;
            Feed(size, s, ERASE) == Screen(Page(EraseBelow(s.page.cells, row, 0), row, 0), s.top, Ground)
  {
    hide EraseBelow;
    assert Digits(SIGNAL_COUNT - 1) == "2";
    var t: string := ['\r', ESC, '[', '2', 'A', ESC, '[', 'J'];
    assert ERASE == t;
    FeedPrefix(size, s, t, 0);
    FeedPrefix(size, s, t, 1);
    FeedPrefix(size, s, t, 2);
    FeedPrefix(size, s, t, 3);
    FeedPrefix(size, s, t, 4);
    FeedPrefix(size, s, t, 5);
    FeedPrefix(size, s, t, 6);
    FeedPrefix(size, s, t, 7);
    assert t[..8] == t && t[..0] == "";
  }

  lemma FeedPrefix(size: Size, s: Screen, t: string, k: nat)
    requires k < |t|
    ensures Feed(size, s, t[..k + 1]) == FeedChar(size, Feed(size, s, t[..k]), t[k])
  {
    assert t[..k + 1][..k] == t[..k];
  }

  // ----- One block -----

  predicate IsBlock(lines: seq<string>) {
    |lines| == SIGNAL_COUNT && forall i :: 0 <= i < SIGNAL_COUNT ==> IsLine(lines[i])
  }

  predicate LinesFit(cols: int, lines: seq<string>) {
    forall i :: 0 <= i < |lines| ==> |lines[i]| <= cols
  }

  lemma JoinThree(lines: seq<string>)
    requires IsBlock(lines)
    ensures Join(lines) == lines[0] + "\n" + lines[1] + "\n" + lines[2]
    ensures IsText(Join(lines))
  {
    assert lines[..2][..1] == [lines[0]];
    assert Join([lines[0]]) == lines[0];
    assert Join(lines[..2]) == lines[0] + "\n" + lines[1];
  }

  /** Three lines move the cursor two rows down exactly when none of them wraps. */
  lemma BlockRows(cols: int, p: Page, lines: seq<string>)
    requires IsBlock(lines) && cols >= 1 && p.col == 0
    ensures var q := Type(cols, p, Join(lines));
            q.row >= p.row + 2 && (q.row == p.row + 2 <==> LinesFit(cols, lines))
  {
    JoinThree(lines);
    var p0 := Type(cols, p, lines[0]);
    var p1 := TypeChar(cols, p0, '\n');
    var p2 := Type(cols, p1, lines[1]);
    var p3 := TypeChar(cols, p2, '\n');
    var p4 := Type(cols, p3, lines[2]);
    assert p4 == Type(cols, p, Join(lines)) by {
      TypeConcat(cols, p, lines[0] + "\n" + lines[1] + "\n", lines[2]);
      TypeConcat(cols, p, lines[0] + "\n" + lines[1], "\n");
      TypeConcat(cols, p, lines[0] + "\n", lines[1]);
      TypeConcat(cols, p, lines[0], "\n");
      TypeOne(cols, p0, '\n');
      TypeOne(cols, p2, '\n');
    }
    TypeLine(cols, p, lines[0]);
    TypeLine(cols, p1, lines[1]);
    TypeLine(cols, p3, lines[2]);
  }

  lemma TypeOne(cols: int, p: Page, c: char)
    ensures Type(cols, p, [c]) == TypeChar(cols, p, c)
  {
    assert [c][..0] == "";
    assert Type(cols, p, "") == p;
  }

  lemma BlockDrawn(size: Size, s: Screen, base: Page, lines: seq<string>)
    requires Shows(size, s, base, "") && size.rows >= SIGNAL_COUNT && IsBlock(lines) && LinesFit(size.cols, lines)
    ensures Shows(size, Feed(size, s, Join(lines)), base, Join(lines))
  {
    hide Clean;
    JoinThree(lines);
    FeedIsType(size, s, Join(lines));
    BlockRows(size.cols, base, lines);
  }

  lemma BlockErased(size: Size, s: Screen, base: Page, lines: seq<string>)
    requires Shows(size, s, base, Join(lines)) && IsBlock(lines) && LinesFit(size.cols, lines)
    ensures Shows(size, Feed(size, s, ERASE), base, "")
  {
    hide EraseBelow, Clean;
    BlockRows(size.cols, base, lines);
    EraseEffect(size, s);
    EraseUndoesType(size.cols, base, Join(lines));
    assert Type(size.cols, base, "") == base;
  }

  /** Drawing a block and erasing it restores the page exactly when no line is wider than the terminal. */
  lemma RedrawsInPlaceIff(size: Size, s: Screen, lines: seq<string>)
    requires Fresh(size, s) && IsBlock(lines)
    ensures Feed(size, s, Join(lines) + ERASE).page == s.page <==> LinesFit(size.cols, lines)
  {
    hide EraseBelow, Type, Clean;
    var block := Join(lines);
    JoinThree(lines);
    FeedConcat(size, s, block, ERASE);
    FeedIsType(size, s, block);
    BlockRows(size.cols, s.page, lines);
    EraseEffect(size, Feed(size, s, block));
    EraseUndoesType(size.cols, s.page, block);
  }

  // ----- The lines of a stats block contain no control character -----

  lemma {:induction false} DigitsPrintable(n: nat)
    ensures IsLine(Digits(n))
  {
    if n >= 10 {
      DigitsPrintable(n / 10);
    }
  }

  lemma NumbersPrintable(n: int, r: real)
    ensures IsLine(FormatInt(n)) && IsLine(FormatRate(r))
  {
    hide Digits;
    DigitsPrintable(if n < 0 then -n else n);
    var i := RoundHalfEven(r);
    if r < 0.0 {
      DigitsPrintable(-i);
    } else {
      DigitsPrintable(i);
    }
  }

  lemma SparkPrintable(samples: seq<real>, w: nat)
    ensures IsLine(RenderPaddedSparkline(samples, w))
  {
    hide Level, Peak;
    var shown := LastN(samples, w);
    forall i | 0 <= i < |shown| ensures Printable(SparklineOf(shown)[i]) {
      PeakBounds(shown, i);
    }
  }

  lemma BlockPrintable(history: Histories, snap: SnapshotWithRate, width: int)
    ensures IsBlock(BlockLines(history, snap, width))
  {
    hide FormatInt, FormatRate, RenderPaddedSparkline, TotalWidth;
    var w := if width < 1 then 1 else width;
    forall i | 0 <= i < SIGNAL_COUNT ensures IsLine(LineOf(history, snap, w, i)) {
      NumbersPrintable(snap.snapshot.forwarded[i], snap.rate[i]);
      SparkPrintable(history[i], w);
      assert IsLine(LABELS[i]);
    }
  }

  // ----- Whole runs -----

  const NO_HISTORY: Histories := [[], [], []]

  /** The snapshot's lines are no wider than the terminal; the history makes no difference. */
  predicate SnapFits(tty: Tty, size: Size, snap: SnapshotWithRate) {
    LinesFit(size.cols, BlockLines(NO_HISTORY, snap, CurrentSparklineWidth(tty.isTTY, tty.cols)))
  }

  /** A terminal that tells its width: the lines fit exactly when it has the columns that the numbers need. */
  lemma SnapFitsIff(size: Size, snap: SnapshotWithRate)
    requires size.Valid()
    ensures var numbers := WidestRate(snap) - 5 + TotalWidth(snap.snapshot.forwarded, SIGNAL_COUNT);
            SnapFits(Tty(true, Some(size.cols)), size, snap)
            <==> size.cols >= FIXED_OVERHEAD + numbers + if numbers <= 12 then SPARKLINE_MIN_WIDTH else SPARKLINE_HISTORY_CAPACITY
  {
    hide TotalWidth, BlockLines, WidestRate, BlockWidth, CurrentSparklineWidth;
    WidestLineDecides(NO_HISTORY, snap, CurrentSparklineWidth(true, Some(size.cols)), size.cols);
    LeavesMarginIff(snap, size.cols, 0);
  }

  /** An event whose message is plain text and whose lines fit. */
  predicate Plain(tty: Tty, size: Size, e: Event) {
    match e
    case Tick(snap) => SnapFits(tty, size, snap)
    case Lifecycle(message) => IsText(message)
  }

  predicate AllPlain(tty: Tty, size: Size, events: seq<Event>) {
    forall i :: 0 <= i < |events| ==> Plain(tty, size, events[i])
  }

  lemma LatestBlockFits(tty: Tty, size: Size, events: seq<Event>)
    requires AllPlain(tty, size, events) && Ticks(events) != []
    ensures var ticks := Ticks(events);
            var lines := BlockLines(HistoryOf(ticks), ticks[|ticks| - 1], CurrentSparklineWidth(tty.isTTY, tty.cols));
            IsBlock(lines) && LinesFit(size.cols, lines)
  {
    LatestTickPlain(tty, size, events);
    var ticks := Ticks(events);
    SnapLinesFit(tty, size, HistoryOf(ticks), ticks[|ticks| - 1]);
  }

  lemma SnapLinesFit(tty: Tty, size: Size, history: Histories, snap: SnapshotWithRate)
    requires SnapFits(tty, size, snap)
    ensures var lines := BlockLines(history, snap, CurrentSparklineWidth(tty.isTTY, tty.cols));
            IsBlock(lines) && LinesFit(size.cols, lines)
  {
    hide BlockLines, BlockWidth, CurrentSparklineWidth;
    var width := CurrentSparklineWidth(tty.isTTY, tty.cols);
    BlockPrintable(history, snap, width);
    WidestLineDecides(NO_HISTORY, snap, width, size.cols);
    WidestLineDecides(history, snap, width, size.cols);
  }

  lemma {:induction false} LatestTickPlain(tty: Tty, size: Size, events: seq<Event>)
    requires AllPlain(tty, size, events) && Ticks(events) != []
    ensures SnapFits(tty, size, Ticks(events)[|Ticks(events)| - 1])
  {
    var last := events[|events| - 1];
    assert Plain(tty, size, last);
    if last.Lifecycle? {
      LatestTickPlain(tty, size, events[..|events| - 1]);
    }
  }

  /** Screen of a terminal after everything the writer has put out. */
  function ScreenAfter(tty: Tty, size: Size, s: Screen, events: seq<Event>): Screen {
    Feed(size, s, Steps(tty, INITIAL, events).out)
  }

  lemma AfterErase(tty: Tty, size: Size, s: Screen, w: Writer, base: Page, shown: seq<string>)
    requires tty.isTTY && (w.blockRendered ==> IsBlock(shown) && LinesFit(size.cols, shown))
    requires Shows(size, Feed(size, s, w.out), base, if w.blockRendered then Join(shown) else "")
    ensures Shows(size, Feed(size, s, Erase(tty, w).out), base, "")
  {
    hide Shows, Join, Feed, ERASE;
    if w.blockRendered {
      BlockErased(size, Feed(size, s, w.out), base, shown);
      FeedConcat(size, s, w.out, ERASE);
    }
  }

  lemma AfterRender(tty: Tty, size: Size, s: Screen, w: Writer, base: Page, shown: seq<string>)
    requires tty.isTTY && size.rows >= SIGNAL_COUNT && (w.blockRendered ==> IsBlock(shown) && LinesFit(size.cols, shown))
    requires w.last.Some? && SnapFits(tty, size, w.last.value)
    requires Shows(size, Feed(size, s, w.out), base, if w.blockRendered then Join(shown) else "")
    ensures Shows(size, Feed(size, s, Render(tty, w).out), base, Block(tty, w.history, w.last.value))
  {
    hide Shows, Join, Feed, ERASE, IsBlock, LinesFit, BlockLines, SnapFits;
    AfterErase(tty, size, s, w, base, shown);
    var lines := BlockLines(w.history, w.last.value, CurrentSparklineWidth(tty.isTTY, tty.cols));
    SnapLinesFit(tty, size, w.history, w.last.value);
    BlockDrawn(size, Feed(size, s, Erase(tty, w).out), base, lines);
    FeedConcat(size, s, Erase(tty, w).out, Join(lines));
  }

  lemma AfterMessage(size: Size, s: Screen, out: string, base: Page, message: string)
    requires Shows(size, Feed(size, s, out), base, "") && IsText(message)
    ensures Shows(size, Feed(size, s, out + message + "\n"), Type(size.cols, base, message + "\n"), "")
  {
    hide Shows, Feed;
    Typed(size, Feed(size, s, out), base, message + "\n");
    FeedConcat(size, s, out, message + "\n");
    assert out + (message + "\n") == out + message + "\n";
  }

  /** At every moment of a run the terminal shows what was there, then all messages in
      order, then only the latest block, if there was a tick. */
  lemma {:induction false} LogThenBlock(tty: Tty, size: Size, s: Screen, events: seq<Event>)
    requires tty.isTTY && Fresh(size, s) && AllPlain(tty, size, events)
    ensures Shows(size, ScreenAfter(tty, size, s, events), Type(size.cols, s.page, Log(events)),
                  LatestBlock(tty, Ticks(events)))
  {
    if events != [] {
      var init, last := events[..|events| - 1], events[|events| - 1];
      assert AllPlain(tty, size, init) && Plain(tty, size, last);
      LogThenBlock(tty, size, s, init);
      AfterStep(tty, size, s, init, last);
    }
  }

  lemma AfterStep(tty: Tty, size: Size, s: Screen, init: seq<Event>, last: Event)
    requires tty.isTTY && size.rows >= SIGNAL_COUNT && AllPlain(tty, size, init) && Plain(tty, size, last)
    requires Shows(size, ScreenAfter(tty, size, s, init), Type(size.cols, s.page, Log(init)),
                   LatestBlock(tty, Ticks(init)))
    ensures Shows(size, ScreenAfter(tty, size, s, init + [last]), Type(size.cols, s.page, Log(init + [last])),
                  LatestBlock(tty, Ticks(init + [last])))
  {
    hide Shows, Join, Feed, ERASE, IsBlock, LinesFit, BlockLines, SnapFits, IsText, HistoryOf, RecordRates, Type;
    var events := init + [last];
    assert events[..|init|] == init;
    var ticks := Ticks(init);
    var w, base := Steps(tty, INITIAL, init), Type(size.cols, s.page, Log(init));
    StateAfter(tty, init);
    var shown: seq<string> := [];
    if ticks != [] {
      shown := BlockLines(HistoryOf(ticks), ticks[|ticks| - 1], CurrentSparklineWidth(tty.isTTY, tty.cols));
      LatestBlockFits(tty, size, init);
      LatestTickPlain(tty, size, init);
    }
    match last
    case Tick(snap) =>
      RecordsRates(ticks, snap);
      assert Log(events) == Log(init);
      AfterRender(tty, size, s, w.(history := RecordRates(w.history, snap.rate), last := Some(snap)), base, shown);
    case Lifecycle(message) =>
      AfterErase(tty, size, s, w, base, shown);
      var erased := Erase(tty, w);
      AfterMessage(size, s, erased.out, base, message);
      TypeConcat(size.cols, s.page, Log(init), message + "\n");
      assert Ticks(events) == ticks + [] == ticks;
      assert Log(events) == Log(init) + (message + "\n");
      if w.last.Some? {
        AfterRender(tty, size, s, erased.(out := erased.out + message + "\n"),
                    Type(size.cols, base, message + "\n"), []);
      }
  }

  /** After cancellation only the log is left. */
  lemma OnlyLogAfterCancel(tty: Tty, size: Size, s: Screen, events: seq<Event>)
    requires tty.isTTY && Fresh(size, s) && AllPlain(tty, size, events)
    ensures Feed(size, s, Erase(tty, Steps(tty, INITIAL, events)).out).page == Type(size.cols, s.page, Log(events))
  {
    hide AllPlain, HistoryOf, BlockLines, Shows, Feed, Fresh, Log, Erase, ERASE, Steps, Type, IsBlock, LinesFit, Join;
    LogThenBlock(tty, size, s, events);
    StateAfter(tty, events);
    var ticks := Ticks(events);
    var shown: seq<string> := [];
    if ticks != [] {
      shown := BlockLines(HistoryOf(ticks), ticks[|ticks| - 1], CurrentSparklineWidth(tty.isTTY, tty.cols));
      LatestBlockFits(tty, size, events);
    }
    var base := Type(size.cols, s.page, Log(events));
    AfterErase(tty, size, s, Steps(tty, INITIAL, events), base, shown);
    ShowsOnlyBase(size, Feed(size, s, Erase(tty, Steps(tty, INITIAL, events)).out), base);
  }

  lemma ShowsOnlyBase(size: Size, s: Screen, base: Page)
    requires Shows(size, s, base, "")
    ensures s.page == base
  {
  }

  /** Into a file or a pipe go the messages and nothing else. */
  lemma {:induction false} PipedOutputIsLog(tty: Tty, events: seq<Event>)
    requires !tty.isTTY
    ensures Erase(tty, Steps(tty, INITIAL, events)).out == Log(events)
  {
    if events != [] {
      PipedOutputIsLog(tty, events[..|events| - 1]);
    }
  }

  const IDLE_SNAP := SnapshotWithRate(Snapshot([0, 0, 0], [0, 0, 0], 0.0), [0.0, 0.0, 0.0])

  /** On fewer than 30 columns even an idle block wraps: after one tick and a cancellation
      the terminal does not show what it showed before. */
  lemma NarrowTerminalKeepsBlock(size: Size, s: Screen)
    requires Fresh(size, s) && size.cols < 30
    ensures var tty := Tty(true, Some(size.cols));
            Feed(size, s, Erase(tty, Steps(tty, INITIAL, [Tick(IDLE_SNAP)])).out).page != s.page
  {
    hide Feed, ERASE, BlockLines, Join, CurrentSparklineWidth;
    var tty, events := Tty(true, Some(size.cols)), [Tick(IDLE_SNAP)];
    var w := Steps(tty, INITIAL, events);
    assert events[..0] == [] && Steps(tty, INITIAL, []) == INITIAL;
    var lines := BlockLines(w.history, IDLE_SNAP, CurrentSparklineWidth(true, tty.cols));
    assert Erase(tty, w).out == Join(lines) + ERASE by {
      assert w.out == "" + Join(lines) == Join(lines);
    }
    IdleNumbers();
    SnapFitsIff(size, IDLE_SNAP);
    WidestLineDecides(NO_HISTORY, IDLE_SNAP, CurrentSparklineWidth(true, tty.cols), size.cols);
    WidestLineDecides(w.history, IDLE_SNAP, CurrentSparklineWidth(true, tty.cols), size.cols);
    BlockPrintable(w.history, IDLE_SNAP, CurrentSparklineWidth(true, tty.cols));
    RedrawsInPlaceIff(size, s, lines);
  }

  lemma IdleNumbers()
    ensures WidestRate(IDLE_SNAP) == 5 && TotalWidth(IDLE_SNAP.snapshot.forwarded, SIGNAL_COUNT) == 1
  {
    assert FormatRate(0.0) == "0" && FormatInt(0) == "0";
  }
}
