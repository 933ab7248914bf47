/**
 A video terminal, as far as the proxy's stderr writer relies on one: printable characters,
 CR, LF, CUU and ED (sections 8.3.15, 8.3.74, 8.3.22 and 8.3.39 of ECMA-48).

 Rows are numbered from the start of the scrollback and never renumbered; `top` is the first
 row on the screen. The line discipline is cooked, so LF also returns to column 0. Writing
 past the last column wraps only when the next character arrives.
 */
module Terminal {

  type Cells = map<(int, nat), char>

  datatype Page = Page(cells: Cells, row: int, col: nat)

  datatype Size = Size(rows: int, cols: int) {
    predicate Valid() {
      rows >= 1 && cols >= 1
    }
  }

  datatype Mode = Ground | Escape | Control(parameter: nat)

  datatype Screen = Screen(page: Page, top: int, mode: Mode)

  const ESC := '\U{1B}'

  predicate Printable(c: char) {
    ' ' <= c && c != '\U{7F}'
  }

  predicate IsLine(t: string) {
    forall i :: 0 <= i < |t| ==> Printable(t[i])
  }

  predicate IsText(t: string) {
    forall i :: 0 <= i < |t| ==> Printable(t[i]) || t[i] == '\n'
  }

  // ----- A plain page: what typing a text without control functions does -----

  function TypeChar(cols: int, p: Page, c: char): Page {
    if c == '\n' then Page(p.cells, p.row + 1, 0)
    else if p.col >= cols then Page(p.cells[(p.row + 1, 0) := c], p.row + 1, 1)
    else Page(p.cells[(p.row, p.col) := c], p.row, p.col + 1)
  }

  function Type(cols: int, p: Page, t: string): Page {
    if t == "" then p else TypeChar(cols, Type(cols, p, t[..|t| - 1]), t[|t| - 1])
  }

  // ----- The terminal -----

  /** Scrolls just enough to bring the cursor back on the screen. */
  function Scrolled(size: Size, top: int, row: int): int {
    if row > top + size.rows - 1 then row - size.rows + 1 else top
  }

  function EraseBelow(cells: Cells, row: int, col: nat): Cells {
    map k | k in cells && !(k.0 > row || (k.0 == row && k.1 >= col)) :: cells[k]
  }

  /** Cursor up: not beyond the top of the screen. */
  function CursorUp(s: Screen, n: nat): Page {
    s.page.(row := if s.page.row - n < s.top then s.top else s.page.row - n)
  }

  function FeedChar(size: Size, s: Screen, c: char): Screen {
    match s.mode
    case Ground =>
      if c == ESC then s.(mode := Escape)
      else if c == '\r' then s.(page := s.page.(col := 0))
      else if c == '\n' || Printable(c) then
        var p := TypeChar(size.cols, s.page, c);
        Screen(p, Scrolled(size, s.top, p.row), Ground)
      else s
    case Escape =>
      s.(mode := if c == '[' then Control(0) else Ground)
    case Control(n) =>
      if '0' <= c <= '9' then s.(mode := Control(10 * n + (c as int - '0' as int)))
      else if c == 'A' then Screen(CursorUp(s, if n == 0 then 1 else n), s.top, Ground)
      else if c == 'J' && n == 0 then
        Screen(s.page.(cells := EraseBelow(s.page.cells, s.page.row, s.page.col)), s.top, Ground)
      else s.(mode := Ground)
  }

  function Feed(size: Size, s: Screen, t: string): Screen {
    if t == "" then s else FeedChar(size, Feed(size, s, t[..|t| - 1]), t[|t| - 1])
  }

  /** The cursor is on the screen and no escape sequence is pending. */
  predicate Ready(size: Size, s: Screen) {
    size.Valid() && s.mode == Ground && s.top <= s.page.row <= s.top + size.rows - 1
  }

  lemma {:induction false} FeedConcat(size: Size, s: Screen, a: string, b: string)
    ensures Feed(size, s, a + b) == Feed(size, Feed(size, s, a), b)
  {
    if b == "" {
      assert a + b == a;
    } else {
      var n := |b| - 1;
      FeedConcat(size, s, a, b[..n]);
      assert (a + b)[..|a + b| - 1] == a + b[..n];
    }
  }

  lemma {:induction false} TypeConcat(cols: int, p: Page, a: string, b: string)
    ensures Type(cols, p, a + b) == Type(cols, Type(cols, p, a), b)
  {
    if b == "" {
      assert a + b == a;
    } else {
      var n := |b| - 1;
      TypeConcat(cols, p, a, b[..n]);
      assert (a + b)[..|a + b| - 1] == a + b[..n];
    }
  }

  /** Without control functions the terminal is a plain page that scrolls. */
  lemma {:induction false} FeedIsType(size: Size, s: Screen, t: string)
    requires Ready(size, s) && IsText(t)
    ensures var after := Feed(size, s, t);
            && Ready(size, after)
            && after.page == Type(size.cols, s.page, t)
            && after.page.row >= s.page.row
            && after.top == Scrolled(size, s.top, after.page.row)
  {
    if t != "" {
      FeedIsType(size, s, t[..|t| - 1]);
    }
  }

  // ----- Where typing writes -----

  /** Nothing is written at or after the cursor. */
  predicate Clean(p: Page) {
    forall k :: k in p.cells ==> k.0 < p.row || (k.0 == p.row && k.1 < p.col)
  }

  ghost predicate SameAbove(row: int, a: Cells, b: Cells) {
    forall k: (int, nat) :: k.0 < row ==> ((k in a) <==> (k in b)) && (k in a ==> a[k] == b[k])
  }

  lemma {:induction false} TypeKeeps(cols: int, p: Page, t: string)
    requires Clean(p) && cols >= 1
    ensures var q := Type(cols, p, t);
            Clean(q) && q.row >= p.row && SameAbove(p.row, p.cells, q.cells)
    ensures t != "" && t[|t| - 1] == '\n' ==> Type(cols, p, t).col == 0
  {
    if t != "" {
      TypeKeeps(cols, p, t[..|t| - 1]);
    }
  }

  /** Erasing from where a text began brings back the page it was typed on. */
  lemma EraseUndoesType(cols: int, p: Page, t: string)
    requires Clean(p) && p.col == 0 && cols >= 1
    ensures EraseBelow(Type(cols, p, t).cells, p.row, 0) == p.cells
  {
    hide Type;
    TypeKeeps(cols, p, t);
  }

  /** A line stays on its row exactly when it is no wider than the rest of the row. */
  lemma {:induction false} TypeLine(cols: int, p: Page, t: string)
    requires IsLine(t) && cols >= 1 && p.col <= cols
    ensures var q := Type(cols, p, t);
            && q.row >= p.row
            && (q.row == p.row <==> p.col + |t| <= cols)
            && (q.row == p.row ==> q.col == p.col + |t|)
            && q.col <= cols
  {
    if t != "" {
      TypeLine(cols, p, t[..|t| - 1]);
    }
  }

  /** A line that fits is laid out in order, one character a column. */
  lemma {:induction false} TypePlaces(cols: int, p: Page, t: string, i: nat)
    requires IsLine(t) && cols >= 1 && p.col + |t| <= cols && i < |t|
    ensures (p.row, p.col + i) in Type(cols, p, t).cells && Type(cols, p, t).cells[(p.row, p.col + i)] == t[i]
  {
    var init := t[..|t| - 1];
    TypeLine(cols, p, init);
    if i < |init| {
      TypePlaces(cols, p, init, i);
    }
  }
}
