/** The scrolling window of `ScrollList`: a selected row and the first visible
    row, over a list of `n` rows shown `h` rows at a time. Each move is a
    function of the position; the class in module Scrolling runs them in place. */
module Viewport {
  import opened Values

  datatype Pos = Pos(select: int, scroll: int)

  /** The selection is a row of the list and lies inside the visible window. */
  predicate Window(p: Pos, h: int, n: int) {
    0 <= p.select < n && p.scroll <= p.select < p.scroll + h
  }

  /** `top`: back to the first row. */
  function Top(p: Pos): Pos {
    Pos(0, 0)
  }

  /** The `while` loop of `bottom` stops: it advances by `h`, or is never entered. */
  predicate BottomHalts(p: Pos, h: int, n: int) {
    h > 0 || p.scroll + h > n - 1
  }

  /** Where `bottom`'s loop leaves the window: `scroll` advanced by a page
      for as long as the next page still starts at or above the last row. */
  function BottomScroll(scroll: int, h: int, n: int): int
    requires h > 0 || scroll + h > n - 1
    decreases n - scroll
  {
    if scroll + h > n - 1 then scroll else BottomScroll(scroll + h, h, n)
  }

  /** `bottom`: select the last row, page the window forward until it shows it. */
  function Bottom(p: Pos, h: int, n: int): Pos
    requires BottomHalts(p, h, n)
  {
    Pos(n - 1, BottomScroll(p.scroll, h, n))
  }

  /** `down`: one row down unless at the last row; a page down when the selection leaves the window. */
  function Down(p: Pos, h: int, n: int): Pos {
    if p.select < n - 1 then
      var s := p.select + 1;
      Pos(s, if s >= p.scroll + h then p.scroll + h else p.scroll)
    else p
  }

  /** `up`: one row up unless at row 0; a page up when the selection leaves the window. */
  function Up(p: Pos, h: int, n: int): Pos {
    if p.select > 0 then
      var s := p.select - 1;
      Pos(s, if s < p.scroll then p.scroll - h else p.scroll)
    else p
  }

  /** `pd`: a page forward, or to the last row when a full page does not fit. */
  function PageDown(p: Pos, h: int, n: int): Pos {
    if p.select + h <= n - 1 then Pos(p.select + h, p.scroll + h)
    else Pos(n - 1, if p.scroll + h <= n - 1 then p.scroll + h else p.scroll)
  }

  /** `pu`: a page back, or to the top when a full page back does not fit. */
  function PageUp(p: Pos, h: int): Pos {
    if p.select >= h then Pos(p.select - h, p.scroll - h) else Pos(0, 0)
  }

  /** `sd`: the window one row down, dragging the selection along when it falls off the top. */
  function ScrollDown(p: Pos, n: int): Pos {
    if p.scroll < n - 1 then
      var sc := p.scroll + 1;
      Pos(if p.select < sc then sc else p.select, sc)
    else p
  }

  /** `su`: the window one row up, dragging the selection along when it falls off the bottom. */
  function ScrollUp(p: Pos, h: int): Pos {
    if p.scroll > 0 then
      var sc := p.scroll - 1;
      Pos(if p.select >= sc + h then sc + h - 1 else p.select, sc)
    else p
  }

  /** The navigation moves bound to keys in `ScrollList.react`. */
  datatype Move = MoveTop | MoveBottom | MoveDown | MoveUp | MovePageDown | MovePageUp | MoveScrollDown | MoveScrollUp

  predicate CanApply(m: Move, p: Pos, h: int, n: int) {
    m == MoveBottom ==> BottomHalts(p, h, n)
  }

  function Apply(m: Move, p: Pos, h: int, n: int): Pos
    requires CanApply(m, p, h, n)
  {
    match m
    case MoveTop => Top(p)
    case MoveBottom => Bottom(p, h, n)
    case MoveDown => Down(p, h, n)
    case MoveUp => Up(p, h, n)
    case MovePageDown => PageDown(p, h, n)
    case MovePageUp => PageUp(p, h)
    case MoveScrollDown => ScrollDown(p, n)
    case MoveScrollUp => ScrollUp(p, h)
  }

  /** The key table of `ScrollList.react`. A key code outside 0..255 makes
      Python 2's `chr` raise `ValueError`, which `react` treats as unbound. */
  function Binding(key: int): Option<Move> {
    if key == 'g' as int then Some(MoveTop)
    else if key == 'j' as int then Some(MoveDown)
    else if key == 'k' as int then Some(MoveUp)
    else if key == 'G' as int then Some(MoveBottom)
    else if key == 0x02 then Some(MovePageUp)     // ^B
    else if key == 0x05 then Some(MoveScrollDown) // ^E
    else if key == 0x06 then Some(MovePageDown)   // ^F
    else if key == 0x19 then Some(MoveScrollUp)   // ^Y
    else None
  }

  // ---------------------------------------------------------------------------

  /** The table binds exactly g, j, k, G, ^B, ^E, ^F and ^Y. */
  lemma BoundKeys(key: int)
    ensures Binding(key).Some? <==> key in {'g' as int, 'j' as int, 'k' as int, 'G' as int, 0x02, 0x05, 0x06, 0x19}
  {
  }

  lemma MulMonotone(x: int, y: int, h: int)
    requires x <= y && h > 0
    ensures x * h <= y * h
  {
    var d := y - x;
    assert y * h == x * h + d * h;
    assert d * h >= 0;
  }

  /** The quotient of `a` by `h` is the `q` whose page `[q*h, q*h + h)` holds `a`. */
  lemma DivUnique(a: int, h: int, q: int)
    requires h > 0 && q * h <= a < q * h + h
    ensures a / h == q && a % h == a - q * h
  {
    var q', r' := a / h, a % h;
    assert a == q' * h + r' && 0 <= r' < h;
    if q' > q {
      assert (q + 1) * h == q * h + h;
      MulMonotone(q + 1, q', h);
    } else if q' < q {
      assert (q - 1) * h == q * h - h;
      MulMonotone(q', q - 1, h);
    }
  }

  lemma ModStep(x: int, h: int)
    requires h > 0 && x % h == 0
    ensures (x + h) % h == 0
  {
    var q := x / h;
    assert x == q * h;
    assert x + h == (q + 1) * h;
    DivUnique(x + h, h, q + 1);
  }

  /** `bottom`'s loop ends with the window showing the last row, a whole number
      of pages ahead of where it started, page-aligned if it started so, and
      never past the last row. */
  lemma {:induction false} BottomScrollBounds(scroll: int, h: int, n: int)
    requires h > 0
    ensures BottomScroll(scroll, h, n) + h > n - 1
    ensures BottomScroll(scroll, h, n) >= scroll
    ensures (BottomScroll(scroll, h, n) - scroll) % h == 0
    ensures scroll % h == 0 ==> BottomScroll(scroll, h, n) % h == 0
    ensures scroll <= n - 1 ==> BottomScroll(scroll, h, n) <= n - 1
    decreases n - scroll
  {
    if scroll + h <= n - 1 {
      var r := BottomScroll(scroll, h, n);
      BottomScrollBounds(scroll + h, h, n);
      ModStep(r - scroll - h, h);
      assert r - scroll == (r - scroll - h) + h;
      if scroll % h == 0 {
        ModStep(scroll, h);
      }
    }
  }

  /** From a page-aligned window at or above the last row, `bottom` ends on the
      page that holds the last row. */
  lemma BottomFromAligned(k: int, h: int, n: int)
    requires h > 0 && k * h <= n - 1
    ensures BottomScroll(k * h, h, n) == ((n - 1) / h) * h
  {
    DivUnique(k * h, h, k);
    BottomScrollBounds(k * h, h, n);
    var r := BottomScroll(k * h, h, n);
    var q := r / h;
    assert r == q * h + r % h;
    DivUnique(n - 1, h, q);
  }

  /** With at least one row and one visible row, every move keeps the selection
      a row of the list and inside the window. */
  lemma MovesKeepWindow(m: Move, p: Pos, h: int, n: int)
    requires n >= 1 && h >= 1 && Window(p, h, n)
    ensures CanApply(m, p, h, n) && Window(Apply(m, p, h, n), h, n)
  {
    if m == MoveBottom {
      BottomScrollBounds(p.scroll, h, n);
    }
  }

  /** `top` selects row 0 of a window starting at row 0. */
  lemma TopIsOrigin(p: Pos)
    ensures Top(p) == Pos(0, 0) && Window(Top(p), 1, 1)
  {
  }

  /** `bottom` selects the last row; on an empty list that is row -1. `pd`
      selects row -1 too from any selection no more than a page above it,
      such as the one `bottom` leaves. */
  lemma BottomAndPageDownOnEmpty(p: Pos, h: int)
    requires h >= 1
    ensures Bottom(p, h, 0).select == -1
    ensures p.select + h >= -1 ==> PageDown(p, h, 0).select == -1
    ensures PageDown(Bottom(p, h, 0), h, 0).select == -1
  {
  }

  /** `down` steps the selection by one row, and moves the window by a whole
      page exactly when the selection would leave it. */
  lemma DownStep(p: Pos, h: int, n: int)
    requires h >= 1 && Window(p, h, n)
    ensures Down(p, h, n).select == if p.select < n - 1 then p.select + 1 else p.select
    ensures Down(p, h, n).scroll == if p.select == p.scroll + h - 1 && p.select < n - 1 then p.scroll + h else p.scroll
  {
  }

  /** `up` steps the selection by one row, and moves the window by a whole page
      exactly when the selection would leave it. */
  lemma UpStep(p: Pos, h: int, n: int)
    requires h >= 1 && Window(p, h, n)
    ensures Up(p, h, n).select == if p.select > 0 then p.select - 1 else p.select
    ensures Up(p, h, n).scroll == if p.select == p.scroll && p.select > 0 then p.scroll - h else p.scroll
  {
  }

  /** Three `down`s from row 2 of a 3-row window over 10 rows cross one page boundary. */
  lemma ThreeDowns()
    ensures Down(Down(Down(Pos(2, 0), 3, 10), 3, 10), 3, 10) == Pos(5, 3)
  {
  }

  /** `pd` from row 1 of a 4-row window over 10 rows advances a full page,
      because row 5 still exists. */
  lemma PageDownFromRowOne()
    ensures PageDown(Pos(1, 0), 4, 10) == Pos(5, 4)
  {
  }

  /** `pu` moves the window back a full page even when that is above row 0:
      the selection stays inside the window, but the window starts at row -2. */
  lemma PageUpBelowZero()
    ensures Window(Pos(3, 1), 3, 10)
    ensures PageUp(Pos(3, 1), 3) == Pos(0, -2) && Window(PageUp(Pos(3, 1), 3), 3, 10)
  {
  }

  // ---------------------------------------------------------------------------
  // `resize` sets the height and then runs `down` followed by `up`.

  function Resized(p: Pos, h: int, n: int): Pos {
    Up(Down(p, h, n), h, n)
  }

  /** A selection strictly inside the list stays where it is. */
  lemma ResizeKeepsInnerSelection(p: Pos, h: int, n: int)
    requires 0 < p.select < n - 1
    ensures Resized(p, h, n).select == p.select
  {
  }

  /** A selection on the last row of a list of two or more rows moves up one row. */
  lemma ResizeMovesLastRowUp(p: Pos, h: int, n: int)
    requires n >= 2 && p.select == n - 1
    ensures Resized(p, h, n).select == n - 2
  {
  }

  /** After a large shrink the selection can stay outside the window. */
  lemma ResizeMayLeaveWindow()
    ensures Window(Pos(8, 0), 10, 20)
    ensures Resized(Pos(8, 0), 2, 20) == Pos(8, 2) && !Window(Resized(Pos(8, 0), 2, 20), 2, 20)
  {
  }
}
