/** `ScrollList`: the viewport over a store, with the moves of module Viewport
    run in place on its `select` and `scroll` fields. */
module Scrolling {
  import opened Values
  import opened Display
  import opened Store
  import V = Viewport

  class ScrollList {
    const data: Data
    var height: int
    var width: int
    var scroll: int
    var select: int

    function Position(): V.Pos
      reads this
    {
      V.Pos(select, scroll)
    }

    /** A new list starts on row 0 with row 0 at the top (the curses window is not modelled). */
    constructor (h: int, w: int, data: Data)
      ensures this.data == data && height == h && width == w
      ensures Position() == V.Pos(0, 0)
    {
      this.data := data;
      height := h;
      width := w;
      scroll := 0;
      select := 0;
    }

    /** `show(i)`: the rendered entry at Python index `i`, or `'~'` for a
        missing or empty entry. */
    function Show(i: int): (r: string)
      reads this, data
      requires data.Item(i).Some? && TruthyEntry(data.Item(i).value) ==> Renderable(data.keyfn, data.Item(i).value)
      ensures !InRange(i, |data.data|) ==> r == "~"
      ensures InRange(i, |data.data|) && !TruthyEntry(data.data[Slot(i, |data.data|)]) ==> r == "~"
      ensures InRange(i, |data.data|) && TruthyEntry(data.data[Slot(i, |data.data|)]) ==>
                r == Render(data.keyfn, data.data[Slot(i, |data.data|)])
    {
      match data.Item(i)
      case None => "~"
      case Some(e) => if TruthyEntry(e) then Render(data.keyfn, e) else "~"
    }

    /** `selection()`: the selected entry, or `None`. */
    function Selection(): (r: Option<Entry>)
      reads this, data
      ensures r.None? <==> !InRange(select, |data.data|)
      ensures r.Some? ==> r.value == data.data[Slot(select, |data.data|)]
    {
      data.Item(select)
    }

    /** `resize(h, w)`: take the new size, then run `down` and `up`. */
    method Resize(h: int, w: int)
      modifies this
      ensures height == h && width == w
      ensures Position() == V.Resized(old(Position()), h, data.size)
    {
      height := h;
      width := w;
      Down();
      Up();
    }

    /** `react(key)`: run the move bound to `key` and report whether one was. */
    method React(key: int) returns (consumed: bool)
      requires V.Binding(key).Some? ==> V.CanApply(V.Binding(key).value, Position(), height, data.size)
      modifies this
      ensures height == old(height) && width == old(width)
      ensures consumed == V.Binding(key).Some?
      ensures Position() == if consumed then V.Apply(V.Binding(key).value, old(Position()), height, data.size)
                            else old(Position())
    {
      match V.Binding(key) {
        case None =>
          consumed := false;
        case Some(m) =>
          match m {
            case MoveTop => Top();
            case MoveBottom => Bottom();
            case MoveDown => Down();
            case MoveUp => Up();
            case MovePageDown => PageDown();
            case MovePageUp => PageUp();
            case MoveScrollDown => ScrollDown();
            case MoveScrollUp => ScrollUp();
          }
          consumed := true;
      }
    }

    method Top()
      modifies this
      ensures height == old(height) && width == old(width)
      ensures Position() == V.Top(old(Position()))
    {
      select := 0;
      scroll := 0;
    }

    /** `bottom`: select the last row; page forward while a further page starts at or above it. */
    method Bottom()
      requires V.BottomHalts(Position(), height, data.size)
      modifies this
      ensures height == old(height) && width == old(width)
      ensures Position() == V.Bottom(old(Position()), height, data.size)
    {
      select := data.size - 1;
      while scroll + height <= data.size - 1
        invariant height == old(height) && width == old(width) && select == data.size - 1
        invariant height > 0 || scroll + height > data.size - 1
        invariant V.BottomScroll(scroll, height, data.size) == V.BottomScroll(old(scroll), height, data.size)
        decreases data.size - scroll
      {
        scroll := scroll + height;
      }
    }

    method Down()
      modifies this
      ensures height == old(height) && width == old(width)
      ensures Position() == V.Down(old(Position()), height, data.size)
    {
      if select < data.size - 1 {
        select := select + 1;
        if select >= scroll + height {
          scroll := scroll + height;
        }
      }
    }

    method Up()
      modifies this
      ensures height == old(height) && width == old(width)
      ensures Position() == V.Up(old(Position()), height, data.size)
    {
      if select > 0 {
        select := select - 1;
        if select < scroll {
          scroll := scroll - height;
        }
      }
    }

    /** `pd` */
    method PageDown()
      modifies this
      ensures height == old(height) && width == old(width)
      ensures Position() == V.PageDown(old(Position()), height, data.size)
    {
      if select + height <= data.size - 1 {
        select := select + height;
        scroll := scroll + height;
      } else {
        if scroll + height <= data.size - 1 {
          scroll := scroll + height;
        }
        select := data.size - 1;
      }
    }

    /** `pu` */
    method PageUp()
      modifies this
      ensures height == old(height) && width == old(width)
      ensures Position() == V.PageUp(old(Position()), height)
    {
      if select >= height {
        select := select - height;
        scroll := scroll - height;
      } else {
        select := 0;
        scroll := 0;
      }
    }

    /** `sd` */
    method ScrollDown()
      modifies this
      ensures height == old(height) && width == old(width)
      ensures Position() == V.ScrollDown(old(Position()), data.size)
    {
      if scroll < data.size - 1 {
        scroll := scroll + 1;
        if select < scroll {
          select := scroll;
        }
      }
    }

    /** `su` */
    method ScrollUp()
      modifies this
      ensures height == old(height) && width == old(width)
      ensures Position() == V.ScrollUp(old(Position()), height)
    {
      if scroll > 0 {
        scroll := scroll - 1;
        if select >= scroll + height {
          select := scroll + height - 1;
        }
      }
    }
  }
}
