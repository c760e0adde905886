/** The mode label shown in the header (`Header`) and the scoped label change
    of `Mode`, used as `with mode(m): ...` around every sub-dialogue. */
module Modes {

  /** The header's mode state; the curses window and `draw` are not modelled. */
  class Header {
    const modes: map<string, string>
    var mode: string

    /** The label names a mode of the table. */
    ghost predicate Keyed()
      reads this
    {
      mode in modes
    }

    /** `Header(h, w, y, x, modes)`: the label is `modes['default']` (a value of
        the table, not a key) when there is one, else some key of the table.
        `modes.keys()[0]` is evaluated either way, so the table must not be empty. */
    constructor (modes: map<string, string>)
      requires |modes| > 0
      ensures this.modes == modes
      ensures "default" in modes ==> mode == modes["default"]
      ensures "default" !in modes ==> mode in modes
    {
      this.modes := modes;
      if "default" in modes {
        mode := modes["default"];
      } else {
        var k :| k in modes;
        mode := k;
      }
    }

    /** `setmode(m)`: take `m` only when it is a key of the table. */
    method SetMode(m: string)
      modifies this
      ensures mode == if m in modes then m else old(mode)
    {
      if m in modes {
        mode := m;
      }
    }
  }

  /** `Mode(header, m)`: remembers the label at construction; `__enter__`
      switches to `m`, `__exit__` switches back. */
  class Mode {
    const header: Header
    const saved: string
    const target: string

    constructor (header: Header, m: string)
      ensures this.header == header && saved == header.mode && target == m
    {
      this.header := header;
      saved := header.mode;
      target := m;
    }

    method Enter()
      modifies header
      ensures header.mode == if target in header.modes then target else old(header.mode)
    {
      header.SetMode(target);
    }

    method Exit()
      modifies header
      ensures header.mode == if saved in header.modes then saved else old(header.mode)
    {
      header.SetMode(saved);
    }
  }

  /** The shape of a run of nested `with mode(...)` blocks: a block's label,
      the blocks run inside it, and how many of them run before the block is
      left early (`break`); `stop >= |inner|` runs them all. */
  datatype Scope = Scope(name: string, inner: seq<Scope>, stop: nat)

  /** Runs the block `s` and everything nested in it. Each block's label is
      shown while its own body runs, and however the blocks nest or break off,
      the label on leaving a block is the label it was entered with. */
  method Run(h: Header, s: Scope)
    requires h.Keyed()
    modifies h
    ensures h.Keyed() && h.mode == old(h.mode)
    decreases s
  {
    var m := new Mode(h, s.name);
    m.Enter();
    ghost var during := h.mode;
    var i := 0;
    while i < |s.inner| && i < s.stop
      invariant 0 <= i <= |s.inner|
      invariant h.Keyed() && h.mode == during
      invariant during == if s.name in h.modes then s.name else old(h.mode)
    {
      Run(h, s.inner[i]);
      i := i + 1;
    }
    m.Exit();
  }
}
