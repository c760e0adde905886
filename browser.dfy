/** `FileBrowser`: a viewport over the filtered listing of one directory under
    the browse root, with descend/ascend and a history of positions. The file
    system is given as two functions of a path: its listing and whether it is
    a directory. A path is the sequence of its components below the root. */
module Browser {
  import opened Values
  import opened StableSort
  import opened Display
  import opened Store
  import opened Scrolling
  import V = Viewport

  type Path = seq<string>

  /** `os.path.join(current, name)` */
  function Join(dir: Path, name: string): Path {
    dir + [name]
  }

  /** `os.path.dirname(current)`; the root's parent is the root. */
  function DirName(p: Path): Path {
    if p == [] then [] else p[..|p| - 1]
  }

  lemma DirNameOfJoin(dir: Path, name: string)
    ensures DirName(Join(dir, name)) == dir
  {
    assert (dir + [name])[..|dir|] == dir;
  }

  /** The media extensions the filter accepts. */
  const EXTS: seq<string> := ["avi", "flv", "iso", "mkv", "mov", "mp4", "mpeg", "mpg", "wmv"]

  /** Python 2's `str.lower` on one byte: ASCII letters only. */
  function LowerChar(c: char): char {
    if 'A' <= c <= 'Z' then (c as int + 32) as char else c
  }

  function Lower(s: string): string {
    seq(|s|, k requires 0 <= k < |s| => LowerChar(s[k]))
  }

  /** Lower-casing twice is lower-casing once. */
  lemma LowerIdempotent(s: string)
    ensures Lower(Lower(s)) == Lower(s)
  {
    forall k | 0 <= k < |s| ensures Lower(Lower(s))[k] == Lower(s)[k] {
    }
  }

  predicate EndsWith(s: string, suffix: string) {
    |suffix| <= |s| && s[|s| - |suffix|..] == suffix
  }

  /** `fnmatch(f.lower(), '*.' + e)` for some `e` in `EXTS`: `*` matches any
      prefix, so the lower-cased name must end in `.e`. */
  predicate HasMediaExt(name: string) {
    exists e :: e in EXTS && EndsWith(Lower(name), "." + e)
  }

  /** The extension test ignores case: a name passes exactly when its
      lower-cased form does. */
  lemma MediaExtIgnoresCase(s: string)
    ensures HasMediaExt(s) <==> HasMediaExt(Lower(s))
  {
    LowerIdempotent(s);
  }

  /** `Clip.AVI` passes the extension test and `notes.txt` does not. */
  lemma MediaExtExamples()
    ensures HasMediaExt("Clip.AVI") && !HasMediaExt("notes.txt")
  {
    assert Lower("Clip.AVI") == "clip.avi";
    assert EndsWith(Lower("Clip.AVI"), "." + EXTS[0]);
    var n := "notes.txt";
    assert Lower(n) == n;
    assert "txt" !in EXTS;
    forall e | e in EXTS ensures !EndsWith(n, "." + e) {
      assert ("." + e)[1..] == e && ("." + e)[0] == '.';
      if |e| == 3 {
        assert n[|n| - 4..] == ".txt" && ".txt"[1..] == "txt";
      } else {
        assert n[|n| - 5..][0] == 's';
      }
    }
  }

  /** The predicate of `file_filter`: a directory, or a media file. */
  predicate Keep(isDir: Path -> bool, current: Path, f: string) {
    isDir(Join(current, f)) || HasMediaExt(f)
  }

  /** `file_filter(files)`: the names kept, in listing order. */
  function FileFilter(isDir: Path -> bool, current: Path, files: seq<string>): (r: seq<string>)
    ensures |r| <= |files|
  {
    if files == [] then []
    else (if Keep(isDir, current, files[0]) then [files[0]] else []) + FileFilter(isDir, current, files[1..])
  }

  /** The filter keeps exactly the names that pass `Keep`, each as often as listed. */
  lemma {:induction false} FileFilterKeeps(isDir: Path -> bool, current: Path, files: seq<string>)
    ensures forall x :: x in FileFilter(isDir, current, files) <==> x in files && Keep(isDir, current, x)
    ensures forall x :: multiset(FileFilter(isDir, current, files))[x] ==
                        if Keep(isDir, current, x) then multiset(files)[x] else 0
  {
    if files != [] {
      assert files == [files[0]] + files[1..];
      FileFilterKeeps(isDir, current, files[1..]);
    }
  }

  /** Filtering keeps the listing's order: it distributes over concatenation. */
  lemma {:induction false} FileFilterAppend(isDir: Path -> bool, current: Path, a: seq<string>, b: seq<string>)
    ensures FileFilter(isDir, current, a + b) == FileFilter(isDir, current, a) + FileFilter(isDir, current, b)
  {
    if a == [] {
      assert a + b == b;
    } else {
      assert (a + b)[1..] == a[1..] + b;
      assert (a + b)[0] == a[0];
      FileFilterAppend(isDir, current, a[1..], b);
      var h := if Keep(isDir, current, a[0]) then [a[0]] else [];
      assert FileFilter(isDir, current, a + b) == h + FileFilter(isDir, current, a[1..] + b);
      assert FileFilter(isDir, current, a) == h + FileFilter(isDir, current, a[1..]);
    }
  }

  /** A file name as an entry of the browser's store. */
  function Names(fs: seq<string>): seq<Entry> {
    seq(|fs|, k requires 0 <= k < |fs| => Name(fs[k]))
  }

  /** `os.listdir` never yields an empty name. */
  ghost predicate NonEmptyNames(listDir: Path -> seq<string>) {
    forall p: Path, i :: 0 <= i < |listDir(p)| ==> listDir(p)[i] != []
  }

  /** What `fetch` puts in the store for directory `p`: the filtered listing,
      sorted on field 0 (a name's first byte). */
  function Listing(listDir: Path -> seq<string>, isDir: Path -> bool, p: Path): seq<Entry> {
    Resorted(Names(FileFilter(isDir, p, listDir(p))), 0, false)
  }

  /** Every entry of a listing is a non-empty name, keyed on field 0 by its first byte. */
  lemma ListingEntries(listDir: Path -> seq<string>, isDir: Path -> bool, p: Path)
    requires NonEmptyNames(listDir)
    ensures var L := Listing(listDir, isDir, p);
      forall i :: 0 <= i < |L| ==> L[i].Name? && L[i].name != [] && Key(L[i], 0) == Text([L[i].name[0]])
  {
    var F := FileFilter(isDir, p, listDir(p));
    var N := Names(F);
    var L := Listing(listDir, isDir, p);
    ResortedIsStableSort(N, 0, false);
    FileFilterKeeps(isDir, p, listDir(p));
    forall i | 0 <= i < |L| ensures L[i].Name? && L[i].name != [] && Key(L[i], 0) == Text([L[i].name[0]]) {
      assert L[i] in multiset(N);
      var j :| 0 <= j < |N| && N[j] == L[i];
      assert F[j] in listDir(p);
      assert |Fields(L[i])| > 0;
    }
  }

  /** The stored listing holds the kept names; the browser's field-0 sort orders
      them by first byte only, names with the same first byte
      staying in listing order. */
  lemma ListingOrder(listDir: Path -> seq<string>, isDir: Path -> bool, p: Path)
    requires NonEmptyNames(listDir)
    ensures var L := Listing(listDir, isDir, p);
      var N := Names(FileFilter(isDir, p, listDir(p)));
      && multiset(L) == multiset(N)
      && Sorted(L, 0, false)
      && (forall i :: 0 <= i < |L| ==> L[i].Name? && L[i].name != [] && Key(L[i], 0) == Text([L[i].name[0]]))
      && (forall c: char :: WithKey(L, 0, Text([c])) == WithKey(N, 0, Text([c])))
  {
    var N := Names(FileFilter(isDir, p, listDir(p)));
    var L := Listing(listDir, isDir, p);
    ResortedIsStableSort(N, 0, false);
    ListingEntries(listDir, isDir, p);
    if 0 < |N| {
      assert StableSortOf(N, L, 0, false);
    } else {
      assert L == N == [];
    }
  }

  /** What a browser session changes: the directory, the history and the position. */
  datatype BrowserState = BrowserState(current: Path, history: seq<V.Pos>, pos: V.Pos)

  /** One key of `react` on a browser state with `h` visible rows: the
      viewport's move, `right` on `l`, `left` on `h`, and nothing otherwise.
      The listing of the current directory is the one `fetch` stored. */
  function Step(listDir: Path -> seq<string>, isDir: Path -> bool, h: int, s: BrowserState, key: int): BrowserState
    requires h > 0
  {
    var entries := Listing(listDir, isDir, s.current);
    match V.Binding(key)
    case Some(m) => s.(pos := V.Apply(m, s.pos, h, |entries|))
    case None =>
      if key == 'l' as int then
        var sel: Option<Entry> := At(entries, s.pos.select);
        match sel
        case Some(Name(n)) =>
          if isDir(Join(s.current, n)) then BrowserState(Join(s.current, n), [s.pos] + s.history, V.Pos(0, 0))
          else s
        case _ => s
      else if key == 'h' as int then
        if s.history == [] then s.(current := DirName(s.current))
        else BrowserState(DirName(s.current), s.history[1..], s.history[0])
      else s
  }

  /** How a session stops: on `q`, on a space (which `react` does not take),
      on `l` with nothing selected (where Python raises), or when the keys
      run out. */
  datatype Until = AtQuit | AtSpace | NoSelection | OutOfKeys

  /** Where a session ends and how. */
  datatype Session = Session(state: BrowserState, until: Until)

  /** Whether the key `key` ends the session on state `s`, and how. */
  function Ending(listDir: Path -> seq<string>, isDir: Path -> bool, s: BrowserState, key: int): (r: Option<Until>)
    ensures r.Some? <==> (key == 'q' as int || key == ' ' as int
      || (key == 'l' as int && At(Listing(listDir, isDir, s.current), s.pos.select).None?))
  {
    if key == 'q' as int then Some(AtQuit)
    else if key == ' ' as int then Some(AtSpace)
    else if key == 'l' as int && At(Listing(listDir, isDir, s.current), s.pos.select).None? then Some(NoSelection)
    else None
  }

  /** The keys of a `file_browser` session applied one by one with `Step`,
      until one of them ends it. */
  function Browse(listDir: Path -> seq<string>, isDir: Path -> bool, h: int, s: BrowserState, keys: seq<int>): Session
    requires h > 0
    decreases |keys|
  {
    if keys == [] then Session(s, OutOfKeys)
    else match Ending(listDir, isDir, s, keys[0])
      case Some(u) => Session(s, u)
      case None => Browse(listDir, isDir, h, Step(listDir, isDir, h, s, keys[0]), keys[1..])
  }

  /** A key that is neither bound nor `l` nor `h` leaves the state alone. */
  lemma StepIgnores(listDir: Path -> seq<string>, isDir: Path -> bool, h: int, s: BrowserState, key: int)
    requires h > 0 && V.Binding(key).None? && key != 'l' as int && key != 'h' as int
    ensures Step(listDir, isDir, h, s, key) == s
  {
  }

  /** `Browse` from the key at index `i` on: stop there, or take one step. */
  lemma BrowseFrom(listDir: Path -> seq<string>, isDir: Path -> bool, h: int, s: BrowserState, keys: seq<int>, i: nat)
    requires h > 0 && i < |keys|
    ensures Browse(listDir, isDir, h, s, keys[i..]) ==
      match Ending(listDir, isDir, s, keys[i])
      case Some(u) => Session(s, u)
      case None => Browse(listDir, isDir, h, Step(listDir, isDir, h, s, keys[i]), keys[i + 1..])
  {
    assert keys[i..][0] == keys[i] && keys[i..][1..] == keys[i + 1..];
  }

  /** `l` into a directory, then `h`, gives back the state. */
  lemma StepRightThenLeft(listDir: Path -> seq<string>, isDir: Path -> bool, h: int, s: BrowserState, n: string)
    requires h > 0
    requires At(Listing(listDir, isDir, s.current), s.pos.select) == Some(Name(n))
    requires isDir(Join(s.current, n))
    ensures Step(listDir, isDir, h, Step(listDir, isDir, h, s, 'l' as int), 'h' as int) == s
  {
    DirNameOfJoin(s.current, n);
  }

  /** Keys past the first `q` or space are never read. */
  lemma {:induction false} BrowseStopsAtEnd(listDir: Path -> seq<string>, isDir: Path -> bool, h: int,
                                            s: BrowserState, keys: seq<int>, more: seq<int>)
    requires h > 0
    requires more != [] && (more[0] == 'q' as int || more[0] == ' ' as int)
    ensures Browse(listDir, isDir, h, s, keys + more).state == Browse(listDir, isDir, h, s, keys).state
    decreases |keys|
  {
    if keys == [] {
      assert [] + more == more;
    } else {
      assert (keys + more)[0] == keys[0];
      assert (keys + more)[1..] == keys[1..] + more;
      if Ending(listDir, isDir, s, keys[0]).None? {
        BrowseStopsAtEnd(listDir, isDir, h, Step(listDir, isDir, h, s, keys[0]), keys[1..], more);
      }
    }
  }

  class FileBrowser {
    const list: ScrollList
    var current: Path
    var history: seq<V.Pos>
    const listDir: Path -> seq<string>
    const isDir: Path -> bool

    /** The directory, the history and the position. */
    function State(): BrowserState
      reads this, list
    {
      BrowserState(current, history, list.Position())
    }

    /** The store is the browser's own: sorted on field 0, ascending, shown by name. */
    ghost predicate Shape()
      reads this, list, list.data
    {
      list.data.Valid() && list.data.field == 0 && !list.data.reversed && list.data.keyfn == Subscript
      && NonEmptyNames(listDir)
    }

    /** ... and it holds the listing of `current`. */
    ghost predicate Valid()
      reads this, list, list.data
    {
      Shape() && list.data.data == Listing(listDir, isDir, current)
    }

    /** `FileBrowser(h, w)`: an empty store, the root directory, no history, then `fetch()`. */
    constructor (h: int, w: int, listDir: Path -> seq<string>, isDir: Path -> bool)
      requires NonEmptyNames(listDir)
      ensures Valid() && current == [] && history == []
      ensures list.height == h && list.width == w && list.Position() == V.Pos(0, 0)
    {
      var store := new Data([], Subscript, 0);
      list := new ScrollList(h, w, store);
      this.listDir := listDir;
      this.isDir := isDir;
      current := [];
      history := [];
      new;
      Fetch(None);
    }

    /** Every entry of a valid browser's store is a non-empty name. */
    lemma EntriesAreNames()
      requires Valid()
      ensures forall i :: 0 <= i < |list.data.data| ==> list.data.data[i].Name? && list.data.data[i].name != []
    {
      ListingEntries(listDir, isDir, current);
    }

    /** `fetch(new)`: move to directory `new` when given, then load its filtered listing. */
    method Fetch(dir: Option<Path>)
      requires Shape()
      modifies this, list.data
      ensures Valid() && history == old(history)
      ensures current == if dir.Some? then dir.value else old(current)
    {
      if dir.Some? {
        current := dir.value;
      }
      var names := FileFilter(isDir, current, listDir(current));
      FileFilterKeeps(isDir, current, listDir(current));
      forall i | 0 <= i < |Names(names)| ensures 0 < |Fields(Names(names)[i])| {
        assert names[i] in listDir(current);
      }
      list.data.Replace(Names(names));
    }

    /** `hist_push()`: the current position goes on the front of the history. */
    method HistPush()
      modifies this
      ensures current == old(current) && history == [list.Position()] + old(history)
    {
      history := [V.Pos(list.select, list.scroll)] + history;
    }

    /** `hist_pop()`: restore and drop the front position; nothing when the history is empty. */
    method HistPop()
      modifies this, list
      ensures current == old(current)
      ensures list.height == old(list.height) && list.width == old(list.width)
      ensures old(history) == [] ==> history == [] && list.Position() == old(list.Position())
      ensures old(history) != [] ==> list.Position() == old(history[0]) && history == old(history[1..])
    {
      if history != [] {
        list.select, list.scroll := history[0].select, history[0].scroll;
        history := history[1..];
      }
    }

    /** `right()`: descend into the selected name if it is a directory. The
        selection must exist (joining with `None` raises); it is a name, as every
        entry of a valid browser is (`EntriesAreNames`). */
    method Right()
      requires Valid() && list.Selection().Some? && list.Selection().value.Name?
      modifies this, list, list.data
      ensures Valid()
      ensures list.height == old(list.height) && list.width == old(list.width)
      ensures var target := Join(old(current), old(list.Selection()).value.name);
        if isDir(target) then
          current == target && history == [old(list.Position())] + old(history) && list.Position() == V.Pos(0, 0)
        else
          current == old(current) && history == old(history) && list.Position() == old(list.Position())
          && list.data.data == old(list.data.data)
    {
      var sel := list.Selection();
      var target := Join(current, sel.value.name);
      if isDir(target) {
        HistPush();
        Fetch(Some(target));
        list.Top();
      }
    }

    /** `left()`: restore the last position from the history and go to the parent. */
    method Left()
      requires Valid()
      modifies this, list, list.data
      ensures Valid() && current == DirName(old(current))
      ensures list.height == old(list.height) && list.width == old(list.width)
      ensures old(history) == [] ==> history == [] && list.Position() == old(list.Position())
      ensures old(history) != [] ==> list.Position() == old(history[0]) && history == old(history[1..])
    {
      HistPop();
      Fetch(Some(DirName(current)));
    }

    /** Descending into a directory and ascending again gives back the
        directory, the history, the position and the listing. */
    method RightThenLeft()
      requires Valid() && list.Selection().Some? && list.Selection().value.Name?
      requires isDir(Join(current, list.Selection().value.name))
      modifies this, list, list.data
      ensures Valid() && current == old(current) && history == old(history)
      ensures list.Position() == old(list.Position()) && list.data.data == old(list.data.data)
    {
      ghost var name := list.Selection().value.name;
      Right();
      Left();
      DirNameOfJoin(old(current), name);
    }

    /** `react(key)`: the viewport's table first; when it does not take the key,
        `l` descends and `h` ascends. Returns `None` (Python falls off the end)
        when the viewport took the key, else whether `l` or `h` was pressed. */
    method React(key: int) returns (r: Option<bool>)
      requires Valid()
      requires V.Binding(key).Some? ==> V.CanApply(V.Binding(key).value, list.Position(), list.height, list.data.size)
      requires key == 'l' as int ==> list.Selection().Some? && list.Selection().value.Name?
      modifies this, list, list.data
      ensures Valid() && list.height == old(list.height) && list.width == old(list.width)
      ensures r == if V.Binding(key).Some? then None else Some(key == 'l' as int || key == 'h' as int)
      ensures V.Binding(key).Some? ==>
        list.Position() == V.Apply(V.Binding(key).value, old(list.Position()), old(list.height), old(list.data.size))
        && current == old(current) && history == old(history)
      ensures key == 'h' as int ==> current == DirName(old(current))
      ensures key == 'h' as int && old(history) == [] ==> history == [] && list.Position() == old(list.Position())
      ensures key == 'h' as int && old(history) != [] ==>
        list.Position() == old(history[0]) && history == old(history[1..])
      ensures key == 'l' as int ==>
        var target := Join(old(current), old(list.Selection()).value.name);
        if isDir(target) then
          current == target && history == [old(list.Position())] + old(history) && list.Position() == V.Pos(0, 0)
        else
          current == old(current) && history == old(history) && list.Position() == old(list.Position())
          && list.data.data == old(list.data.data)
      ensures V.Binding(key).None? && key != 'l' as int && key != 'h' as int ==>
        current == old(current) && history == old(history) && list.Position() == old(list.Position())
      ensures old(list.height) > 0 ==> State() == Step(listDir, isDir, old(list.height), old(State()), key)
    {
      var taken := list.React(key);
      if !taken {
        if key == 'l' as int {
          Right();
          r := Some(true);
        } else if key == 'h' as int {
          Left();
          r := Some(true);
        } else {
          r := Some(false);
        }
      } else {
        r := None;
      }
    }
  }
}
