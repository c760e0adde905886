/** The command layer of the program's main loop: its mode table, its key
    table, and the actions it runs on the catalog list `body`, each inside the
    `with mode(...)` block the program puts around it. */
module Commands {
  import opened Values
  import opened StableSort
  import opened Display
  import opened Store
  import opened Scrolling
  import opened Browser
  import opened Modes
  import V = Viewport

  /** The header texts of the program, keyed by mode; `default` names the
      starting mode. */
  const MODES: map<string, string> := map[
    "default" := "main",
    "main" := "space:Play a:AddNew d:Delete z:Sort !:Mark ?:Help q:Quit",
    "browser" := "hjkl:Navigate space:Select q:Quit",
    "prompt" := "Enter to submit",
    "sort" := "Sort by? - y:Year t:Title !:Mark r:Reverse q:Quit",
    "delete" := "Really delete? - d:DeleteEntry D:DeleteWithFiles q:Abort",
    "help" := "Press any key to return"
  ]

  /** The program's header starts on the label `main`, which is itself a mode
      of the table, so every `with mode(...)` block restores it. */
  method NewHeader() returns (h: Header)
    ensures h.modes == MODES && h.mode == "main" && h.Keyed()
  {
    h := new Header(MODES);
  }

  // ---------------------------------------------------------------------------
  // The key table of the main loop.

  datatype Action = EntrySelect | MarkToggle | HelpShow | OpenBrowser | EntryDelete | ListSort

  /** The table the main loop consults when the list did not take the key. */
  function MainAction(key: int): Option<Action> {
    if key == ' ' as int || key == 'l' as int then Some(EntrySelect)
    else if key == '!' as int then Some(MarkToggle)
    else if key == '?' as int then Some(HelpShow)
    else if key == 'a' as int then Some(OpenBrowser)
    else if key == 'd' as int then Some(EntryDelete)
    else if key == 'z' as int then Some(ListSort)
    else None
  }

  /** What one key does in the main loop: the list's own move, an action, or nothing. */
  datatype Handling = Navigate(move: V.Move) | Perform(action: Action) | Ignore

  function Dispatch(key: int): (r: Handling)
    ensures r.Navigate? <==> V.Binding(key).Some?
  {
    match V.Binding(key)
    case Some(m) => Navigate(m)
    case None =>
      match MainAction(key)
      case Some(a) => Perform(a)
      case None => Ignore
  }

  /** The action table binds exactly space, `l`, `!`, `?`, `a`, `d` and `z`. */
  lemma MainActionKeys(key: int)
    ensures MainAction(key).Some? <==>
      key in {' ' as int, 'l' as int, '!' as int, '?' as int, 'a' as int, 'd' as int, 'z' as int}
  {
  }

  /** The list's table comes first, yet it takes none of the action keys: every
      action is reachable, and a key in neither table (`q` among them) does nothing. */
  lemma DispatchReachesActions(key: int)
    ensures MainAction(key).Some? ==> Dispatch(key) == Perform(MainAction(key).value)
    ensures Dispatch(key) == Ignore <==> V.Binding(key).None? && MainAction(key).None?
    ensures Dispatch('q' as int) == Ignore
  {
    V.BoundKeys(key);
    MainActionKeys(key);
  }

  // ---------------------------------------------------------------------------
  // `mark_toggle` and `entry_select`.

  /** `not body.data.get(i, 3)`: a missing field counts as false. */
  function Negated(g: Option<Field>): (r: Field)
    ensures g.None? ==> r == Flag(true)
    ensures g == Some(Absent) ==> r == Flag(true)
    ensures forall b :: g == Some(Flag(b)) ==> r == Flag(!b)
    ensures forall t :: g == Some(Text(t)) ==> r == Flag(t == [])
  {
    Flag(!(g.Some? && TruthyField(g.value)))
  }

  /** `mark_toggle()`: write the negation of the seen mark of the selected entry.
      The entry must exist (`set` indexes the list). */
  method MarkToggleCmd(body: ScrollList)
    requires body.data.Valid() && InRange(body.select, |body.data.data|)
    requires TruthyEntry(body.data.data[Slot(body.select, |body.data.data|)]) ==>
               body.data.data[Slot(body.select, |body.data.data|)].Record?
    modifies body.data
    ensures body.data.Valid() && body.data.field == old(body.data.field) && body.data.reversed == old(body.data.reversed)
    ensures body.data.data == SetAt(old(body.data.data), body.select, 3, Negated(old(body.data.Get(body.select, 3))))
  {
    var i := body.select;
    body.data.Set(i, 3, Negated(body.data.Get(i, 3)));
  }

  /** On a catalog record, `mark_toggle` flips the row's marker between `' '`
      and `'!'` and changes no other field: a missing mark becomes `True`, a
      present one its negation. */
  lemma MarkToggleFlipsMarker(fs: seq<Field>)
    requires |fs| >= 2
    ensures var t := SetField(fs, 3, Negated(At(fs, 3)));
      && IsRead(t) == !IsRead(fs)
      && ShowRecord(t)[0] != ShowRecord(fs)[0]
      && t[3] == (if |fs| > 3 then Flag(!TruthyField(fs[3])) else Flag(true))
      && t[..2] == fs[..2]
  {
    var t := SetField(fs, 3, Negated(At(fs, 3)));
    assert |t| >= 4;
    assert t[0] == fs[0] && t[1] == fs[1];
  }

  /** Toggling twice gives back the marker. */
  lemma MarkToggleTwice(fs: seq<Field>)
    requires |fs| >= 2
    ensures var t := SetField(fs, 3, Negated(At(fs, 3)));
      IsRead(SetField(t, 3, Negated(At(t, 3)))) == IsRead(fs)
  {
    var t := SetField(fs, 3, Negated(At(fs, 3)));
    MarkToggleFlipsMarker(fs);
    MarkToggleFlipsMarker(t);
  }

  /** `entry_select()`, without the player it starts: mark the selected entry
      as seen. */
  method EntrySelectCmd(body: ScrollList)
    requires body.data.Valid() && InRange(body.select, |body.data.data|)
    requires TruthyEntry(body.data.data[Slot(body.select, |body.data.data|)]) ==>
               body.data.data[Slot(body.select, |body.data.data|)].Record?
    modifies body.data
    ensures body.data.Valid() && body.data.field == old(body.data.field) && body.data.reversed == old(body.data.reversed)
    ensures body.data.data == SetAt(old(body.data.data), body.select, 3, Flag(true))
  {
    body.data.Set(body.select, 3, Flag(true));
  }

  /** After `entry_select` a non-empty record shows as seen. */
  lemma SelectMarksSeen(fs: seq<Field>)
    requires fs != []
    ensures IsRead(SetField(fs, 3, Flag(true)))
    ensures forall k :: 0 <= k < |fs| && k != 3 ==> SetField(fs, 3, Flag(true))[k] == fs[k]
  {
  }

  // ---------------------------------------------------------------------------
  // `entry_delete` and `list_sort`: one key read inside a mode block.

  /** `entry_delete()` with the key `ans` read in the `delete` mode: `d`
      removes the selected entry, anything else (`D` included) keeps it. The
      selection itself is left where it was. */
  method EntryDeleteCmd(head: Header, body: ScrollList, ans: char)
    requires head.Keyed() && body.data.Valid()
    requires ans == 'd' ==> InRange(body.select, |body.data.data|)
    modifies head, body.data
    ensures head.Keyed() && head.mode == old(head.mode)
    ensures body.data.Valid() && body.data.field == old(body.data.field) && body.data.reversed == old(body.data.reversed)
    ensures ans == 'd' ==>
      body.data.data == old(body.data.data[..Slot(body.select, |body.data.data|)]
                            + body.data.data[Slot(body.select, |body.data.data|) + 1..])
    ensures ans != 'd' ==> body.data.data == old(body.data.data)
  {
    var m := new Mode(head, "delete");
    m.Enter();
    if ans == 'd' {
      body.data.Delete(body.select);
    }
    m.Exit();
  }

  /** The choices of `list_sort`. */
  datatype SortOp = Flip | ByField(field: nat) | NoSort

  /** `opt = {'y': 0, 't': 1, '!': 3}`, with `r` for reverse. */
  function SortChoice(ans: char): SortOp {
    if ans == 'r' then Flip
    else if ans == 'y' then ByField(0)
    else if ans == 't' then ByField(1)
    else if ans == '!' then ByField(3)
    else NoSort
  }

  /** The field the store sorts on after the choice. */
  function FieldAfter(op: SortOp, field: int): int {
    if op.ByField? then op.field else field
  }

  /** The direction after the choice. */
  function ReversedAfter(op: SortOp, reversed: bool): bool {
    if op.Flip? then !reversed else reversed
  }

  /** `list_sort()` with the key `ans` read in the `sort` mode. The loop always
      ends after one key (`keep_sorting` is false). */
  method ListSortCmd(head: Header, body: ScrollList, ans: char)
    requires head.Keyed() && body.data.Valid()
    requires SortChoice(ans) != NoSort ==>
      SortableBy(body.data.data, FieldAfter(SortChoice(ans), body.data.field))
    modifies head, body.data
    ensures head.Keyed() && head.mode == old(head.mode)
    ensures body.data.Valid()
    ensures body.data.field == FieldAfter(SortChoice(ans), old(body.data.field))
    ensures body.data.reversed == ReversedAfter(SortChoice(ans), old(body.data.reversed))
    ensures body.data.data == if SortChoice(ans) == NoSort then old(body.data.data)
      else Resorted(old(body.data.data), body.data.field, body.data.reversed)
  {
    var m := new Mode(head, "sort");
    m.Enter();
    var op := SortChoice(ans);
    if op.Flip? {
      body.data.Reverse();
    } else if op.ByField? {
      body.data.SortByField(Some(op.field));
    }
    m.Exit();
  }

  /** `y`, `t` and `!` choose fields 0, 1 and 3, `r` flips the direction, and
      every other key changes nothing. */
  lemma SortChoiceTable(ans: char)
    ensures SortChoice(ans) == Flip <==> ans == 'r'
    ensures SortChoice(ans) == ByField(0) <==> ans == 'y'
    ensures SortChoice(ans) == ByField(1) <==> ans == 't'
    ensures SortChoice(ans) == ByField(3) <==> ans == '!'
    ensures SortChoice(ans) == NoSort <==> ans !in {'r', 'y', 't', '!'}
  {
  }

  /** Sorting on the mark (field 3) only happens with more than three entries:
      on three or fewer the order is left as it is. */
  lemma MarkSortNeedsFourEntries(s: seq<Entry>, rev: bool)
    ensures |s| <= 3 ==> Resorted(s, 3, rev) == s
    ensures |s| > 3 ==> StableSortOf(s, Resorted(s, 3, rev), 3, rev)
  {
    ResortedIsStableSort(s, 3, rev);
  }

  // ---------------------------------------------------------------------------
  // `file_browser` and `browser_select`.

  /** `os.path.join(base, p1, ..., pn)` for non-empty names without slashes,
      on a base that does not end in one: a slash before each component. The
      browser's root directory (`''` in Python) is the empty path, so it adds
      no component. */
  function JoinText(base: string, parts: seq<string>): (r: string)
    ensures parts == [] ==> r == base
    decreases |parts|
  {
    if parts == [] then base else JoinText(base + "/" + parts[0], parts[1..])
  }

  /** The path placed in a new record: the browse root, the browser's current
      directory and the selected name. */
  function PathText(root: string, current: Path, name: string): string {
    JoinText(root, current + [name])
  }

  /** The path ends in `/` and the selected name. */
  lemma {:induction false} JoinTextEnds(base: string, parts: seq<string>, name: string)
    ensures JoinText(base, parts + [name]) == JoinText(base, parts) + "/" + name
    decreases |parts|
  {
    if parts == [] {
      assert [] + [name] == [name];
    } else {
      assert (parts + [name])[0] == parts[0];
      assert (parts + [name])[1..] == parts[1..] + [name];
      JoinTextEnds(base + "/" + parts[0], parts[1..], name);
    }
  }

  /** The record `my_data_insert` builds: year, title, path and an unseen mark. */
  function CatalogRecord(year: string, title: string, path: string): (r: seq<Field>)
    ensures |r| == 4 && !IsRead(r)
  {
    [Text(year), Text(title), Text(path), Flag(false)]
  }

  /** A new record is shown unseen, with its year and title. */
  lemma CatalogRecordRow(year: string, title: string, path: string)
    ensures ShowRecord(CatalogRecord(year, title, path)) == "! (" + year + ") " + title
  {
  }

  /** `browser_select()`, with the answers to the `Year?` and `Title?` prompts
      given and the expanded browse root `root`: append the record for the
      selected file to the catalog. */
  method BrowserSelectCmd(browser: FileBrowser, body: ScrollList, year: string, title: string, root: string)
    requires browser.Valid() && browser.list.Selection().Some? && browser.list.Selection().value.Name?
    requires body.data.Valid() && body.data != browser.list.data
    requires SortableBy(body.data.data + [Record(CatalogRecord(year, title,
               PathText(root, browser.current, browser.list.Selection().value.name)))], body.data.field)
    modifies body.data
    ensures body.data.Valid() && body.data.size == old(body.data.size) + 1
    ensures body.data.field == old(body.data.field) && body.data.reversed == old(body.data.reversed)
    ensures body.data.data == Resorted(old(body.data.data) + [Record(CatalogRecord(year, title,
              PathText(root, browser.current, browser.list.Selection().value.name)))],
              body.data.field, body.data.reversed)
  {
    var path := PathText(root, browser.current, browser.list.Selection().value.name);
    body.data.Append(Record(CatalogRecord(year, title, path)));
  }

  /** How a browser session ends: `q`, a file picked with space, the given
      keys running out, or a key on which Python raises (`l` or space with
      nothing selected, or a new record the catalog's sort cannot key). */
  datatype Outcome = Quit | Picked | Exhausted | Raised

  /** The index of the first `q` or space among the keys, or `|keys|` when
      there is none: the browser takes neither key, so the session ends there
      at the latest. */
  function FirstEnd(keys: seq<int>): (r: nat)
    ensures r <= |keys|
    ensures forall j :: 0 <= j < r ==> keys[j] != 'q' as int && keys[j] != ' ' as int
    ensures r < |keys| ==> keys[r] == 'q' as int || keys[r] == ' ' as int
    decreases |keys|
  {
    if keys == [] || keys[0] == 'q' as int || keys[0] == ' ' as int then 0
    else 1 + FirstEnd(keys[1..])
  }

  /** A space the browser did not take: `browser_select()` on the current
      selection. Python raises when nothing is selected, or when the catalog's
      sort cannot key the new record. */
  method SelectOrRaise(browser: FileBrowser, body: ScrollList, year: string, title: string, root: string)
    returns (outcome: Outcome, picked: Option<seq<Field>>)
    requires browser.Valid() && body.data.Valid() && body.data != browser.list.data
    modifies body.data
    ensures body.data.Valid() && body.data.field == old(body.data.field) && body.data.reversed == old(body.data.reversed)
    ensures outcome == Picked || outcome == Raised
    ensures picked.Some? <==> outcome == Picked
    ensures outcome == Raised <==> (browser.list.Selection().None?
      || (browser.list.Selection().value.Name? && !SortableBy(old(body.data.data) + [Record(CatalogRecord(year, title,
            PathText(root, browser.current, browser.list.Selection().value.name)))], body.data.field)))
    ensures outcome == Picked ==>
      browser.list.Selection().Some? && browser.list.Selection().value.Name?
      && picked.value == CatalogRecord(year, title, PathText(root, browser.current, browser.list.Selection().value.name))
      && body.data.data == Resorted(old(body.data.data) + [Record(picked.value)], body.data.field, body.data.reversed)
    ensures outcome == Raised ==> body.data.data == old(body.data.data)
  {
    var sel := browser.list.Selection();
    if sel.None? {
      return Raised, None;
    }
    browser.EntriesAreNames();
    var rec := CatalogRecord(year, title, PathText(root, browser.current, sel.value.name));
    if !SortableBy(body.data.data + [Record(rec)], body.data.field) {
      return Raised, None;
    }
    BrowserSelectCmd(browser, body, year, title, root);
    outcome, picked := Picked, Some(rec);
  }

  /** How `Browse` stops, in terms of the keys: on the first `q` or space,
      unless an `l` with nothing selected comes before it. */
  lemma {:induction false} BrowseEndsAtFirstEnd(listDir: Path -> seq<string>, isDir: Path -> bool, h: int,
                                                s: BrowserState, keys: seq<int>)
    requires h > 0
    ensures var u := Browse(listDir, isDir, h, s, keys).until;
      && (u == AtQuit ==> FirstEnd(keys) < |keys| && keys[FirstEnd(keys)] == 'q' as int)
      && (u == AtSpace ==> FirstEnd(keys) < |keys| && keys[FirstEnd(keys)] == ' ' as int)
      && (u == OutOfKeys ==> FirstEnd(keys) == |keys|)
      && (u == NoSelection ==> 'l' as int in keys[..FirstEnd(keys)])
    decreases |keys|
  {
    if keys != [] && Ending(listDir, isDir, s, keys[0]).None? {
      var rest := keys[1..];
      BrowseEndsAtFirstEnd(listDir, isDir, h, Step(listDir, isDir, h, s, keys[0]), rest);
      assert FirstEnd(keys) == 1 + FirstEnd(rest);
      assert keys[..FirstEnd(keys)] == [keys[0]] + rest[..FirstEnd(rest)];
    }
  }

  /** One key of `file_browser`'s loop: `l` with nothing selected raises;
      otherwise the browser reacts, a space it did not take picks, and `q`
      quits. `Exhausted` means the loop goes on to the next key. */
  method FeedKey(browser: FileBrowser, body: ScrollList, c: int, year: string, title: string, root: string)
    returns (outcome: Outcome, picked: Option<seq<Field>>)
    requires browser.Valid() && browser.list.height > 0
    requires body.data.Valid() && body.data != browser.list.data
    modifies browser, browser.list, browser.list.data, body.data
    ensures browser.Valid() && browser.list.height == old(browser.list.height)
    ensures body.data.Valid() && body.data.field == old(body.data.field) && body.data.reversed == old(body.data.reversed)
    ensures picked.Some? <==> outcome == Picked
    ensures outcome != Picked ==> body.data.data == old(body.data.data)
    ensures Ending(browser.listDir, browser.isDir, old(browser.State()), c).Some? ==> browser.State() == old(browser.State())
    ensures Ending(browser.listDir, browser.isDir, old(browser.State()), c).None? ==>
      browser.State() == Step(browser.listDir, browser.isDir, browser.list.height, old(browser.State()), c)
      && outcome == Exhausted
    ensures Ending(browser.listDir, browser.isDir, old(browser.State()), c) == Some(NoSelection) ==> outcome == Raised
    ensures Ending(browser.listDir, browser.isDir, old(browser.State()), c) == Some(AtQuit) ==> outcome == Quit
    ensures Ending(browser.listDir, browser.isDir, old(browser.State()), c) == Some(AtSpace) ==>
      outcome == Picked || outcome == Raised
    ensures outcome == Raised ==> (browser.list.Selection().None?
      || (browser.list.Selection().value.Name? && !SortableBy(old(body.data.data) + [Record(CatalogRecord(year, title,
            PathText(root, browser.current, browser.list.Selection().value.name)))], body.data.field)))
    ensures outcome == Picked ==>
      browser.list.Selection().Some? && browser.list.Selection().value.Name?
      && picked.value == CatalogRecord(year, title, PathText(root, browser.current, browser.list.Selection().value.name))
      && body.data.data == Resorted(old(body.data.data) + [Record(picked.value)], body.data.field, body.data.reversed)
  {
    if c == 'l' as int && browser.list.Selection().None? {
      return Raised, None;
    }
    ghost var before := browser.State();
    browser.EntriesAreNames();
    var r := browser.React(c);
    outcome, picked := Exhausted, None;
    if c == 'q' as int || c == ' ' as int {
      StepIgnores(browser.listDir, browser.isDir, browser.list.height, before, c);
    }
    if r != Some(true) && c == ' ' as int {
      outcome, picked := SelectOrRaise(browser, body, year, title, root);
    } else if c == 'q' as int {
      outcome := Quit;
    }
  }

  /** The loop of `file_browser()` over the keys `keys`: the browser ends on
      `Browse` of its state and the keys, and the outcome is how `Browse`
      stops, a space giving a pick or an exception. */
  method BrowseKeys(browser: FileBrowser, body: ScrollList, keys: seq<int>,
                    year: string, title: string, root: string) returns (outcome: Outcome, picked: Option<seq<Field>>)
    requires browser.Valid() && browser.list.height > 0
    requires body.data.Valid() && body.data != browser.list.data
    modifies browser, browser.list, browser.list.data, body.data
    ensures browser.Valid() && browser.list.height == old(browser.list.height)
    ensures body.data.Valid() && body.data.field == old(body.data.field) && body.data.reversed == old(body.data.reversed)
    ensures picked.Some? <==> outcome == Picked
    ensures outcome != Picked ==> body.data.data == old(body.data.data)
    ensures var r := Browse(browser.listDir, browser.isDir, browser.list.height, old(browser.State()), keys);
      && browser.State() == r.state
      && (outcome == Quit <==> r.until == AtQuit)
      && (outcome == Exhausted <==> r.until == OutOfKeys)
      && (r.until == NoSelection ==> outcome == Raised)
      && (r.until == AtSpace ==> outcome == Picked || outcome == Raised)
    ensures outcome == Raised ==> (browser.list.Selection().None?
      || (browser.list.Selection().value.Name? && !SortableBy(old(body.data.data) + [Record(CatalogRecord(year, title,
            PathText(root, browser.current, browser.list.Selection().value.name)))], body.data.field)))
    ensures outcome == Picked ==>
      browser.list.Selection().Some? && browser.list.Selection().value.Name?
      && picked.value == CatalogRecord(year, title, PathText(root, browser.current, browser.list.Selection().value.name))
      && body.data.data == Resorted(old(body.data.data) + [Record(picked.value)], body.data.field, body.data.reversed)
  {
    ghost var whole := Browse(browser.listDir, browser.isDir, browser.list.height, browser.State(), keys);
    outcome, picked := Exhausted, None;
    var i := 0;
    while i < |keys|
      invariant 0 <= i <= |keys|
      invariant browser.Valid() && browser.list.height == old(browser.list.height)
      invariant body.data.Valid() && body.data.field == old(body.data.field) && body.data.reversed == old(body.data.reversed)
      invariant body.data.data == old(body.data.data)
      invariant outcome == Exhausted && picked == None
      invariant whole == Browse(browser.listDir, browser.isDir, browser.list.height, browser.State(), keys[i..])
      decreases |keys| - i
    {
      var c := keys[i];
      BrowseFrom(browser.listDir, browser.isDir, browser.list.height, browser.State(), keys, i);
      outcome, picked := FeedKey(browser, body, c, year, title, root);
      i := i + 1;
      if outcome != Exhausted {
        break;
      }
    }
  }

  /** `file_browser()` fed the keys `keys`: inside the `browser` mode, each key
      goes to the browser, whose directory, history and position end on
      `Browse` of the keys. A key it does not take ends the session on space,
      by adding the selected file to the catalog, and on `q`. The session
      reads no key past the first `q` or space; it raises earlier only on `l`
      with nothing selected. */
  method FileBrowserCmd(head: Header, browser: FileBrowser, body: ScrollList, keys: seq<int>,
                        year: string, title: string, root: string) returns (outcome: Outcome, picked: Option<seq<Field>>)
    requires head.Keyed() && browser.Valid() && browser.list.height > 0
    requires body.data.Valid() && body.data != browser.list.data
    modifies head, browser, browser.list, browser.list.data, body.data
    ensures head.Keyed() && head.mode == old(head.mode)
    ensures browser.Valid() && browser.list.height == old(browser.list.height)
    ensures browser.State() == Browse(browser.listDir, browser.isDir, browser.list.height, old(browser.State()), keys).state
    ensures body.data.Valid() && body.data.field == old(body.data.field) && body.data.reversed == old(body.data.reversed)
    ensures picked.Some? <==> outcome == Picked
    ensures outcome == Picked ==>
      browser.list.Selection().Some? && browser.list.Selection().value.Name?
      && picked.value == CatalogRecord(year, title, PathText(root, browser.current, browser.list.Selection().value.name))
      && body.data.data == Resorted(old(body.data.data) + [Record(picked.value)], body.data.field, body.data.reversed)
    ensures outcome != Picked ==> body.data.data == old(body.data.data)
    ensures outcome == Quit ==> FirstEnd(keys) < |keys| && keys[FirstEnd(keys)] == 'q' as int
    ensures outcome == Picked ==> FirstEnd(keys) < |keys| && keys[FirstEnd(keys)] == ' ' as int
    ensures outcome == Exhausted ==> FirstEnd(keys) == |keys|
    ensures outcome == Raised ==>
      'l' as int in keys[..FirstEnd(keys)] || (FirstEnd(keys) < |keys| && keys[FirstEnd(keys)] == ' ' as int)
    ensures outcome == Raised ==> (browser.list.Selection().None?
      || (browser.list.Selection().value.Name? && !SortableBy(old(body.data.data) + [Record(CatalogRecord(year, title,
            PathText(root, browser.current, browser.list.Selection().value.name)))], body.data.field)))
    ensures 'l' as int !in keys[..FirstEnd(keys)] ==>
      (FirstEnd(keys) == |keys| ==> outcome == Exhausted)
      && (FirstEnd(keys) < |keys| && keys[FirstEnd(keys)] == 'q' as int ==> outcome == Quit)
  {
    var m := new Mode(head, "browser");
    m.Enter();
    BrowseEndsAtFirstEnd(browser.listDir, browser.isDir, browser.list.height, browser.State(), keys);
    outcome, picked := BrowseKeys(browser, body, keys, year, title, root);
    m.Exit();
  }
}
