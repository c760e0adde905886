# viman in Dafny

viman is a small curses catalog of video files. The catalog is a list of
records, each holding a year, a title, a path and a "seen" mark. The program
shows the catalog in a scrolling list and sorts it on one field. It can add a
file picked in a directory browser, mark records as seen, delete them and
re-sort them. A one-line header shows the current mode.

This project models the logic behind those screens and proves its
properties:

- **`Data`** (module `Store`) is the record store. It holds the list of
  entries, a size counter, the sort field and the sort direction. Its lookups
  forgive bad indices and return `None`, as Python's `IndexError` handling
  does. `set` pads a short record. `append`, `replace`, `sort_by_field` and
  `reverse` re-sort the list; `set` and `delete` do not.
  - The sort is Python's stable `list.sort` on one field, optionally
    reversed. Module `StableSort` defines it as an insertion sort over
    CPython 2's default ordering of values (module `Values`: `None` < booleans
    < strings). It proves this sort sorted, stable and a permutation, and
    proves it is the only function with those properties. Any stable sort,
    Python's included, therefore gives the same list.
- **`ScrollList`** (module `Scrolling`) is the viewport: a selected row
  `select` and a first visible row `scroll` over the store.
  - Its eight moves are methods that update the two fields in place. Module
    `Viewport` holds the same moves as functions of a position. Each method's
    contract ties it to its function, and the lemmas are about the functions.
  - `bottom` keeps its `while` loop.
  - The key table `react` and the `resize` correction are modelled as well.
- **`FileBrowser`** (module `Browser`) is a viewport over the filtered listing
  of one directory below the browse root. It keeps a history of positions and
  moves into (`right`) and out of (`left`) directories.
  - `FileBrowser` is a class holding a `ScrollList` rather than a subclass of
    one.
  - A path is the sequence of its components.
  - The file system is given as two functions of a path: the list of names in
    a directory, and whether a path is a directory.
- **`Header` and `Mode`** (module `Modes`) hold the mode label. `Mode` is the
  `with mode(...)` block that sets a label and restores the previous one on
  every exit. Nested blocks are modelled by a datatype of blocks; a block may
  break off early.
- **The command layer of the main loop** (module `Commands`) holds the mode
  table, the key table and its priority below the list's own keys, and the
  actions `mark_toggle`, `entry_select`, `entry_delete`, `list_sort`,
  `browser_select` and `file_browser`. An answer the program reads from the
  keyboard or a prompt becomes a parameter. For `file_browser` that is the
  whole sequence of keys pressed.

Python's exceptions become preconditions wherever the program lets them
propagate. Among them:

- an index out of range in `set` or `delete`;
- `set` on a non-empty file name, which has no `extend` (`Store.SetAt`);
- a record too short for the sort key (`Store.SortableBy`);
- `my_show_fn` on a record with fewer than two fields (`Display.ShowRecord`);
- an empty mode table, since `modes.keys()[0]` is evaluated even when
  `default` is present (`Modes.Header.constructor`);
- joining a path with a missing selection.

Where the program catches an exception, the model follows the recovery path:
lookups give `None` out of range, and `chr` of a key code outside 0..255
means no binding. Python's negative list indices are modelled exactly, since
`scroll` can become negative.

Some behaviour of the code is easy to mistake:

- **Page down.** `pd` from row 1 of a 4-row window over 10 rows moves a
  whole page, to row 5 with row 4 at the top, because row 5 still exists. It
  does not jump to the last row (`Viewport.PageDownFromRowOne`).
- **The window.** The moves keep the selection inside the window
  (`Viewport.MovesKeepWindow`), but other operations do not:
  - `resize` after a large shrink can leave the selection outside the window
    (`Viewport.ResizeMayLeaveWindow`);
  - `pu` moves the window above row 0 (`Viewport.PageUpBelowZero`);
  - `bottom` and `pd` on an empty list select row -1
    (`Viewport.BottomAndPageDownOnEmpty`).
- **The starting label.** The header starts on the value `'main'` of the
  table's `default` entry, not on the key `default`. This works only because
  `'main'` is itself a key of the table (`Commands.NewHeader`). A `Mode` block
  restores the earlier label only when that label is a key, since `setmode`
  ignores anything else. `Modes.Run` therefore assumes `Keyed()`.

## Model

| member | source | states |
|---|---|---|
| Values.At | viman.py:41-45 | Python indexing that tolerates a bad index: `None` exactly when the index is outside `-n..n-1`, otherwise the entry, with a negative index counting from the end |
| Values.LessTotal | viman.py:80 | CPython 2's default comparison of two different fields puts one of them first, so it is a total order |
| Values.LessTransitive | viman.py:80 | That comparison is transitive |
| Values.NotLessTransitive | viman.py:80 | Its "not less" relation is transitive, the property a sorted list relies on |
| StableSort.SortIsStable | viman.py:80-81 | The reference sort is sorted on the field, descending when reversed. It keeps every group of equal keys in its original order, and it is a permutation |
| StableSort.StableSortIsUnique | viman.py:80-81 | Any list that is a stable sort of the input equals the reference sort, so the reference sort stands for Python's `list.sort` |
| StableSort.RemoveKeepsSorted | viman.py:66-69 | Removing one entry from a sorted list leaves it sorted |
| Display.ShowRecord | viman.py:352-355 | The row is `marker (year) title`. The marker is `' '` exactly when the record has more than three fields and field 3 is truthy, and `'!'` otherwise |
| Store.ResortedIsStableSort | viman.py:77-81 | After `sort_by_field`, the list is a permutation of the old one. It is the stable sort on the field when `0 <= field < size`, and untouched otherwise |
| Store.SetField | viman.py:59-64 | The record is padded with `None` to length `j+1`, then field `j` is written; every other field is kept |
| Store.SetAt | viman.py:59-64 | `set` changes only entry `i`, and only its field `j` and the padding. An empty entry is left alone |
| Store.SortByYearExample | viman.py:77-81 | Sorting on the year five records whose years are 2019, 2020, 2018, 2021 and 2020 gives 2018, 2019, 2020, 2020, 2021, with the two 2020 records in their original order |
| Store.SetCanUnsort | viman.py:59-64 | `set` does not re-sort: writing the sort field can leave the list out of order |
| Store.Data.constructor | viman.py:28-39 | A new store holds the given list, re-sorted ascending on the given field under the `0 <= field < size` guard. `size` is its length |
| Store.Data.Item | viman.py:41-45 | `d[y]` is `None` exactly when `y` is out of range, and otherwise the entry at Python index `y` |
| Store.Data.Get | viman.py:53-57 | `get(i, j)` is `None` exactly when `i` is out of range or `j` is out of the record's range, and otherwise that field |
| Store.Data.Append | viman.py:47-51 | The new list is the old one plus `y`, re-sorted on the current field and direction, and `size` grows by one |
| Store.Data.Set | viman.py:59-64 | The new list is `SetAt` of the old one: no re-sort, and `size`, the field and the direction are kept |
| Store.Data.Delete | viman.py:66-69 | Exactly entry `i` is removed, the others keep their order, and `size` drops by one |
| Store.Data.Replace | viman.py:71-75 | The list becomes the given one, re-sorted; `size` is its length |
| Store.Data.SortByField | viman.py:77-81 | Adopts the field when one is given, then re-sorts under the guard `0 <= field < size`. The guard compares the field with the record count |
| Store.Data.Reverse | viman.py:83-85 | Flips the direction, then re-sorts with the new direction |
| Viewport.BoundKeys | viman.py:133-150 | The list's key table binds exactly `g`, `j`, `k`, `G`, `^B`, `^E`, `^F` and `^Y` |
| Viewport.BottomScrollBounds | viman.py:156-159 | `bottom`'s loop stops with the last row inside the window. It moves a whole number of pages forward, keeps a page-aligned window aligned, and never scrolls past the last row |
| Viewport.BottomFromAligned | viman.py:156-159 | From any page-aligned window at or above the last row, including one above row 0 as `pu` leaves it, the loop ends at `((size-1) div height) * height` |
| Viewport.MovesKeepWindow | viman.py:152-200 | With at least one row and one visible row, every move keeps the selection a row of the list and inside the window |
| Viewport.TopIsOrigin | viman.py:152-154 | `top` gives `(select, scroll) = (0, 0)` |
| Viewport.BottomAndPageDownOnEmpty | viman.py:156-180 | On an empty list, `bottom` sets `select` to -1. So does `pd` from any selection no more than a page above row -1, including the one `bottom` leaves |
| Viewport.DownStep | viman.py:161-165 | `down` steps `select` by one unless on the last row, and moves `scroll` by a page exactly when the selection would leave the window |
| Viewport.UpStep | viman.py:167-171 | `up` steps `select` by one unless on row 0, and moves `scroll` back a page exactly when the selection would leave the window |
| Viewport.ThreeDowns | viman.py:161-165 | With height 3 over 10 rows, three `down`s from `(2, 0)` give `(5, 3)` |
| Viewport.PageDownFromRowOne | viman.py:173-180 | With height 4 over 10 rows, `pd` from `(1, 0)` gives `(5, 4)` |
| Viewport.PageUpBelowZero | viman.py:182-188 | With height 3, `pu` from `(3, 1)` gives `(0, -2)`: the window starts above row 0 |
| Viewport.ResizeKeepsInnerSelection | viman.py:110-115 | `resize` keeps a selection that is neither the first nor the last row |
| Viewport.ResizeMovesLastRowUp | viman.py:110-115 | `resize` moves a last-row selection up by one row, on a list of two or more rows |
| Viewport.ResizeMayLeaveWindow | viman.py:110-115 | After a shrink from 10 rows to 2, the selection `(8, 0)` becomes `(8, 2)`, outside the window |
| Scrolling.ScrollList.constructor | viman.py:102-108 | A new list has the given store and size, with row 0 selected and at the top |
| Scrolling.ScrollList.Show | viman.py:117-118 | `show(i)` is `'~'` for a missing or empty entry, and otherwise the store's rendering of entry `i` |
| Scrolling.ScrollList.Selection | viman.py:130-131 | `None` exactly when `select` is outside `-size..size-1`, and otherwise the entry at Python index `select` |
| Scrolling.ScrollList.Resize | viman.py:110-115 | Takes the new size, then the position is `up` applied after `down` |
| Scrolling.ScrollList.React | viman.py:133-150 | Returns true exactly for a bound key, and then applies its move; any other key changes nothing |
| Scrolling.ScrollList.Top | viman.py:152-154 | The position becomes `Viewport.Top` of the old one |
| Scrolling.ScrollList.Bottom | viman.py:156-159 | The loop leaves the position at `Viewport.Bottom` of the old one: the last row, with `scroll` advanced by whole pages as `Viewport.BottomScrollBounds` and `Viewport.BottomFromAligned` describe |
| Scrolling.ScrollList.Down | viman.py:161-165 | The position becomes `Viewport.Down` of the old one |
| Scrolling.ScrollList.Up | viman.py:167-171 | The position becomes `Viewport.Up` of the old one |
| Scrolling.ScrollList.PageDown | viman.py:173-180 | The position becomes `Viewport.PageDown` of the old one |
| Scrolling.ScrollList.PageUp | viman.py:182-188 | The position becomes `Viewport.PageUp` of the old one |
| Scrolling.ScrollList.ScrollDown | viman.py:190-194 | The position becomes `Viewport.ScrollDown` of the old one |
| Scrolling.ScrollList.ScrollUp | viman.py:196-200 | The position becomes `Viewport.ScrollUp` of the old one |
| Browser.DirNameOfJoin | viman.py:245-255 | Going up from a directory entered by `right` gives back the directory |
| Browser.MediaExtIgnoresCase | viman.py:220-221 | The extension test ignores case: a name passes exactly when its lower-cased form does |
| Browser.MediaExtExamples | viman.py:220-221 | `Clip.AVI` passes the extension test and `notes.txt` does not |
| Browser.FileFilterKeeps | viman.py:216-223 | `file_filter` keeps exactly the listed names that are directories or end in `.e` (lower-cased) for an extension `e` of `EXTS`, each as often as it is listed |
| Browser.FileFilterAppend | viman.py:216-223 | Filtering distributes over concatenation, so it keeps the listing order |
| Browser.ListingEntries | viman.py:210-214 | Every entry the browser stores is a non-empty file name whose sort key is its first byte |
| Browser.ListingOrder | viman.py:210-214 | The stored listing is a permutation of the filtered names, sorted on the first byte only. Names with the same first byte keep their listing order |
| Browser.FileBrowser.constructor | viman.py:204-208 | A new browser is at the root, with no history, holding the root directory's listing |
| Browser.FileBrowser.EntriesAreNames | viman.py:210-214 | In a valid browser every entry is a non-empty name |
| Browser.FileBrowser.Fetch | viman.py:210-214 | Moves to the given directory when one is given, and stores that directory's filtered, sorted listing |
| Browser.FileBrowser.HistPush | viman.py:239-240 | The position goes on the front of the history |
| Browser.FileBrowser.HistPop | viman.py:242-243 | A non-empty history gives back its front position and drops it. An empty one changes nothing |
| Browser.FileBrowser.Right | viman.py:245-251 | On a directory: the old position is pushed, the browser moves into the directory and selects row 0 at the top. Otherwise nothing changes |
| Browser.FileBrowser.Left | viman.py:253-255 | Pops the history, then moves to the parent directory; the root's parent is the root |
| Browser.FileBrowser.RightThenLeft | viman.py:245-255 | `right` into a directory followed by `left` restores the directory, the history, the position and the listing |
| Browser.StepIgnores | viman.py:225-237 | A key that is neither a navigation key nor `l` nor `h` leaves the directory, the history and the position alone |
| Browser.StepRightThenLeft | viman.py:245-255 | On the browser's state, `l` into a selected directory followed by `h` gives back the directory, the history and the position |
| Browser.BrowseStopsAtEnd | viman.py:414-420 | A session reads no key after the first `q` or space: appending keys after one leaves the final directory, history and position as they were |
| Browser.FileBrowser.React | viman.py:225-237 | A navigation key moves the list and falls off the end (`None`). Otherwise `l` acts as `right` and `h` as `left`, with the same directory, history and position, and both give true. Any other key gives false and changes nothing. Altogether, the directory, history and position become `Browser.Step` of the old ones |
| Modes.Header.constructor | viman.py:259-264 | The label starts as `modes['default']` when the table has it, and as some key otherwise |
| Modes.Header.SetMode | viman.py:277-280 | The label changes to `m` exactly when `m` is a key of the table |
| Modes.Mode.constructor | viman.py:307-311 | A block remembers the label current when it is created |
| Modes.Mode.Enter | viman.py:312-313 | Entering switches to the block's label when that label is a mode |
| Modes.Mode.Exit | viman.py:314-315 | Leaving switches back to the remembered label when that label is a mode |
| Modes.Run | viman.py:307-315 | Under any nesting of blocks, and however many inner blocks run before a `break`, the label after a block equals the label before it |
| Commands.NewHeader | viman.py:395-406 | The program's header starts on `main`, which is a key of its table |
| Commands.Dispatch | viman.py:498-511 | A key is a navigation move exactly when the list's table binds it |
| Commands.MainActionKeys | viman.py:502-511 | The action table binds exactly space, `l`, `!`, `?`, `a`, `d` and `z` |
| Commands.DispatchReachesActions | viman.py:498-511 | The list's table shadows no action key. A key bound in neither table, `q` among them, is ignored |
| Commands.Negated | viman.py:455 | `not get(i, 3)`: a missing field or `None` gives `True`, a flag its negation, and a string `True` exactly when it is empty |
| Commands.MarkToggleCmd | viman.py:453-455 | Writes the negated mark into field 3 of the selected entry, through `set`. The store's size, sort field and direction are kept |
| Commands.MarkToggleFlipsMarker | viman.py:453-455 | On a record, toggling flips the row's marker. A missing mark becomes `True`, a present one is negated, and year and title are kept |
| Commands.MarkToggleTwice | viman.py:453-455 | Toggling twice gives back the seen state |
| Commands.EntrySelectCmd | viman.py:422-423 | Selecting writes `True` into field 3 of the selected entry. The store's size, sort field and direction are kept |
| Commands.SelectMarksSeen | viman.py:422-423 | After selecting, a non-empty record shows as seen, and its other fields are kept |
| Commands.EntryDeleteCmd | viman.py:428-433 | `d` removes exactly the selected entry; any other answer keeps the list. The label is restored afterwards |
| Commands.ListSortCmd | viman.py:435-447 | `r` flips the direction and re-sorts, `y`/`t`/`!` re-sort on field 0/1/3, and any other key keeps the list. One key is read, and the label is restored |
| Commands.SortChoiceTable | viman.py:437-445 | The sort keys map `r` to reverse and `y`, `t`, `!` to fields 0, 1, 3; nothing else has an effect |
| Commands.MarkSortNeedsFourEntries | viman.py:77-81 | A sort on the mark (field 3) leaves a list of three or fewer entries as it is, and stable-sorts a longer one |
| Commands.JoinTextEnds | viman.py:386-389 | The joined path ends in `/` followed by the selected name |
| Commands.CatalogRecord | viman.py:346-350 | A new record has four fields and is not marked seen |
| Commands.CatalogRecordRow | viman.py:346-355 | A new record is shown as `! (year) title` |
| Commands.BrowserSelectCmd | viman.py:384-390 | Appends `[year, title, root/current/name, False]` to the catalog, re-sorted, and grows its size by one |
| Commands.FirstEnd | viman.py:414-420 | The index of the first `q` or space among the keys, or their count when there is none: no key before it is either |
| Commands.SelectOrRaise | viman.py:384-390 | A space the browser did not take picks the selection: the outcome is `Raised` exactly when nothing is selected or the new record cannot be sort-keyed, and otherwise the record is appended |
| Commands.BrowseEndsAtFirstEnd | viman.py:414-420 | `Browse` stops at `q` only when the first `q` or space is `q`, and at space only when it is space. It runs out of keys only when there is neither, and stops on `l` with nothing selected only when an `l` comes before that key |
| Commands.FeedKey | viman.py:414-420 | One key of the loop. A key that does not end the session moves the browser by `Browser.Step` and goes on. `q` quits, and `l` with nothing selected raises, both without moving the browser. A space picks or raises as `Commands.SelectOrRaise` does |
| Commands.BrowseKeys | viman.py:414-420 | The loop over the keys: the browser ends on the state `Browser.Browse` computes, and the outcome is how `Browse` stops. `Quit` and running out match exactly; a space gives a pick or an exception. An exception leaves nothing selected or a record that cannot be sort-keyed |
| Commands.FileBrowserCmd | viman.py:411-420 | Keys go to the browser until the first `q` or space: the directory, history and position it ends on are `Browser.Browse` of the keys, the fold of `react`'s step. `Quit` means that key was `q`, `Picked` that it was space; running out of keys means there was none. Without an `l` before it, a `q` always quits and no such key always runs out. The session raises only when, at its end, nothing is selected or the new record cannot be sort-keyed. A pick adds the selection's record to the catalog; nothing else changes the catalog. The label is restored on every exit |

## Left out

- Drawing and terminal input are not modelled: curses windows, `draw`, `Header.draw` and `Header.resize`, `Footer`, `show`, `sshow`, `get_param`, and the screen geometry of the program's `resize`. A key or an answer the program reads becomes a parameter.
- The help screen (`help_show`) is only a `with mode('help')` block around terminal output, which `Modes.Run` covers.
- The main loop itself is not modelled. Its per-key decision is `Commands.Dispatch`, and its actions are the `Commands` methods.
- Persistence (`checkout`, `commit`, the pickle file) is file I/O. Loading a store from a path is not modelled.
- The file system (`os.listdir`, `os.path.isdir`, `expanduser`) is given as the functions `listDir` and `isDir` of a browser, and as the expanded root `root` of `BrowserSelectCmd`. Both functions are fixed for the browser's lifetime: the model's file system does not change while the program runs. `Browser.FileBrowser.RightThenLeft` gives back the same listing for that reason; in the program, a directory changed between `right` and `left` lists differently.
- Starting the player in `entry_select` (`subprocess.Popen`) and the lockfile handling at start-up are process and file I/O.
- Store.Data.constructor: the program passes either a list or the path of a pickle file, and only the list case is modelled. `keyfn` is one of the two renderers the program uses (`Display.KeyFn`).
- Store.Data.Replace: the `type(data) is list` guard is not modelled. The argument is always a list here, since the only caller passes the result of `filter` on a list.
- Store.Data.Set: the field index `j` is a natural number. Python's negative `j` is not modelled; the program only ever writes field 3.
- Store.Data.Append: the record is stored as a value. Python shares the list object, so a later `set` on the caller's list would also show in the store; that aliasing is not modelled.
- Scrolling.ScrollList.Show: the default renderer `d[i]` is modelled for file names only, the only entries it is given. Python's printing of a record (`repr` of a list) is not modelled.
- Scrolling.ScrollList.Bottom: requires that its loop ends. With a height of 0 or less on a list the loop enters, Python never returns.
- Browser.FileBrowser.Right: requires a selection, since joining a missing one raises.
- Browser.FileBrowser.React: requires a selection for `l`, for the same reason.
- Browser.HasMediaExt: `fnmatch` is modelled for the patterns `*.e` it is given, as a suffix test. `str.lower` is modelled on ASCII letters; locale-dependent case mapping is not.
- Browser.FileBrowser.Fetch: paths are sequences of components, so a name containing `/` and path normalisation are not modelled.
- Commands.JoinText: `os.path.join` is modelled for a root without a trailing slash.
- Commands.EntryDeleteCmd: the answer is a character. The `ValueError` that `chr` raises on a key code above 255 is not modelled.
- Commands.ListSortCmd: the answer is a character, likewise.
- Commands.FileBrowserCmd: a key on which Python raises ends the model's session with `Raised`; in the program the exception ends the whole program. When the given keys run out, the session ends with `Exhausted`, where the program would wait for the next key. The browser's height must be positive, so that `G` terminates.
- Strings are Python 2 byte strings, one `char` per byte. A file name's sort key (`Browser.ListingEntries`, `Browser.ListingOrder`) is therefore its first byte, so two UTF-8 names whose first characters share a lead byte keep their listing order. Unicode strings are not modelled.
- How Python compares values of types the catalog never holds (numbers, lists) is not modelled: fields are `None`, booleans or strings.
