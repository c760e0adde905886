/** The sorted record store (`Data`): a list of entries kept in the order of a
    stable sort on one field, with Python's forgiving lookups. */
module Store {
  import opened Values
  import opened StableSort
  import opened Display

  /** The list after `sort_by_field`: sorted only when the field index is at
      least 0 and below the number of records. The guard compares the field
      index with the record count, not with the records' length. */
  function Resorted(s: seq<Entry>, field: int, rev: bool): seq<Entry> {
    if 0 <= field < |s| then Sort(s, field, rev) else s
  }

  /** What `sort_by_field` leaves behind: a permutation of the list; the stable
      sort on `field` (descending when `rev`) when the guard lets it run; the
      list untouched otherwise. */
  lemma ResortedIsStableSort(s: seq<Entry>, field: int, rev: bool)
    ensures multiset(Resorted(s, field, rev)) == multiset(s)
    ensures 0 <= field < |s| ==> StableSortOf(s, Resorted(s, field, rev), field, rev)
    ensures !(0 <= field < |s|) ==> Resorted(s, field, rev) == s
  {
    if 0 <= field < |s| {
      SortIsStable(s, field, rev);
    }
  }

  /** Whenever the guard lets the sort run, every record has the sort field
      (the sort key `e[field]` raises `IndexError` on a shorter record). */
  predicate SortableBy(s: seq<Entry>, field: int) {
    0 <= field < |s| ==> forall i :: 0 <= i < |s| ==> field < |Fields(s[i])|
  }

  /** The field update of `set`: pad with `None` up to index `j`, then write field `j`. */
  function SetField(fs: seq<Field>, j: nat, v: Field): (r: seq<Field>)
    ensures |r| == if j < |fs| then |fs| else j + 1
    ensures r[j] == v
    ensures forall k :: 0 <= k < |fs| && k != j ==> r[k] == fs[k]
    ensures forall k :: |fs| <= k < j ==> r[k] == Absent
  {
    var padded := if j < |fs| then fs else fs + seq(j + 1 - |fs|, _ => Absent);
    padded[j := v]
  }

  /** The list after `set(i, j, v)`: an empty entry is left alone; otherwise
      only entry `i` changes, and only in field `j` and its padding. */
  function SetAt(s: seq<Entry>, i: int, j: nat, v: Field): (r: seq<Entry>)
    requires InRange(i, |s|)
    requires TruthyEntry(s[Slot(i, |s|)]) ==> s[Slot(i, |s|)].Record?
    ensures |r| == |s|
    ensures forall k :: 0 <= k < |s| && k != Slot(i, |s|) ==> r[k] == s[k]
    ensures !TruthyEntry(s[Slot(i, |s|)]) ==> r == s
    ensures TruthyEntry(s[Slot(i, |s|)]) ==>
              r[Slot(i, |s|)] == Record(SetField(s[Slot(i, |s|)].fields, j, v))
  {
    var k := Slot(i, |s|);
    if TruthyEntry(s[k]) then s[k := Record(SetField(s[k].fields, j, v))] else s
  }

  /** A catalog record with a year and a title. */
  function YearTitle(year: string, title: string): Entry {
    Record([Text(year), Text(title)])
  }

  /** Sorting five records on the year keeps the two 2020 records in their
      original order. */
  lemma SortByYearExample()
    ensures var a, b, c, d, e := YearTitle("2019", "A"), YearTitle("2020", "B"), YearTitle("2018", "C"),
                                 YearTitle("2021", "D"), YearTitle("2020", "E");
      Resorted([a, b, c, d, e], 0, false) == [c, a, b, e, d]
  {
    var a, b, c, d, e := YearTitle("2019", "A"), YearTitle("2020", "B"), YearTitle("2018", "C"),
                         YearTitle("2021", "D"), YearTitle("2020", "E");
    assert [a, b, c, d, e][..4] == [a, b, c, d];
    assert [a, b, c, d][..3] == [a, b, c];
    assert [a, b, c][..2] == [a, b];
    assert [a, b][..1] == [a];
    assert [a][..0] == [];
    assert Sort([a], 0, false) == [a];
    assert Sort([a, b], 0, false) == [a, b];
    assert Insert([a], c, 0, false) == [c, a];
    assert Sort([a, b, c], 0, false) == [c, a, b];
    assert Sort([a, b, c, d], 0, false) == [c, a, b, d];
    assert Insert([c, a, b], e, 0, false) == [c, a, b, e];
    assert Sort([a, b, c, d, e], 0, false) == [c, a, b, e, d];
  }

  /** `set` does not re-sort: overwriting the sort field can leave the list
      out of order. */
  lemma SetCanUnsort()
    ensures var s := [YearTitle("2018", "A"), YearTitle("2019", "B")];
      Sorted(s, 0, false) && !Sorted(SetAt(s, 0, 0, Text("2020")), 0, false)
  {
    var s := [YearTitle("2018", "A"), YearTitle("2019", "B")];
    var t := SetAt(s, 0, 0, Text("2020"));
    assert t[0] == Record([Text("2020"), Text("A")]);
    assert Before(t[1], t[0], 0, false);
  }

  class Data {
    var data: seq<Entry>
    var size: int
    var field: int
    var reversed: bool
    const keyfn: KeyFn

    /** `size` counts the records. */
    ghost predicate Valid()
      reads this
    {
      size == |data|
    }

    /** `Data(list, keyfn, field)`: take the list, then sort it on `field`, ascending. */
    constructor (items: seq<Entry>, keyfn: KeyFn, field: int)
      requires SortableBy(items, field)
      ensures Valid() && this.keyfn == keyfn && this.field == field && !reversed
      ensures data == Resorted(items, field, false)
    {
      this.data := items;
      this.size := |items|;
      this.keyfn := keyfn;
      this.field := field;
      this.reversed := false;
      new;
      SortByField(Some(field));
    }

    /** `d[y]`: the entry at Python index `y`, or `None` out of range. */
    function Item(y: int): (r: Option<Entry>)
      reads this
      ensures r.None? <==> y >= |data| || y < -|data|
      ensures r.Some? ==> r.value == data[Slot(y, |data|)]
    {
      At(data, y)
    }

    /** `get(i, j)`: field `j` of entry `i`, or `None` when either index is out of range. */
    function Get(i: int, j: int): (r: Option<Field>)
      reads this
      ensures r.Some? <==> InRange(i, |data|) && InRange(j, |Fields(data[Slot(i, |data|)])|)
      ensures r.Some? ==> r.value == Fields(data[Slot(i, |data|)])[Slot(j, |Fields(data[Slot(i, |data|)])|)]
    {
      match At(data, i)
      case None => None
      case Some(e) => At(Fields(e), j)
    }

    /** `append(y)`: add the entry and re-sort. */
    method Append(y: Entry)
      requires Valid() && SortableBy(data + [y], field)
      modifies this
      ensures Valid() && field == old(field) && reversed == old(reversed)
      ensures data == Resorted(old(data) + [y], field, reversed)
      ensures size == old(size) + 1
    {
      data := data + [y];
      size := size + 1;
      SortByField(None);
    }

    /** `set(i, j, value)`: write field `j` of a non-empty record; no re-sort. */
    method Set(i: int, j: nat, value: Field)
      requires Valid() && InRange(i, |data|)
      requires TruthyEntry(data[Slot(i, |data|)]) ==> data[Slot(i, |data|)].Record?
      modifies this
      ensures Valid() && size == old(size) && field == old(field) && reversed == old(reversed)
      ensures data == SetAt(old(data), i, j, value)
    {
      var k := Slot(i, |data|);
      var entry := data[k];
      if TruthyEntry(entry) {
        data := data[k := Record(SetField(entry.fields, j, value))];
      }
    }

    /** `delete(i)`: remove entry `i`; the others keep their order; no re-sort. */
    method Delete(i: int)
      requires Valid() && InRange(i, |data|)
      modifies this
      ensures Valid() && size == old(size) - 1 && field == old(field) && reversed == old(reversed)
      ensures data == old(data[..Slot(i, |data|)] + data[Slot(i, |data|) + 1..])
    {
      var k := Slot(i, |data|);
      data := data[..k] + data[k + 1..];
      size := size - 1;
    }

    /** `replace(list)`: take a new list and re-sort it. */
    method Replace(items: seq<Entry>)
      requires Valid() && SortableBy(items, field)
      modifies this
      ensures Valid() && field == old(field) && reversed == old(reversed)
      ensures data == Resorted(items, field, reversed)
    {
      data := items;
      size := |items|;
      SortByField(None);
    }

    /** `sort_by_field(f)`: adopt `f` as the sort field when given, then sort
        if `0 <= field < size`. */
    method SortByField(f: Option<int>)
      requires Valid() && SortableBy(data, if f.Some? then f.value else field)
      modifies this
      ensures Valid() && size == old(size) && reversed == old(reversed)
      ensures field == if f.Some? then f.value else old(field)
      ensures data == Resorted(old(data), field, reversed)
    {
      if f.Some? {
        field := f.value;
      }
      if field >= 0 && field < size {
        data := Sort(data, field, reversed);
      }
    }

    /** `reverse()`: flip the direction, then re-sort. */
    method Reverse()
      requires Valid() && SortableBy(data, field)
      modifies this
      ensures Valid() && size == old(size) && field == old(field) && reversed == !old(reversed)
      ensures data == Resorted(old(data), field, reversed)
    {
      reversed := !reversed;
      SortByField(None);
    }
  }
}
