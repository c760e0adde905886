/** Python's `list.sort(key=lambda e: e[field], reverse=rev)` on a store's list:
    a stable sort on one field, descending when `rev`. */
module StableSort {
  import opened Values

  /** The sort key of an entry, `e[f]`. Callers make sure the field exists
      (Python raises `IndexError` on a short record); `Absent` fills in otherwise. */
  function Key(e: Entry, f: nat): Field {
    var fs := Fields(e);
    if f < |fs| then fs[f] else Absent
  }

  /** Key `k1` sorts strictly before key `k2`. */
  predicate KeyBefore(k1: Field, k2: Field, rev: bool) {
    if rev then Less(k2, k1) else Less(k1, k2)
  }

  predicate Before(a: Entry, b: Entry, f: nat, rev: bool) {
    KeyBefore(Key(a, f), Key(b, f), rev)
  }

  /** No entry sorts strictly before one that precedes it. */
  predicate Sorted(s: seq<Entry>, f: nat, rev: bool) {
    forall i, j :: 0 <= i < j < |s| ==> !Before(s[j], s[i], f, rev)
  }

  /** The entries of `s` whose key is `k`, in their order in `s`. */
  function WithKey(s: seq<Entry>, f: nat, k: Field): (r: seq<Entry>)
    ensures |r| <= |s|
  {
    if s == [] then []
    else WithKey(s[..|s| - 1], f, k) + (if Key(s[|s| - 1], f) == k then [s[|s| - 1]] else [])
  }

  /** `r` is a stable sort of `s`: sorted, and every group of equal keys keeps
      the entries it had in `s`, in their order in `s`. */
  ghost predicate StableSortOf(s: seq<Entry>, r: seq<Entry>, f: nat, rev: bool) {
    Sorted(r, f, rev) && forall k :: WithKey(r, f, k) == WithKey(s, f, k)
  }

  /** Puts `x` after every entry of the sorted `s` that does not sort strictly after it. */
  function Insert(s: seq<Entry>, x: Entry, f: nat, rev: bool): (r: seq<Entry>)
    ensures |r| == |s| + 1
  {
    if s == [] || !Before(x, s[|s| - 1], f, rev) then s + [x]
    else Insert(s[..|s| - 1], x, f, rev) + [s[|s| - 1]]
  }

  /** Insertion sort: the reference definition of the sort the store performs. */
  function Sort(s: seq<Entry>, f: nat, rev: bool): (r: seq<Entry>)
    ensures |r| == |s|
  {
    if s == [] then [] else Insert(Sort(s[..|s| - 1], f, rev), s[|s| - 1], f, rev)
  }

  // ---------------------------------------------------------------------------

  lemma KeyBeforeIrreflexive(k: Field, rev: bool)
    ensures !KeyBefore(k, k, rev)
  {
    LessIrreflexive(k);
  }

  lemma KeyBeforeAsymmetric(k1: Field, k2: Field, rev: bool)
    requires KeyBefore(k1, k2, rev)
    ensures !KeyBefore(k2, k1, rev)
  {
    if KeyBefore(k2, k1, rev) {
      LessTransitive(k1, k2, k1);
      LessIrreflexive(k1);
    }
  }

  lemma NotBeforeTransitive(a: Entry, b: Entry, c: Entry, f: nat, rev: bool)
    requires !Before(b, a, f, rev) && !Before(c, b, f, rev)
    ensures !Before(c, a, f, rev)
  {
    if rev {
      NotLessTransitive(Key(c, f), Key(b, f), Key(a, f));
    } else {
      NotLessTransitive(Key(a, f), Key(b, f), Key(c, f));
    }
  }

  lemma KeyBeforeTotal(k1: Field, k2: Field, rev: bool)
    requires !KeyBefore(k1, k2, rev) && !KeyBefore(k2, k1, rev)
    ensures k1 == k2
  {
    if k1 != k2 {
      LessTotal(k1, k2);
    }
  }

  lemma WithKeySnoc(s: seq<Entry>, x: Entry, f: nat, k: Field)
    ensures WithKey(s + [x], f, k) == WithKey(s, f, k) + (if Key(x, f) == k then [x] else [])
  {
    assert (s + [x])[..|s + [x]| - 1] == s;
  }

  /** `WithKey` picks out exactly the entries with key `k`. */
  lemma {:induction false} WithKeyMembers(s: seq<Entry>, f: nat, k: Field, e: Entry)
    ensures e in WithKey(s, f, k) <==> e in s && Key(e, f) == k
  {
    if s != [] {
      WithKeyMembers(s[..|s| - 1], f, k, e);
      assert s == s[..|s| - 1] + [s[|s| - 1]];
    }
  }

  lemma SortedPrefix(s: seq<Entry>, n: nat, f: nat, rev: bool)
    requires Sorted(s, f, rev) && n <= |s|
    ensures Sorted(s[..n], f, rev)
  {
  }

  lemma SortedSnoc(s: seq<Entry>, x: Entry, f: nat, rev: bool)
    requires Sorted(s, f, rev)
    requires forall i :: 0 <= i < |s| ==> !Before(x, s[i], f, rev)
    ensures Sorted(s + [x], f, rev)
  {
    var t := s + [x];
    forall i, j | 0 <= i < j < |t| ensures !Before(t[j], t[i], f, rev) {
      if j == |s| {
        assert t[j] == x && t[i] == s[i];
      } else {
        assert t[j] == s[j] && t[i] == s[i];
      }
    }
  }

  // ---------------------------------------------------------------------------
  // Insertion keeps the per-key groups, the multiset and sortedness.

  lemma {:induction false} InsertWithKey(s: seq<Entry>, x: Entry, f: nat, rev: bool, k: Field)
    ensures WithKey(Insert(s, x, f, rev), f, k) == WithKey(s, f, k) + (if Key(x, f) == k then [x] else [])
  {
    if s == [] || !Before(x, s[|s| - 1], f, rev) {
      WithKeySnoc(s, x, f, k);
    } else {
      var pre, last := s[..|s| - 1], s[|s| - 1];
      assert s == pre + [last];
      InsertWithKey(pre, x, f, rev, k);
      WithKeySnoc(Insert(pre, x, f, rev), last, f, k);
      WithKeySnoc(pre, last, f, k);
      KeyBeforeIrreflexive(Key(x, f), rev);
      GroupsCommute(WithKey(pre, f, k), x, last, f, k);
    }
  }

  /** Two entries with different keys never both join the same group. */
  lemma GroupsCommute(w: seq<Entry>, x: Entry, y: Entry, f: nat, k: Field)
    requires Key(x, f) != Key(y, f)
    ensures w + (if Key(x, f) == k then [x] else []) + (if Key(y, f) == k then [y] else [])
         == w + (if Key(y, f) == k then [y] else []) + (if Key(x, f) == k then [x] else [])
  {
  }

  lemma {:induction false} InsertMultiset(s: seq<Entry>, x: Entry, f: nat, rev: bool)
    ensures multiset(Insert(s, x, f, rev)) == multiset(s) + multiset{x}
  {
    if s != [] && Before(x, s[|s| - 1], f, rev) {
      var pre, last := s[..|s| - 1], s[|s| - 1];
      assert s == pre + [last];
      InsertMultiset(pre, x, f, rev);
    }
  }

  lemma {:induction false} InsertSorted(s: seq<Entry>, x: Entry, f: nat, rev: bool)
    requires Sorted(s, f, rev)
    ensures Sorted(Insert(s, x, f, rev), f, rev)
  {
    if s == [] {
    } else if !Before(x, s[|s| - 1], f, rev) {
      forall i | 0 <= i < |s| ensures !Before(x, s[i], f, rev) {
        if i < |s| - 1 {
          NotBeforeTransitive(s[i], s[|s| - 1], x, f, rev);
        }
      }
      SortedSnoc(s, x, f, rev);
    } else {
      var pre, last := s[..|s| - 1], s[|s| - 1];
      SortedPrefix(s, |s| - 1, f, rev);
      InsertSorted(pre, x, f, rev);
      var t := Insert(pre, x, f, rev);
      InsertMultiset(pre, x, f, rev);
      forall i | 0 <= i < |t| ensures !Before(last, t[i], f, rev) {
        assert t[i] in multiset(t);
        if t[i] == x {
          KeyBeforeAsymmetric(Key(x, f), Key(last, f), rev);
        } else {
          assert t[i] in multiset(pre);
          var j :| 0 <= j < |pre| && pre[j] == t[i];
          assert s[j] == t[i];
        }
      }
      SortedSnoc(t, last, f, rev);
    }
  }

  /** The reference sort is a stable sort and a permutation of its input. */
  lemma {:induction false} SortIsStable(s: seq<Entry>, f: nat, rev: bool)
    ensures StableSortOf(s, Sort(s, f, rev), f, rev)
    ensures multiset(Sort(s, f, rev)) == multiset(s)
  {
    if s != [] {
      var pre, last := s[..|s| - 1], s[|s| - 1];
      assert s == pre + [last];
      SortIsStable(pre, f, rev);
      InsertSorted(Sort(pre, f, rev), last, f, rev);
      InsertMultiset(Sort(pre, f, rev), last, f, rev);
      forall k ensures WithKey(Sort(s, f, rev), f, k) == WithKey(s, f, k) {
        InsertWithKey(Sort(pre, f, rev), last, f, rev, k);
        WithKeySnoc(pre, last, f, k);
      }
    }
  }

  /** A list with no entry in any group is empty. */
  lemma NoGroupsEmpty(r: seq<Entry>, f: nat)
    requires forall k :: WithKey(r, f, k) == []
    ensures r == []
  {
    if r != [] {
      var e := r[|r| - 1];
      WithKeyMembers(r, f, Key(e, f), e);
    }
  }

  /** Nothing in a sorted list sorts strictly after its last entry. */
  lemma LastIsGreatest(r: seq<Entry>, e: Entry, f: nat, rev: bool)
    requires Sorted(r, f, rev) && e in r
    ensures !Before(r[|r| - 1], e, f, rev)
  {
    var i :| 0 <= i < |r| && r[i] == e;
    if i == |r| - 1 {
      KeyBeforeIrreflexive(Key(e, f), rev);
    }
  }

  /** Two sorted lists with the same groups end in entries with the same key. */
  lemma LastKeysAgree(r1: seq<Entry>, r2: seq<Entry>, f: nat, rev: bool)
    requires Sorted(r1, f, rev) && Sorted(r2, f, rev) && r1 != [] && r2 != []
    requires forall k :: WithKey(r1, f, k) == WithKey(r2, f, k)
    ensures Key(r1[|r1| - 1], f) == Key(r2[|r2| - 1], f)
  {
    var a, b := r1[|r1| - 1], r2[|r2| - 1];
    var ka, kb := Key(a, f), Key(b, f);
    assert WithKey(r1, f, ka) == WithKey(r2, f, ka);
    assert WithKey(r1, f, kb) == WithKey(r2, f, kb);
    WithKeyMembers(r1, f, ka, a);
    WithKeyMembers(r2, f, ka, a);
    WithKeyMembers(r2, f, kb, b);
    WithKeyMembers(r1, f, kb, b);
    LastIsGreatest(r2, a, f, rev);
    LastIsGreatest(r1, b, f, rev);
    KeyBeforeTotal(ka, kb, rev);
  }

  /** Dropping the same last entry from two lists with the same groups keeps the groups equal. */
  lemma PrefixGroupsAgree(p1: seq<Entry>, p2: seq<Entry>, a: Entry, f: nat)
    requires forall k :: WithKey(p1 + [a], f, k) == WithKey(p2 + [a], f, k)
    ensures forall k :: WithKey(p1, f, k) == WithKey(p2, f, k)
  {
    forall k ensures WithKey(p1, f, k) == WithKey(p2, f, k) {
      assert WithKey(p1 + [a], f, k) == WithKey(p2 + [a], f, k);
      WithKeySnoc(p1, a, f, k);
      WithKeySnoc(p2, a, f, k);
      var t := if Key(a, f) == k then [a] else [];
      assert WithKey(p1, f, k) == (WithKey(p1, f, k) + t)[..|WithKey(p1, f, k)|];
      assert WithKey(p2, f, k) == (WithKey(p2, f, k) + t)[..|WithKey(p2, f, k)|];
    }
  }

  /** Two entries that end the same group are the same entry. */
  lemma SameGroupSameLast(p1: seq<Entry>, a: Entry, p2: seq<Entry>, b: Entry, f: nat)
    requires Key(a, f) == Key(b, f)
    requires WithKey(p1 + [a], f, Key(a, f)) == WithKey(p2 + [b], f, Key(a, f))
    ensures a == b
  {
    WithKeySnoc(p1, a, f, Key(a, f));
    WithKeySnoc(p2, b, f, Key(a, f));
    var w := WithKey(p1 + [a], f, Key(a, f));
    assert w[|w| - 1] == a;
  }

  /** Two sorted lists whose per-key groups agree are the same list. */
  lemma {:induction false} SortedGroupsDetermine(r1: seq<Entry>, r2: seq<Entry>, f: nat, rev: bool)
    requires Sorted(r1, f, rev) && Sorted(r2, f, rev)
    requires forall k :: WithKey(r1, f, k) == WithKey(r2, f, k)
    ensures r1 == r2
    decreases |r1|
  {
    if r1 == [] {
      NoGroupsEmpty(r2, f);
    } else if r2 == [] {
      NoGroupsEmpty(r1, f);
    } else {
      var p1, a := r1[..|r1| - 1], r1[|r1| - 1];
      var p2, b := r2[..|r2| - 1], r2[|r2| - 1];
      assert r1 == p1 + [a] && r2 == p2 + [b];
      LastKeysAgree(r1, r2, f, rev);
      SameGroupSameLast(p1, a, p2, b, f);
      PrefixGroupsAgree(p1, p2, a, f);
      SortedPrefix(r1, |r1| - 1, f, rev);
      SortedPrefix(r2, |r2| - 1, f, rev);
      SortedGroupsDetermine(p1, p2, f, rev);
    }
  }

  /** Any stable sort of `s` (Python's timsort among them) gives the reference sort's result. */
  lemma StableSortIsUnique(s: seq<Entry>, r: seq<Entry>, f: nat, rev: bool)
    requires StableSortOf(s, r, f, rev)
    ensures r == Sort(s, f, rev)
  {
    SortIsStable(s, f, rev);
    SortedGroupsDetermine(r, Sort(s, f, rev), f, rev);
  }

  /** Removing one entry from a sorted list leaves it sorted. */
  lemma RemoveKeepsSorted(s: seq<Entry>, k: nat, f: nat, rev: bool)
    requires Sorted(s, f, rev) && k < |s|
    ensures Sorted(s[..k] + s[k + 1..], f, rev)
  {
    var t := s[..k] + s[k + 1..];
    forall i, j | 0 <= i < j < |t| ensures !Before(t[j], t[i], f, rev) {
      var i', j' := if i < k then i else i + 1, if j < k then j else j + 1;
      assert t[i] == s[i'] && t[j] == s[j'];
    }
  }
}
