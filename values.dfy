/** The Python values the program keeps in its stores: record fields, entries,
    Python's truthiness, Python's list subscripting and CPython 2's default ordering. */
module Values {

  datatype Option<+T> = None | Some(value: T)

  /** One field of a catalog record: `None` (what padding leaves), a `str`, or a
      `bool`. A `str` is a Python 2 byte string, one `char` per byte. */
  datatype Field = Absent | Text(s: string) | Flag(b: bool)

  /** One element of a store's list: a catalog record (a Python list of fields)
      or a file name (a Python `str`, as the directory browser keeps them). */
  datatype Entry = Record(fields: seq<Field>) | Name(name: string)

  /** The entry seen as a subscriptable sequence: subscripting a Python `str`
      yields one-character strings. */
  function Fields(e: Entry): seq<Field> {
    match e
    case Record(fs) => fs
    case Name(s) => seq(|s|, k requires 0 <= k < |s| => Text([s[k]]))
  }

  /** Python truthiness of a field: `None`, `''` and `False` are false. */
  predicate TruthyField(f: Field) {
    match f
    case Absent => false
    case Text(s) => s != []
    case Flag(b) => b
  }

  /** Python truthiness of an entry: an empty list or an empty string is false. */
  predicate TruthyEntry(e: Entry) {
    Fields(e) != []
  }

  // ---------------------------------------------------------------------------
  // Python subscripting of a list of length n: negative indices count from the end.

  predicate InRange(i: int, n: int) {
    -n <= i < n
  }

  /** The position that index `i` denotes in a list of length `n`. */
  function Slot(i: int, n: int): (k: nat)
    requires InRange(i, n)
    ensures k < n
    ensures i >= 0 ==> k == i
    ensures i < 0 ==> k == n + i
  {
    if i < 0 then n + i else i
  }

  /** `s[i]`, with `IndexError` caught and turned into `None`. */
  function At<T>(s: seq<T>, i: int): (r: Option<T>)
    ensures r.None? <==> i >= |s| || i < -|s|
    ensures 0 <= i < |s| ==> r == Some(s[i])
    ensures -|s| <= i < 0 ==> r == Some(s[|s| + i])
  {
    if InRange(i, |s|) then Some(s[Slot(i, |s|)]) else None
  }

  // ---------------------------------------------------------------------------
  // CPython 2 orders values of different types with None first and numbers
  // (bool among them) before strings; strings compare lexicographically.

  function Rank(f: Field): nat {
    match f
    case Absent => 0
    case Flag(_) => 1
    case Text(_) => 2
  }

  /** Lexicographic `<` on strings: a proper prefix comes first. */
  predicate StrLess(x: string, y: string) {
    if x == [] then y != []
    else if y == [] then false
    else if x[0] != y[0] then x[0] < y[0]
    else StrLess(x[1..], y[1..])
  }

  /** Python 2's `<` on two fields. */
  predicate Less(a: Field, b: Field) {
    if Rank(a) != Rank(b) then Rank(a) < Rank(b)
    else match (a, b)
      case (Flag(x), Flag(y)) => !x && y
      case (Text(x), Text(y)) => StrLess(x, y)
      case _ => false
  }

  lemma {:induction false} StrLessIrreflexive(x: string)
    ensures !StrLess(x, x)
  {
    if x != [] {
      StrLessIrreflexive(x[1..]);
    }
  }

  lemma {:induction false} StrLessTransitive(x: string, y: string, z: string)
    requires StrLess(x, y) && StrLess(y, z)
    ensures StrLess(x, z)
  {
    if x != [] && x[0] == y[0] && y[0] == z[0] {
      StrLessTransitive(x[1..], y[1..], z[1..]);
    }
  }

  lemma {:induction false} StrLessTotal(x: string, y: string)
    requires x != y
    ensures StrLess(x, y) || StrLess(y, x)
  {
    if x != [] && y != [] && x[0] == y[0] {
      assert x == [x[0]] + x[1..] && y == [y[0]] + y[1..];
      StrLessTotal(x[1..], y[1..]);
    }
  }

  lemma LessIrreflexive(a: Field)
    ensures !Less(a, a)
  {
    if a.Text? {
      StrLessIrreflexive(a.s);
    }
  }

  lemma LessTransitive(a: Field, b: Field, c: Field)
    requires Less(a, b) && Less(b, c)
    ensures Less(a, c)
  {
    if a.Text? && b.Text? && c.Text? {
      StrLessTransitive(a.s, b.s, c.s);
    }
  }

  /** Python 2's default ordering of fields is a strict total order. */
  lemma LessTotal(a: Field, b: Field)
    requires a != b
    ensures Less(a, b) || Less(b, a)
  {
    if a.Text? && b.Text? {
      StrLessTotal(a.s, b.s);
    }
  }

  /** Not-less is transitive too, which is what a sorted list needs. */
  lemma NotLessTransitive(a: Field, b: Field, c: Field)
    requires !Less(b, a) && !Less(c, b)
    ensures !Less(c, a)
  {
    if Less(c, a) {
      if a == b {
      } else {
        LessTotal(a, b);
        LessTransitive(c, a, b);
      }
    }
  }
}
