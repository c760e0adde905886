/** How a store renders one of its entries as a row of text (its `keyfn`). */
module Display {
  import opened Values

  /** `'%s' % f` for a field. */
  function FieldText(f: Field): string {
    match f
    case Absent => "None"
    case Text(s) => s
    case Flag(b) => if b then "True" else "False"
  }

  /** Field 3 of a catalog record is its "seen" mark; the row shows `' '` for a
      seen record and `'!'` otherwise. */
  predicate IsRead(fs: seq<Field>) {
    |fs| > 3 && TruthyField(fs[3])
  }

  /** `my_show_fn`: "<marker> (<year>) <title>". The record needs a year and a
      title (Python raises `IndexError` otherwise). */
  function ShowRecord(fs: seq<Field>): (r: string)
    requires |fs| >= 2
    ensures |r| == 5 + |FieldText(fs[0])| + |FieldText(fs[1])|
    ensures r[0] == ' ' <==> IsRead(fs)
    ensures r[0] == '!' <==> !IsRead(fs)
    ensures r[1..3] == " (" && r[3..3 + |FieldText(fs[0])|] == FieldText(fs[0])
    ensures r[3 + |FieldText(fs[0])|..5 + |FieldText(fs[0])|] == ") "
    ensures r[|r| - |FieldText(fs[1])|..] == FieldText(fs[1])
  {
    var marker := if IsRead(fs) then ' ' else '!';
    [marker] + " (" + FieldText(fs[0]) + ") " + FieldText(fs[1])
  }

  /** The two render functions the program hands to a store: the default
      `lambda d, i: d[i]` and the catalog's `my_show_fn`. */
  datatype KeyFn = Subscript | ShowFn

  /** The renderer can format `e` without raising: the default one prints a
      file name (the only entries it is given), `my_show_fn` needs two fields. */
  predicate Renderable(kf: KeyFn, e: Entry) {
    match kf
    case Subscript => e.Name?
    case ShowFn => |Fields(e)| >= 2
  }

  function Render(kf: KeyFn, e: Entry): string
    requires Renderable(kf, e)
  {
    match kf
    case Subscript => e.name
    case ShowFn => ShowRecord(Fields(e))
  }
}
