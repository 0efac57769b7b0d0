/**
 * The values that a JSON text is loaded as: the order of an object's entries is lost, and of several
 * entries with one name the last is left.
 */
module LoadedJson {
  import opened Json
  import opened PyValues

  /** A dictionary holds the last of several entries with the same name. */
  function EntriesOf(fields: seq<Field>): map<string, PyValue> {
    if fields == [] then map[] else map[fields[0].name := PyOf(fields[0].value)] + EntriesOf(fields[1..])
  }

  function ItemsOf(items: seq<Json>): seq<PyValue> {
    if items == [] then [] else [PyOf(items[0])] + ItemsOf(items[1..])
  }

  function PyOf(j: Json): PyValue {
    match j
    case Num(n) => PyInt(n)
    case Str(s) => PyStr(s)
    case Bool(b) => PyBool(b)
    case Arr(items) => PyList(ItemsOf(items))
    case Obj(fields) => PyDict(EntriesOf(fields))
  }

  function Loaded(items: seq<Json>): (r: seq<PyValue>)
    ensures |r| == |items|
  {
    seq(|items|, i requires 0 <= i < |items| => PyOf(items[i]))
  }

  /** Swapping two entries with different names makes no difference. */
  lemma OrderIsLost(before: seq<Field>, f: Field, g: Field, after: seq<Field>)
    requires f.name != g.name
    ensures PyOf(Obj(before + [f, g] + after)) == PyOf(Obj(before + [g, f] + after))
  {
    hide EntriesOf, PyOf;
    EntriesJoin(before, [f, g], after);
    EntriesJoin(before, [g, f], after);
    TwoEntries(f, g);
    TwoEntries(g, f);
    assert EntriesOf([f, g]) == EntriesOf([g, f]);
    PyOfObject(before + [f, g] + after);
    PyOfObject(before + [g, f] + after);
  }

  lemma PyOfObject(fields: seq<Field>)
    ensures PyOf(Obj(fields)) == PyDict(EntriesOf(fields))
  {
  }

  lemma TwoEntries(f: Field, g: Field)
    requires f.name != g.name
    ensures EntriesOf([f, g]) == map[f.name := PyOf(f.value), g.name := PyOf(g.value)]
  {
    hide PyOf;
    assert [f, g][1..] == [g] && [g][1..] == [];
    assert EntriesOf([g]) == map[g.name := PyOf(g.value)] + map[];
  }

  lemma EntriesJoin(a: seq<Field>, b: seq<Field>, c: seq<Field>)
    ensures EntriesOf(a + b + c) == EntriesOf(a) + EntriesOf(b) + EntriesOf(c)
  {
    hide EntriesOf;
    EntriesAppend(a + b, c);
    EntriesAppend(a, b);
  }

  lemma {:induction false} EntriesAppend(a: seq<Field>, b: seq<Field>)
    ensures EntriesOf(a + b) == EntriesOf(a) + EntriesOf(b)
    decreases |a|
  {
    hide EntriesOf, PyOf;
    if a == [] {
      assert a + b == b;
      NoEntries(EntriesOf(b));
    } else {
      EntriesAppend(a[1..], b);
      assert (a + b)[0] == a[0] && (a + b)[1..] == a[1..] + b;
      FirstEntry(a);
      FirstEntry(a + b);
      MapsJoin(map[a[0].name := PyOf(a[0].value)], EntriesOf(a[1..]), EntriesOf(b));
    }
  }

  lemma FirstEntry(a: seq<Field>)
    requires a != []
    ensures EntriesOf(a) == map[a[0].name := PyOf(a[0].value)] + EntriesOf(a[1..])
  {
  }

  lemma NoEntries(m: map<string, PyValue>)
    ensures EntriesOf([]) == map[] && map[] + m == m
  {
  }

  lemma MapsJoin(a: map<string, PyValue>, b: map<string, PyValue>, c: map<string, PyValue>)
    ensures a + (b + c) == (a + b) + c
  {
  }
}
