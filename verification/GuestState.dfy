/**
 * The state that the guest prints about the files of a case (emit_external_state in
 * tools/run_asterinas_shared.py). File names go into the JSON text as they are, so a name with a quote
 * in it can add an entry to its record: also one with a name that is removed before hashing.
 */
module GuestState {
  import opened Prelude
  import opened PyValues
  import opened Json
  import opened LoadedJson
  import opened Canonical
  import opened Compare
  import opened Stability

  /** A name is a path, and perhaps a text that closes the path's string and adds a timing entry. */
  datatype GuestFile = GuestFile(path: string, planted: Option<string>, size: nat, digest: string)

  function Key(name: string): string { "\"" + name + "\":" }

  function Text(t: string): string { "\"" + t + "\"" }

  /** The quote ends the path's string, and an entry with a string of its own follows. */
  function Plant(t: string): string { "\"" + "," + Key("duration_ns") + "\"" + t }

  function FileName(f: GuestFile): string {
    match f.planted case None => f.path case Some(t) => f.path + Plant(t)
  }

  /** One record as the shell's printf writes it. */
  function RecordText(name: string, size: nat, digest: string): string {
    "{" + Key("path") + Text(name) + "," + Key("size") + Decimal(size) + "," + Key("sha256") + Text(digest) + "}"
  }

  function RecordsText(files: seq<GuestFile>): string {
    if files == [] then ""
    else RecordText(FileName(files[0]), files[0].size, files[0].digest)
         + (if |files| == 1 then "" else "," + RecordsText(files[1..]))
  }

  function StateText(files: seq<GuestFile>): string { "{" + Key("files") + "[" + RecordsText(files) + "]" + "}" }

  /** The character stands for itself within a JSON string. */
  predicate IsPlain(s: string) { forall i :: 0 <= i < |s| ==> s[i] >= ' ' && s[i] != '"' && s[i] != '\\' }

  predicate PlainParts(f: GuestFile) {
    IsPlain(f.path) && (f.planted.Some? ==> IsPlain(f.planted.value)) && IsPlain(f.digest)
  }

  lemma {:induction false} PlainIsKept(s: string)
    requires IsPlain(s)
    ensures Escape(s) == s && KeptText(s) == s
  {
    if s != "" {
      PlainIsKept(s[1..]);
      assert s == [s[0]] + s[1..];
    }
  }

  // ---------------------------------------------------------------- what the text says

  function PlantedFields(f: GuestFile): seq<Field> {
    match f.planted case None => [] case Some(t) => [Field("duration_ns", Str(t))]
  }

  function RecordJson(f: GuestFile): Json {
    Obj([Field("path", Str(f.path))] + PlantedFields(f) + [Field("size", Num(f.size)), Field("sha256", Str(f.digest))])
  }

  function RecordsJson(files: seq<GuestFile>): seq<Json> {
    if files == [] then [] else [RecordJson(files[0])] + RecordsJson(files[1..])
  }

  function StateJson(files: seq<GuestFile>): Json { Obj([Field("files", Arr(RecordsJson(files)))]) }

  lemma FieldText(name: string, v: Json)
    requires IsPlain(name)
    ensures RenderField(Field(name, v)) == Key(name) + Render(v) && KeptText(name) == name
  {
    PlainIsKept(name);
  }

  lemma StringText(t: string)
    requires IsPlain(t)
    ensures Render(Str(t)) == Text(t) && KeptJson(Str(t)) == Str(t)
  {
    PlainIsKept(t);
  }

  lemma TwoFields(f: Field, g: Field)
    ensures RenderFields([f, g]) == RenderField(f) + "," + RenderField(g)
  {
    assert [f, g][1..] == [g];
    assert RenderFields([g]) == RenderField(g);
  }

  lemma MoreFields(f: Field, fields: seq<Field>)
    requires fields != []
    ensures RenderFields([f] + fields) == RenderField(f) + "," + RenderFields(fields)
  {
    assert ([f] + fields)[1..] == fields;
  }

  lemma PlainNames()
    ensures IsPlain("path") && IsPlain("size") && IsPlain("sha256") && IsPlain("duration_ns") && IsPlain("files")
  {
  }

  lemma RecordGroups(kp: string, tp: string, ks: string, ts: string, kd: string, td: string)
    ensures "{" + ((kp + tp) + "," + ((ks + ts) + "," + (kd + td))) + "}"
         == "{" + kp + tp + "," + ks + ts + "," + kd + td + "}"
  {
  }

  lemma PlantGroups(kp: string, tp: string, q: string, r: string)
    ensures (kp + tp) + "," + (q + "," + r) == (kp + (tp + "," + q)) + "," + r
  {
  }

  lemma PlantedText(path: string, t: string)
    ensures Text(path + Plant(t)) == Text(path) + "," + (Key("duration_ns") + Text(t))
  {
    hide Key;
  }

  /** The text of a record is the text of the object with the planted entry. */
  lemma RecordIsRendered(f: GuestFile)
    requires PlainParts(f)
    ensures RecordText(FileName(f), f.size, f.digest) == Render(RecordJson(f))
  {
    hide Decimal, RenderField, RenderFields, IsPlain, Key, Text, Plant, PlainParts;
    var size, digest := Field("size", Num(f.size)), Field("sha256", Str(f.digest));
    PlainRest(f);
    RecordFields(f);
    RecordGroups(Key("path"), Text(FileName(f)), Key("size"), Decimal(f.size), Key("sha256"), Text(f.digest));
  }

  lemma PlainRest(f: GuestFile)
    requires PlainParts(f)
    ensures RenderFields([Field("size", Num(f.size)), Field("sha256", Str(f.digest))])
         == (Key("size") + Decimal(f.size)) + "," + (Key("sha256") + Text(f.digest))
  {
    hide Decimal, RenderField, RenderFields, IsPlain, Key, Text;
    PlainNames();
    FieldText("size", Num(f.size));
    FieldText("sha256", Str(f.digest));
    StringText(f.digest);
    TwoFields(Field("size", Num(f.size)), Field("sha256", Str(f.digest)));
  }

  lemma RecordFields(f: GuestFile)
    requires PlainParts(f)
    ensures Render(RecordJson(f)) == "{" + ((Key("path") + Text(FileName(f))) + ","
         + RenderFields([Field("size", Num(f.size)), Field("sha256", Str(f.digest))])) + "}"
  {
    hide Decimal, RenderField, RenderFields, IsPlain, Key, Text, Plant;
    var path, rest := Field("path", Str(f.path)), [Field("size", Num(f.size)), Field("sha256", Str(f.digest))];
    PlainNames();
    FieldText("path", Str(f.path));
    StringText(f.path);
    match f.planted
    case None =>
      MoreFields(path, rest);
      assert [path] + PlantedFields(f) + rest == [path] + rest;
    case Some(t) =>
      var planted := Field("duration_ns", Str(t));
      FieldText("duration_ns", Str(t));
      StringText(t);
      MoreFields(planted, rest);
      MoreFields(path, [planted] + rest);
      assert [path] + PlantedFields(f) + rest == [path] + ([planted] + rest);
      PlantedText(f.path, t);
      PlantGroups(Key("path"), Text(f.path), Key("duration_ns") + Text(t), RenderFields(rest));
  }

  lemma {:induction false} RecordsAreRendered(files: seq<GuestFile>)
    requires forall i :: 0 <= i < |files| ==> PlainParts(files[i])
    ensures RecordsText(files) == RenderItems(RecordsJson(files)) && |RecordsJson(files)| == |files|
  {
    hide RecordText, RecordJson, PlainParts;
    if files != [] {
      RecordIsRendered(files[0]);
      RecordsAreRendered(files[1..]);
      assert RecordsJson(files)[1..] == RecordsJson(files[1..]);
    }
  }

  lemma StateIsRendered(files: seq<GuestFile>)
    requires forall i :: 0 <= i < |files| ==> PlainParts(files[i])
    ensures StateText(files) == Render(StateJson(files))
  {
    hide Key, IsPlain, PlainParts, RecordsText, RecordsJson, RenderField;
    RecordsAreRendered(files);
    PlainNames();
    var f := Field("files", Arr(RecordsJson(files)));
    FieldText("files", f.value);
    assert RenderFields([f]) == RenderField(f);
    assert "{" + (Key("files") + ("[" + RecordsText(files) + "]")) + "}" == StateText(files);
  }

  // ---------------------------------------------------------------- what is loaded

  function RecordEntries(f: GuestFile): map<string, PyValue> {
    map["path" := PyStr(f.path), "size" := PyInt(f.size), "sha256" := PyStr(f.digest)]
      + match f.planted case None => map[] case Some(t) => map["duration_ns" := PyStr(t)]
  }

  function RecordsPy(files: seq<GuestFile>): seq<PyValue> {
    seq(|files|, i requires 0 <= i < |files| => PyDict(RecordEntries(files[i])))
  }

  function StatePy(files: seq<GuestFile>): PyValue { PyDict(map["files" := PyList(RecordsPy(files))]) }

  /** A field with a plain name and a value that is kept. */
  lemma FirstField(f: Field, rest: seq<Field>)
    requires IsPlain(f.name) && KeptJson(f.value) == f.value && KeptFields(rest) == rest
    ensures KeptFields([f] + rest) == [f] + rest
    ensures EntriesOf([f] + rest) == map[f.name := PyOf(f.value)] + EntriesOf(rest)
  {
    PlainIsKept(f.name);
    assert ([f] + rest)[1..] == rest;
  }

  lemma RestIsLoaded(f: GuestFile)
    requires PlainParts(f)
    ensures var rest := [Field("size", Num(f.size)), Field("sha256", Str(f.digest))];
      KeptFields(rest) == rest && EntriesOf(rest) == map["size" := PyInt(f.size), "sha256" := PyStr(f.digest)]
  {
    hide IsPlain, KeptFields, EntriesOf;
    var size, digest := Field("size", Num(f.size)), Field("sha256", Str(f.digest));
    PlainNames();
    StringText(f.digest);
    NoFields();
    FirstField(digest, []);
    assert [digest] + [] == [digest] && [size] + [digest] == [size, digest];
    FirstField(size, [digest]);
  }

  lemma NoFields()
    ensures KeptFields([]) == [] && EntriesOf([]) == map[]
  {
  }

  lemma RecordIsLoaded(f: GuestFile)
    requires PlainParts(f)
    ensures KeptJson(RecordJson(f)) == RecordJson(f) && PyOf(RecordJson(f)) == PyDict(RecordEntries(f))
  {
    hide IsPlain, KeptFields, EntriesOf;
    var path, rest := Field("path", Str(f.path)), [Field("size", Num(f.size)), Field("sha256", Str(f.digest))];
    PlainNames();
    StringText(f.path);
    RestIsLoaded(f);
    match f.planted
    case None =>
      FirstField(path, rest);
      assert [path] + PlantedFields(f) + rest == [path] + rest;
    case Some(t) =>
      var planted := Field("duration_ns", Str(t));
      StringText(t);
      FirstField(planted, rest);
      FirstField(path, [planted] + rest);
      assert [path] + PlantedFields(f) + rest == [path] + ([planted] + rest);
  }

  lemma FirstItem(j: Json, items: seq<Json>)
    requires KeptJson(j) == j && KeptItems(items) == items
    ensures KeptItems([j] + items) == [j] + items && ItemsOf([j] + items) == [PyOf(j)] + ItemsOf(items)
  {
    assert ([j] + items)[1..] == items;
  }

  lemma NoItems()
    ensures KeptItems([]) == [] && ItemsOf([]) == [] && RecordsPy([]) == []
  {
  }

  lemma FirstRecord(files: seq<GuestFile>)
    requires files != []
    ensures RecordsPy(files) == [PyDict(RecordEntries(files[0]))] + RecordsPy(files[1..])
  {
  }

  lemma {:induction false} RecordsAreLoaded(files: seq<GuestFile>)
    requires forall i :: 0 <= i < |files| ==> PlainParts(files[i])
    ensures KeptItems(RecordsJson(files)) == RecordsJson(files) && ItemsOf(RecordsJson(files)) == RecordsPy(files)
  {
    hide RecordJson, PlainParts, RecordEntries, KeptJson, PyOf, KeptItems, ItemsOf, RecordsPy;
    if files == [] {
      NoItems();
    } else {
      RecordIsLoaded(files[0]);
      RecordsAreLoaded(files[1..]);
      FirstItem(RecordJson(files[0]), RecordsJson(files[1..]));
      FirstRecord(files);
    }
  }

  /** The printed state loads as the records of its files, with the planted entries in them. */
  lemma StateIsLoaded(files: seq<GuestFile>)
    requires forall i :: 0 <= i < |files| ==> PlainParts(files[i])
    ensures Loads(StateText(files)) == Some(StateJson(files)) && PyOf(StateJson(files)) == StatePy(files)
  {
    hide RecordsJson, Loads, Render, IsPlain, PlainParts, RecordEntries, StateText;
    StateIsRendered(files);
    RenderingIsRead(StateJson(files));
    RecordsAreLoaded(files);
    PlainNames();
    FieldText("files", Arr(RecordsJson(files)));
    var fields := [Field("files", Arr(RecordsJson(files)))];
    assert fields[1..] == [];
    assert KeptFields(fields) == fields;
    assert EntriesOf(fields) == map["files" := PyList(ItemsOf(RecordsJson(files)))] + map[];
  }

  // ---------------------------------------------------------------- what the hash sees

  /** The same files but for what is planted in their names. */
  predicate SameButPlanted(a: seq<GuestFile>, b: seq<GuestFile>) {
    |a| == |b| && forall i :: 0 <= i < |a| ==> b[i] == a[i].(planted := b[i].planted)
  }

  lemma RecordViews(f: GuestFile, g: GuestFile)
    requires g == f.(planted := g.planted)
    ensures StableView(PyDict(RecordEntries(f))) == StableView(PyDict(RecordEntries(g)))
    ensures RecordEntries(f) == RecordEntries(g) <==> f == g
  {
    var m, n := RecordEntries(f), RecordEntries(g);
    SameEntries(m, n);
    if m == n {
      assert "duration_ns" in m <==> f.planted.Some?;
      assert f.planted.Some? ==> m["duration_ns"] == PyStr(f.planted.value);
      assert g.planted.Some? ==> n["duration_ns"] == PyStr(g.planted.value);
    }
  }

  /**
   * Two runs that differ only in what their file names plant print states that load as different values
   * with one view: whatever trace they belong to, the hashes are equal and the traces are not.
   */
  lemma PlantedNamesEscapeTheHash(a: seq<GuestFile>, b: seq<GuestFile>, c: CanonTrace, digest: PyValue -> string,
      noise: set<string>)
    requires SameButPlanted(a, b) && ValidCanonical(c)
    ensures var d, e := c.(finalState := StatePy(a)), c.(finalState := StatePy(b));
      TraceHash(digest, d) == TraceHash(digest, e) && (Verdict(d, e, noise).equivalent <==> a == b)
  {
    hide StableView, TracePy, Verdict, RecordEntries, ValidCanonical;
    var d, e := c.(finalState := StatePy(a)), c.(finalState := StatePy(b));
    StateViews(a, b);
    StateView(e, d);
    StateIsFree(c, d);
    StateIsFree(c, e);
    SameViewVerdictIff(d, e, noise);
  }

  lemma StateIsFree(c: CanonTrace, d: CanonTrace)
    requires ValidCanonical(c) && d == c.(finalState := d.finalState)
    ensures ValidCanonical(d)
  {
  }

  lemma StateViews(a: seq<GuestFile>, b: seq<GuestFile>)
    requires SameButPlanted(a, b)
    ensures StableView(StatePy(a)) == StableView(StatePy(b)) && (StatePy(a) == StatePy(b) <==> a == b)
  {
    hide RecordEntries;
    var x, y := StatePy(a).entries["files"].items, StatePy(b).entries["files"].items;
    forall i | 0 <= i < |a| ensures StableView(x[i]) == StableView(y[i]) && (x[i] == y[i] <==> a[i] == b[i]) {
      RecordViews(a[i], b[i]);
    }
    assert StableView(PyList(x)) == StableView(PyList(y));
    SameEntries(StatePy(a).entries, StatePy(b).entries);
    if x == y {
      assert forall i :: 0 <= i < |a| ==> a[i] == b[i];
    }
  }

  /** The state meets the condition under which the hash decides, if and only if no name plants anything. */
  lemma TimeFreeIffNothingPlanted(files: seq<GuestFile>)
    ensures VolatileFree(StatePy(files)) <==> forall i :: 0 <= i < |files| ==> files[i].planted.None?
  {
    hide RecordEntries;
    var items := RecordsPy(files);
    forall i | 0 <= i < |files| ensures VolatileFree(items[i]) <==> files[i].planted.None? { RecordIsTimeFree(files[i]); }
    var m := StatePy(files).entries;
    assert !IsVolatile("files") && m["files"] == PyList(items);
    assert forall k :: k in m ==> k == "files";
  }

  lemma RecordIsTimeFree(f: GuestFile)
    ensures VolatileFree(PyDict(RecordEntries(f))) <==> f.planted.None?
  {
    if f.planted.Some? {
      assert "duration_ns" in RecordEntries(f);
    }
  }
}
