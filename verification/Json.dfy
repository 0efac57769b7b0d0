/**
 * The part of JSON that the tracer prints (RFC 8259, sections 4 to 7): objects, arrays, strings with
 * two-character escapes, integers, true and false; how the tracer renders it, and how it is read.
 */
module Json {
  import opened Prelude
  import opened Text

  datatype Json = Num(n: int) | Str(s: string) | Bool(b: bool) | Arr(items: seq<Json>) | Obj(fields: seq<Field>)

  datatype Field = Field(name: string, value: Json)

  // ---------------------------------------------------------------- numbers

  predicate IsDigit(c: char) { '0' <= c <= '9' }

  function DigitChar(d: nat): (c: char)
    requires d < 10
    ensures IsDigit(c)
  {
    '0' + d as char
  }

  function DigitValue(c: char): nat
    requires IsDigit(c)
  {
    c as int - '0' as int
  }

  /** Decimal digits without leading zeros. */
  function Decimal(n: nat): (s: string)
    ensures s != "" && IsDigit(s[0])
  {
    if n < 10 then [DigitChar(n)] else Decimal(n / 10) + [DigitChar(n % 10)]
  }

  function SignedDecimal(n: int): string {
    if n < 0 then "-" + Decimal(-n) else Decimal(n)
  }

  predicate AllDigits(s: string) { forall i :: 0 <= i < |s| ==> IsDigit(s[i]) }

  function NumberOf(s: string): nat
    requires AllDigits(s)
  {
    if s == "" then 0 else 10 * NumberOf(s[..|s|-1]) + DigitValue(s[|s|-1])
  }

  lemma {:induction false} DecimalIsRead(n: nat)
    ensures AllDigits(Decimal(n)) && NumberOf(Decimal(n)) == n && (Decimal(n)[0] == '0' ==> n == 0)
    ensures |Decimal(n)| > 1 ==> Decimal(n)[0] != '0'
  {
    if n >= 10 {
      DecimalIsRead(n / 10);
      assert Decimal(n)[..|Decimal(n)|-1] == Decimal(n / 10);
    } else {
      assert Decimal(n)[..0] == "";
    }
  }

  // ---------------------------------------------------------------- strings

  /** What the tracer writes for one character of a string. */
  function EscapeChar(c: char): string {
    if c == '\\' then "\\\\" else if c == '"' then "\\\"" else if c == '\n' then "\\n"
    else if c == '\r' then "\\r" else if c == '\t' then "\\t" else if c < ' ' then "?" else [c]
  }

  function Escape(s: string): string {
    if s == "" then "" else EscapeChar(s[0]) + Escape(s[1..])
  }

  function Quoted(s: string): string { "\"" + Escape(s) + "\"" }

  /** Other control characters are lost: they are printed as question marks. */
  function Kept(c: char): char {
    if c < ' ' && c != '\n' && c != '\r' && c != '\t' then '?' else c
  }

  function KeptText(s: string): (r: string)
    ensures |r| == |s| && forall i :: 0 <= i < |s| ==> r[i] == Kept(s[i])
  {
    seq(|s|, i requires 0 <= i < |s| => Kept(s[i]))
  }

  datatype Parsed<+T> = Parsed(value: T, rest: string)

  /** The character that an escape stands for, by its code point (RFC 8259, section 7). */
  function Unescape(c: char): (r: Option<char>)
    ensures c in {'n', 'r', 't'} ==> r.Some? && r.value as int == if c == 'n' then 0x0A else if c == 'r' then 0x0D else 0x09
    ensures c as int in {0x22, 0x5C} ==> r == Some(c)
  {
    if c == '\\' || c == '"' then Some(c) else if c == 'n' then Some('\n')
    else if c == 'r' then Some('\r') else if c == 't' then Some('\t') else None
  }

  /** The characters of a string up to its closing quote. */
  function ParseChars(s: string): (r: Option<Parsed<string>>)
    ensures r.Some? ==> |r.value.rest| < |s|
  {
    if s == "" || s[0] < ' ' then None
    else if s[0] == '"' then Some(Parsed("", s[1..]))
    else if s[0] == '\\' then
      if |s| < 2 || Unescape(s[1]) == None then None else
      match ParseChars(s[2..])
      case None => None
      case Some(Parsed(t, rest)) => Some(Parsed([Unescape(s[1]).value] + t, rest))
    else
      match ParseChars(s[1..])
      case None => None
      case Some(Parsed(t, rest)) => Some(Parsed([s[0]] + t, rest))
  }

  lemma {:induction false} CharsAreRead(s: string, rest: string)
    ensures ParseChars(Escape(s) + ("\"" + rest)) == Some(Parsed(KeptText(s), rest))
  {
    if s == "" {
      assert Escape(s) + ("\"" + rest) == "\"" + rest;
      assert KeptText(s) == "";
    } else {
      CharsAreRead(s[1..], rest);
      CharsStep(s, "\"" + rest, rest);
    }
  }

  lemma CharsStep(s: string, end: string, rest: string)
    requires s != "" && ParseChars(Escape(s[1..]) + end) == Some(Parsed(KeptText(s[1..]), rest))
    ensures ParseChars(Escape(s) + end) == Some(Parsed(KeptText(s), rest))
  {
    hide ParseChars, EscapeChar, Kept;
    var tail := Escape(s[1..]) + end;
    CharIsRead(s[0], tail, KeptText(s[1..]), rest);
    assert Escape(s) + end == EscapeChar(s[0]) + tail;
    assert KeptText(s) == [Kept(s[0])] + KeptText(s[1..]);
  }

  lemma CharIsRead(c: char, tail: string, t: string, rest: string)
    requires ParseChars(tail) == Some(Parsed(t, rest))
    ensures ParseChars(EscapeChar(c) + tail) == Some(Parsed([Kept(c)] + t, rest))
  {
    var u := EscapeChar(c) + tail;
    if |EscapeChar(c)| == 2 {
      assert u[2..] == tail;
    } else {
      assert u[1..] == tail;
    }
  }

  // ---------------------------------------------------------------- values

  function Render(j: Json): string {
    match j
    case Num(n) => SignedDecimal(n)
    case Str(s) => Quoted(s)
    case Bool(b) => if b then "true" else "false"
    case Arr(items) => "[" + RenderItems(items) + "]"
    case Obj(fields) => "{" + RenderFields(fields) + "}"
  }

  function RenderItems(items: seq<Json>): string {
    if items == [] then ""
    else Render(items[0]) + (if |items| == 1 then "" else "," + RenderItems(items[1..]))
  }

  function RenderFields(fields: seq<Field>): string {
    if fields == [] then ""
    else RenderField(fields[0]) + (if |fields| == 1 then "" else "," + RenderFields(fields[1..]))
  }

  function RenderField(f: Field): string { Quoted(f.name) + ":" + Render(f.value) }

  /** A number: as many digits as there are, without a leading zero, after an optional minus. */
  function ParseNumber(s: string): (r: Option<Parsed<Json>>)
    ensures r.Some? ==> |r.value.rest| < |s|
  {
    if s != "" && s[0] == '-' then
      match ParseDigits(s[1..])
      case None => None
      case Some(Parsed(n, rest)) => Some(Parsed(Num(-n), rest))
    else
      match ParseDigits(s)
      case None => None
      case Some(Parsed(n, rest)) => Some(Parsed(Num(n), rest))
  }

  function ParseDigits(s: string): (r: Option<Parsed<int>>)
    ensures r.Some? ==> |r.value.rest| < |s|
  {
    var n := Leading(s, IsDigit, |s|);
    LeadingIs(s, IsDigit, |s|);
    if n == 0 || (n > 1 && s[0] == '0') then None else Some(Parsed(NumberOf(s[..n]), s[n..]))
  }

  function ParseValue(s: string): (r: Option<Parsed<Json>>)
    ensures r.Some? ==> |r.value.rest| < |s|
    decreases |s|, 0
  {
    if s == "" then None
    else if s[0] == '"' then
      match ParseChars(s[1..])
      case None => None
      case Some(Parsed(t, rest)) => Some(Parsed(Str(t), rest))
    else if "true" <= s then Some(Parsed(Bool(true), s[4..]))
    else if "false" <= s then Some(Parsed(Bool(false), s[5..]))
    else if "[]" <= s then Some(Parsed(Arr([]), s[2..]))
    else if s[0] == '[' then
      match ParseItems(s[1..])
      case None => None
      case Some(Parsed(items, rest)) => Some(Parsed(Arr(items), rest))
    else if "{}" <= s then Some(Parsed(Obj([]), s[2..]))
    else if s[0] == '{' then
      match ParseFields(s[1..])
      case None => None
      case Some(Parsed(fields, rest)) => Some(Parsed(Obj(fields), rest))
    else ParseNumber(s)
  }

  /** One item or more, and the closing bracket. */
  function ParseItems(s: string): (r: Option<Parsed<seq<Json>>>)
    ensures r.Some? ==> |r.value.rest| < |s|
    decreases |s|, 1
  {
    match ParseValue(s)
    case None => None
    case Some(Parsed(v, rest)) =>
      if rest != "" && rest[0] == ']' then Some(Parsed([v], rest[1..]))
      else if rest != "" && rest[0] == ',' then
        match ParseItems(rest[1..])
        case None => None
        case Some(Parsed(items, end)) => Some(Parsed([v] + items, end))
      else None
  }

  /** One field or more, and the closing brace. */
  function ParseFields(s: string): (r: Option<Parsed<seq<Field>>>)
    ensures r.Some? ==> |r.value.rest| < |s|
    decreases |s|, 1
  {
    match ParseField(s)
    case None => None
    case Some(Parsed(f, rest)) =>
      if rest != "" && rest[0] == '}' then Some(Parsed([f], rest[1..]))
      else if rest != "" && rest[0] == ',' then
        match ParseFields(rest[1..])
        case None => None
        case Some(Parsed(fields, end)) => Some(Parsed([f] + fields, end))
      else None
  }

  function ParseField(s: string): (r: Option<Parsed<Field>>)
    ensures r.Some? ==> |r.value.rest| < |s|
    decreases |s|, 0
  {
    if s == "" || s[0] != '"' then None else
    match ParseChars(s[1..])
    case None => None
    case Some(Parsed(name, rest)) =>
      if rest == "" || rest[0] != ':' then None else
      match ParseValue(rest[1..])
      case None => None
      case Some(Parsed(v, end)) => Some(Parsed(Field(name, v), end))
  }

  /** json.loads: one value and nothing after it. */
  function Loads(s: string): Option<Json> {
    match ParseValue(s)
    case None => None
    case Some(Parsed(j, rest)) => if rest == "" then Some(j) else None
  }

  // ---------------------------------------------------------------- what is read is what was rendered

  /** The value with the control characters that the tracer does not keep replaced. */
  function KeptJson(j: Json): Json {
    match j
    case Num(_) => j
    case Str(s) => Str(KeptText(s))
    case Bool(_) => j
    case Arr(items) => Arr(KeptItems(items))
    case Obj(fields) => Obj(KeptFields(fields))
  }

  function KeptItems(items: seq<Json>): (r: seq<Json>) {
    if items == [] then [] else [KeptJson(items[0])] + KeptItems(items[1..])
  }

  function KeptFields(fields: seq<Field>): (r: seq<Field>) {
    if fields == [] then [] else [Field(KeptText(fields[0].name), KeptJson(fields[0].value))] + KeptFields(fields[1..])
  }

  predicate NoDigitFirst(rest: string) { rest == "" || !IsDigit(rest[0]) }

  lemma NumberIsRead(n: int, rest: string)
    requires NoDigitFirst(rest)
    ensures ParseNumber(SignedDecimal(n) + rest) == Some(Parsed(Num(n), rest))
  {
    hide ParseDigits, Decimal;
    if n < 0 {
      DigitsAreRead(-n, rest);
      assert (SignedDecimal(n) + rest)[1..] == Decimal(-n) + rest;
    } else {
      DigitsAreRead(n, rest);
    }
  }

  lemma DigitsAreRead(n: nat, rest: string)
    requires NoDigitFirst(rest)
    ensures ParseDigits(Decimal(n) + rest) == Some(Parsed(n as int, rest))
  {
    var d := Decimal(n);
    var s := d + rest;
    DecimalIsRead(n);
    LeadingIs(s, IsDigit, |s|);
    var k := Leading(s, IsDigit, |s|);
    assert k == |d| by {
      assert forall i :: 0 <= i < |d| ==> s[i] == d[i];
      assert rest != "" ==> s[|d|] == rest[0];
    }
    assert s[..k] == d && s[k..] == rest;
  }

  /** A rendering begins with a character that opens a value. */
  lemma RenderOpens(j: Json)
    ensures Render(j) != ""
    ensures j.Num? ==> Render(j)[0] == '-' || IsDigit(Render(j)[0])
    ensures j.Str? ==> Render(j)[0] == '"'
    ensures Render(j)[0] != ']' && Render(j)[0] != '}'
  {
  }

  lemma TextIsRead(t: string, rest: string)
    ensures ParseValue(Quoted(t) + rest) == Some(Parsed(Str(KeptText(t)), rest))
  {
    CharsAreRead(t, rest);
    assert (Quoted(t) + rest)[1..] == Escape(t) + ("\"" + rest);
  }

  lemma ScalarIsRead(j: Json, rest: string)
    requires (j.Num? || j.Bool?) && NoDigitFirst(rest)
    ensures ParseValue(Render(j) + rest) == Some(Parsed(j, rest))
  {
    var s := Render(j) + rest;
    if j.Num? {
      NumberIsRead(j.n, rest);
      RenderOpens(j);
      assert s[0] == Render(j)[0];
    } else if j.b {
      assert s[..4] == "true" && s[4..] == rest;
    } else {
      assert s[0] == 'f';
      assert s[..5] == "false" && s[5..] == rest;
    }
  }

  lemma {:induction false} ValueIsRead(j: Json, rest: string)
    requires NoDigitFirst(rest)
    ensures ParseValue(Render(j) + rest) == Some(Parsed(KeptJson(j), rest))
    decreases j
  {
    match j {
      case Num(_) => ScalarIsRead(j, rest);
      case Bool(_) => ScalarIsRead(j, rest);
      case Str(t) => TextIsRead(t, rest);
      case Arr(items) =>
        if items != [] { ItemsAreRead(items, rest); }
        ArrayIsRead(items, rest);
      case Obj(fields) =>
        if fields != [] { FieldsAreRead(fields, rest); }
        ObjectIsRead(fields, rest);
    }
  }

  lemma ArrayIsRead(items: seq<Json>, rest: string)
    requires items != [] ==> ParseItems(RenderItems(items) + ("]" + rest)) == Some(Parsed(KeptItems(items), rest))
    ensures ParseValue(Render(Arr(items)) + rest) == Some(Parsed(Arr(KeptItems(items)), rest))
  {
    var s := Render(Arr(items)) + rest;
    if items == [] {
      assert s == "[]" + rest;
      assert s[..2] == "[]" && s[2..] == rest;
    } else {
      RenderOpens(items[0]);
      assert s[1..] == RenderItems(items) + ("]" + rest);
      assert s[1] == Render(items[0])[0];
    }
  }

  lemma ObjectIsRead(fields: seq<Field>, rest: string)
    requires fields != [] ==> ParseFields(RenderFields(fields) + ("}" + rest)) == Some(Parsed(KeptFields(fields), rest))
    ensures ParseValue(Render(Obj(fields)) + rest) == Some(Parsed(Obj(KeptFields(fields)), rest))
  {
    hide ParseFields, ParseItems, ParseChars, ParseNumber;
    var s := Render(Obj(fields)) + rest;
    if fields == [] {
      assert s == "{}" + rest;
      assert s[..2] == "{}" && s[2..] == rest;
    } else {
      assert s[1..] == RenderFields(fields) + ("}" + rest);
      assert s[1] == RenderField(fields[0])[0] == '"';
    }
  }

  /** What follows the first item: the closing bracket, or a comma and the other items. */
  function AfterItem(items: seq<Json>, rest: string): string
    requires items != []
  {
    if |items| == 1 then "]" + rest else "," + (RenderItems(items[1..]) + ("]" + rest))
  }

  lemma {:induction false} ItemsAreRead(items: seq<Json>, rest: string)
    requires items != []
    ensures ParseItems(RenderItems(items) + ("]" + rest)) == Some(Parsed(KeptItems(items), rest))
    decreases items
  {
    hide ParseItems, ParseValue, Render, RenderItems, KeptItems, KeptJson, AfterItem;
    var after := AfterItem(items, rest);
    ItemsText(items, rest);
    ValueIsRead(items[0], after);
    if |items| > 1 {
      ItemsAreRead(items[1..], rest);
      MoreItems(RenderItems(items) + ("]" + rest), KeptJson(items[0]), after, KeptItems(items[1..]), rest);
    } else {
      LastItem(RenderItems(items) + ("]" + rest), KeptJson(items[0]), after);
    }
    KeptFirst(items);
  }

  lemma KeptFirst(items: seq<Json>)
    requires items != []
    ensures KeptItems(items) ==
      if |items| == 1 then [KeptJson(items[0])] else [KeptJson(items[0])] + KeptItems(items[1..])
  {
    if |items| == 1 {
      assert KeptItems(items[1..]) == [];
    }
  }

  lemma ItemsText(items: seq<Json>, rest: string)
    requires items != []
    ensures RenderItems(items) + ("]" + rest) == Render(items[0]) + AfterItem(items, rest)
    ensures var after := AfterItem(items, rest);
      && after != "" && after[0] == (if |items| == 1 then ']' else ',')
      && after[1..] == if |items| == 1 then rest else RenderItems(items[1..]) + ("]" + rest)
  {
    var end := "]" + rest;
    if |items| == 1 {
      assert RenderItems(items) == Render(items[0]) + "";
      Regroup(Render(items[0]), "", end, "");
      assert end[1..] == rest;
    } else {
      var more := RenderItems(items[1..]);
      assert RenderItems(items) == Render(items[0]) + ("," + more);
      Regroup(Render(items[0]), ",", more, end);
      assert ("," + (more + end))[1..] == more + end;
    }
  }

  lemma Regroup(a: string, b: string, c: string, d: string)
    ensures (a + (b + c)) + d == a + (b + (c + d))
    ensures b == d == "" ==> (a + b) + c == a + c
  {
  }

  lemma LastItem(s: string, v: Json, after: string)
    requires ParseValue(s) == Some(Parsed(v, after)) && after != "" && after[0] == ']'
    ensures ParseItems(s) == Some(Parsed([v], after[1..]))
  {
    hide ParseValue;
  }

  lemma MoreItems(s: string, v: Json, after: string, items: seq<Json>, end: string)
    requires ParseValue(s) == Some(Parsed(v, after)) && after != "" && after[0] == ','
    requires ParseItems(after[1..]) == Some(Parsed(items, end))
    ensures ParseItems(s) == Some(Parsed([v] + items, end))
  {
    hide ParseValue;
  }

  function AfterField(fields: seq<Field>, rest: string): string
    requires fields != []
  {
    if |fields| == 1 then "}" + rest else "," + (RenderFields(fields[1..]) + ("}" + rest))
  }

  lemma {:induction false} FieldsAreRead(fields: seq<Field>, rest: string)
    requires fields != []
    ensures ParseFields(RenderFields(fields) + ("}" + rest)) == Some(Parsed(KeptFields(fields), rest))
    decreases fields
  {
    hide ParseFields, ParseField, ParseValue, Render, RenderField, RenderFields, KeptFields, KeptText, KeptJson, AfterField;
    var after, f := AfterField(fields, rest), Field(KeptText(fields[0].name), KeptJson(fields[0].value));
    FieldsText(fields, rest);
    ValueIsRead(fields[0].value, after);
    FieldIsRead(fields[0], after);
    if |fields| > 1 {
      FieldsAreRead(fields[1..], rest);
      MoreFields(RenderFields(fields) + ("}" + rest), f, after, KeptFields(fields[1..]), rest);
    } else {
      LastField(RenderFields(fields) + ("}" + rest), f, after);
    }
    KeptFirstField(fields);
  }

  lemma KeptFirstField(fields: seq<Field>)
    requires fields != []
    ensures var f := Field(KeptText(fields[0].name), KeptJson(fields[0].value));
      KeptFields(fields) == if |fields| == 1 then [f] else [f] + KeptFields(fields[1..])
  {
    if |fields| == 1 {
      assert KeptFields(fields[1..]) == [];
    }
  }

  lemma FieldIsRead(f: Field, rest: string)
    requires ParseValue(Render(f.value) + rest) == Some(Parsed(KeptJson(f.value), rest))
    ensures ParseField(RenderField(f) + rest) == Some(Parsed(Field(KeptText(f.name), KeptJson(f.value)), rest))
  {
    hide ParseValue, ParseChars, Render, Escape;
    var s, tail := RenderField(f) + rest, ":" + (Render(f.value) + rest);
    CharsAreRead(f.name, tail);
    assert s[1..] == Escape(f.name) + ("\"" + tail);
    assert tail[1..] == Render(f.value) + rest;
  }

  lemma FieldsText(fields: seq<Field>, rest: string)
    requires fields != []
    ensures RenderFields(fields) + ("}" + rest) == RenderField(fields[0]) + AfterField(fields, rest)
    ensures var after := AfterField(fields, rest);
      && after != "" && after[0] == (if |fields| == 1 then '}' else ',')
      && after[1..] == if |fields| == 1 then rest else RenderFields(fields[1..]) + ("}" + rest)
  {
    var end := "}" + rest;
    if |fields| == 1 {
      assert RenderFields(fields) == RenderField(fields[0]) + "";
      Regroup(RenderField(fields[0]), "", end, "");
      assert end[1..] == rest;
    } else {
      var more := RenderFields(fields[1..]);
      assert RenderFields(fields) == RenderField(fields[0]) + ("," + more);
      Regroup(RenderField(fields[0]), ",", more, end);
      assert ("," + (more + end))[1..] == more + end;
    }
  }

  lemma LastField(s: string, f: Field, after: string)
    requires ParseField(s) == Some(Parsed(f, after)) && after != "" && after[0] == '}'
    ensures ParseFields(s) == Some(Parsed([f], after[1..]))
  {
    hide ParseField;
  }

  lemma MoreFields(s: string, f: Field, after: string, fields: seq<Field>, end: string)
    requires ParseField(s) == Some(Parsed(f, after)) && after != "" && after[0] == ','
    requires ParseFields(after[1..]) == Some(Parsed(fields, end))
    ensures ParseFields(s) == Some(Parsed([f] + fields, end))
  {
    hide ParseField;
  }

  /** Reading back what was rendered gives the value, but for the control characters that are not kept. */
  lemma RenderingIsRead(j: Json)
    ensures Loads(Render(j)) == Some(KeptJson(j))
  {
    ValueIsRead(j, "");
    assert Render(j) + "" == Render(j);
  }
}
