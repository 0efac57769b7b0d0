/**
 * Directory entries of the FAT reader: 32-byte records, short names, and long names spread over
 * 13-unit fragments that precede the short entry in reverse order. See sections "FAT Directory
 * Structure" and "FAT Long Directory Entries" of the FAT overview v1.03.
 */
module FatDirectory {
  import opened Prelude
  import opened FatTable

  /** A Python string as its code points. */
  type Text = seq<nat>

  const DOT: Text := [46]
  const DOT_DOT: Text := [46, 46]
  const SPACE: Byte := 32

  function HasBit(attributes: Byte, bit: nat): bool
    requires bit > 0
  {
    attributes / bit % 2 == 1
  }

  // ---------------------------------------------------------------- reading

  function Kept(codepoint: nat): Text {
    if codepoint == 0 || codepoint == 0xFFFF then [] else [codepoint]
  }

  function DecodeUnits(raw: seq<Byte>): Text {
    if |raw| < 2 then [] else Kept(raw[0] as nat + 256 * raw[1] as nat) + DecodeUnits(raw[2..])
  }

  /** The bytes of an LFN entry that hold name characters. */
  function FragmentBytes(entry: seq<Byte>): seq<Byte>
    requires |entry| == 32
  {
    entry[1..11] + entry[14..26] + entry[28..32]
  }

  method DecodeLfnFragment(entry: seq<Byte>) returns (chars: Text)
    requires |entry| == 32
    ensures chars == DecodeUnits(FragmentBytes(entry))
  {
    chars := DecodeCodepoints(FragmentBytes(entry));
  }

  method DecodeCodepoints(raw: seq<Byte>) returns (chars: Text)
    requires |raw| % 2 == 0
    ensures chars == DecodeUnits(raw)
  {
    chars := [];
    ghost var rest := raw;
    for half := 0 to |raw| / 2
      invariant rest == raw[2 * half..]
      invariant chars + DecodeUnits(rest) == DecodeUnits(raw)
    {
      var codepoint := U16(raw, 2 * half);
      ghost var before := chars;
      if codepoint != 0 && codepoint != 0xFFFF {
        chars := chars + [codepoint];
      }
      DecodeStep(raw, 2 * half, before, chars);
      rest := raw[2 * half + 2..];
    }
  }

  lemma WordAt(raw: seq<Byte>, index: nat)
    requires index + 2 <= |raw|
    ensures U16(raw, index) == raw[index] as nat + 256 * raw[index+1] as nat
  {
    WordValue(raw, index);
  }

  lemma DecodeStep(raw: seq<Byte>, index: nat, before: Text, after: Text)
    requires index + 2 <= |raw|
    requires after == before + Kept(U16(raw, index))
    ensures before + DecodeUnits(raw[index..]) == after + DecodeUnits(raw[index+2..])
  {
    WordAt(raw, index);
    assert raw[index..][2..] == raw[index+2..];
    Regroup(before, Kept(U16(raw, index)), DecodeUnits(raw[index+2..]));
  }

  /** bytes.decode("ascii", errors="ignore") */
  function Ascii(bs: seq<Byte>): Text {
    if bs == [] then [] else (if bs[0] < 128 then [bs[0] as nat] else []) + Ascii(bs[1..])
  }

  function StripSpaces(t: Text): Text {
    if t != [] && t[|t|-1] == SPACE then StripSpaces(t[..|t|-1]) else t
  }

  function ShortName(entry: seq<Byte>): Text
    requires |entry| == 32
  {
    var stem := StripSpaces(Ascii(entry[0..8]));
    var suffix := StripSpaces(Ascii(entry[8..11]));
    if suffix != [] then stem + DOT + suffix else stem
  }

  function Join(parts: seq<Text>): Text {
    if parts == [] then [] else parts[0] + Join(parts[1..])
  }

  function EntryCluster(entry: seq<Byte>, fatType: FatType): nat
    requires |entry| == 32
  {
    if fatType == Fat32 then U16(entry, 20) * 0x1_0000 + U16(entry, 26) else U16(entry, 26)
  }

  // ---------------------------------------------------------------- writing

  /** The record every file and directory has. */
  function EncodeEntry(name11: seq<Byte>, attributes: Byte, mid8: seq<Byte>, time4: seq<Byte>, cluster: nat,
      size: nat): (e: seq<Byte>)
    requires |name11| == 11 && |mid8| == 8 && |time4| == 4
    requires cluster < 0x1_0000_0000 && size < 0x1_0000_0000
    ensures |e| == 32
  {
    name11 + [attributes] + mid8 + LE16(cluster / 0x1_0000) + time4 + LE16(cluster % 0x1_0000) + LE32(size)
  }

  lemma EntryFields(name11: seq<Byte>, attributes: Byte, mid8: seq<Byte>, time4: seq<Byte>, cluster: nat, size: nat,
      fatType: FatType)
    requires |name11| == 11 && |mid8| == 8 && |time4| == 4
    requires cluster < 0x1_0000_0000 && size < 0x1_0000_0000
    ensures var e := EncodeEntry(name11, attributes, mid8, time4, cluster, size);
      && e[0..8] == name11[..8] && e[8..11] == name11[8..] && e[0] == name11[0] && e[11] == attributes
      && U32(e, 28) == size
      && (fatType == Fat32 || cluster < 0x1_0000 ==> EntryCluster(e, fatType) == cluster)
  {
    var e := EncodeEntry(name11, attributes, mid8, time4, cluster, size);
    assert Slice(e, 20, 22) == LE16(cluster / 0x1_0000);
    assert Slice(e, 26, 28) == LE16(cluster % 0x1_0000);
    assert Slice(e, 28, 32) == LE32(size);
  }

  function FragmentEntry(order: Byte, checksum: Byte, units: seq<nat>): (e: seq<Byte>)
    requires |units| == 13 && forall i :: 0 <= i < |units| ==> units[i] < 0x1_0000
    ensures |e| == 32 && e[0] == order && e[11] == 0x0F
  {
    var a, b, c := units[..5], units[5..11], units[11..];
    assert forall i :: 0 <= i < |a| ==> a[i] == units[i];
    assert forall i :: 0 <= i < |b| ==> b[i] == units[5+i];
    assert forall i :: 0 <= i < |c| ==> c[i] == units[11+i];
    [order] + EncodeWords(a) + [0x0F, 0, checksum] + EncodeWords(b) + [0, 0] + EncodeWords(c)
  }

  lemma {:induction false} WordsConcat(a: seq<nat>, b: seq<nat>)
    requires forall i :: 0 <= i < |a| ==> a[i] < 0x1_0000
    requires forall i :: 0 <= i < |b| ==> b[i] < 0x1_0000
    ensures EncodeWords(a + b) == EncodeWords(a) + EncodeWords(b)
  {
    if a == [] {
      assert a + b == b;
    } else {
      WordsConcat(a[1..], b);
      assert (a + b)[1..] == a[1..] + b;
    }
  }

  lemma FragmentHoldsItsUnits(order: Byte, checksum: Byte, units: seq<nat>)
    requires |units| == 13 && forall i :: 0 <= i < |units| ==> units[i] < 0x1_0000
    ensures FragmentBytes(FragmentEntry(order, checksum, units)) == EncodeWords(units)
  {
    var e := FragmentEntry(order, checksum, units);
    assert e[1..11] == EncodeWords(units[..5]);
    assert e[14..26] == EncodeWords(units[5..11]);
    assert e[28..32] == EncodeWords(units[11..]);
    assert units == units[..5] + units[5..11] + units[11..];
    WordsConcat(units[..5], units[5..11]);
    WordsConcat(units[..5] + units[5..11], units[11..]);
  }

  /** A name unit that neither ends nor pads a fragment. */
  predicate NameUnits(units: seq<nat>) { forall i :: 0 <= i < |units| ==> 0 < units[i] < 0xFFFF }

  /** The last fragment is ended by 0x0000 and filled with 0xFFFF. */
  function Padded(units: seq<nat>): (p: seq<nat>)
    requires |units| <= 13
    ensures |p| == 13
    ensures NameUnits(units) ==> forall i :: 0 <= i < |p| ==> p[i] < 0x1_0000
  {
    if |units| == 13 then units else units + [0] + seq(12 - |units|, _ => 0xFFFF)
  }

  lemma DecodeFirst(all: seq<nat>)
    requires all != [] && forall i :: 0 <= i < |all| ==> all[i] < 0x1_0000
    ensures DecodeUnits(EncodeWords(all)) == Kept(all[0]) + DecodeUnits(EncodeWords(all[1..]))
  {
    hide DecodeUnits, EncodeWords, Kept;
    var u, rest := all[0], all[1..];
    EncodeStep(all);
    TwoBytes(u);
    PairDecoded(u, u % 256, u / 256, EncodeWords(rest));
  }

  lemma TwoBytes(n: nat)
    requires n < 0x1_0000
    ensures 0 <= n % 256 < 256 && 0 <= n / 256 < 256 && n % 256 + 256 * (n / 256) == n
  {
  }

  lemma PairDecoded(u: nat, low: Byte, high: Byte, rest: seq<Byte>)
    requires u == low + 256 * high
    ensures DecodeUnits([low, high] + rest) == Kept(u) + DecodeUnits(rest)
  {
    var raw := [low, high] + rest;
    assert raw[0] == low && raw[1] == high && raw[2..] == rest;
  }

  lemma EncodeStep(all: seq<nat>)
    requires all != [] && forall i :: 0 <= i < |all| ==> all[i] < 0x1_0000
    ensures EncodeWords(all) == [all[0] % 256, all[0] / 256] + EncodeWords(all[1..])
  {
  }

  lemma NothingDecoded()
    ensures DecodeUnits(EncodeWords([])) == []
  {
  }

  lemma {:induction false} DecodeWords(units: seq<nat>, fill: seq<nat>)
    requires NameUnits(units) && forall i :: 0 <= i < |fill| ==> fill[i] == 0 || fill[i] == 0xFFFF
    ensures DecodeUnits(EncodeWords(units + fill)) == units
    decreases |units| + |fill|
  {
    hide DecodeUnits, EncodeWords;
    var all := units + fill;
    if all == [] {
      NothingDecoded();
    } else {
      DecodeFirst(all);
      if units != [] {
        assert all[1..] == units[1..] + fill;
        DecodeWords(units[1..], fill);
      } else {
        assert all[1..] == [] + fill[1..];
        DecodeWords([], fill[1..]);
      }
    }
  }

  /** A fragment written for some units decodes to exactly those units. */
  lemma FragmentRoundTrip(order: Byte, checksum: Byte, units: seq<nat>)
    requires |units| <= 13 && NameUnits(units)
    ensures DecodeUnits(FragmentBytes(FragmentEntry(order, checksum, Padded(units)))) == units
  {
    FragmentHoldsItsUnits(order, checksum, Padded(units));
    var fill := Padded(units)[|units|..];
    assert Padded(units) == units + fill;
    DecodeWords(units, fill);
  }

  /** The fragments of a name, first to last. */
  function Fragments(units: seq<nat>): seq<Text> {
    if |units| <= 13 then [units] else [units[..13]] + Fragments(units[13..])
  }

  lemma {:induction false} FragmentsJoin(units: seq<nat>)
    ensures Join(Fragments(units)) == units
  {
    if |units| <= 13 {
      assert Fragments(units)[1..] == [];
    } else {
      FragmentsJoin(units[13..]);
      assert Fragments(units)[1..] == Fragments(units[13..]);
    }
  }

  /** The LFN entries of a name as they lie on disk: the last fragment, marked 0x40, comes first. */
  function EncodeLongName(units: seq<nat>, order: nat, checksum: Byte): (bs: seq<Byte>)
    requires NameUnits(units) && 1 <= order && 13 * order + |units| <= 268
  {
    if |units| <= 13 then FragmentEntry(order + 0x40, checksum, Padded(units))
    else EncodeLongName(units[13..], order + 1, checksum) + FragmentEntry(order, checksum, units[..13])
  }

  /** A space-padded name field. */
  function Field(t: seq<Byte>, width: nat): (f: seq<Byte>)
    requires |t| <= width
    ensures |f| == width
  {
    t + seq(width - |t|, _ => 0x20)
  }

  /** The bytes of a name part, the last of which is not the padding character. */
  predicate FieldText(t: seq<Byte>, width: nat) {
    |t| <= width && (t != [] ==> t[|t|-1] != 0x20)
  }

  predicate IsAscii(t: seq<Byte>) { forall i :: 0 <= i < |t| ==> t[i] < 128 }

  lemma AsciiFirst(t: seq<Byte>)
    requires t != []
    ensures Ascii(t) == (if t[0] < 128 then [t[0] as nat] else []) + Ascii(t[1..])
  {
  }

  lemma {:induction false} AsciiAppend(a: seq<Byte>, b: seq<Byte>)
    ensures Ascii(a + b) == Ascii(a) + Ascii(b)
  {
    hide Ascii;
    if a == [] {
      assert a + b == b;
      NoAscii(Ascii(b));
    } else {
      AsciiAppend(a[1..], b);
      assert (a + b)[0] == a[0] && (a + b)[1..] == a[1..] + b;
      AsciiFirst(a);
      AsciiFirst(a + b);
      Regroup(if a[0] < 128 then [a[0] as nat] else [], Ascii(a[1..]), Ascii(b));
    }
  }

  lemma NoAscii(t: Text)
    ensures Ascii([]) == [] && [] + t == t
  {
  }

  lemma AsciiOne(b: Byte)
    ensures Ascii([b]) == if b < 128 then [b] else []
  {
    AsciiFirst([b]);
    NoAscii([]);
    assert [b][1..] == [];
  }

  lemma {:induction false} AsciiSpaces(n: nat)
    ensures Ascii(seq(n, _ => SPACE)) == seq(n, _ => SPACE)
  {
    if n > 0 {
      AsciiSpaces(n - 1);
      var spaces: seq<Byte> := seq(n, _ => SPACE);
      assert spaces[1..] == seq(n - 1, _ => SPACE);
    }
  }

  lemma {:induction false} StripPadding(t: Text, n: nat)
    ensures StripSpaces(t + seq(n, _ => SPACE)) == StripSpaces(t)
  {
    var padded := t + seq(n, _ => SPACE);
    if n == 0 {
      assert padded == t;
    } else {
      StripPadding(t, n - 1);
      assert padded[..|padded|-1] == t + seq(n - 1, _ => SPACE);
    }
  }

  /** What the reader makes of one part of a name. */
  function SeenPart(t: seq<Byte>): Text { StripSpaces(Ascii(t)) }

  lemma FieldReads(t: seq<Byte>, width: nat)
    requires |t| <= width
    ensures SeenPart(Field(t, width)) == SeenPart(t)
  {
    AsciiAppend(t, seq(width - |t|, _ => SPACE));
    AsciiSpaces(width - |t|);
    StripPadding(Ascii(t), width - |t|);
  }

  /** Half of a character: a 16-bit unit of UTF-16 that stands for a character only together with another. */
  predicate IsSurrogate(u: nat) { 0xD800 <= u < 0xE000 }

  /** A character counts as much as its code point and one more, and half of one just as one. */
  function Weigh(c: nat): (w: nat)
    ensures w > 0
  {
    if IsSurrogate(c) then 1 else c + 1
  }

  function Sum(t: Text): nat { if t == [] then 0 else Sum(t[..|t|-1]) + Weigh(t[|t|-1]) }

  lemma {:induction false} SumAppend(a: Text, b: Text)
    ensures Sum(a + b) == Sum(a) + Sum(b)
  {
    if b == [] {
      assert a + b == a;
    } else {
      SumAppend(a, b[..|b|-1]);
      assert (a + b)[..|a+b|-1] == a + b[..|b|-1];
    }
  }

  lemma {:induction false} StripSum(t: Text)
    ensures Sum(StripSpaces(t)) <= Sum(t)
    ensures (t != [] ==> t[|t|-1] != SPACE) ==> StripSpaces(t) == t
  {
    if t != [] && t[|t|-1] == SPACE { StripSum(t[..|t|-1]); }
  }

  lemma {:induction false} AsciiSum(t: seq<Byte>)
    ensures Sum(Ascii(t)) <= Sum(t)
    ensures if IsAscii(t) then Ascii(t) == t else Sum(Ascii(t)) < Sum(t)
  {
    hide Ascii, Sum, Weigh;
    if t == [] {
      NoAscii([]);
    } else {
      var n := |t| - 1;
      AsciiSum(t[..n]);
      AsciiAppend(t[..n], [t[n]]);
      AsciiOne(t[n]);
      assert t == t[..n] + [t[n]];
      LastSum(t);
      if t[n] < 128 {
        SumAppend(Ascii(t[..n]), [t[n]]);
        OneSum(t[n]);
      } else {
        assert Ascii(t) == Ascii(t[..n]);
      }
    }
  }

  lemma LastSum(t: Text)
    requires t != []
    ensures Sum(t) == Sum(t[..|t|-1]) + Weigh(t[|t|-1])
  {
  }

  /** A part is read as it stands exactly if it is in ASCII; otherwise characters are missing. */
  lemma SeenPartIff(t: seq<Byte>, width: nat)
    requires FieldText(t, width)
    ensures if IsAscii(t) then SeenPart(t) == t else Sum(SeenPart(t)) < Sum(t)
  {
    AsciiSum(t);
    StripSum(Ascii(t));
  }

  function ShortText(stem: seq<Byte>, suffix: seq<Byte>): Text { Dotted(stem, suffix) }

  function Dotted(stem: Text, suffix: Text): Text { if suffix != [] then stem + [46] + suffix else stem }

  /** What the reader makes of a short name. */
  function SeenShort(stem: seq<Byte>, suffix: seq<Byte>): Text { Dotted(SeenPart(stem), SeenPart(suffix)) }

  lemma ShortNameReads(entry: seq<Byte>, stem: seq<Byte>, suffix: seq<Byte>)
    requires |entry| == 32 && |stem| <= 8 && |suffix| <= 3
    requires entry[0..8] == Field(stem, 8) && entry[8..11] == Field(suffix, 3)
    ensures ShortName(entry) == SeenShort(stem, suffix)
  {
    FieldReads(stem, 8);
    FieldReads(suffix, 3);
  }

  lemma DottedSum(stem: Text, suffix: Text)
    ensures Sum(Dotted(stem, suffix)) == Sum(stem) + if suffix == [] then 0 else 47 + Sum(suffix)
  {
    SumAppend(stem + DOT, suffix);
    SumAppend(stem, DOT);
    assert DOT[..0] == [];
    assert Sum(DOT) == 47;
  }

  /** A short name is read as it stands exactly if it is in ASCII; otherwise characters are missing. */
  lemma SeenShortIff(stem: seq<Byte>, suffix: seq<Byte>)
    requires FieldText(stem, 8) && FieldText(suffix, 3)
    ensures if IsAscii(stem) && IsAscii(suffix) then SeenShort(stem, suffix) == ShortText(stem, suffix)
      else Sum(SeenShort(stem, suffix)) < Sum(ShortText(stem, suffix))
  {
    SeenPartIff(stem, 8);
    SeenPartIff(suffix, 3);
    DottedSum(stem, suffix);
    DottedSum(SeenPart(stem), SeenPart(suffix));
  }

  /** An 8.3 name written to an entry is read back as stem.suffix if and only if it is in ASCII. */
  lemma ShortNameRoundTrip(entry: seq<Byte>, stem: seq<Byte>, suffix: seq<Byte>)
    requires |entry| == 32 && FieldText(stem, 8) && FieldText(suffix, 3)
    requires entry[0..8] == Field(stem, 8) && entry[8..11] == Field(suffix, 3)
    ensures ShortName(entry) == ShortText(stem, suffix) <==> IsAscii(stem) && IsAscii(suffix)
  {
    ShortNameReads(entry, stem, suffix);
    SeenShortIff(stem, suffix);
  }

  // ---------------------------------------------------------------- long names are UTF-16

  predicate IsPair(high: nat, low: nat) { 0xD800 <= high < 0xDC00 && 0xDC00 <= low < 0xE000 }

  /** The characters that 16-bit units stand for (section 2.5 of RFC 2781); a half without its other half stays. */
  function Utf16(units: seq<nat>): Text {
    if units == [] then []
    else if |units| >= 2 && IsPair(units[0], units[1]) then
      [0x10000 + (units[0] - 0xD800) * 0x400 + (units[1] - 0xDC00)] + Utf16(units[2..])
    else [units[0]] + Utf16(units[1..])
  }

  function Utf16Encode(t: Text): seq<nat>
    requires forall i :: 0 <= i < |t| ==> t[i] < 0x11_0000
  {
    if t == [] then []
    else if t[0] < 0x10000 then [t[0]] + Utf16Encode(t[1..])
    else [0xD800 + (t[0] - 0x10000) / 0x400, 0xDC00 + (t[0] - 0x10000) % 0x400] + Utf16Encode(t[1..])
  }

  predicate NoPair(units: seq<nat>) { forall i :: 0 < i < |units| ==> !IsPair(units[i-1], units[i]) }

  /** No half of a character is among them: what UTF-8 can encode. */
  predicate IsUnicode(t: Text) { forall i :: 0 <= i < |t| ==> !IsSurrogate(t[i]) }

  lemma NoPairStep(units: seq<nat>)
    ensures |units| >= 2 ==> (NoPair(units) <==> !IsPair(units[0], units[1]) && NoPair(units[1..]))
    ensures |units| < 2 ==> NoPair(units)
  {
    if |units| >= 2 && !IsPair(units[0], units[1]) && NoPair(units[1..]) {
      forall i | 0 < i < |units| ensures !IsPair(units[i-1], units[i]) {
        if i > 1 { assert !IsPair(units[1..][i-2], units[1..][i-1]); }
      }
    }
    if NoPair(units) {
      forall i | 0 < i < |units| - 1 ensures !IsPair(units[1..][i-1], units[1..][i]) {
        assert !IsPair(units[i], units[i+1]);
      }
    }
  }

  /** Units without pairs are their own characters; with a pair the characters are others, and count more. */
  lemma {:induction false} Utf16Iff(units: seq<nat>)
    ensures if NoPair(units) then Utf16(units) == units else Sum(units) < Sum(Utf16(units))
    ensures Sum(units) <= Sum(Utf16(units)) && (units != [] ==> Utf16(units) != [])
  {
    hide NoPair, Sum, Weigh, IsPair;
    NoPairStep(units);
    if |units| >= 2 && IsPair(units[0], units[1]) {
      Utf16Iff(units[2..]);
      PairCounts(units);
    } else if units != [] {
      Utf16Iff(units[1..]);
      FirstCounts(units);
      FirstCounts([units[0]] + Utf16(units[1..]));
      assert units == [units[0]] + units[1..];
    }
  }

  lemma {:induction false} PairIsBeyond(units: seq<nat>)
    requires !NoPair(units)
    ensures exists i :: 0 <= i < |Utf16(units)| && Utf16(units)[i] >= 0x10000
  {
    hide NoPair;
    NoPairStep(units);
    var t := Utf16(units);
    if IsPair(units[0], units[1]) {
      assert t[0] >= 0x10000;
    } else {
      PairIsBeyond(units[1..]);
      var i :| 0 <= i < |Utf16(units[1..])| && Utf16(units[1..])[i] >= 0x10000;
      assert t[i+1] == Utf16(units[1..])[i];
    }
  }

  lemma FirstCounts(t: Text)
    requires t != []
    ensures Sum(t) == Weigh(t[0]) + Sum(t[1..])
  {
    assert t == [t[0]] + t[1..];
    SumAppend([t[0]], t[1..]);
    OneSum(t[0]);
  }

  lemma PairCounts(units: seq<nat>)
    requires |units| >= 2 && IsPair(units[0], units[1])
    ensures Sum(Utf16(units)) > 2 + Sum(Utf16(units[2..])) && Sum(units) == 2 + Sum(units[2..])
  {
    hide Sum;
    FirstCounts(units);
    FirstCounts(units[1..]);
    assert units[1..][1..] == units[2..];
    FirstCounts(Utf16(units));
    assert Utf16(units)[1..] == Utf16(units[2..]);
  }

  lemma OneSum(c: nat)
    ensures Sum([c]) == Weigh(c)
  {
    var t: Text := [c];
    assert t[..0] == [];
  }

  lemma PairOf(c: nat, high: nat, low: nat)
    requires 0x10000 <= c < 0x11_0000
    requires high == 0xD800 + (c - 0x10000) / 0x400 && low == 0xDC00 + (c - 0x10000) % 0x400
    ensures IsPair(high, low) && 0x10000 + (high - 0xD800) * 0x400 + (low - 0xDC00) == c
  {
  }

  lemma PairDecodes(high: nat, low: nat, rest: seq<nat>)
    requires IsPair(high, low)
    ensures Utf16([high, low] + rest) == [0x10000 + (high - 0xD800) * 0x400 + (low - 0xDC00)] + Utf16(rest)
  {
    var u := [high, low] + rest;
    assert u[0] == high && u[1] == low && u[2..] == rest;
  }

  /** A name of Unicode characters is what its units stand for, and it is its units exactly if none is beyond 16 bits. */
  lemma {:induction false} Utf16RoundTrip(t: Text)
    requires IsUnicode(t) && forall i :: 0 <= i < |t| ==> t[i] < 0x11_0000
    ensures Utf16(Utf16Encode(t)) == t
    ensures Utf16Encode(t) == t <==> forall i :: 0 <= i < |t| ==> t[i] < 0x10000
  {
    if t != [] {
      Utf16RoundTrip(t[1..]);
      var rest := Utf16Encode(t[1..]);
      assert t == [t[0]] + t[1..];
      if t[0] < 0x10000 {
        assert !IsSurrogate(t[0]);
        assert ([t[0]] + rest)[1..] == rest;
      } else {
        var high, low := 0xD800 + (t[0] - 0x10000) / 0x400, 0xDC00 + (t[0] - 0x10000) % 0x400;
        PairOf(t[0], high, low);
        PairDecodes(high, low, rest);
      }
    }
  }
}
