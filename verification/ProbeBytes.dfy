/**
 * What the tracer says about a buffer that a system call filled (agent/linux/trace.c, hex_preview,
 * digest_hex, sanitize_stat_bytes and probe_preview_and_digest).
 */
module ProbeBytes {
  import opened Prelude
  import opened Sha256Spec
  import BitStrings
  import Sha256Stream

  /** An output of a call: its name, the argument that points to it, its bytes, and the descriptors in it. */
  datatype Output = Output(tag: string, argIndex: int, bytes: seq<Byte>, fds: Option<seq<int>>)

  /** A part of a structure. */
  datatype Span = Span(offset: nat, size: nat)

  /** The size of struct stat, and its members that are never the same: device, inode and times. */
  datatype StatLayout = StatLayout(size: nat, volatile: seq<Span>)

  /** How many bytes are to be shown at most, and the platform's layout. */
  datatype Setting = Setting(previewBytes: nat, stat: StatLayout)

  // ---------------------------------------------------------------- hexadecimal text

  function HexDigit(n: nat): char
    requires n < 16
  {
    "0123456789abcdef"[n]
  }

  function Hex(bs: seq<Byte>): (s: string)
    ensures |s| == 2 * |bs|
  {
    if bs == [] then "" else Hex(bs[..|bs|-1]) + [HexDigit(bs[|bs|-1] / 16), HexDigit(bs[|bs|-1] % 16)]
  }

  /** The loop of both printers: the first bytes as two characters each, and the terminator. */
  method HexInto(src: seq<Byte>, count: nat, out: array<char>)
    requires count <= |src| && 2 * count < out.Length
    modifies out
    ensures out[..2*count] == Hex(src[..count]) && out[2*count] == '\0'
  {
    hide HexDigit;
    for i := 0 to count
      invariant out[..2*i] == Hex(src[..i])
    {
      ghost var before := out[..2*i];
      out[2*i] := HexDigit(src[i] / 16);
      out[2*i+1] := HexDigit(src[i] % 16);
      assert src[..i+1][..i] == src[..i];
      assert out[..2*i+2] == before + [HexDigit(src[i] / 16), HexDigit(src[i] % 16)];
    }
    out[2*count] := '\0';
    assert out[..2*count] == Hex(src[..count]);
  }

  /** As many bytes as fit are shown and the text is terminated; nothing is shown of the null pointer. */
  method HexPreview(src: Option<seq<Byte>>, length: nat, out: array<char>) returns (used: nat)
    requires src.Some? ==> length <= |src.value|
    modifies out
    ensures used == if src.None? || out.Length == 0 then 0 else 2 * Min(length, (out.Length - 1) / 2)
    ensures used <= out.Length && (src.Some? ==> out[..used] == Hex(src.value[..used/2]))
    ensures out.Length > 0 ==> used < out.Length && out[used] == '\0'
  {
    if src.None? || length == 0 || out.Length == 0 {
      if out.Length > 0 { out[0] := '\0'; }
      return 0;
    }
    var max := (out.Length - 1) / 2;
    var count := if length > max then max else length;
    HexInto(src.value, count, out);
    return 2 * count;
  }

  /** The number that a hexadecimal digit stands for. */
  function DigitValue(c: char): int {
    if '0' <= c <= '9' then c as int - '0' as int else if 'a' <= c <= 'f' then c as int - 'a' as int + 10 else -1
  }

  /** Two digits for each byte, the high one first. */
  ghost predicate IsHexOf(s: string, bs: seq<Byte>) {
    |s| == 2 * |bs| && forall i :: 0 <= i < |bs| ==> IsByteAt(s, i, bs[i])
  }

  predicate IsByteAt(s: string, i: nat, b: Byte)
    requires 2 * i + 1 < |s|
  {
    var high, low := DigitValue(s[2*i]), DigitValue(s[2*i+1]);
    0 <= high < 16 && 0 <= low < 16 && b == 16 * high + low
  }

  lemma DigitIsRead(n: nat)
    requires n < 16
    ensures DigitValue(HexDigit(n)) == n
  {
  }

  /** Reading the digits of a preview gives its bytes. */
  lemma {:induction false} HexIsRead(bs: seq<Byte>)
    ensures IsHexOf(Hex(bs), bs)
  {
    hide HexDigit, DigitValue;
    if bs != [] {
      var n, s := |bs| - 1, Hex(bs);
      HexIsRead(bs[..n]);
      DigitIsRead(bs[n] / 16);
      DigitIsRead(bs[n] % 16);
      assert s[..2*n] == Hex(bs[..n]);
      forall i | 0 <= i < |bs| ensures IsByteAt(s, i, bs[i]) {
        if i < n { assert IsByteAt(Hex(bs[..n]), i, bs[..n][i]); }
      }
    }
  }

  /** A preview shows which bytes it was made of. */
  lemma HexIsInjective(a: seq<Byte>, b: seq<Byte>)
    requires Hex(a) == Hex(b)
    ensures a == b
  {
    hide Hex;
    HexIsRead(a);
    HexIsRead(b);
    forall i | 0 <= i < |a| ensures a[i] == b[i] {
      assert IsByteAt(Hex(a), i, a[i]) && IsByteAt(Hex(b), i, b[i]);
    }
  }

  // ---------------------------------------------------------------- stat buffers

  function Zeroed(bs: seq<Byte>, s: Span): (r: seq<Byte>)
    ensures |r| == |bs|
  {
    seq(|bs|, i requires 0 <= i < |bs| => if s.offset <= i < s.offset + s.size then 0 else bs[i])
  }

  function ZeroedAll(bs: seq<Byte>, spans: seq<Span>): (r: seq<Byte>)
    ensures |r| == |bs|
  {
    if spans == [] then bs else Zeroed(ZeroedAll(bs, spans[..|spans|-1]), spans[|spans|-1])
  }

  lemma {:induction false} ZeroedWhere(bs: seq<Byte>, spans: seq<Span>, i: nat)
    requires i < |bs|
    ensures ZeroedAll(bs, spans)[i] ==
      if exists k :: 0 <= k < |spans| && spans[k].offset <= i < spans[k].offset + spans[k].size then 0 else bs[i]
  {
    if spans != [] {
      var n := |spans| - 1;
      ZeroedWhere(bs, spans[..n], i);
      assert spans == spans[..n] + [spans[n]];
    }
  }

  method ZeroRange(a: array<Byte>, s: Span)
    modifies a
    ensures a[..] == Zeroed(old(a[..]), s)
  {
    if s.offset >= a.Length { return; }
    var size := if s.size > a.Length - s.offset then a.Length - s.offset else s.size;
    for i := s.offset to s.offset + size
      invariant forall k :: 0 <= k < a.Length ==> a[k] == if s.offset <= k < i then 0 else old(a[k])
    {
      a[i] := 0;
    }
  }

  method SanitizeStat(bytes: seq<Byte>, layout: StatLayout) returns (out: seq<Byte>)
    ensures out == if |bytes| < layout.size then bytes else ZeroedAll(bytes, layout.volatile)
  {
    var copy := new Byte[|bytes|](i requires 0 <= i < |bytes| => bytes[i]);
    assert copy[..] == bytes;
    if |bytes| < layout.size { return copy[..]; }
    for k := 0 to |layout.volatile|
      invariant copy[..] == ZeroedAll(bytes, layout.volatile[..k])
    {
      ZeroRange(copy, layout.volatile[k]);
      assert layout.volatile[..k+1][..k] == layout.volatile[..k];
    }
    assert layout.volatile[..|layout.volatile|] == layout.volatile;
    return copy[..];
  }

  // ---------------------------------------------------------------- preview and digest

  const PREVIEW_SIZE := 8192
  const DIGEST_SIZE := 65

  predicate IsStat(o: Output, layout: StatLayout) { o.tag == "stat" && |o.bytes| == layout.size }

  /** The bytes that are looked at. */
  function Stable(o: Output, s: Setting): (bs: seq<Byte>)
    ensures |bs| == |o.bytes|
  {
    if IsStat(o, s.stat) then ZeroedAll(o.bytes, s.stat.volatile) else o.bytes
  }

  /** Of a whole stat buffer the members that are never the same read as zero, and every other byte is what it was. */
  lemma StableByte(o: Output, s: Setting, i: nat)
    requires i < |o.bytes|
    ensures Stable(o, s)[i] ==
      if o.tag == "stat" && |o.bytes| == s.stat.size
         && exists m :: m in s.stat.volatile && m.offset <= i < m.offset + m.size then 0
      else o.bytes[i]
  {
    hide ZeroedAll;
    var spans := s.stat.volatile;
    ZeroedWhere(o.bytes, spans, i);
    assert (exists m :: m in spans && m.offset <= i < m.offset + m.size) <==>
      exists k :: 0 <= k < |spans| && spans[k].offset <= i < spans[k].offset + spans[k].size;
  }

  function ShownLength(length: nat, s: Setting): nat { Min(Min(length, s.previewBytes), (PREVIEW_SIZE - 1) / 2) }

  function PreviewText(o: Output, s: Setting): string { Hex(Stable(o, s)[..ShownLength(|o.bytes|, s)]) }

  function Sha256Of(bytes: seq<Byte>): (hash: seq<Byte>)
    requires Hashable(bytes)
    ensures |hash| == 32
  {
    Sha256(BitStrings.Standard(), bytes)
  }

  function DigestText(o: Output, s: Setting): string
    requires Hashable(o.bytes)
  {
    Hex(Sha256Of(Stable(o, s)))
  }

  method DigestHex(bytes: seq<Byte>, out: array<char>) returns (used: nat)
    requires Hashable(bytes)
    modifies out
    ensures used == if out.Length == 0 then 0 else 2 * Min(32, (out.Length - 1) / 2)
    ensures used <= out.Length && out[..used] == Hex(Sha256Of(bytes)[..used/2])
    ensures out.Length > 0 ==> used < out.Length && out[used] == '\0'
  {
    hide Sha256, Hex;
    if out.Length == 0 { NoBytes(Sha256Of(bytes)); return 0; }
    OnePiece(bytes);
    var hash := Sha256Stream.HashPieces([bytes]);
    var count := Min(32, (out.Length - 1) / 2);
    HexInto(hash[..], count, out);
    return 2 * count;
  }

  lemma NoBytes(bs: seq<Byte>)
    ensures Hex(bs[..0]) == ""
  {
  }

  lemma OnePiece(bytes: seq<Byte>)
    ensures Sha256Stream.Concat([bytes]) == bytes
  {
    assert [bytes][..0] == [];
    assert Sha256Stream.Concat([bytes]) == [] + bytes;
  }

  method ProbePreviewAndDigest(o: Output, s: Setting) returns (preview: string, digest: string)
    requires Hashable(o.bytes)
    ensures preview == PreviewText(o, s) && digest == DigestText(o, s)
  {
    hide Sha256Of, Hex, ZeroedAll;
    var bytes := o.bytes;
    if IsStat(o, s.stat) { bytes := SanitizeStat(o.bytes, s.stat); }
    preview := Preview(bytes, s);
    digest := Digest(bytes);
  }

  method Preview(bytes: seq<Byte>, s: Setting) returns (preview: string)
    ensures preview == Hex(bytes[..ShownLength(|bytes|, s)])
  {
    hide Hex;
    var length := if |bytes| == 0 then 0 else Min(|bytes|, s.previewBytes);
    var out := new char[PREVIEW_SIZE];
    var used := HexPreview(Some(bytes), length, out);
    preview := out[..used];
  }

  method Digest(bytes: seq<Byte>) returns (digest: string)
    requires Hashable(bytes)
    ensures digest == Hex(Sha256Of(bytes))
  {
    hide Sha256Of, Hex;
    var out := new char[DIGEST_SIZE];
    var used := DigestHex(bytes, out);
    digest := out[..used];
    ghost var hash := Sha256Of(bytes);
    assert hash[..32] == hash;
  }

  /** What is printed about the bytes of an output tells their number, the first of them, and their hash. */
  lemma PrintedTells(a: Output, b: Output, s: Setting)
    requires Hashable(a.bytes) && Hashable(b.bytes) && |a.bytes| == |b.bytes|
    ensures PreviewText(a, s) == PreviewText(b, s) <==>
      var n := ShownLength(|a.bytes|, s); Stable(a, s)[..n] == Stable(b, s)[..n]
    ensures DigestText(a, s) == DigestText(b, s) <==>
      Sha256Of(Stable(a, s)) == Sha256Of(Stable(b, s))
  {
    hide Sha256Of, Hex, Stable;
    var n := ShownLength(|a.bytes|, s);
    if PreviewText(a, s) == PreviewText(b, s) { HexIsInjective(Stable(a, s)[..n], Stable(b, s)[..n]); }
    if DigestText(a, s) == DigestText(b, s) {
      HexIsInjective(Sha256Of(Stable(a, s)), Sha256Of(Stable(b, s)));
    }
  }
}
