/**
 * The tracer's line buffer (agent/linux/trace.c, append_raw to append_json_string): appends that
 * stop at the end of the buffer and keep it terminated.
 */
module TraceLine {
  import opened Prelude
  import opened Json

  /** The buffer holds as much of the text as fits, and a terminator. */
  ghost predicate Holds(buf: seq<char>, used: nat, text: string) {
    if buf == [] then used == 0
    else used == Min(|text|, |buf| - 1) && buf[..used] == text[..used] && (text != "" ==> buf[used] == '\0')
  }

  class Line {
    const buf: array<char>
    var used: nat
    /** Everything appended so far, as if there were no bound. */
    ghost var text: string

    ghost predicate Valid()
      reads this, buf
    {
      Holds(buf[..], used, text)
    }

    constructor (size: nat)
      ensures Valid() && text == "" && fresh(buf) && buf.Length == size
    {
      buf := new char[size];
      used := 0;
      text := "";
    }

    method AppendRaw(src: string)
      requires Valid()
      modifies this, buf
      ensures Valid() && text == old(text) + src
    {
      text := text + src;
      if buf.Length == 0 { return; }
      var max := buf.Length - 1;
      var room := max - used;
      var copy := if |src| < room then |src| else room;
      forall i | 0 <= i < copy {
        buf[used + i] := src[i];
      }
      ghost var written := buf[..used + copy];
      assert written == text[..used + copy];
      used := used + copy;
      buf[used] := '\0';
      assert buf[..used] == written;
    }

    method AppendChar(c: char)
      requires Valid()
      modifies this, buf
      ensures Valid() && text == old(text) + [c]
    {
      AppendRaw([c]);
    }

    /** The digits are found from the last to the first, and written the other way round. */
    method AppendU64(value: nat)
      requires Valid() && value < 0x1_0000_0000_0000_0000
      modifies this, buf
      ensures Valid() && text == old(text) + Decimal(value)
    {
      hide Decimal, Reversed;
      var digits := new char[32];
      var count := FindDigits(value, digits);
      ghost var all := Reversed(digits[..count]);
      while count != 0
        invariant Valid() && count <= 20
        invariant text + Reversed(digits[..count]) == old(text) + all
        decreases count
      {
        count := count - 1;
        ghost var before := text;
        LastReversed(digits[..count], digits[count]);
        assert digits[..count + 1] == digits[..count] + [digits[count]];
        AppendChar(digits[count]);
        assert text + Reversed(digits[..count]) == before + ([digits[count]] + Reversed(digits[..count]));
      }
      assert digits[..0] == "";
      NothingReversed(text);
    }

    method AppendI64(value: int)
      requires Valid() && -0x8000_0000_0000_0000 <= value < 0x8000_0000_0000_0000
      modifies this, buf
      ensures Valid() && text == old(text) + SignedDecimal(value)
    {
      var magnitude: nat;
      if value < 0 {
        AppendChar('-');
        // -(value + 1) still fits into a long, where -value need not
        magnitude := -(value + 1) + 1;
      } else {
        magnitude := value;
      }
      ghost var before := text;
      AppendU64(magnitude);
      assert value < 0 ==> text == old(text) + ("-" + Decimal(-value));
    }

    /** The body of the string loop. */
    method AppendEscaped(c: char)
      requires Valid()
      modifies this, buf
      ensures Valid() && text == old(text) + EscapeChar(c)
    {
      if c == '\\' { AppendRaw("\\\\"); }
      else if c == '"' { AppendRaw("\\\""); }
      else if c == '\n' { AppendRaw("\\n"); }
      else if c == '\r' { AppendRaw("\\r"); }
      else if c == '\t' { AppendRaw("\\t"); }
      else if c < ' ' { AppendChar('?'); }
      else { AppendChar(c); }
    }

    /** None is the null pointer; a C string ends before its first NUL. */
    method AppendJsonString(src: Option<string>)
      requires Valid()
      modifies this, buf
      ensures Valid() && text == old(text) + Quoted(if src.Some? then src.value else "")
    {
      hide EscapeChar;
      AppendChar('"');
      ghost var open := text;
      if src.None? {
        AppendChar('"');
        assert text == old(text) + ("\"" + "" + "\"");
        return;
      }
      var s := src.value;
      var cursor := 0;
      while cursor < |s|
        invariant Valid() && cursor <= |s|
        invariant text == open + Escape(s[..cursor])
      {
        ghost var before := text;
        AppendEscaped(s[cursor]);
        EscapeGrows(s, cursor, open, before);
        cursor := cursor + 1;
      }
      AppendChar('"');
      assert s[..|s|] == s;
      assert text == old(text) + ("\"" + Escape(s) + "\"");
    }
  }

  function Reversed(s: string): (r: string)
    ensures |r| == |s|
  {
    if s == "" then "" else [s[|s|-1]] + Reversed(s[..|s|-1])
  }

  lemma LastReversed(s: string, c: char)
    ensures Reversed(s + [c]) == [c] + Reversed(s)
  {
    assert (s + [c])[..|s|] == s;
  }

  lemma NothingReversed(text: string)
    ensures Reversed("") == "" && text + "" == text
  {
  }

  lemma {:induction false} DecimalLength(n: nat, k: nat)
    requires 0 < k && n < PowerOfTen(k)
    ensures |Decimal(n)| <= k
  {
    if n >= 10 {
      DecimalLength(n / 10, k - 1);
    }
  }

  function PowerOfTen(k: nat): nat { if k == 0 then 1 else 10 * PowerOfTen(k - 1) }

  /** An unsigned 64-bit number has at most twenty digits. */
  lemma U64Length(n: nat)
    requires n < 0x1_0000_0000_0000_0000
    ensures |Decimal(n)| <= 20
  {
    assert PowerOfTen(5) == 100000;
    assert PowerOfTen(10) == 100000 * PowerOfTen(5);
    assert PowerOfTen(15) == 100000 * PowerOfTen(10);
    assert PowerOfTen(20) == 100000 * PowerOfTen(15);
    DecimalLength(n, 20);
  }

  method FindDigits(n: nat, digits: array<char>) returns (count: nat)
    requires digits.Length == 32 && n < 0x1_0000_0000_0000_0000
    modifies digits
    ensures count <= 20 && Reversed(digits[..count]) == Decimal(n)
  {
    hide Reversed;
    U64Length(n);
    var value := n;
    digits[0] := DigitChar(value % 10);
    count := 1;
    value := value / 10;
    assert digits[..1] == [DigitChar(n % 10)];
    LastReversed("", DigitChar(n % 10));
    NothingReversed([DigitChar(n % 10)]);
    assert "" + [DigitChar(n % 10)] == [DigitChar(n % 10)];
    while value != 0
      invariant 1 <= count <= 20
      invariant Decimal(n) == (if value == 0 then "" else Decimal(value)) + Reversed(digits[..count])
      decreases value
    {
      ghost var before := digits[..count];
      digits[count] := DigitChar(value % 10);
      assert digits[..count + 1] == before + [DigitChar(value % 10)];
      LastReversed(before, DigitChar(value % 10));
      value := value / 10;
      count := count + 1;
    }
  }

  lemma {:induction false} EscapeAppend(s: string, c: char)
    ensures Escape(s + [c]) == Escape(s) + EscapeChar(c)
  {
    hide EscapeChar;
    if s == "" {
      assert s + [c] == [c] && [c][1..] == "";
      assert EscapeChar(c) + "" == "" + EscapeChar(c);
    } else {
      EscapeAppend(s[1..], c);
      assert (s + [c])[0] == s[0] && (s + [c])[1..] == s[1..] + [c];
      assert EscapeChar(s[0]) + (Escape(s[1..]) + EscapeChar(c)) == EscapeChar(s[0]) + Escape(s[1..]) + EscapeChar(c);
    }
  }

  lemma EscapeGrows(s: string, i: nat, open: string, before: string)
    requires i < |s| && before == open + Escape(s[..i])
    ensures before + EscapeChar(s[i]) == open + Escape(s[..i+1])
  {
    EscapeAppend(s[..i], s[i]);
    assert s[..i+1] == s[..i] + [s[i]];
  }
}
