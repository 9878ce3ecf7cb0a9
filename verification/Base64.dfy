/**
 Standard base64 with padding, as in section 4 of RFC 4648, decoded as Go's encoding/base64
 does: line breaks are skipped, and spare bits of a last group are not checked.
 */
module Base64 {
  import opened Options

  type Byte = n: int | 0 <= n < 256

  type Bytes = seq<Byte>

  type SixBits = n: int | 0 <= n < 64

  /** The character of a six-bit digit. */
  function Char(d: SixBits): (c: Byte)
    ensures Digit(c) == Some(d)
  {
    if d < 26 then 65 + d            // A-Z
    else if d < 52 then 97 + d - 26  // a-z
    else if d < 62 then 48 + d - 52  // 0-9
    else if d == 62 then 43          // +
    else 47                          // /
  }

  function Digit(c: Byte): Option<SixBits> {
    if 65 <= c <= 90 then Some(c - 65)
    else if 97 <= c <= 122 then Some(c - 97 + 26)
    else if 48 <= c <= 57 then Some(c - 48 + 52)
    else if c == 43 then Some(62)
    else if c == 47 then Some(63)
    else None
  }

  const PAD: Byte := 61

  // The four digits of three bytes.
  function D0(x: Byte): SixBits { x / 4 }
  function D1(x: Byte, y: Byte): SixBits { x % 4 * 16 + y / 16 }
  function D2(y: Byte, z: Byte): SixBits { y % 16 * 4 + z / 64 }
  function D3(z: Byte): SixBits { z % 64 }

  function Quad(d0: SixBits, d1: SixBits, d2: SixBits, d3: SixBits): Bytes {
    [Char(d0), Char(d1), Char(d2), Char(d3)]
  }

  /** Three bytes are four digits; one or two bytes at the end are padded. */
  function Encode(b: Bytes): (text: Bytes)
    ensures forall i :: 0 <= i < |text| ==> text[i] == PAD || Digit(text[i]).Some?
  {
    if |b| == 0 then []
    else if |b| == 1 then [Char(D0(b[0])), Char(D1(b[0], 0)), PAD, PAD]
    else if |b| == 2 then [Char(D0(b[0])), Char(D1(b[0], b[1])), Char(D2(b[1], 0)), PAD]
    else Quad(D0(b[0]), D1(b[0], b[1]), D2(b[1], b[2]), D3(b[2])) + Encode(b[3..])
  }

  /** The bytes of one group of four digits. */
  function Group(d0: SixBits, d1: SixBits, d2: SixBits, d3: SixBits): (b: Bytes)
    ensures |b| == 3
  {
    [d0 * 4 + d1 / 16, d1 % 16 * 16 + d2 / 4, d2 % 4 * 64 + d3]
  }

  function DecodeGroups(text: Bytes): Option<Bytes> {
    if text == [] then Some([])
    else if |text| < 4 || Digit(text[0]).None? || Digit(text[1]).None? then None
    else
      var d0, d1, d2, d3 := Digit(text[0]).value, Digit(text[1]).value, Digit(text[2]), Digit(text[3]);
      if d2.Some? && d3.Some? then
        var rest := DecodeGroups(text[4..]);
        if rest.Some? then Some(Group(d0, d1, d2.value, d3.value) + rest.value) else None
      else if |text| > 4 || text[3] != PAD then None
      else if d2.Some? then Some(Group(d0, d1, d2.value, 0)[..2])
      else if text[2] == PAD then Some(Group(d0, d1, 0, 0)[..1])
      else None
  }

  function WithoutBreaks(text: Bytes): Bytes {
    if text == [] then []
    else (if text[0] == 10 || text[0] == 13 then [] else [text[0]]) + WithoutBreaks(text[1..])
  }

  function Decode(text: Bytes): Option<Bytes> {
    DecodeGroups(WithoutBreaks(text))
  }

  lemma {:induction false} NoBreaks(text: Bytes)
    requires forall i :: 0 <= i < |text| ==> text[i] == PAD || Digit(text[i]).Some?
    ensures WithoutBreaks(text) == text
  {
    if text != [] {
      NoBreaks(text[1..]);
      assert text[0] == PAD || Digit(text[0]).Some?;
    }
  }

  lemma DecodeQuad(d0: SixBits, d1: SixBits, d2: SixBits, d3: SixBits, rest: Bytes)
    requires DecodeGroups(rest).Some?
    ensures DecodeGroups(Quad(d0, d1, d2, d3) + rest) == Some(Group(d0, d1, d2, d3) + DecodeGroups(rest).value)
  {
    assert (Quad(d0, d1, d2, d3) + rest)[4..] == rest;
  }

  lemma DecodePadded(d0: SixBits, d1: SixBits, d2: SixBits)
    ensures DecodeGroups([Char(d0), Char(d1), Char(d2), PAD]) == Some(Group(d0, d1, d2, 0)[..2])
    ensures DecodeGroups([Char(d0), Char(d1), PAD, PAD]) == Some(Group(d0, d1, 0, 0)[..1])
  {
  }

  lemma SixteenParts(high: int, low: int)
    requires 0 <= low < 16
    ensures (high * 16 + low) / 16 == high && (high * 16 + low) % 16 == low
  {
  }

  lemma FourParts(high: int, low: int)
    requires 0 <= low < 4
    ensures (high * 4 + low) / 4 == high && (high * 4 + low) % 4 == low
  {
  }

  lemma DigitsShareBytes(x: Byte, y: Byte, z: Byte)
    ensures D1(x, y) / 16 == x % 4 && D1(x, y) % 16 == y / 16
    ensures D2(y, z) / 4 == y % 16 && D2(y, z) % 4 == z / 64
  {
    SixteenParts(x % 4, y / 16);
    FourParts(y % 16, z / 64);
  }

  lemma GroupBytes(x: Byte, y: Byte, z: Byte, d3: SixBits)
    ensures Group(D0(x), D1(x, y), D2(y, z), d3) == [x, y, z / 64 * 64 + d3]
  {
    DigitsShareBytes(x, y, z);
  }

  lemma GroupOfThree(x: Byte, y: Byte, z: Byte)
    ensures Group(D0(x), D1(x, y), D2(y, z), D3(z)) == [x, y, z]
    ensures z == 0 ==> Group(D0(x), D1(x, y), D2(y, z), 0)[..2] == [x, y]
    ensures z == 0 && y == 0 ==> Group(D0(x), D1(x, y), 0, 0)[..1] == [x]
  {
    GroupBytes(x, y, z, D3(z));
  }

  lemma {:induction false} DecodeGroupsOfEncode(b: Bytes)
    ensures DecodeGroups(Encode(b)) == Some(b)
  {
    if |b| == 1 {
      GroupOfThree(b[0], 0, 0);
      DecodePadded(D0(b[0]), D1(b[0], 0), 0);
      assert b == [b[0]];
    } else if |b| == 2 {
      GroupOfThree(b[0], b[1], 0);
      DecodePadded(D0(b[0]), D1(b[0], b[1]), D2(b[1], 0));
      assert b == [b[0], b[1]];
    } else if |b| > 2 {
      DecodeGroupsOfEncode(b[3..]);
      GroupOfThree(b[0], b[1], b[2]);
      DecodeQuad(D0(b[0]), D1(b[0], b[1]), D2(b[1], b[2]), D3(b[2]), Encode(b[3..]));
      assert b == [b[0], b[1], b[2]] + b[3..];
    }
  }

  /** What was encoded is decoded again, byte for byte. */
  lemma DecodeOfEncode(b: Bytes)
    ensures Decode(Encode(b)) == Some(b)
  {
    NoBreaks(Encode(b));
    DecodeGroupsOfEncode(b);
  }

  // ---------------------------------------------------------------- the code as RFC 4648 has it

  const UPPER: string := "ABCDEFGHIJKLMNOPQRSTUVWXYZ"
  const LOWER: string := "abcdefghijklmnopqrstuvwxyz"
  const NUMBERS: string := "0123456789"

  lemma UpperDigits(c: Byte, d: SixBits)
    requires d < 26
    ensures Char(d) == UPPER[d] as int && (Digit(c) == Some(d) <==> c == UPPER[d] as int)
  {
    assert forall i :: 0 <= i < |UPPER| ==> UPPER[i] as int == 65 + i;
  }

  lemma LowerDigits(c: Byte, d: SixBits)
    requires 26 <= d < 52
    ensures Char(d) == LOWER[d - 26] as int && (Digit(c) == Some(d) <==> c == LOWER[d - 26] as int)
  {
    assert forall i :: 0 <= i < |LOWER| ==> LOWER[i] as int == 97 + i;
  }

  lemma NumberDigits(c: Byte, d: SixBits)
    requires 52 <= d < 62
    ensures Char(d) == NUMBERS[d - 52] as int && (Digit(c) == Some(d) <==> c == NUMBERS[d - 52] as int)
  {
    assert forall i :: 0 <= i < |NUMBERS| ==> NUMBERS[i] as int == 48 + i;
  }

  /** The digits are the letters, the numbers, plus and slash, in this order, and no other
      character is a digit. */
  lemma DigitsAreTheAlphabet(c: Byte, d: SixBits)
    ensures var sign := if d < 26 then UPPER[d] else if d < 52 then LOWER[d - 26] else if d < 62 then NUMBERS[d - 52]
                        else if d == 62 then '+' else '/';
            Char(d) == sign as int && (Digit(c) == Some(d) <==> c == sign as int)
  {
    if d < 26 {
      UpperDigits(c, d);
    } else if d < 52 {
      LowerDigits(c, d);
    } else if d < 62 {
      NumberDigits(c, d);
    }
  }

  /** The test vectors of section 10. */
  lemma TestVectors()
    ensures Encode([]) == [] && Encode(Text("f")) == Text("Zg==") && Encode(Text("fo")) == Text("Zm8=")
    ensures Encode(Text("foo")) == Text("Zm9v") && Encode(Text("foob")) == Text("Zm9vYg==")
  {
    var foob := Text("foob");
    assert foob[3..] == Text("b");
    assert Text("foo")[3..] == [];
  }

  function Text(text: string): Bytes
    requires forall i :: 0 <= i < |text| ==> text[i] < '\U{80}'
  {
    seq(|text|, i requires 0 <= i < |text| => text[i] as int)
  }

  /** Groups of four digits, of which the last may end in one or two signs of padding. */
  predicate IsPadded(text: Bytes) {
    && |text| % 4 == 0
    && (forall i :: 0 <= i < |text| - 2 ==> Digit(text[i]).Some?)
    && (|text| > 0 ==> (Digit(text[|text| - 2]).Some? || (text[|text| - 2] == 61 && text[|text| - 1] == 61))
                       && (Digit(text[|text| - 1]).Some? || text[|text| - 1] == 61))
  }

  lemma OneGroup(text: Bytes)
    requires |text| == 4
    ensures DecodeGroups(text).Some? <==> IsPadded(text)
  {
    assert text[4..] == [];
    if IsPadded(text) {
      assert Digit(text[0]).Some? && Digit(text[1]).Some?;
    }
  }

  lemma FirstOfMore(text: Bytes)
    requires |text| > 4
    ensures IsPadded(text) <==> IsPadded(text[4..]) && forall i :: 0 <= i < 4 ==> Digit(text[i]).Some?
  {
    var rest := text[4..];
    assert forall i :: 0 <= i < |rest| ==> rest[i] == text[i + 4];
    if IsPadded(rest) && forall i :: 0 <= i < 4 ==> Digit(text[i]).Some? {
      forall i | 0 <= i < |text| - 2 ensures Digit(text[i]).Some? {
        assert i >= 4 ==> text[i] == rest[i - 4];
      }
    }
  }

  lemma DecodeFirst(text: Bytes)
    requires |text| > 4
    ensures DecodeGroups(text).Some? <==> DecodeGroups(text[4..]).Some? && forall i :: 0 <= i < 4 ==> Digit(text[i]).Some?
  {
    assert (forall i :: 0 <= i < 4 ==> Digit(text[i]).Some?)
      <==> Digit(text[0]).Some? && Digit(text[1]).Some? && Digit(text[2]).Some? && Digit(text[3]).Some?;
  }

  lemma {:induction false} GroupsDecodeIff(text: Bytes)
    ensures DecodeGroups(text).Some? <==> IsPadded(text)
  {
    if |text| == 4 {
      OneGroup(text);
    } else if |text| > 4 {
      GroupsDecodeIff(text[4..]);
      FirstOfMore(text);
      DecodeFirst(text);
    }
  }

  /** Line breaks are skipped, wherever they stand. */
  lemma {:induction false} BreaksAreSkipped(a: Bytes, c: Byte, b: Bytes)
    requires c == '\n' as int || c == '\r' as int
    ensures WithoutBreaks(a + [c] + b) == WithoutBreaks(a + b)
  {
    if a == [] {
      assert a + [c] + b == [c] + b && a + b == b;
    } else {
      BreaksAreSkipped(a[1..], c, b);
      assert (a + [c] + b)[1..] == a[1..] + [c] + b && (a + b)[1..] == a[1..] + b;
    }
  }

  lemma {:induction false} NothingElseIsSkipped(text: Bytes)
    requires '\n' as int !in text && '\r' as int !in text
    ensures WithoutBreaks(text) == text
  {
    if text != [] {
      NothingElseIsSkipped(text[1..]);
    }
  }

  /** Decoding accepts exactly the padded texts, whatever line breaks stand in them. */
  lemma DecodesIff(text: Bytes)
    ensures '\n' as int !in text && '\r' as int !in text ==> (Decode(text).Some? <==> IsPadded(text))
    ensures forall a, c, b :: (c == '\n' as int || c == '\r' as int) && text == a + [c] + b ==> Decode(text) == Decode(a + b)
  {
    if '\n' as int !in text && '\r' as int !in text {
      NothingElseIsSkipped(text);
      GroupsDecodeIff(text);
    }
    forall a: Bytes, c: Byte, b: Bytes | (c == '\n' as int || c == '\r' as int) && text == a + [c] + b
      ensures Decode(text) == Decode(a + b)
    {
      BreaksAreSkipped(a, c, b);
    }
  }
}
