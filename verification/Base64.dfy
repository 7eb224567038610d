/** The standard base64 encoding, section 4 of RFC 4648, with the decoder's treatment of padding and line breaks. */
module Base64 {
  import opened Common

  datatype Decoded = Failed | Bytes(data: seq<Byte>)

  function Digit(v: nat): Byte
    requires v < 64
  {
    if v < 26 then 0x41 + v
    else if v < 52 then 0x61 + (v - 26)
    else if v < 62 then 0x30 + (v - 52)
    else if v == 62 then 0x2b
    else 0x2f
  }

  /** The value of a digit, 64 for anything else. */
  function Value(c: Byte): (v: nat)
    ensures v <= 64
  {
    if 0x41 <= c <= 0x5a then c - 0x41
    else if 0x61 <= c <= 0x7a then c - 0x61 + 26
    else if 0x30 <= c <= 0x39 then c - 0x30 + 52
    else if c == 0x2b then 62
    else if c == 0x2f then 63
    else 64
  }

  const PAD: Byte := 0x3d

  lemma ValueDigit(v: nat)
    requires v < 64
    ensures Value(Digit(v)) == v && Digit(v) != PAD
  {
  }

  function Encode(x: seq<Byte>): seq<Byte>
    decreases |x|
  {
    if x == [] then []
    else if |x| == 1 then [Digit(x[0] / 4), Digit(x[0] % 4 * 16), PAD, PAD]
    else if |x| == 2 then [Digit(x[0] / 4), Digit(x[0] % 4 * 16 + x[1] / 16), Digit(x[1] % 16 * 4), PAD]
    else [Digit(x[0] / 4), Digit(x[0] % 4 * 16 + x[1] / 16), Digit(x[1] % 16 * 4 + x[2] / 64), Digit(x[2] % 64)] + Encode(x[3..])
  }

  function First(a: nat, b: nat): Byte
    requires a < 64 && b < 64
  {
    a * 4 + b / 16
  }

  function Second(b: nat, c: nat): Byte
    requires b < 64 && c < 64
  {
    b % 16 * 16 + c / 4
  }

  function Third(c: nat, d: nat): Byte
    requires c < 64 && d < 64
  {
    c % 4 * 64 + d
  }

  /** Line breaks have been dropped; padding may only end the last group of four. */
  function DecodeGroups(s: seq<Byte>): Decoded
    decreases |s|
  {
    if s == [] then Bytes([])
    else if |s| < 4 then Failed
    else
      var a, b, c, d := Value(s[0]), Value(s[1]), Value(s[2]), Value(s[3]);
      if a == 64 || b == 64 then Failed
      else if c < 64 && d < 64 then
        match DecodeGroups(s[4..])
        case Failed => Failed
        case Bytes(rest) => Bytes([First(a, b), Second(b, c), Third(c, d)] + rest)
      else if |s| > 4 || s[3] != PAD then Failed
      else if c < 64 then Bytes([First(a, b), Second(b, c)])
      else if s[2] == PAD then Bytes([First(a, b)])
      else Failed
  }

  predicate LineBreak(b: Byte) {
    b == 0x0a || b == 0x0d
  }

  function WithoutBreaks(s: seq<Byte>): seq<Byte> {
    if s == [] then [] else (if LineBreak(s[0]) then [] else [s[0]]) + WithoutBreaks(s[1..])
  }

  function Decode(s: seq<Byte>): Decoded {
    DecodeGroups(WithoutBreaks(s))
  }

  lemma GroupBack(x: Byte, y: Byte, z: Byte)
    ensures var a, b, c, d := x / 4, x % 4 * 16 + y / 16, y % 16 * 4 + z / 64, z % 64;
            && a < 64 && b < 64 && c < 64 && d < 64
            && First(a, b) == x && Second(b, c) == y && Third(c, d) == z
  {
  }

  /** A whole group of digits gives three bytes and the rest goes on. */
  lemma DecodeFull(a: nat, b: nat, c: nat, d: nat, rest: seq<Byte>)
    requires a < 64 && b < 64 && c < 64 && d < 64
    ensures DecodeGroups([Digit(a), Digit(b), Digit(c), Digit(d)] + rest)
         == match DecodeGroups(rest)
            case Failed => Failed
            case Bytes(data) => Bytes([First(a, b), Second(b, c), Third(c, d)] + data)
  {
    ValueDigit(a);
    ValueDigit(b);
    ValueDigit(c);
    ValueDigit(d);
    hide Value, Digit, First, Second, Third;
    var s := [Digit(a), Digit(b), Digit(c), Digit(d)] + rest;
    assert s[4..] == rest;
  }

  lemma DecodeLast(a: nat, b: nat, c: nat)
    requires a < 64 && b < 64 && c < 64
    ensures DecodeGroups([Digit(a), Digit(b), Digit(c), PAD]) == Bytes([First(a, b), Second(b, c)])
    ensures DecodeGroups([Digit(a), Digit(b), PAD, PAD]) == Bytes([First(a, b)])
  {
    ValueDigit(a);
    ValueDigit(b);
    ValueDigit(c);
    assert Value(PAD) == 64;
    hide Value, Digit, First, Second, Third;
  }

  lemma {:induction false} DecodeEncodeGroups(x: seq<Byte>)
    ensures DecodeGroups(Encode(x)) == Bytes(x)
    decreases |x|
  {
    hide DecodeGroups, Digit, First, Second, Third;
    if x == [] {
      assert DecodeGroups([]) == Bytes([]) by { DecodeNothing(); }
    } else if |x| == 1 {
      GroupBack(x[0], 0, 0);
      DecodeLast(x[0] / 4, x[0] % 4 * 16, 0);
    } else if |x| == 2 {
      GroupBack(x[0], x[1], 0);
      DecodeLast(x[0] / 4, x[0] % 4 * 16 + x[1] / 16, x[1] % 16 * 4);
    } else {
      GroupBack(x[0], x[1], x[2]);
      DecodeEncodeGroups(x[3..]);
      DecodeFull(x[0] / 4, x[0] % 4 * 16 + x[1] / 16, x[1] % 16 * 4 + x[2] / 64, x[2] % 64, Encode(x[3..]));
      assert [x[0], x[1], x[2]] + x[3..] == x;
    }
  }

  lemma DecodeNothing()
    ensures DecodeGroups([]) == Bytes([])
  {
  }

  /** A digit or padding: what an encoding is made of. */
  predicate Base64Byte(b: Byte) {
    Value(b) < 64 || b == PAD
  }

  lemma {:induction false} EncodeShape(x: seq<Byte>)
    ensures forall i :: 0 <= i < |Encode(x)| ==> Base64Byte(Encode(x)[i])
    ensures |Encode(x)| == (|x| + 2) / 3 * 4
    decreases |x|
  {
    if x == [] {
    } else if |x| <= 3 {
      forall v | 0 <= v < 64
        ensures Base64Byte(Digit(v))
      {
        ValueDigit(v);
      }
      if |x| == 3 {
        EncodeShape(x[3..]);
      }
    } else {
      forall v | 0 <= v < 64
        ensures Base64Byte(Digit(v))
      {
        ValueDigit(v);
      }
      EncodeShape(x[3..]);
    }
  }

  lemma {:induction false} NoBreaks(s: seq<Byte>)
    requires forall i :: 0 <= i < |s| ==> Base64Byte(s[i])
    ensures WithoutBreaks(s) == s
  {
    if s != [] {
      assert Base64Byte(s[0]);
      NoBreaks(s[1..]);
    }
  }

  lemma {:induction false} DecodeEncode(x: seq<Byte>)
    ensures Decode(Encode(x)) == Bytes(x)
  {
    EncodeShape(x);
    NoBreaks(Encode(x));
    DecodeEncodeGroups(x);
  }

  // ---- the alphabet, and what decodes at all ----

  /** Table 1 of RFC 4648: capitals, small letters and figures in order, then plus and slash. */
  lemma DigitsAre(v: nat)
    requires v < 63
    ensures Digit(0) == 'A' as int && Digit(26) == 'a' as int && Digit(52) == '0' as int
    ensures Digit(25) == 'Z' as int && Digit(51) == 'z' as int && Digit(61) == '9' as int
    ensures Digit(62) == '+' as int && Digit(63) == '/' as int
    ensures v !in {25, 51, 61, 62} ==> Digit(v + 1) == Digit(v) + 1
  {
  }

  /** The first test vectors of section 10 of RFC 4648. */
  lemma Vectors()
    ensures Encode([0x66]) == [0x5a, 0x67, 0x3d, 0x3d]
    ensures Encode([0x66, 0x6f]) == [0x5a, 0x6d, 0x38, 0x3d]
    ensures Encode([0x66, 0x6f, 0x6f]) == [0x5a, 0x6d, 0x39, 0x76]
  {
    assert [0x66, 0x6f, 0x6f][3..] == [];
  }

  lemma {:induction false} BreaksApart(a: seq<Byte>, b: seq<Byte>)
    ensures WithoutBreaks(a + b) == WithoutBreaks(a) + WithoutBreaks(b)
  {
    if a == [] {
      assert a + b == b;
    } else {
      assert (a + b)[1..] == a[1..] + b;
      BreaksApart(a[1..], b);
    }
  }

  /** Carriage returns and line feeds may stand anywhere. */
  lemma BreaksIgnored(a: seq<Byte>, b: seq<Byte>)
    ensures Decode(a + [0x0a] + b) == Decode(a + b) == Decode(a + [0x0d] + b)
  {
    BreaksApart(a, b);
    BreaksApart(a + [0x0a], b);
    BreaksApart(a + [0x0d], b);
    BreaksApart(a, [0x0a]);
    BreaksApart(a, [0x0d]);
    assert [0x0a][1..] == [] == [0x0d][1..];
    assert WithoutBreaks([0x0a]) == [] == WithoutBreaks([0x0d]);
    assert WithoutBreaks(a) + [] == WithoutBreaks(a);
  }

  predicate DigitByte(b: Byte) {
    0x41 <= b <= 0x5a || 0x61 <= b <= 0x7a || 0x30 <= b <= 0x39 || b == 0x2b || b == 0x2f
  }

  /** Groups of four digits, of which the last may end in one or two signs of padding. */
  predicate Grouped(s: seq<Byte>) {
    && |s| % 4 == 0
    && (forall i :: 0 <= i < |s| - 2 ==> DigitByte(s[i]))
    && (s != [] ==>
          var y, z := s[|s| - 2], s[|s| - 1];
          (DigitByte(y) && (DigitByte(z) || z == 0x3d)) || (y == 0x3d && z == 0x3d))
  }

  lemma {:induction false} GroupsDecode(s: seq<Byte>)
    ensures DecodeGroups(s).Bytes? <==> Grouped(s)
    decreases |s|
  {
    if |s| == 4 {
      assert s[4..] == [];
    } else if |s| > 4 {
      var rest := s[4..];
      GroupsDecode(rest);
      assert forall i :: 4 <= i < |s| ==> s[i] == rest[i - 4];
      if Grouped(rest) && DigitByte(s[0]) && DigitByte(s[1]) && DigitByte(s[2]) && DigitByte(s[3]) {
        assert rest != [] && Grouped(s);
      }
      if Grouped(s) {
        assert forall i :: 0 <= i < |rest| ==> rest[i] == s[i + 4];
      }
    }
  }

  /** Without its line breaks, that is what decodes; anything else fails. */
  lemma DecodesIff(s: seq<Byte>)
    ensures Decode(s).Bytes? <==> Grouped(WithoutBreaks(s))
  {
    GroupsDecode(WithoutBreaks(s));
  }
}
