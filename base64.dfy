/** Base64 as defined in section 4 of RFC 4648: the standard alphabet
    `A-Z a-z 0-9 + /`, each group of three bytes written as four characters,
    and a final group of one or two bytes padded with `=`. This is what
    Python's `base64.b64encode` produces. */
module Base64 {
  import opened Wrappers

  type byte = x: int | 0 <= x < 256
  type sextet = x: int | 0 <= x < 64

  /** The character that stands for a six-bit value (Table 1 of RFC 4648). */
  function CharOf(i: sextet): (c: char)
    ensures IsBase64Char(c)
  {
    if i < 26 then ('A' as int + i) as char
    else if i < 52 then ('a' as int + (i - 26)) as char
    else if i < 62 then ('0' as int + (i - 52)) as char
    else if i == 62 then '+'
    else '/'
  }

  predicate IsBase64Char(c: char) {
    ('A' <= c <= 'Z') || ('a' <= c <= 'z') || ('0' <= c <= '9') || c == '+' || c == '/'
  }

  /** The value an alphabet character stands for. */
  function IndexOf(c: char): (i: sextet)
    requires IsBase64Char(c)
    ensures CharOf(i) == c
  {
    if 'A' <= c <= 'Z' then c as int - 'A' as int
    else if 'a' <= c <= 'z' then c as int - 'a' as int + 26
    else if '0' <= c <= '9' then c as int - '0' as int + 52
    else if c == '+' then 62
    else 63
  }

  /** Distinct values have distinct characters. */
  lemma IndexOfCharOf(i: sextet)
    ensures IndexOf(CharOf(i)) == i
  {
    if i < 26 {
    } else if i < 52 {
    } else if i < 62 {
    }
  }

  /** A full group of three bytes. */
  function EncodeBlock(b0: byte, b1: byte, b2: byte): (q: string)
    ensures |q| == 4 && forall k :: 0 <= k < 4 ==> IsBase64Char(q[k])
  {
    [CharOf(b0 / 4), CharOf((b0 % 4) * 16 + b1 / 16), CharOf((b1 % 16) * 4 + b2 / 64), CharOf(b2 % 64)]
  }

  /** The encoding of `b`: full groups, then the padded remainder. */
  function Encode(b: seq<byte>): (r: string)
    ensures |r| == (|b| + 2) / 3 * 4
    ensures forall k :: 0 <= k < |r| ==> IsBase64Char(r[k]) || r[k] == '='
  {
    if |b| == 0 then ""
    else if |b| <= 2 then EncodeLast(b)
    else EncodeBlock(b[0], b[1], b[2]) + Encode(b[3..])
  }

  /** A final group of one or two bytes, padded to four characters. */
  function EncodeLast(b: seq<byte>): (q: string)
    requires 1 <= |b| <= 2
    ensures |q| == 4 && forall k :: 0 <= k < 4 ==> IsBase64Char(q[k]) || q[k] == '='
  {
    if |b| == 1 then [CharOf(b[0] / 4), CharOf((b[0] % 4) * 16), '=', '=']
    else [CharOf(b[0] / 4), CharOf((b[0] % 4) * 16 + b[1] / 16), CharOf((b[1] % 16) * 4), '=']
  }

  /** One four-character group; `last` says whether it ends the text, the
      only place padding may appear. Bits that padding leaves unused must be
      zero, so every byte string has exactly one encoding. */
  function DecodeQuad(q: string, last: bool): Option<seq<byte>>
    requires |q| == 4
  {
    if IsBase64Char(q[0]) && IsBase64Char(q[1]) && IsBase64Char(q[2]) && IsBase64Char(q[3]) then
      var c0, c1, c2, c3 := IndexOf(q[0]), IndexOf(q[1]), IndexOf(q[2]), IndexOf(q[3]);
      Some([Byte0(c0, c1), Byte1(c1, c2), Byte2(c2, c3)])
    else if last && IsBase64Char(q[0]) && IsBase64Char(q[1]) && IsBase64Char(q[2]) && q[3] == '='
            && IndexOf(q[2]) % 4 == 0 then
      var c0, c1, c2 := IndexOf(q[0]), IndexOf(q[1]), IndexOf(q[2]);
      Some([Byte0(c0, c1), Byte1(c1, c2)])
    else if last && IsBase64Char(q[0]) && IsBase64Char(q[1]) && q[2] == '=' && q[3] == '='
            && IndexOf(q[1]) % 16 == 0 then
      var c0, c1 := IndexOf(q[0]), IndexOf(q[1]);
      Some([Byte0(c0, c1)])
    else None
  }

  // The three bytes a group of sextets c0 c1 c2 c3 stands for.

  function Byte0(c0: sextet, c1: sextet): byte { c0 * 4 + c1 / 16 }
  function Byte1(c1: sextet, c2: sextet): byte { (c1 % 16) * 16 + c2 / 4 }
  function Byte2(c2: sextet, c3: sextet): byte { (c2 % 4) * 64 + c3 }

  /** Canonical decoding: `None` for any text that `Encode` cannot produce. */
  function Decode(s: string): Option<seq<byte>>
  {
    if |s| == 0 then Some([])
    else if |s| < 4 then None
    else match DecodeQuad(s[..4], |s| == 4)
      case None => None
      case Some(head) =>
        match Decode(s[4..])
        case None => None
        case Some(tail) => Some(head + tail)
  }

  // Splitting a number into high and low parts, for the three group sizes used.

  lemma Pack4(hi: int, lo: int)
    requires 0 <= lo < 4
    ensures (hi * 4 + lo) / 4 == hi && (hi * 4 + lo) % 4 == lo
  {
  }

  lemma Pack16(hi: int, lo: int)
    requires 0 <= lo < 16
    ensures (hi * 16 + lo) / 16 == hi && (hi * 16 + lo) % 16 == lo
  {
  }

  lemma Pack64(hi: int, lo: int)
    requires 0 <= lo < 64
    ensures (hi * 64 + lo) / 64 == hi && (hi * 64 + lo) % 64 == lo
  {
  }

  /** The sextets of a group put back together give its bytes. */
  lemma BlockArith(b0: byte, b1: byte, b2: byte)
    ensures Byte0(b0 / 4, (b0 % 4) * 16 + b1 / 16) == b0
    ensures Byte1((b0 % 4) * 16 + b1 / 16, (b1 % 16) * 4 + b2 / 64) == b1
    ensures Byte2((b1 % 16) * 4 + b2 / 64, b2 % 64) == b2
  {
    Pack16(b0 % 4, b1 / 16);
    Pack4(b1 % 16, b2 / 64);
  }

  /** Decoding four alphabet characters, or three and one pad, or two and two pads. */
  lemma DecodeChars(c0: sextet, c1: sextet, c2: sextet, c3: sextet, last: bool)
    ensures DecodeQuad([CharOf(c0), CharOf(c1), CharOf(c2), CharOf(c3)], last)
         == Some([Byte0(c0, c1), Byte1(c1, c2), Byte2(c2, c3)])
  {
    IndexOfCharOf(c0);
    IndexOfCharOf(c1);
    IndexOfCharOf(c2);
    IndexOfCharOf(c3);
  }

  lemma DecodeCharsOnePad(c0: sextet, c1: sextet, c2: sextet)
    requires c2 % 4 == 0
    ensures DecodeQuad([CharOf(c0), CharOf(c1), CharOf(c2), '='], true) == Some([Byte0(c0, c1), Byte1(c1, c2)])
  {
    IndexOfCharOf(c0);
    IndexOfCharOf(c1);
    IndexOfCharOf(c2);
  }

  lemma DecodeCharsTwoPads(c0: sextet, c1: sextet)
    requires c1 % 16 == 0
    ensures DecodeQuad([CharOf(c0), CharOf(c1), '=', '='], true) == Some([Byte0(c0, c1)])
  {
    IndexOfCharOf(c0);
    IndexOfCharOf(c1);
  }

  lemma BlockRoundTrip(b0: byte, b1: byte, b2: byte)
    ensures DecodeQuad(EncodeBlock(b0, b1, b2), false) == Some([b0, b1, b2])
    ensures DecodeQuad(EncodeBlock(b0, b1, b2), true) == Some([b0, b1, b2])
  {
    var c0, c1, c2, c3 := b0 / 4, (b0 % 4) * 16 + b1 / 16, (b1 % 16) * 4 + b2 / 64, b2 % 64;
    DecodeChars(c0, c1, c2, c3, false);
    DecodeChars(c0, c1, c2, c3, true);
    BlockArith(b0, b1, b2);
  }

  /** The sextets of a final pair of bytes put back together give the pair. */
  lemma PairArith(b: seq<byte>)
    requires |b| == 2
    ensures var c0, c1, c2 := b[0] / 4, (b[0] % 4) * 16 + b[1] / 16, (b[1] % 16) * 4;
            [Byte0(c0, c1), Byte1(c1, c2)] == b
  {
    Pack16(b[0] % 4, b[1] / 16);
    Pack4(b[1] % 16, 0);
    assert b == [b[0], b[1]];
  }

  /** The sextets of a final single byte put back together give the byte. */
  lemma SingleArith(b: seq<byte>)
    requires |b| == 1
    ensures [Byte0(b[0] / 4, (b[0] % 4) * 16)] == b
  {
    Pack16(b[0] % 4, 0);
    assert b == [b[0]];
  }

  lemma OneByteRoundTrip(b: seq<byte>)
    requires |b| == 1
    ensures DecodeQuad(Encode(b), true) == Some(b)
  {
    DecodeCharsTwoPads(b[0] / 4, (b[0] % 4) * 16);
    SingleArith(b);
  }

  lemma TwoBytesRoundTrip(b: seq<byte>)
    requires |b| == 2
    ensures DecodeQuad(Encode(b), true) == Some(b)
  {
    DecodeCharsOnePad(b[0] / 4, (b[0] % 4) * 16 + b[1] / 16, (b[1] % 16) * 4);
    PairArith(b);
  }

  /** Decoding a group followed by more text. */
  lemma DecodeCons(q: string, rest: string)
    requires |q| == 4
    ensures Decode(q + rest)
         == match DecodeQuad(q, rest == [])
            case None => None
            case Some(head) =>
              match Decode(rest)
              case None => None
              case Some(tail) => Some(head + tail)
  {
    var s := q + rest;
    assert s[..4] == q;
    assert s[4..] == rest;
  }

  /** A last group of one or two bytes decodes back. */
  lemma ShortRoundTrip(b: seq<byte>)
    requires 1 <= |b| <= 2
    ensures Decode(Encode(b)) == Some(b)
  {
    var s := Encode(b);
    if |b| == 1 {
      OneByteRoundTrip(b);
    } else {
      TwoBytesRoundTrip(b);
    }
    DecodeCons(s, []);
    assert s + [] == s;
    assert b + [] == b;
  }

  /** Decoding undoes encoding. */
  lemma {:induction false} DecodeEncode(b: seq<byte>)
    ensures Decode(Encode(b)) == Some(b)
  {
    if 1 <= |b| <= 2 {
      ShortRoundTrip(b);
    } else if |b| >= 3 {
      var q, rest := EncodeBlock(b[0], b[1], b[2]), Encode(b[3..]);
      assert Encode(b) == q + rest;
      BlockRoundTrip(b[0], b[1], b[2]);
      assert DecodeQuad(q, rest == []) == Some([b[0], b[1], b[2]]);
      DecodeEncode(b[3..]);
      DecodeCons(q, rest);
      assert Decode(q + rest) == Some([b[0], b[1], b[2]] + b[3..]);
      SplitThree(b);
    }
  }

  lemma SplitThree(b: seq<byte>)
    requires |b| >= 3
    ensures [b[0], b[1], b[2]] + b[3..] == b
  {
    assert b[..3] == [b[0], b[1], b[2]];
    assert b[..3] + b[3..] == b;
  }

  /** Every text that decodes is the encoding of what it decodes to. */
  lemma {:induction false} EncodeDecode(s: string)
    requires Decode(s).Some?
    ensures Encode(Decode(s).value) == s
  {
    if |s| > 0 {
      var q := s[..4];
      var head := DecodeQuad(q, |s| == 4).value;
      var tail := Decode(s[4..]).value;
      EncodeDecode(s[4..]);
      QuadEncodes(q, |s| == 4);
      if |head| < 3 {
        assert |s| == 4;
        assert s[4..] == [] && tail == [];
        assert head + tail == head;
        assert s == q;
      } else {
        assert (head + tail)[3..] == tail;
        assert s == q + s[4..];
      }
    }
  }

  /** The bytes of a group split back into its sextets. */
  lemma QuadArith(c0: sextet, c1: sextet, c2: sextet, c3: sextet)
    ensures var b0, b1, b2 := Byte0(c0, c1), Byte1(c1, c2), Byte2(c2, c3);
            && b0 / 4 == c0 && (b0 % 4) * 16 + b1 / 16 == c1
            && (b1 % 16) * 4 + b2 / 64 == c2 && b2 % 64 == c3
  {
    Pack4(c0, c1 / 16);
    Pack16(c1 % 16, c2 / 4);
    Pack64(c2 % 4, c3);
  }

  /** Re-encoding the bytes of a group gives back its sextets. */
  lemma SextetsEncode(c0: sextet, c1: sextet, c2: sextet, c3: sextet)
    ensures EncodeBlock(Byte0(c0, c1), Byte1(c1, c2), Byte2(c2, c3))
         == [CharOf(c0), CharOf(c1), CharOf(c2), CharOf(c3)]
  {
    QuadArith(c0, c1, c2, c3);
  }

  lemma SextetsEncodeOnePad(c0: sextet, c1: sextet, c2: sextet)
    requires c2 % 4 == 0
    ensures Encode([Byte0(c0, c1), Byte1(c1, c2)]) == [CharOf(c0), CharOf(c1), CharOf(c2), '=']
  {
    QuadArith(c0, c1, c2, 0);
  }

  lemma SextetsEncodeTwoPads(c0: sextet, c1: sextet)
    requires c1 % 16 == 0
    ensures Encode([Byte0(c0, c1)]) == [CharOf(c0), CharOf(c1), '=', '=']
  {
    QuadArith(c0, c1, 0, 0);
  }

  lemma FullQuadEncodes(q: string, last: bool)
    requires |q| == 4 && IsBase64Char(q[0]) && IsBase64Char(q[1]) && IsBase64Char(q[2]) && IsBase64Char(q[3])
    ensures var h := DecodeQuad(q, last).value;
            |h| == 3 && EncodeBlock(h[0], h[1], h[2]) == q
  {
    var c0, c1, c2, c3 := IndexOf(q[0]), IndexOf(q[1]), IndexOf(q[2]), IndexOf(q[3]);
    SextetsEncode(c0, c1, c2, c3);
    CharsOfIndices(q);
  }

  lemma CharsOfIndices(q: string)
    requires |q| == 4 && IsBase64Char(q[0]) && IsBase64Char(q[1]) && IsBase64Char(q[2]) && IsBase64Char(q[3])
    ensures [CharOf(IndexOf(q[0])), CharOf(IndexOf(q[1])), CharOf(IndexOf(q[2])), CharOf(IndexOf(q[3]))] == q
  {
    assert q == [q[0], q[1], q[2], q[3]];
  }

  lemma OnePadEncodes(q: string)
    requires |q| == 4 && IsBase64Char(q[0]) && IsBase64Char(q[1]) && IsBase64Char(q[2]) && q[3] == '='
    requires IndexOf(q[2]) % 4 == 0
    ensures var h := DecodeQuad(q, true).value;
            |h| == 2 && Encode(h) == q
  {
    SextetsEncodeOnePad(IndexOf(q[0]), IndexOf(q[1]), IndexOf(q[2]));
    assert q == [q[0], q[1], q[2], q[3]];
  }

  lemma TwoPadsEncode(q: string)
    requires |q| == 4 && IsBase64Char(q[0]) && IsBase64Char(q[1]) && q[2] == '=' && q[3] == '='
    requires IndexOf(q[1]) % 16 == 0
    ensures var h := DecodeQuad(q, true).value;
            |h| == 1 && Encode(h) == q
  {
    SextetsEncodeTwoPads(IndexOf(q[0]), IndexOf(q[1]));
    assert q == [q[0], q[1], q[2], q[3]];
  }

  /** A decoded group encodes back to itself; only the last group can be short. */
  lemma QuadEncodes(q: string, last: bool)
    requires |q| == 4 && DecodeQuad(q, last).Some?
    ensures var h := DecodeQuad(q, last).value;
            && 1 <= |h| <= 3
            && (|h| < 3 ==> last)
            && (|h| == 3 ==> EncodeBlock(h[0], h[1], h[2]) == q)
            && (|h| < 3 ==> Encode(h) == q)
  {
    if IsBase64Char(q[0]) && IsBase64Char(q[1]) && IsBase64Char(q[2]) && IsBase64Char(q[3]) {
      FullQuadEncodes(q, last);
    } else if IsBase64Char(q[2]) {
      OnePadEncodes(q);
    } else {
      TwoPadsEncode(q);
    }
  }

  /** Encoded text never holds a comma, the delimiter of a data URL. */
  lemma EncodeHasNoComma(b: seq<byte>)
    ensures forall k :: 0 <= k < |Encode(b)| ==> Encode(b)[k] != ','
  {
  }
}
