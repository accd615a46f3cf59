/**
 * Base64 as defined in section 4 of RFC 4648 (the alphabet of Table 1, with
 * '=' padding), and the browser's `btoa`, which applies it to a string whose
 * characters are all below U+0100, taking each character as one byte.
 */
module Base64 {
  import opened Wrappers

  type byte = x: int | 0 <= x < 256
  type sextet = x: int | 0 <= x < 64

  const Pad: char := '='

  /** The character for a 6-bit value: A-Z, a-z, 0-9, '+', '/' (RFC 4648, Table 1). */
  function SextetChar(d: sextet): char
  {
    if d < 26 then (('A' as int) + d) as char
    else if d < 52 then (('a' as int) + (d - 26)) as char
    else if d < 62 then (('0' as int) + (d - 52)) as char
    else if d == 62 then '+'
    else '/'
  }

  /** The 6-bit value of an alphabet character; None for any other character. */
  function CharSextet(c: char): Option<sextet>
  {
    if 'A' <= c <= 'Z' then Some((c as int) - ('A' as int))
    else if 'a' <= c <= 'z' then Some((c as int) - ('a' as int) + 26)
    else if '0' <= c <= '9' then Some((c as int) - ('0' as int) + 52)
    else if c == '+' then Some(62)
    else if c == '/' then Some(63)
    else None
  }

  predicate IsAlphabetChar(c: char) {
    CharSextet(c).Some?
  }

  lemma CharSextetInverse(d: sextet)
    ensures CharSextet(SextetChar(d)) == Some(d)
    ensures SextetChar(d) != Pad
  {
  }

  /** Three bytes become four characters. */
  function EncodeTriple(b0: byte, b1: byte, b2: byte): string
  {
    [SextetChar(b0 / 4), SextetChar((b0 % 4) * 16 + b1 / 16),
     SextetChar((b1 % 16) * 4 + b2 / 64), SextetChar(b2 % 64)]
  }

  /** A final single byte becomes two characters and two padding characters. */
  function EncodeSingle(b0: byte): string
  {
    [SextetChar(b0 / 4), SextetChar((b0 % 4) * 16), Pad, Pad]
  }

  /** A final pair of bytes becomes three characters and one padding character. */
  function EncodePair(b0: byte, b1: byte): string
  {
    [SextetChar(b0 / 4), SextetChar((b0 % 4) * 16 + b1 / 16), SextetChar((b1 % 16) * 4), Pad]
  }

  /** The Base64 encoding of a byte sequence, padded to a multiple of four characters. */
  function Encode(b: seq<byte>): string
    decreases |b|
  {
    if |b| == 0 then ""
    else if |b| == 1 then EncodeSingle(b[0])
    else if |b| == 2 then EncodePair(b[0], b[1])
    else EncodeTriple(b[0], b[1], b[2]) + Encode(b[3..])
  }

  /** Four alphabet characters become three bytes. */
  function DecodeQuad(c0: sextet, c1: sextet, c2: sextet, c3: sextet): seq<byte>
  {
    [c0 * 4 + c1 / 16, (c1 % 16) * 16 + c2 / 4, (c2 % 4) * 64 + c3]
  }

  /**
   * Decodes one four-character group, the last of which may carry padding.
   * The spare bits of a padded group must be zero, so only canonical text
   * decodes (section 3.5 of RFC 4648 allows a decoder to insist on this).
   */
  function DecodeGroup(q: string, last: bool): Option<seq<byte>>
    requires |q| == 4
  {
    var s0, s1, s2, s3 := CharSextet(q[0]), CharSextet(q[1]), CharSextet(q[2]), CharSextet(q[3]);
    if s0.None? || s1.None? then None
    else if last && q[2] == Pad && q[3] == Pad then
      (if s1.value % 16 == 0 then Some([s0.value * 4 + s1.value / 16]) else None)
    else if s2.None? then None
    else if last && q[3] == Pad then
      (if s2.value % 4 == 0 then Some([s0.value * 4 + s1.value / 16, (s1.value % 16) * 16 + s2.value / 4]) else None)
    else if s3.None? then None
    else Some(DecodeQuad(s0.value, s1.value, s2.value, s3.value))
  }

  /** The inverse of Encode: None for text that is not padded Base64. */
  function Decode(s: string): Option<seq<byte>>
    decreases |s|
  {
    if |s| == 0 then Some([])
    else if |s| < 4 then None
    else
      match DecodeGroup(s[..4], |s| == 4)
      case None => None
      case Some(g) =>
        match Decode(s[4..])
        case None => None
        case Some(rest) => Some(g + rest)
  }

  /** Every block of up to three bytes becomes four characters. */
  lemma {:induction false} EncodeLength(b: seq<byte>)
    ensures |Encode(b)| == 4 * ((|b| + 2) / 3)
    decreases |b|
  {
    if |b| >= 3 {
      var n := |b| - 3;
      EncodeLength(b[3..]);
      assert |Encode(b)| == 4 + |Encode(b[3..])|;
      assert (n + 3 + 2) / 3 == (n + 2) / 3 + 1;
    }
  }

  lemma SextetAlphabet(d: sextet)
    ensures IsAlphabetChar(SextetChar(d))
  {
    CharSextetInverse(d);
  }

  lemma TripleAlphabet(b0: byte, b1: byte, b2: byte)
    ensures forall i :: 0 <= i < 4 ==> IsAlphabetChar(EncodeTriple(b0, b1, b2)[i])
  {
    SextetAlphabet(b0 / 4);
    SextetAlphabet((b0 % 4) * 16 + b1 / 16);
    SextetAlphabet((b1 % 16) * 4 + b2 / 64);
    SextetAlphabet(b2 % 64);
  }

  /** The output uses only the alphabet and '=' padding, and no padding when |b| is a multiple of 3. */
  lemma {:induction false} EncodeAlphabet(b: seq<byte>)
    ensures forall i :: 0 <= i < |Encode(b)| ==> IsAlphabetChar(Encode(b)[i]) || Encode(b)[i] == Pad
    ensures |b| % 3 == 0 ==> forall i :: 0 <= i < |Encode(b)| ==> IsAlphabetChar(Encode(b)[i])
    decreases |b|
  {
    if |b| == 1 {
      SextetAlphabet(b[0] / 4);
      SextetAlphabet((b[0] % 4) * 16);
    } else if |b| == 2 {
      SextetAlphabet(b[0] / 4);
      SextetAlphabet((b[0] % 4) * 16 + b[1] / 16);
      SextetAlphabet((b[1] % 16) * 4);
    } else if |b| >= 3 {
      var t, rest := EncodeTriple(b[0], b[1], b[2]), Encode(b[3..]);
      EncodeAlphabet(b[3..]);
      TripleAlphabet(b[0], b[1], b[2]);
      var e := Encode(b);
      assert e == t + rest;
      assert |b| % 3 == 0 ==> (|b| - 3) % 3 == 0;
      forall i | 0 <= i < |e|
        ensures IsAlphabetChar(e[i]) || e[i] == Pad
        ensures |b| % 3 == 0 ==> IsAlphabetChar(e[i])
      {
        if i < 4 {
          assert e[i] == t[i];
        } else {
          assert e[i] == rest[i - 4];
        }
      }
    }
  }

  lemma DecodeGroupPadded2(c0: sextet, c1: sextet)
    requires c1 % 16 == 0
    ensures DecodeGroup([SextetChar(c0), SextetChar(c1), Pad, Pad], true) == Some([c0 * 4 + c1 / 16])
  {
    CharSextetInverse(c0);
    CharSextetInverse(c1);
  }

  lemma DecodeGroupPadded1(c0: sextet, c1: sextet, c2: sextet)
    requires c2 % 4 == 0
    ensures DecodeGroup([SextetChar(c0), SextetChar(c1), SextetChar(c2), Pad], true)
         == Some([c0 * 4 + c1 / 16, (c1 % 16) * 16 + c2 / 4])
  {
    CharSextetInverse(c0);
    CharSextetInverse(c1);
    CharSextetInverse(c2);
  }

  lemma DecodeGroupFull(c0: sextet, c1: sextet, c2: sextet, c3: sextet, last: bool)
    ensures DecodeGroup([SextetChar(c0), SextetChar(c1), SextetChar(c2), SextetChar(c3)], last)
         == Some(DecodeQuad(c0, c1, c2, c3))
  {
    CharSextetInverse(c0);
    CharSextetInverse(c1);
    CharSextetInverse(c2);
    CharSextetInverse(c3);
  }

  lemma Split16(q: nat, r: nat)
    requires r < 16
    ensures (q * 16 + r) / 16 == q && (q * 16 + r) % 16 == r
  {
  }

  lemma Split4(q: nat, r: nat)
    requires r < 4
    ensures (q * 4 + r) / 4 == q && (q * 4 + r) % 4 == r
  {
  }

  lemma TripleRoundTrip(b0: byte, b1: byte, b2: byte)
    ensures DecodeQuad(b0 / 4, (b0 % 4) * 16 + b1 / 16, (b1 % 16) * 4 + b2 / 64, b2 % 64) == [b0, b1, b2]
  {
    Split16(b0 % 4, b1 / 16);
    Split4(b1 % 16, b2 / 64);
    assert (b0 / 4) * 4 + b0 % 4 == b0;
    assert (b1 / 16) * 16 + b1 % 16 == b1;
    assert (b2 / 64) * 64 + b2 % 64 == b2;
  }

  /** Text of one group decodes as a final group. */
  lemma DecodeLastGroup(s: string)
    requires |s| == 4
    ensures Decode(s) == DecodeGroup(s, true)
  {
    assert s[..4] == s;
    assert Decode(s[4..]) == Some([]);
    match DecodeGroup(s, true)
    case None =>
    case Some(g) => assert g + [] == g;
  }

  /** A longer text decodes group by group. */
  lemma DecodeFirstGroup(s: string)
    requires |s| > 4
    ensures Decode(s) == match DecodeGroup(s[..4], false)
      case None => None
      case Some(g) => (match Decode(s[4..]) case None => None case Some(rest) => Some(g + rest))
  {
  }

  lemma OneByteSplit(b0: byte)
    ensures (b0 / 4) * 4 + ((b0 % 4) * 16) / 16 == b0
  {
    Split16(b0 % 4, 0);
  }

  lemma TwoByteSplit(b0: byte, b1: byte)
    ensures (b0 / 4) * 4 + ((b0 % 4) * 16 + b1 / 16) / 16 == b0
    ensures (((b0 % 4) * 16 + b1 / 16) % 16) * 16 + ((b1 % 16) * 4) / 4 == b1
  {
    Split16(b0 % 4, b1 / 16);
    Split4(b1 % 16, 0);
    assert (b1 / 16) * 16 + b1 % 16 == b1;
  }

  /** A final group with two padding characters decodes to its one byte. */
  lemma DecodeSingle(b0: byte)
    ensures Decode(EncodeSingle(b0)) == Some([b0])
  {
    var c0: sextet, c1: sextet := b0 / 4, (b0 % 4) * 16;
    Split16(b0 % 4, 0);
    DecodeGroupPadded2(c0, c1);
    OneByteSplit(b0);
    DecodeLastGroup(EncodeSingle(b0));
  }

  /** A final group with one padding character decodes to its two bytes. */
  lemma DecodePair(b0: byte, b1: byte)
    ensures Decode(EncodePair(b0, b1)) == Some([b0, b1])
  {
    var c0: sextet, c1: sextet, c2: sextet := b0 / 4, (b0 % 4) * 16 + b1 / 16, (b1 % 16) * 4;
    Split4(b1 % 16, 0);
    DecodeGroupPadded1(c0, c1, c2);
    TwoByteSplit(b0, b1);
    DecodeLastGroup(EncodePair(b0, b1));
  }

  /** The first full group of an encoding decodes to the first three bytes. */
  lemma DecodeTriple(b: seq<byte>, last: bool)
    requires |b| >= 3
    ensures DecodeGroup(EncodeTriple(b[0], b[1], b[2]), last) == Some(b[..3])
  {
    var c0: sextet, c1: sextet, c2: sextet, c3: sextet :=
      b[0] / 4, (b[0] % 4) * 16 + b[1] / 16, (b[1] % 16) * 4 + b[2] / 64, b[2] % 64;
    TripleRoundTrip(b[0], b[1], b[2]);
    DecodeGroupFull(c0, c1, c2, c3, last);
    assert b[..3] == [b[0], b[1], b[2]];
  }

  /** Decoding an encoding gives back the bytes. */
  lemma {:induction false} DecodeEncode(b: seq<byte>)
    ensures Decode(Encode(b)) == Some(b)
    decreases |b|
  {
    if |b| == 1 {
      DecodeSingle(b[0]);
      assert [b[0]] == b;
    } else if |b| == 2 {
      DecodePair(b[0], b[1]);
      assert [b[0], b[1]] == b;
    } else if |b| >= 3 {
      var e, t, rest := Encode(b), EncodeTriple(b[0], b[1], b[2]), Encode(b[3..]);
      assert e == t + rest;
      assert b == b[..3] + b[3..];
      DecodeTriple(b, rest == []);
      if rest == [] {
        EncodeLength(b[3..]);
        assert b[3..] == [];
        DecodeLastGroup(e);
      } else {
        DecodeFirstGroup(e);
        assert e[..4] == t && e[4..] == rest;
        DecodeEncode(b[3..]);
      }
    }
  }

  lemma SextetCharInverse(c: char)
    requires IsAlphabetChar(c)
    ensures SextetChar(CharSextet(c).value) == c
  {
  }

  lemma Split64(q: nat, r: nat)
    requires r < 64
    ensures (q * 64 + r) / 64 == q && (q * 64 + r) % 64 == r
  {
  }

  /** The three bytes of a full group encode back to its four sextets. */
  lemma QuadEncodesBack(c0: sextet, c1: sextet, c2: sextet, c3: sextet)
    ensures var b := DecodeQuad(c0, c1, c2, c3);
      EncodeTriple(b[0], b[1], b[2]) == [SextetChar(c0), SextetChar(c1), SextetChar(c2), SextetChar(c3)]
  {
    var x: byte, y: byte, z: byte := c0 * 4 + c1 / 16, (c1 % 16) * 16 + c2 / 4, (c2 % 4) * 64 + c3;
    assert DecodeQuad(c0, c1, c2, c3) == [x, y, z];
    Split4(c0, c1 / 16);
    Split16(c1 % 16, c2 / 4);
    Split64(c2 % 4, c3);
    assert (x % 4) * 16 + y / 16 == c1 by {
      assert (c1 / 16) * 16 + c1 % 16 == c1;
    }
    assert (y % 16) * 4 + z / 64 == c2 by {
      assert (c2 / 4) * 4 + c2 % 4 == c2;
    }
    assert EncodeTriple(x, y, z) == [SextetChar(x / 4), SextetChar((x % 4) * 16 + y / 16),
                                     SextetChar((y % 16) * 4 + z / 64), SextetChar(z % 64)];
  }

  /** The byte of a group with two padding characters and zero spare bits encodes back to it. */
  lemma SingleEncodesBack(c0: sextet, c1: sextet)
    requires c1 % 16 == 0
    ensures EncodeSingle(c0 * 4 + c1 / 16) == [SextetChar(c0), SextetChar(c1), Pad, Pad]
  {
    Split4(c0, c1 / 16);
    assert (c1 / 16) * 16 + c1 % 16 == c1;
  }

  /** The two bytes of a group with one padding character and zero spare bits encode back to it. */
  lemma PairEncodesBack(c0: sextet, c1: sextet, c2: sextet)
    requires c2 % 4 == 0
    ensures EncodePair(c0 * 4 + c1 / 16, (c1 % 16) * 16 + c2 / 4) == [SextetChar(c0), SextetChar(c1), SextetChar(c2), Pad]
  {
    Split4(c0, c1 / 16);
    Split16(c1 % 16, c2 / 4);
    assert (c1 / 16) * 16 + c1 % 16 == c1;
    assert (c2 / 4) * 4 + c2 % 4 == c2;
  }

  /**
   * A group that decodes gives one to three bytes (three unless it is the last
   * group), and those bytes encode back to the group.
   */
  lemma GroupEncodesBack(q: string, last: bool)
    requires |q| == 4 && DecodeGroup(q, last).Some?
    ensures var g := DecodeGroup(q, last).value;
      && 1 <= |g| <= 3 && (!last ==> |g| == 3)
      && (|g| == 1 ==> EncodeSingle(g[0]) == q)
      && (|g| == 2 ==> EncodePair(g[0], g[1]) == q)
      && (|g| == 3 ==> EncodeTriple(g[0], g[1], g[2]) == q)
  {
    var c0, c1 := CharSextet(q[0]).value, CharSextet(q[1]).value;
    SextetCharInverse(q[0]);
    SextetCharInverse(q[1]);
    if last && q[2] == Pad && q[3] == Pad {
      SingleEncodesBack(c0, c1);
    } else {
      var c2 := CharSextet(q[2]).value;
      SextetCharInverse(q[2]);
      if last && q[3] == Pad {
        PairEncodesBack(c0, c1, c2);
      } else {
        var c3 := CharSextet(q[3]).value;
        SextetCharInverse(q[3]);
        QuadEncodesBack(c0, c1, c2, c3);
      }
    }
  }

  /** Text that decodes is the encoding of what it decodes to: no other text decodes to those bytes. */
  lemma {:induction false} EncodeDecode(s: string)
    requires Decode(s).Some?
    ensures Encode(Decode(s).value) == s
    decreases |s|
  {
    if |s| >= 4 {
      var q, b := s[..4], Decode(s).value;
      var g := DecodeGroup(q, |s| == 4).value;
      var rest := Decode(s[4..]).value;
      assert b == g + rest;
      GroupEncodesBack(q, |s| == 4);
      if |s| == 4 {
        assert rest == [];
        assert b == g;
        if |g| == 3 {
          assert b[3..] == [];
        }
      } else {
        EncodeDecode(s[4..]);
        var q2 := s[4..][..4];
        assert |s[4..]| >= 4 && DecodeGroup(s[4..][..4], |s[4..]| == 4).Some?;
        GroupEncodesBack(q2, |s[4..]| == 4);
        assert |rest| >= 1;
        assert b[..3] == g && b[3..] == rest;
        assert s == q + s[4..];
      }
    }
  }

  /** Exactly one text decodes to given bytes: their encoding. */
  lemma DecodeExactlyEncodings(s: string, b: seq<byte>)
    ensures Decode(s) == Some(b) <==> s == Encode(b)
  {
    DecodeEncode(b);
    if Decode(s) == Some(b) {
      EncodeDecode(s);
    }
  }

  /** Every character of s fits in one byte (is below U+0100). */
  predicate IsLatin1(s: string) {
    forall i :: 0 <= i < |s| ==> (s[i] as int) < 256
  }

  /** The bytes btoa reads from a Latin-1 string: one per character, its code point. */
  function Latin1Bytes(s: string): (b: seq<byte>)
    requires IsLatin1(s)
    ensures |b| == |s| && forall i :: 0 <= i < |s| ==> b[i] == s[i] as int
  {
    if s == [] then [] else [s[0] as int as byte] + Latin1Bytes(s[1..])
  }

  /** btoa(s): None where btoa throws InvalidCharacterError (a character above U+00FF). */
  function Btoa(s: string): (r: Option<string>)
    ensures r.Some? <==> IsLatin1(s)
    ensures r.Some? ==> Decode(r.value) == Some(Latin1Bytes(s))
  {
    if IsLatin1(s) then
      DecodeEncode(Latin1Bytes(s));
      Some(Encode(Latin1Bytes(s)))
    else None
  }
}
