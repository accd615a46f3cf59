/**
 * Generation of the OAuth consumer key and consumer secret of the Connected
 * App. The platform's random source (crypto.getRandomValues) is an input here:
 * a sequence of random bytes for the key and of random 32-bit words for the
 * secret, consumed in order.
 */
module Credentials {
  import opened DecimalText
  import opened Strings
  import opened Base64
  import opened Wrappers

  type uint32 = x: int | 0 <= x < 0x1_0000_0000

  /** Number of random bytes behind a consumer key. */
  const KeyBytes: nat := 24

  /** Smallest accepted draw for one half of the secret: the smallest 10-digit number. */
  const Threshold: nat := 1000000000

  // ---------------------------------------------------------------------------
  // Consumer key
  // ---------------------------------------------------------------------------

  /** The decimal texts of a byte array's elements. */
  function DecimalTexts(a: seq<byte>): (r: seq<string>)
    ensures |r| == |a| && forall i :: 0 <= i < |a| ==> r[i] == NatToString(a[i])
  {
    if a == [] then [] else [NatToString(a[0])] + DecimalTexts(a[1..])
  }

  /** Uint8Array.prototype.toString: the elements in decimal, joined by commas. */
  function ByteArrayText(a: seq<byte>): string {
    Join(DecimalTexts(a), ",")
  }

  /** A byte is written with one to three digits. */
  lemma ByteTextLength(x: byte)
    ensures 1 <= |NatToString(x)| <= 3
    ensures AllDigits(NatToString(x))
  {
    NatToStringShape(x);
    assert Pow10(1) == 10 && Pow10(2) == 100 && Pow10(3) == 1000;
    if x < 10 {
    } else if x < 100 {
      NatToStringLength(x, 2);
    } else {
      NatToStringLength(x, 3);
    }
  }

  /** The text of n bytes has n - 1 commas and one to three digits per byte. */
  lemma {:induction false} ByteArrayTextShape(a: seq<byte>)
    requires |a| >= 1
    ensures 2 * |a| - 1 <= |ByteArrayText(a)| <= 4 * |a| - 1
    ensures forall i :: 0 <= i < |ByteArrayText(a)| ==>
      IsDigit(ByteArrayText(a)[i]) || ByteArrayText(a)[i] == ','
    decreases |a|
  {
    ByteTextLength(a[0]);
    var head := NatToString(a[0]);
    if |a| > 1 {
      ByteArrayTextShape(a[1..]);
      assert DecimalTexts(a)[1..] == DecimalTexts(a[1..]);
      assert ByteArrayText(a) == head + "," + ByteArrayText(a[1..]);
    } else {
      assert ByteArrayText(a) == head;
    }
  }

  /** Digits and commas are all below U+0100, so btoa accepts the text. */
  lemma ByteArrayTextLatin1(a: seq<byte>)
    requires |a| >= 1
    ensures IsLatin1(ByteArrayText(a))
  {
    ByteArrayTextShape(a);
  }

  /**
   * The consumer key made from 24 random bytes: btoa applied to the array's
   * comma-joined decimal text (not to the bytes themselves). That text has
   * 47 to 95 characters, so the key has 64 to 128.
   */
  function ConsumerKey(bytes: seq<byte>): (key: string)
    requires |bytes| == KeyBytes
    ensures 64 <= |key| <= 128
    ensures IsLatin1(ByteArrayText(bytes)) && Decode(key) == Some(Latin1Bytes(ByteArrayText(bytes)))
  {
    var text := ByteArrayText(bytes);
    ByteArrayTextLatin1(bytes);
    ByteArrayTextShape(bytes);
    EncodeLength(Latin1Bytes(text));
    PaddedLength(|text|);
    Btoa(text).value
  }

  /** Base64 length arithmetic for a text of 47 to 95 characters. */
  lemma PaddedLength(n: nat)
    requires 47 <= n <= 95
    ensures 64 <= 4 * ((n + 2) / 3) <= 128
  {
  }

  /** crypto.getRandomValues on a byte array: fills it with the next random bytes. */
  method FillRandomBytes(ary: array<byte>, source: seq<byte>)
    requires |source| >= ary.Length
    modifies ary
    ensures ary[..] == source[..ary.Length]
  {
    forall i | 0 <= i < ary.Length {
      ary[i] := source[i];
    }
  }

  /** Draws 24 random bytes into a fresh array and Base64-encodes its text. */
  method GenerateConsumerKey(source: seq<byte>) returns (key: string)
    requires |source| >= KeyBytes
    ensures key == ConsumerKey(source[..KeyBytes])
    ensures 64 <= |key| <= 128
  {
    var ary := new byte[KeyBytes];
    FillRandomBytes(ary, source);
    var text := ByteArrayText(ary[..]);
    ByteArrayTextLatin1(ary[..]);
    key := Btoa(text).value;
  }

  // ---------------------------------------------------------------------------
  // Consumer secret
  // ---------------------------------------------------------------------------

  /** Some draw at index `from` or later is accepted. */
  predicate HasAcceptedFrom(draws: seq<uint32>, from: nat) {
    exists j :: from <= j < |draws| && draws[j] >= Threshold
  }

  /** The index of the first accepted draw at `from` or later: rejection sampling. */
  function FirstAccepted(draws: seq<uint32>, from: nat): (k: nat)
    requires HasAcceptedFrom(draws, from)
    ensures from <= k < |draws| && draws[k] >= Threshold
    ensures forall i :: from <= i < k ==> draws[i] < Threshold
    decreases |draws| - from
  {
    if draws[from] >= Threshold then from else FirstAccepted(draws, from + 1)
  }

  /** Two draws are accepted, so both halves of the secret can be drawn. */
  predicate HasTwoAccepted(draws: seq<uint32>) {
    exists i, j :: 0 <= i < j < |draws| && draws[i] >= Threshold && draws[j] >= Threshold
  }

  /** After the first accepted draw another one follows. */
  lemma SecondAcceptedExists(draws: seq<uint32>)
    requires HasTwoAccepted(draws)
    ensures HasAcceptedFrom(draws, 0)
    ensures HasAcceptedFrom(draws, FirstAccepted(draws, 0) + 1)
  {
    var i, j :| 0 <= i < j < |draws| && draws[i] >= Threshold && draws[j] >= Threshold;
    var k := FirstAccepted(draws, 0);
    assert k <= i;
    assert k + 1 <= j;
  }

  /** An accepted draw always has exactly ten digits, the first not a zero. */
  lemma AcceptedText(x: uint32)
    requires x >= Threshold
    ensures |NatToString(x)| == 10 && AllDigits(NatToString(x))
    ensures NatToString(x)[0] != '0'
  {
    assert Pow10(9) == Threshold;
    assert Pow10(10) == 10 * Threshold;
    NatToStringLength(x, 10);
    NatToStringShape(x);
  }

  /** The secret: the decimal texts of the first two accepted draws, concatenated. */
  function ConsumerSecret(draws: seq<uint32>): (secret: string)
    requires HasTwoAccepted(draws)
    ensures |secret| == 20 && AllDigits(secret)
  {
    SecondAcceptedExists(draws);
    var i := FirstAccepted(draws, 0);
    var j := FirstAccepted(draws, i + 1);
    AcceptedText(draws[i]);
    AcceptedText(draws[j]);
    NatToString(draws[i]) + NatToString(draws[j])
  }

  /**
   * The twenty digits of the secret split into two ten-digit halves, neither
   * with a leading zero, which read back as the two accepted draws in order.
   */
  lemma ConsumerSecretHalves(draws: seq<uint32>)
    requires HasTwoAccepted(draws)
    ensures ConsumerSecret(draws)[0] != '0' && ConsumerSecret(draws)[10] != '0'
    ensures ParseDecimal(ConsumerSecret(draws)[..10]) == draws[FirstAccepted(draws, 0)]
    ensures ParseDecimal(ConsumerSecret(draws)[10..])
         == draws[FirstAccepted(draws, FirstAccepted(draws, 0) + 1)]
  {
    SecondAcceptedExists(draws);
    var i := FirstAccepted(draws, 0);
    var j := FirstAccepted(draws, i + 1);
    var a, b := NatToString(draws[i]), NatToString(draws[j]);
    AcceptedText(draws[i]);
    AcceptedText(draws[j]);
    ParseNatToString(draws[i]);
    ParseNatToString(draws[j]);
    var s := ConsumerSecret(draws);
    assert s == a + b;
    assert s[..10] == a && s[10..] == b;
  }

  /**
   * One half of the secret (the inner `rnd`): refills a one-word array with
   * the next draw until the word is at least 10^9, then prints it.
   * Returns the text and the index of the next unused draw.
   */
  method DrawHalf(draws: seq<uint32>, from: nat) returns (text: string, next: nat)
    requires HasAcceptedFrom(draws, from)
    ensures next == FirstAccepted(draws, from) + 1
    ensures text == NatToString(draws[next - 1])
    ensures |text| == 10 && AllDigits(text)
  {
    var ary := new uint32[1];
    var i := from;
    while true
      invariant from <= i <= FirstAccepted(draws, from)
      decreases FirstAccepted(draws, from) - i
    {
      ary[0] := draws[i];
      i := i + 1;
      if ary[0] >= Threshold {
        break;
      }
    }
    AcceptedText(ary[0]);
    text, next := NatToString(ary[0]), i;
  }

  /** Draws both halves in order and concatenates them. */
  method GenerateConsumerSecret(draws: seq<uint32>) returns (secret: string, next: nat)
    requires HasTwoAccepted(draws)
    ensures secret == ConsumerSecret(draws)
    ensures next == FirstAccepted(draws, FirstAccepted(draws, 0) + 1) + 1
    ensures |secret| == 20 && AllDigits(secret)
  {
    SecondAcceptedExists(draws);
    var first, mid := DrawHalf(draws, 0);
    var second;
    second, next := DrawHalf(draws, mid);
    secret := first + second;
  }
}
