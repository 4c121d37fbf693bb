/** Variable byte integers, section 1.5.5 of MQTT 5.0. */
module Varint {
  import opened Base

  const MAX_VARINT := 268435455

  /** `varint_len`; larger values panic in the source. */
  function VarintLen(n: nat): nat
    requires n <= MAX_VARINT
  {
    if n <= 127 then 1
    else if n <= 16383 then 2
    else if n <= 2097151 then 3
    else 4
  }

  /** What `write_varint` emits with `left` rounds to go: seven bits a byte, the top bit set while more follow. */
  function EncodeRounds(n: nat, left: nat): Bytes
    decreases left, n
  {
    if left == 0 then []
    else if n < 128 then [n]
    else [n % 128 + 128] + EncodeRounds(n / 128, left - 1)
  }

  function EncodeVarint(n: nat): Bytes {
    EncodeRounds(n, 4)
  }

  datatype VarintRead = Value(n: nat, used: nat) | Short | Malformed

  /** The three decoders share this loop body: byte `i` weighs `128^i`, a fourth continuation bit is malformed. */
  function DecodeFrom(bytes: Bytes, i: nat, acc: nat, weight: nat): VarintRead
    requires i <= 3
    decreases |bytes| - i
  {
    if |bytes| <= i then Short
    else
      var sum := acc + bytes[i] % 128 * weight;
      if bytes[i] < 128 then Value(sum, i + 1)
      else if i == 3 then Malformed
      else DecodeFrom(bytes, i + 1, sum, weight * 128)
  }

  function DecodeVarint(bytes: Bytes): VarintRead {
    DecodeFrom(bytes, 0, 0, 1)
  }

  /** `MqttDecoder::read_len`, `MqttDecoder::read_varint` and `PropertiesIter::read_varint` on the unread bytes. */
  method ReadVarint(bytes: Bytes) returns (r: VarintRead)
    ensures r == DecodeVarint(bytes)
  {
    var integer: nat, weight: nat, i: nat := 0, 1, 0;
    while i < |bytes| && i < 4
      invariant i <= 3 && DecodeVarint(bytes) == DecodeFrom(bytes, i, integer, weight)
      decreases 4 - i
    {
      integer := integer + bytes[i] % 128 * weight;
      if bytes[i] < 128 { return Value(integer, i + 1); }
      if i == 3 { return Malformed; }
      weight, i := weight * 128, i + 1;
    }
    r := Short;
  }

  lemma EncodeRound(out: Bytes, n: nat, left: nat)
    requires left > 0
    ensures n < 128 <==> n / 128 == 0
    ensures n < 128 ==> out + EncodeRounds(n, left) == out + [n % 128]
    ensures n >= 128 ==> out + EncodeRounds(n, left) == out + [n % 128 + 128] + EncodeRounds(n / 128, left - 1)
  {
  }

  /** `MqttEncoder::write_varint`, collected into a sequence. */
  method WriteVarint(len: nat) returns (out: Bytes)
    ensures out == EncodeVarint(len)
  {
    var n := len;
    out := [];
    for i := 0 to 4
      invariant out + EncodeRounds(n, 4 - i) == EncodeVarint(len)
    {
      EncodeRound(out, n, 4 - i);
      var b := n % 128;
      n := n / 128;
      if n > 0 { b := b + 128; }
      out := out + [b];
      if n == 0 { return; }
    }
  }

  lemma EncodedLength(n: nat)
    requires n <= MAX_VARINT
    ensures |EncodeVarint(n)| == VarintLen(n)
  {
    var a, b := n / 128, n / 128 / 128;
    assert EncodeRounds(n, 4) == if n < 128 then [n] else [n % 128 + 128] + EncodeRounds(a, 3);
    assert EncodeRounds(a, 3) == if a < 128 then [a] else [a % 128 + 128] + EncodeRounds(b, 2);
    assert EncodeRounds(b, 2) == if b < 128 then [b] else [b % 128 + 128] + EncodeRounds(b / 128, 1);
    assert b / 128 < 128;
  }

  function Pow128(k: nat): nat {
    if k == 0 then 1 else 128 * Pow128(k - 1)
  }

  /** A value that fits the remaining rounds comes back, whatever surrounds its bytes. */
  lemma {:induction false} DecodeEncoded(pre: Bytes, n: nat, left: nat, rest: Bytes, acc: nat, weight: nat)
    requires 0 < left <= 4 && |pre| == 4 - left && n < Pow128(left)
    ensures DecodeFrom(pre + EncodeRounds(n, left) + rest, |pre|, acc, weight)
            == Value(acc + n * weight, |pre| + |EncodeRounds(n, left)|)
    decreases left
  {
    var bytes := pre + EncodeRounds(n, left) + rest;
    if n < 128 {
      assert bytes[|pre|] == n;
    } else {
      var b, pre' := n % 128 + 128, pre + [n % 128 + 128];
      assert bytes == pre' + EncodeRounds(n / 128, left - 1) + rest && bytes[|pre|] == b && b % 128 == n % 128;
      assert left > 1 by { assert Pow128(1) == 128; }
      DecodeEncoded(pre', n / 128, left - 1, rest, acc + n % 128 * weight, weight * 128);
      Weigh(n, weight);
    }
  }

  lemma Weigh(n: nat, weight: nat)
    ensures n % 128 * weight + n / 128 * (weight * 128) == n * weight
  {
    assert n == n % 128 + n / 128 * 128;
    assert (n % 128 + n / 128 * 128) * weight == n % 128 * weight + n / 128 * 128 * weight;
  }

  /** Every value round-trips and its decoder stops exactly at the end of its bytes. */
  lemma VarintRoundTrip(n: nat, rest: Bytes)
    requires n <= MAX_VARINT
    ensures DecodeVarint(EncodeVarint(n) + rest) == Value(n, VarintLen(n))
  {
    EncodedLength(n);
    assert Pow128(4) == 268435456;
    assert [] + EncodeRounds(n, 4) + rest == EncodeVarint(n) + rest;
    DecodeEncoded([], n, 4, rest, 0, 1);
  }

  lemma {:induction false} PrefixOfEncodedContinues(n: nat, left: nat, j: nat)
    requires j + 1 < |EncodeRounds(n, left)|
    ensures EncodeRounds(n, left)[j] >= 128
    decreases left
  {
    if j > 0 {
      PrefixOfEncodedContinues(n / 128, left - 1, j - 1);
    }
  }

  lemma {:induction false} AllContinueIsShort(bytes: Bytes, i: nat, acc: nat, weight: nat)
    requires |bytes| <= 3 && i <= |bytes| && forall j :: 0 <= j < |bytes| ==> bytes[j] >= 128
    ensures DecodeFrom(bytes, i, acc, weight) == Short
    decreases 4 - i
  {
    if i < |bytes| {
      AllContinueIsShort(bytes, i + 1, acc + bytes[i] % 128 * weight, weight * 128);
    }
  }

  /** Every strict prefix of an encoding asks for more. */
  lemma StrictPrefixIsShort(n: nat, k: nat)
    requires n <= MAX_VARINT && k < VarintLen(n)
    ensures |EncodeVarint(n)| == VarintLen(n) && DecodeVarint(EncodeVarint(n)[..k]) == Short
  {
    EncodedLength(n);
    forall j | 0 <= j < k ensures EncodeVarint(n)[j] >= 128 {
      PrefixOfEncodedContinues(n, 4, j);
    }
    AllContinueIsShort(EncodeVarint(n)[..k], 0, 0, 1);
  }

  /** Bytes beyond those a decoder used do not matter. */
  lemma {:induction false} DecodeIgnoresRest(bytes: Bytes, i: nat, acc: nat, weight: nat, k: nat)
    requires i <= 3 && k <= |bytes| && DecodeFrom(bytes, i, acc, weight).Value?
    ensures DecodeFrom(bytes, i, acc, weight).used <= |bytes|
    ensures DecodeFrom(bytes, i, acc, weight).used <= k ==>
              DecodeFrom(bytes[..k], i, acc, weight) == DecodeFrom(bytes, i, acc, weight)
    ensures k < DecodeFrom(bytes, i, acc, weight).used ==> DecodeFrom(bytes[..k], i, acc, weight) == Short
    decreases 4 - i
  {
    if bytes[i] >= 128 {
      DecodeIgnoresRest(bytes, i + 1, acc + bytes[i] % 128 * weight, weight * 128, k);
    }
  }

  /** The errors exactly: too short while every byte so far asks for more, malformed when the fourth does. */
  lemma ErrorsIff(bytes: Bytes)
    ensures DecodeVarint(bytes).Short? <==> |bytes| < 4 && forall j :: 0 <= j < |bytes| ==> bytes[j] >= 128
    ensures DecodeVarint(bytes).Malformed? <==> |bytes| >= 4 && forall j :: 0 <= j < 4 ==> bytes[j] >= 128
  {
    ErrorsFrom(bytes, 0, 0, 1);
  }

  lemma {:induction false} ErrorsFrom(bytes: Bytes, i: nat, acc: nat, weight: nat)
    requires i <= 3 && i <= |bytes|
    ensures DecodeFrom(bytes, i, acc, weight).Short? <==>
              |bytes| < 4 && forall j :: i <= j < |bytes| ==> bytes[j] >= 128
    ensures DecodeFrom(bytes, i, acc, weight).Malformed? <==>
              |bytes| >= 4 && forall j :: i <= j < 4 ==> bytes[j] >= 128
    decreases 4 - i
  {
    if i < |bytes| && bytes[i] >= 128 && i < 3 {
      ErrorsFrom(bytes, i + 1, acc + bytes[i] % 128 * weight, weight * 128);
    }
  }
}
