/** The protobuf wire format as the Antigravity scanner reads it (Protocol Buffers encoding guide,
    "Base 128 Varints" and "Message Structure"), with the encoders that serve as its inverse. */
module ProtoWire {
  import opened Wrappers

  type Byte = n: nat | n < 256

  const TWO_TO_THE_64: nat := 0x1_0000_0000_0000_0000
  const U32_MAX: nat := 0xFFFF_FFFF

  function Pow128(n: nat): (r: nat)
    ensures r > 0
  {
    if n == 0 then 1 else 128 * Pow128(n - 1)
  }

  // ----- varints -----

  /** The varint at pos, as the k-th byte and its successors: the value and the position after it. */
  function Varint(bytes: seq<Byte>, pos: nat, k: nat): (r: Option<(nat, nat)>)
    ensures r.Some? ==> pos < r.value.1 <= |bytes|
    decreases 10 - k
  {
    if k >= 10 || pos >= |bytes| then None
    else
      var payload := bytes[pos] % 128;
      if k == 9 && payload > 1 then None
      else if bytes[pos] < 128 then Some((payload, pos + 1))
      else match Varint(bytes, pos + 1, k + 1)
        case None => None
        case Some((v, next)) => Some((payload + 128 * v, next))
  }

  method DecodeVarint(bytes: seq<Byte>, offset: nat) returns (r: Option<(nat, nat)>)
    ensures r == Varint(bytes, offset, 0)
  {
    hide Varint, Scaled, Pow128;
    ScaledEnds(bytes, offset, 0, 0, 1);
    if offset >= |bytes| {
      return None;
    }
    var value: nat, scale: nat := 0, 1;
    var k := 0;
    PowerStep(0);
    while k < 10
      invariant 0 <= k <= 10 && scale == Pow128(k) && value < scale
      invariant Varint(bytes, offset, 0) == Scaled(Varint(bytes, offset + k, k), value, scale)
    {
      var position := offset + k;
      ScaledEnds(bytes, position, k, value, scale);
      PowerStep(k);
      if position >= |bytes| {
        return None;
      }
      var payload := bytes[position] % 128;
      if k == 9 && payload > 1 {
        return None;
      }
      ScaledMore(bytes, position, k, value, scale);
      // The bits of value lie below the payload's, so joining them is adding them.
      value := value + payload * scale;
      if bytes[position] < 128 {
        return Some((value, position + 1));
      }
      scale := 128 * scale;
      k := k + 1;
    }
    ScaledEnds(bytes, offset + k, k, value, scale);
    return None;
  }

  function Scaled(r: Option<(nat, nat)>, value: nat, scale: nat): Option<(nat, nat)> {
    match r
    case None => None
    case Some((v, next)) => Some((value + scale * v, next))
  }

  lemma ScaledEnds(bytes: seq<Byte>, pos: nat, k: nat, value: nat, scale: nat)
    ensures k >= 10 || pos >= |bytes| || (k == 9 && bytes[pos] % 128 > 1) ==>
              Scaled(Varint(bytes, pos, k), value, scale) == None
    ensures value == 0 && scale == 1 ==> Scaled(Varint(bytes, pos, k), value, scale) == Varint(bytes, pos, k)
  {
  }

  lemma PowerStep(k: nat)
    ensures Pow128(k + 1) == 128 * Pow128(k) && Pow128(0) == 1
  {
  }

  lemma ScaledMore(bytes: seq<Byte>, pos: nat, k: nat, value: nat, scale: nat)
    requires k < 10 && pos < |bytes| && !(k == 9 && bytes[pos] % 128 > 1) && value < scale
    ensures var payload := bytes[pos] % 128;
            && value + payload * scale < 128 * scale
            && Scaled(Varint(bytes, pos, k), value, scale)
               == if bytes[pos] < 128 then Some((value + payload * scale, pos + 1))
                  else Scaled(Varint(bytes, pos + 1, k + 1), value + payload * scale, 128 * scale)
  {
    hide Varint;
    VarintStep(bytes, pos, k);
    Shift(bytes[pos] % 128, scale, if Varint(bytes, pos + 1, k + 1).Some? then Varint(bytes, pos + 1, k + 1).value.0
          else 0);
  }

  lemma VarintStep(bytes: seq<Byte>, pos: nat, k: nat)
    requires k < 10 && pos < |bytes| && !(k == 9 && bytes[pos] % 128 > 1)
    ensures bytes[pos] < 128 ==> Varint(bytes, pos, k) == Some((bytes[pos] % 128, pos + 1))
    ensures bytes[pos] >= 128 ==>
              match Varint(bytes, pos + 1, k + 1)
              case None => Varint(bytes, pos, k) == None
              case Some((v, next)) => Varint(bytes, pos, k) == Some((bytes[pos] % 128 + 128 * v, next))
  {
  }

  lemma Shift(p: nat, scale: nat, v: nat)
    requires p < 128
    ensures p * scale <= 127 * scale
    ensures scale * p == p * scale && scale * (p + 128 * v) == p * scale + 128 * scale * v
  {
  }

  /** What is left of 64 bits for the k-th byte of a varint and its successors. */
  function Limit(k: nat): (r: nat)
    ensures r >= 2
    decreases 9 - k
  {
    if k >= 9 then 2 else 128 * Limit(k + 1)
  }

  lemma LimitOfAll()
    ensures Limit(0) == TWO_TO_THE_64
  {
  }

  /** Every decoded value fits into 64 bits. */
  lemma {:induction false} VarintFits(bytes: seq<Byte>, pos: nat, k: nat)
    requires k < 10
    ensures Varint(bytes, pos, k).Some? ==> Varint(bytes, pos, k).value.0 < Limit(k)
    decreases 10 - k
  {
    if k < 9 {
      VarintFits(bytes, pos + 1, k + 1);
    }
  }

  function VarintBytes(v: nat): (r: seq<Byte>)
    ensures r != []
  {
    if v < 128 then [v] else [128 + v % 128] + VarintBytes(v / 128)
  }

  method EncodeVarint(value: nat) returns (out: seq<Byte>)
    ensures out == VarintBytes(value)
  {
    out := [];
    var v := value;
    while true
      invariant out + VarintBytes(v) == VarintBytes(value)
      decreases v
    {
      var byte := v % 128;
      var rest := v / 128;
      if rest != 0 {
        assert out + ([128 + byte] + VarintBytes(rest)) == (out + [128 + byte]) + VarintBytes(rest);
        out := out + [128 + byte];
        v := rest;
      } else {
        out := out + [byte];
        break;
      }
    }
  }

  /** Decoding inverts encoding, whatever comes before and after. */
  lemma {:induction false} VarintRoundTrip(before: seq<Byte>, v: nat, after: seq<Byte>, k: nat)
    requires k < 10 && v < Limit(k)
    ensures Varint(before + VarintBytes(v) + after, |before|, k) == Some((v, |before| + |VarintBytes(v)|))
    decreases 10 - k
  {
    hide Varint;
    var bytes := before + VarintBytes(v) + after;
    var first := VarintBytes(v)[0];
    assert bytes[|before|] == first;
    VarintStep(bytes, |before|, k);
    if v >= 128 {
      assert bytes == (before + [first]) + VarintBytes(v / 128) + after;
      VarintRoundTrip(before + [first], v / 128, after, k + 1);
    }
  }
}
