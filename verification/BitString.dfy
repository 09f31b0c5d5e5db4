/** BIT STRING (section 20.2.10 of ANSI/ASHRAE 135-2024) as wiretest/codec.py fills and decodes it. */
module BitString {
  import opened Wrappers
  import opened Tags

  const TAG_BIT_STRING := 8

  /** 0x80 shifted right k times. */
  function BitWeight(k: nat): (w: nat)
    requires k < 8
    ensures 1 <= w <= 128
  {
    if k == 0 then 128 else if k == 1 then 64 else if k == 2 then 32 else if k == 3 then 16
    else if k == 4 then 8 else if k == 5 then 4 else if k == 6 then 2 else 1
  }

  predicate BitOf(octet: Octet, k: nat)
    requires k < 8
  {
    (octet / BitWeight(k)) % 2 == 1
  }

  /** The octet with bit k set. */
  function WithBit(octet: Octet, k: nat): nat
    requires k < 8
  {
    if BitOf(octet, k) then octet else octet + BitWeight(k)
  }

  /** Up to eight bits, the first one in the highest place; bits that are not there are 0. */
  function Packed(bits: seq<bool>): (r: nat)
    requires |bits| <= 8
    ensures if bits == [] then r == 0 else r <= 256 - BitWeight(|bits| - 1)
  {
    if bits == [] then 0
    else Packed(bits[..|bits| - 1]) + if bits[|bits| - 1] then BitWeight(|bits| - 1) else 0
  }

  /** What the first `index` bits put into the i-th octet. */
  function Part(bits: seq<bool>, index: nat, i: nat): (r: seq<bool>)
    requires index <= |bits|
    ensures |r| <= 8
  {
    if 8 * i >= index then [] else bits[8 * i..if 8 * i + 8 <= index then 8 * i + 8 else index]
  }

  function Count(bits: seq<bool>): nat { (|bits| + 7) / 8 }

  function PackedOctets(bits: seq<bool>): (r: Octets)
    ensures |r| == Count(bits)
  {
    seq(Count(bits), i requires 0 <= i < Count(bits) => Packed(Part(bits, |bits|, i)))
  }

  function Body(bits: seq<bool>): Octets { [8 * Count(bits) - |bits|] + PackedOctets(bits) }

  function EncodeBits(bits: seq<bool>): Octets
    requires |bits| <= 24
  {
    Header(TAG_BIT_STRING, false, |Body(bits)|) + Body(bits)
  }

  function Unpacked(octet: Octet): seq<bool> { seq(8, k requires 0 <= k < 8 => BitOf(octet, k)) }

  function UnpackedOctets(octets: Octets): (r: seq<bool>)
    ensures |r| == 8 * |octets|
  {
    if octets == [] then [] else UnpackedOctets(octets[..|octets| - 1]) + Unpacked(octets[|octets| - 1])
  }

  /** None for anything but an application-tagged bit string. As in the source, dropping more bits than there are
      counts a length below zero from the end. */
  function DecodeBits(octets: Octets): Decoded<Option<seq<bool>>>
  {
    if octets == [] then Value(None)
    else
      var tag :- ReadTag(octets, 0);
      if tag.isContext || !tag.kind.Primitive? || tag.number != TAG_BIT_STRING then Value(None)
      else if tag.body == [] then Truncated
      else
        var bits, unused := UnpackedOctets(tag.body[1..]), tag.body[0];
        Value(Some(bits[..KeptBits(|bits|, unused)]))
  }

  function KeptBits(length: nat, unused: nat): (r: nat)
    ensures r <= length
  {
    if unused <= length then length - unused else if unused <= 2 * length then 2 * length - unused else 0
  }

  // -- The loop that fills the octets -----------------------------------------------------------------------

  /** The octets hold the bits before index, and no others. */
  predicate Holds(octets: array<nat>, bits: seq<bool>, index: nat)
    requires index <= |bits|
    reads octets
  {
    forall i :: 0 <= i < octets.Length ==> octets[i] == Packed(Part(bits, index, i))
  }

  lemma WeightHalves(k: nat, x: nat)
    requires 0 < k < 8
    ensures BitWeight(k - 1) == 2 * BitWeight(k) && x * BitWeight(k - 1) == (2 * x) * BitWeight(k)
  {
    assert x * (2 * BitWeight(k)) == (2 * x) * BitWeight(k);
  }

  /** Bits before k fill the places above bit k. */
  lemma {:induction false} PackedIsMultiple(bits: seq<bool>) returns (q: nat)
    requires |bits| < 8
    ensures Packed(bits) == (2 * q) * BitWeight(|bits|)
    decreases bits
  {
    if bits == [] {
      q := 0;
    } else {
      var k := |bits| - 1;
      var high := PackedIsMultiple(bits[..k]);
      q := 2 * high + if bits[k] then 1 else 0;
      assert q * BitWeight(k) == (2 * high) * BitWeight(k) + if bits[k] then BitWeight(k) else 0;
      WeightHalves(k + 1, q);
    }
  }

  lemma MultipleIsLarge(a: int, w: nat)
    ensures a >= 1 ==> a * w >= w
    ensures a <= -1 ==> a * w + w <= 0
  {
    if a >= 1 {
      assert a * w == (a - 1) * w + w;
    } else if a <= -1 {
      assert a * w == (a + 1) * w - w;
    }
  }

  lemma QuotientIs(x: nat, w: nat, m: nat, low: nat)
    requires w > 0 && low < w && x == m * w + low
    ensures x / w == m
  {
    var d := x / w;
    assert x == d * w + x % w;
    assert (m - d) * w == m * w - d * w;
    MultipleIsLarge(m - d, w);
  }

  lemma BitFromSplit(x: Octet, k: nat, q: nat, bit: bool, low: nat)
    requires k < 8 && low < BitWeight(k) && x == (2 * q + if bit then 1 else 0) * BitWeight(k) + low
    ensures BitOf(x, k) == bit
  {
    QuotientIs(x, BitWeight(k), 2 * q + (if bit then 1 else 0), low);
  }

  lemma PackedIsClear(bits: seq<bool>)
    requires |bits| < 8
    ensures !BitOf(Packed(bits), |bits|)
  {
    var q := PackedIsMultiple(bits);
    BitFromSplit(Packed(bits), |bits|, q, false, 0);
  }

  lemma BitIsFilledIn(bits: seq<bool>, index: nat, i: nat, k: nat)
    requires index < |bits| && index == 8 * i + k && k < 8
    ensures var octet := Packed(Part(bits, index, i));
            octet < 256 && Packed(Part(bits, index + 1, i)) == if bits[index] then WithBit(octet, k) else octet
  {
    var before, after := Part(bits, index, i), Part(bits, index + 1, i);
    assert after == before + [bits[index]];
    assert after[..|after| - 1] == before;
    PackedIsClear(before);
  }

  lemma OthersStay(bits: seq<bool>, index: nat, i: nat)
    requires index < |bits| && i != index / 8
    ensures Part(bits, index + 1, i) == Part(bits, index, i)
  {
  }

  method PlaceBit(octets: array<nat>, bits: seq<bool>, index: nat)
    requires index < |bits| && octets.Length == Count(bits) && Holds(octets, bits, index)
    modifies octets
    ensures Holds(octets, bits, index + 1)
  {
    var i := index / 8;
    BitIsFilledIn(bits, index, i, index % 8);
    forall j | 0 <= j < octets.Length && j != i ensures Part(bits, index + 1, j) == Part(bits, index, j) {
      OthersStay(bits, index, j);
    }
    if bits[index] {
      octets[i] := WithBit(octets[i], index % 8);
    }
  }

  lemma NothingHeld(octets: array<nat>, bits: seq<bool>)
    requires forall i :: 0 <= i < octets.Length ==> octets[i] == 0
    ensures Holds(octets, bits, 0)
  {
    forall i | 0 <= i < octets.Length ensures octets[i] == Packed(Part(bits, 0, i)) {
      assert Part(bits, 0, i) == [];
    }
  }

  method ZeroOctets(n: nat) returns (octets: array<nat>)
    ensures fresh(octets) && octets.Length == n && forall i :: 0 <= i < n ==> octets[i] == 0
  {
    octets := new nat[n](_ => 0);
  }

  method FillOctets(bits: seq<bool>) returns (octets: array<nat>)
    ensures octets.Length == Count(bits) && Holds(octets, bits, |bits|)
  {
    octets := ZeroOctets(Count(bits));
    NothingHeld(octets, bits);
    for index := 0 to |bits|
      invariant Holds(octets, bits, index)
    {
      PlaceBit(octets, bits, index);
    }
  }

  method ApplicationBitString(bits: seq<bool>) returns (r: Octets)
    requires |bits| <= 24
    ensures r == EncodeBits(bits)
  {
    var octets := FillOctets(bits);
    assert octets[..] == PackedOctets(bits);
    var body: Octets := [8 * octets.Length - |bits|] + octets[..];
    r := Header(TAG_BIT_STRING, false, |body|) + body;
  }

  // -- The bits come back -----------------------------------------------------------------------------------

  lemma {:induction false} PackedSplits(bits: seq<bool>, k: nat) returns (q: nat, low: nat)
    requires k < |bits| <= 8
    ensures Packed(bits) == (2 * q + if bits[k] then 1 else 0) * BitWeight(k) + low
    ensures low <= BitWeight(k) - BitWeight(|bits| - 1)
    decreases bits
  {
    var last := |bits| - 1;
    if k == last {
      q := PackedIsMultiple(bits[..k]);
      low := 0;
    } else {
      q, low := PackedSplits(bits[..last], k);
      WeightHalves(last, 0);
      low := low + if bits[last] then BitWeight(last) else 0;
    }
  }

  lemma BitIsKept(bits: seq<bool>, k: nat)
    requires k < |bits| <= 8
    ensures BitOf(Packed(bits), k) == bits[k]
  {
    var q, low := PackedSplits(bits, k);
    BitFromSplit(Packed(bits), k, q, bits[k], low);
  }

  lemma {:induction false} UnpackedAt(octets: Octets, i: nat, k: nat)
    requires i < |octets| && k < 8
    ensures UnpackedOctets(octets)[8 * i + k] == BitOf(octets[i], k)
    decreases octets
  {
    if i >= |octets| - 1 {
    } else {
      UnpackedAt(octets[..|octets| - 1], i, k);
    }
  }

  lemma BitIsUnpacked(bits: seq<bool>, i: nat, k: nat)
    requires 8 * i + k < |bits| && k < 8
    ensures UnpackedOctets(PackedOctets(bits))[8 * i + k] == bits[8 * i + k]
  {
    var part := Part(bits, |bits|, i);
    UnpackedAt(PackedOctets(bits), i, k);
    BitIsKept(part, k);
  }

  lemma BitsAreUnpacked(bits: seq<bool>)
    ensures UnpackedOctets(PackedOctets(bits))[..|bits|] == bits
  {
    forall index | 0 <= index < |bits| ensures UnpackedOctets(PackedOctets(bits))[index] == bits[index] {
      BitIsUnpacked(bits, index / 8, index % 8);
    }
  }

  /** Every bit string of up to 24 bits, the empty one too, is decoded to its own bits in order. */
  lemma BitStringRoundTrip(bits: seq<bool>)
    requires |bits| <= 24
    ensures DecodeBits(EncodeBits(bits)) == Value(Some(bits))
  {
    var octets := EncodeBits(bits);
    AtItself(octets, 0, octets);
    ReadPrimitive(octets, 0, TAG_BIT_STRING, false, Body(bits));
    assert Body(bits)[1..] == PackedOctets(bits);
    BitsAreUnpacked(bits);
  }

  /** No other primitive is decoded as a bit string, whatever its octets, and neither are constructed tags. */
  lemma OnlyBitStringsAreDecoded(octets: Octets, number: nat, isContext: bool, body: Octets)
    requires number <= 14 && |body| < 254 && (isContext || (number != 1 && number != 8))
    requires At(octets, 0, Header(number, isContext, |body|) + body)
    ensures DecodeBits(octets) == Value(None)
  {
    ReadPrimitive(octets, 0, number, isContext, body);
  }

  /** Of the bits of the octets after the first, as many are dropped at the end as that octet says; a count that is
      larger than their number is taken from twice that number. */
  lemma UnusedBitsAreDropped(octets: Octets, unused: Octet, data: Octets) returns (bits: seq<bool>)
    requires |data| < 253 && At(octets, 0, Header(8, false, 1 + |data|) + ([unused] + data))
    ensures DecodeBits(octets) == Value(Some(bits)) && bits <= UnpackedOctets(data)
    ensures var n := 8 * |data|;
            |bits| == if unused <= n then n - unused else if unused <= 2 * n then 2 * n - unused else 0
  {
    hide UnpackedOctets;
    ReadPrimitive(octets, 0, 8, false, [unused] + data);
    assert ([unused] + data)[1..] == data;
    bits := UnpackedOctets(data)[..KeptBits(8 * |data|, unused)];
  }

  lemma ConstructedIsNoBitString(octets: Octets, number: nat)
    requires number <= 14 && (At(octets, 0, OpeningTag(number)) || At(octets, 0, ClosingTag(number)))
    ensures DecodeBits(octets) == Value(None)
  {
    if At(octets, 0, OpeningTag(number)) {
      ReadOpening(octets, 0, number);
    } else {
      ReadClosing(octets, 0, number);
    }
  }
}
