/** Tagged octets (section 20.2.1 of ANSI/ASHRAE 135-2024) as wiretest/codec.py encodes and reads them. */
module Tags {
  import opened Wrappers

  type Octets = seq<Octet>

  /** What a decoder does with its input: it returns, or it runs out of octets (an IndexError or struct.error in the
      source, which the parsers catch), or it raises what they do not catch. */
  datatype Decoded<+T> = Value(value: T) | Truncated | Uncaught {
    predicate IsFailure() { !Value? }

    function PropagateFailure<U>(): Decoded<U>
      requires IsFailure()
    {
      if Truncated? then Truncated else Uncaught
    }

    function Extract(): T
      requires !IsFailure()
    {
      value
    }
  }

  // -- Numbers --------------------------------------------------------------------------------------

  /** The n low-order octets of v, most significant first. */
  function ToBytes(v: nat, n: nat): (r: Octets)
    ensures |r| == n
    decreases v, n
  {
    if n == 0 then []
    else
      ToBytes(v / 256, n - 1) + [v % 256]
  }

  function Width(v: nat): (n: nat)
    requires v < 0x1_0000_0000
    ensures 1 <= n <= 4
  {
    if v < 0x100 then 1 else if v < 0x1_0000 then 2 else if v < 0x100_0000 then 3 else 4
  }

  /** The shortest big-endian form, one to four octets. */
  function UnsignedOctets(v: nat): (r: Octets)
    requires v < 0x1_0000_0000
    ensures 1 <= |r| <= 4
  {
    ToBytes(v, Width(v))
  }

  function BigEndian(s: Octets): nat
  {
    if s == [] then 0 else 256 * BigEndian(s[..|s| - 1]) + s[|s| - 1]
  }

  function Join(a: nat, b: nat, c: nat, d: nat): nat { 0x100_0000 * a + 0x1_0000 * b + 256 * c + d }

  predicate Fits(v: nat, n: nat)
    decreases v, n
  {
    if n == 0 then v == 0
    else
      Fits(v / 256, n - 1)
  }

  lemma {:induction false} BytesRoundTrip(v: nat, n: nat)
    requires Fits(v, n)
    ensures BigEndian(ToBytes(v, n)) == v
    decreases n
  {
    if n == 0 {
    } else {
      BytesRoundTrip(v / 256, n - 1);
      assert ToBytes(v, n)[..n - 1] == ToBytes(v / 256, n - 1);
    }
  }

  lemma FitsItsWidth(v: nat)
    requires v < 0x1_0000_0000
    ensures Fits(v, Width(v)) && Fits(v, 4)
    ensures v < 0x1_0000 ==> Fits(v, 2)
  {
    var a := v / 256;
    var b := a / 256;
    var c := b / 256;
    assert c / 256 == 0;
    assert Fits(c, 1) && Fits(b, 2) && Fits(a, 3);
    assert v < 0x100_0000 ==> b < 256 && Fits(b, 1) && Fits(a, 2);
    assert v < 0x1_0000 ==> a < 256 && Fits(a, 1);
  }

  lemma UnsignedRoundTrip(v: nat)
    requires v < 0x1_0000_0000
    ensures BigEndian(UnsignedOctets(v)) == v && BigEndian(ToBytes(v, 4)) == v
    ensures v < 0x1_0000 ==> BigEndian(ToBytes(v, 2)) == v
  {
    FitsItsWidth(v);
    BytesRoundTrip(v, Width(v));
    BytesRoundTrip(v, 4);
    if v < 0x1_0000 {
      BytesRoundTrip(v, 2);
    }
  }

  // -- Reading a tag ----------------------------------------------------------------------------------

  datatype Kind = Opening | Closing | Primitive

  datatype Tag = Tag(number: nat, isContext: bool, kind: Kind, body: Octets, next: nat)

  /** A Python slice: it stops at the end of the data without complaint. */
  function Slice(data: Octets, from: nat, end: nat): Octets
    decreases |data| + end
  {
    if from >= end then []
    else if end <= |data| then Slice(data, from, end - 1) + [data[end - 1]]
    else Slice(data, from, end - 1)
  }

  datatype Length = Length(length: nat, next: nat)

  function ReadLength(data: Octets, p: nat, lengthValue: nat): Decoded<Length>
  {
    if lengthValue != 5 then Value(Length(lengthValue, p))
    else if p >= |data| then Truncated
    else if data[p] == 254 then
      if p + 3 > |data| then Truncated else Value(Length(Join(0, 0, data[p + 1], data[p + 2]), p + 3))
    else if data[p] == 255 then
      if p + 5 > |data| then Truncated
      else Value(Length(Join(data[p + 1], data[p + 2], data[p + 3], data[p + 4]), p + 5))
    else Value(Length(data[p], p + 1))
  }

  /** The initial octet: tag number, class and length/value/type field. */
  datatype Initial = Initial(number: nat, isContext: bool, low: nat)

  function Split(first: Octet): Initial
  {
    Initial(first / 16, (first / 8) % 2 == 1, first % 8)
  }

  /** What follows the tag number. */
  function ReadContent(data: Octets, p: nat, number: nat, isContext: bool, low: nat): (r: Decoded<Tag>)
    ensures r.Value? ==> p <= r.value.next
  {
    if isContext && low == 6 then Value(Tag(number, true, Opening, [], p))
    else if isContext && low == 7 then Value(Tag(number, true, Closing, [], p))
    else
      var l :- ReadLength(data, p, low);
      if !isContext && number == 1 then
        if l.length < 256 then Value(Tag(number, false, Primitive, [l.length], l.next)) else Uncaught
      else Value(Tag(number, isContext, Primitive, Slice(data, l.next, l.next + l.length), l.next + l.length))
  }

  function ReadTag(data: Octets, p: nat): (r: Decoded<Tag>)
    ensures r.Value? ==> p < |data| && p < r.value.next
  {
    if p >= |data| then Truncated
    else
      var Initial(high, isContext, low) := Split(data[p]);
      if high < 15 then ReadContent(data, p + 1, high, isContext, low)
      else if p + 1 >= |data| then Truncated
      else ReadContent(data, p + 2, data[p + 1], isContext, low)
  }

  // -- Writing a tag ------------------------------------------------------------------------------------

  function Flag(isContext: bool): Octet { if isContext then 8 else 0 }

  /** The encoders write tag numbers up to 14, and lengths up to 253. */
  function Header(number: nat, isContext: bool, length: nat): Octets
    requires number <= 14 && length < 254
  {
    if length < 5 then [16 * number + Flag(isContext) + length] else [16 * number + Flag(isContext) + 5, length]
  }

  function OpeningTag(number: nat): Octets
    requires number <= 14
  {
    [16 * number + 14]
  }

  function ClosingTag(number: nat): Octets
    requires number <= 14
  {
    [16 * number + 15]
  }

  function ContextUnsigned(number: nat, v: nat): Octets
    requires number <= 14 && v < 0x1_0000_0000
  {
    Header(number, true, |UnsignedOctets(v)|) + UnsignedOctets(v)
  }

  const INSTANCES := 0x40_0000

  datatype ObjectKey = ObjectKey(objectType: nat, instance: nat)

  predicate KeyInRange(k: ObjectKey) { k.objectType < 1024 && k.instance < INSTANCES }

  function ObjectId(k: ObjectKey): nat
    requires KeyInRange(k)
    ensures ObjectId(k) < 0x1_0000_0000
  {
    k.objectType * INSTANCES + k.instance
  }

  function KeyOf(raw: nat): ObjectKey
  {
    ObjectKey(raw / INSTANCES, raw % INSTANCES)
  }

  lemma KeyRoundTrip(k: ObjectKey)
    requires KeyInRange(k)
    ensures KeyOf(ObjectId(k)) == k
  {
  }

  function ContextObjectId(number: nat, k: ObjectKey): Octets
    requires number <= 14 && KeyInRange(k)
  {
    Header(number, true, 4) + ToBytes(ObjectId(k), 4)
  }

  // -- Octets at a position -------------------------------------------------------------------------------

  predicate SameAt(data: Octets, p: nat, s: Octets, i: nat)
    requires p + |s| <= |data|
  {
    i < |s| ==> data[p + i] == s[i]
  }

  /** The octets s stand in the data from position p on. */
  ghost predicate At(data: Octets, p: nat, s: Octets) { p + |s| <= |data| && forall i: nat :: SameAt(data, p, s, i) }

  lemma AtIndex(data: Octets, p: nat, s: Octets, i: nat)
    requires At(data, p, s) && i < |s|
    ensures p + i < |data| && data[p + i] == s[i]
  {
    assert SameAt(data, p, s, i);
  }

  lemma AtParts(data: Octets, p: nat, a: Octets, b: Octets)
    requires At(data, p, a + b)
    ensures At(data, p, a) && At(data, p + |a|, b)
  {
    forall i: nat ensures SameAt(data, p, a, i) {
      assert SameAt(data, p, a + b, i);
    }
    var q := p + |a|;
    forall i: nat ensures SameAt(data, q, b, i) {
      assert SameAt(data, p, a + b, |a| + i);
    }
  }

  /** Within the data, Slice is the built-in one. */
  lemma {:induction false} SliceIsSubsequence(data: Octets, from: nat, end: nat)
    requires from <= end <= |data|
    ensures Slice(data, from, end) == data[from..end]
    decreases end
  {
    if from >= end {
    } else {
      SliceIsSubsequence(data, from, end - 1);
      assert data[from..end] == data[from..end - 1] + [data[end - 1]];
    }
  }

  lemma AtIsSlice(data: Octets, p: nat, s: Octets)
    requires At(data, p, s)
    ensures Slice(data, p, p + |s|) == s
  {
    SliceIsSubsequence(data, p, p + |s|);
    forall i | 0 <= i < |s| ensures data[p..p + |s|][i] == s[i] {
      AtIndex(data, p, s, i);
    }
  }

  lemma AtItself(data: Octets, p: nat, s: Octets)
    requires p <= |data| && data[p..] == s
    ensures At(data, p, s)
  {
    forall i: nat ensures SameAt(data, p, s, i) {
    }
  }

  lemma SliceOfRest(head: Octets, tail: Octets)
    ensures Slice(head + tail, |head|, |head + tail|) == tail
  {
    SliceIsSubsequence(head + tail, |head|, |head + tail|);
  }

  lemma {:induction false} SliceLength(data: Octets, from: nat, end: nat)
    ensures |Slice(data, from, end)| ==
            if from >= end || from >= |data| then 0 else if end <= |data| then end - from else |data| - from
    decreases end
  {
    if from >= end {
    } else {
      SliceLength(data, from, end - 1);
    }
  }

  lemma InitialBits(number: nat, isContext: bool, low: nat)
    requires number < 16 && low < 8
    ensures 16 * number + Flag(isContext) + low < 256
    ensures Split(16 * number + Flag(isContext) + low) == Initial(number, isContext, low)
  {
    var first := 16 * number + Flag(isContext) + low;
    assert first / 8 == 2 * number + (if isContext then 1 else 0);
    assert first == (2 * number + (if isContext then 1 else 0)) * 8 + low;
  }

  lemma ReadOpening(data: Octets, p: nat, number: nat)
    requires number <= 14 && At(data, p, OpeningTag(number))
    ensures ReadTag(data, p) == Value(Tag(number, true, Opening, [], p + 1))
  {
    AtIndex(data, p, OpeningTag(number), 0);
    InitialBits(number, true, 6);
  }

  lemma ReadClosing(data: Octets, p: nat, number: nat)
    requires number <= 14 && At(data, p, ClosingTag(number))
    ensures ReadTag(data, p) == Value(Tag(number, true, Closing, [], p + 1))
  {
    AtIndex(data, p, ClosingTag(number), 0);
    InitialBits(number, true, 7);
  }

  /** What ReadTag does once a one-octet tag number and the length are known. */
  lemma ReadHeader(data: Octets, p: nat, number: nat, isContext: bool, low: nat)
    requires p < |data| && number <= 14 && low <= 5 && data[p] == 16 * number + Flag(isContext) + low
    requires (isContext || number != 1) && ReadLength(data, p + 1, low).Value?
    ensures var l := ReadLength(data, p + 1, low).value;
            ReadTag(data, p) ==
            Value(Tag(number, isContext, Primitive, Slice(data, l.next, l.next + l.length), l.next + l.length))
  {
    InitialBits(number, isContext, low);
  }

  lemma HeaderIsRead(data: Octets, p: nat, number: nat, isContext: bool, length: nat) returns (low: nat)
    requires number <= 14 && length < 254 && At(data, p, Header(number, isContext, length))
    ensures low <= 5 && p < |data| && data[p] == 16 * number + Flag(isContext) + low
    ensures ReadLength(data, p + 1, low) == Value(Length(length, p + |Header(number, isContext, length)|))
  {
    low := if length < 5 then length else 5;
    AtIndex(data, p, Header(number, isContext, length), 0);
    if length >= 5 {
      AtIndex(data, p, Header(number, isContext, length), 1);
    }
  }

  lemma ReadPrimitive(data: Octets, p: nat, number: nat, isContext: bool, body: Octets)
    requires number <= 14 && |body| < 254 && (isContext || number != 1)
    requires At(data, p, Header(number, isContext, |body|) + body)
    ensures ReadTag(data, p) ==
            Value(Tag(number, isContext, Primitive, body, p + |Header(number, isContext, |body|)| + |body|))
  {
    var header := Header(number, isContext, |body|);
    AtParts(data, p, header, body);
    AtIsSlice(data, p + |header|, body);
    var low := HeaderIsRead(data, p, number, isContext, |body|);
    ReadHeader(data, p, number, isContext, low);
  }

  lemma ReadBoolean(data: Octets, p: nat, v: nat)
    requires v <= 1 && At(data, p, [16 + v])
    ensures ReadTag(data, p) == Value(Tag(1, false, Primitive, [v], p + 1))
  {
    AtIndex(data, p, [16 + v], 0);
    InitialBits(1, false, v);
  }

  lemma ReadUnsigned(data: Octets, p: nat, number: nat, v: nat) returns (body: Octets)
    requires number <= 14 && v < 0x1_0000_0000 && At(data, p, ContextUnsigned(number, v))
    ensures ReadTag(data, p) == Value(Tag(number, true, Primitive, body, p + |ContextUnsigned(number, v)|))
    ensures BigEndian(body) == v && 1 <= |body| <= 4
  {
    body := UnsignedOctets(v);
    ReadPrimitive(data, p, number, true, body);
    UnsignedRoundTrip(v);
  }

  lemma ReadObjectId(data: Octets, p: nat, number: nat, k: ObjectKey) returns (body: Octets)
    requires number <= 14 && KeyInRange(k) && At(data, p, ContextObjectId(number, k))
    ensures ReadTag(data, p) == Value(Tag(number, true, Primitive, body, p + |ContextObjectId(number, k)|))
    ensures |body| == 4 && KeyOf(BigEndian(body)) == k
  {
    body := ToBytes(ObjectId(k), 4);
    ReadPrimitive(data, p, number, true, body);
    UnsignedRoundTrip(ObjectId(k));
    KeyRoundTrip(k);
  }

  // -- Balanced streams -------------------------------------------------------------------------------------

  /** Any nesting of primitives inside opening and closing tags. */
  datatype Items =
    | End
    | Item(number: nat, isContext: bool, body: Octets, rest: Items)
    | Boolean(v: nat, rest: Items)
    | Nested(number: nat, inner: Items, rest: Items)

  /** What the encoders can write: a primitive with application tag 1 is a Boolean. */
  predicate Encodable(items: Items)
  {
    match items
    case End => true
    case Item(number, isContext, body, rest) =>
      number <= 14 && |body| < 254 && (isContext || number != 1) && Encodable(rest)
    case Boolean(v, rest) => v <= 1 && Encodable(rest)
    case Nested(number, inner, rest) => number <= 14 && Encodable(inner) && Encodable(rest)
  }

  function Encode(items: Items): Octets
    requires Encodable(items)
    decreases items, 1
  {
    if items.End? then [] else EncodeFirst(items) + Encode(items.rest)
  }

  function EncodeFirst(items: Items): Octets
    requires !items.End? && Encodable(items)
    decreases items, 0
  {
    match items
    case Item(number, isContext, body, _) => Header(number, isContext, |body|) + body
    case Boolean(v, _) => [16 + v]
    case Nested(number, inner, _) => OpeningTag(number) + (Encode(inner) + ClosingTag(number))
  }

  /** Where a closing tag begins and where it ends. */
  datatype Close = Close(start: nat, next: nat)

  /** Read on until the nesting depth falls to 0. */
  function FindClose(data: Octets, p: nat, depth: nat): Decoded<Close>
    requires depth >= 1
    decreases if p < |data| then |data| - p else 0
  {
    var tag :- ReadTag(data, p);
    if tag.kind.Closing? && depth == 1 then Value(Close(p, tag.next))
    else FindClose(data, tag.next,
         if tag.kind.Opening? then depth + 1 else if tag.kind.Closing? then depth - 1 else depth)
  }

  /** A depth-counting search, seen from outside: what it makes of the tag at p. */
  ghost predicate Counts(data: Octets, find: (nat, nat) -> Decoded<Close>)
  {
    forall p: nat, depth: nat {:trigger ReadTag(data, p), find(p, depth)} :: depth >= 1 && ReadTag(data, p).Value? ==>
      var tag := ReadTag(data, p).value;
      find(p, depth) ==
      match tag.kind
      case Primitive => find(tag.next, depth)
      case Opening => find(tag.next, depth + 1)
      case Closing => if depth == 1 then Value(Close(p, tag.next)) else find(tag.next, depth - 1)
  }

  function Finder(data: Octets): (nat, nat) -> Decoded<Close>
  {
    (p: nat, depth: nat) => if depth == 0 then Truncated else FindClose(data, p, depth)
  }

  lemma FinderCounts(data: Octets)
    ensures Counts(data, Finder(data))
  {
    hide ReadTag;
    var find := Finder(data);
    forall p: nat, depth: nat {:trigger ReadTag(data, p), find(p, depth)} | depth >= 1 && ReadTag(data, p).Value?
      ensures var tag := ReadTag(data, p).value;
              find(p, depth) ==
              match tag.kind
              case Primitive => find(tag.next, depth)
              case Opening => find(tag.next, depth + 1)
              case Closing => if depth == 1 then Value(Close(p, tag.next)) else find(tag.next, depth - 1)
    {
      assert find(p, depth) == FindClose(data, p, depth);
    }
  }

  lemma NestedParts(data: Octets, p: nat, number: nat, body: Octets)
    requires number <= 14 && At(data, p, OpeningTag(number) + (body + ClosingTag(number)))
    ensures ReadTag(data, p) == Value(Tag(number, true, Opening, [], p + 1))
    ensures At(data, p + 1, body)
    ensures ReadTag(data, p + 1 + |body|) == Value(Tag(number, true, Closing, [], p + 1 + |body| + 1))
  {
    AtParts(data, p, OpeningTag(number), body + ClosingTag(number));
    AtParts(data, p + 1, body, ClosingTag(number));
    ReadOpening(data, p, number);
    ReadClosing(data, p + 1 + |body|, number);
  }

  lemma SkipItem(data: Octets, find: (nat, nat) -> Decoded<Close>, p: nat, number: nat, isContext: bool, body: Octets,
                 depth: nat)
    requires Counts(data, find) && depth >= 1
    requires number <= 14 && |body| < 254 && (isContext || number != 1)
    requires At(data, p, Header(number, isContext, |body|) + body)
    ensures find(p, depth) == find(p + |Header(number, isContext, |body|) + body|, depth)
  {
    ReadPrimitive(data, p, number, isContext, body);
  }

  lemma SkipBoolean(data: Octets, find: (nat, nat) -> Decoded<Close>, p: nat, v: nat, depth: nat)
    requires Counts(data, find) && depth >= 1 && v <= 1 && At(data, p, [16 + v])
    ensures find(p, depth) == find(p + 1, depth)
  {
    ReadBoolean(data, p, v);
  }

  lemma {:induction false} SkipNested(data: Octets, find: (nat, nat) -> Decoded<Close>, p: nat, number: nat,
                                      inner: Items, depth: nat)
    requires Counts(data, find) && depth >= 1 && number <= 14 && Encodable(inner)
    requires At(data, p, OpeningTag(number) + (Encode(inner) + ClosingTag(number)))
    ensures find(p, depth) == find(p + 1 + |Encode(inner)| + 1, depth)
    decreases inner, 3
  {
    NestedParts(data, p, number, Encode(inner));
    BalancedIsSkipped(data, find, p + 1, inner, depth + 1);
  }

  lemma {:induction false} FirstIsSkipped(data: Octets, find: (nat, nat) -> Decoded<Close>, p: nat, items: Items,
                                          depth: nat)
    requires Counts(data, find) && depth >= 1
    requires !items.End? && Encodable(items) && At(data, p, EncodeFirst(items))
    ensures find(p, depth) == find(p + |EncodeFirst(items)|, depth)
    decreases items, 1
  {
    match items
    case Item(number, isContext, body, _) => SkipItem(data, find, p, number, isContext, body, depth);
    case Boolean(v, _) => SkipBoolean(data, find, p, v, depth);
    case Nested(number, inner, _) => SkipNested(data, find, p, number, inner, depth);
  }

  /** A balanced stream is passed over without the depth changing in the end. */
  lemma {:induction false} BalancedIsSkipped(data: Octets, find: (nat, nat) -> Decoded<Close>, p: nat, items: Items,
                                             depth: nat)
    requires Counts(data, find) && depth >= 1 && Encodable(items) && At(data, p, Encode(items))
    ensures find(p, depth) == find(p + |Encode(items)|, depth)
    decreases items, 2
  {
    if items.End? {
    } else {
      AtParts(data, p, EncodeFirst(items), Encode(items.rest));
      FirstIsSkipped(data, find, p, items, depth);
      BalancedIsSkipped(data, find, p + |EncodeFirst(items)|, items.rest, depth);
    }
  }

  lemma CloseIsFound(data: Octets, find: (nat, nat) -> Decoded<Close>, p: nat, items: Items, number: nat)
    requires Counts(data, find) && Encodable(items) && number <= 14 && At(data, p, Encode(items) + ClosingTag(number))
    ensures find(p, 1) == Value(Close(p + |Encode(items)|, p + |Encode(items)| + 1))
    ensures Slice(data, p, p + |Encode(items)|) == Encode(items)
  {
    AtParts(data, p, Encode(items), ClosingTag(number));
    AtIsSlice(data, p, Encode(items));
    BalancedIsSkipped(data, find, p, items, 1);
    ReadClosing(data, p + |Encode(items)|, number);
  }

  /** Depth counting stops exactly at the tag that closes what was opened. */
  lemma MatchingCloseIsFound(data: Octets, p: nat, items: Items, number: nat)
    requires Encodable(items) && number <= 14 && At(data, p, Encode(items) + ClosingTag(number))
    ensures FindClose(data, p, 1) == Value(Close(p + |Encode(items)|, p + |Encode(items)| + 1))
    ensures Slice(data, p, p + |Encode(items)|) == Encode(items)
  {
    FinderCounts(data);
    CloseIsFound(data, Finder(data), p, items, number);
  }
}
