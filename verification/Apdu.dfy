/** Confirmed services as wiretest/codec.py encodes and parses them: ReadProperty (section 15.5 of ANSI/ASHRAE
    135-2024), WriteProperty (section 15.9) and Error (section 20.1.7). */
module Apdu {
  import opened Wrappers
  import opened Tags

  const READ_PROPERTY := 12
  const WRITE_PROPERTY := 15

  datatype Reference = Reference(key: ObjectKey, property: nat)

  // What a partial parse finds, and the position after it.
  datatype KeyPart = KeyPart(value: ObjectKey, next: nat)
  datatype ReferencePart = ReferencePart(value: Reference, next: nat)
  datatype IndexPart = IndexPart(value: Option<nat>, next: nat)
  datatype ValuePart = ValuePart(value: Octets, next: nat)

  datatype WriteRequest = WriteRequest(
    reference: Reference, arrayIndex: Option<nat>, value: Octets, priority: Option<nat>)

  predicate InRange(r: Reference) { KeyInRange(r.key) && r.property < 0x1_0000_0000 }

  predicate OptionInRange(v: Option<nat>) { v.Some? ==> v.value < 0x1_0000_0000 }

  // -- Encoding ---------------------------------------------------------------------------------------

  function EncodeReference(r: Reference): Octets
    requires InRange(r)
  {
    ContextObjectId(0, r.key) + ContextUnsigned(1, r.property)
  }

  function EncodeOption(number: nat, v: Option<nat>): Octets
    requires number <= 14 && OptionInRange(v)
  {
    if v.Some? then ContextUnsigned(number, v.value) else []
  }

  function Enclosed(value: Octets): Octets { OpeningTag(3) + (value + ClosingTag(3)) }

  function ConfirmedRequest(invokeId: Octet, service: Octet, parameters: Octets): Octets
  {
    [0x00, 0x05, invokeId, service] + parameters
  }

  function ReadPropertyRequest(invokeId: Octet, r: Reference, arrayIndex: Option<nat>): Octets
    requires InRange(r) && OptionInRange(arrayIndex)
  {
    ConfirmedRequest(invokeId, READ_PROPERTY, EncodeReference(r) + EncodeOption(2, arrayIndex))
  }

  function WriteParameters(w: WriteRequest): Octets
    requires InRange(w.reference) && OptionInRange(w.arrayIndex) && OptionInRange(w.priority)
  {
    (EncodeReference(w.reference) + EncodeOption(2, w.arrayIndex)) + (Enclosed(w.value) + EncodeOption(4, w.priority))
  }

  function WritePropertyRequest(invokeId: Octet, w: WriteRequest): Octets
    requires InRange(w.reference) && OptionInRange(w.arrayIndex) && OptionInRange(w.priority)
  {
    ConfirmedRequest(invokeId, WRITE_PROPERTY, WriteParameters(w))
  }

  function ReadPropertyAck(invokeId: Octet, r: Reference, value: Octets): Octets
    requires InRange(r)
  {
    [0x30, invokeId, READ_PROPERTY] + (EncodeReference(r) + Enclosed(value))
  }

  function ApplicationEnumerated(v: nat): Octets
    requires v < 0x1_0000_0000
  {
    Header(9, false, |UnsignedOctets(v)|) + UnsignedOctets(v)
  }

  function ErrorPdu(invokeId: Octet, service: Octet, errorClass: nat, errorCode: nat): Octets
    requires errorClass < 0x1_0000_0000 && errorCode < 0x1_0000_0000
  {
    [0x50, invokeId, service] + (ApplicationEnumerated(errorClass) + ApplicationEnumerated(errorCode))
  }

  function SimpleAck(invokeId: Octet, service: Octet): Octets { [0x20, invokeId, service] }

  // -- Parsing ------------------------------------------------------------------------------------------

  /** The source's unpacking of ">I", which demands four octets. */
  function ReadWord(body: Octets): Decoded<nat> { if |body| == 4 then Value(BigEndian(body)) else Truncated }

  function ReadKey(apdu: Octets, p: nat): Decoded<KeyPart>
  {
    var identifier :- ReadTag(apdu, p);
    var raw :- ReadWord(identifier.body);
    Value(KeyPart(KeyOf(raw), identifier.next))
  }

  /** Neither tag number is checked. */
  function ReadReference(apdu: Octets, p: nat): Decoded<ReferencePart>
  {
    var key :- ReadKey(apdu, p);
    var property :- ReadTag(apdu, key.next);
    Value(ReferencePart(Reference(key.value, BigEndian(property.body)), property.next))
  }

  /** The tag's number and kind decide, its class is not looked at. */
  function ReadIndex(apdu: Octets, p: nat): Decoded<IndexPart>
  {
    var tag :- ReadTag(apdu, p);
    if tag.number == 2 && tag.kind.Primitive? then Value(IndexPart(Some(BigEndian(tag.body)), tag.next))
    else Value(IndexPart(None, p))
  }

  /** Whatever tag stands at p is taken for the opening one. */
  function ReadEnclosed(apdu: Octets, p: nat): Decoded<ValuePart>
  {
    var opening :- ReadTag(apdu, p);
    var close :- FindClose(apdu, opening.next, 1);
    Value(ValuePart(Slice(apdu, opening.next, close.start), close.next))
  }

  function ReadPriority(apdu: Octets, p: nat): Decoded<Option<nat>>
  {
    if p >= |apdu| then Value(None)
    else
      var tag :- ReadTag(apdu, p);
      Value(Some(BigEndian(tag.body)))
  }

  function ReadWriteParameters(apdu: Octets, p: nat): Decoded<WriteRequest>
  {
    var reference :- ReadReference(apdu, p);
    var index :- ReadIndex(apdu, reference.next);
    var value :- ReadEnclosed(apdu, index.next);
    var priority :- ReadPriority(apdu, value.next);
    Value(WriteRequest(reference.value, index.value, value.value, priority))
  }

  /** The parsers answer None for an APDU that ends too early. */
  function Caught<T>(r: Decoded<T>): Decoded<Option<T>>
  {
    match r
    case Value(v) => Value(Some(v))
    case Truncated => Value(None)
    case Uncaught => Uncaught
  }

  function ParseWriteProperty(apdu: Octets): Decoded<Option<WriteRequest>>
  {
    if |apdu| == 0 || apdu[0] / 16 != 0 || |apdu| < 4 || apdu[3] != WRITE_PROPERTY then Value(None)
    else Caught(ReadWriteParameters(apdu, 4))
  }

  function ParseReadProperty(apdu: Octets): Decoded<Option<Reference>>
  {
    match ReadReference(apdu, 4)
    case Value(part) => Value(Some(part.value))
    case Truncated => Value(None)
    case Uncaught => Uncaught
  }

  /** The content of the first constructed [3], if there is one. */
  function FindEnclosed(apdu: Octets, p: nat): Decoded<Option<Octets>>
    decreases if p < |apdu| then |apdu| - p else 0
  {
    if p >= |apdu| then Value(None)
    else
      var tag :- ReadTag(apdu, p);
      if tag.isContext && tag.number == 3 && tag.kind.Opening? then
        var close :- FindClose(apdu, tag.next, 1);
        Value(Some(Slice(apdu, tag.next, close.start)))
      else FindEnclosed(apdu, tag.next)
  }

  function ReadPropertyValue(apdu: Octets): Decoded<Option<Octets>> { FindEnclosed(apdu, 3) }

  /** Every application-tagged primitive, as a tag number and its octets. */
  function ApplicationValues(octets: Octets, p: nat): Decoded<seq<(nat, Octets)>>
    decreases if p < |octets| then |octets| - p else 0
  {
    if p >= |octets| then Value([])
    else
      var tag :- ReadTag(octets, p);
      var others :- ApplicationValues(octets, tag.next);
      Value(if tag.kind.Primitive? && !tag.isContext then [(tag.number as nat, tag.body)] + others else others)
  }

  function ErrorClassAndCode(apdu: Octets): Decoded<Option<(nat, nat)>>
  {
    var values :- ApplicationValues(Slice(apdu, 3, |apdu|), 0);
    if |values| < 2 then Value(None) else Value(Some((BigEndian(values[0].1), BigEndian(values[1].1))))
  }

  // -- The parsers' loops -----------------------------------------------------------------------------------

  /** Counting depth until it is back to 0. */
  method SkipToClose(apdu: Octets, start: nat) returns (r: Decoded<Close>)
    ensures r == FindClose(apdu, start, 1)
  {
    var position: nat, tagStart: nat, depth: nat := start, start, 1;
    while depth != 0
      invariant depth != 0 ==> FindClose(apdu, start, 1) == FindClose(apdu, position, depth)
      invariant depth == 0 ==> FindClose(apdu, start, 1) == Value(Close(tagStart, position))
      decreases depth != 0, if position < |apdu| then |apdu| - position else 0
    {
      tagStart := position;
      var read := ReadTag(apdu, position);
      if read.IsFailure() {
        return read.PropagateFailure();
      }
      position := read.value.next;
      match read.value.kind {
        case Opening => depth := depth + 1;
        case Closing => depth := depth - 1;
        case Primitive =>
      }
    }
    r := Value(Close(tagStart, position));
  }

  method ParseWritePropertyRequest(apdu: Octets) returns (r: Decoded<Option<WriteRequest>>)
    ensures r == ParseWriteProperty(apdu)
  {
    if |apdu| == 0 || apdu[0] / 16 != 0 || |apdu| < 4 || apdu[3] != WRITE_PROPERTY {
      return Value(None);
    }
    var reference := ReadReference(apdu, 4);
    if reference.IsFailure() {
      return Caught(reference.PropagateFailure());
    }
    var position := reference.value.next;
    var index := ReadIndex(apdu, position);
    if index.IsFailure() {
      return Caught(index.PropagateFailure());
    }
    position := index.value.next;
    var opening := ReadTag(apdu, position);
    if opening.IsFailure() {
      return Caught(opening.PropagateFailure());
    }
    var start := opening.value.next;
    var close := SkipToClose(apdu, start);
    if close.IsFailure() {
      return Caught(close.PropagateFailure());
    }
    position := close.value.next;
    var priority := ReadPriority(apdu, position);
    if priority.IsFailure() {
      return Caught(priority.PropagateFailure());
    }
    r := Value(Some(WriteRequest(reference.value.value, index.value.value, Slice(apdu, start, close.value.start),
                                 priority.value)));
  }

  method FindPropertyValue(apdu: Octets) returns (r: Decoded<Option<Octets>>)
    ensures r == ReadPropertyValue(apdu)
  {
    var position := 3;
    while position < |apdu|
      invariant FindEnclosed(apdu, 3) == FindEnclosed(apdu, position)
    {
      var read := ReadTag(apdu, position);
      if read.IsFailure() {
        return read.PropagateFailure();
      }
      var tag := read.value;
      if tag.isContext && tag.number == 3 && tag.kind.Opening? {
        var close := SkipToClose(apdu, tag.next);
        if close.IsFailure() {
          return close.PropagateFailure();
        }
        return Value(Some(Slice(apdu, tag.next, close.value.start)));
      }
      position := tag.next;
    }
    r := Value(None);
  }

  // -- Round trips --------------------------------------------------------------------------------------------

  lemma KeyIsRead(apdu: Octets, p: nat, k: ObjectKey)
    requires KeyInRange(k) && At(apdu, p, ContextObjectId(0, k))
    ensures ReadKey(apdu, p) == Value(KeyPart(k, p + |ContextObjectId(0, k)|))
  {
    var word := ReadObjectId(apdu, p, 0, k);
  }

  lemma ReferenceCompose(apdu: Octets, p: nat, key: KeyPart, property: Tag)
    requires ReadKey(apdu, p) == Value(key) && ReadTag(apdu, key.next) == Value(property)
    ensures ReadReference(apdu, p) ==
            Value(ReferencePart(Reference(key.value, BigEndian(property.body)), property.next))
  {
  }

  lemma ReferenceIsRead(apdu: Octets, p: nat, r: Reference)
    requires InRange(r) && At(apdu, p, EncodeReference(r))
    ensures ReadReference(apdu, p) == Value(ReferencePart(r, p + |EncodeReference(r)|))
  {
    hide ReadTag, ReadKey, BigEndian;
    var a, b := ContextObjectId(0, r.key), ContextUnsigned(1, r.property);
    AtParts(apdu, p, a, b);
    KeyIsRead(apdu, p, r.key);
    var body := ReadUnsigned(apdu, p + |a|, 1, r.property);
    ReferenceCompose(apdu, p, KeyPart(r.key, p + |a|), Tag(1, true, Primitive, body, p + |a| + |b|));
  }

  lemma IndexIsRead(apdu: Octets, p: nat, v: Option<nat>)
    requires OptionInRange(v) && At(apdu, p, EncodeOption(2, v)) && At(apdu, p + |EncodeOption(2, v)|, OpeningTag(3))
    ensures ReadIndex(apdu, p) == Value(IndexPart(v, p + |EncodeOption(2, v)|))
  {
    if v.Some? {
      var _ := ReadUnsigned(apdu, p, 2, v.value);
    } else {
      ReadOpening(apdu, p, 3);
    }
  }

  lemma EnclosedIsRead(apdu: Octets, p: nat, items: Items)
    requires Encodable(items) && At(apdu, p, Enclosed(Encode(items)))
    ensures ReadEnclosed(apdu, p) == Value(ValuePart(Encode(items), p + |Enclosed(Encode(items))|))
  {
    hide ReadTag, FindClose, Slice, Encode;
    AtParts(apdu, p, OpeningTag(3), Encode(items) + ClosingTag(3));
    ReadOpening(apdu, p, 3);
    MatchingCloseIsFound(apdu, p + 1, items, 3);
  }

  lemma PriorityIsRead(apdu: Octets, p: nat, v: Option<nat>)
    requires OptionInRange(v) && At(apdu, p, EncodeOption(4, v)) && p + |EncodeOption(4, v)| == |apdu|
    ensures ReadPriority(apdu, p) == Value(v)
  {
    if v.Some? {
      var _ := ReadUnsigned(apdu, p, 4, v.value);
    }
  }

  lemma WriteParametersCompose(apdu: Octets, p: nat, w: WriteRequest, a: nat, b: nat, c: nat)
    requires ReadReference(apdu, p) == Value(ReferencePart(w.reference, a))
    requires ReadIndex(apdu, a) == Value(IndexPart(w.arrayIndex, b))
    requires ReadEnclosed(apdu, b) == Value(ValuePart(w.value, c))
    requires ReadPriority(apdu, c) == Value(w.priority)
    ensures ReadWriteParameters(apdu, p) == Value(w)
  {
  }

  lemma WriteHeadIsRead(apdu: Octets, p: nat, w: WriteRequest) returns (a: nat)
    requires InRange(w.reference) && OptionInRange(w.arrayIndex)
    requires At(apdu, p, EncodeReference(w.reference) + EncodeOption(2, w.arrayIndex))
    requires At(apdu, p + |EncodeReference(w.reference) + EncodeOption(2, w.arrayIndex)|, OpeningTag(3))
    ensures ReadReference(apdu, p) == Value(ReferencePart(w.reference, a))
    ensures ReadIndex(apdu, a) ==
            Value(IndexPart(w.arrayIndex, p + |EncodeReference(w.reference) + EncodeOption(2, w.arrayIndex)|))
  {
    hide ReadTag, ReadReference, ReadIndex, ContextUnsigned, ContextObjectId;
    a := p + |EncodeReference(w.reference)|;
    AtParts(apdu, p, EncodeReference(w.reference), EncodeOption(2, w.arrayIndex));
    ReferenceIsRead(apdu, p, w.reference);
    IndexIsRead(apdu, a, w.arrayIndex);
  }

  lemma WriteTailIsRead(apdu: Octets, p: nat, w: WriteRequest, items: Items) returns (c: nat)
    requires OptionInRange(w.priority) && Encodable(items) && w.value == Encode(items)
    requires At(apdu, p, Enclosed(w.value) + EncodeOption(4, w.priority))
    requires p + |Enclosed(w.value) + EncodeOption(4, w.priority)| == |apdu|
    ensures ReadEnclosed(apdu, p) == Value(ValuePart(w.value, c))
    ensures ReadPriority(apdu, c) == Value(w.priority)
  {
    hide ReadTag, ReadEnclosed, ReadPriority, Encode, ContextUnsigned;
    c := p + |Enclosed(w.value)|;
    AtParts(apdu, p, Enclosed(w.value), EncodeOption(4, w.priority));
    EnclosedIsRead(apdu, p, items);
    PriorityIsRead(apdu, c, w.priority);
  }

  lemma OpeningComesFirst(apdu: Octets, p: nat, value: Octets, rest: Octets)
    requires At(apdu, p, Enclosed(value) + rest)
    ensures At(apdu, p, OpeningTag(3))
  {
    AtParts(apdu, p, Enclosed(value), rest);
    AtParts(apdu, p, OpeningTag(3), value + ClosingTag(3));
  }

  lemma WriteParametersAreRead(apdu: Octets, p: nat, w: WriteRequest, items: Items)
    requires InRange(w.reference) && OptionInRange(w.arrayIndex) && OptionInRange(w.priority)
    requires Encodable(items) && w.value == Encode(items)
    requires At(apdu, p, WriteParameters(w)) && p + |WriteParameters(w)| == |apdu|
    ensures ReadWriteParameters(apdu, p) == Value(w)
  {
    hide ReadTag, ReadReference, ReadIndex, ReadEnclosed, ReadPriority, ReadWriteParameters, Encode;
    var head := EncodeReference(w.reference) + EncodeOption(2, w.arrayIndex);
    var tail := Enclosed(w.value) + EncodeOption(4, w.priority);
    AtParts(apdu, p, head, tail);
    OpeningComesFirst(apdu, p + |head|, w.value, EncodeOption(4, w.priority));
    var a := WriteHeadIsRead(apdu, p, w);
    var c := WriteTailIsRead(apdu, p + |head|, w, items);
    WriteParametersCompose(apdu, p, w, a, p + |head|, c);
  }

  /** Every in-range request, with or without array index and priority, and with any balanced stream as its value,
      is parsed back to exactly its fields. */
  lemma WritePropertyRoundTrip(invokeId: Octet, w: WriteRequest, items: Items)
    requires InRange(w.reference) && OptionInRange(w.arrayIndex) && OptionInRange(w.priority)
    requires Encodable(items) && w.value == Encode(items)
    ensures ParseWriteProperty(WritePropertyRequest(invokeId, w)) == Value(Some(w))
  {
    var apdu := WritePropertyRequest(invokeId, w);
    AtItself(apdu, 4, WriteParameters(w));
    WriteParametersAreRead(apdu, 4, w, items);
  }

  lemma ReadPropertyRoundTrip(invokeId: Octet, r: Reference, arrayIndex: Option<nat>)
    requires InRange(r) && OptionInRange(arrayIndex)
    ensures ParseReadProperty(ReadPropertyRequest(invokeId, r, arrayIndex)) == Value(Some(r))
  {
    var apdu := ReadPropertyRequest(invokeId, r, arrayIndex);
    AtItself(apdu, 4, EncodeReference(r) + EncodeOption(2, arrayIndex));
    AtParts(apdu, 4, EncodeReference(r), EncodeOption(2, arrayIndex));
    ReferenceIsRead(apdu, 4, r);
  }

  lemma EnclosedIsFound(apdu: Octets, p: nat, items: Items)
    requires Encodable(items) && At(apdu, p, Enclosed(Encode(items)))
    ensures FindEnclosed(apdu, p) == Value(Some(Encode(items)))
  {
    hide ReadTag, FindClose, Slice, Encode;
    AtParts(apdu, p, OpeningTag(3), Encode(items) + ClosingTag(3));
    ReadOpening(apdu, p, 3);
    MatchingCloseIsFound(apdu, p + 1, items, 3);
  }

  lemma PrimitiveIsPassed(apdu: Octets, p: nat, tag: Tag)
    requires ReadTag(apdu, p) == Value(tag) && tag.kind.Primitive?
    ensures FindEnclosed(apdu, p) == FindEnclosed(apdu, tag.next)
  {
  }

  lemma ReferenceIsPassed(apdu: Octets, p: nat, r: Reference)
    requires InRange(r) && At(apdu, p, EncodeReference(r))
    ensures FindEnclosed(apdu, p) == FindEnclosed(apdu, p + |EncodeReference(r)|)
  {
    hide ReadTag, BigEndian;
    var a := |ContextObjectId(0, r.key)|;
    AtParts(apdu, p, ContextObjectId(0, r.key), ContextUnsigned(1, r.property));
    var body := ReadUnsigned(apdu, p + a, 1, r.property);
    PrimitiveIsPassed(apdu, p + a, Tag(1, true, Primitive, body, p + |EncodeReference(r)|));
    var word := ReadObjectId(apdu, p, 0, r.key);
    PrimitiveIsPassed(apdu, p, Tag(0, true, Primitive, word, p + a));
  }

  lemma AckValueIsFound(apdu: Octets, p: nat, r: Reference, items: Items)
    requires InRange(r) && Encodable(items) && At(apdu, p, EncodeReference(r) + Enclosed(Encode(items)))
    ensures FindEnclosed(apdu, p) == Value(Some(Encode(items)))
  {
    AtParts(apdu, p, EncodeReference(r), Enclosed(Encode(items)));
    EnclosedIsFound(apdu, p + |EncodeReference(r)|, items);
    ReferenceIsPassed(apdu, p, r);
  }

  /** The value comes out of the acknowledgement whatever is nested in it, [3] included. */
  lemma ReadPropertyAckRoundTrip(invokeId: Octet, r: Reference, items: Items)
    requires InRange(r) && Encodable(items)
    ensures ReadPropertyValue(ReadPropertyAck(invokeId, r, Encode(items))) == Value(Some(Encode(items)))
  {
    var apdu := ReadPropertyAck(invokeId, r, Encode(items));
    AtItself(apdu, 3, EncodeReference(r) + Enclosed(Encode(items)));
    AckValueIsFound(apdu, 3, r, items);
  }

  lemma EnumeratedIsRead(octets: Octets, p: nat, v: nat) returns (body: Octets)
    requires v < 0x1_0000_0000 && At(octets, p, ApplicationEnumerated(v))
    ensures ReadTag(octets, p) == Value(Tag(9, false, Primitive, body, p + |ApplicationEnumerated(v)|))
    ensures BigEndian(body) == v
  {
    body := UnsignedOctets(v);
    ReadPrimitive(octets, p, 9, false, body);
    UnsignedRoundTrip(v);
  }

  lemma ValuesCompose(octets: Octets, p: nat, tag: Tag, rest: seq<(nat, Octets)>)
    requires ReadTag(octets, p) == Value(tag) && tag.kind.Primitive? && !tag.isContext
    requires ApplicationValues(octets, tag.next) == Value(rest)
    ensures ApplicationValues(octets, p) == Value([(tag.number as nat, tag.body)] + rest)
  {
  }

  lemma EnumeratedIsListed(octets: Octets, p: nat, v: nat, rest: seq<(nat, Octets)>) returns (body: Octets)
    requires v < 0x1_0000_0000 && At(octets, p, ApplicationEnumerated(v))
    requires ApplicationValues(octets, p + |ApplicationEnumerated(v)|) == Value(rest)
    ensures ApplicationValues(octets, p) == Value([(9, body)] + rest) && BigEndian(body) == v
  {
    body := EnumeratedIsRead(octets, p, v);
    ValuesCompose(octets, p, Tag(9, false, Primitive, body, p + |ApplicationEnumerated(v)|), rest);
  }

  lemma TwoEnumeratedAreRead(octets: Octets, a: nat, b: nat) returns (first: Octets, second: Octets)
    requires a < 0x1_0000_0000 && b < 0x1_0000_0000
    requires At(octets, 0, ApplicationEnumerated(a) + ApplicationEnumerated(b))
    requires |octets| == |ApplicationEnumerated(a) + ApplicationEnumerated(b)|
    ensures ApplicationValues(octets, 0) == Value([(9, first), (9, second)])
    ensures BigEndian(first) == a && BigEndian(second) == b
  {
    AtParts(octets, 0, ApplicationEnumerated(a), ApplicationEnumerated(b));
    second := EnumeratedIsListed(octets, |ApplicationEnumerated(a)|, b, []);
    var last: seq<(nat, Octets)> := [(9, second)];
    assert last + [] == last;
    first := EnumeratedIsListed(octets, 0, a, last);
    assert [(9 as nat, first)] + last == [(9, first), (9, second)];
  }

  lemma ErrorRoundTrip(invokeId: Octet, service: Octet, errorClass: nat, errorCode: nat)
    requires errorClass < 0x1_0000_0000 && errorCode < 0x1_0000_0000
    ensures ErrorClassAndCode(ErrorPdu(invokeId, service, errorClass, errorCode)) ==
            Value(Some((errorClass, errorCode)))
  {
    var octets := ApplicationEnumerated(errorClass) + ApplicationEnumerated(errorCode);
    SliceOfRest([0x50, invokeId, service], octets);
    AtItself(octets, 0, octets);
    var first, second := TwoEnumeratedAreRead(octets, errorClass, errorCode);
  }
}
