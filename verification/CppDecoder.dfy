/** The helper's own decoder (common/CASExampleHelper.cpp), written independently of wiretest/codec.py, and how far
    the two agree. It walks one buffer by absolute offsets; every read below is proved to stay inside. */
module CppDecoder {
  import opened Wrappers
  import opened Tags
  import opened Apdu
  import opened Frames

  // -- What stands in a buffer's tail ---------------------------------------------------------------------

  function Suffix(data: Octets, base: nat): Octets { Slice(data, base, |data|) }

  lemma SuffixAt(data: Octets, base: nat, i: nat)
    requires base <= |data|
    ensures |Suffix(data, base)| == |data| - base
    ensures i < |Suffix(data, base)| ==> Suffix(data, base)[i] == data[base + i]
  {
    SliceIsSubsequence(data, base, |data|);
  }

  lemma {:induction false} SliceShift(data: Octets, base: nat, from: nat, end: nat)
    requires base <= |data|
    ensures Slice(Suffix(data, base), from, end) == Slice(data, base + from, base + end)
    decreases end
  {
    if from >= end {
    } else {
      SuffixAt(data, base, end - 1);
      SliceShift(data, base, from, end - 1);
    }
  }

  lemma SuffixOfSuffix(data: Octets, base: nat, p: nat)
    requires base <= |data|
    ensures Suffix(Suffix(data, base), p) == Suffix(data, base + p)
  {
    SuffixAt(data, base, 0);
    SliceShift(data, base, p, |data| - base);
  }

  // -- Tags -------------------------------------------------------------------------------------------------

  datatype TagHeader = TagHeader(
    tagNumber: nat, contextSpecific: bool, isOpeningTag: bool, isClosingTag: bool, length: nat, headerLength: nat)

  function KindOf(h: TagHeader): Kind
  {
    if h.isOpeningTag then Opening else if h.isClosingTag then Closing else Primitive
  }

  /** The tag a header announces, as the other decoder returns it. */
  function Announced(frame: Octets, offset: nat, h: TagHeader): Tag
  {
    var start := offset + h.headerLength;
    Tag(h.tagNumber, h.contextSpecific, KindOf(h),
        if h.isOpeningTag || h.isClosingTag then [] else Slice(frame, start, start + h.length), start + h.length)
  }

  /** Exact agreement on one tag. None stands for the source's false, given for a truncated header and for an
      application tag with length/value/type 6 or 7. */
  ghost predicate Agrees(frame: Octets, offset: nat, tag: Decoded<Tag>, r: Option<TagHeader>)
  {
    match r
    case None => tag.Value? ==> !tag.value.isContext
    case Some(h) =>
      && h.headerLength >= 1 && offset + h.headerLength <= |frame|
      && (h.isOpeningTag || h.isClosingTag ==> h.length == 0)
      && tag == if h.contextSpecific || h.tagNumber != 1 then Value(Announced(frame, offset, h))
                else if h.length < 256 then Value(Tag(1, false, Primitive, [h.length], offset + h.headerLength))
                else Uncaught
  }

  method DecodeLength(frame: Octets, start: nat, lvt: nat) returns (r: Decoded<Length>)
    requires lvt <= 5
    ensures r == ReadLength(frame, start, lvt)
  {
    if lvt <= 4 {
      return Value(Length(lvt, start));
    }
    if start >= |frame| {
      return Truncated;
    }
    var lenByte, pos := frame[start], start + 1;
    if lenByte < 254 {
      return Value(Length(lenByte, pos));
    } else if lenByte == 254 {
      if pos + 2 > |frame| {
        return Truncated;
      }
      return Value(Length(Join(0, 0, frame[pos], frame[pos + 1]), pos + 2));
    }
    if pos + 4 > |frame| {
      return Truncated;
    }
    r := Value(Length(Join(frame[pos], frame[pos + 1], frame[pos + 2], frame[pos + 3]), pos + 4));
  }

  /** The part after the tag number. */
  method DecodeContent(frame: Octets, offset: nat, pos: nat, tagNumber: nat, contextSpecific: bool, lvt: nat)
    returns (r: Option<TagHeader>)
    requires offset < pos <= |frame| && lvt < 8
    ensures Agrees(frame, offset, ReadContent(frame, pos, tagNumber, contextSpecific, lvt), r)
  {
    if contextSpecific && lvt >= 6 {
      return Some(TagHeader(tagNumber, true, lvt == 6, lvt == 7, 0, pos - offset));
    }
    if lvt > 5 {
      return None;
    }
    var length := DecodeLength(frame, pos, lvt);
    if length.IsFailure() {
      return None;
    }
    r := Some(TagHeader(tagNumber, contextSpecific, false, false, length.value.length, length.value.next - offset));
  }

  method DecodeTagHeader(frame: Octets, offset: nat) returns (r: Option<TagHeader>)
    ensures Agrees(frame, offset, ReadTag(frame, offset), r)
  {
    if offset >= |frame| {
      return None;
    }
    var pos := offset;
    var b0 := frame[pos];
    var tagNumber: nat, contextSpecific, lvt := b0 / 16, (b0 / 8) % 2 == 1, b0 % 8;
    pos := pos + 1;
    if tagNumber == 0x0F {
      if pos >= |frame| {
        return None;
      }
      tagNumber := frame[pos];
      pos := pos + 1;
    }
    r := DecodeContent(frame, offset, pos, tagNumber, contextSpecific, lvt);
  }

  // -- Object, property and index ---------------------------------------------------------------------------

  datatype Field = Field(size: nat, value: nat, next: nat)

  /** A context-tagged primitive of one to four octets, all of them inside the buffer. */
  function FieldOf(r: Decoded<Tag>, size: nat, number: nat): Option<Field>
  {
    if r.Value? && r.value.isContext && r.value.kind.Primitive? && r.value.number == number
       && 1 <= |r.value.body| <= 4 && r.value.next <= size
    then Some(Field(|r.value.body|, BigEndian(r.value.body), r.value.next)) else None
  }

  function FieldAt(frame: Octets, p: nat, number: nat): Option<Field> { FieldOf(ReadTag(frame, p), |frame|, number) }

  /** The reference at p, checked more strictly than the other decoder's parsers check it. */
  function ReferenceAt(frame: Octets, p: nat): Option<ReferencePart>
  {
    match FieldAt(frame, p, 0)
    case None => None
    case Some(first) =>
      if first.size != 4 then None
      else match FieldAt(frame, first.next, 1)
        case None => None
        case Some(second) => Some(ReferencePart(Reference(KeyOf(first.value), second.value), second.next))
  }

  function IndexAt(frame: Octets, p: nat): Option<nat>
  {
    match FieldAt(frame, p, 2)
    case None => None
    case Some(index) => Some(index.value)
  }

  /** The header's own test for a field. */
  predicate PassesFor(frame: Octets, offset: nat, r: Option<TagHeader>, number: nat)
  {
    r.Some? && r.value.contextSpecific && r.value.tagNumber == number && 1 <= r.value.length <= 4
    && offset + r.value.headerLength + r.value.length <= |frame|
  }

  lemma FieldTest(frame: Octets, offset: nat, tag: Decoded<Tag>, r: Option<TagHeader>, number: nat)
    requires Agrees(frame, offset, tag, r)
    ensures FieldOf(tag, |frame|, number).Some? <==> PassesFor(frame, offset, r, number)
    ensures PassesFor(frame, offset, r, number) ==>
              var start, next := offset + r.value.headerLength, offset + r.value.headerLength + r.value.length;
              FieldOf(tag, |frame|, number) == Some(Field(r.value.length, BigEndian(frame[start..next]), next))
  {
    hide Slice, BigEndian;
    if r.Some? {
      var start, next := offset + r.value.headerLength, offset + r.value.headerLength + r.value.length;
      SliceLength(frame, start, next);
      if next <= |frame| {
        SliceIsSubsequence(frame, start, next);
      }
    }
  }

  /** The loops that read a property identifier or an index. */
  method ReadBigEndian(frame: Octets, start: nat, length: nat) returns (v: nat)
    requires length <= 4 && start + length <= |frame|
    ensures v == BigEndian(frame[start..start + length])
  {
    v := 0;
    for i := 0 to length
      invariant v == BigEndian(frame[start..start + i])
    {
      assert frame[start..start + i + 1][..i] == frame[start..start + i];
      v := v * 256 + frame[start + i];
    }
  }

  /** The test and the loop that the source writes out three times. */
  method DecodeField(frame: Octets, offset: nat, number: nat) returns (r: Option<Field>)
    ensures r == FieldAt(frame, offset, number)
  {
    var header := DecodeTagHeader(frame, offset);
    FieldTest(frame, offset, ReadTag(frame, offset), header, number);
    if !PassesFor(frame, offset, header, number) {
      return None;
    }
    var start := offset + header.value.headerLength;
    var value := ReadBigEndian(frame, start, header.value.length);
    r := Some(Field(header.value.length, value, start + header.value.length));
  }

  // -- The decoded frame --------------------------------------------------------------------------------------

  /** What is found of an APDU. An option stands for a flag and the field set along with it. */
  datatype ApduInfo = ApduInfo(
    pduType: nat, segmented: bool, invokeId: Option<Octet>, service: Option<Octet>, reason: Option<Octet>,
    reference: Option<Reference>, arrayIndex: Option<nat>)

  /** The out parameter. Pointers into the frame are the octets they point at, a null pointer none. */
  datatype FrameInfo = FrameInfo(
    bacnetIp: bool, bvlcFunction: Octet, hasNpdu: bool, npduVersion: Octet, npduControl: Octet,
    hasDest: bool, dnet: nat, dadr: Octets, hasSrc: bool, snet: nat, sadr: Octets,
    isNetworkMessage: bool, networkMessageType: Octet, hasApdu: bool, apdu: ApduInfo)
  {
    function Destination(): Route { Route(if hasDest then Some(dnet) else None, dadr, 0) }

    function Source(): Route { Route(if hasSrc then Some(snet) else None, sadr, 0) }

    predicate AddressesAgree(n: Npdu)
    {
      n.dnet == Destination().net && n.dadr == dadr && n.snet == Source().net && n.sadr == sadr
    }
  }

  const NO_APDU := ApduInfo(0xFF, false, None, None, None, None, None)

  const NO_FRAME := FrameInfo(false, 0, false, 0, 0, false, 0, [], false, 0, [], false, 0, false, NO_APDU)

  method DecodeObjectAndProperty(frame: Octets, offset: nat)
    returns (reference: Option<Reference>, arrayIndex: Option<nat>)
    ensures reference.Some? == ReferenceAt(frame, offset).Some?
    ensures reference.Some? ==> reference.value == ReferenceAt(frame, offset).value.value
                                && arrayIndex == IndexAt(frame, ReferenceAt(frame, offset).value.next)
    ensures reference.None? ==> arrayIndex.None?
  {
    reference, arrayIndex := None, None;
    var identifier := DecodeField(frame, offset, 0);
    if identifier.None? || identifier.value.size != 4 {
      return;
    }
    var property := DecodeField(frame, identifier.value.next, 1);
    if property.None? {
      return;
    }
    reference := Some(Reference(KeyOf(identifier.value.value), property.value.value));
    var index := DecodeField(frame, property.value.next, 2);
    if index.Some? {
      arrayIndex := Some(index.value.value);
    }
  }

  /** Where the service choice stands, counted from the beginning of the APDU. */
  function ServiceAt(pduType: nat, segmented: bool): nat
  {
    if pduType == 0 then (if segmented then 5 else 3) else (if segmented then 4 else 2)
  }

  predicate HasReference(pduType: nat, service: Octet)
  {
    if pduType == 0 then service == READ_PROPERTY || service == WRITE_PROPERTY
    else pduType == 3 && service == READ_PROPERTY
  }

  predicate ReferenceAgrees(apdu: Octets, offset: nat, i: ApduInfo)
  {
    var part := ReferenceAt(apdu, offset);
    i.reference.Some? == part.Some?
    && (if part.Some? then i.reference.value == part.value.value && i.arrayIndex == IndexAt(apdu, part.value.next)
        else i.arrayIndex.None?)
  }

  /** What is reported of an APDU, in terms of the other decoder. That one knows no segmentation, and finds an
      invoke id in an acknowledgement, error, reject or abort of two octets. */
  predicate ApduAgrees(apdu: Octets, i: ApduInfo)
  {
    && apdu != [] && ApduType(apdu) == Some(i.pduType)
    && (i.segmented <==> (i.pduType == 0 || i.pduType == 3) && BitSet(apdu[0], 0x08))
    && (ApduInvokeId(apdu) == Value(i.invokeId) || (i.invokeId.None? && |apdu| <= 2))
    && (i.segmented || ApduService(apdu) == Value(i.service) || (ApduService(apdu).Truncated? && i.service.None?))
    && (i.segmented ==> var p := ServiceAt(i.pduType, true); i.service == if p < |apdu| then Some(apdu[p]) else None)
    && i.reason == (if (i.pduType == 6 || i.pduType == 7) && |apdu| > 2 then Some(apdu[2]) else None)
    && (if i.service.Some? && HasReference(i.pduType, i.service.value)
        then ReferenceAgrees(apdu, ServiceAt(i.pduType, i.segmented) + 1, i)
        else i.reference.None? && i.arrayIndex.None?)
  }

  function OctetOf(apdu: Octets, p: nat): Option<Octet> { if p < |apdu| then Some(apdu[p]) else None }

  /** What is to be shown of a request or a complex acknowledgement. */
  lemma ParametersAgree(apdu: Octets, i: ApduInfo)
    requires apdu != [] && apdu[0] / 16 == i.pduType && (i.pduType == 0 || i.pduType == 3)
    requires i.segmented == BitSet(apdu[0], 0x08) && i.reason.None?
    requires i.invokeId == OctetOf(apdu, if i.pduType == 0 then 2 else 1)
    requires i.service == OctetOf(apdu, ServiceAt(i.pduType, i.segmented))
    requires if i.service.Some? && HasReference(i.pduType, i.service.value)
             then ReferenceAgrees(apdu, ServiceAt(i.pduType, i.segmented) + 1, i)
             else i.reference.None? && i.arrayIndex.None?
    ensures ApduAgrees(apdu, i)
  {
  }

  lemma SuffixOctet(frame: Octets, offset: nat, p: nat)
    requires offset < |frame|
    ensures OctetOf(Suffix(frame, offset), p) == OctetOf(frame, offset + p)
    ensures Suffix(frame, offset) != [] && Suffix(frame, offset)[0] == frame[offset]
  {
    SuffixAt(frame, offset, p);
    SuffixAt(frame, offset, 0);
  }

  function Shifted(r: Decoded<Tag>, base: nat): Decoded<Tag>
    requires r.Value? ==> r.value.next >= base
  {
    match r
    case Value(tag) => Value(Tag(tag.number, tag.isContext, tag.kind, tag.body, tag.next - base))
    case Truncated => Truncated
    case Uncaught => Uncaught
  }

  lemma LengthShift(data: Octets, base: nat, p: nat, low: nat)
    requires base <= |data|
    ensures ReadLength(Suffix(data, base), p, low) ==
            match ReadLength(data, base + p, low)
            case Value(l) => Value(Length(l.length, l.next - base))
            case Truncated => Truncated
            case Uncaught => Uncaught
  {
    SuffixAt(data, base, p);
    SuffixAt(data, base, p + 1);
    SuffixAt(data, base, p + 2);
    SuffixAt(data, base, p + 3);
    SuffixAt(data, base, p + 4);
  }

  lemma ContentShift(data: Octets, base: nat, p: nat, number: nat, isContext: bool, low: nat)
    requires base <= |data|
    ensures ReadContent(Suffix(data, base), p, number, isContext, low) ==
            Shifted(ReadContent(data, base + p, number, isContext, low), base)
  {
    LengthShift(data, base, p, low);
    var l := ReadLength(Suffix(data, base), p, low);
    if l.Value? {
      SliceShift(data, base, l.value.next, l.value.next + l.value.length);
    }
  }

  lemma TagShift(data: Octets, base: nat, p: nat)
    requires base <= |data|
    ensures ReadTag(Suffix(data, base), p) == Shifted(ReadTag(data, base + p), base)
  {
    SuffixAt(data, base, p);
    SuffixAt(data, base, p + 1);
    if p < |Suffix(data, base)| {
      var first := Split(data[base + p]);
      ContentShift(data, base, p + 1, first.number, first.isContext, first.low);
      if p + 1 < |Suffix(data, base)| {
        ContentShift(data, base, p + 2, data[base + p + 1], first.isContext, first.low);
      }
    }
  }

  lemma FieldShift(data: Octets, base: nat, p: nat, number: nat)
    requires base <= |data|
    ensures var f, g := FieldAt(Suffix(data, base), p, number), FieldAt(data, base + p, number);
            && f.Some? == g.Some?
            && (g.Some? ==> g.value.next >= base && f.value == Field(g.value.size, g.value.value, g.value.next - base))
  {
    SuffixAt(data, base, 0);
    TagShift(data, base, p);
  }

  lemma IndexShift(data: Octets, base: nat, p: nat)
    requires base <= |data|
    ensures IndexAt(Suffix(data, base), p) == IndexAt(data, base + p)
  {
    FieldShift(data, base, p, 2);
  }

  lemma ReferenceShift(data: Octets, base: nat, p: nat)
    requires base <= |data|
    ensures var a, b := ReferenceAt(Suffix(data, base), p), ReferenceAt(data, base + p);
            && a.Some? == b.Some?
            && (a.Some? ==> a.value.value == b.value.value
                            && IndexAt(Suffix(data, base), a.value.next) == IndexAt(data, b.value.next))
  {
    hide ReadTag, KeyOf;
    FieldShift(data, base, p, 0);
    var first := FieldAt(Suffix(data, base), p, 0);
    if first.Some? {
      FieldShift(data, base, first.value.next, 1);
      var second := FieldAt(Suffix(data, base), first.value.next, 1);
      if second.Some? {
        IndexShift(data, base, second.value.next);
      }
    }
  }

  /** Confirmed-Request. */
  method DecodeRequest(frame: Octets, offset: nat, start: ApduInfo) returns (i: ApduInfo)
    requires offset < |frame| && start == NO_APDU.(pduType := 0) && frame[offset] / 16 == 0
    ensures ApduAgrees(Suffix(frame, offset), i)
  {
    hide ReadTag, ReferenceAt, IndexAt, ApduAgrees, Slice;
    i := start.(segmented := BitSet(frame[offset], 0x08));
    SuffixOctet(frame, offset, 2);
    SuffixOctet(frame, offset, ServiceAt(0, i.segmented));
    var serviceOffset := offset + if i.segmented then 5 else 3;
    if offset + 2 >= |frame| {
      ParametersAgree(Suffix(frame, offset), i);
      return;
    }
    i := i.(invokeId := Some(frame[offset + 2]));
    if serviceOffset >= |frame| {
      ParametersAgree(Suffix(frame, offset), i);
      return;
    }
    i := i.(service := Some(frame[serviceOffset]));
    if i.service.value == READ_PROPERTY || i.service.value == WRITE_PROPERTY {
      ReferenceShift(frame, offset, ServiceAt(0, i.segmented) + 1);
      var reference, arrayIndex := DecodeObjectAndProperty(frame, serviceOffset + 1);
      i := i.(reference := reference, arrayIndex := arrayIndex);
    }
    ParametersAgree(Suffix(frame, offset), i);
  }

  method DecodeComplexAck(frame: Octets, offset: nat, start: ApduInfo) returns (i: ApduInfo)
    requires offset < |frame| && start == NO_APDU.(pduType := 3) && frame[offset] / 16 == 3
    ensures ApduAgrees(Suffix(frame, offset), i)
  {
    hide ReadTag, ReferenceAt, IndexAt, ApduAgrees, Slice;
    i := start.(segmented := BitSet(frame[offset], 0x08));
    SuffixOctet(frame, offset, 1);
    SuffixOctet(frame, offset, ServiceAt(3, i.segmented));
    var serviceOffset := offset + if i.segmented then 4 else 2;
    if offset + 1 >= |frame| {
      ParametersAgree(Suffix(frame, offset), i);
      return;
    }
    i := i.(invokeId := Some(frame[offset + 1]));
    if serviceOffset >= |frame| {
      ParametersAgree(Suffix(frame, offset), i);
      return;
    }
    i := i.(service := Some(frame[serviceOffset]));
    if i.service.value == READ_PROPERTY {
      ReferenceShift(frame, offset, ServiceAt(3, i.segmented) + 1);
      var reference, arrayIndex := DecodeObjectAndProperty(frame, serviceOffset + 1);
      i := i.(reference := reference, arrayIndex := arrayIndex);
    }
    ParametersAgree(Suffix(frame, offset), i);
  }

  /** SimpleACK and Error. */
  method DecodeAnswer(frame: Octets, offset: nat, start: ApduInfo) returns (i: ApduInfo)
    requires offset < |frame| && frame[offset] / 16 in {2, 5} && start == NO_APDU.(pduType := frame[offset] / 16)
    ensures ApduAgrees(Suffix(frame, offset), i)
  {
    SuffixAt(frame, offset, 0);
    SuffixAt(frame, offset, 1);
    SuffixAt(frame, offset, 2);
    i := start;
    if offset + 2 < |frame| {
      i := i.(invokeId := Some(frame[offset + 1]), service := Some(frame[offset + 2]));
    }
  }

  /** Reject and Abort. */
  method DecodeRefusal(frame: Octets, offset: nat, start: ApduInfo) returns (i: ApduInfo)
    requires offset < |frame| && frame[offset] / 16 in {6, 7} && start == NO_APDU.(pduType := frame[offset] / 16)
    ensures ApduAgrees(Suffix(frame, offset), i)
  {
    SuffixAt(frame, offset, 0);
    SuffixAt(frame, offset, 1);
    SuffixAt(frame, offset, 2);
    i := start;
    if offset + 2 < |frame| {
      i := i.(invokeId := Some(frame[offset + 1]), reason := Some(frame[offset + 2]));
    }
  }

  method DecodeApdu(frame: Octets, offset: nat) returns (i: ApduInfo)
    requires offset < |frame|
    ensures ApduAgrees(Suffix(frame, offset), i)
  {
    SuffixAt(frame, offset, 0);
    SuffixAt(frame, offset, 1);
    SuffixAt(frame, offset, 2);
    SuffixAt(frame, offset, 3);
    i := NO_APDU.(pduType := frame[offset] / 16);
    match i.pduType {
      case 0 => i := DecodeRequest(frame, offset, i);
      case 1 =>
        if offset + 1 < |frame| {
          i := i.(service := Some(frame[offset + 1]));
        }
      case 2 => i := DecodeAnswer(frame, offset, i);
      case 3 => i := DecodeComplexAck(frame, offset, i);
      case 5 => i := DecodeAnswer(frame, offset, i);
      case 6 => i := DecodeRefusal(frame, offset, i);
      case 7 => i := DecodeRefusal(frame, offset, i);
      case _ =>
    }
  }

  /** Some when the whole address is inside the frame. */
  method DecodeAddress(frame: Octets, offset: nat) returns (r: Option<Route>)
    ensures r.Some? ==> ReadRoute(frame, offset, true) == Value(r.value) && r.value.net.Some? && r.value.next <= |frame|
    ensures r.None? && ReadRoute(frame, offset, true).Value? ==> ReadRoute(frame, offset, true).value.next > |frame|
  {
    if offset + 3 > |frame| {
      return None;
    }
    var net, length := Join(0, 0, frame[offset], frame[offset + 1]), frame[offset + 2];
    if offset + 3 + length > |frame| {
      return None;
    }
    r := Some(Route(Some(net), Slice(frame, offset + 3, offset + 3 + length), offset + 3 + length));
  }

  /** Where the routing runs to the end of the frame, or past it, no payload is left. */
  lemma RouteLost(frame: Octets, start: nat, control: Octet)
    requires var d := ReadRoute(frame, start, BitSet(control, 0x20));
             d.Value? ==> var s := ReadRoute(frame, d.value.next, BitSet(control, 0x08));
                          s.Value? ==> (if BitSet(control, 0x20) then s.value.next + 1 else s.value.next) >= |frame|
    ensures ReadRouted(frame, start, control).Value? ==>
              ReadRouted(frame, start, control).value.networkMessage.None?
              && ReadRouted(frame, start, control).value.payload == []
  {
  }

  /** The rest depends on the addresses alone, not on where they ended. */
  lemma RouteReached(frame: Octets, start: nat, control: Octet, d: Route, s: Route, d': Route, s': Route)
    requires ReadRoute(frame, start, BitSet(control, 0x20)) == Value(d)
    requires ReadRoute(frame, d.next, BitSet(control, 0x08)) == Value(s)
    requires d.net == d'.net && d.address == d'.address && s.net == s'.net && s.address == s'.address
    ensures ReadRouted(frame, start, control) ==
            ReadRest(frame, if BitSet(control, 0x20) then s.next + 1 else s.next,
                     BitSet(control, 0x80), BitSet(control, 0x04), d', s')
  {
    hide Slice, ReadRoute;
  }

  lemma FirstRouteLost(frame: Octets, start: nat, control: Octet)
    requires var d := ReadRoute(frame, start, BitSet(control, 0x20)); d.Value? ==> d.value.next >= |frame|
    ensures ReadRouted(frame, start, control).Value? ==>
              ReadRouted(frame, start, control).value.networkMessage.None?
              && ReadRouted(frame, start, control).value.payload == []
  {
    RouteLost(frame, start, control);
  }

  lemma AbsentRoute(frame: Octets, p: nat)
    ensures ReadRoute(frame, p, false) == Value(Route(None, [], p))
  {
  }

  /** The address fields and the hop count; None where the frame ends before anything follows them. */
  method DecodeRoutes(frame: Octets, start: nat, before: FrameInfo) returns (r: Option<nat>, out: FrameInfo)
    requires start <= |frame| && before.dadr == [] && before.sadr == []
    requires before.hasDest == BitSet(before.npduControl, 0x20) && before.hasSrc == BitSet(before.npduControl, 0x08)
    ensures out == before.(dnet := out.dnet, dadr := out.dadr, snet := out.snet, sadr := out.sadr)
    ensures r.Some? ==> r.value < |frame|
    ensures r.Some? ==>
              ReadRouted(frame, start, out.npduControl) ==
              ReadRest(frame, r.value, BitSet(out.npduControl, 0x80), BitSet(out.npduControl, 0x04),
                       out.Destination(), out.Source())
    ensures r.None? && ReadRouted(frame, start, out.npduControl).Value? ==>
              ReadRouted(frame, start, out.npduControl).value.networkMessage.None?
              && ReadRouted(frame, start, out.npduControl).value.payload == []
  {
    hide Slice, Join, BitSet, ReadRest, ReadRouted, ReadRoute;
    var offset := start;
    ghost var destination, source := Route(None, [], start), Route(None, [], start);
    out := before;
    AbsentRoute(frame, start);
    if out.hasDest {
      var d := DecodeAddress(frame, offset);
      if d.None? {
        FirstRouteLost(frame, start, out.npduControl);
        return None, out;
      }
      out := out.(dnet := d.value.net.value, dadr := d.value.address);
      offset := d.value.next;
      destination, source := d.value, Route(None, [], offset);
      AbsentRoute(frame, offset);
    }
    if out.hasSrc {
      var s := DecodeAddress(frame, offset);
      if s.None? {
        RouteLost(frame, start, out.npduControl);
        return None, out;
      }
      out := out.(snet := s.value.net.value, sadr := s.value.address);
      offset := s.value.next;
      source := s.value;
    }
    if out.hasDest {
      if offset >= |frame| {
        RouteLost(frame, start, out.npduControl);
        return None, out;
      }
      offset := offset + 1;
    }
    if offset >= |frame| {
      RouteLost(frame, start, out.npduControl);
      return None, out;
    }
    RouteReached(frame, start, out.npduControl, destination, source, out.Destination(), out.Source());
    r := Some(offset);
  }

  /** Of an NPDU whose routing the other decoder reads as r: the APDU is reached exactly where there is one. */
  predicate NpduAgrees(r: Decoded<Npdu>, i: FrameInfo)
  {
    && (i.hasApdu <==> r.Value? && r.value.networkMessage.None? && r.value.payload != [])
    && (i.hasApdu ==> i.AddressesAgree(r.value) && ApduAgrees(r.value.payload, i.apdu))
    && (r.Value? && r.value.networkMessage.Some? ==>
        i.isNetworkMessage && i.AddressesAgree(r.value) && i.networkMessageType == r.value.networkMessage.value)
  }

  method DecodeNpdu(frame: Octets, start: nat, function_: Octet) returns (out: FrameInfo)
    requires start + 2 <= |frame|
    ensures out.bacnetIp && out.bvlcFunction == function_ && out.hasNpdu
    ensures out.npduVersion == frame[start] && out.npduControl == frame[start + 1]
    ensures NpduAgrees(ReadRouted(frame, start + 2, frame[start + 1]), out)
  {
    out := NO_FRAME.(bacnetIp := true, bvlcFunction := function_, hasNpdu := true,
                     npduVersion := frame[start], npduControl := frame[start + 1]);
    out := out.(hasDest := BitSet(out.npduControl, 0x20), hasSrc := BitSet(out.npduControl, 0x08),
                isNetworkMessage := BitSet(out.npduControl, 0x80));
    var next: Option<nat>;
    next, out := DecodeRoutes(frame, start + 2, out);
    if next.None? {
      return;
    }
    if out.isNetworkMessage {
      out := out.(networkMessageType := frame[next.value]);
      return;
    }
    SuffixAt(frame, next.value, 0);
    var apdu := DecodeApdu(frame, next.value);
    out := out.(hasApdu := true, apdu := apdu);
  }

  /** Where the NPDU of a frame begins. */
  function NpduAt(frame: Octets): nat
    requires |frame| >= 4
  {
    if frame[1] == FORWARDED_NPDU then 10 else 4
  }

  /** Of a whole frame, in terms of what the other decoder makes of it. For another protocol version, and for a
      Distribute-Broadcast-To-Network, only one of the two goes on. */
  predicate FrameAgrees(frame: Octets, i: FrameInfo)
  {
    var decoded := DecodeFrame(frame);
    && (i.bacnetIp <==> |frame| >= 4 && frame[0] == 0x81)
    && (i.bacnetIp ==> i.bvlcFunction == frame[1])
    && (i.hasNpdu <==> i.bacnetIp && CarriesNpdu(frame[1]) && frame[1] != DISTRIBUTE_BROADCAST
                       && NpduAt(frame) + 2 <= |frame|)
    && (i.hasNpdu ==> i.npduVersion == frame[NpduAt(frame)] && i.npduControl == frame[NpduAt(frame) + 1])
    && (i.hasApdu && i.npduVersion == 1 <==>
        decoded.Value? && ApduOf(decoded.value) != [] && decoded.value.bvlcFunction != Some(DISTRIBUTE_BROADCAST))
    && (i.hasApdu && i.npduVersion == 1 ==>
        i.AddressesAgree(decoded.value.npdu.value) && ApduAgrees(ApduOf(decoded.value), i.apdu))
    && (decoded.Value? && decoded.value.bvlcFunction != Some(DISTRIBUTE_BROADCAST) && decoded.value.npdu.Some?
        && decoded.value.npdu.value.networkMessage.Some? ==>
        i.isNetworkMessage && !i.hasApdu && i.AddressesAgree(decoded.value.npdu.value)
        && i.networkMessageType == decoded.value.npdu.value.networkMessage.value)
  }

  lemma RouteShift(data: Octets, base: nat, p: nat, present: bool)
    requires base <= |data|
    ensures ReadRoute(Suffix(data, base), p, present) ==
            match ReadRoute(data, base + p, present)
            case Value(r) => Value(Route(r.net, r.address, r.next - base))
            case Truncated => Truncated
            case Uncaught => Uncaught
  {
    SuffixAt(data, base, p);
    SuffixAt(data, base, p + 1);
    SuffixAt(data, base, p + 2);
    if p + 3 <= |Suffix(data, base)| {
      SliceShift(data, base, p + 3, p + 3 + Suffix(data, base)[p + 2]);
    }
  }

  lemma RestShift(data: Octets, base: nat, p: nat, message: bool, reply: bool, d: Route, s: Route)
    requires base <= |data|
    ensures ReadRest(Suffix(data, base), p, message, reply, d, s) == ReadRest(data, base + p, message, reply, d, s)
  {
    SuffixAt(data, base, p);
    SuffixOfSuffix(data, base, p);
    SuffixOfSuffix(data, base, p + 1);
    SuffixOfSuffix(data, base, p + 3);
  }

  lemma RestIgnoresPositions(data: Octets, p: nat, message: bool, reply: bool, d: Route, s: Route, d': Route, s': Route)
    requires d.net == d'.net && d.address == d'.address && s.net == s'.net && s.address == s'.address
    ensures ReadRest(data, p, message, reply, d, s) == ReadRest(data, p, message, reply, d', s')
  {
  }

  lemma RoutedShift(data: Octets, base: nat, p: nat, control: Octet)
    requires base <= |data|
    ensures ReadRouted(Suffix(data, base), p, control) == ReadRouted(data, base + p, control)
  {
    hide Slice, ReadRest, ReadRoute;
    var octets := Suffix(data, base);
    var d, d' := ReadRoute(octets, p, BitSet(control, 0x20)), ReadRoute(data, base + p, BitSet(control, 0x20));
    RouteShift(data, base, p, BitSet(control, 0x20));
    if d.Value? {
      var s := ReadRoute(octets, d.value.next, BitSet(control, 0x08));
      var s' := ReadRoute(data, d'.value.next, BitSet(control, 0x08));
      RouteShift(data, base, d.value.next, BitSet(control, 0x08));
      if s.Value? {
        var q := if BitSet(control, 0x20) then s.value.next + 1 else s.value.next;
        RestShift(data, base, q, BitSet(control, 0x80), BitSet(control, 0x04), d.value, s.value);
        RestIgnoresPositions(data, base + q, BitSet(control, 0x80), BitSet(control, 0x04),
                             d.value, s.value, d'.value, s'.value);
      }
    }
  }

  /** What the other decoder makes of a frame of which the NPDU begins at base. */
  lemma FrameTail(frame: Octets, base: nat)
    requires |frame| >= 4 && frame[0] == 0x81 && frame[1] in {FORWARDED_NPDU, ORIGINAL_UNICAST, ORIGINAL_BROADCAST}
    requires base == if frame[1] == FORWARDED_NPDU then 10 else 4
    ensures var decoded := DecodeFrame(frame);
            if base + 2 > |frame| || frame[base] != 1 then decoded.Value? && decoded.value.npdu.None?
            else match ReadRouted(frame, base + 2, frame[base + 1])
              case Value(n) => decoded.Value? && decoded.value.npdu == Some(n)
              case Truncated => decoded == Truncated
              case Uncaught => decoded == Uncaught
  {
    if base <= |frame| {
      SuffixAt(frame, base, 0);
      SuffixAt(frame, base, 1);
      RoutedShift(frame, base, 2, frame[if base + 1 < |frame| then base + 1 else 0]);
    } else {
      assert Slice(frame, base, |frame|) == [];
    }
  }

  method DecodeBacnetFrame(frame: Octets) returns (out: FrameInfo)
    ensures FrameAgrees(frame, out)
  {
    out := NO_FRAME;
    if |frame| < 4 || frame[0] != 0x81 {
      return;
    }
    out := out.(bacnetIp := true, bvlcFunction := frame[1]);
    var offset: nat := 4;
    match frame[1] {
      case 0x0A =>
      case 0x0B =>
      case 0x04 => offset := 10;
      case _ => return;
    }
    FrameTail(frame, offset);
    if offset + 2 <= |frame| {
      out := DecodeNpdu(frame, offset, frame[1]);
    }
  }

  // -- What is recovered ---------------------------------------------------------------------------------------

  /** Wherever this decoder reports a reference or an index, on any octets, the other one's parser reads the same. */
  lemma ReferenceMatchesParser(apdu: Octets, p: nat)
    requires ReferenceAt(apdu, p).Some?
    ensures ReadReference(apdu, p) == Value(ReferenceAt(apdu, p).value)
    ensures var q := ReferenceAt(apdu, p).value.next;
            IndexAt(apdu, q).Some? ==> ReadIndex(apdu, q).Value? && ReadIndex(apdu, q).value.value == IndexAt(apdu, q)
  {
    var first := ReadTag(apdu, p).value;
    ReferenceCompose(apdu, p, ReadKey(apdu, p).value, ReadTag(apdu, first.next).value);
  }

  lemma UnsignedIsField(data: Octets, p: nat, number: nat, v: nat)
    requires number <= 14 && v < 0x1_0000_0000 && At(data, p, ContextUnsigned(number, v))
    ensures var f := FieldAt(data, p, number);
            f.Some? && f.value.value == v && f.value.next == p + |ContextUnsigned(number, v)|
  {
    var body := ReadUnsigned(data, p, number, v);
  }

  lemma ObjectIdIsField(data: Octets, p: nat, k: ObjectKey)
    requires KeyInRange(k) && At(data, p, ContextObjectId(0, k))
    ensures var f := FieldAt(data, p, 0);
            f.Some? && f.value.size == 4 && KeyOf(f.value.value) == k && f.value.next == p + |ContextObjectId(0, k)|
  {
    var body := ReadObjectId(data, p, 0, k);
  }

  lemma ReferenceIsFound(apdu: Octets, p: nat, r: Reference)
    requires InRange(r) && At(apdu, p, EncodeReference(r))
    ensures ReferenceAt(apdu, p) == Some(ReferencePart(r, p + |EncodeReference(r)|))
  {
    hide ReadTag, KeyOf;
    AtParts(apdu, p, ContextObjectId(0, r.key), ContextUnsigned(1, r.property));
    ObjectIdIsField(apdu, p, r.key);
    UnsignedIsField(apdu, p + |ContextObjectId(0, r.key)|, 1, r.property);
  }

  lemma IndexIsFound(apdu: Octets, p: nat, v: Option<nat>)
    requires OptionInRange(v) && At(apdu, p, EncodeOption(2, v))
    requires v.None? ==> p == |apdu| || At(apdu, p, OpeningTag(3))
    ensures IndexAt(apdu, p) == v
  {
    if v.Some? {
      UnsignedIsField(apdu, p, 2, v.value);
    } else if p < |apdu| {
      ReadOpening(apdu, p, 3);
    }
  }

  /** The fixed part of a confirmed request. */
  lemma RequestHead(apdu: Octets, invokeId: Octet, service: Octet, i: ApduInfo)
    requires |apdu| >= 4 && apdu[0] == 0 && apdu[2] == invokeId && apdu[3] == service
    requires (service == READ_PROPERTY || service == WRITE_PROPERTY) && ApduAgrees(apdu, i)
    ensures i == ApduInfo(0, false, Some(invokeId), Some(service), None, i.reference, i.arrayIndex)
    ensures ReferenceAgrees(apdu, 4, i)
  {
  }

  lemma ParametersAreRecovered(apdu: Octets, p: nat, r: Reference, index: Option<nat>, i: ApduInfo)
    requires InRange(r) && OptionInRange(index) && At(apdu, p, EncodeReference(r) + EncodeOption(2, index))
    requires var q := p + |EncodeReference(r) + EncodeOption(2, index)|; q == |apdu| || At(apdu, q, OpeningTag(3))
    requires ReferenceAgrees(apdu, p, i)
    ensures i.reference == Some(r) && i.arrayIndex == index
  {
    hide ReadTag, ReferenceAt, IndexAt;
    AtParts(apdu, p, EncodeReference(r), EncodeOption(2, index));
    ReferenceIsFound(apdu, p, r);
    IndexIsFound(apdu, p + |EncodeReference(r)|, index);
  }

  lemma ReadRequestIsRecovered(invokeId: Octet, r: Reference, index: Option<nat>, i: ApduInfo)
    requires InRange(r) && OptionInRange(index) && ApduAgrees(ReadPropertyRequest(invokeId, r, index), i)
    ensures i == ApduInfo(0, false, Some(invokeId), Some(READ_PROPERTY), None, Some(r), index)
  {
    var apdu := ReadPropertyRequest(invokeId, r, index);
    RequestHead(apdu, invokeId, READ_PROPERTY, i);
    AtItself(apdu, 4, EncodeReference(r) + EncodeOption(2, index));
    ParametersAreRecovered(apdu, 4, r, index, i);
  }

  lemma WriteRequestIsRecovered(invokeId: Octet, w: WriteRequest, i: ApduInfo)
    requires InRange(w.reference) && OptionInRange(w.arrayIndex) && OptionInRange(w.priority)
    requires ApduAgrees(WritePropertyRequest(invokeId, w), i)
    ensures i == ApduInfo(0, false, Some(invokeId), Some(WRITE_PROPERTY), None, Some(w.reference), w.arrayIndex)
  {
    var apdu := WritePropertyRequest(invokeId, w);
    var head, tail := EncodeReference(w.reference) + EncodeOption(2, w.arrayIndex),
        Enclosed(w.value) + EncodeOption(4, w.priority);
    RequestHead(apdu, invokeId, WRITE_PROPERTY, i);
    AtItself(apdu, 4, head + tail);
    AtParts(apdu, 4, head, tail);
    OpeningComesFirst(apdu, 4 + |head|, w.value, EncodeOption(4, w.priority));
    ParametersAreRecovered(apdu, 4, w.reference, w.arrayIndex, i);
  }

  /** From every ReadProperty or WriteProperty request that the Python side encodes, however routed, the C++ side
      recovers the addresses, the invoke id, the service, the object, the property and the index. */
  lemma RequestsAreRecovered(function_: Octet, mac: Octets, n: Npdu, hopCount: Octet, invokeId: Octet,
                             w: WriteRequest, i: FrameInfo)
    requires NpduInRange(n) && n.networkMessage.None?
    requires function_ in {FORWARDED_NPDU, ORIGINAL_UNICAST, ORIGINAL_BROADCAST}
    requires if function_ == FORWARDED_NPDU then |mac| == 6 else mac == []
    requires 4 + |Body(function_, mac, n, hopCount)| < 0x1_0000
    requires InRange(w.reference) && OptionInRange(w.arrayIndex) && OptionInRange(w.priority)
    requires FrameAgrees(Bvll(function_, Body(function_, mac, n, hopCount)), i)
    ensures n.payload == ReadPropertyRequest(invokeId, w.reference, w.arrayIndex) ==>
              i.apdu == ApduInfo(0, false, Some(invokeId), Some(READ_PROPERTY), None, Some(w.reference), w.arrayIndex)
    ensures n.payload == WritePropertyRequest(invokeId, w) ==>
              i.apdu == ApduInfo(0, false, Some(invokeId), Some(WRITE_PROPERTY), None, Some(w.reference), w.arrayIndex)
    ensures n.payload != [] ==> i.hasApdu && i.AddressesAgree(Received(n))
  {
    FrameIsDecoded(function_, mac, n, hopCount);
    if n.payload == ReadPropertyRequest(invokeId, w.reference, w.arrayIndex) {
      ReadRequestIsRecovered(invokeId, w.reference, w.arrayIndex, i.apdu);
    }
    if n.payload == WritePropertyRequest(invokeId, w) {
      WriteRequestIsRecovered(invokeId, w, i.apdu);
    }
  }

  /** The fixed part of a complex acknowledgement. */
  lemma AckHead(apdu: Octets, invokeId: Octet, i: ApduInfo)
    requires |apdu| >= 3 && apdu[0] == 0x30 && apdu[1] == invokeId && apdu[2] == READ_PROPERTY && ApduAgrees(apdu, i)
    ensures i == ApduInfo(3, false, Some(invokeId), Some(READ_PROPERTY), None, i.reference, i.arrayIndex)
    ensures ReferenceAgrees(apdu, 3, i)
  {
    hide ReferenceAgrees;
  }

  lemma OpeningOfEnclosed(apdu: Octets, p: nat, value: Octets)
    requires At(apdu, p, Enclosed(value))
    ensures At(apdu, p, OpeningTag(3))
  {
    AtParts(apdu, p, OpeningTag(3), value + ClosingTag(3));
  }

  /** From every ReadProperty-ACK that the Python side encodes, whatever its value, the C++ side recovers the invoke id,
      the service, the object and the property. */
  lemma AcknowledgementsAreRecovered(invokeId: Octet, r: Reference, value: Octets, i: ApduInfo)
    requires InRange(r) && ApduAgrees(ReadPropertyAck(invokeId, r, value), i)
    ensures i == ApduInfo(3, false, Some(invokeId), Some(READ_PROPERTY), None, Some(r), None)
  {
    hide ApduAgrees, ReferenceAgrees, EncodeReference, Enclosed;
    var apdu, head := ReadPropertyAck(invokeId, r, value), EncodeReference(r);
    AckHead(apdu, invokeId, i);
    assert apdu[3..] == head + Enclosed(value);
    AtItself(apdu, 3, head + Enclosed(value));
    AtParts(apdu, 3, head, Enclosed(value));
    assert EncodeOption(2, None) == [] && head + EncodeOption(2, None) == head;
    OpeningOfEnclosed(apdu, 3 + |head|, value);
    ParametersAreRecovered(apdu, 3, r, None, i);
  }

  /** A segmented request has its sequence number and window size in octets 3 and 4, and its service after them; a
      segmented acknowledgement has them in octets 2 and 3 (sections 20.1.2 and 20.1.5 of ANSI/ASHRAE 135-2024). */
  lemma SegmentedServiceIsReported(apdu: Octets, i: ApduInfo)
    requires ApduAgrees(apdu, i) && |apdu| >= 6 && BitSet(apdu[0], 0x08)
    ensures apdu[0] / 16 == 0 ==> i.segmented && i.invokeId == Some(apdu[2]) && i.service == Some(apdu[5])
    ensures apdu[0] / 16 == 3 ==> i.segmented && i.invokeId == Some(apdu[1]) && i.service == Some(apdu[4])
    ensures apdu[0] / 16 == 0 && (apdu[5] == 12 || apdu[5] == 15) ==>
              i.reference.Some? == ReferenceAt(apdu, 6).Some?
              && (i.reference.Some? ==> i.reference.value == ReferenceAt(apdu, 6).value.value)
    ensures apdu[0] / 16 == 3 && apdu[4] == 12 ==>
              i.reference.Some? == ReferenceAt(apdu, 5).Some?
              && (i.reference.Some? ==> i.reference.value == ReferenceAt(apdu, 5).value.value)
  {
    hide ReferenceAt, IndexAt;
  }
}
