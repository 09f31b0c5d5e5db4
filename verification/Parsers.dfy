/** What the parsers of wiretest/codec.py make of octets that no encoder has written so: requests that were cut short,
    other tags than the expected ones, and any balanced stream of values. */
module Parsers {
  import opened Wrappers
  import opened Tags
  import opened Apdu
  import opened AccessSpecs
  import opened TagForms

  // -- Octets that end too early -----------------------------------------------------------------------------

  lemma CutSlice(data: Octets, n: nat, from: nat, end: nat)
    requires end <= n <= |data|
    ensures Slice(data[..n], from, end) == Slice(data, from, end)
  {
    if from < end {
      SliceIsSubsequence(data, from, end);
      SliceIsSubsequence(data[..n], from, end);
    }
  }

  lemma CutLength(data: Octets, n: nat, p: nat, field: nat)
    requires n <= |data| && ReadLength(data, p, field).Value?
    ensures var l := ReadLength(data, p, field);
            ReadLength(data[..n], p, field) == if field == 5 && l.value.next > n then Truncated else l
  {
    hide Join;
  }

  /** A tag read out of a prefix of the data ends where it ends in the whole, and is the same tag if it ends there
      within the prefix. */
  ghost predicate CutTag(data: Octets, n: nat, p: nat)
    requires n <= |data|
  {
    var whole, part := ReadTag(data, p), ReadTag(data[..n], p);
    whole.Value? ==>
      && (whole.value.next <= n ==> part == whole)
      && (whole.value.next > n ==>
            part == Truncated || (part.Value? && part.value.next == whole.value.next
                                  && whole.value.kind.Primitive? && part.value.kind.Primitive?))
  }

  lemma CutContent(data: Octets, n: nat, p: nat, number: nat, isContext: bool, low: nat)
    requires p <= n <= |data| && ReadContent(data, p, number, isContext, low).Value?
    ensures var whole := ReadContent(data, p, number, isContext, low);
            var part := ReadContent(data[..n], p, number, isContext, low);
            && (whole.value.next <= n ==> part == whole)
            && (whole.value.next > n ==>
                  part == Truncated || (part.Value? && part.value.next == whole.value.next
                                        && whole.value.kind.Primitive? && part.value.kind.Primitive?))
  {
    hide ReadLength, Slice;
    if !isContext || (low != 6 && low != 7) {
      var l := ReadLength(data, p, low).value;
      CutLength(data, n, p, low);
      if l.next + l.length <= n {
        CutSlice(data, n, l.next, l.next + l.length);
      }
    }
  }

  lemma TagIsCut(data: Octets, n: nat, p: nat)
    requires n <= |data|
    ensures CutTag(data, n, p)
  {
    hide ReadContent;
    if p < n && ReadTag(data, p).Value? {
      var Initial(high, isContext, low) := Split(data[p]);
      if high < 15 {
        CutContent(data, n, p + 1, high, isContext, low);
      } else if p + 1 < n {
        CutContent(data, n, p + 2, data[p + 1], isContext, low);
      }
    }
  }

  lemma {:induction false} CloseIsCut(data: Octets, n: nat, p: nat, depth: nat)
    requires n <= |data| && depth >= 1 && FindClose(data, p, depth).Value?
    ensures var close := FindClose(data, p, depth);
            FindClose(data[..n], p, depth) == if close.value.next <= n then close else Truncated
    ensures p <= FindClose(data, p, depth).value.start < FindClose(data, p, depth).value.next
    decreases if p < |data| then |data| - p else 0
  {
    hide ReadTag;
    TagIsCut(data, n, p);
    var tag := ReadTag(data, p).value;
    if !(tag.kind.Closing? && depth == 1) {
      CloseIsCut(data, n, tag.next,
                 if tag.kind.Opening? then depth + 1 else if tag.kind.Closing? then depth - 1 else depth);
    }
  }

  lemma NothingAfterTheEnd(data: Octets, p: nat)
    ensures p >= |data| ==> ReadTag(data, p) == Truncated
  {
  }

  /** A reference, an index or an enclosed value that ends beyond the prefix leaves nothing to be read after it. */
  lemma ReferenceIsCut(data: Octets, n: nat, p: nat)
    requires n <= |data| && ReadReference(data, p).Value?
    ensures var whole, part := ReadReference(data, p), ReadReference(data[..n], p);
            && (whole.value.next <= n ==> part == whole)
            && (whole.value.next > n ==> part == Truncated || (part.Value? && part.value.next == whole.value.next))
  {
    hide ReadTag, BigEndian, KeyOf;
    TagIsCut(data, n, p);
    TagIsCut(data, n, ReadTag(data, p).value.next);
    NothingAfterTheEnd(data[..n], ReadTag(data, p).value.next);
  }

  lemma EnclosedIsCut(data: Octets, n: nat, p: nat)
    requires n <= |data| && ReadEnclosed(data, p).Value?
    ensures var whole := ReadEnclosed(data, p);
            && ReadEnclosed(data[..n], p) == (if whole.value.next <= n then whole else Truncated)
            && ReadTag(data, p).Value? && ReadTag(data, p).value.next < whole.value.next
  {
    hide ReadTag, FindClose, Slice;
    TagIsCut(data, n, p);
    var opening := ReadTag(data, p).value;
    var close := FindClose(data, opening.next, 1).value;
    CloseIsCut(data, n, opening.next, 1);
    if close.next <= n {
      CutSlice(data, n, opening.next, close.start);
    }
  }

  lemma EnclosedNeedsATag(data: Octets, p: nat)
    ensures p >= |data| || ReadTag(data, p) == Truncated ==> ReadEnclosed(data, p) == Truncated
    ensures ReadTag(data, p).Value? && ReadTag(data, p).value.next >= |data| ==> ReadEnclosed(data, p) == Truncated
  {
  }

  lemma IndexIsCut(data: Octets, n: nat, p: nat, i: IndexPart, v: ValuePart)
    requires n < v.next && n <= |data| && ReadIndex(data, p) == Value(i) && ReadEnclosed(data, i.next) == Value(v)
    ensures var part := ReadIndex(data[..n], p);
            part == Truncated || (part.Value? && ReadEnclosed(data[..n], part.value.next) == Truncated)
  {
    hide ReadTag, ReadEnclosed, BigEndian;
    TagIsCut(data, n, p);
    EnclosedIsCut(data, n, i.next);
    EnclosedNeedsATag(data[..n], p);
    EnclosedNeedsATag(data[..n], ReadTag(data, p).value.next);
  }

  lemma ParametersAreCut(data: Octets, n: nat, p: nat, r: ReferencePart, i: IndexPart, v: ValuePart)
    requires n < v.next && n <= |data| && ReadReference(data, p) == Value(r)
    requires ReadIndex(data, r.next) == Value(i) && ReadEnclosed(data, i.next) == Value(v)
    ensures ReadWriteParameters(data[..n], p) == Truncated
  {
    hide ReadTag, ReadReference, ReadEnclosed, BigEndian;
    ReferenceIsCut(data, n, p);
    if ReadReference(data[..n], p).Value? {
      if r.next > n {
        NothingAfterTheEnd(data[..n], r.next);
      } else {
        IndexIsCut(data, n, r.next, i, v);
      }
    }
  }

  lemma NoPriority(w: WriteRequest)
    requires InRange(w.reference) && OptionInRange(w.arrayIndex) && OptionInRange(w.priority)
    ensures |WriteParameters(w.(priority := None))| ==
            |EncodeReference(w.reference) + EncodeOption(2, w.arrayIndex)| + |Enclosed(w.value)|
  {
    hide EncodeReference;
  }

  /** Wherever a WriteProperty request is cut before the end of its value, it is refused: never parsed to something
      else, and never left to fail in the caller. */
  lemma CutWritesAreRefused(invokeId: Octet, w: WriteRequest, items: Items, n: nat)
    requires InRange(w.reference) && OptionInRange(w.arrayIndex) && OptionInRange(w.priority)
    requires Encodable(items) && w.value == Encode(items)
    requires n < |WritePropertyRequest(invokeId, w.(priority := None))|
    ensures n < |WritePropertyRequest(invokeId, w)|
    ensures ParseWriteProperty(WritePropertyRequest(invokeId, w)[..n]) == Value(None)
  {
    hide ReadTag, ReadReference, ReadIndex, ReadEnclosed, ReadWriteParameters, Encode, EncodeReference, EncodeOption;
    var apdu := WritePropertyRequest(invokeId, w);
    var head := EncodeReference(w.reference) + EncodeOption(2, w.arrayIndex);
    var priority := EncodeOption(4, w.priority);
    AtItself(apdu, 4, WriteParameters(w));
    AtParts(apdu, 4, head, Enclosed(w.value) + priority);
    OpeningComesFirst(apdu, 4 + |head|, w.value, priority);
    var a := WriteHeadIsRead(apdu, 4, w);
    AtParts(apdu, 4 + |head|, Enclosed(w.value), priority);
    EnclosedIsRead(apdu, 4 + |head|, items);
    NoPriority(w);
    ParametersAreCut(apdu, n, 4, ReferencePart(w.reference, a), IndexPart(w.arrayIndex, 4 + |head|),
                     ValuePart(w.value, 4 + |head| + |Enclosed(w.value)|));
  }

  /** And so is a ReadProperty request that is cut before its property identifier. */
  lemma CutReadsAreRefused(invokeId: Octet, r: Reference, arrayIndex: Option<nat>, n: nat)
    requires InRange(r) && OptionInRange(arrayIndex) && n <= 9
    ensures n < |ReadPropertyRequest(invokeId, r, arrayIndex)|
    ensures ParseReadProperty(ReadPropertyRequest(invokeId, r, arrayIndex)[..n]) == Value(None)
  {
    hide ReadTag, BigEndian, KeyOf, UnsignedOctets;
    var apdu := ReadPropertyRequest(invokeId, r, arrayIndex);
    AtItself(apdu, 4, EncodeReference(r) + EncodeOption(2, arrayIndex));
    AtParts(apdu, 4, EncodeReference(r), EncodeOption(2, arrayIndex));
    AtParts(apdu, 4, ContextObjectId(0, r.key), ContextUnsigned(1, r.property));
    var word := ReadObjectId(apdu, 4, 0, r.key);
    TagIsCut(apdu, n, 4);
    NothingAfterTheEnd(apdu[..n], 9);
  }

  // -- Other octets than the expected ones --------------------------------------------------------------------

  /** No other PDU type or service is parsed as a WriteProperty request, however its parameters read. */
  lemma OnlyWritePropertyIsParsed(apdu: Octets)
    requires |apdu| < 4 || apdu[0] / 16 != 0 || apdu[3] != 15
    ensures ParseWriteProperty(apdu) == Value(None)
  {
  }

  /** After the property, a primitive with tag number 2 is the array index; any other primitive is left where it is. */
  lemma OnlyTagTwoIsAnIndex(apdu: Octets, p: nat, number: nat, isContext: bool, body: Octets)
    requires number < 255 && (isContext || number != 1) && |body| < 0x1_0000_0000
    requires At(apdu, p, PrimitiveTag(number, isContext, |body|) + body)
    ensures ReadIndex(apdu, p) ==
            if number == 2
            then Value(IndexPart(Some(BigEndian(body)), p + |PrimitiveTag(number, isContext, |body|)| + |body|))
            else Value(IndexPart(None, p))
  {
    hide ReadTag, BigEndian, PrimitiveTag;
    ReadAnyPrimitive(apdu, p, number, isContext, body);
  }

  /** While no object is current, all but a context tag 0 of four octets is passed over; while one is, all but context
      tags 0 and the closing tag 1. */
  lemma StraysArePassed(value: Octets, p: nat, s: State, tag: Tag)
    requires Consistent(s) && ReadTag(value, p) == Value(tag)
    requires tag.kind.Primitive? && tag.isContext && tag.number == 0 ==> s.current.None? && |tag.body| != 4
    requires tag.kind.Closing? && tag.number == 1 ==> s.current.None?
    ensures ReadSpecs(value, p, s) == ReadSpecs(value, tag.next, s)
  {
  }

  /** An object identifier that has not four octets is no object identifier. */
  lemma OnlyWholeIdentifiersAreParsed(apdu: Octets, identifier: Tag)
    requires ReadTag(apdu, 4) == Value(identifier) && |identifier.body| != 4
    ensures ParseReadProperty(apdu) == Value(None) && ParseWriteProperty(apdu) == Value(None)
  {
    hide ReadTag;
  }

  // -- Any balanced stream of values ---------------------------------------------------------------------------

  /** The application-tagged primitives of a stream in order, however deep they are nested. */
  function Applications(items: Items): seq<(nat, Octets)>
    requires Encodable(items)
    decreases items, 1
  {
    if items.End? then [] else FirstApplications(items) + Applications(items.rest)
  }

  function FirstApplications(items: Items): seq<(nat, Octets)>
    requires !items.End? && Encodable(items)
    decreases items, 0
  {
    match items
    case Item(number, isContext, body, _) => if isContext then [] else [(number, body)]
    case Boolean(v, _) => [(1, [v])]
    case Nested(_, inner, _) => Applications(inner)
  }

  lemma ValuesMove(octets: Octets, p: nat, tag: Tag, rest: seq<(nat, Octets)>)
    requires ReadTag(octets, p) == Value(tag) && ApplicationValues(octets, tag.next) == Value(rest)
    ensures ApplicationValues(octets, p) ==
            Value((if tag.kind.Primitive? && !tag.isContext then [(tag.number as nat, tag.body)] else []) + rest)
  {
    hide ReadTag;
    assert [] + rest == rest;
  }

  lemma {:induction false} NestedIsListed(octets: Octets, p: nat, number: nat, inner: Items, rest: seq<(nat, Octets)>)
    requires number <= 14 && Encodable(inner)
    requires At(octets, p, OpeningTag(number) + (Encode(inner) + ClosingTag(number)))
    requires ApplicationValues(octets, p + 1 + |Encode(inner)| + 1) == Value(rest)
    ensures ApplicationValues(octets, p) == Value(Applications(inner) + rest)
    decreases inner, 3
  {
    hide ReadTag, ApplicationValues, Encode, Applications;
    var q := p + 1 + |Encode(inner)|;
    NestedParts(octets, p, number, Encode(inner));
    ValuesMove(octets, q, Tag(number, true, Closing, [], q + 1), rest);
    assert [] + rest == rest;
    ValuesAreListed(octets, p + 1, inner, rest);
    ValuesMove(octets, p, Tag(number, true, Opening, [], p + 1), Applications(inner) + rest);
    assert [] + (Applications(inner) + rest) == Applications(inner) + rest;
  }

  lemma {:induction false} FirstIsListed(octets: Octets, p: nat, items: Items, rest: seq<(nat, Octets)>)
    requires !items.End? && Encodable(items) && At(octets, p, EncodeFirst(items))
    requires ApplicationValues(octets, p + |EncodeFirst(items)|) == Value(rest)
    ensures ApplicationValues(octets, p) == Value(FirstApplications(items) + rest)
    decreases items, 1
  {
    hide ReadTag, ApplicationValues, Header, Encode, Applications;
    match items
    case Item(number, isContext, body, _) =>
      ReadPrimitive(octets, p, number, isContext, body);
      ValuesMove(octets, p, Tag(number, isContext, Primitive, body, p + |EncodeFirst(items)|), rest);
    case Boolean(v, _) =>
      ReadBoolean(octets, p, v);
      ValuesMove(octets, p, Tag(1, false, Primitive, [v], p + 1), rest);
    case Nested(number, inner, _) => NestedIsListed(octets, p, number, inner, rest);
  }

  lemma {:induction false} ValuesAreListed(octets: Octets, p: nat, items: Items, rest: seq<(nat, Octets)>)
    requires Encodable(items) && At(octets, p, Encode(items))
    requires ApplicationValues(octets, p + |Encode(items)|) == Value(rest)
    ensures ApplicationValues(octets, p) == Value(Applications(items) + rest)
    decreases items, 2
  {
    hide ReadTag, ApplicationValues, EncodeFirst, FirstApplications;
    if items.End? {
      assert [] + rest == rest;
    } else {
      AtParts(octets, p, EncodeFirst(items), Encode(items.rest));
      ValuesAreListed(octets, p + |EncodeFirst(items)|, items.rest, rest);
      FirstIsListed(octets, p, items, Applications(items.rest) + rest);
      assert FirstApplications(items) + (Applications(items.rest) + rest) == Applications(items) + rest;
    }
  }

  /** Every application-tagged primitive of a balanced stream is listed, in order, and nothing else. */
  lemma ApplicationValuesAreAll(items: Items)
    requires Encodable(items)
    ensures ApplicationValues(Encode(items), 0) == Value(Applications(items))
  {
    AtItself(Encode(items), 0, Encode(items));
    ValuesAreListed(Encode(items), 0, items, []);
    assert Applications(items) + [] == Applications(items);
  }
}
