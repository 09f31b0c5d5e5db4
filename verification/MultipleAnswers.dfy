/** What a client reads out of a ReadPropertyMultiple-ACK (section 15.7 of ANSI/ASHRAE 135-2024). The repository builds
    these acknowledgements and does not read them; this reader follows the standard's grammar and uses the
    repository's tag reader alone. */
module MultipleAnswers {
  import opened Wrappers
  import opened Tags
  import opened Apdu
  import opened AccessSpecs
  import opened Server
  import opened ServerMap
  import opened ServerHistory

  datatype PropertyResult = PropertyResult(property: nat, answer: Answered)

  datatype ObjectResult = ObjectResult(key: ObjectKey, results: seq<PropertyResult>)

  datatype ResultPart = ResultPart(value: PropertyResult, next: nat)
  datatype ResultsPart = ResultsPart(value: seq<PropertyResult>, next: nat)

  // -- The reader ------------------------------------------------------------------------------------------

  lemma {:induction false} CloseIsLater(data: Octets, p: nat, depth: nat)
    requires depth >= 1
    ensures FindClose(data, p, depth).Value? ==> FindClose(data, p, depth).value.next > p
    decreases if p < |data| then |data| - p else 0
  {
    hide ReadTag;
    var read := ReadTag(data, p);
    if read.Value? {
      var tag := read.value;
      if !(tag.kind.Closing? && depth == 1) {
        CloseIsLater(data, tag.next,
                     if tag.kind.Opening? then depth + 1 else if tag.kind.Closing? then depth - 1 else depth);
      }
    }
  }

  /** [4] encloses a value, [5] an error class and code. */
  function AnswerIn(number: nat, content: Octets): Decoded<Answered>
  {
    if number == 4 then Value(Shown(content))
    else
      var values :- ApplicationValues(content, 0);
      if |values| != 2 then Truncated else Value(Refused(BigEndian(values[0].1), BigEndian(values[1].1)))
  }

  /** [2] property, then the answer in its pair of tags. */
  function ReadResult(data: Octets, p: nat): (r: Decoded<ResultPart>)
    ensures r.Value? ==> r.value.next > p
  {
    var property :- ReadTag(data, p);
    var opening :- ReadTag(data, property.next);
    var close :- FindClose(data, opening.next, 1);
    CloseIsLater(data, opening.next, 1);
    if !property.isContext || !property.kind.Primitive? || property.number != 2
       || !opening.isContext || !opening.kind.Opening? || (opening.number != 4 && opening.number != 5)
    then Truncated
    else
      var answer :- AnswerIn(opening.number, Slice(data, opening.next, close.start));
      Value(ResultPart(PropertyResult(BigEndian(property.body), answer), close.next))
  }

  /** Results up to the closing tag [1]. */
  function ReadResults(data: Octets, p: nat): (r: Decoded<ResultsPart>)
    ensures r.Value? ==> r.value.next > p
    decreases if p < |data| then |data| - p else 0
  {
    var tag :- ReadTag(data, p);
    if tag.isContext && tag.kind.Closing? && tag.number == 1 then Value(ResultsPart([], tag.next))
    else
      var first :- ReadResult(data, p);
      var rest :- ReadResults(data, first.next);
      Value(ResultsPart([first.value] + rest.value, rest.next))
  }

  /** [0] object identifier, and its results between the tags [1]. */
  function ReadObjects(data: Octets, p: nat): Decoded<seq<ObjectResult>>
    decreases if p < |data| then |data| - p else 0
  {
    if p >= |data| then Value([])
    else
      var identifier :- ReadTag(data, p);
      var opening :- ReadTag(data, identifier.next);
      if !identifier.isContext || !identifier.kind.Primitive? || identifier.number != 0 || |identifier.body| != 4
         || !opening.isContext || !opening.kind.Opening? || opening.number != 1
      then Truncated
      else
        var results :- ReadResults(data, opening.next);
        var rest :- ReadObjects(data, results.next);
        Value([ObjectResult(KeyOf(BigEndian(identifier.body)), results.value)] + rest)
  }

  // -- What is expected --------------------------------------------------------------------------------------

  function ExpectedResult(objects: Table, key: ObjectKey, property: nat): PropertyResult
  {
    PropertyResult(property, match Held(objects, None, Reference(key, property))
                             case Some(v) => Shown(v)
                             case None => Refused(2, 32))
  }

  function ExpectedResults(objects: Table, key: ObjectKey, properties: seq<nat>): seq<PropertyResult>
  {
    if properties == [] then []
    else [ExpectedResult(objects, key, properties[0])] + ExpectedResults(objects, key, properties[1..])
  }

  function Expected(objects: Table, list: seq<Spec>): seq<ObjectResult>
  {
    if list == [] then []
    else [ObjectResult(list[0].key, ExpectedResults(objects, list[0].key, list[0].properties))]
         + Expected(objects, list[1..])
  }

  // -- Reading what was built -----------------------------------------------------------------------------------

  /** A property, and what stands between the tags after it. */
  function Framed(property: nat, number: nat, content: Octets): Octets
    requires property < 0x1_0000_0000 && number <= 14
  {
    ContextUnsigned(2, property) + (OpeningTag(number) + (content + ClosingTag(number)))
  }

  lemma FramedIsRead(data: Octets, p: nat, property: nat, number: nat, items: Items, answer: Answered)
    requires property < 0x1_0000_0000 && (number == 4 || number == 5) && Encodable(items)
    requires At(data, p, Framed(property, number, Encode(items)))
    requires AnswerIn(number, Encode(items)) == Value(answer)
    ensures ReadResult(data, p) ==
            Value(ResultPart(PropertyResult(property, answer), p + |Framed(property, number, Encode(items))|))
    ensures ReadTag(data, p).Value? && ReadTag(data, p).value.kind.Primitive?
  {
    hide ReadTag, FindClose, Slice, Encode, ContextUnsigned, AnswerIn, BigEndian;
    var head, content := ContextUnsigned(2, property), Encode(items);
    AtParts(data, p, head, OpeningTag(number) + (content + ClosingTag(number)));
    AtParts(data, p + |head|, OpeningTag(number), content + ClosingTag(number));
    var body := ReadUnsigned(data, p, 2, property);
    ReadOpening(data, p + |head|, number);
    MatchingCloseIsFound(data, p + |head| + 1, items, number);
  }

  /** The two values of an error, as a balanced stream. */
  function ErrorItems(): (r: Items)
    ensures Encodable(r)
  {
    Item(9, false, UnsignedOctets(2), Item(9, false, UnsignedOctets(32), End))
  }

  lemma ErrorIsRead()
    ensures Encode(ErrorItems()) == ApplicationEnumerated(2) + ApplicationEnumerated(32)
    ensures AnswerIn(5, Encode(ErrorItems())) == Value(Refused(2, 32))
  {
    hide ReadTag, UnsignedOctets, ApplicationValues;
    var inner := Item(9, false, UnsignedOctets(32), End);
    assert Encode(End) == [] && EncodeFirst(inner) == ApplicationEnumerated(32);
    assert ApplicationEnumerated(32) + [] == ApplicationEnumerated(32);
    assert Encode(inner) == ApplicationEnumerated(32);
    assert EncodeFirst(ErrorItems()) == ApplicationEnumerated(2);
    var octets := ApplicationEnumerated(2) + ApplicationEnumerated(32);
    assert octets[0..] == octets;
    AtItself(octets, 0, octets);
    var first, second := TwoEnumeratedAreRead(octets, 2, 32);
  }

  lemma Regroup(a: Octets, b: Octets, c: Octets, e: Octets)
    ensures a + b + c + e == a + ((b + c) + e) && a + b + c == a + (b + c)
  {
  }

  lemma ResultIsFramed(property: nat, value: Option<Octets>)
    requires property < 0x1_0000_0000
    ensures EncodeResult(property, value) ==
            if value.Some? then Framed(property, 4, value.value) else Framed(property, 5, Encode(ErrorItems()))
  {
    hide ContextUnsigned, Encode, UnsignedOctets;
    ErrorIsRead();
    if value.Some? {
      Regroup(OpeningTag(4), value.value, ClosingTag(4), []);
    } else {
      Regroup(OpeningTag(5), ApplicationEnumerated(2), ApplicationEnumerated(32), ClosingTag(5));
    }
  }

  lemma ResultIsRead(data: Octets, p: nat, objects: Table, key: ObjectKey, property: nat)
    requires property < 0x1_0000_0000 && Tidy(objects)
    requires At(data, p, EncodeResult(property, Lookup(objects, key, property)))
    ensures ReadResult(data, p) ==
            Value(ResultPart(ExpectedResult(objects, key, property),
                             p + |EncodeResult(property, Lookup(objects, key, property))|))
    ensures ReadTag(data, p).Value? && ReadTag(data, p).value.kind.Primitive?
  {
    hide ReadTag, ReadResult, EncodeResult, Encode, Framed;
    var value := Lookup(objects, key, property);
    ResultIsFramed(property, value);
    if value.Some? {
      assert Balanced(objects[key][property]);
      var items :| Encodable(items) && Encode(items) == value.value;
      FramedIsRead(data, p, property, 4, items, Shown(value.value));
    } else {
      ErrorIsRead();
      FramedIsRead(data, p, property, 5, ErrorItems(), Refused(2, 32));
    }
  }

  lemma ResultsCompose(data: Octets, p: nat, first: ResultPart, rest: ResultsPart)
    requires ReadTag(data, p).Value? && ReadTag(data, p).value.kind.Primitive?
    requires ReadResult(data, p) == Value(first) && ReadResults(data, first.next) == Value(rest)
    ensures ReadResults(data, p) == Value(ResultsPart([first.value] + rest.value, rest.next))
  {
    hide ReadTag, ReadResult;
  }

  lemma {:induction false} ResultsAreRead(data: Octets, p: nat, objects: Table, key: ObjectKey, properties: seq<nat>)
    requires PropertiesInRange(properties) && Tidy(objects)
    requires At(data, p, EncodeResults(objects, key, properties))
    requires At(data, p + |EncodeResults(objects, key, properties)|, ClosingTag(1))
    ensures ReadResults(data, p) ==
            Value(ResultsPart(ExpectedResults(objects, key, properties),
                              p + |EncodeResults(objects, key, properties)| + 1))
    decreases properties
  {
    hide ReadTag, ReadResult, EncodeResult, ExpectedResult, Lookup, Tidy;
    if properties == [] {
      ReadClosing(data, p, 1);
    } else {
      var first := EncodeResult(properties[0], Lookup(objects, key, properties[0]));
      AtParts(data, p, first, EncodeResults(objects, key, properties[1..]));
      ResultIsRead(data, p, objects, key, properties[0]);
      ResultsAreRead(data, p + |first|, objects, key, properties[1..]);
      ResultsCompose(data, p, ResultPart(ExpectedResult(objects, key, properties[0]), p + |first|),
                     ResultsPart(ExpectedResults(objects, key, properties[1..]),
                                 p + |first| + |EncodeResults(objects, key, properties[1..])| + 1));
    }
  }

  lemma ReadTagIsInside(data: Octets, p: nat)
    ensures ReadTag(data, p).Value? ==> p < |data|
  {
  }

  lemma ObjectsCompose(data: Octets, p: nat, identifier: Tag, opening: Tag, results: ResultsPart,
                       rest: seq<ObjectResult>)
    requires ReadTag(data, p) == Value(identifier) && ReadTag(data, identifier.next) == Value(opening)
    requires identifier.isContext && identifier.kind.Primitive? && identifier.number == 0 && |identifier.body| == 4
    requires opening.isContext && opening.kind.Opening? && opening.number == 1
    requires ReadResults(data, opening.next) == Value(results) && ReadObjects(data, results.next) == Value(rest)
    ensures ReadObjects(data, p) ==
            Value([ObjectResult(KeyOf(BigEndian(identifier.body)), results.value)] + rest)
  {
    ReadTagIsInside(data, p);
    hide ReadTag, ReadResults, KeyOf, BigEndian;
  }

  lemma ObjectParts(data: Octets, p: nat, a: Octets, b: Octets, c: Octets, e: Octets, rest: Octets)
    requires At(data, p, a + b + c + e + rest)
    ensures At(data, p, a) && At(data, p + |a|, b) && At(data, p + |a| + |b|, c)
    ensures At(data, p + |a| + |b| + |c|, e) && At(data, p + |a| + |b| + |c| + |e|, rest)
  {
    AtParts(data, p, a + b + c + e, rest);
    AtParts(data, p, a + b + c, e);
    AtParts(data, p, a + b, c);
    AtParts(data, p, a, b);
  }

  lemma {:induction false} ObjectsAreRead(data: Octets, p: nat, objects: Table, list: seq<Spec>)
    requires SpecsInRange(list) && Tidy(objects)
    requires At(data, p, EncodeAllResults(objects, list)) && p + |EncodeAllResults(objects, list)| == |data|
    ensures ReadObjects(data, p) == Value(Expected(objects, list))
    decreases list
  {
    hide ReadTag, ReadResults, EncodeResults, ExpectedResults, Tidy, ContextObjectId, KeyOf, BigEndian;
    if list == [] {
    } else {
      var a, c := ContextObjectId(0, list[0].key), EncodeResults(objects, list[0].key, list[0].properties);
      var rest, q := EncodeAllResults(objects, list[1..]), p + |a| + 1;
      ObjectParts(data, p, a, OpeningTag(1), c, ClosingTag(1), rest);
      var word := ReadObjectId(data, p, 0, list[0].key);
      ReadOpening(data, p + |a|, 1);
      ResultsAreRead(data, q, objects, list[0].key, list[0].properties);
      ObjectsAreRead(data, q + |c| + 1, objects, list[1..]);
      ObjectsCompose(data, p, Tag(0, true, Primitive, word, p + |a|), Tag(1, true, Opening, [], q),
                     ResultsPart(ExpectedResults(objects, list[0].key, list[0].properties), q + |c| + 1),
                     Expected(objects, list[1..]));
    }
  }

  /** ReadPropertyMultiple, from outside: whatever list of specifications a client encodes, a server that is not offline
      answers under the same invoke id for the merged list, object by object and property by property in order, with
      the value that the table holds, or that there is no such property. */
  lemma MultipleIsUnderstood(d: ValidDevice, s: ServerState, invokeId: Octet, list: seq<Spec>)
    requires SpecsInRange(list) && !s.mode.Offline? && Tidy(s.objects)
    ensures var reply := OutcomeOf(d, s, ConfirmedRequest(invokeId, READ_PROPERTY_MULTIPLE, EncodeSpecs(list))).reply;
            && reply.Value? && reply.value.Some? && |reply.value.value| >= 3 && reply.value.value[1] == invokeId
            && ReadObjects(Slice(reply.value.value, 3, |reply.value.value|), 0) ==
               Value(Expected(s.objects, Merged(list, [])))
  {
    hide OutcomeOf, ReadObjects, Expected, EncodeSpecs, Merged, Tidy, EncodeAllResults, Slice;
    MultipleServesTheTable(d, s, invokeId, list);
    var octets := EncodeAllResults(s.objects, Merged(list, []));
    SliceOfRest([0x30, invokeId, READ_PROPERTY_MULTIPLE], octets);
    assert octets[0..] == octets;
    AtItself(octets, 0, octets);
    ObjectsAreRead(octets, 0, s.objects, Merged(list, []));
  }
}
