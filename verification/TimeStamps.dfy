/** BACnetTimeStamp (section 21.6 of ANSI/ASHRAE 135-2024) as wiretest/alarm.py builds, reads and skips it. */
module TimeStamps {
  import opened Wrappers
  import opened Tags

  datatype Stamp = Stamp(date: Octets, time: Octets)

  /** The stamp is None for every form but dateTime. */
  datatype Choice = Choice(stamp: Option<Stamp>, next: nat)

  function DateTime(s: Stamp): Octets { OpeningTag(2) + (([0xA4] + s.date) + (([0xB4] + s.time) + ClosingTag(2))) }

  /** The dateTime form inside context tag `number`. The two headers announce four octets each. */
  function ContextDateTime(number: nat, s: Stamp): Octets
    requires number <= 14
  {
    OpeningTag(number) + (DateTime(s) + ClosingTag(number))
  }

  function SkipConstructed(octets: Octets, p: nat): Decoded<nat>
  {
    var close :- FindClose(octets, p, 1);
    Value(close.next)
  }

  function ReadTimeStampChoice(octets: Octets, p: nat): Decoded<Choice>
  {
    var tag :- ReadTag(octets, p);
    if tag.kind.Opening? && tag.number == 2 then
      var date :- ReadTag(octets, tag.next);
      var time :- ReadTag(octets, date.next);
      var closing :- ReadTag(octets, time.next);
      Value(Choice(Some(Stamp(date.body, time.body)), closing.next))
    else if tag.kind.Opening? then
      var next :- SkipConstructed(octets, tag.next);
      Value(Choice(None, next))
    else Value(Choice(None, tag.next))
  }

  /** From just after the outer opening tag to just after the outer closing one. */
  function ReadTimeStamp(octets: Octets, p: nat): Decoded<Choice>
  {
    var choice :- ReadTimeStampChoice(octets, p);
    var closing :- ReadTag(octets, choice.next);
    Value(Choice(choice.stamp, closing.next))
  }

  /** The depth-counting loop. */
  method PassConstructed(octets: Octets, start: nat) returns (r: Decoded<nat>)
    ensures r == SkipConstructed(octets, start)
  {
    hide ReadTag;
    var position: nat, depth: nat := start, 1;
    while depth != 0
      invariant depth != 0 ==> FindClose(octets, start, 1) == FindClose(octets, position, depth)
      invariant depth == 0 ==> SkipConstructed(octets, start) == Value(position)
      decreases depth != 0, if position < |octets| then |octets| - position else 0
    {
      var read := ReadTag(octets, position);
      if read.IsFailure() {
        return read.PropagateFailure();
      }
      position := read.value.next;
      match read.value.kind {
        case Opening => depth := depth + 1;
        case Closing => depth := depth - 1;
        case Primitive =>
      }
    }
    r := Value(position);
  }

  // -- What is read ---------------------------------------------------------------------------------------

  /** The same octets as a balanced stream. */
  function Inner(s: Stamp): Items { Item(10, false, s.date, Item(11, false, s.time, End)) }

  predicate FourEach(s: Stamp) { |s.date| == 4 && |s.time| == 4 }

  lemma DateTimeIsBalanced(s: Stamp)
    requires FourEach(s)
    ensures Encodable(Nested(2, Inner(s), End)) && Encode(Nested(2, Inner(s), End)) == DateTime(s)
  {
    var time := Item(11, false, s.time, End);
    assert Header(10, false, 4) == [0xA4] && Header(11, false, 4) == [0xB4];
    assert Encode(End) == [];
    assert EncodeFirst(time) == [0xB4] + s.time == Encode(time);
    assert EncodeFirst(Inner(s)) == [0xA4] + s.date;
    assert Encode(Inner(s)) == ([0xA4] + s.date) + ([0xB4] + s.time);
    assert EncodeFirst(Nested(2, Inner(s), End)) == DateTime(s);
  }

  lemma FourOctetsAreRead(octets: Octets, p: nat, number: nat, body: Octets)
    requires 2 <= number <= 14 && |body| == 4 && At(octets, p, [16 * number + 4] + body)
    ensures ReadTag(octets, p) == Value(Tag(number, false, Primitive, body, p + 5))
  {
    ReadPrimitive(octets, p, number, false, body);
  }

  lemma ChoiceComposes(octets: Octets, p: nat, s: Stamp)
    requires ReadTag(octets, p) == Value(Tag(2, true, Opening, [], p + 1))
    requires ReadTag(octets, p + 1) == Value(Tag(10, false, Primitive, s.date, p + 6))
    requires ReadTag(octets, p + 6) == Value(Tag(11, false, Primitive, s.time, p + 11))
    requires ReadTag(octets, p + 11) == Value(Tag(2, true, Closing, [], p + 12))
    ensures ReadTimeStampChoice(octets, p) == Value(Choice(Some(s), p + 12))
  {
  }

  lemma DateTimeIsRead(octets: Octets, p: nat, s: Stamp)
    requires FourEach(s) && At(octets, p, DateTime(s))
    ensures ReadTimeStampChoice(octets, p) == Value(Choice(Some(s), p + 12))
  {
    AtParts(octets, p, OpeningTag(2), ([0xA4] + s.date) + (([0xB4] + s.time) + ClosingTag(2)));
    AtParts(octets, p + 1, [0xA4] + s.date, ([0xB4] + s.time) + ClosingTag(2));
    AtParts(octets, p + 6, [0xB4] + s.time, ClosingTag(2));
    ReadOpening(octets, p, 2);
    FourOctetsAreRead(octets, p + 1, 10, s.date);
    FourOctetsAreRead(octets, p + 6, 11, s.time);
    ReadClosing(octets, p + 11, 2);
    ChoiceComposes(octets, p, s);
  }

  /** A dateTime stamp is read back exactly, and reading it ends where skipping it would. */
  lemma TimeStampRoundTrip(octets: Octets, p: nat, number: nat, s: Stamp)
    requires number <= 14 && FourEach(s) && At(octets, p, ContextDateTime(number, s))
    ensures ReadTag(octets, p) == Value(Tag(number, true, Opening, [], p + 1))
    ensures ReadTimeStamp(octets, p + 1) == Value(Choice(Some(s), p + |ContextDateTime(number, s)|))
    ensures SkipConstructed(octets, p + 1) == Value(p + |ContextDateTime(number, s)|)
  {
    AtParts(octets, p, OpeningTag(number), DateTime(s) + ClosingTag(number));
    ReadOpening(octets, p, number);
    DateTimeIsBalanced(s);
    MatchingCloseIsFound(octets, p + 1, Nested(2, Inner(s), End), number);
    AtParts(octets, p + 1, DateTime(s), ClosingTag(number));
    DateTimeIsRead(octets, p + 1, s);
    ReadClosing(octets, p + 13, number);
  }

  /** Any other constructed form, however deep, is passed over whole and gives no stamp. */
  lemma OtherFormsArePassed(octets: Octets, p: nat, number: nat, inner: Items)
    requires number <= 14 && number != 2 && Encodable(inner)
    requires At(octets, p, OpeningTag(number) + (Encode(inner) + ClosingTag(number)))
    ensures ReadTimeStampChoice(octets, p) == Value(Choice(None, p + |Encode(inner)| + 2))
  {
    AtParts(octets, p, OpeningTag(number), Encode(inner) + ClosingTag(number));
    ReadOpening(octets, p, number);
    MatchingCloseIsFound(octets, p + 1, inner, number);
  }

  lemma PrimitiveIsSkipped(octets: Octets, p: nat, tag: Tag, closing: Tag)
    requires ReadTag(octets, p) == Value(tag) && tag.kind.Primitive?
    requires ReadTag(octets, tag.next) == Value(closing) && closing.kind.Closing?
    ensures SkipConstructed(octets, p) == Value(closing.next)
  {
    hide ReadTag;
    assert FindClose(octets, tag.next, 1) == Value(Close(tag.next, closing.next));
  }

  /** A primitive form, whatever its tag, gives no stamp either, and reading it ends where skipping it would: after the
      tag that closes what the stamp stands in. */
  lemma PrimitiveFormsArePassed(octets: Octets, p: nat, outer: nat, number: nat, isContext: bool, body: Octets)
    requires outer <= 14 && number <= 14 && |body| < 254 && (isContext || number != 1)
    requires At(octets, p, (Header(number, isContext, |body|) + body) + ClosingTag(outer))
    ensures var next := p + |Header(number, isContext, |body|) + body|;
            && ReadTimeStampChoice(octets, p) == Value(Choice(None, next))
            && ReadTimeStamp(octets, p) == Value(Choice(None, next + 1))
            && SkipConstructed(octets, p) == Value(next + 1)
  {
    hide ReadTag, Header;
    var form := Header(number, isContext, |body|) + body;
    AtParts(octets, p, form, ClosingTag(outer));
    ReadPrimitive(octets, p, number, isContext, body);
    ReadClosing(octets, p + |form|, outer);
    PrimitiveIsSkipped(octets, p, Tag(number, isContext, Primitive, body, p + |form|),
                       Tag(outer, true, Closing, [], p + |form| + 1));
  }
}
