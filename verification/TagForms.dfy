/** Every form of tag that section 20.2.1 of ANSI/ASHRAE 135-2024 has, also those that the encoders of the repository do
    not write: tag numbers from 15 to 254 and lengths of 254 octets and more. */
module TagForms {
  import opened Wrappers
  import opened Tags

  /** The initial octet's high half is 15 when the tag number follows it. */
  function NumberField(number: nat): nat { if number < 15 then number else 15 }

  function NumberOctets(number: nat): Octets
    requires number < 255
  {
    if number < 15 then [] else [number]
  }

  function LengthField(length: nat): nat { if length < 5 then length else 5 }

  function LengthOctets(length: nat): Octets
    requires length < 0x1_0000_0000
  {
    if length < 5 then []
    else if length < 254 then [length]
    else if length < 0x1_0000 then [254, length / 0x100, length % 0x100]
    else [255, length / 0x100_0000, length / 0x1_0000 % 0x100, length / 0x100 % 0x100, length % 0x100]
  }

  function InitialOctet(number: nat, isContext: bool, low: nat): Octet
    requires low < 8
  {
    16 * NumberField(number) + (if isContext then 8 else 0) + low
  }

  function PrimitiveTag(number: nat, isContext: bool, length: nat): Octets
    requires number < 255 && length < 0x1_0000_0000
  {
    [InitialOctet(number, isContext, LengthField(length))] + (NumberOctets(number) + LengthOctets(length))
  }

  function ConstructedTag(number: nat, opening: bool): Octets
    requires number < 255
  {
    [InitialOctet(number, true, if opening then 6 else 7)] + NumberOctets(number)
  }

  lemma LengthIsJoined(length: nat)
    requires length < 0x1_0000_0000
    ensures Join(length / 0x100_0000, length / 0x1_0000 % 0x100, length / 0x100 % 0x100, length % 0x100) == length
    ensures length < 0x1_0000 ==> Join(0, 0, length / 0x100, length % 0x100) == length
  {
    var a := length / 0x100;
    var b := a / 0x100;
    assert length / 0x1_0000 == b && length / 0x100_0000 == b / 0x100;
  }

  lemma LengthIsRead(data: Octets, p: nat, length: nat)
    requires length < 0x1_0000_0000 && At(data, p, LengthOctets(length))
    ensures ReadLength(data, p, LengthField(length)) == Value(Length(length, p + |LengthOctets(length)|))
  {
    hide Join;
    LengthIsJoined(length);
    var octets := LengthOctets(length);
    if length >= 5 {
      AtIndex(data, p, octets, 0);
      if length >= 254 {
        AtIndex(data, p, octets, 1);
        AtIndex(data, p, octets, 2);
        if length >= 0x1_0000 {
          AtIndex(data, p, octets, 3);
          AtIndex(data, p, octets, 4);
        }
      }
    }
  }

  /** The tag number, in the initial octet or after it. */
  lemma NumberIsRead(data: Octets, p: nat, number: nat, isContext: bool, low: nat)
    requires number < 255 && low < 8 && At(data, p, [InitialOctet(number, isContext, low)] + NumberOctets(number))
    ensures ReadTag(data, p) == ReadContent(data, p + 1 + |NumberOctets(number)|, number, isContext, low)
  {
    hide ReadContent;
    var octets := [InitialOctet(number, isContext, low)] + NumberOctets(number);
    AtIndex(data, p, octets, 0);
    InitialBits(NumberField(number), isContext, low);
    if number >= 15 {
      AtIndex(data, p, octets, 1);
    }
  }

  lemma ContentIsRead(data: Octets, p: nat, number: nat, isContext: bool, length: nat)
    requires (isContext || number != 1) && length < 0x1_0000_0000 && At(data, p, LengthOctets(length))
    ensures var start := p + |LengthOctets(length)|;
            ReadContent(data, p, number, isContext, LengthField(length)) ==
            Value(Tag(number, isContext, Primitive, Slice(data, start, start + length), start + length))
  {
    hide ReadLength, Slice;
    LengthIsRead(data, p, length);
  }

  /** A primitive with any tag number and any length is read with its own number, class, octets and end. */
  lemma ReadAnyPrimitive(data: Octets, p: nat, number: nat, isContext: bool, body: Octets)
    requires number < 255 && (isContext || number != 1) && |body| < 0x1_0000_0000
    requires At(data, p, PrimitiveTag(number, isContext, |body|) + body)
    ensures ReadTag(data, p) ==
            Value(Tag(number, isContext, Primitive, body, p + |PrimitiveTag(number, isContext, |body|)| + |body|))
  {
    hide ReadTag, ReadContent, Slice, LengthOctets, NumberOctets, InitialOctet;
    var first, numbers := [InitialOctet(number, isContext, LengthField(|body|))], NumberOctets(number);
    var lengths := LengthOctets(|body|);
    AtParts(data, p, PrimitiveTag(number, isContext, |body|), body);
    assert PrimitiveTag(number, isContext, |body|) == (first + numbers) + lengths;
    AtParts(data, p, first + numbers, lengths);
    NumberIsRead(data, p, number, isContext, LengthField(|body|));
    ContentIsRead(data, p + 1 + |numbers|, number, isContext, |body|);
    AtIsSlice(data, p + 1 + |numbers| + |lengths|, body);
  }

  /** And so is an opening or a closing tag with any number. */
  lemma ReadAnyConstructed(data: Octets, p: nat, number: nat, opening: bool)
    requires number < 255 && At(data, p, ConstructedTag(number, opening))
    ensures ReadTag(data, p) ==
            Value(Tag(number, true, if opening then Opening else Closing, [], p + |ConstructedTag(number, opening)|))
  {
    hide ReadTag, InitialOctet, NumberOctets;
    NumberIsRead(data, p, number, true, if opening then 6 else 7);
  }

  /** The encoders write the shortest of these forms. */
  lemma EncodersAgree(number: nat, isContext: bool, length: nat)
    requires number <= 14 && length < 254
    ensures Header(number, isContext, length) == PrimitiveTag(number, isContext, length)
    ensures OpeningTag(number) == ConstructedTag(number, true) && ClosingTag(number) == ConstructedTag(number, false)
  {
  }
}
