/** Finding the simulated server: Who-Is as a client encodes it (section 16.10 of ANSI/ASHRAE 135-2024), and what the
    client makes of the I-Am. */
module Discovery {
  import opened Wrappers
  import opened Tags
  import opened Apdu
  import opened Frames
  import opened Server
  import opened ServerMap

  const I_AM := 0

  datatype Range = Range(low: nat, high: nat)

  predicate RangeInRange(limits: Option<Range>)
  {
    limits.Some? ==> limits.value.low < 0x1_0000_0000 && limits.value.high < 0x1_0000_0000
  }

  // -- The client's side ------------------------------------------------------------------------------------

  function WhoIs(limits: Option<Range>): Octets
    requires RangeInRange(limits)
  {
    [0x10, WHO_IS] + match limits
                     case None => []
                     case Some(l) => ContextUnsigned(0, l.low) + ContextUnsigned(1, l.high)
  }

  /** None: this is no I-Am of a Device. */
  function AnnouncedInstance(apdu: Octets): Decoded<Option<nat>>
  {
    if |apdu| < 7 || apdu[0] / 16 != 1 || apdu[1] != I_AM then Value(None)
    else
      var tag :- ReadTag(apdu, 2);
      if tag.isContext || tag.number != 12 || |tag.body| != 4 then Value(None)
      else
        var key := KeyOf(BigEndian(tag.body));
        Value(if key.objectType == DEVICE then Some(key.instance) else None)
  }

  // -- The limits are read ------------------------------------------------------------------------------------

  lemma LimitsCompose(octets: Octets, p: nat, tag: Tag, rest: seq<nat>)
    requires ReadTag(octets, p) == Value(tag) && tag.kind.Primitive? && Limits(octets, tag.next) == Value(rest)
    ensures Limits(octets, p) == Value([BigEndian(tag.body)] + rest)
  {
    hide BigEndian;
  }

  lemma LimitsAreRead(octets: Octets, l: Range)
    requires l.low < 0x1_0000_0000 && l.high < 0x1_0000_0000
    requires octets == ContextUnsigned(0, l.low) + ContextUnsigned(1, l.high)
    ensures Limits(octets, 0) == Value([l.low, l.high])
  {
    hide ReadTag, ContextUnsigned, BigEndian;
    var a := |ContextUnsigned(0, l.low)|;
    assert octets[0..] == octets;
    AtItself(octets, 0, octets);
    AtParts(octets, 0, ContextUnsigned(0, l.low), ContextUnsigned(1, l.high));
    var first := ReadUnsigned(octets, 0, 0, l.low);
    var second := ReadUnsigned(octets, a, 1, l.high);
    assert Limits(octets, |octets|) == Value([]);
    var last: seq<nat> := [l.high];
    assert last + [] == last && [l.low] + last == [l.low, l.high];
    LimitsCompose(octets, a, Tag(1, true, Primitive, second, |octets|), []);
    LimitsCompose(octets, 0, Tag(0, true, Primitive, first, a), last);
  }

  // -- The I-Am is read -----------------------------------------------------------------------------------------

  /** The four values of an I-Am, as a client that lists every application-tagged value reads them. */
  ghost predicate Announces(d: ValidDevice, apdu: Octets)
  {
    && AnnouncedInstance(apdu) == Value(Some(d.instance))
    && var values := ApplicationValues(Slice(apdu, 2, |apdu|), 0);
       && values.Value? && |values.value| == 4
       && values.value[0].0 == 12 && KeyOf(BigEndian(values.value[0].1)) == ObjectKey(8, d.instance)
       && values.value[1].0 == 2 && BigEndian(values.value[1].1) == 1476
       && values.value[2].0 == 9 && BigEndian(values.value[2].1) == 3
       && values.value[3].0 == 2 && BigEndian(values.value[3].1) == d.vendor
  }

  lemma UnsignedIsListed(octets: Octets, p: nat, number: nat, v: nat, rest: seq<(nat, Octets)>)
    returns (body: Octets)
    requires v < 0x1_0000_0000 && 2 <= number <= 14
    requires At(octets, p, Header(number, false, |UnsignedOctets(v)|) + UnsignedOctets(v))
    requires ApplicationValues(octets, p + |Header(number, false, |UnsignedOctets(v)|) + UnsignedOctets(v)|) ==
             Value(rest)
    ensures ApplicationValues(octets, p) == Value([(number, body)] + rest) && BigEndian(body) == v
  {
    hide ReadTag, BigEndian, UnsignedOctets;
    body := UnsignedOctets(v);
    ReadPrimitive(octets, p, number, false, body);
    UnsignedRoundTrip(v);
    ValuesCompose(octets, p, Tag(number, false, Primitive, body, p + |Header(number, false, |body|) + body|), rest);
  }

  lemma IdentifierIsListed(octets: Octets, p: nat, d: ValidDevice, rest: seq<(nat, Octets)>) returns (body: Octets)
    requires At(octets, p, Header(12, false, 4) + ToBytes(ObjectId(DeviceKey(d)), 4))
    requires ApplicationValues(octets, p + 5) == Value(rest)
    ensures ReadTag(octets, p) == Value(Tag(12, false, Primitive, body, p + 5)) && |body| == 4
    ensures ApplicationValues(octets, p) == Value([(12, body)] + rest)
    ensures KeyOf(BigEndian(body)) == ObjectKey(8, d.instance)
  {
    hide ReadTag, BigEndian, ToBytes, KeyOf, ObjectId;
    body := ToBytes(ObjectId(DeviceKey(d)), 4);
    ReadPrimitive(octets, p, 12, false, body);
    UnsignedRoundTrip(ObjectId(DeviceKey(d)));
    KeyRoundTrip(DeviceKey(d));
    ValuesCompose(octets, p, Tag(12, false, Primitive, body, p + 5), rest);
  }

  lemma IAmParts(d: ValidDevice, octets: Octets, a: Octets, b: Octets, c: Octets, e: Octets)
    requires octets == a + b + c + e
    ensures At(octets, 0, a) && At(octets, |a|, b) && At(octets, |a| + |b|, c) && At(octets, |a| + |b| + |c|, e)
    ensures |octets| == |a| + |b| + |c| + |e|
  {
    assert octets == a + (b + (c + e));
    AtItself(octets, 0, a + (b + (c + e)));
    AtParts(octets, 0, a, b + (c + e));
    AtParts(octets, |a|, b, c + e);
    AtParts(octets, |a| + |b|, c, e);
  }

  lemma NothingIsListed(octets: Octets)
    ensures ApplicationValues(octets, |octets|) == Value([])
  {
  }

  lemma IAmValues(d: ValidDevice, octets: Octets)
    returns (w: Octets, limit: Octets, segmentation: Octets, vendor: Octets)
    requires octets == (Header(12, false, 4) + ToBytes(ObjectId(DeviceKey(d)), 4)) + ApplicationUnsigned(1476)
                       + ApplicationEnumerated(3) + ApplicationUnsigned(d.vendor)
    ensures ApplicationValues(octets, 0) == Value([(12, w), (2, limit), (9, segmentation), (2, vendor)])
    ensures KeyOf(BigEndian(w)) == ObjectKey(8, d.instance) && BigEndian(limit) == 1476
    ensures BigEndian(segmentation) == 3 && BigEndian(vendor) == d.vendor
  {
    hide ReadTag, BigEndian, ToBytes, KeyOf, ObjectId, UnsignedOctets, ApplicationValues;
    var a, b := Header(12, false, 4) + ToBytes(ObjectId(DeviceKey(d)), 4), ApplicationUnsigned(1476);
    var c, e := ApplicationEnumerated(3), ApplicationUnsigned(d.vendor);
    IAmParts(d, octets, a, b, c, e);
    NothingIsListed(octets);
    vendor := UnsignedIsListed(octets, |a| + |b| + |c|, 2, d.vendor, []);
    var one: seq<(nat, Octets)> := [(2, vendor)];
    assert one + [] == one;
    segmentation := UnsignedIsListed(octets, |a| + |b|, 9, 3, one);
    var two: seq<(nat, Octets)> := [(9, segmentation), (2, vendor)];
    assert [(9 as nat, segmentation)] + one == two;
    limit := UnsignedIsListed(octets, |a|, 2, 1476, two);
    var three: seq<(nat, Octets)> := [(2, limit), (9, segmentation), (2, vendor)];
    assert [(2 as nat, limit)] + two == three;
    w := IdentifierIsListed(octets, 0, d, three);
    assert [(12 as nat, w)] + three == [(12, w), (2, limit), (9, segmentation), (2, vendor)];
  }

  lemma IAmIsRead(d: ValidDevice)
    ensures Announces(d, IAm(d)) && |IAm(d)| <= 60_100 && IAm(d) != []
  {
    hide ReadTag, BigEndian, ToBytes, KeyOf, ObjectId, UnsignedOctets, ApplicationValues, Slice;
    var apdu, a := IAm(d), Header(12, false, 4) + ToBytes(ObjectId(DeviceKey(d)), 4);
    var rest := ApplicationUnsigned(1476) + ApplicationEnumerated(3) + ApplicationUnsigned(d.vendor);
    var octets := a + ApplicationUnsigned(1476) + ApplicationEnumerated(3) + ApplicationUnsigned(d.vendor);
    assert apdu == [0x10, 0x00] + octets && octets == a + rest;
    SliceOfRest([0x10, 0x00], octets);
    var w, limit, segmentation, vendor := IAmValues(d, octets);
    assert apdu[2..] == a + rest;
    AtItself(apdu, 2, a + rest);
    AtParts(apdu, 2, a, rest);
    var body := ToBytes(ObjectId(DeviceKey(d)), 4);
    ReadPrimitive(apdu, 2, 12, false, body);
    UnsignedRoundTrip(ObjectId(DeviceKey(d)));
    KeyRoundTrip(DeviceKey(d));
  }

  // -- Who-Is is answered ------------------------------------------------------------------------------------

  predicate Within(d: ValidDevice, limits: Option<Range>)
  {
    limits.None? || limits.value.low <= d.instance <= limits.value.high
  }

  lemma WhoIsOutcome(d: ValidDevice, s: ServerState, limits: Option<Range>)
    requires RangeInRange(limits) && !s.mode.Offline?
    ensures OutcomeOf(d, s, WhoIs(limits)) == Outcome(s, Value(if Within(d, limits) then Some(IAm(d)) else None))
  {
    hide ReadTag, IAm, Slice, ContextUnsigned;
    var octets := match limits
                  case None => []
                  case Some(l) => ContextUnsigned(0, l.low) + ContextUnsigned(1, l.high);
    SliceOfRest([0x10, WHO_IS], octets);
    if limits.Some? {
      LimitsAreRead(octets, limits.value);
    }
  }

  /** Anything but two primitives is no range: the Who-Is is answered as if it had no limits. */
  lemma OtherCountsDoNotLimit(d: ValidDevice, apdu: Octets, limits: seq<nat>)
    requires Limits(Slice(apdu, 2, |apdu|), 0) == Value(limits) && |limits| != 2
    ensures AnswerWhoIs(d, apdu) == Value(Some(IAm(d)))
  {
    hide Limits, Slice, IAm;
  }

  lemma WhoIsIsNotEmpty(limits: Option<Range>)
    requires RangeInRange(limits)
    ensures WhoIs(limits) != []
  {
  }

  /** Discovery. A Who-Is that a client encodes, with limits or without, over whatever route, is answered by a server
      that is not offline if and only if its instance is within the limits: with an I-Am that goes back to the
      request's own SNET and SADR, and from which the client reads the instance and the other three values. */
  lemma WhoIsFindsTheDevice(d: ValidDevice, s: ServerState, function_: Octet, mac: Octets, route: Npdu,
                            hopCount: Octet, limits: Option<Range>)
    requires RangeInRange(limits) && !s.mode.Offline? && NpduInRange(route) && route.networkMessage.None?
    requires IsNpduFunction(function_) && (if function_ == FORWARDED_NPDU then |mac| == 6 else mac == [])
    requires route.payload == WhoIs(limits) && 4 + |Body(function_, mac, route, hopCount)| < 0x1_0000
    ensures var o := Served(d, s, Bvll(function_, Body(function_, mac, route, hopCount)));
            && o.state == s && o.reply.Value? && (o.reply.value.Some? <==> Within(d, limits))
            && (Within(d, limits) ==>
                  var f := DecodeFrame(o.reply.value.value);
                  && f.Value? && f.value.ok && f.value.npdu.Some?
                  && f.value.npdu.value.dnet == route.snet && f.value.npdu.value.dadr == Sent(route.snet, route.sadr)
                  && Announces(d, ApduOf(f.value)))
  {
    hide DecodeFrame, OutcomeOf, WhoIs, Announces, IAm, Reply;
    FrameIsDecoded(function_, mac, route, hopCount);
    WhoIsOutcome(d, s, limits);
    var f := DecodeFrame(Bvll(function_, Body(function_, mac, route, hopCount))).value;
    WhoIsIsNotEmpty(limits);
    if Within(d, limits) {
      IAmIsRead(d);
      ReplyIsDecoded(f, IAm(d), route);
    }
  }
}
