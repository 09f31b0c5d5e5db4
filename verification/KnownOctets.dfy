/** Messages written out octet by octet: what the encoders put on the wire, with the numbers that the standard
    gives to services, object types, errors and message types. */
module KnownOctets {
  import opened Wrappers
  import opened Tags
  import opened Apdu
  import opened Frames
  import opened AccessSpecs
  import opened Server
  import opened Discovery

  lemma TwoBytes(v: nat)
    requires v < 0x1_0000
    ensures ToBytes(v, 2) == [v / 0x100, v % 0x100]
  {
    var a := v / 0x100;
    assert ToBytes(a / 0x100, 0) == [];
    assert ToBytes(a, 1) == [] + [a % 0x100] == [a];
  }

  lemma FourBytes(high: nat, a: nat, low: nat)
    requires high < 0x1_0000 && a < 0x100 && low < 0x100
    ensures ToBytes(0x1_0000 * high + 0x100 * a + low, 4) == [high / 0x100, high % 0x100, a, low]
  {
    var v := 0x1_0000 * high + 0x100 * a + low;
    var x := 0x100 * high + a;
    assert v / 0x100 == x && v % 0x100 == low && x / 0x100 == high && x % 0x100 == a;
    TwoBytes(high);
    assert ToBytes(x, 3) == ToBytes(high, 2) + [a];
    assert ToBytes(v, 4) == ToBytes(x, 3) + [low];
  }

  lemma OneByte(v: nat)
    requires v < 0x100
    ensures UnsignedOctets(v) == [v] && Width(v) == 1
  {
    assert ToBytes(v / 0x100, 0) == [];
    assert ToBytes(v, 1) == [] + [v % 0x100];
  }

  /** A property number or the like of one octet, in a context tag. */
  lemma Field(number: nat, v: nat)
    requires number <= 14 && v < 0x100
    ensures ContextUnsigned(number, v) == [16 * number + 9, v]
    ensures number == 9 ==> ApplicationEnumerated(v) == [0x91, v]
  {
    hide ToBytes, UnsignedOctets;
    OneByte(v);
  }

  /** An object identifier: ten bits of type, twenty-two of instance. */
  lemma Identifier(k: ObjectKey)
    requires k.objectType < 1024 && k.instance < 0x100
    ensures ToBytes(ObjectId(k), 4) == [k.objectType / 4, 0x40 * (k.objectType % 4), 0, k.instance]
    ensures ContextObjectId(0, k) == [0x0C, k.objectType / 4, 0x40 * (k.objectType % 4), 0, k.instance]
  {
    hide ToBytes;
    var high := 0x40 * k.objectType;
    assert high / 0x100 == k.objectType / 4 && high % 0x100 == 0x40 * (k.objectType % 4);
    FourBytes(high, 0, k.instance);
    assert ObjectId(k) == 0x1_0000 * high + 0x100 * 0 + k.instance;
  }

  lemma ReferenceOctets(r: Reference)
    requires r.key.objectType < 1024 && r.key.instance < 0x100 && r.property < 0x100
    ensures EncodeReference(r) ==
            [0x0C, r.key.objectType / 4, 0x40 * (r.key.objectType % 4), 0, r.key.instance, 0x19, r.property]
  {
    hide ContextUnsigned, ContextObjectId;
    Identifier(r.key);
    Field(1, r.property);
  }

  /** ReadProperty: Present_Value (85) of Analog Input (0) 5, and element 3 of the Priority_Array (87) of Analog
      Output (1) 5. */
  lemma ReadPropertyOctets()
    ensures ReadPropertyRequest(1, Reference(ObjectKey(0, 5), 85), None) ==
            [0x00, 0x05, 1, 12, 0x0C, 0, 0, 0, 5, 0x19, 85]
    ensures ReadPropertyRequest(2, Reference(ObjectKey(1, 5), 87), Some(3)) ==
            [0x00, 0x05, 2, 12, 0x0C, 0, 0x40, 0, 5, 0x19, 87, 0x29, 3]
    ensures ReadPropertyAck(1, Reference(ObjectKey(0, 5), 85), [0x44, 0x41, 0xA4, 0, 0]) ==
            [0x30, 1, 12, 0x0C, 0, 0, 0, 5, 0x19, 85, 0x3E, 0x44, 0x41, 0xA4, 0, 0, 0x3F]
  {
    hide EncodeReference, ContextUnsigned;
    ReferenceOctets(Reference(ObjectKey(0, 5), 85));
    ReferenceOctets(Reference(ObjectKey(1, 5), 87));
    Field(2, 3);
  }

  /** WriteProperty at priority 8, its acknowledgement, and a refusal: error class 2, code 40. */
  lemma WritePropertyOctets()
    ensures WritePropertyRequest(3, WriteRequest(Reference(ObjectKey(1, 7), 85), None, [0x44, 0, 0, 0, 0], Some(8))) ==
            [0x00, 0x05, 3, 15, 0x0C, 0, 0x40, 0, 7, 0x19, 85, 0x3E, 0x44, 0, 0, 0, 0, 0x3F, 0x49, 8]
    ensures SimpleAck(3, WRITE_PROPERTY) == [0x20, 3, 15]
    ensures ErrorPdu(3, WRITE_PROPERTY, 2, 40) == [0x50, 3, 15, 0x91, 2, 0x91, 40]
  {
    hide EncodeReference, ContextUnsigned, ApplicationEnumerated;
    ReferenceOctets(Reference(ObjectKey(1, 7), 85));
    Field(4, 8);
    Field(9, 2);
    Field(9, 40);
  }

  lemma ResultOctets()
    ensures EncodeResult(85, Some([0x91, 1])) == [0x29, 85, 0x4E, 0x91, 1, 0x4F]
    ensures EncodeResult(117, None) == [0x29, 117, 0x5E, 0x91, 2, 0x91, 32, 0x5F]
    ensures ReadPropertyMultipleAck(map[], 4, []) == [0x30, 4, 14]
  {
    hide ContextUnsigned, ApplicationEnumerated;
    Field(2, 85);
    Field(2, 117);
    Field(9, 2);
    Field(9, 32);
  }

  /** ReadPropertyMultiple: Present_Value and Units (117) of Binary Output (4) 6. */
  lemma ReadPropertyMultipleOctets()
    ensures ConfirmedRequest(4, READ_PROPERTY_MULTIPLE, EncodeSpecs([Spec(ObjectKey(4, 6), [85, 117])])) ==
            [0x00, 0x05, 4, 14, 0x0C, 1, 0, 0, 6, 0x1E, 0x09, 85, 0x09, 117, 0x1F]
  {
    hide ContextUnsigned, ContextObjectId;
    Identifier(ObjectKey(4, 6));
    Field(0, 85);
    Field(0, 117);
    assert EncodeProperties([117]) == [0x09, 117] + EncodeProperties([]);
    assert [85, 117][1..] == [117];
    assert EncodeProperties([85, 117]) == [0x09, 85, 0x09, 117];
    var one := Spec(ObjectKey(4, 6), [85, 117]);
    assert EncodeSpec(one) == [0x0C, 1, 0, 0, 6, 0x1E, 0x09, 85, 0x09, 117, 0x1F];
    assert EncodeSpecs([one]) == EncodeSpec(one) + EncodeSpecs([]);
  }

  /** Who-Is without limits and with, and the I-Am of device 6 of vendor 5. */
  lemma DiscoveryOctets()
    ensures WhoIs(None) == [0x10, 8] && WhoIs(Some(Range(1, 9))) == [0x10, 8, 0x09, 1, 0x19, 9]
    ensures IAm(Device(6, [], 5, None)) == [0x10, 0, 0xC4, 2, 0, 0, 6, 0x22, 0x05, 0xC4, 0x91, 3, 0x21, 5]
  {
    hide ContextUnsigned, ToBytes, ApplicationEnumerated;
    Field(0, 1);
    Field(1, 9);
    Field(9, 3);
    OneByte(5);
    TwoBytes(1476);
    Identifier(ObjectKey(8, 6));
    assert UnsignedOctets(1476) == [0x05, 0xC4];
    assert ApplicationUnsigned(1476) == [0x22, 0x05, 0xC4] && ApplicationUnsigned(5) == [0x21, 5];
  }

  /** A routed request and a network layer message. */
  lemma NpduOctets()
    ensures EncodeNpdu(Npdu(Some(0x105), [7], Some(3), [1, 2], true, None, [0x10, 8]), 254) ==
            [1, 0x2C, 1, 5, 1, 7, 0, 3, 2, 1, 2, 254, 0x10, 8]
    ensures EncodeNpdu(Npdu(None, [], None, [], false, Some(1), [0, 9]), 255) == [1, 0x80, 1, 0, 9]
  {
    hide ToBytes;
    TwoBytes(0x105);
    TwoBytes(3);
    assert EncodeRoute(Some(0x105), [7]) == [1, 5, 1, 7] && EncodeRoute(Some(3), [1, 2]) == [0, 3, 2, 1, 2];
  }

  /** A broadcast, and a forwarded message with its originating address. */
  lemma BvllOctets()
    ensures Bvll(0x0B, [1, 0, 0x10, 8]) == [0x81, 0x0B, 0, 8, 1, 0, 0x10, 8]
    ensures Bvll(0x04, [10, 0, 0, 1, 0xBA, 0xC0, 1, 0, 0x10, 8]) ==
            [0x81, 4, 0, 14, 10, 0, 0, 1, 0xBA, 0xC0, 1, 0, 0x10, 8]
  {
    hide ToBytes;
    TwoBytes(8);
    TwoBytes(14);
  }

  /** A reply that goes back through a router, with the hop count 255. */
  lemma ReplyOctets(f: Frame, apdu: Octets)
    requires f.npdu.Some? && f.npdu.value.snet == Some(0x105) && f.npdu.value.sadr == [7] && |apdu| < 0xF0
    ensures Reply(f, apdu) == Value([0x81, 0x0A, 0, 11 + |apdu|, 1, 0x20, 1, 5, 1, 7, 255] + apdu)
  {
    hide ToBytes;
    TwoBytes(0x105);
    TwoBytes(11 + |apdu|);
    var n := Npdu(Some(0x105), [7], None, [], false, None, apdu);
    assert EncodeNpdu(n, 255) == [1, 0x20, 1, 5, 1, 7, 255] + apdu;
    assert Bvll(0x0A, EncodeNpdu(n, 255)) == [0x81, 0x0A, 0, 11 + |apdu|] + EncodeNpdu(n, 255)
                                          == [0x81, 0x0A, 0, 11 + |apdu|, 1, 0x20, 1, 5, 1, 7, 255] + apdu;
    assert NpduInRange(n) && 4 + |EncodeNpdu(n, 255)| < 0x1_0000;
  }
}
