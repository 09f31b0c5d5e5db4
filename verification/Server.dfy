/** The simulated server of wiretest/peer.py: a device with objects that a test controls. */
module Server {
  import opened Wrappers
  import opened Tags
  import opened Apdu
  import opened Frames
  import opened AccessSpecs

  const READ_PROPERTY_MULTIPLE := 14
  const WHO_IS := 8
  const DEVICE := 8
  const OBJECT_IDENTIFIER := 75
  const OBJECT_NAME := 77
  const MAX_INSTANCE := 0x3F_FFFF
  const CLASS_OBJECT := 1
  const CLASS_PROPERTY := 2
  const UNKNOWN_OBJECT := 31
  const UNKNOWN_PROPERTY := 32
  const WRITE_ACCESS_DENIED := 40

  type Table = map<ObjectKey, map<nat, Octets>>

  datatype Mode = Online | Offline | Refusing

  /** What never changes: the Device object, and which properties are writable (None: all that are listed). */
  datatype Device = Device(instance: nat, name: Octets, vendor: nat, writable: Option<set<(ObjectKey, nat)>>)

  predicate DeviceInRange(d: Device) { d.instance <= MAX_INSTANCE && |d.name| < 253 && d.vendor < 0x1_0000_0000 }

  type ValidDevice = d: Device | DeviceInRange(d) witness Device(0, [], 0, None)

  // -- The Device object -----------------------------------------------------------------------------------

  function DeviceKey(d: ValidDevice): ObjectKey { ObjectKey(DEVICE, d.instance) }

  predicate NamesDevice(d: ValidDevice, key: ObjectKey)
  {
    key.objectType == DEVICE && (key.instance == d.instance || key.instance == MAX_INSTANCE)
  }

  /** The two properties of the Device object that are served, as balanced streams. */
  function DeviceProperty(d: ValidDevice, property: nat): (r: Option<Items>)
    ensures r.Some? ==> Encodable(r.value)
  {
    if property == OBJECT_NAME then Some(Item(7, false, [0] + d.name, End))
    else if property == OBJECT_IDENTIFIER then Some(Item(12, false, ToBytes(ObjectId(DeviceKey(d)), 4), End))
    else None
  }

  function ReadDevice(d: ValidDevice, invokeId: Octet, r: Reference): Octets
  {
    if !NamesDevice(d, r.key) then ErrorPdu(invokeId, READ_PROPERTY, CLASS_OBJECT, UNKNOWN_OBJECT)
    else match DeviceProperty(d, r.property)
      case None => ErrorPdu(invokeId, READ_PROPERTY, CLASS_PROPERTY, UNKNOWN_PROPERTY)
      case Some(items) => ReadPropertyAck(invokeId, Reference(DeviceKey(d), r.property), Encode(items))
  }

  function ApplicationUnsigned(v: nat): Octets
    requires v < 0x1_0000_0000
  {
    Header(2, false, |UnsignedOctets(v)|) + UnsignedOctets(v)
  }

  function IAm(d: ValidDevice): Octets
  {
    [0x10, 0x00] + (Header(12, false, 4) + ToBytes(ObjectId(DeviceKey(d)), 4)) + ApplicationUnsigned(1476)
    + ApplicationEnumerated(3) + ApplicationUnsigned(d.vendor)
  }

  /** Every primitive's octets as a number, whatever its tag. */
  function Limits(octets: Octets, p: nat): Decoded<seq<nat>>
    decreases if p < |octets| then |octets| - p else 0
  {
    if p >= |octets| then Value([])
    else
      var tag :- ReadTag(octets, p);
      var others :- Limits(octets, tag.next);
      Value(if tag.kind.Primitive? then [BigEndian(tag.body)] + others else others)
  }

  function AnswerWhoIs(d: ValidDevice, apdu: Octets): Decoded<Option<Octets>>
  {
    var limits :- Limits(Slice(apdu, 2, |apdu|), 0);
    Value(if |limits| == 2 && !(limits[0] <= d.instance <= limits[1]) then None else Some(IAm(d)))
  }

  // -- The listed objects ------------------------------------------------------------------------------------

  function Lookup(objects: Table, key: ObjectKey, property: nat): Option<Octets>
  {
    if key in objects && property in objects[key] then Some(objects[key][property]) else None
  }

  /** Identifiers too large for the encoders raise an exception in them. */
  function AnswerRead(d: ValidDevice, objects: Table, invokeId: Octet, r: Reference): Decoded<Option<Octets>>
  {
    if r.key !in objects then Value(Some(ReadDevice(d, invokeId, r)))
    else match Lookup(objects, r.key, r.property)
      case None => Value(Some(ErrorPdu(invokeId, READ_PROPERTY, CLASS_PROPERTY, UNKNOWN_PROPERTY)))
      case Some(value) => if InRange(r) then Value(Some(ReadPropertyAck(invokeId, r, value))) else Uncaught
  }

  function Store(objects: Table, r: Reference, value: Octets): Table
    requires r.key in objects
  {
    var properties: map<nat, Octets> := objects[r.key];
    objects[r.key := properties[r.property := value]]
  }

  predicate MayWrite(d: ValidDevice, objects: Table, r: Reference)
  {
    match d.writable
    case None => Lookup(objects, r.key, r.property).Some?
    case Some(writable) => (r.key, r.property) in writable
  }

  function AnswerWrite(d: ValidDevice, objects: Table, refusing: bool, invokeId: Octet, w: WriteRequest): (Table,
                       Octets)
  {
    var r := w.reference;
    if r.key !in objects then (objects, ErrorPdu(invokeId, WRITE_PROPERTY, CLASS_OBJECT, UNKNOWN_OBJECT))
    else if refusing || !MayWrite(d, objects, r) then
      (objects, ErrorPdu(invokeId, WRITE_PROPERTY, CLASS_PROPERTY, WRITE_ACCESS_DENIED))
    else (Store(objects, r, w.value), SimpleAck(invokeId, WRITE_PROPERTY))
  }

  // -- ReadPropertyMultiple ------------------------------------------------------------------------------------

  function EncodeResult(property: nat, value: Option<Octets>): Octets
    requires property < 0x1_0000_0000
  {
    ContextUnsigned(2, property)
    + match value
      case None =>
        OpeningTag(5) + ApplicationEnumerated(CLASS_PROPERTY) + ApplicationEnumerated(UNKNOWN_PROPERTY) + ClosingTag(5)
      case Some(octets) => OpeningTag(4) + octets + ClosingTag(4)
  }

  function EncodeResults(objects: Table, key: ObjectKey, properties: seq<nat>): Octets
    requires PropertiesInRange(properties)
  {
    if properties == [] then []
    else EncodeResult(properties[0], Lookup(objects, key, properties[0])) + EncodeResults(objects, key, properties[1..])
  }

  function EncodeAllResults(objects: Table, list: seq<Spec>): Octets
    requires SpecsInRange(list)
  {
    if list == [] then []
    else
      ContextObjectId(0, list[0].key) + OpeningTag(1) + EncodeResults(objects, list[0].key, list[0].properties)
      + ClosingTag(1) + EncodeAllResults(objects, list[1..])
  }

  function ReadPropertyMultipleAck(objects: Table, invokeId: Octet, list: seq<Spec>): Octets
    requires SpecsInRange(list)
  {
    [0x30, invokeId, READ_PROPERTY_MULTIPLE] + EncodeAllResults(objects, list)
  }

  function AnswerMultiple(objects: Table, invokeId: Octet, list: seq<Spec>): Decoded<Option<Octets>>
  {
    if SpecsInRange(list) then Value(Some(ReadPropertyMultipleAck(objects, invokeId, list))) else Uncaught
  }

  // -- One frame -------------------------------------------------------------------------------------------------

  /** Everything a server remembers. */
  datatype ServerState = ServerState(
    objects: Table, mode: Mode, readRequests: seq<(Octet, seq<Spec>)>, writeRequests: seq<WriteRequest>,
    requestsWhileOffline: nat)

  datatype Outcome = Outcome(state: ServerState, reply: Decoded<Option<Octets>>)

  function OutcomeOfWrite(d: ValidDevice, s: ServerState, apdu: Octets): Outcome
    requires |apdu| > 3
  {
    match ParseWriteProperty(apdu)
    case Uncaught => Outcome(s, Uncaught)
    case Truncated => Outcome(s, Truncated)
    case Value(None) =>
      if s.mode.Offline? then Outcome(s.(requestsWhileOffline := s.requestsWhileOffline + 1), Value(None))
      else Outcome(s, Value(None))
    case Value(Some(w)) =>
      var noted := s.(writeRequests := s.writeRequests + [w]);
      if s.mode.Offline? then Outcome(noted.(requestsWhileOffline := s.requestsWhileOffline + 1), Value(None))
      else
        var (objects, reply) := AnswerWrite(d, s.objects, s.mode.Refusing?, apdu[2], w);
        Outcome(noted.(objects := objects), Value(Some(reply)))
  }

  function OutcomeOfRead(d: ValidDevice, s: ServerState, apdu: Octets): Outcome
    requires |apdu| > 3
  {
    match ParseReadProperty(apdu)
    case Uncaught => Outcome(s, Uncaught)
    case Truncated => Outcome(s, Truncated)
    case Value(None) => Outcome(s, Value(None))
    case Value(Some(r)) =>
      var noted := if r.key in s.objects
                   then s.(readRequests := s.readRequests + [(READ_PROPERTY, [Spec(r.key, [r.property])])]) else s;
      Outcome(noted, AnswerRead(d, s.objects, apdu[2], r))
  }

  function OutcomeOfMultiple(s: ServerState, apdu: Octets): Outcome
    requires |apdu| > 3
  {
    match ReadSpecs(Slice(apdu, 4, |apdu|), 0, State([], None))
    case Uncaught => Outcome(s, Uncaught)
    case Truncated => Outcome(s, Truncated)
    case Value(list) =>
      Outcome(s.(readRequests := s.readRequests + [(READ_PROPERTY_MULTIPLE, list)]),
              AnswerMultiple(s.objects, apdu[2], list))
  }

  function OutcomeOf(d: ValidDevice, s: ServerState, apdu: Octets): Outcome
  {
    var service := if ApduType(apdu) == Some(0) && |apdu| > 3 then Some(apdu[3]) else None;
    if service == Some(WRITE_PROPERTY) then OutcomeOfWrite(d, s, apdu)
    else if s.mode.Offline? then
      if service == Some(READ_PROPERTY) || service == Some(READ_PROPERTY_MULTIPLE)
      then Outcome(s.(requestsWhileOffline := s.requestsWhileOffline + 1), Value(None))
      else Outcome(s, Value(None))
    else if service == Some(READ_PROPERTY_MULTIPLE) then OutcomeOfMultiple(s, apdu)
    else if service == Some(READ_PROPERTY) then OutcomeOfRead(d, s, apdu)
    else if ApduType(apdu) == Some(1) && |apdu| > 1 && apdu[1] == WHO_IS then Outcome(s, AnswerWhoIs(d, apdu))
    else Outcome(s, Value(None))
  }

  /** A request that came through a router is answered to the network and address it came from. */
  function Reply(request: Frame, apdu: Octets): Decoded<Octets>
  {
    var n := if request.npdu.Some? && request.npdu.value.snet.Some?
             then Npdu(request.npdu.value.snet, request.npdu.value.sadr, None, [], false, None, apdu)
             else Npdu(None, [], None, [], false, None, apdu);
    if NpduInRange(n) && 4 + |EncodeNpdu(n, 255)| < 0x1_0000
    then Value(Bvll(ORIGINAL_UNICAST, EncodeNpdu(n, 255))) else Truncated
  }

  function Served(d: ValidDevice, s: ServerState, data: Octets): Outcome
  {
    match DecodeFrame(data)
    case Truncated => Outcome(s, Truncated)
    case Uncaught => Outcome(s, Uncaught)
    case Value(f) =>
      if !f.ok || ApduOf(f) == [] then Outcome(s, Value(None))
      else
        var o := OutcomeOf(d, s, ApduOf(f));
        match o.reply
        case Value(Some(apdu)) =>
          (match Reply(f, apdu)
           case Value(octets) => Outcome(o.state, Value(Some(octets)))
           case Truncated => Outcome(o.state, Truncated)
           case Uncaught => Outcome(o.state, Uncaught))
        case _ => o
  }

  // -- The object ------------------------------------------------------------------------------------------------

  class SimulatedServer {
    const device: ValidDevice
    var objects: Table
    var mode: Mode
    var readRequests: seq<(Octet, seq<Spec>)>
    var writeRequests: seq<WriteRequest>
    var requestsWhileOffline: nat

    function View(): ServerState
      reads this
    {
      ServerState(objects, mode, readRequests, writeRequests, requestsWhileOffline)
    }

    constructor (device: ValidDevice, objects: Table)
      ensures View() == ServerState(objects, Online, [], [], 0) && this.device == device
    {
      this.device, this.objects, mode, readRequests, writeRequests := device, objects, Online, [], [];
      requestsWhileOffline := 0;
    }

    method Write(apdu: Octets, w: WriteRequest) returns (reply: Octets)
      requires |apdu| > 3
      modifies this`objects
      ensures (objects, reply) == AnswerWrite(device, old(objects), mode.Refusing?, apdu[2], w)
    {
      var key := w.reference.key;
      if key !in objects {
        return ErrorPdu(apdu[2], WRITE_PROPERTY, CLASS_OBJECT, UNKNOWN_OBJECT);
      }
      if mode.Refusing? || !MayWrite(device, objects, w.reference) {
        return ErrorPdu(apdu[2], WRITE_PROPERTY, CLASS_PROPERTY, WRITE_ACCESS_DENIED);
      }
      objects := Store(objects, w.reference, w.value);
      reply := SimpleAck(apdu[2], WRITE_PROPERTY);
    }

    method AnswerApdu(apdu: Octets) returns (r: Decoded<Option<Octets>>)
      modifies this
      ensures Outcome(View(), r) == OutcomeOf(device, old(View()), apdu)
    {
      var confirmed := ApduType(apdu) == Some(0) && |apdu| > 3;
      var request: Option<WriteRequest> := None;
      if confirmed && apdu[3] == WRITE_PROPERTY {
        var parsed := ParseWritePropertyRequest(apdu);
        if parsed.IsFailure() {
          return parsed.PropagateFailure();
        }
        request := parsed.value;
        if request.Some? {
          writeRequests := writeRequests + [request.value];
        }
      }
      if mode.Offline? {
        if confirmed && (apdu[3] == READ_PROPERTY || apdu[3] == READ_PROPERTY_MULTIPLE || apdu[3] == WRITE_PROPERTY) {
          requestsWhileOffline := requestsWhileOffline + 1;
        }
        return Value(None);
      }
      if confirmed && apdu[3] == WRITE_PROPERTY {
        if request.None? {
          return Value(None);
        }
        var reply := Write(apdu, request.value);
        return Value(Some(reply));
      }
      if confirmed && apdu[3] == READ_PROPERTY_MULTIPLE {
        var list := ReadAccessSpecifications(Slice(apdu, 4, |apdu|));
        if list.IsFailure() {
          return list.PropagateFailure();
        }
        readRequests := readRequests + [(READ_PROPERTY_MULTIPLE, list.value)];
        return AnswerMultiple(objects, apdu[2], list.value);
      }
      if confirmed && apdu[3] == READ_PROPERTY {
        var parsed := ParseReadProperty(apdu);
        if parsed.IsFailure() {
          return parsed.PropagateFailure();
        }
        if parsed.value.None? {
          return Value(None);
        }
        var reference := parsed.value.value;
        if reference.key in objects {
          readRequests := readRequests + [(READ_PROPERTY, [Spec(reference.key, [reference.property])])];
        }
        return AnswerRead(device, objects, apdu[2], reference);
      }
      if ApduType(apdu) == Some(1) && |apdu| > 1 && apdu[1] == WHO_IS {
        return AnswerWhoIs(device, apdu);
      }
      r := Value(None);
    }

    /** What one datagram does. The result is what is sent back. */
    method Serve(data: Octets) returns (r: Decoded<Option<Octets>>)
      modifies this
      ensures Outcome(View(), r) == Served(device, old(View()), data)
    {
      var decoded := DecodeFrame(data);
      if decoded.IsFailure() {
        return decoded.PropagateFailure();
      }
      if !decoded.value.ok || ApduOf(decoded.value) == [] {
        return Value(None);
      }
      r := AnswerApdu(ApduOf(decoded.value));
      if r.Value? && r.value.Some? {
        var reply := Reply(decoded.value, r.value.value);
        if reply.IsFailure() {
          return reply.PropagateFailure();
        }
        r := Value(Some(reply.value));
      }
    }
  }
}
