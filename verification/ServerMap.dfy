/** Seen through the codec, the simulated server is a plain map from object and property to a value. */
module ServerMap {
  import opened Wrappers
  import opened Tags
  import opened Apdu
  import opened Frames
  import opened AccessSpecs
  import opened Server

  /** What a client asks, and what it gets to know. */
  datatype Query =
    | Read(reference: Reference, arrayIndex: Option<nat>)
    | Write(reference: Reference, arrayIndex: Option<nat>, value: Items, priority: Option<nat>)

  datatype Answered = Shown(value: Octets) | Accepted | Refused(errorClass: nat, errorCode: nat)

  // -- The plain map -----------------------------------------------------------------------------------------

  datatype Stepped = Stepped(objects: Table, answer: Answered)

  function Look(d: ValidDevice, objects: Table, r: Reference): Answered
  {
    if r.key in objects then
      if r.property in objects[r.key] then Shown(objects[r.key][r.property])
      else Refused(CLASS_PROPERTY, UNKNOWN_PROPERTY)
    else if !NamesDevice(d, r.key) then Refused(CLASS_OBJECT, UNKNOWN_OBJECT)
    else match DeviceProperty(d, r.property)
      case Some(items) => Shown(Encode(items))
      case None => Refused(CLASS_PROPERTY, UNKNOWN_PROPERTY)
  }

  predicate QueryInRange(q: Query)
  {
    InRange(q.reference) && OptionInRange(q.arrayIndex)
    && (q.Write? ==> Encodable(q.value) && OptionInRange(q.priority) && |Encode(q.value)| <= 60_000)
  }

  function MapStep(d: ValidDevice, refusing: bool, objects: Table, q: Query): Stepped
    requires QueryInRange(q)
  {
    match q
    case Read(r, _) => Stepped(objects, Look(d, objects, r))
    case Write(r, _, value, _) =>
      if r.key !in objects then Stepped(objects, Refused(CLASS_OBJECT, UNKNOWN_OBJECT))
      else if refusing || !MayWrite(d, objects, r) then Stepped(objects, Refused(CLASS_PROPERTY, WRITE_ACCESS_DENIED))
      else Stepped(Store(objects, r, Encode(value)), Accepted)
  }

  // -- The same through the codec -----------------------------------------------------------------------------

  function RequestOf(q: Query): WriteRequest
    requires q.Write? && QueryInRange(q)
  {
    WriteRequest(q.reference, q.arrayIndex, Encode(q.value), q.priority)
  }

  function ReadNote(objects: Table, r: Reference): seq<(Octet, seq<Spec>)>
  {
    if r.key in objects then [(READ_PROPERTY, [Spec(r.key, [r.property])])] else []
  }

  /** The server's state after a query that it answers: reads of listed objects and all writes are noted. */
  function AfterQuery(s: ServerState, q: Query, objects: Table): ServerState
    requires QueryInRange(q)
  {
    match q
    case Read(r, _) =>
      ServerState(objects, s.mode, s.readRequests + ReadNote(s.objects, r), s.writeRequests, s.requestsWhileOffline)
    case Write(_, _, _, _) =>
      ServerState(objects, s.mode, s.readRequests, s.writeRequests + [RequestOf(q)], s.requestsWhileOffline)
  }

  function EncodeQuery(invokeId: Octet, q: Query): Octets
    requires QueryInRange(q)
  {
    match q
    case Read(r, index) => ReadPropertyRequest(invokeId, r, index)
    case Write(_, _, _, _) => WritePropertyRequest(invokeId, RequestOf(q))
  }

  /** A request as it arrives: the query, its invoke id, and the way it came. */
  datatype Request = Request(query: Query, invokeId: Octet, function_: Octet, mac: Octets, route: Npdu, hopCount: Octet)

  predicate RequestInRange(r: Request)
  {
    && QueryInRange(r.query) && NpduInRange(r.route) && r.route.networkMessage.None?
    && IsNpduFunction(r.function_) && (if r.function_ == FORWARDED_NPDU then |r.mac| == 6 else r.mac == [])
    && r.route.payload == EncodeQuery(r.invokeId, r.query)
    && 4 + |Body(r.function_, r.mac, r.route, r.hopCount)| < 0x1_0000
  }

  function Datagram(r: Request): Octets
    requires RequestInRange(r)
  {
    Bvll(r.function_, Body(r.function_, r.mac, r.route, r.hopCount))
  }

  /** What a client reads out of an answering APDU. */
  function DecodeAnswer(apdu: Octets): Option<Answered>
  {
    match ApduType(apdu)
    case Some(2) => Some(Accepted)
    case Some(3) =>
      (match ReadPropertyValue(apdu)
       case Value(Some(value)) => Some(Shown(value))
       case _ => None)
    case Some(5) =>
      (match ErrorClassAndCode(apdu)
       case Value(Some((errorClass, errorCode))) => Some(Refused(errorClass, errorCode))
       case _ => None)
    case _ => None
  }

  /** Every value is a balanced stream, and small enough to be sent. */
  ghost predicate Balanced(value: Octets)
  {
    |value| <= 60_000 && exists items :: Encodable(items) && Encode(items) == value
  }

  ghost predicate Tidy(objects: Table)
  {
    forall key, property :: key in objects && property in objects[key] ==> Balanced(objects[key][property])
  }

  // -- One query ------------------------------------------------------------------------------------------------

  lemma ShownIsDecoded(invokeId: Octet, r: Reference, value: Octets)
    requires InRange(r) && Balanced(value)
    ensures DecodeAnswer(ReadPropertyAck(invokeId, r, value)) == Some(Shown(value))
    ensures |ReadPropertyAck(invokeId, r, value)| <= 60_100 && ReadPropertyAck(invokeId, r, value)[1] == invokeId
  {
    var items :| Encodable(items) && Encode(items) == value;
    ReadPropertyAckRoundTrip(invokeId, r, items);
  }

  lemma RefusedIsDecoded(invokeId: Octet, service: Octet, errorClass: nat, errorCode: nat)
    requires errorClass < 0x1_0000_0000 && errorCode < 0x1_0000_0000
    ensures var apdu := ErrorPdu(invokeId, service, errorClass, errorCode);
            DecodeAnswer(apdu) == Some(Refused(errorClass, errorCode)) && |apdu| <= 60_100 && apdu[1] == invokeId
  {
    ErrorRoundTrip(invokeId, service, errorClass, errorCode);
  }

  lemma DevicePropertyIsBalanced(d: ValidDevice, property: nat)
    ensures var items := DeviceProperty(d, property); items.Some? ==> Balanced(Encode(items.value))
  {
    var items := DeviceProperty(d, property);
    if items.Some? {
      assert Encode(End) == [];
      assert Encode(items.value) == EncodeFirst(items.value) + [];
    }
  }

  lemma DeviceIsRead(d: ValidDevice, objects: Table, invokeId: Octet, r: Reference)
    requires InRange(r) && r.key !in objects
    ensures var apdu := ReadDevice(d, invokeId, r);
            DecodeAnswer(apdu) == Some(Look(d, objects, r)) && |apdu| <= 60_100 && apdu[1] == invokeId
  {
    DevicePropertyIsBalanced(d, r.property);
    RefusedIsDecoded(invokeId, READ_PROPERTY, CLASS_OBJECT, UNKNOWN_OBJECT);
    RefusedIsDecoded(invokeId, READ_PROPERTY, CLASS_PROPERTY, UNKNOWN_PROPERTY);
    if NamesDevice(d, r.key) && DeviceProperty(d, r.property).Some? {
      ShownIsDecoded(invokeId, Reference(DeviceKey(d), r.property), Encode(DeviceProperty(d, r.property).value));
    }
  }

  /** What an APDU answers to a query: it carries the query's invoke id, and decodes to the map's answer. */
  ghost predicate Answers(reply: Decoded<Option<Octets>>, invokeId: Octet, answer: Answered)
  {
    reply.Value? && reply.value.Some?
    && |reply.value.value| >= 2 && reply.value.value[1] == invokeId && |reply.value.value| <= 60_100
    && DecodeAnswer(reply.value.value) == Some(answer)
  }

  lemma TableIsRead(d: ValidDevice, objects: Table, invokeId: Octet, r: Reference)
    requires InRange(r) && Tidy(objects)
    ensures Answers(AnswerRead(d, objects, invokeId, r), invokeId, Look(d, objects, r))
  {
    if r.key !in objects {
      DeviceIsRead(d, objects, invokeId, r);
    } else if r.property in objects[r.key] {
      ShownIsDecoded(invokeId, r, objects[r.key][r.property]);
    } else {
      RefusedIsDecoded(invokeId, READ_PROPERTY, CLASS_PROPERTY, UNKNOWN_PROPERTY);
    }
  }

  lemma ReadOutcome(d: ValidDevice, s: ServerState, apdu: Octets, r: Reference)
    requires |apdu| > 3 && apdu[0] == 0 && apdu[3] == READ_PROPERTY && ParseReadProperty(apdu) == Value(Some(r))
    requires !s.mode.Offline?
    ensures var o := OutcomeOf(d, s, apdu);
            && o.state == s.(readRequests := s.readRequests + ReadNote(s.objects, r))
            && o.reply == AnswerRead(d, s.objects, apdu[2], r)
  {
    hide ParseReadProperty, AnswerRead;
    assert s.readRequests + [] == s.readRequests;
  }

  lemma ReadIsAnswered(d: ValidDevice, s: ServerState, invokeId: Octet, r: Reference, index: Option<nat>)
    requires InRange(r) && OptionInRange(index) && Tidy(s.objects) && !s.mode.Offline?
    ensures var o := OutcomeOf(d, s, ReadPropertyRequest(invokeId, r, index));
            && o.state == s.(readRequests := s.readRequests + ReadNote(s.objects, r))
            && Answers(o.reply, invokeId, Look(d, s.objects, r))
  {
    ReadPropertyRoundTrip(invokeId, r, index);
    TableIsRead(d, s.objects, invokeId, r);
    ReadOutcome(d, s, ReadPropertyRequest(invokeId, r, index), r);
  }

  lemma StoreIsTidy(objects: Table, r: Reference, value: Octets)
    requires Tidy(objects) && r.key in objects && Balanced(value)
    ensures Tidy(Store(objects, r, value))
  {
    var after := Store(objects, r, value);
    forall key, property | key in after && property in after[key] ensures Balanced(after[key][property]) {
      if key == r.key && property == r.property {
      } else {
        assert key in objects && property in objects[key] && after[key][property] == objects[key][property];
      }
    }
  }

  lemma WriteOutcome(d: ValidDevice, s: ServerState, apdu: Octets, w: WriteRequest)
    requires |apdu| > 3 && apdu[0] == 0 && apdu[3] == WRITE_PROPERTY && ParseWriteProperty(apdu) == Value(Some(w))
    requires !s.mode.Offline?
    ensures var o, answer := OutcomeOf(d, s, apdu), AnswerWrite(d, s.objects, s.mode.Refusing?, apdu[2], w);
            && o.state == s.(objects := answer.0, writeRequests := s.writeRequests + [w])
            && o.reply == Value(Some(answer.1))
  {
    hide ParseWriteProperty, AnswerWrite;
  }

  lemma TableIsWritten(d: ValidDevice, objects: Table, refusing: bool, invokeId: Octet, q: Query)
    requires q.Write? && QueryInRange(q) && Tidy(objects)
    ensures var answer, m := AnswerWrite(d, objects, refusing, invokeId, RequestOf(q)),
                             MapStep(d, refusing, objects, q);
            answer.0 == m.objects && Tidy(m.objects) && Answers(Value(Some(answer.1)), invokeId, m.answer)
  {
    RefusedIsDecoded(invokeId, WRITE_PROPERTY, CLASS_OBJECT, UNKNOWN_OBJECT);
    RefusedIsDecoded(invokeId, WRITE_PROPERTY, CLASS_PROPERTY, WRITE_ACCESS_DENIED);
    if q.reference.key in objects {
      assert Balanced(Encode(q.value));
      StoreIsTidy(objects, q.reference, Encode(q.value));
    }
  }

  lemma WriteIsAnswered(d: ValidDevice, s: ServerState, invokeId: Octet, q: Query)
    requires q.Write? && QueryInRange(q) && Tidy(s.objects) && !s.mode.Offline?
    ensures var o, m := OutcomeOf(d, s, WritePropertyRequest(invokeId, RequestOf(q))),
                        MapStep(d, s.mode.Refusing?, s.objects, q);
            o.state == AfterQuery(s, q, m.objects) && Tidy(m.objects) && Answers(o.reply, invokeId, m.answer)
  {
    hide OutcomeOf, AnswerWrite, ParseWriteProperty, MapStep, Answers, Tidy;
    WritePropertyRoundTrip(invokeId, RequestOf(q), q.value);
    TableIsWritten(d, s.objects, s.mode.Refusing?, invokeId, q);
    WriteOutcome(d, s, WritePropertyRequest(invokeId, RequestOf(q)), RequestOf(q));
  }

  lemma QueryIsAnswered(d: ValidDevice, s: ServerState, invokeId: Octet, q: Query)
    requires QueryInRange(q) && Tidy(s.objects) && !s.mode.Offline?
    ensures var o, m := OutcomeOf(d, s, EncodeQuery(invokeId, q)), MapStep(d, s.mode.Refusing?, s.objects, q);
            o.state == AfterQuery(s, q, m.objects) && Tidy(m.objects) && Answers(o.reply, invokeId, m.answer)
  {
    match q
    case Read(r, index) => ReadIsAnswered(d, s, invokeId, r, index);
    case Write(_, _, _, _) => WriteIsAnswered(d, s, invokeId, q);
  }

  // -- One datagram -----------------------------------------------------------------------------------------------

  /** The datagram sent back: to the request's own SNET and SADR, with the map's answer under the request's
      invoke id. */
  ghost predicate Returned(reply: Decoded<Option<Octets>>, r: Request, answer: Answered)
  {
    reply.Value? && reply.value.Some?
    && var decoded := DecodeFrame(reply.value.value);
       && decoded.Value? && decoded.value.ok && decoded.value.bvlcFunction == Some(ORIGINAL_UNICAST)
       && decoded.value.npdu.Some?
       && decoded.value.npdu.value.dnet == r.route.snet
       && decoded.value.npdu.value.dadr == Sent(r.route.snet, r.route.sadr)
       && decoded.value.npdu.value.snet.None?
       && InvokeId(decoded.value) == Value(Some(r.invokeId)) && DecodeAnswer(ApduOf(decoded.value)) == Some(answer)
  }

  lemma AnswerHasInvokeId(apdu: Octets, invokeId: Octet)
    requires |apdu| >= 2 && apdu[1] == invokeId && DecodeAnswer(apdu).Some?
    ensures ApduInvokeId(apdu) == Value(Some(invokeId))
  {
  }

  lemma ReplyIsDecoded(request: Frame, apdu: Octets, route: Npdu)
    requires request.npdu.Some? && request.npdu.value.snet == route.snet
    requires request.npdu.value.sadr == Sent(route.snet, route.sadr) && RouteInRange(route.snet, route.sadr)
    requires |apdu| <= 60_100
    ensures Reply(request, apdu).Value?
    ensures var decoded := DecodeFrame(Reply(request, apdu).value);
            && decoded.Value? && decoded.value.ok && decoded.value.bvlcFunction == Some(ORIGINAL_UNICAST)
            && decoded.value.npdu == Some(Npdu(route.snet, Sent(route.snet, route.sadr), None, [], false, None, apdu))
  {
    var n := Npdu(route.snet, Sent(route.snet, route.sadr), None, [], false, None, apdu);
    assert NpduInRange(n) && |EncodeNpdu(n, 255)| <= 60_100 + 300;
    FrameIsDecoded(ORIGINAL_UNICAST, [], n, 255);
  }

  lemma ServedReplies(d: ValidDevice, s: ServerState, data: Octets, f: Frame, o: Outcome)
    requires DecodeFrame(data) == Value(f) && f.ok && ApduOf(f) != [] && OutcomeOf(d, s, ApduOf(f)) == o
    requires o.reply.Value? && o.reply.value.Some? && Reply(f, o.reply.value.value).Value?
    ensures Served(d, s, data) == Outcome(o.state, Value(Some(Reply(f, o.reply.value.value).value)))
  {
  }

  /** One request to a server that is not offline: what comes back, and what is kept. */
  ghost predicate Correct(d: ValidDevice, s: ServerState, r: Request, o: Outcome)
    requires RequestInRange(r)
  {
    var m := MapStep(d, s.mode.Refusing?, s.objects, r.query);
    o.state == AfterQuery(s, r.query, m.objects) && Tidy(m.objects) && Returned(o.reply, r, m.answer)
  }

  lemma DatagramIsAnswered(d: ValidDevice, s: ServerState, r: Request)
    requires RequestInRange(r) && Tidy(s.objects) && !s.mode.Offline?
    ensures Correct(d, s, r, Served(d, s, Datagram(r)))
  {
    FrameIsDecoded(r.function_, r.mac, r.route, r.hopCount);
    QueryIsAnswered(d, s, r.invokeId, r.query);
    var f, o := DecodeFrame(Datagram(r)).value, OutcomeOf(d, s, r.route.payload);
    ReplyIsDecoded(f, o.reply.value.value, r.route);
    AnswerHasInvokeId(o.reply.value.value, r.invokeId);
    ServedReplies(d, s, Datagram(r), f, o);
  }

  // -- While offline -------------------------------------------------------------------------------------------------

  /** The APDU that a datagram carries, if any. */
  function ApduIn(data: Octets): Octets
  {
    match DecodeFrame(data)
    case Value(f) => if f.ok then ApduOf(f) else []
    case _ => []
  }

  predicate Confirmed(apdu: Octets) { ApduType(apdu) == Some(0) && |apdu| > 3 }

  /** The requests that a server counts while it is offline. */
  predicate Counted(apdu: Octets)
  {
    Confirmed(apdu) && (apdu[3] == READ_PROPERTY || apdu[3] == READ_PROPERTY_MULTIPLE || apdu[3] == WRITE_PROPERTY)
  }

  /** The write that an APDU asks for, if any. */
  function WriteIn(apdu: Octets): Decoded<Option<WriteRequest>>
  {
    if Confirmed(apdu) && apdu[3] == WRITE_PROPERTY then ParseWriteProperty(apdu) else Value(None)
  }

  function Noted(write: Option<WriteRequest>): seq<WriteRequest> { if write.Some? then [write.value] else [] }

  /** An offline server's state after an APDU that raises no exception. */
  function AfterOffline(s: ServerState, apdu: Octets, write: Option<WriteRequest>): ServerState
  {
    ServerState(s.objects, s.mode, s.readRequests, s.writeRequests + Noted(write),
                if Counted(apdu) then s.requestsWhileOffline + 1 else s.requestsWhileOffline)
  }

  ghost predicate Silent(s: ServerState, apdu: Octets, write: Decoded<Option<WriteRequest>>, o: Outcome)
  {
    if write.Value? then o == Outcome(AfterOffline(s, apdu, write.value), Value(None))
    else !o.reply.Value? && o.state == s
  }

  lemma OfflineOutcome(d: ValidDevice, s: ServerState, apdu: Octets)
    requires s.mode.Offline?
    ensures Silent(s, apdu, WriteIn(apdu), OutcomeOf(d, s, apdu))
  {
    assert s.writeRequests + [] == s.writeRequests;
  }

  lemma SilentFrame(d: ValidDevice, s: ServerState, data: Octets, o: Outcome)
    requires DecodeFrame(data).Value? && (ApduIn(data) != [] ==> OutcomeOf(d, s, ApduIn(data)) == o)
    requires if ApduIn(data) == [] then o == Outcome(s, Value(None)) else o.reply.Value? ==> o.reply.value.None?
    ensures Served(d, s, data) == o
  {
  }

  /** An offline server sends nothing back, whatever the datagram, and stores nothing. It counts every confirmed read
      or write request, and no other datagram, and notes every write that it can parse; on octets that raise an
      exception in the decoder or in the parser it does not even do that. */
  lemma OfflineIsSilent(d: ValidDevice, s: ServerState, data: Octets)
    requires s.mode.Offline?
    ensures var o, apdu := Served(d, s, data), ApduIn(data);
            if DecodeFrame(data).Value? then Silent(s, apdu, WriteIn(apdu), o) else !o.reply.Value? && o.state == s
  {
    if DecodeFrame(data).Value? {
      var apdu := ApduIn(data);
      assert s.writeRequests + [] == s.writeRequests;
      if apdu == [] {
        SilentFrame(d, s, data, Outcome(s, Value(None)));
      } else {
        OfflineOutcome(d, s, apdu);
        SilentFrame(d, s, data, OutcomeOf(d, s, apdu));
      }
    }
  }

  lemma QueryIsWritten(invokeId: Octet, q: Query)
    requires QueryInRange(q)
    ensures var apdu := EncodeQuery(invokeId, q);
            apdu != [] && Counted(apdu) && WriteIn(apdu) == Value(if q.Write? then Some(RequestOf(q)) else None)
  {
    if q.Write? {
      WritePropertyRoundTrip(invokeId, RequestOf(q), q.value);
    }
  }

  lemma DatagramCarriesQuery(r: Request)
    requires RequestInRange(r)
    ensures DecodeFrame(Datagram(r)).Value? && ApduIn(Datagram(r)) == EncodeQuery(r.invokeId, r.query)
  {
    FrameIsDecoded(r.function_, r.mac, r.route, r.hopCount);
  }

  /** What an offline server makes of a request: it is counted, and noted if it is a write. */
  function AfterSilence(s: ServerState, q: Query): ServerState
    requires QueryInRange(q)
  {
    ServerState(s.objects, s.mode, s.readRequests,
                s.writeRequests + (if q.Write? then [RequestOf(q)] else []), s.requestsWhileOffline + 1)
  }

  lemma OfflineRequestIsSilent(d: ValidDevice, s: ServerState, r: Request)
    requires RequestInRange(r) && s.mode.Offline?
    ensures Served(d, s, Datagram(r)) == Outcome(AfterSilence(s, r.query), Value(None))
  {
    DatagramCarriesQuery(r);
    QueryIsWritten(r.invokeId, r.query);
    OfflineIsSilent(d, s, Datagram(r));
  }

  // -- Runs --------------------------------------------------------------------------------------------------------

  /** What happens to a server: it is asked something, or the mode it answers in is changed. */
  datatype Happening = Asked(request: Request) | Switched(mode: Mode)

  predicate HappensInRange(e: Happening) { e.Asked? ==> RequestInRange(e.request) }

  predicate AllInRange(es: seq<Happening>) { es != [] ==> HappensInRange(es[0]) && AllInRange(es[1..]) }

  function ServerStep(serve: (ServerState, Octets) -> Outcome, s: ServerState, e: Happening): Outcome
    requires HappensInRange(e)
  {
    match e
    case Asked(r) => serve(s, Datagram(r))
    case Switched(mode) => Outcome(s.(mode := mode), Value(None))
  }

  /** The server's state after a run, and what it sent at each step. */
  datatype ServerRun = ServerRun(state: ServerState, replies: seq<Decoded<Option<Octets>>>)

  function RunServer(serve: (ServerState, Octets) -> Outcome, s: ServerState, es: seq<Happening>): ServerRun
    requires AllInRange(es)
    decreases es
  {
    if es == [] then ServerRun(s, [])
    else
      var o := ServerStep(serve, s, es[0]);
      var rest := RunServer(serve, o.state, es[1..]);
      ServerRun(rest.state, [o.reply] + rest.replies)
  }

  function ServerOf(d: ValidDevice): (ServerState, Octets) -> Outcome
  {
    (s: ServerState, data: Octets) => Served(d, s, data)
  }

  /** The same without octets. Where the server is silent there is no answer. */
  datatype PlainOutcome = PlainOutcome(state: ServerState, answer: Option<Answered>)

  function PlainStep(d: ValidDevice, s: ServerState, e: Happening): PlainOutcome
    requires HappensInRange(e)
  {
    match e
    case Switched(mode) => PlainOutcome(s.(mode := mode), None)
    case Asked(r) =>
      if s.mode.Offline? then PlainOutcome(AfterSilence(s, r.query), None)
      else
        var m := MapStep(d, s.mode.Refusing?, s.objects, r.query);
        PlainOutcome(AfterQuery(s, r.query, m.objects), Some(m.answer))
  }

  datatype PlainRun = PlainRun(state: ServerState, answers: seq<Option<Answered>>)

  function RunPlain(d: ValidDevice, s: ServerState, es: seq<Happening>): PlainRun
    requires AllInRange(es)
    decreases es
  {
    if es == [] then PlainRun(s, [])
    else
      var o := PlainStep(d, s, es[0]);
      var rest := RunPlain(d, o.state, es[1..]);
      PlainRun(rest.state, [o.answer] + rest.answers)
  }

  /** What was sent at a step is the answer, or nothing. */
  ghost predicate Matches(reply: Decoded<Option<Octets>>, e: Happening, answer: Option<Answered>)
  {
    match answer
    case None => reply == Value(None)
    case Some(a) => e.Asked? && Returned(reply, e.request, a)
  }

  ghost predicate StepMatches(d: ValidDevice, s: ServerState, e: Happening, o: Outcome)
    requires HappensInRange(e)
  {
    var plain := PlainStep(d, s, e);
    o.state == plain.state && Tidy(plain.state.objects) && Matches(o.reply, e, plain.answer)
  }

  ghost predicate ServesCorrectly(d: ValidDevice, serve: (ServerState, Octets) -> Outcome)
  {
    forall s: ServerState, e: Happening {:trigger ServerStep(serve, s, e)} ::
      HappensInRange(e) && Tidy(s.objects) ==> StepMatches(d, s, e, ServerStep(serve, s, e))
  }

  lemma StepIsPlain(d: ValidDevice, s: ServerState, e: Happening)
    requires HappensInRange(e) && Tidy(s.objects)
    ensures StepMatches(d, s, e, ServerStep(ServerOf(d), s, e))
  {
    hide Served, Tidy, Returned, MapStep;
    if e.Asked? && s.mode.Offline? {
      OfflineRequestIsSilent(d, s, e.request);
    } else if e.Asked? {
      DatagramIsAnswered(d, s, e.request);
    }
  }

  lemma ServerServesCorrectly(d: ValidDevice)
    ensures ServesCorrectly(d, ServerOf(d))
  {
    hide StepMatches, ServerStep, ServerOf, Tidy;
    forall s: ServerState, e: Happening | HappensInRange(e) && Tidy(s.objects)
      ensures StepMatches(d, s, e, ServerStep(ServerOf(d), s, e))
    {
      StepIsPlain(d, s, e);
    }
  }

  ghost predicate SameAnswers(replies: seq<Decoded<Option<Octets>>>, es: seq<Happening>, answers: seq<Option<Answered>>)
  {
    |replies| == |answers| == |es|
    && forall i {:trigger replies[i]} :: 0 <= i < |es| ==> Matches(replies[i], es[i], answers[i])
  }

  lemma AnswersExtend(reply: Decoded<Option<Octets>>, e: Happening, answer: Option<Answered>,
                      replies: seq<Decoded<Option<Octets>>>, es: seq<Happening>, answers: seq<Option<Answered>>)
    requires Matches(reply, e, answer) && SameAnswers(replies, es, answers)
    ensures SameAnswers([reply] + replies, [e] + es, [answer] + answers)
  {
    hide Matches;
  }

  lemma {:induction false} RunsAgree(d: ValidDevice, serve: (ServerState, Octets) -> Outcome, s: ServerState,
                                     es: seq<Happening>)
    requires ServesCorrectly(d, serve) && AllInRange(es) && Tidy(s.objects)
    ensures var run, plain := RunServer(serve, s, es), RunPlain(d, s, es);
            run.state == plain.state && SameAnswers(run.replies, es, plain.answers)
    decreases es
  {
    hide ServerStep, PlainStep, Matches, Tidy, HappensInRange;
    if es == [] {
    } else {
      var o, plain := ServerStep(serve, s, es[0]), PlainStep(d, s, es[0]);
      assert StepMatches(d, s, es[0], o);
      RunsAgree(d, serve, o.state, es[1..]);
      assert [es[0]] + es[1..] == es;
      AnswersExtend(o.reply, es[0], plain.answer, RunServer(serve, o.state, es[1..]).replies,
                    es[1..], RunPlain(d, o.state, es[1..]).answers);
    }
  }

  /** Whatever is asked, in whatever order, over whatever routes, and whenever the mode is changed in between: the
      decoded replies are the answers of the plain map, an offline server sends nothing, and at the end the server
      holds what the map holds and has noted and counted what it should have. */
  lemma ServerIsMap(d: ValidDevice, s: ServerState, es: seq<Happening>)
    requires AllInRange(es) && Tidy(s.objects)
    ensures var run, plain := RunServer(ServerOf(d), s, es), RunPlain(d, s, es);
            run.state == plain.state && SameAnswers(run.replies, es, plain.answers)
  {
    ServerServesCorrectly(d);
    RunsAgree(d, ServerOf(d), s, es);
  }

  // -- Several properties at once ------------------------------------------------------------------------

  lemma {:induction false} MergedIsInRange(list: seq<Spec>, members: seq<Spec>)
    requires SpecsInRange(list) && SpecsInRange(members)
    ensures SpecsInRange(Merged(list, members))
    decreases list
  {
    if list == [] {
    } else {
      MergedIsInRange(list[1..], Put(members, list[0]));
    }
  }

  lemma MultipleOutcome(d: ValidDevice, s: ServerState, apdu: Octets, list: seq<Spec>)
    requires |apdu| > 3 && apdu[0] == 0 && apdu[3] == READ_PROPERTY_MULTIPLE && !s.mode.Offline?
    requires ReadSpecs(Slice(apdu, 4, |apdu|), 0, State([], None)) == Value(list)
    ensures OutcomeOf(d, s, apdu).reply == AnswerMultiple(s.objects, apdu[2], list)
    ensures OutcomeOf(d, s, apdu).state ==
            s.(readRequests := s.readRequests + [(READ_PROPERTY_MULTIPLE, list)])
  {
  }

  /** ReadPropertyMultiple serves the same table: it answers for the specifications that were encoded, of an object
      that is specified more than once for the last of them, in the place of the first. The request is noted, and
      nothing else changes. */
  lemma MultipleServesTheTable(d: ValidDevice, s: ServerState, invokeId: Octet, list: seq<Spec>)
    requires SpecsInRange(list) && !s.mode.Offline?
    ensures SpecsInRange(Merged(list, []))
    ensures OutcomeOf(d, s, ConfirmedRequest(invokeId, READ_PROPERTY_MULTIPLE, EncodeSpecs(list))).reply ==
            Value(Some(ReadPropertyMultipleAck(s.objects, invokeId, Merged(list, []))))
    ensures OutcomeOf(d, s, ConfirmedRequest(invokeId, READ_PROPERTY_MULTIPLE, EncodeSpecs(list))).state ==
            s.(readRequests := s.readRequests + [(14, Merged(list, []))])
  {
    hide OutcomeOf, ReadSpecs, EncodeSpecs, Merged, Slice;
    SpecsAreMerged(list);
    MergedIsInRange(list, []);
    SliceOfRest([0x00, 0x05, invokeId, READ_PROPERTY_MULTIPLE], EncodeSpecs(list));
    MultipleOutcome(d, s, ConfirmedRequest(invokeId, READ_PROPERTY_MULTIPLE, EncodeSpecs(list)), Merged(list, []));
  }
}
