/** BACnet/IP datagrams as wiretest/codec.py builds and decodes them: the BVLL (Annex J.2 of ANSI/ASHRAE 135-2024)
    around the NPDU (section 6.2). */
module Frames {
  import opened Wrappers
  import opened Tags

  const FORWARDED_NPDU := 0x04
  const DISTRIBUTE_BROADCAST := 0x09
  const ORIGINAL_UNICAST := 0x0A
  const ORIGINAL_BROADCAST := 0x0B

  predicate CarriesNpdu(function_: nat)
  {
    function_ == FORWARDED_NPDU || function_ == DISTRIBUTE_BROADCAST
    || function_ == ORIGINAL_UNICAST || function_ == ORIGINAL_BROADCAST
  }

  /** An NPDU's content. The payload is an APDU, or the data of a network layer message. */
  datatype Npdu = Npdu(
    dnet: Option<nat>, dadr: Octets, snet: Option<nat>, sadr: Octets,
    expectingReply: bool, networkMessage: Option<Octet>, payload: Octets)

  /** A decoded datagram. */
  datatype Frame = Frame(ok: bool, bvlcFunction: Option<Octet>, bvllData: Octets,
    originatingMac: Octets, npdu: Option<Npdu>)

  // -- Encoding -----------------------------------------------------------------------------------------

  predicate RouteInRange(net: Option<nat>, address: Octets) { net.Some? ==> net.value < 0x1_0000 && |address| < 256 }

  predicate NpduInRange(n: Npdu) { RouteInRange(n.dnet, n.dadr) && RouteInRange(n.snet, n.sadr) }

  function EncodeRoute(net: Option<nat>, address: Octets): Octets
    requires RouteInRange(net, address)
  {
    if net.Some? then (ToBytes(net.value, 2) + [|address|]) + address else []
  }

  function ControlBit(b: bool, unit: Octet): Octet { if b then unit else 0 }

  function Control(message: bool, destination: bool, source: bool, reply: bool): Octet
  {
    ControlBit(message, 0x80) + ControlBit(destination, 0x20) + ControlBit(source, 0x08) + ControlBit(reply, 0x04)
  }

  function HopOctets(n: Npdu, hopCount: Octet): Octets { if n.dnet.Some? then [hopCount] else [] }

  function MessageOctets(n: Npdu): Octets { if n.networkMessage.Some? then [n.networkMessage.value] else [] }

  function EncodeNpdu(n: Npdu, hopCount: Octet): Octets
    requires NpduInRange(n)
  {
    [0x01, Control(n.networkMessage.Some?, n.dnet.Some?, n.snet.Some?, n.expectingReply)]
    + (EncodeRoute(n.dnet, n.dadr)
       + (EncodeRoute(n.snet, n.sadr) + (HopOctets(n, hopCount) + (MessageOctets(n) + n.payload))))
  }

  function Bvll(function_: Octet, body: Octets): Octets
    requires 4 + |body| < 0x1_0000
  {
    ([0x81, function_] + ToBytes(4 + |body|, 2)) + body
  }

  // -- Decoding -------------------------------------------------------------------------------------------

  predicate BitSet(v: nat, unit: nat)
    requires unit > 0
  {
    (v / unit) % 2 == 1
  }

  datatype Route = Route(net: Option<nat>, address: Octets, next: nat)

  function ReadRoute(octets: Octets, p: nat, present: bool): Decoded<Route>
  {
    if !present then Value(Route(None, [], p))
    else if p + 3 > |octets| then Truncated
    else
      var end := p + 3 + octets[p + 2];
      Value(Route(Some(Join(0, 0, octets[p], octets[p + 1])), Slice(octets, p + 3, end), end))
  }

  function ReadRest(octets: Octets, p: nat, message: bool, reply: bool, d: Route, s: Route): Decoded<Npdu>
  {
    if !message then Value(Npdu(d.net, d.address, s.net, s.address, reply, None, Slice(octets, p, |octets|)))
    else if p >= |octets| then Truncated
    else
      Value(Npdu(d.net, d.address, s.net, s.address, reply, Some(octets[p]),
                 Slice(octets, if octets[p] >= 0x80 then p + 3 else p + 1, |octets|)))
  }

  /** From the first octet after the control octet. */
  function ReadRouted(octets: Octets, start: nat, control: Octet): Decoded<Npdu>
  {
    var d :- ReadRoute(octets, start, BitSet(control, 0x20));
    var s :- ReadRoute(octets, d.next, BitSet(control, 0x08));
    var p := if BitSet(control, 0x20) then s.next + 1 else s.next;
    ReadRest(octets, p, BitSet(control, 0x80), BitSet(control, 0x04), d, s)
  }

  /** None for an NPDU of another version, or too short to have one. */
  function ReadNpdu(octets: Octets): Decoded<Option<Npdu>>
  {
    if |octets| < 2 || octets[0] != 0x01 then Value(None)
    else
      var n :- ReadRouted(octets, 2, octets[1]);
      Value(Some(n))
  }

  function DecodeFrame(data: Octets): Decoded<Frame>
  {
    if |data| < 4 || data[0] != 0x81 then Value(Frame(false, None, [], [], None))
    else
      var function_, bvllData := data[1], Slice(data, 4, |data|);
      if !CarriesNpdu(function_) then Value(Frame(true, Some(function_), bvllData, [], None))
      else
        var forwarded := function_ == FORWARDED_NPDU;
        var mac := if forwarded then Slice(data, 4, 10) else [];
        var n :- ReadNpdu(Slice(data, if forwarded then 10 else 4, |data|));
        Value(Frame(n.Some?, Some(function_), bvllData, mac, n))
  }

  function OctetAt(s: Octets, i: nat): Decoded<Option<Octet>> { if i < |s| then Value(Some(s[i])) else Truncated }

  // An APDU's type, invoke id and service choice.

  function ApduType(apdu: Octets): Option<nat> { if apdu == [] then None else Some(apdu[0] / 16) }

  function ApduInvokeId(apdu: Octets): Decoded<Option<Octet>>
  {
    if ApduType(apdu) in {Some(2), Some(3), Some(5), Some(6), Some(7)} then OctetAt(apdu, 1)
    else if ApduType(apdu) == Some(0) && |apdu| > 2 then OctetAt(apdu, 2)
    else Value(None)
  }

  function ApduService(apdu: Octets): Decoded<Option<Octet>>
  {
    if ApduType(apdu) in {Some(2), Some(3), Some(5)} then OctetAt(apdu, 2)
    else if ApduType(apdu) == Some(0) && |apdu| > 3 then OctetAt(apdu, 3)
    else if ApduType(apdu) == Some(1) && |apdu| > 1 then OctetAt(apdu, 1)
    else Value(None)
  }

  /** The APDU a frame carries, if any: a network layer message carries none. */
  function ApduOf(f: Frame): Octets
  {
    if f.npdu.Some? && f.npdu.value.networkMessage.None? then f.npdu.value.payload else []
  }

  function InvokeId(f: Frame): Decoded<Option<Octet>> { ApduInvokeId(ApduOf(f)) }

  /** The object the source fills field by field. A failing decode leaves it half filled. */
  class ReceivedFrame {
    var ok: bool
    var bvlcFunction: Option<Octet>
    var bvllData: Octets
    var originatingMac: Octets
    var hasNpdu: bool
    var dnet: Option<nat>
    var dadr: Octets
    var snet: Option<nat>
    var sadr: Octets
    var expectingReply: bool
    var networkMessage: Option<Octet>
    var payload: Octets

    predicate Blank()
      reads this
    {
      !ok && bvlcFunction.None? && bvllData == originatingMac == [] && !hasNpdu && dnet.None? && dadr == []
      && snet.None? && sadr == [] && networkMessage.None?
    }

    function View(): Frame
      reads this
    {
      Frame(ok, bvlcFunction, bvllData, originatingMac,
            if hasNpdu then Some(Npdu(dnet, dadr, snet, sadr, expectingReply, networkMessage, payload)) else None)
    }

    constructor ()
      ensures Blank()
    {
      ok, bvlcFunction, bvllData, originatingMac, hasNpdu := false, None, [], [], false;
      dnet, dadr, snet, sadr, expectingReply, networkMessage, payload := None, [], None, [], false, None, [];
    }

    /** The result is whether the source returns from it, rather than raising an exception. */
    method Decode(data: Octets) returns (finished: bool)
      requires Blank()
      modifies this
      ensures finished <==> DecodeFrame(data).Value?
      ensures finished ==> View() == DecodeFrame(data).value
    {
      if |data| < 4 || data[0] != 0x81 {
        return true;
      }
      bvlcFunction := Some(data[1]);
      bvllData := Slice(data, 4, |data|);
      if !CarriesNpdu(data[1]) {
        ok := true;
        return true;
      }
      var offset := 4;
      if data[1] == FORWARDED_NPDU {
        originatingMac := Slice(data, 4, 10);
        offset := offset + 6;
      }
      finished := DecodeNpdu(Slice(data, offset, |data|));
      ok := finished && hasNpdu;
    }

    method DecodeNpdu(octets: Octets) returns (finished: bool)
      requires !hasNpdu && dnet.None? && dadr == [] && snet.None? && sadr == [] && networkMessage.None?
      modifies this
      ensures bvlcFunction == old(bvlcFunction) && bvllData == old(bvllData) && originatingMac == old(originatingMac)
      ensures finished <==> ReadNpdu(octets).Value?
      ensures finished ==> View().npdu == ReadNpdu(octets).value
    {
      if |octets| < 2 || octets[0] != 0x01 {
        return true;
      }
      hasNpdu := true;
      expectingReply := BitSet(octets[1], 0x04);
      finished := DecodeRouted(octets, octets[1]);
    }

    method DecodeRouted(octets: Octets, control: Octet) returns (finished: bool)
      requires networkMessage.None? && expectingReply == BitSet(control, 0x04)
      modifies this`dnet, this`dadr, this`snet, this`sadr, this`networkMessage, this`payload
      ensures finished <==> ReadRouted(octets, 2, control).Value?
      ensures finished ==>
                Npdu(dnet, dadr, snet, sadr, expectingReply, networkMessage, payload) ==
                ReadRouted(octets, 2, control).value
    {
      var d := ReadRoute(octets, 2, BitSet(control, 0x20));
      if d.IsFailure() {
        return false;
      }
      dnet, dadr := d.value.net, d.value.address;
      var s := ReadRoute(octets, d.value.next, BitSet(control, 0x08));
      if s.IsFailure() {
        return false;
      }
      snet, sadr := s.value.net, s.value.address;
      var position := s.value.next;
      if BitSet(control, 0x20) {
        position := position + 1;
      }
      finished := DecodeRest(octets, position, BitSet(control, 0x80));
    }

    method DecodeRest(octets: Octets, start: nat, message: bool) returns (finished: bool)
      requires networkMessage.None?
      modifies this`networkMessage, this`payload
      ensures var d, s := Route(dnet, dadr, 0), Route(snet, sadr, 0);
              && (finished <==> ReadRest(octets, start, message, expectingReply, d, s).Value?)
              && (finished ==> Npdu(dnet, dadr, snet, sadr, expectingReply, networkMessage, payload) ==
                               ReadRest(octets, start, message, expectingReply, d, s).value)
    {
      var position := start;
      if message {
        if position >= |octets| {
          return false;
        }
        networkMessage := Some(octets[position]);
        position := position + 1;
        if networkMessage.value >= 0x80 {
          position := position + 2;
        }
      }
      payload := Slice(octets, position, |octets|);
      finished := true;
    }
  }

  // -- The round trip -----------------------------------------------------------------------------------------

  lemma ControlBits(message: bool, destination: bool, source: bool, reply: bool)
    ensures var control := Control(message, destination, source, reply);
            && (BitSet(control, 0x80) <==> message) && (BitSet(control, 0x20) <==> destination)
            && (BitSet(control, 0x08) <==> source) && (BitSet(control, 0x04) <==> reply)
  {
  }

  lemma TwoOctets(data: Octets, p: nat, v: nat)
    requires v < 0x1_0000 && At(data, p, ToBytes(v, 2))
    ensures p + 1 < |data| && Join(0, 0, data[p], data[p + 1]) == v
  {
    var high := v / 256;
    AtIndex(data, p, ToBytes(v, 2), 0);
    AtIndex(data, p, ToBytes(v, 2), 1);
    assert ToBytes(v, 2) == ToBytes(high, 1) + [v % 256];
    assert ToBytes(high, 1) == ToBytes(high / 256, 0) + [high];
  }

  /** An address given without a network number is not sent. */
  function Sent(net: Option<nat>, address: Octets): Octets { if net.Some? then address else [] }

  lemma RouteIsRead(octets: Octets, p: nat, net: Option<nat>, address: Octets)
    requires RouteInRange(net, address) && At(octets, p, EncodeRoute(net, address))
    ensures ReadRoute(octets, p, net.Some?) == Value(Route(net, Sent(net, address), p + |EncodeRoute(net, address)|))
  {
    if net.Some? {
      AtParts(octets, p, ToBytes(net.value, 2) + [|address|], address);
      AtParts(octets, p, ToBytes(net.value, 2), [|address|]);
      TwoOctets(octets, p, net.value);
      AtIndex(octets, p + 2, [|address|], 0);
      AtIsSlice(octets, p + 3, address);
    }
  }

  function KeptPayload(message: Option<Octet>, payload: Octets): Octets
  {
    if message.Some? && message.value >= 0x80 then Slice(payload, 2, |payload|) else payload
  }

  /** What the decoder makes of an encoded NPDU: the two octets after a vendor's message type pass for its id. */
  function Received(n: Npdu): Npdu
  {
    Npdu(n.dnet, Sent(n.dnet, n.dadr), n.snet, Sent(n.snet, n.sadr), n.expectingReply, n.networkMessage,
         KeptPayload(n.networkMessage, n.payload))
  }

  lemma SliceOfTail(data: Octets, p: nat, s: Octets, skip: nat)
    requires At(data, p, s) && p + |s| == |data|
    ensures Slice(data, p + skip, |data|) == Slice(s, skip, |s|)
  {
    if skip <= |s| {
      SliceIsSubsequence(data, p + skip, |data|);
      SliceIsSubsequence(s, skip, |s|);
      forall i | 0 <= i < |s| - skip ensures data[p + skip..][i] == s[skip..][i] {
        AtIndex(data, p, s, skip + i);
      }
      assert data[p + skip..|data|] == data[p + skip..] && s[skip..|s|] == s[skip..];
    }
  }

  lemma RestIsRead(octets: Octets, p: nat, n: Npdu, d: Route, s: Route)
    requires At(octets, p, MessageOctets(n)) && At(octets, p + |MessageOctets(n)|, n.payload)
    requires p + |MessageOctets(n)| + |n.payload| == |octets|
    requires d.net == n.dnet && s.net == n.snet && d.address == Sent(n.dnet, n.dadr)
    requires s.address == Sent(n.snet, n.sadr)
    ensures ReadRest(octets, p, n.networkMessage.Some?, n.expectingReply, d, s) == Value(Received(n))
  {
    if n.networkMessage.Some? {
      AtIndex(octets, p, MessageOctets(n), 0);
      SliceOfTail(octets, p + 1, n.payload, 2);
      AtIsSlice(octets, p + 1, n.payload);
    } else {
      AtIsSlice(octets, p, n.payload);
    }
  }

  lemma NpduComposes(octets: Octets, n: Npdu, d: Route, s: Route, p: nat)
    requires |octets| >= 2 && octets[0] == 0x01
    requires octets[1] == Control(n.networkMessage.Some?, n.dnet.Some?, n.snet.Some?, n.expectingReply)
    requires ReadRoute(octets, 2, n.dnet.Some?) == Value(d) && ReadRoute(octets, d.next, n.snet.Some?) == Value(s)
    requires p == if n.dnet.Some? then s.next + 1 else s.next
    requires ReadRest(octets, p, n.networkMessage.Some?, n.expectingReply, d, s) == Value(Received(n))
    ensures ReadNpdu(octets) == Value(Some(Received(n)))
  {
    ControlBits(n.networkMessage.Some?, n.dnet.Some?, n.snet.Some?, n.expectingReply);
  }

  lemma NpduParts(octets: Octets, head: Octets, a: Octets, b: Octets, c: Octets, d: Octets, e: Octets)
    requires octets == head + (a + (b + (c + (d + e)))) && |head| == 2
    ensures octets[0] == head[0] && octets[1] == head[1]
    ensures At(octets, 2, a) && At(octets, 2 + |a|, b)
    ensures At(octets, 2 + |a| + |b| + |c|, d) && At(octets, 2 + |a| + |b| + |c| + |d|, e)
    ensures |octets| == 2 + |a| + |b| + |c| + |d| + |e|
  {
    AtItself(octets, 2, a + (b + (c + (d + e))));
    AtParts(octets, 2, a, b + (c + (d + e)));
    AtParts(octets, 2 + |a|, b, c + (d + e));
    AtParts(octets, 2 + |a| + |b|, c, d + e);
    AtParts(octets, 2 + |a| + |b| + |c|, d, e);
  }

  lemma NpduIsRead(octets: Octets, n: Npdu, hopCount: Octet)
    requires NpduInRange(n) && octets == EncodeNpdu(n, hopCount)
    ensures ReadNpdu(octets) == Value(Some(Received(n)))
  {
    hide ReadRoute, ReadRest, ReadNpdu, Slice, EncodeRoute, Received;
    var head := [0x01, Control(n.networkMessage.Some?, n.dnet.Some?, n.snet.Some?, n.expectingReply)];
    var a, b := EncodeRoute(n.dnet, n.dadr), EncodeRoute(n.snet, n.sadr);
    var p := 2 + |a| + |b| + |HopOctets(n, hopCount)|;
    NpduParts(octets, head, a, b, HopOctets(n, hopCount), MessageOctets(n), n.payload);
    var d, s := Route(n.dnet, Sent(n.dnet, n.dadr), 2 + |a|), Route(n.snet, Sent(n.snet, n.sadr), 2 + |a| + |b|);
    RouteIsRead(octets, 2, n.dnet, n.dadr);
    RouteIsRead(octets, 2 + |a|, n.snet, n.sadr);
    RestIsRead(octets, p, n, d, s);
    NpduComposes(octets, n, d, s, p);
  }

  /** The body of a message that carries an NPDU: a Forwarded-NPDU begins with the originating address. */
  function Body(function_: Octet, mac: Octets, n: Npdu, hopCount: Octet): Octets
    requires NpduInRange(n)
  {
    if function_ == FORWARDED_NPDU then mac + EncodeNpdu(n, hopCount) else EncodeNpdu(n, hopCount)
  }

  lemma BvllIsRead(function_: Octet, body: Octets)
    requires 4 + |body| < 0x1_0000
    ensures var data := Bvll(function_, body);
            |data| == 4 + |body| && data[0] == 0x81 && data[1] == function_ && Slice(data, 4, |data|) == body
  {
    SliceOfRest([0x81, function_] + ToBytes(4 + |body|, 2), body);
  }

  lemma ForwardedIsRead(data: Octets, head: Octets, mac: Octets, rest: Octets)
    requires data == head + (mac + rest) && |head| == 4 && |mac| == 6
    ensures Slice(data, 4, 10) == mac && Slice(data, 10, |data|) == rest
  {
    AtItself(data, 4, mac + rest);
    AtParts(data, 4, mac, rest);
    AtIsSlice(data, 4, mac);
    AtIsSlice(data, 10, rest);
  }

  /** The Forwarded-NPDU, the two original NPDUs and the broadcast to be distributed. */
  predicate IsNpduFunction(function_: Octet) { function_ == 4 || 9 <= function_ <= 11 }

  lemma FrameIsDecoded(function_: Octet, mac: Octets, n: Npdu, hopCount: Octet)
    requires NpduInRange(n) && IsNpduFunction(function_)
    requires if function_ == FORWARDED_NPDU then |mac| == 6 else mac == []
    requires 4 + |Body(function_, mac, n, hopCount)| < 0x1_0000
    ensures var body := Body(function_, mac, n, hopCount);
            DecodeFrame(Bvll(function_, body)) == Value(Frame(true, Some(function_), body, mac, Some(Received(n))))
  {
    var body := Body(function_, mac, n, hopCount);
    var data := Bvll(function_, body);
    BvllIsRead(function_, body);
    if function_ == FORWARDED_NPDU {
      ForwardedIsRead(data, [0x81, function_] + ToBytes(4 + |body|, 2), mac, EncodeNpdu(n, hopCount));
    }
    NpduIsRead(EncodeNpdu(n, hopCount), n, hopCount);
  }

  /** Every other message of the BVLL is decoded to its function and data, and carries no NPDU. */
  lemma OtherMessagesAreDecoded(function_: Octet, body: Octets)
    requires !IsNpduFunction(function_) && 4 + |body| < 0x1_0000
    ensures DecodeFrame(Bvll(function_, body)) == Value(Frame(true, Some(function_), body, [], None))
  {
    BvllIsRead(function_, body);
  }

  /** Decoding gives back what was encoded, for every combination of addresses, flags and payload, exactly when the
      message type is not a vendor's or there are no octets to mistake for its vendor id. */
  lemma FrameRoundTrip(function_: Octet, mac: Octets, n: Npdu, hopCount: Octet)
    requires NpduInRange(n) && IsNpduFunction(function_)
    requires if function_ == FORWARDED_NPDU then |mac| == 6 else mac == []
    requires (n.dnet.Some? || n.dadr == []) && (n.snet.Some? || n.sadr == [])
    requires 4 + |Body(function_, mac, n, hopCount)| < 0x1_0000
    ensures DecodeFrame(Bvll(function_, Body(function_, mac, n, hopCount))) ==
            Value(Frame(true, Some(function_), Body(function_, mac, n, hopCount), mac, Some(n)))
            <==> n.networkMessage.None? || n.networkMessage.value < 0x80 || n.payload == []
  {
    FrameIsDecoded(function_, mac, n, hopCount);
    if |n.payload| >= 2 {
      SliceIsSubsequence(n.payload, 2, |n.payload|);
    }
  }
}
