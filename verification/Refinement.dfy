/** Every run of the whole gateway, seen from one slave, is a run of that slave's line. */
module Refinement {
  import opened Wrappers
  import opened Registers
  import opened ForeignBus
  import opened Gateway
  import opened Line
  import opened Runs
  import opened Ownership
  import opened BusService

  lemma BeliefKeepsOwned(sys: System, i: nat, b: Belief)
    requires Tables(sys) && Owned(sys) && i < |sys.slaves| && b.unitId == sys.slaves[i].belief.unitId
    ensures Tables(WithBelief(sys, i, b)) && Owned(WithBelief(sys, i, b))
  {
    var r := WithBelief(sys, i, b);
    assert forall j: nat, c :: j < |sys.slaves| ==> r.slaves[j].IdOf(c) == sys.slaves[j].IdOf(c);
    forall id | id in r.bus.transactions ensures exists j, c :: Owns(r, j, c, id) {
      var j, c :| Owns(sys, j, c, id);
      assert Owns(r, j, c, id);
    }
  }

  /** Only slave i changes, and it changes to this line. */
  ghost predicate BecomesLine(sys: System, r: System, i: nat, l: Line)
    requires Tables(sys) && i < |sys.slaves|
  {
    && Sound(r) && |r.slaves| == |sys.slaves| && r.bus.now == sys.bus.now && r.bus.lastDriftAt == sys.bus.lastDriftAt
    && (forall j :: 0 <= j < |sys.slaves| ==> LineOf(r, j) == if j == i then l else LineOf(sys, j))
  }

  lemma BeliefBecomes(sys: System, i: nat, b: Belief)
    requires Sound(sys) && i < |sys.slaves| && b.unitId == sys.slaves[i].belief.unitId
    ensures BecomesLine(sys, WithBelief(sys, i, b), i, LineOf(sys, i).(belief := b))
  {
    BeliefKeepsOwned(sys, i, b);
  }

  lemma TakeBecomes(sys: System, i: nat, c: Channel, v: Word)
    requires Sound(sys) && i < |sys.slaves| && sys.slaves[i].IdOf(c) == 0
    ensures BecomesLine(sys, Taken(sys, i, c, v), i, LineOf(sys, i).WithSlot(c, Some(Request(LineOf(sys, i), c, v))))
  {
    TakeKeepsSound(sys, i, c, v);
    IssueIsFresh(sys, i, c, v);
    var r := Taken(sys, i, c, v);
    forall j: nat | j < |sys.slaves|
      ensures LineOf(r, j) ==
              if j == i then LineOf(sys, i).WithSlot(c, Some(Request(LineOf(sys, i), c, v))) else LineOf(sys, j)
    {
      TakenLine(sys, i, c, v, j);
    }
  }

  lemma FreeBecomes(sys: System, i: nat, c: Channel)
    requires Sound(sys) && i < |sys.slaves| && sys.slaves[i].IdOf(c) != 0
    requires !sys.bus.transactions[sys.slaves[i].IdOf(c)].outcome.Pending?
    ensures BecomesLine(sys, Freed(sys, i, c), i, LineOf(sys, i).WithSlot(c, None))
  {
    FreeKeepsSound(sys, i, c);
    var r := Freed(sys, i, c);
    forall j: nat | j < |sys.slaves|
      ensures LineOf(r, j) == if j == i then LineOf(sys, i).WithSlot(c, None) else LineOf(sys, j)
    {
      FreedLine(sys, i, c, j);
    }
  }

  lemma BecomesIsTransitive(sys: System, mid: System, r: System, i: nat, l: Line, m: Line)
    requires Tables(sys) && i < |sys.slaves| && BecomesLine(sys, mid, i, l) && BecomesLine(mid, r, i, m)
    ensures BecomesLine(sys, r, i, m)
  {
  }

  lemma TakeWithBelief(sys: System, i: nat, c: Channel, v: Word, b: Belief)
    requires Sound(sys) && i < |sys.slaves| && sys.slaves[i].IdOf(c) == 0 && b.unitId == sys.slaves[i].belief.unitId
    ensures var l := LineOf(sys, i);
            BecomesLine(sys, WithBelief(Taken(sys, i, c, v), i, b), i,
              l.WithSlot(c, Some(Request(l, c, v))).(belief := b))
  {
    var l := LineOf(sys, i);
    var mid := l.WithSlot(c, Some(Request(l, c, v)));
    TakeBecomes(sys, i, c, v);
    BeliefBecomes(Taken(sys, i, c, v), i, b);
    BecomesIsTransitive(sys, Taken(sys, i, c, v), WithBelief(Taken(sys, i, c, v), i, b), i, mid, mid.(belief := b));
  }

  lemma FreeWithBelief(sys: System, i: nat, c: Channel, b: Belief)
    requires Sound(sys) && i < |sys.slaves| && sys.slaves[i].IdOf(c) != 0 && b.unitId == sys.slaves[i].belief.unitId
    requires !sys.bus.transactions[sys.slaves[i].IdOf(c)].outcome.Pending?
    ensures BecomesLine(sys, WithBelief(Freed(sys, i, c), i, b), i, LineOf(sys, i).WithSlot(c, None).(belief := b))
  {
    var mid := LineOf(sys, i).WithSlot(c, None);
    FreeBecomes(sys, i, c);
    BeliefBecomes(Freed(sys, i, c), i, b);
    BecomesIsTransitive(sys, Freed(sys, i, c), WithBelief(Freed(sys, i, c), i, b), i, mid, mid.(belief := b));
  }

  lemma PollStarts(sys: System, i: nat)
    requires i < |sys.slaves| && sys.slaves[i].pollId == 0 && sys.bus.now >= sys.slaves[i].belief.nextPollAt
    ensures var b := sys.slaves[i].belief;
            Micro(sys, i, PollChannel, sys.bus.now)
            == WithBelief(Taken(sys, i, PollChannel, 0), i, b.(nextPollAt := sys.bus.now + b.period))
  {
  }

  lemma PollEnds(sys: System, i: nat)
    requires i < |sys.slaves| && sys.slaves[i].pollId in sys.bus.transactions && sys.slaves[i].pollId != 0
    requires !sys.bus.transactions[sys.slaves[i].pollId].outcome.Pending?
    ensures var t := sys.bus.transactions[sys.slaves[i].pollId];
            var b := AfterPoll(sys.mode, sys.slaves[i].belief, t.outcome, if t.outcome.Done? then t.value else 0);
            Micro(sys, i, PollChannel, sys.bus.now) == WithBelief(Freed(sys, i, PollChannel), i, b)
  {
  }

  lemma UnchangedBecomes(sys: System, r: System, i: nat)
    requires Sound(sys) && i < |sys.slaves| && r == sys
    ensures BecomesLine(sys, r, i, LineOf(sys, i))
  {
  }

  lemma PollStartRefines(sys: System, i: nat)
    requires Sound(sys) && i < |sys.slaves| && sys.slaves[i].pollId == 0
    ensures BecomesLine(sys, Micro(sys, i, PollChannel, sys.bus.now), i, PollLine(LineOf(sys, i)))
  {
    hide BecomesLine, Young, Timely;
    var now, s := sys.bus.now, sys.slaves[i];
    assert LineOf(sys, i).poll == None;
    if now < s.belief.nextPollAt {
      UnchangedBecomes(sys, Micro(sys, i, PollChannel, now), i);
    } else {
      PollStarts(sys, i);
      TakeWithBelief(sys, i, PollChannel, 0, s.belief.(nextPollAt := now + s.belief.period));
    }
  }

  lemma PollRefines(sys: System, i: nat)
    requires Sound(sys) && i < |sys.slaves|
    ensures BecomesLine(sys, Micro(sys, i, PollChannel, sys.bus.now), i, PollLine(LineOf(sys, i)))
  {
    var s := sys.slaves[i];
    if s.pollId == 0 {
      PollStartRefines(sys, i);
    } else {
      assert s.IdOf(PollChannel) in sys.bus.transactions;
      var t := sys.bus.transactions[s.pollId];
      assert LineOf(sys, i).poll == Some(t);
      if t.outcome.Pending? {
        UnchangedBecomes(sys, Micro(sys, i, PollChannel, sys.bus.now), i);
      } else {
        PollEnds(sys, i);
        FreeWithBelief(sys, i, PollChannel, AfterPoll(sys.mode, s.belief, t.outcome,
            if t.outcome.Done? then t.value else 0));
      }
    }
  }

  function MaybeWrite(sys: System, i: nat, o: Output): System
    requires i < |sys.slaves|
  {
    var (bus, s) := WriteIfWanted(sys.bus, sys.slaves[i], o, sys.bus.now);
    sys.(bus := bus, slaves := sys.slaves[i := s])
  }

  lemma WriteRefines(sys: System, i: nat, o: Output)
    requires Sound(sys) && i < |sys.slaves| && sys.slaves[i].IdOf(o) == 0
    ensures BecomesLine(sys, MaybeWrite(sys, i, o), i, WriteLineIfWanted(LineOf(sys, i), o))
  {
    hide BecomesLine, Encode;
    var s, l := sys.slaves[i], LineOf(sys, i);
    if !WantsWrite(s.belief, o, sys.bus.now) {
      UnchangedBecomes(sys, MaybeWrite(sys, i, o), i);
    } else {
      var v := s.belief.Winning(o);
      var b := s.belief.WithLink(o, s.belief.LinkOf(o).(inFlight := v));
      TakeWithBelief(sys, i, o, Word16(o, v), b);
      assert MaybeWrite(sys, i, o) == WithBelief(Taken(sys, i, o, Word16(o, v)), i, b);
    }
  }

  lemma WriteEnds(sys: System, i: nat, o: Output)
    requires i < |sys.slaves| && sys.slaves[i].IdOf(o) in sys.bus.transactions && sys.slaves[i].IdOf(o) != 0
    requires !sys.bus.transactions[sys.slaves[i].IdOf(o)].outcome.Pending?
    ensures var t := sys.bus.transactions[sys.slaves[i].IdOf(o)];
            var b := sys.slaves[i].belief;
            var ended := b.WithLink(o, AfterWrite(b.LinkOf(o), t.outcome, sys.bus.now, b.period));
            Micro(sys, i, o, sys.bus.now) == MaybeWrite(WithBelief(Freed(sys, i, o), i, ended), i, o)
  {
  }

  lemma LinkRefines(sys: System, i: nat, o: Output)
    requires Sound(sys) && i < |sys.slaves|
    ensures BecomesLine(sys, Micro(sys, i, o, sys.bus.now), i, LinkLine(LineOf(sys, i), o))
  {
    hide Encode, BecomesLine, Young, Timely;
    var now, s, l := sys.bus.now, sys.slaves[i], LineOf(sys, i);
    if s.IdOf(o) == 0 {
      assert l.SlotOf(o) == None;
      WriteRefines(sys, i, o);
      assert Micro(sys, i, o, now) == MaybeWrite(sys, i, o);
    } else {
      assert s.IdOf(o) in sys.bus.transactions;
      var t := sys.bus.transactions[s.IdOf(o)];
      assert l.SlotOf(o) == Some(t);
      if t.outcome.Pending? {
        UnchangedBecomes(sys, Micro(sys, i, o, now), i);
      } else {
        WriteEnds(sys, i, o);
        var b := s.belief.WithLink(o, AfterWrite(s.belief.LinkOf(o), t.outcome, now, s.belief.period));
        var mid := WithBelief(Freed(sys, i, o), i, b);
        FreeWithBelief(sys, i, o, b);
        WriteRefines(mid, i, o);
        BecomesIsTransitive(sys, mid, MaybeWrite(mid, i, o), i, FinishLineWrite(l, o), LinkLine(l, o));
      }
    }
  }

  lemma MicroRefines(sys: System, i: nat, c: Channel)
    requires Sound(sys) && i < |sys.slaves|
    ensures BecomesLine(sys, Micro(sys, i, c, sys.bus.now), i, ChannelLine(LineOf(sys, i), c))
  {
    if c.PollChannel? {
      PollRefines(sys, i);
    } else {
      LinkRefines(sys, i, c);
    }
  }

  // -- One pass ------------------------------------------------------------------------

  function AfterService(sys: System, now: nat): System { sys.(bus := Serviced(sys.bus, now)) }

  lemma FindOwner(sys: System, id: Id) returns (i: nat, c: Channel)
    requires Tables(sys) && Owned(sys) && id in sys.bus.transactions
    ensures i < |sys.slaves| && sys.slaves[i].IdOf(c) == id != 0
    ensures Fits(sys.bus.transactions[id], sys.bus.devices[i].unitId, c)
  {
    i, c :| Owns(sys, i, c, id);
  }

  lemma ServiceIsRegular(sys: System, now: nat)
    requires Tables(sys) && Owned(sys)
    ensures AllRegular(Advance(sys.bus, now))
  {
    var bus := Advance(sys.bus, now);
    AdvanceKeeps(sys.bus, now);
    forall id | id in bus.transactions ensures Regular(bus.devices, bus.transactions[id]) {
      var i, c := FindOwner(sys, id);
      assert bus.devices[i].unitId == bus.transactions[id].unitId;
    }
  }

  /** What becomes of a live transaction when its device has been found. */
  lemma ServicedTransaction(sys: System, now: nat, i: nat, id: Id)
    requires Tables(sys) && Owned(sys) && id in sys.bus.transactions
    requires i < |sys.slaves| && sys.bus.transactions[id].unitId == sys.bus.devices[i].unitId
    ensures id in Serviced(sys.bus, now).transactions
    ensures Serviced(sys.bus, now).transactions[id] ==
            Resolved(Moved(sys.bus.devices[i], DriftClock(sys.bus.lastDriftAt, now).1), sys.bus.transactions[id], now)
  {
    ServiceIsRegular(sys, now);
    AdvanceKeeps(sys.bus, now);
    EveryTransactionAlone(Advance(sys.bus, now), sys.bus.transactions.Keys, now, id, i);
  }

  lemma ServicedOneWriter(sys: System, now: nat, i: nat)
    requires Tables(sys) && Owned(sys) && i < |sys.slaves|
    ensures OneWriter(Advance(sys.bus, now), sys.bus.transactions.Keys, i,
              sys.slaves[i].setpointId, sys.slaves[i].enableId)
  {
    var bus := Advance(sys.bus, now);
    var s, e := sys.slaves[i].setpointId, sys.slaves[i].enableId;
    AdvanceKeeps(sys.bus, now);
    forall id | id in sys.bus.transactions && bus.transactions[id].unitId == bus.devices[i].unitId
      ensures match bus.transactions[id].table
              case InputRegister => id != s && id != e
              case HoldingRegister => id == s
              case Coil => id == e
    {
      var j, c := FindOwner(sys, id);
      assert i == j;
      assert s == sys.slaves[i].IdOf(SetpointChannel) && e == sys.slaves[i].IdOf(EnableChannel);
    }
    assert s != 0 ==> s == sys.slaves[i].IdOf(SetpointChannel);
    assert e != 0 ==> e == sys.slaves[i].IdOf(EnableChannel);
  }

  lemma ServicedDevice(sys: System, now: nat, i: nat)
    requires Tables(sys) && Owned(sys) && i < |sys.slaves|
    ensures |Serviced(sys.bus, now).devices| == |sys.bus.devices|
    ensures Serviced(sys.bus, now).devices[i] ==
            ServeLine(LineOf(sys, i), now, DriftClock(sys.bus.lastDriftAt, now).1).device
  {
    ServiceIsRegular(sys, now);
    AdvanceKeeps(sys.bus, now);
    ServicedOneWriter(sys, now, i);
    EveryDeviceAlone(Advance(sys.bus, now), sys.bus.transactions.Keys, now, i,
                     sys.slaves[i].setpointId, sys.slaves[i].enableId);
  }

  lemma ServicedLine(sys: System, now: nat, i: nat)
    requires Tables(sys) && Owned(sys) && i < |sys.slaves|
    ensures |Serviced(sys.bus, now).devices| == |sys.bus.devices|
    ensures LineOf(AfterService(sys, now), i) == ServeLine(LineOf(sys, i), now, DriftClock(sys.bus.lastDriftAt, now).1)
  {
    ServicedDevice(sys, now, i);
    forall c: Channel | sys.slaves[i].IdOf(c) != 0
      ensures SlotAt(Serviced(sys.bus, now), sys.slaves[i].IdOf(c)) ==
              ResolvedSlot(Moved(sys.bus.devices[i], DriftClock(sys.bus.lastDriftAt, now).1),
                           SlotAt(sys.bus, sys.slaves[i].IdOf(c)), now)
    {
      ServicedTransaction(sys, now, i, sys.slaves[i].IdOf(c));
    }
    assert sys.slaves[i].pollId == sys.slaves[i].IdOf(PollChannel);
    assert sys.slaves[i].setpointId == sys.slaves[i].IdOf(SetpointChannel);
    assert sys.slaves[i].enableId == sys.slaves[i].IdOf(EnableChannel);
  }

  lemma ServeLineKeepsDevice(l: Line, now: nat, drift: bool)
    ensures var d, d' := l.device, ServeLine(l, now, drift).device;
            d'.unitId == d.unitId && d'.latency == d.latency && d'.online == d.online
  {
  }

  lemma ServiceKeepsTables(sys: System, now: nat)
    requires Tables(sys) && Owned(sys)
    ensures Tables(AfterService(sys, now))
  {
    var devices := Serviced(sys.bus, now).devices;
    forall i: nat | i < |sys.slaves|
      ensures |devices| == |sys.bus.devices|
      ensures devices[i].unitId == sys.bus.devices[i].unitId && devices[i].latency == sys.bus.devices[i].latency
    {
      ServicedDevice(sys, now, i);
      ServeLineKeepsDevice(LineOf(sys, i), now, DriftClock(sys.bus.lastDriftAt, now).1);
    }
  }

  lemma ServiceKeepsFit(sys: System, now: nat, id: Id, c: Channel, unitId: nat)
    requires Tables(sys) && Owned(sys) && id in sys.bus.transactions
    ensures id in Serviced(sys.bus, now).transactions
    ensures Fits(Serviced(sys.bus, now).transactions[id], unitId, c) <==> Fits(sys.bus.transactions[id], unitId, c)
  {
    var i, k := FindOwner(sys, id);
    ServicedTransaction(sys, now, i, id);
  }

  lemma ServiceKeepsOwned(sys: System, now: nat)
    requires Tables(sys) && Owned(sys)
    ensures Tables(AfterService(sys, now)) && Owned(AfterService(sys, now))
  {
    ServiceKeepsTables(sys, now);
    var r := AfterService(sys, now);
    forall i: nat, c | i < |r.slaves| && r.slaves[i].IdOf(c) != 0
      ensures r.slaves[i].IdOf(c) in r.bus.transactions
      ensures Fits(r.bus.transactions[r.slaves[i].IdOf(c)], r.slaves[i].belief.unitId, c)
    {
      ServiceKeepsFit(sys, now, sys.slaves[i].IdOf(c), c, sys.slaves[i].belief.unitId);
    }
    forall id | id in r.bus.transactions ensures exists j, k :: Owns(r, j, k, id) {
      var i, c := FindOwner(sys, id);
      assert Owns(r, i, c, id);
    }
  }

  lemma ServiceKeepsTimely(sys: System, now: nat)
    requires Tables(sys) && Owned(sys) && Timely(sys.bus) && now >= sys.bus.now
    ensures Timely(Serviced(sys.bus, now))
    ensures forall id :: id in sys.bus.transactions ==>
      id in Serviced(sys.bus, now).transactions
      && Serviced(sys.bus, now).transactions[id].startedAt == sys.bus.transactions[id].startedAt
  {
    forall id | id in sys.bus.transactions
      ensures id in Serviced(sys.bus, now).transactions
      ensures var t := Serviced(sys.bus, now).transactions[id];
              && t.startedAt == sys.bus.transactions[id].startedAt <= now
              && (if t.outcome.Pending? then now - t.startedAt < RESPONSE_TIMEOUT else t.startedAt < now)
    {
      var i, c := FindOwner(sys, id);
      ServicedTransaction(sys, now, i, id);
    }
  }

  /** The clock moves on: what was bounded by the elapsed time still is. */
  lemma ServiceKeepsYoung(before: Bus, after: Bus, channels: nat)
    requires Young(before, channels) && Timely(before) && |Recent(before)| <= channels
    requires before.now <= after.now && after.nextId == before.nextId
    requires after.transactions.Keys == before.transactions.Keys
    requires forall id :: id in before.transactions ==>
      before.transactions[id].outcome.Pending? && after.transactions[id].startedAt == before.transactions[id].startedAt
    ensures Young(after, channels)
  {
    if before.now == after.now {
      assert Recent(after) == Recent(before);
    } else {
      forall id | id in after.transactions
        ensures Age(after.nextId, id) <=
                  channels * Lesser(after.now - after.transactions[id].startedAt, RESPONSE_TIMEOUT)
      {
        var startedAt := before.transactions[id].startedAt;
        var a, b := before.now - startedAt, Lesser(after.now - startedAt, RESPONSE_TIMEOUT);
        assert Lesser(a, RESPONSE_TIMEOUT) == a && a + 1 <= b;
        MultiplyAtMost(channels, a + 1, b);
        assert channels * (a + 1) == channels * a + channels;
      }
    }
  }

  lemma ServiceKeepsSound(sys: System, now: nat)
    requires Sound(sys) && Waiting(sys, |sys.slaves|) && now >= sys.bus.now
    ensures Sound(AfterService(sys, now))
  {
    ServiceKeepsOwned(sys, now);
    ServiceKeepsTimely(sys, now);
    FewTransactions(sys);
    forall id | id in sys.bus.transactions ensures sys.bus.transactions[id].outcome.Pending? {
      var i, c := FindOwner(sys, id);
    }
    ServiceKeepsYoung(sys.bus, Serviced(sys.bus, now), Channels(sys));
  }

  // -- The pass and the run --------------------------------------------------------------

  /** Once a channel has been serviced, its transaction, if any, is on the wire. */
  predicate AllPending(l: Line) { forall c: Channel :: l.SlotOf(c).Some? ==> l.SlotOf(c).value.outcome.Pending? }

  lemma ChannelLineWaits(l: Line, c: Channel)
    ensures ChannelLine(l, c).SlotOf(c).Some? ==> ChannelLine(l, c).SlotOf(c).value.outcome.Pending?
    ensures forall k: Channel :: k != c ==> ChannelLine(l, c).SlotOf(k) == l.SlotOf(k)
  {
  }

  lemma PassLineWaits(l: Line, now: nat, drift: bool)
    ensures AllPending(PassLine(l, now, drift))
  {
    var a := ServeLine(l, now, drift);
    ChannelLineWaits(a, PollChannel);
    var b := ChannelLine(a, PollChannel);
    ChannelLineWaits(b, SetpointChannel);
    ChannelLineWaits(ChannelLine(b, SetpointChannel), EnableChannel);
  }

  function PassedUpTo(sys: System, k: nat, now: nat, j: nat): Line
    requires j < |sys.slaves| && j < |sys.bus.devices|
  {
    var drift := DriftClock(sys.bus.lastDriftAt, now).1;
    if j < k then PassLine(LineOf(sys, j), now, drift) else ServeLine(LineOf(sys, j), now, drift)
  }

  lemma ServeSlaveRefines(sys: System, i: nat)
    requires Sound(sys) && i < |sys.slaves|
    ensures BecomesLine(sys, ServeSlave(sys, i, sys.bus.now), i,
                        ChannelLine(ChannelLine(ChannelLine(LineOf(sys, i), PollChannel),
                          SetpointChannel), EnableChannel))
  {
    var l := LineOf(sys, i);
    var now := sys.bus.now;
    var a := Micro(sys, i, PollChannel, now);
    MicroRefines(sys, i, PollChannel);
    var b := Micro(a, i, SetpointChannel, now);
    MicroRefines(a, i, SetpointChannel);
    BecomesIsTransitive(sys, a, b, i, LineOf(a, i), LineOf(b, i));
    MicroRefines(b, i, EnableChannel);
    BecomesIsTransitive(sys, b, Micro(b, i, EnableChannel, now), i, LineOf(b, i),
        ChannelLine(LineOf(b, i), EnableChannel));
  }

  /** The state in which the first k slaves have been serviced. */
  ghost predicate ServedUpTo(sys: System, r: System, k: nat, now: nat)
    requires Tables(sys)
  {
    && Sound(r) && |r.slaves| == |sys.slaves| && r.bus.now == now
    && r.bus.lastDriftAt == DriftClock(sys.bus.lastDriftAt, now).0
    && forall j :: 0 <= j < |sys.slaves| ==> LineOf(r, j) == PassedUpTo(sys, k, now, j)
  }

  lemma NoneServed(sys: System, now: nat)
    requires Sound(sys) && Waiting(sys, |sys.slaves|) && now >= sys.bus.now
    ensures ServedUpTo(sys, AfterService(sys, now), 0, now)
  {
    ServiceKeepsSound(sys, now);
    var r := AfterService(sys, now);
    forall j: nat | j < |sys.slaves| ensures LineOf(r, j) == PassedUpTo(sys, 0, now, j) {
      ServicedLine(sys, now, j);
    }
  }

  lemma NextServed(sys: System, r: System, k: nat, now: nat)
    requires Tables(sys) && k < |sys.slaves| && ServedUpTo(sys, r, k, now)
    ensures ServedUpTo(sys, ServeSlave(r, k, now), k + 1, now)
  {
    ServeSlaveRefines(r, k);
    assert LineOf(r, k) == PassedUpTo(sys, k, now, k);
  }

  lemma {:induction false} ServeUpToRefines(sys: System, k: nat, now: nat)
    requires Sound(sys) && Waiting(sys, |sys.slaves|) && now >= sys.bus.now && k <= |sys.slaves|
    ensures ServedUpTo(sys, ServeUpTo(AfterService(sys, now), k, now), k, now)
  {
    hide ServeSlave, PassLine, ServeLine, Owned;
    if k == 0 {
      NoneServed(sys, now);
    } else {
      ServeUpToRefines(sys, k - 1, now);
      NextServed(sys, ServeUpTo(AfterService(sys, now), k - 1, now), k - 1, now);
    }
  }

  lemma PassRefines(sys: System, now: nat)
    requires Sound(sys) && Waiting(sys, |sys.slaves|) && now >= sys.bus.now
    ensures var r := Pass(sys, now);
            && Sound(r) && Waiting(r, |r.slaves|) && |r.slaves| == |sys.slaves| && r.bus.now == now
            && r.bus.lastDriftAt == DriftClock(sys.bus.lastDriftAt, now).0
            && forall j :: 0 <= j < |sys.slaves| ==>
                 LineOf(r, j) == PassLine(LineOf(sys, j), now, DriftClock(sys.bus.lastDriftAt, now).1)
  {
    hide Owned, ServeSlave, Resolved, Applied;
    ServeUpToRefines(sys, |sys.slaves|, now);
    var r := Pass(sys, now);
    forall i: nat, c | i < |r.slaves| && r.slaves[i].IdOf(c) in r.bus.transactions
      ensures r.bus.transactions[r.slaves[i].IdOf(c)].outcome.Pending?
    {
      PassLineWaits(LineOf(sys, i), now, DriftClock(sys.bus.lastDriftAt, now).1);
      assert LineOf(r, i).SlotOf(c) == Some(r.bus.transactions[r.slaves[i].IdOf(c)]);
    }
  }
}
