/** Write-through: what a link believes about its register is true, in every run in which only the gateway
    writes the outputs. It rests on one fact about the bus: a write that timed out was not applied. */
module WriteThrough {
  import opened Registers
  import opened ForeignBus
  import opened Gateway
  import opened Line
  import opened Runs
  import opened Ownership
  import opened Refinement
  import opened LineInvariant
  import opened Theorems

  /** What the field point holds after value v has been written to it. */
  function Stored(o: Output, v: real): Word
  {
    if o.EnableChannel? then CoilBit(Word16(o, v)) else Word16(o, v)
  }

  function RegisterOf(d: Device, o: Output): Word { Point(d, TableOf(o)) }

  // -- The bus contract ----------------------------------------------------------------------

  function PointWord(o: Output, w: Word): Word { if o.EnableChannel? then CoilBit(w) else w }

  ghost predicate InTheirTables(l: Line)
  {
    && AllPending(l)
    && forall c: Channel :: l.SlotOf(c).Some? ==>
         l.SlotOf(c).value.table == TableOf(c) && l.SlotOf(c).value.isWrite == !c.PollChannel?
  }

  lemma SlotsHaveTheirTables(sys: System, i: nat)
    requires Good(sys) && i < |sys.slaves|
    ensures InTheirTables(LineOf(sys, i))
  {
    forall c: Channel | LineOf(sys, i).SlotOf(c).Some?
      ensures var t := LineOf(sys, i).SlotOf(c).value;
              t.table == TableOf(c) && t.isWrite == !c.PollChannel? && t.outcome.Pending?
    {
      assert LineOf(sys, i).SlotOf(c) == SlotAt(sys.bus, sys.slaves[i].IdOf(c));
      assert sys.slaves[i].IdOf(c) != 0;
      assert Fits(sys.bus.transactions[sys.slaves[i].IdOf(c)], sys.slaves[i].belief.unitId, c);
    }
  }

  lemma OutputsServeAlone(l: Line, now: nat, drift: bool, o: Output)
    requires forall c: Channel :: l.SlotOf(c).Some? ==> l.SlotOf(c).value.table == TableOf(c)
    ensures RegisterOf(ServeLine(l, now, drift).device, o) ==
            RegisterOf(AppliedSlot(Moved(l.device, drift), l.SlotOf(o), now), o)
    ensures RegisterOf(Moved(l.device, drift), o) == RegisterOf(l.device, o)
  {
    assert l.SlotOf(SetpointChannel) == l.setpoint && l.SlotOf(EnableChannel) == l.enable;
  }

  lemma LineBusContract(l: Line, now: nat, drift: bool, o: Output)
    requires InTheirTables(l)
    ensures var r := ServeLine(l, now, drift);
            RegisterOf(r.device, o) ==
            if r.SlotOf(o).Some? && r.SlotOf(o).value.outcome.Done? then PointWord(o, r.SlotOf(o).value.value)
            else RegisterOf(l.device, o)
  {
    OutputsServeAlone(l, now, drift, o);
  }

  /** In every state the gateway can bring the bus to, one pass of the bus leaves an output point alone unless a
      write to it is reported done, and then the point holds the value written. In particular a write that is
      still pending, or timed out, has not been applied, and a read never changes anything. */
  lemma BusContract(sys: System, now: nat, i: nat, o: Output)
    requires Good(sys) && i < |sys.slaves|
    ensures |Serviced(sys.bus, now).devices| == |sys.bus.devices|
    ensures var before, after := sys.bus.devices[i], Serviced(sys.bus, now).devices[i];
            var write := SlotAt(Serviced(sys.bus, now), sys.slaves[i].IdOf(o));
            RegisterOf(after, o) ==
            if write.Some? && write.value.outcome.Done? then PointWord(o, write.value.value) else RegisterOf(before, o)
  {
    var l := LineOf(sys, i);
    SlotsHaveTheirTables(sys, i);
    ServicedLine(sys, now, i);
    LineBusContract(l, now, DriftClock(sys.bus.lastDriftAt, now).1, o);
    assert LineOf(AfterService(sys, now), i).SlotOf(o) == SlotAt(Serviced(sys.bus, now), sys.slaves[i].IdOf(o));
  }

  // -- Safety ----------------------------------------------------------------------------------

  /** Between passes: a link that believes it has written something is right about what the register holds. */
  ghost predicate Faithful(l: Line, o: Output)
  {
    l.belief.LinkOf(o).written ==> RegisterOf(l.device, o) == Stored(o, l.belief.LinkOf(o).lastWritten)
  }

  /** Inside a pass: a write that has been done but not yet reported already shows in the register. */
  ghost predicate Truthful(l: Line, o: Output)
  {
    if l.SlotOf(o).Some? && l.SlotOf(o).value.outcome.Done? then
      RegisterOf(l.device, o) == Stored(o, l.belief.LinkOf(o).inFlight)
    else Faithful(l, o)
  }

  lemma ServeIsTruthful(l: Line, now: nat, drift: bool, o: Output)
    requires Invariant(l) && l.now <= now && Faithful(l, o)
    ensures Truthful(ServeLine(l, now, drift), o)
  {
    forall c: Channel ensures SlotFits(l, c) {
    }
    OutputsServeAlone(l, now, drift, o);
  }

  lemma ChannelIsTruthful(l: Line, c: Channel, o: Output)
    requires Truthful(l, o)
    ensures Truthful(ChannelLine(l, c), o)
  {
    hide Encode;
  }

  lemma PassIsFaithful(l: Line, now: nat, drift: bool, o: Output)
    requires Invariant(l) && l.now <= now && Faithful(l, o)
    ensures Faithful(PassLine(l, now, drift), o)
  {
    var a := ServeLine(l, now, drift);
    ServeIsTruthful(l, now, drift, o);
    ChannelIsTruthful(a, PollChannel, o);
    var b := ChannelLine(a, PollChannel);
    ChannelIsTruthful(b, SetpointChannel, o);
    ChannelIsTruthful(ChannelLine(b, SetpointChannel), EnableChannel, o);
    PassLineWaits(l, now, drift);
  }

  /** Nobody changes the point at the device. */
  ghost predicate Untouched(es: seq<LineEvent>, o: Output)
  {
    forall e :: e in es && e.FieldEvent? ==> e.table != TableOf(o)
  }

  lemma StepIsFaithful(l: Line, e: LineEvent, o: Output)
    requires Invariant(l) && Faithful(l, o) && (e.PassEvent? ==> l.now <= e.now)
    requires e.FieldEvent? ==> e.table != TableOf(o)
    ensures Faithful(StepLine(l, e), o)
  {
    if e.PassEvent? {
      PassIsFaithful(l, e.now, e.drift, o);
    }
  }

  lemma {:induction false} RunIsFaithful(l: Line, es: seq<LineEvent>, o: Output)
    requires Invariant(l) && Faithful(l, o) && Ordered(l.now, es)
    requires Untouched(es, o)
    ensures Faithful(RunLine(l, es), o)
  {
    if es == [] {
    } else {
      var prior, e := es[..|es| - 1], es[|es| - 1];
      assert e in es && forall x :: x in prior ==> x in es;
      RunIsFaithful(l, prior, o);
      RunKeeps(l, prior);
      LastPassIsNow(l, prior);
      StepIsFaithful(RunLine(l, prior), e, o);
    }
  }

  lemma RunOfLineIsFaithful(sys: System, es: seq<Event>, i: nat, o: Output)
    requires Initial(sys) && Monotone(0, es) && i < |sys.slaves|
    requires Untouched(Project(0, es, i), o)
    ensures |Run(sys, es).slaves| == |sys.slaves| == |Run(sys, es).bus.devices|
    ensures Faithful(LineOf(Run(sys, es), i), o)
  {
    LineOfRun(sys, es, i);
    assert InitialSlave(sys.slaves[i]);
    RunIsFaithful(LineOf(sys, i), Project(0, es, i), o);
  }

  /** Write-through safety. From start-up, through any commands, outages, failed writes and returns: as long as
      nobody but the gateway writes the point, a link marked written is right about it; and so a settled link -
      written, with the winning value - means that the point holds the winning value. */
  lemma WriteThroughIsSafe(sys: System, es: seq<Event>, i: nat, o: Output)
    requires Initial(sys) && Monotone(0, es) && i < |sys.slaves|
    requires Untouched(Project(0, es, i), o)
    ensures |Run(sys, es).slaves| == |sys.slaves| == |Run(sys, es).bus.devices|
    ensures var b, d := Run(sys, es).slaves[i].belief, Run(sys, es).bus.devices[i];
            && (b.LinkOf(o).written ==> RegisterOf(d, o) == Stored(o, b.LinkOf(o).lastWritten))
            && (b.LinkOf(o).written && b.LinkOf(o).lastWritten == b.Winning(o) ==>
                 RegisterOf(d, o) == Stored(o, b.Winning(o)))
  {
    RunOfLineIsFaithful(sys, es, i, o);
    assert Faithful(LineOf(Run(sys, es), i), o);
  }
}
