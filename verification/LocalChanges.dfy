/** What becomes of an output that is changed at the device itself. The gateway never reads an output back, so the
    change stays until a write lands, and this module says exactly when one does. */
module LocalChanges {
  import opened Registers
  import opened Priority
  import opened ForeignBus
  import opened Gateway
  import opened Line
  import opened Runs
  import opened LineInvariant
  import opened Theorems
  import opened WriteThrough
  import opened Convergence

  // -- What writes the point -------------------------------------------------------------------

  /** The write on the wire is answered in a pass at this time. */
  predicate LandsIn(l: Line, now: nat, o: Output)
  {
    l.SlotOf(o).Some? && Answers(l.device, l.SlotOf(o).value, now)
  }

  /** Some pass of the run has answered a write of the output. */
  predicate Landed(l: Line, es: seq<LineEvent>, o: Output)
  {
    es != [] &&
    (var prior, e := es[..|es| - 1], es[|es| - 1];
     Landed(l, prior, o) || (e.PassEvent? && LandsIn(RunLine(l, prior), e.now, o)))
  }

  /** The value last written, counting a write that is done but not yet reported. */
  function Standing(l: Line, o: Output): real
  {
    if l.SlotOf(o).Some? && l.SlotOf(o).value.outcome.Done? then l.belief.LinkOf(o).inFlight
    else l.belief.LinkOf(o).lastWritten
  }

  lemma ServeWrites(l: Line, now: nat, drift: bool, o: Output)
    requires Invariant(l) && l.now <= now
    ensures var a := ServeLine(l, now, drift);
            && RegisterOf(a.device, o) ==
               (if LandsIn(l, now, o) then Stored(o, l.belief.LinkOf(o).inFlight) else RegisterOf(l.device, o))
            && Standing(a, o) ==
               (if LandsIn(l, now, o) then l.belief.LinkOf(o).inFlight else l.belief.LinkOf(o).lastWritten)
  {
    forall c: Channel ensures SlotFits(l, c) {
    }
    OutputsServeAlone(l, now, drift, o);
  }

  lemma ChannelKeepsStanding(l: Line, c: Channel, o: Output)
    ensures Standing(ChannelLine(l, c), o) == Standing(l, o)
  {
  }

  /** A pass writes the point exactly when it answers a write of it. */
  lemma PassWrites(l: Line, now: nat, drift: bool, o: Output)
    requires Invariant(l) && l.now <= now
    ensures var r := PassLine(l, now, drift);
            && RegisterOf(r.device, o) ==
               (if LandsIn(l, now, o) then Stored(o, l.belief.LinkOf(o).inFlight) else RegisterOf(l.device, o))
            && r.belief.LinkOf(o).lastWritten ==
               (if LandsIn(l, now, o) then l.belief.LinkOf(o).inFlight else l.belief.LinkOf(o).lastWritten)
  {
    ServeWrites(l, now, drift, o);
    PassKeepsIdentity(l, now, drift);
    PassKeeps(l, now, drift);
    var a := ServeLine(l, now, drift);
    ChannelKeepsStanding(a, PollChannel, o);
    var b := ChannelLine(a, PollChannel);
    ChannelKeepsStanding(b, SetpointChannel, o);
    ChannelKeepsStanding(ChannelLine(b, SetpointChannel), EnableChannel, o);
    assert Standing(PassLine(l, now, drift), o) == PassLine(l, now, drift).belief.LinkOf(o).lastWritten;
  }

  /** The point holds what the last landed write left there, or what it held before, if none has landed. */
  ghost predicate HoldsWritten(l: Line, r: Line, landed: bool, o: Output)
  {
    && RegisterOf(r.device, o) ==
       (if landed then Stored(o, r.belief.LinkOf(o).lastWritten) else RegisterOf(l.device, o))
    && (!landed ==> r.belief.LinkOf(o).lastWritten == l.belief.LinkOf(o).lastWritten)
  }

  lemma EventWritesNothing(l: Line, e: LineEvent, o: Output)
    requires !e.PassEvent? && (e.FieldEvent? ==> e.table != TableOf(o))
    ensures var r := StepLine(l, e);
            RegisterOf(r.device, o) == RegisterOf(l.device, o) && r.belief.LinkOf(o) == l.belief.LinkOf(o)
  {
  }

  lemma {:induction false} RunWrites(l: Line, es: seq<LineEvent>, o: Output)
    requires Invariant(l) && Ordered(l.now, es) && Untouched(es, o)
    ensures HoldsWritten(l, RunLine(l, es), Landed(l, es, o), o)
  {
    if es == [] {
    } else {
      var prior, e := es[..|es| - 1], es[|es| - 1];
      assert e in es && forall x :: x in prior ==> x in es;
      RunWrites(l, prior, o);
      RunKeeps(l, prior);
      LastPassIsNow(l, prior);
      if e.PassEvent? {
        PassWrites(RunLine(l, prior), e.now, e.drift, o);
      } else {
        EventWritesNothing(RunLine(l, prior), e, o);
      }
    }
  }

  // -- When a write is started --------------------------------------------------------------------

  lemma PollStartsNothing(l: Line, o: Output)
    ensures var r, k := PollLine(l), l.belief.LinkOf(o);
            && r.SlotOf(o) == l.SlotOf(o) && r.now == l.now && r.belief.Winning(o) == l.belief.Winning(o)
            && r.belief.LinkOf(o) == k.(written := k.written && !(l.belief.online && !r.belief.online))
  {
  }

  lemma LinkStarts(l: Line, o: Output)
    requires l.SlotOf(o).None?
    ensures var r := LinkLine(l, o);
            && (r.SlotOf(o).Some? <==> WantsWrite(l.belief, o, l.now))
            && r.belief.online == l.belief.online && r.belief.LinkOf(o).written == l.belief.LinkOf(o).written
            && r.belief.LinkOf(o).lastWritten == l.belief.LinkOf(o).lastWritten
  {
  }

  /** With nothing on the wire, a pass starts a write exactly when it leaves the slave believed online, no retry
      delay is running, and the link is not written with the winner; and it clears `written` exactly when it reports
      that the slave stopped answering. */
  lemma WriteStartsExactly(l: Line, now: nat, drift: bool, o: Output)
    requires l.SlotOf(o).None?
    ensures var r, k := PassLine(l, now, drift), l.belief.LinkOf(o);
            && (r.SlotOf(o).Some? <==>
                  r.belief.online && now >= k.retryAt && !(k.written && k.lastWritten == l.belief.Winning(o)))
            && r.belief.LinkOf(o).written == (k.written && !(l.belief.online && !r.belief.online))
            && r.belief.LinkOf(o).lastWritten == k.lastWritten
  {
    var b := PollLine(ServeLine(l, now, drift));
    PollStartsNothing(ServeLine(l, now, drift), o);
    if o.SetpointChannel? {
      LinkStarts(b, SetpointChannel);
      OtherLink(LinkLine(b, SetpointChannel), o, EnableChannel);
    } else {
      OtherLink(b, o, SetpointChannel);
      LinkStarts(LinkLine(b, SetpointChannel), EnableChannel);
    }
  }

  /** Some pass of the run found a winner that is not the value last written, or reported that the slave stopped
      answering. */
  predicate Disturbed(l: Line, es: seq<LineEvent>, o: Output)
  {
    es != [] &&
    (var prior, e := es[..|es| - 1], es[|es| - 1];
     var m := RunLine(l, prior);
     Disturbed(l, prior, o) ||
     (e.PassEvent? &&
      (m.belief.Winning(o) != m.belief.LinkOf(o).lastWritten ||
       (m.belief.online && !StepLine(m, e).belief.online))))
  }

  ghost predicate Idle(l: Line, o: Output, v: real)
  {
    l.SlotOf(o).None? && l.belief.LinkOf(o).written && l.belief.LinkOf(o).lastWritten == v
  }

  /** Until it is disturbed, a settled link starts no write. */
  lemma {:induction false} UndisturbedRunIsIdle(l: Line, es: seq<LineEvent>, o: Output)
    requires Settled(l, o) && !Disturbed(l, es, o)
    ensures Idle(RunLine(l, es), o, l.belief.LinkOf(o).lastWritten) && !Landed(l, es, o)
  {
    if es == [] {
    } else {
      var prior, e := es[..|es| - 1], es[|es| - 1];
      UndisturbedRunIsIdle(l, prior, o);
      if e.PassEvent? {
        WriteStartsExactly(RunLine(l, prior), e.now, e.drift, o);
      }
    }
  }

  // -- The change at the device -------------------------------------------------------------------

  lemma ChangeShows(l: Line, word: Word, o: Output)
    requires Invariant(l)
    ensures var changed := StepLine(l, FieldEvent(TableOf(o), word));
            Invariant(changed) && RegisterOf(changed.device, o) == PointWord(o, word)
  {
    StepKeeps(l, FieldEvent(TableOf(o), word));
  }

  /** What a change of the point to this word comes to after the events ls. It stays until a write of the output
      lands: then, and only then, the point goes over to what was last written. So a settled link stands for a point
      with the winning value if and only if a write has landed since, or the change left that value there. And if the
      link was settled at the change, none lands before it is disturbed. */
  ghost predicate StaysUntilWritten(before: Line, word: Word, ls: seq<LineEvent>, o: Output)
  {
    var changed := StepLine(before, FieldEvent(TableOf(o), word));
    var r, landed := RunLine(changed, ls), Landed(changed, ls, o);
    && RegisterOf(r.device, o) == (if landed then Stored(o, r.belief.LinkOf(o).lastWritten) else PointWord(o, word))
    && (Settled(r, o) ==>
          (RegisterOf(r.device, o) == Stored(o, r.belief.Winning(o))
           <==> landed || PointWord(o, word) == Stored(o, r.belief.Winning(o))))
    && (Settled(before, o) && landed ==> Disturbed(changed, ls, o))
  }

  lemma ChangeOfLine(before: Line, word: Word, ls: seq<LineEvent>, o: Output)
    requires Invariant(before) && Ordered(before.now, ls) && Untouched(ls, o)
    ensures StaysUntilWritten(before, word, ls, o)
  {
    var changed := StepLine(before, FieldEvent(TableOf(o), word));
    ChangeShows(before, word, o);
    RunWrites(changed, ls, o);
    if Settled(before, o) && !Disturbed(changed, ls, o) {
      UndisturbedRunIsIdle(changed, ls, o);
    }
  }

  /** The run es, then the change of the point, then the run fs. */
  function Changed(es: seq<Event>, i: nat, o: Output, word: Word, fs: seq<Event>): seq<Event>
  {
    es + [Field(i, TableOf(o), word)] + fs
  }

  lemma RunToChange(sys: System, es: seq<Event>, e: Event, i: nat, le: LineEvent)
    requires Initial(sys) && Monotone(0, es) && i < |sys.slaves|
    requires e.Field? && Project(0, es + [e], i) == Project(0, es, i) + [le]
    ensures |Run(sys, es).slaves| == |Run(sys, es + [e]).slaves| == |sys.slaves|
    ensures |Run(sys, es).bus.devices| == |Run(sys, es + [e]).bus.devices| == |sys.slaves|
    ensures LineOf(Run(sys, es + [e]), i) == StepLine(LineOf(Run(sys, es), i), le)
  {
    AppendEvent(0, 0, es, e, i);
    LineOfRun(sys, es, i);
    LineOfRun(sys, es + [e], i);
    RunLineConcat(LineOf(sys, i), Project(0, es, i), [le]);
    RunLineOne(LineOf(Run(sys, es), i), le);
  }

  lemma RunWithChange(sys: System, es: seq<Event>, word: Word, fs: seq<Event>, i: nat, o: Output)
    requires Initial(sys) && Monotone(0, es) && Monotone(LastTick(0, es), fs) && i < |sys.slaves|
    ensures var mid, r := Run(sys, es), Run(sys, Changed(es, i, o, word, fs));
            && |mid.slaves| == |sys.slaves| == |mid.bus.devices| == |r.slaves| == |r.bus.devices|
            && Invariant(LineOf(mid, i)) && Ordered(LineOf(mid, i).now, Project(DriftAfter(0, es), fs, i))
            && LineOf(r, i) ==
               RunLine(StepLine(LineOf(mid, i), FieldEvent(TableOf(o), word)), Project(DriftAfter(0, es), fs, i))
  {
    var e := Field(i, TableOf(o), word);
    AppendEvent(0, 0, es, e, i);
    RunToChange(sys, es, e, i, FieldEvent(TableOf(o), word));
    ContinuedRun(sys, es + [e], fs, i);
    ContinuedRun(sys, es, fs, i);
  }

  /** What the gateway does about a change made at the device, in any run: whatever was commanded before and is
      commanded afterwards, through any outages, on time or late. */
  lemma LocalChangeIsNotRepaired(sys: System, es: seq<Event>, word: Word, fs: seq<Event>, i: nat, o: Output)
    requires Initial(sys) && Monotone(0, es) && Monotone(LastTick(0, es), fs) && i < |sys.slaves|
    requires Untouched(Project(DriftAfter(0, es), fs, i), o)
    ensures var mid, r := Run(sys, es), Run(sys, Changed(es, i, o, word, fs));
            && |mid.slaves| == |sys.slaves| == |mid.bus.devices| == |r.slaves| == |r.bus.devices|
            && LineOf(r, i) ==
               RunLine(StepLine(LineOf(mid, i), FieldEvent(TableOf(o), word)), Project(DriftAfter(0, es), fs, i))
            && StaysUntilWritten(LineOf(mid, i), word, Project(DriftAfter(0, es), fs, i), o)
  {
    RunWithChange(sys, es, word, fs, i, o);
    ChangeOfLine(LineOf(Run(sys, es), i), word, Project(DriftAfter(0, es), fs, i), o);
  }

  // -- Convergence, whatever was changed at the device ------------------------------------------------

  lemma CalmEventSettlesNothing(l: Line, e: LineEvent, o: Output)
    requires !e.PassEvent? && CalmEvent(e, o)
    ensures Settled(StepLine(l, e), o) == Settled(l, o)
  {
  }

  /** While nothing is commanded and the slave stays reachable, a write lands if the link was not settled, and a
      settled one starts none. */
  lemma {:induction false} CalmRunLands(l: Line, es: seq<LineEvent>, o: Output, delta: nat)
    requires Reachable(l) && delta >= 1 && Paced(l.now, es, delta) && Calm(es, o)
    ensures Settled(l, o) ==> !Landed(l, es, o)
    ensures Settled(RunLine(l, es), o) && !Landed(l, es, o) ==> Settled(l, o)
  {
    if es == [] {
    } else {
      var prior, e := es[..|es| - 1], es[|es| - 1];
      assert e in es && forall x :: x in prior ==> x in es;
      CalmRunLands(l, prior, o, delta);
      DeadlineOfRun(l, prior, o, delta);
      LastPassIsNow(l, prior);
      var m := RunLine(l, prior);
      if e.PassEvent? {
        PassReachable(m, e.now, e.drift, o);
      } else {
        CalmEventSettlesNothing(m, e, o);
      }
    }
  }

  /** So a change at the device of a settled link stays for as long as that lasts. */
  lemma CalmRunKeepsChange(l: Line, es: seq<LineEvent>, o: Output, delta: nat)
    requires Reachable(l) && Settled(l, o) && delta >= 1 && Paced(l.now, es, delta) && Calm(es, o)
    ensures var r := RunLine(l, es);
            && RegisterOf(r.device, o) == RegisterOf(l.device, o) && r.belief.CommandOf(o) == l.belief.CommandOf(o)
            && Settled(r, o)
  {
    CalmRunLands(l, es, o, delta);
    CalmRunIsUntouched(es, o);
    PacedIsOrdered(l.now, es, delta);
    RunWrites(l, es, o);
    DeadlineOfRun(l, es, o, delta);
  }

  /** The exact condition of convergence. Let a run reach any state at all, the output changed at the device as often
      as one likes. If from then on nobody commands or changes the output and the slave stays reachable, then once
      the convergence time has passed the point holds the winning value if and only if the link was not settled at the
      start, or the point held that value already: a settled link leaves the point as it found it. */
  lemma OutputsConvergeUnlessSettled(sys: System, es: seq<Event>, fs: seq<Event>, i: nat, o: Output, delta: nat)
    requires Initial(sys) && Monotone(0, es) && i < |sys.slaves| && delta >= 1
    requires |Run(sys, es).slaves| == |sys.slaves| == |Run(sys, es).bus.devices|
    requires Run(sys, es).bus.devices[i].online && Run(sys, es).bus.devices[i].latency <= RESPONSE_TIMEOUT
    requires PacedRun(LastTick(0, es), fs, delta) && Calm(Project(DriftAfter(0, es), fs, i), o)
    requires LastTick(LastTick(0, es), fs) >
             LastTick(0, es) + sys.slaves[i].belief.period + 2 * Run(sys, es).bus.devices[i].latency + 2 * delta
    ensures |Run(sys, es + fs).slaves| == |sys.slaves| == |Run(sys, es + fs).bus.devices|
    ensures var mid, r := LineOf(Run(sys, es), i), LineOf(Run(sys, es + fs), i);
            && r.belief.CommandOf(o) == mid.belief.CommandOf(o) && Settled(r, o)
            && RegisterOf(r.device, o) ==
               (if Settled(mid, o) then RegisterOf(mid.device, o) else Stored(o, r.belief.Winning(o)))
            && (RegisterOf(r.device, o) == Stored(o, r.belief.Winning(o))
                <==> !Settled(mid, o) || RegisterOf(mid.device, o) == Stored(o, mid.belief.Winning(o)))
  {
    PacedRunIsMonotone(LastTick(0, es), fs, delta);
    ContinuedRun(sys, es, fs, i);
    ProjectKeepsTime(LastTick(0, es), DriftAfter(0, es), fs, i, delta);
    var mid, ls := LineOf(Run(sys, es), i), Project(DriftAfter(0, es), fs, i);
    LineSettles(mid, ls, o, delta);
    CalmRunLands(mid, ls, o, delta);
    CalmRunIsUntouched(ls, o);
    RunWrites(mid, ls, o);
  }

  // -- An example -------------------------------------------------------------------------------

  /** A gateway with one slave, polled every 500 ms and answering after 20 ms, whose enable output defaults to 1. */
  function OneSlave(): System
  {
    System(EmbeddedObjects,
           Bus([Device(1, 20, true, 200, 0, 0, false, 200, 0, 1)], map[], 1, 0, 0),
           [Slave(FreshBelief(1, 500, 1001, 21.0, 1.0), 0, 0, 0)])
  }

  /** The output is written, and then somebody switches the device off by hand. */
  function SwitchedOff(): seq<Event> { [Tick(1), Tick(30), Field(0, Coil, 0)] }

  lemma SwitchedOffEvents()
    ensures Initial(OneSlave()) && Monotone(0, SwitchedOff()) && LastTick(0, SwitchedOff()) == 30
    ensures Project(0, SwitchedOff(), 0) == [PassEvent(1, false), PassEvent(30, false), FieldEvent(Coil, 0)]
  {
    assert InitialSlave(OneSlave().slaves[0]);
    AppendEvent(0, 0, [], Tick(1), 0);
    assert [] + [Tick(1)] == [Tick(1)];
    AppendEvent(0, 0, [Tick(1)], Tick(30), 0);
    assert [Tick(1)] + [Tick(30)] == [Tick(1), Tick(30)];
    AppendEvent(0, 0, [Tick(1), Tick(30)], Field(0, Coil, 0), 0);
    assert SwitchedOff() == [Tick(1), Tick(30)] + [Field(0, Coil, 0)];
  }

  /** Two passes settle the enable output of the example. */
  lemma EnableSettles(l: Line)
    requires l == LineOf(OneSlave(), 0)
    ensures var r := PassLine(PassLine(l, 1, false), 30, false);
            Reachable(r) && Settled(r, EnableChannel) && r.belief.Winning(EnableChannel) == 1.0
  {
    WinnerIsFirstSetSlot(l.belief.enable, 0);
    PassReachable(l, 1, false, EnableChannel);
    PassReachable(PassLine(l, 1, false), 30, false, EnableChannel);
  }

  lemma RunLineThree(l: Line, a: LineEvent, b: LineEvent, c: LineEvent)
    ensures RunLine(l, [a, b, c]) == StepLine(StepLine(StepLine(l, a), b), c)
  {
    RunLineOne(l, a);
    RunLineConcat(l, [a], [b]);
    RunLineOne(StepLine(l, a), b);
    RunLineConcat(l, [a, b], [c]);
    RunLineOne(StepLine(StepLine(l, a), b), c);
    assert [a] + [b] == [a, b] && [a, b] + [c] == [a, b, c];
  }

  ghost predicate OffByHand(l: Line)
  {
    Reachable(l) && Settled(l, EnableChannel) && l.belief.Winning(EnableChannel) == 1.0 && l.device.coil == 0
  }

  lemma SwitchedOffByHand(l: Line)
    requires Reachable(l) && Settled(l, EnableChannel) && l.belief.Winning(EnableChannel) == 1.0
    ensures OffByHand(StepLine(l, FieldEvent(Coil, 0)))
  {
    DeviceChangeIsReachable(l, LocalChange(l.device, Coil, 0));
  }

  lemma LineOfSwitchedOff()
    ensures |Run(OneSlave(), SwitchedOff()).slaves| == |Run(OneSlave(), SwitchedOff()).bus.devices| == 1
    ensures OffByHand(LineOf(Run(OneSlave(), SwitchedOff()), 0))
  {
    SwitchedOffEvents();
    LineOfRun(OneSlave(), SwitchedOff(), 0);
    var l := LineOf(OneSlave(), 0);
    RunLineThree(l, PassEvent(1, false), PassEvent(30, false), FieldEvent(Coil, 0));
    EnableSettles(l);
    SwitchedOffByHand(PassLine(PassLine(l, 1, false), 30, false));
  }

  lemma OneIsOn(v: real)
    requires v == 1.0
    ensures Stored(EnableChannel, v) == 1
  {
  }

  lemma OffStaysOff(sys: System, es: seq<Event>, fs: seq<Event>, i: nat, delta: nat)
    requires Initial(sys) && Monotone(0, es) && PacedRun(LastTick(0, es), fs, delta) && delta >= 1 && i < |sys.slaves|
    requires |Run(sys, es).slaves| == |Run(sys, es).bus.devices| == |sys.slaves| && OffByHand(LineOf(Run(sys, es), i))
    requires Calm(Project(DriftAfter(0, es), fs, i), EnableChannel)
    ensures var r := Run(sys, es + fs);
            && |r.slaves| == |r.bus.devices| == |sys.slaves|
            && Stored(EnableChannel, r.slaves[i].belief.Winning(EnableChannel)) == 1 && r.bus.devices[i].coil == 0
  {
    PacedRunIsMonotone(LastTick(0, es), fs, delta);
    ContinuedRun(sys, es, fs, i);
    ProjectKeepsTime(LastTick(0, es), DriftAfter(0, es), fs, i, delta);
    var l, ls := LineOf(Run(sys, es), i), Project(DriftAfter(0, es), fs, i);
    CalmRunKeepsChange(l, ls, EnableChannel, delta);
    assert RegisterOf(RunLine(l, ls).device, EnableChannel) == RunLine(l, ls).device.coil;
    OneIsOn(RunLine(l, ls).belief.Winning(EnableChannel));
  }

  /** However long the gateway runs after es, with the cable in and no further command, the coil stays off, though
      the winner stands for a coil that is on. */
  ghost predicate CoilStaysOff(sys: System, es: seq<Event>)
  {
    forall fs: seq<Event>, delta: nat ::
      delta >= 1 && PacedRun(LastTick(0, es), fs, delta) && Calm(Project(DriftAfter(0, es), fs, 0), EnableChannel) ==>
        var r := Run(sys, es + fs);
        && |r.slaves| == |r.bus.devices| == 1
        && Stored(EnableChannel, r.slaves[0].belief.Winning(EnableChannel)) == 1 && r.bus.devices[0].coil == 0
  }

  lemma OffMeansStaysOff(sys: System, es: seq<Event>)
    requires Initial(sys) && Monotone(0, es) && |sys.slaves| == 1
    requires |Run(sys, es).slaves| == |Run(sys, es).bus.devices| == 1 && OffByHand(LineOf(Run(sys, es), 0))
    ensures CoilStaysOff(sys, es)
  {
    forall fs: seq<Event>, delta: nat
      | delta >= 1 && PacedRun(LastTick(0, es), fs, delta) && Calm(Project(DriftAfter(0, es), fs, 0), EnableChannel)
      ensures var r := Run(sys, es + fs);
              && |r.slaves| == |r.bus.devices| == 1
              && Stored(EnableChannel, r.slaves[0].belief.Winning(EnableChannel)) == 1
              && r.bus.devices[0].coil == 0
    {
      OffStaysOff(sys, es, fs, 0, delta);
    }
  }

  /** A reachable state in which convergence fails: an output that is on is switched off at the device. */
  lemma SwitchedOffStaysOff()
    ensures Initial(OneSlave()) && Monotone(0, SwitchedOff()) && CoilStaysOff(OneSlave(), SwitchedOff())
  {
    SwitchedOffEvents();
    LineOfSwitchedOff();
    OffMeansStaysOff(OneSlave(), SwitchedOff());
  }
}
