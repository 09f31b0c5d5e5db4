/** How long the gateway leaves a slave alone: after a write that failed, and between two polls. */
module Pauses {
  import opened Registers
  import opened ForeignBus
  import opened Gateway
  import opened Line
  import opened Runs
  import opened LineInvariant
  import opened Theorems
  import opened Convergence
  import opened Faults
  import opened LocalChanges

  // -- A write that failed ----------------------------------------------------------------------

  /** In a pass at this time the bus gives up the write on the wire: no answer, and the response timeout is over. */
  predicate FailsIn(l: Line, now: nat, o: Output)
  {
    l.SlotOf(o).Some? &&
    (var waited := now - l.SlotOf(o).value.startedAt;
     !(l.device.online && waited >= l.device.latency) && waited >= 300)
  }

  /** There is something to write, and somebody to tell. */
  predicate Wanted(l: Line, o: Output)
  {
    l.belief.online && !(l.belief.LinkOf(o).written && l.belief.LinkOf(o).lastWritten == l.belief.Winning(o))
  }

  /** Some pass of the run, at the given time or later, left the output wanting a write. */
  predicate WantedFrom(l: Line, es: seq<LineEvent>, o: Output, at: nat)
  {
    es != [] &&
    (var prior, e := es[..|es| - 1], es[|es| - 1];
     WantedFrom(l, prior, o, at) || (e.PassEvent? && e.now >= at && Wanted(RunLine(l, es), o)))
  }

  /** Nothing on the wire, and nothing to be started before the given time. */
  ghost predicate Pausing(l: Line, o: Output, at: nat) { l.SlotOf(o).None? && l.belief.LinkOf(o).retryAt == at }

  /** The write on the wire is one of the winning value, started at this time. */
  ghost predicate WritesWinner(l: Line, o: Output, now: nat)
  {
    && l.SlotOf(o).Some?
    && l.SlotOf(o).value == Transaction(l.belief.unitId, TableOf(o), true, Word16(o, l.belief.Winning(o)), now, Pending)
  }

  /** With no write on the wire, a pass before the time starts none, and one at the time or later starts one exactly
      if it is wanted. */
  ghost predicate PausesUntil(r: Line, now: nat, o: Output, at: nat)
  {
    && (r.SlotOf(o).Some? <==> now >= at && Wanted(r, o))
    && (r.SlotOf(o).None? ==> Pausing(r, o, at))
    && (r.SlotOf(o).Some? ==> WritesWinner(r, o, now))
  }

  lemma LinkPauses(l: Line, o: Output, at: nat)
    requires Pausing(l, o, at)
    ensures PausesUntil(LinkLine(l, o), l.now, o, at)
  {
    hide Encode;
  }

  lemma OtherKeepsPause(l: Line, r: Line, o: Output, at: nat)
    requires PausesUntil(l, l.now, o, at)
    requires r.belief.LinkOf(o) == l.belief.LinkOf(o) && r.SlotOf(o) == l.SlotOf(o) && r.now == l.now
    requires r.belief.online == l.belief.online && r.belief.Winning(o) == l.belief.Winning(o)
    requires r.belief.unitId == l.belief.unitId
    ensures PausesUntil(r, r.now, o, at)
  {
  }

  /** The same for a whole pass, given what its first half leaves. */
  lemma PassPausesFrom(l: Line, b: Line, now: nat, drift: bool, o: Output, at: nat)
    requires b == PollLine(ServeLine(l, now, drift))
    requires var c := if o.SetpointChannel? then b else LinkLine(b, SetpointChannel);
             PausesUntil(LinkLine(c, o), now, o, at) && LinkLine(c, o).now == now
    ensures PausesUntil(PassLine(l, now, drift), now, o, at)
  {
    hide PausesUntil, LinkLine;
    if o.SetpointChannel? {
      var d := LinkLine(b, SetpointChannel);
      OtherLink(d, o, EnableChannel);
      ChannelKeepsIdentity(d, EnableChannel);
      OtherKeepsPause(d, LinkLine(d, EnableChannel), o, at);
    }
  }

  lemma PassPauses(l: Line, now: nat, drift: bool, o: Output, at: nat)
    requires Pausing(l, o, at)
    ensures PausesUntil(PassLine(l, now, drift), now, o, at)
  {
    hide PausesUntil, LinkLine, PollLine;
    var a := ServeLine(l, now, drift);
    var b := PollLine(a);
    PollStartsNothing(a, o);
    if !o.SetpointChannel? {
      OtherLink(b, o, SetpointChannel);
    }
    var c := if o.SetpointChannel? then b else LinkLine(b, SetpointChannel);
    LinkPauses(c, o, at);
    ChannelKeepsIdentity(c, o);
    PassPausesFrom(l, b, now, drift, o, at);
  }

  lemma FailureEnds(l: Line, o: Output)
    requires l.SlotOf(o).Some? && l.SlotOf(o).value.outcome.Timeout?
    ensures PausesUntil(LinkLine(l, o), l.now, o, l.now + l.belief.period)
  {
    hide Encode, PausesUntil;
    var f := FinishLineWrite(l, o);
    assert Pausing(f, o, l.now + l.belief.period) && f.now == l.now;
    LinkPauses(f, o, l.now + l.belief.period);
    assert LinkLine(f, o) == LinkLine(l, o);
  }

  /** The pass that learns of the failure already waits. */
  lemma FailurePauses(l: Line, now: nat, drift: bool, o: Output)
    requires Invariant(l) && FailsIn(l, now, o)
    ensures PausesUntil(PassLine(l, now, drift), now, o, now + l.belief.period)
  {
    hide PausesUntil, LinkLine, PollLine;
    var a := ServeLine(l, now, drift);
    assert a.SlotOf(o).value.outcome.Timeout?;
    var b := PollLine(a);
    PollStartsNothing(a, o);
    ChannelKeepsIdentity(a, PollChannel);
    if !o.SetpointChannel? {
      OtherLink(b, o, SetpointChannel);
      ChannelKeepsIdentity(b, SetpointChannel);
    }
    var c := if o.SetpointChannel? then b else LinkLine(b, SetpointChannel);
    FailureEnds(c, o);
    ChannelKeepsIdentity(c, o);
    PassPausesFrom(l, b, now, drift, o, now + l.belief.period);
  }

  lemma EventKeepsPause(l: Line, e: LineEvent, o: Output, at: nat)
    requires Pausing(l, o, at) && !e.PassEvent?
    ensures Pausing(StepLine(l, e), o, at)
  {
  }

  lemma {:induction false} PauseLasts(l: Line, es: seq<LineEvent>, o: Output, at: nat)
    requires Pausing(l, o, at) && !WantedFrom(l, es, o, at)
    ensures Pausing(RunLine(l, es), o, at)
  {
    hide Pausing;
    if es == [] {
    } else {
      var prior, e := es[..|es| - 1], es[|es| - 1];
      PauseLasts(l, prior, o, at);
      if e.PassEvent? {
        PassPauses(RunLine(l, prior), e.now, e.drift, o, at);
      } else {
        EventKeepsPause(RunLine(l, prior), e, o, at);
      }
    }
  }

  lemma {:induction false} NotYet(l: Line, es: seq<LineEvent>, o: Output, at: nat)
    requires Ordered(l.now, es) && LastPass(l.now, es) < at
    ensures !WantedFrom(l, es, o, at)
  {
    if es == [] {
    } else {
      NotYet(l, es[..|es| - 1], o, at);
    }
  }

  /** A write that failed in a pass at `now`: until the poll period is over nothing is written, whatever is commanded
      or happens; and then the first pass that leaves the output wanting a write starts it. */
  ghost predicate WaitsAPeriod(first: Line, now: nat, ls: seq<LineEvent>, next: LineEvent, o: Output)
    requires next.PassEvent?
  {
    var at := now + first.belief.period;
    var m, r := RunLine(first, ls), StepLine(RunLine(first, ls), next);
    && (LastPass(now, ls) < at ==> m.SlotOf(o).None?)
    && (!(now >= at && Wanted(first, o)) && !WantedFrom(first, ls, o, at) ==>
          && m.SlotOf(o).None?
          && (r.SlotOf(o).Some? <==> next.now >= at && Wanted(r, o))
          && (r.SlotOf(o).Some? ==> WritesWinner(r, o, next.now)))
  }

  lemma PausingIsQuiet(l: Line, o: Output, at: nat)
    requires Pausing(l, o, at)
    ensures l.SlotOf(o).None?
  {
  }

  lemma {:induction false} OrderedStarts(start: nat, es: seq<LineEvent>)
    requires Ordered(start, es)
    ensures LastPass(start, es) >= start
  {
    if es == [] {
    } else {
      OrderedStarts(start, es[..|es| - 1]);
    }
  }

  lemma LineWaits(l: Line, now: nat, drift: bool, ls: seq<LineEvent>, next: LineEvent, o: Output)
    requires Invariant(l) && FailsIn(l, now, o) && Ordered(now, ls) && next.PassEvent?
    ensures WaitsAPeriod(PassLine(l, now, drift), now, ls, next, o)
  {
    hide PassLine, Pausing;
    var r, at := PassLine(l, now, drift), now + l.belief.period;
    PassKeepsIdentity(l, now, drift);
    FailurePauses(l, now, drift, o);
    OrderedStarts(now, ls);
    if LastPass(now, ls) < at {
      NotYet(r, ls, o, at);
    }
    if !(now >= at && Wanted(r, o)) && !WantedFrom(r, ls, o, at) {
      PauseLasts(r, ls, o, at);
      PausingIsQuiet(RunLine(r, ls), o, at);
      PassPauses(RunLine(r, ls), next.now, next.drift, o, at);
    }
  }

  // -- The same of the whole gateway ------------------------------------------------------------------

  lemma RunTick(sys: System, es: seq<Event>, now: nat, i: nat)
    requires Initial(sys) && Monotone(0, es) && LastTick(0, es) <= now && i < |sys.slaves|
    ensures var m, r := Run(sys, es), Run(sys, es + [Tick(now)]);
            && Good(m) && Good(r) && |m.slaves| == |r.slaves| == |sys.slaves| && Monotone(0, es + [Tick(now)])
            && |m.bus.devices| == |r.bus.devices| == |sys.slaves|
            && LastTick(0, es + [Tick(now)]) == now && r.bus.now == now && Invariant(LineOf(m, i))
            && SameIdentity(LineOf(sys, i), LineOf(m, i)) && SameIdentity(LineOf(sys, i), LineOf(r, i))
            && LineOf(r, i) == PassLine(LineOf(m, i), now, DriftClock(DriftAfter(0, es), now).1)
  {
    AppendEvent(0, 0, es, Tick(now), i);
    LineOfRun(sys, es, i);
    LineOfRun(sys, es + [Tick(now)], i);
    var e := PassEvent(now, DriftClock(DriftAfter(0, es), now).1);
    RunLineConcat(LineOf(sys, i), Project(0, es, i), [e]);
    RunLineOne(LineOf(Run(sys, es), i), e);
    RunKeepsIdentity(LineOf(sys, i), Project(0, es, i));
    RunKeepsIdentity(LineOf(sys, i), Project(0, es + [Tick(now)], i));
  }

  lemma IdMeansSlot(sys: System, i: nat, c: Channel)
    requires Good(sys) && i < |sys.slaves|
    ensures sys.slaves[i].IdOf(c) != 0 <==> LineOf(sys, i).SlotOf(c).Some?
  {
    SlotOfLine(sys, i, c);
  }

  lemma {:induction false} MonotoneConcat(es: seq<Event>, fs: seq<Event>)
    requires Monotone(0, es) && Monotone(LastTick(0, es), fs)
    ensures Monotone(0, es + fs) && LastTick(0, es + fs) == LastTick(LastTick(0, es), fs)
  {
    if fs == [] {
      assert es + fs == es;
    } else {
      var n := |fs| - 1;
      MonotoneConcat(es, fs[..n]);
      assert (es + fs)[..|es + fs| - 1] == es + fs[..n];
    }
  }

  lemma RunInThree(sys: System, es: seq<Event>, now: nat, fs: seq<Event>, later: nat, i: nat)
    requires Initial(sys) && Monotone(0, es) && LastTick(0, es) <= now && i < |sys.slaves|
    requires Monotone(now, fs) && LastTick(now, fs) <= later
    ensures var mid, m := Run(sys, es + [Tick(now)]), Run(sys, es + [Tick(now)] + fs);
            var r := Run(sys, es + [Tick(now)] + fs + [Tick(later)]);
            var ls := Project(DriftAfter(0, es + [Tick(now)]), fs, i);
            && |mid.slaves| == |m.slaves| == |r.slaves| == |sys.slaves| && Good(mid) && Good(m) && Good(r)
            && |mid.bus.devices| == |m.bus.devices| == |r.bus.devices| == |sys.slaves|
            && LineOf(m, i) == RunLine(LineOf(mid, i), ls) && Ordered(now, ls) && LastPass(now, ls) == LastTick(now, fs)
            && exists drift :: LineOf(r, i) == PassLine(LineOf(m, i), later, drift)
  {
    var gs := es + [Tick(now)];
    RunTick(sys, es, now, i);
    ContinuedRun(sys, gs, fs, i);
    ProjectKeepsTime(now, DriftAfter(0, gs), fs, i, 0);
    MonotoneConcat(gs, fs);
    RunTick(sys, gs + fs, later, i);
  }

  /** A write that failed. Let the bus give up a write of slave i's output in the pass at `now` of any run. However the
      run goes on, with commands, outages and returns: after every pass earlier than one poll period later no write
      of the output is on the wire. And as long as no pass from then on has left the slave believed online with the
      link not written with the winner, there is still none, and the next pass starts one exactly if it is the first
      that does: a write of the winner. */
  lemma FailedWriteWaits(sys: System, es: seq<Event>, now: nat, fs: seq<Event>, later: nat, i: nat, o: Output)
    requires Initial(sys) && Monotone(0, es) && LastTick(0, es) <= now && i < |sys.slaves|
    requires Monotone(now, fs) && LastTick(now, fs) <= later
    requires |Run(sys, es).slaves| == |Run(sys, es).bus.devices| == |sys.slaves|
    requires FailsIn(LineOf(Run(sys, es), i), now, o)
    ensures var mid, m := Run(sys, es + [Tick(now)]), Run(sys, es + [Tick(now)] + fs);
            var r := Run(sys, es + [Tick(now)] + fs + [Tick(later)]);
            var ls := Project(DriftAfter(0, es + [Tick(now)]), fs, i);
            var at := now + sys.slaves[i].belief.period;
            && |mid.slaves| == |m.slaves| == |r.slaves| == |sys.slaves|
            && |mid.bus.devices| == |m.bus.devices| == |r.bus.devices| == |sys.slaves|
            && (LastTick(now, fs) < at ==> m.slaves[i].IdOf(o) == 0)
            && (!(now >= at && Wanted(LineOf(mid, i), o)) && !WantedFrom(LineOf(mid, i), ls, o, at) ==>
                  && m.slaves[i].IdOf(o) == 0
                  && (r.slaves[i].IdOf(o) != 0 <==> later >= at && Wanted(LineOf(r, i), o))
                  && (r.slaves[i].IdOf(o) != 0 ==> WritesWinner(LineOf(r, i), o, later)))
  {
    hide Run, RunLine, Project, PassLine, Good, Wanted, WantedFrom, WritesWinner, FailsIn, Monotone, Initial;
    RunTick(sys, es, now, i);
    RunInThree(sys, es, now, fs, later, i);
    var mid, m := Run(sys, es + [Tick(now)]), Run(sys, es + [Tick(now)] + fs);
    var r, ls := Run(sys, es + [Tick(now)] + fs + [Tick(later)]), Project(DriftAfter(0, es + [Tick(now)]), fs, i);
    var drift :| LineOf(r, i) == PassLine(LineOf(m, i), later, drift);
    LineWaits(LineOf(Run(sys, es), i), now, DriftClock(DriftAfter(0, es), now).1, ls, PassEvent(later, drift), o);
    IdMeansSlot(m, i, o);
    IdMeansSlot(r, i, o);
  }

  // -- Polls ---------------------------------------------------------------------------------------------

  /** A poll of the slave's sensor, started at this time. */
  ghost predicate Polls(l: Line, at: nat)
  {
    l.poll.Some? && !l.poll.value.isWrite && l.poll.value.table.InputRegister? && l.poll.value.startedAt == at
    && l.poll.value.unitId == l.belief.unitId
  }

  /** The poll started at `at` is the last one, and the next is due a period later. */
  ghost predicate PolledAt(l: Line, at: nat)
  {
    l.belief.nextPollAt == at + l.belief.period && (l.poll.Some? ==> l.poll.value.startedAt == at)
  }

  lemma PassPolls(l: Line, now: nat, drift: bool, at: nat)
    ensures var r := PassLine(l, now, drift);
            && (PolledAt(l, at) ==>
                  if l.poll.None? && now >= at + l.belief.period
                  then Polls(r, now) && PolledAt(r, now) else PolledAt(r, at))
            && (l.poll.None? && r.poll.Some? ==> Polls(r, now) && PolledAt(r, now))
  {
    PassIsPoll(l, now, drift);
    PassKeepsIdentity(l, now, drift);
  }

  /** From a poll on, until a period has passed, no other is started, whatever happens. */
  lemma {:induction false} NoPollYet(l: Line, es: seq<LineEvent>, at: nat)
    requires PolledAt(l, at) && Ordered(l.now, es) && LastPass(l.now, es) < at + l.belief.period
    ensures PolledAt(RunLine(l, es), at) && SameIdentity(l, RunLine(l, es))
  {
    if es == [] {
    } else {
      var prior, e := es[..|es| - 1], es[|es| - 1];
      NoPollYet(l, prior, at);
      RunKeepsIdentity(l, es);
      if e.PassEvent? {
        PassPolls(RunLine(l, prior), e.now, e.drift, at);
      }
    }
  }

  lemma PassKeepsNoPoll(l: Line, now: nat, drift: bool)
    requires l.poll.None? && now < l.belief.nextPollAt
    ensures PassLine(l, now, drift).poll.None?
  {
    PassIsPoll(l, now, drift);
  }

  /** A poll started in a pass at `now` is the only one for a period, and then the next one follows. */
  ghost predicate PollsApart(first: Line, now: nat, m: Line, later: nat, r: Line)
  {
    && (m.poll.Some? ==> m.poll.value.startedAt == now)
    && (m.poll.None? ==> if later >= now + first.belief.period then Polls(r, later) else r.poll.None?)
  }

  lemma LinePollsApart(l: Line, now: nat, drift: bool, ls: seq<LineEvent>, later: nat, drift': bool)
    requires l.poll.None? && PassLine(l, now, drift).poll.Some?
    requires Ordered(now, ls) && LastPass(now, ls) < now + l.belief.period
    ensures var first := PassLine(l, now, drift);
            var m := RunLine(first, ls);
            PollsApart(first, now, m, later, PassLine(m, later, drift'))
  {
    hide PassLine;
    PassPolls(l, now, drift, 0);
    PassKeepsIdentity(l, now, drift);
    var first := PassLine(l, now, drift);
    NoPollYet(first, ls, now);
    var m := RunLine(first, ls);
    PassPolls(m, later, drift', now);
    if m.poll.None? && later < m.belief.nextPollAt {
      PassKeepsNoPoll(m, later, drift');
    }
  }

  /** Polling. Whenever a pass at `now` starts a poll: until one poll period later no other poll of that slave is
      started, and the first pass from then on that finds the poll finished starts the next. */
  lemma PollsAreAPeriodApart(sys: System, es: seq<Event>, now: nat, fs: seq<Event>, later: nat, i: nat)
    requires Initial(sys) && Monotone(0, es) && LastTick(0, es) <= now && i < |sys.slaves|
    requires Monotone(now, fs) && LastTick(now, fs) <= later
    requires |Run(sys, es).slaves| == |Run(sys, es).bus.devices| == |sys.slaves|
    requires |Run(sys, es + [Tick(now)]).slaves| == |Run(sys, es + [Tick(now)]).bus.devices| == |sys.slaves|
    requires LineOf(Run(sys, es), i).poll.None? && LineOf(Run(sys, es + [Tick(now)]), i).poll.Some?
    requires LastTick(now, fs) < now + sys.slaves[i].belief.period
    ensures var m, r := Run(sys, es + [Tick(now)] + fs), Run(sys, es + [Tick(now)] + fs + [Tick(later)]);
            && |m.slaves| == |m.bus.devices| == |r.slaves| == |r.bus.devices| == |sys.slaves|
            && PollsApart(LineOf(sys, i), now, LineOf(m, i), later, LineOf(r, i))
  {
    hide Run, RunLine, Project, PassLine, Good, Monotone, Initial, Invariant, Polls;
    RunTick(sys, es, now, i);
    RunInThree(sys, es, now, fs, later, i);
    var mid, m := Run(sys, es + [Tick(now)]), Run(sys, es + [Tick(now)] + fs);
    var r, ls := Run(sys, es + [Tick(now)] + fs + [Tick(later)]), Project(DriftAfter(0, es + [Tick(now)]), fs, i);
    var drift :| LineOf(r, i) == PassLine(LineOf(m, i), later, drift);
    LinePollsApart(LineOf(Run(sys, es), i), now, DriftClock(DriftAfter(0, es), now).1, ls, later, drift);
  }
}
