/** What holds of a slave's line between two passes, in every run. */
module LineInvariant {
  import opened ForeignBus
  import opened Gateway
  import opened Line
  import opened Refinement

  /** The transaction belongs to the channel, has not waited longer than the response timeout, and if it writes,
      it writes the value the link remembers. */
  ghost predicate SlotFits(l: Line, c: Channel)
  {
    l.SlotOf(c).Some? ==>
      var t := l.SlotOf(c).value;
      && t.table == TableOf(c) && t.isWrite == !c.PollChannel?
      && t.startedAt <= l.now
      && (t.outcome.Pending? ==> l.now - t.startedAt < RESPONSE_TIMEOUT)
      && (!c.PollChannel? ==> t.value == Word16(c, l.belief.LinkOf(c).inFlight))
  }

  ghost predicate Deadlines(l: Line)
  {
    var b := l.belief;
    && b.nextPollAt <= l.now + b.period
    && b.setpointLink.retryAt <= l.now + b.period && b.enableLink.retryAt <= l.now + b.period
    && (l.poll.Some? ==> b.nextPollAt == l.poll.value.startedAt + b.period)
  }

  /** Holds at every moment, also in the middle of a pass. */
  ghost predicate Consistent(l: Line)
  {
    && SlotFits(l, PollChannel) && SlotFits(l, SetpointChannel) && SlotFits(l, EnableChannel)
    && Deadlines(l)
    && (l.belief.online ==> l.belief.failedPolls < OFFLINE_AFTER_FAILED_POLLS)
  }

  ghost predicate Invariant(l: Line) { Consistent(l) && AllPending(l) }

  lemma ServeKeeps(l: Line, now: nat, drift: bool)
    requires Consistent(l) && l.now <= now
    ensures Consistent(ServeLine(l, now, drift))
  {
  }

  lemma PollKeeps(l: Line)
    requires Consistent(l)
    ensures Consistent(PollLine(l))
  {
  }

  lemma WriteKeeps(l: Line, o: Output)
    requires Consistent(l) && l.SlotOf(o).None?
    ensures Consistent(WriteLineIfWanted(l, o))
  {
  }

  lemma LinkKeeps(l: Line, o: Output)
    requires Consistent(l)
    ensures Consistent(LinkLine(l, o))
  {
    if l.SlotOf(o).None? {
      WriteKeeps(l, o);
    } else if !l.SlotOf(o).value.outcome.Pending? {
      WriteKeeps(FinishLineWrite(l, o), o);
    }
  }

  lemma PassKeeps(l: Line, now: nat, drift: bool)
    requires Consistent(l) && l.now <= now
    ensures Invariant(PassLine(l, now, drift))
  {
    var a := ServeLine(l, now, drift);
    ServeKeeps(l, now, drift);
    PollKeeps(a);
    var b := PollLine(a);
    LinkKeeps(b, SetpointChannel);
    LinkKeeps(LinkLine(b, SetpointChannel), EnableChannel);
    PassLineWaits(l, now, drift);
  }

  lemma EventKeeps(l: Line, e: LineEvent)
    requires Invariant(l) && !e.PassEvent?
    ensures Invariant(StepLine(l, e))
  {
    hide LocalChange;
  }

  lemma StepKeeps(l: Line, e: LineEvent)
    requires Invariant(l) && (e.PassEvent? ==> l.now <= e.now)
    ensures Invariant(StepLine(l, e))
  {
    hide PassLine;
    if e.PassEvent? {
      PassKeeps(l, e.now, e.drift);
    } else {
      EventKeeps(l, e);
    }
  }

  lemma {:induction false} RunKeeps(l: Line, es: seq<LineEvent>)
    requires Invariant(l) && Ordered(l.now, es)
    ensures Invariant(RunLine(l, es))
  {
    if es == [] {
    } else {
      var prior := es[..|es| - 1];
      RunKeeps(l, prior);
      LastPassIsNow(l, prior);
      StepKeeps(RunLine(l, prior), es[|es| - 1]);
    }
  }

  // -- What a pass never changes ---------------------------------------------------------------

  ghost predicate SameIdentity(l: Line, r: Line)
  {
    && r.mode == l.mode && r.belief.unitId == l.belief.unitId && r.belief.period == l.belief.period
    && r.device.unitId == l.device.unitId && r.device.latency == l.device.latency
  }

  ghost predicate SameCommands(l: Line, r: Line)
  {
    r.belief.setpoint == l.belief.setpoint && r.belief.enable == l.belief.enable
  }

  lemma ChannelKeepsIdentity(l: Line, c: Channel)
    ensures var r := ChannelLine(l, c);
            SameIdentity(l, r) && SameCommands(l, r) && r.now == l.now && r.device == l.device
  {
  }

  lemma PassKeepsIdentity(l: Line, now: nat, drift: bool)
    ensures var r := PassLine(l, now, drift);
            && SameIdentity(l, r) && SameCommands(l, r) && r.now == now
            && r.device == ServeLine(l, now, drift).device && r.device.online == l.device.online
  {
    var a := ServeLine(l, now, drift);
    ServeLineKeepsDevice(l, now, drift);
    ChannelKeepsIdentity(a, PollChannel);
    var b := ChannelLine(a, PollChannel);
    ChannelKeepsIdentity(b, SetpointChannel);
    ChannelKeepsIdentity(ChannelLine(b, SetpointChannel), EnableChannel);
  }

  lemma StepKeepsIdentity(l: Line, e: LineEvent)
    ensures var r := StepLine(l, e);
            && SameIdentity(l, r)
            && (!e.CommandEvent? && !e.ReleaseEvent? ==> SameCommands(l, r))
            && (!e.CableEvent? ==> r.device.online == l.device.online)
            && (!e.PassEvent? ==> r.now == l.now)
  {
    if e.PassEvent? {
      PassKeepsIdentity(l, e.now, e.drift);
    }
  }

  // -- Kinds of runs -----------------------------------------------------------------------------

  ghost predicate NeverPulled(es: seq<LineEvent>) { forall e :: e in es && e.CableEvent? ==> e.online }

  ghost predicate NeverRestored(es: seq<LineEvent>) { forall e :: e in es && e.CableEvent? ==> !e.online }

  ghost predicate NoCommands(es: seq<LineEvent>) { forall e :: e in es ==> !e.CommandEvent? && !e.ReleaseEvent? }

  lemma {:induction false} RunKeepsIdentity(l: Line, es: seq<LineEvent>)
    ensures SameIdentity(l, RunLine(l, es))
    ensures NoCommands(es) ==> SameCommands(l, RunLine(l, es))
    ensures l.device.online && NeverPulled(es) ==> RunLine(l, es).device.online
    ensures !l.device.online && NeverRestored(es) ==> !RunLine(l, es).device.online
  {
    if es == [] {
    } else {
      var prior, e := es[..|es| - 1], es[|es| - 1];
      RunKeepsIdentity(l, prior);
      StepKeepsIdentity(RunLine(l, prior), e);
      assert e in es && forall x :: x in prior ==> x in es;
    }
  }
}
