/** Fault detection: never wrong about a slave whose cable stays in, never late about one that is cut off, and
    always a function of which polls were answered. */
module Faults {
  import opened Priority
  import opened ForeignBus
  import opened Gateway
  import opened Line
  import opened Runs
  import opened Ownership
  import opened Refinement
  import opened LineInvariant
  import opened Theorems
  import opened Convergence

  // -- The poll conversation alone --------------------------------------------------------------

  lemma LinksKeepPoll(l: Line, o: Output)
    ensures var r := LinkLine(l, o);
            && r.poll == l.poll && r.belief.online == l.belief.online && r.belief.failedPolls == l.belief.failedPolls
            && r.belief.nextPollAt == l.belief.nextPollAt && r.belief.notices == l.belief.notices
            && r.belief.discoverable == l.belief.discoverable && r.belief.iAms == l.belief.iAms
            && r.belief.measured == l.belief.measured && r.mode == l.mode
  {
  }

  /** The part of a pass that decides about faults is PollLine; the write-through does not touch its state. */
  lemma PassIsPoll(l: Line, now: nat, drift: bool)
    ensures var r, p := PassLine(l, now, drift), PollLine(ServeLine(l, now, drift));
            && r.poll == p.poll && r.belief.online == p.belief.online && r.belief.failedPolls == p.belief.failedPolls
            && r.belief.nextPollAt == p.belief.nextPollAt && r.belief.notices == p.belief.notices
            && r.belief.discoverable == p.belief.discoverable && r.belief.iAms == p.belief.iAms
            && r.belief.measured == p.belief.measured && r.mode == p.mode
  {
    var p := PollLine(ServeLine(l, now, drift));
    LinksKeepPoll(p, SetpointChannel);
    LinksKeepPoll(LinkLine(p, SetpointChannel), EnableChannel);
  }

  // -- Soundness ----------------------------------------------------------------------------------

  ghost predicate NeverInDoubt(l: Line)
  {
    Reachable(l) && l.belief.online && l.belief.failedPolls == 0 && l.belief.notices == []
  }

  lemma NothingTimesOut(l: Line, now: nat, drift: bool, c: Channel)
    requires Reachable(l)
    ensures var s := ServeLine(l, now, drift).SlotOf(c); s.Some? ==> !s.value.outcome.Timeout?
  {
    assert l.SlotOf(c).Some? ==> l.SlotOf(c).value.outcome.Pending?;
  }

  lemma PassKeepsNoDoubt(l: Line, now: nat, drift: bool)
    requires NeverInDoubt(l) && l.now <= now
    ensures NeverInDoubt(PassLine(l, now, drift))
  {
    PassReachable(l, now, drift, SetpointChannel);
    PassIsPoll(l, now, drift);
    NothingTimesOut(l, now, drift, PollChannel);
  }

  lemma EventKeepsNoDoubt(l: Line, e: LineEvent)
    requires NeverInDoubt(l) && !e.PassEvent? && (e.CableEvent? ==> e.online)
    ensures NeverInDoubt(StepLine(l, e)) && StepLine(l, e).now == l.now
  {
    match e
    case CommandEvent(o, priority, v) => CommandIsReachable(l, o, Write(l.belief.CommandOf(o), priority, v));
    case ReleaseEvent(o, priority) => CommandIsReachable(l, o, Relinquish(l.belief.CommandOf(o), priority));
    case CableEvent(online) => DeviceChangeIsReachable(l, StepLine(l, e).device);
    case FieldEvent(table, word) => DeviceChangeIsReachable(l, StepLine(l, e).device);
  }

  lemma {:induction false} RunKeepsNoDoubt(l: Line, es: seq<LineEvent>)
    requires NeverInDoubt(l) && Ordered(l.now, es) && NeverPulled(es)
    ensures NeverInDoubt(RunLine(l, es))
  {
    if es == [] {
    } else {
      var prior, e := es[..|es| - 1], es[|es| - 1];
      assert e in es && forall x :: x in prior ==> x in es;
      RunKeepsNoDoubt(l, prior);
      LastPassIsNow(l, prior);
      if e.PassEvent? {
        PassKeepsNoDoubt(RunLine(l, prior), e.now, e.drift);
      } else {
        EventKeepsNoDoubt(RunLine(l, prior), e);
      }
    }
  }

  /** No transaction of slave i times out in a pass at this time. */
  ghost predicate NoneTimesOut(sys: System, i: nat, now: nat)
    requires i < |sys.slaves|
  {
    forall c: Channel ::
      var t := SlotAt(Serviced(sys.bus, now), sys.slaves[i].IdOf(c)); t.Some? ==> !t.value.outcome.Timeout?
  }

  lemma SlotOfLine(sys: System, i: nat, c: Channel)
    requires i < |sys.slaves| && i < |sys.bus.devices|
    ensures LineOf(sys, i).SlotOf(c) == SlotAt(sys.bus, sys.slaves[i].IdOf(c))
  {
  }

  lemma NoneTimesOutNow(sys: System, i: nat, now: nat)
    requires Tables(sys) && Owned(sys) && i < |sys.slaves| && Reachable(LineOf(sys, i))
    ensures NoneTimesOut(sys, i, now)
  {
    var l, r := LineOf(sys, i), AfterService(sys, now);
    var drift := DriftClock(sys.bus.lastDriftAt, now).1;
    ServicedLine(sys, now, i);
    forall c: Channel
      ensures var t := SlotAt(r.bus, sys.slaves[i].IdOf(c)); t.Some? ==> !t.value.outcome.Timeout?
    {
      SlotOfLine(r, i, c);
      NothingTimesOut(l, now, drift, c);
    }
  }

  /** Soundness: however late or irregular the passes are and whatever happens to the other slaves, a slave whose
      cable is never pulled is never reported, never even misses a poll, and in the next pass no transaction of
      its own will time out. It rests on answering being tested before timing out. */
  lemma NoFalseFault(sys: System, es: seq<Event>, i: nat, now: nat)
    requires Initial(sys) && Monotone(0, es) && i < |sys.slaves|
    requires sys.bus.devices[i].online && sys.bus.devices[i].latency <= RESPONSE_TIMEOUT
    requires NeverPulled(Project(0, es, i))
    ensures |Run(sys, es).slaves| == |sys.slaves|
    ensures var b := Run(sys, es).slaves[i].belief; b.online && b.failedPolls == 0 && b.notices == []
    ensures NoneTimesOut(Run(sys, es), i, now)
  {
    LineOfRun(sys, es, i);
    assert InitialSlave(sys.slaves[i]);
    RunKeepsNoDoubt(LineOf(sys, i), Project(0, es, i));
    NoneTimesOutNow(Run(sys, es), i, now);
  }

  // -- Completeness ---------------------------------------------------------------------------------

  ghost predicate CutOff(l: Line, delta: nat) { Invariant(l) && !l.device.online && delta >= 1 }

  ghost predicate PollsCutOff(l: Line, r: Line, now: nat)
  {
    var b, b' := l.belief, r.belief;
    match l.poll
    case None =>
      && b'.online == b.online && b'.failedPolls == b.failedPolls
      && if now < b.nextPollAt then r.poll.None? && b'.nextPollAt == b.nextPollAt
         else r.poll.Some? && r.poll.value.startedAt == now && b'.nextPollAt == now + b.period
    case Some(t) =>
      && b'.nextPollAt == b.nextPollAt
      && if now - t.startedAt >= RESPONSE_TIMEOUT then
           && r.poll.None? && b'.online == (b.online && b.failedPolls == 0)
           && (b.online ==> b'.failedPolls == b.failedPolls + 1)
         else r.poll == l.poll && b'.online == b.online && b'.failedPolls == b.failedPolls
  }

  lemma PassCutOff(l: Line, now: nat, drift: bool, delta: nat)
    requires CutOff(l, delta) && l.now <= now
    ensures PollsCutOff(l, PassLine(l, now, drift), now)
    ensures CutOff(PassLine(l, now, drift), delta) && PassLine(l, now, drift).now == now
    ensures SameIdentity(l, PassLine(l, now, drift))
  {
    PassKeeps(l, now, drift);
    PassKeepsIdentity(l, now, drift);
    PassIsPoll(l, now, drift);
  }

  /** The time from one failing poll to the next, but for a pass gap: the period, or the timeout if that is longer. */
  function PollsApart(l: Line, delta: nat): int { Max(l.belief.period, RESPONSE_TIMEOUT + delta) }

  /** 0, or when the gateway will have reported the slave, at the latest. */
  function OfflineBy(l: Line, delta: nat): int
  {
    if !l.belief.online then 0
    else if l.belief.failedPolls == 1 then
      match l.poll
      case Some(t) => Max(l.now, t.startedAt + RESPONSE_TIMEOUT) + delta
      case None => Max(l.now, l.belief.nextPollAt) + delta + RESPONSE_TIMEOUT + delta
    else
      match l.poll
      case Some(t) =>
        Max(Max(l.now, t.startedAt + RESPONSE_TIMEOUT) + delta, l.belief.nextPollAt) + delta + RESPONSE_TIMEOUT + delta
      case None =>
        Max(l.now, l.belief.nextPollAt) + delta + PollsApart(l, delta) + delta + RESPONSE_TIMEOUT + delta
  }

  lemma OfflineByIsBounded(l: Line, delta: nat)
    requires CutOff(l, delta)
    ensures OfflineBy(l, delta) <= l.now + l.belief.period + PollsApart(l, delta) + RESPONSE_TIMEOUT + 3 * delta
    ensures l.belief.online ==> l.now + delta <= OfflineBy(l, delta)
  {
    assert SlotFits(l, PollChannel);
    assert l.poll.Some? ==> l.SlotOf(PollChannel) == l.poll && l.poll.value.outcome.Pending?;
  }

  lemma OfflineByShrinks(l: Line, r: Line, now: nat, delta: nat)
    requires CutOff(l, delta) && l.now <= now <= l.now + delta && PollsCutOff(l, r, now)
    requires r.now == now && SameIdentity(l, r)
    ensures OfflineBy(r, delta) <= OfflineBy(l, delta)
    ensures !l.belief.online ==> !r.belief.online
  {
    assert SlotFits(l, PollChannel);
    assert l.poll.Some? ==> l.SlotOf(PollChannel) == l.poll && l.poll.value.outcome.Pending?;
  }

  lemma EventKeepsCutOff(l: Line, e: LineEvent, delta: nat)
    requires CutOff(l, delta) && !e.PassEvent? && (e.CableEvent? ==> !e.online)
    ensures CutOff(StepLine(l, e), delta) && SameIdentity(l, StepLine(l, e)) && StepLine(l, e).now == l.now
    ensures OfflineBy(StepLine(l, e), delta) == OfflineBy(l, delta)
    ensures StepLine(l, e).belief.online == l.belief.online
  {
    StepKeeps(l, e);
  }

  lemma {:induction false} OfflineByOfRun(l: Line, es: seq<LineEvent>, delta: nat)
    requires CutOff(l, delta) && Paced(l.now, es, delta) && NeverRestored(es)
    ensures CutOff(RunLine(l, es), delta) && SameIdentity(l, RunLine(l, es))
    ensures OfflineBy(RunLine(l, es), delta) <= OfflineBy(l, delta)
    ensures !l.belief.online ==> !RunLine(l, es).belief.online
  {
    if es == [] {
    } else {
      var prior, e := es[..|es| - 1], es[|es| - 1];
      assert e in es && forall x :: x in prior ==> x in es;
      OfflineByOfRun(l, prior, delta);
      LastPassIsNow(l, prior);
      var m := RunLine(l, prior);
      if e.PassEvent? {
        PassCutOff(m, e.now, e.drift, delta);
        OfflineByShrinks(m, StepLine(m, e), e.now, delta);
      } else {
        EventKeepsCutOff(m, e, delta);
      }
    }
  }

  lemma LineIsReported(l: Line, es: seq<LineEvent>, delta: nat)
    requires CutOff(l, delta) && Paced(l.now, es, delta) && NeverRestored(es)
    requires LastPass(l.now, es) > l.now + l.belief.period + PollsApart(l, delta) + RESPONSE_TIMEOUT + 2 * delta
    ensures !RunLine(l, es).belief.online
  {
    OfflineByOfRun(l, es, delta);
    OfflineByIsBounded(l, delta);
    OfflineByIsBounded(RunLine(l, es), delta);
    LastPassIsNow(l, es);
  }

  /** Completeness: a slave that is cut off is reported after every pass past T + a poll period + the longer of the poll
      period and the response timeout with a pass gap + the response timeout + two pass gaps, T being the time of
      the last pass before; and for as long as it stays cut off, since this holds of every longer run as well. */
  lemma FaultIsDetected(sys: System, es: seq<Event>, fs: seq<Event>, i: nat, delta: nat)
    requires Initial(sys) && Monotone(0, es) && i < |sys.slaves| && delta >= 1
    requires |Run(sys, es).slaves| == |sys.slaves| == |Run(sys, es).bus.devices|
    requires !Run(sys, es).bus.devices[i].online && NeverRestored(Project(DriftAfter(0, es), fs, i))
    requires PacedRun(LastTick(0, es), fs, delta)
    requires LastTick(LastTick(0, es), fs) >
             LastTick(0, es) + sys.slaves[i].belief.period
             + Max(sys.slaves[i].belief.period, RESPONSE_TIMEOUT + delta) + RESPONSE_TIMEOUT + 2 * delta
    ensures |Run(sys, es + fs).slaves| == |sys.slaves|
    ensures !Run(sys, es + fs).slaves[i].belief.online
  {
    PacedRunIsMonotone(LastTick(0, es), fs, delta);
    ContinuedRun(sys, es, fs, i);
    ProjectKeepsTime(LastTick(0, es), DriftAfter(0, es), fs, i, delta);
    LineIsReported(LineOf(Run(sys, es), i), Project(DriftAfter(0, es), fs, i), delta);
  }
}
