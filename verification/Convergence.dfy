/** Once commands stop and a slave stays reachable, its output points reach the winning values in bounded time
    and stay there: a deadline computed from the state never moves back. */
module Convergence {
  import opened Registers
  import opened Priority
  import opened ForeignBus
  import opened Gateway
  import opened Line
  import opened Runs
  import opened LineInvariant
  import opened Theorems
  import opened WriteThrough

  function Max(a: int, b: int): int { if a >= b then a else b }

  predicate Due(t: Transaction, l: Line, now: nat) { now - t.startedAt >= l.device.latency }

  // -- What a pass does to a reachable slave --------------------------------------------------

  ghost predicate Reachable(l: Line) { Invariant(l) && l.device.online && l.device.latency <= RESPONSE_TIMEOUT }

  /** The poll conversation of a reachable slave: an answer as soon as it is due, and never a timeout. */
  ghost predicate PollsReachable(l: Line, r: Line, now: nat)
  {
    var b, b' := l.belief, r.belief;
    match l.poll
    case None =>
      && b'.online == b.online && b'.failedPolls == b.failedPolls && b'.measured == b.measured
      && if now < b.nextPollAt then r.poll.None? && b'.nextPollAt == b.nextPollAt
         else r.poll.Some? && r.poll.value.startedAt == now && b'.nextPollAt == now + b.period
    case Some(t) =>
      && b'.nextPollAt == b.nextPollAt
      && if Due(t, l, now) then
           r.poll.None? && b'.online && b'.failedPolls == 0 && b'.measured == Decode(r.device.inputRegister)
         else r.poll == l.poll && b'.online == b.online && b'.failedPolls == b.failedPolls && b'.measured == b.measured
  }

  /** The write conversation: a write lands as soon as it is due, and a wanted one is started at once. */
  ghost predicate WritesReachable(l: Line, r: Line, o: Output, now: nat)
  {
    var k, k' := l.belief.LinkOf(o), r.belief.LinkOf(o);
    var landed := l.SlotOf(o).Some? && Due(l.SlotOf(o).value, l, now);
    && k'.retryAt == k.retryAt
    && k'.written == (k.written || landed)
    && k'.lastWritten == (if landed then k.inFlight else k.lastWritten)
    && if l.SlotOf(o).Some? && !landed then r.SlotOf(o) == l.SlotOf(o) && k'.inFlight == k.inFlight
       else if r.belief.online && now >= k.retryAt && !(k'.written && k'.lastWritten == r.belief.Winning(o)) then
         r.SlotOf(o).Some? && r.SlotOf(o).value.startedAt == now && k'.inFlight == r.belief.Winning(o)
       else r.SlotOf(o).None?
  }

  lemma PollReachable(l: Line, now: nat, drift: bool)
    requires Reachable(l) && l.now <= now
    ensures PollsReachable(l, PollLine(ServeLine(l, now, drift)), now)
    ensures forall o: Output :: PollLine(ServeLine(l, now, drift)).belief.LinkOf(o) == l.belief.LinkOf(o)
    ensures forall o: Output :: PollLine(ServeLine(l, now, drift)).SlotOf(o) == ServeLine(l, now, drift).SlotOf(o)
  {
  }

  lemma OtherLink(l: Line, o: Output, other: Output)
    requires o != other
    ensures var r := LinkLine(l, other);
            && r.belief.LinkOf(o) == l.belief.LinkOf(o) && r.SlotOf(o) == l.SlotOf(o) && r.poll == l.poll
            && r.belief.online == l.belief.online && r.belief.failedPolls == l.belief.failedPolls
            && r.belief.nextPollAt == l.belief.nextPollAt && r.belief.Winning(o) == l.belief.Winning(o)
            && r.belief.measured == l.belief.measured && r.now == l.now && r.device == l.device
  {
  }

  lemma LinkReachable(l: Line, m: Line, o: Output, now: nat, drift: bool)
    requires Reachable(l) && l.now <= now
    requires m.now == now && m.belief.LinkOf(o) == l.belief.LinkOf(o)
    requires m.SlotOf(o) == ServeLine(l, now, drift).SlotOf(o)
    ensures var r := LinkLine(m, o);
            && WritesReachable(l, r, o, now)
            && r.poll == m.poll && r.belief.online == m.belief.online && r.belief.failedPolls == m.belief.failedPolls
            && r.belief.nextPollAt == m.belief.nextPollAt && r.belief.measured == m.belief.measured
            && r.now == m.now && r.device == m.device
  {
    hide Encode, Winner;
  }

  lemma PassReachable(l: Line, now: nat, drift: bool, o: Output)
    requires Reachable(l) && l.now <= now
    ensures PollsReachable(l, PassLine(l, now, drift), now) && WritesReachable(l, PassLine(l, now, drift), o, now)
    ensures Reachable(PassLine(l, now, drift)) && PassLine(l, now, drift).now == now
    ensures SameIdentity(l, PassLine(l, now, drift)) && SameCommands(l, PassLine(l, now, drift))
  {
    PassKeeps(l, now, drift);
    PassKeepsIdentity(l, now, drift);
    var b := PollLine(ServeLine(l, now, drift));
    PollReachable(l, now, drift);
    if o.SetpointChannel? {
      LinkReachable(l, b, SetpointChannel, now, drift);
      OtherLink(LinkLine(b, SetpointChannel), o, EnableChannel);
    } else {
      OtherLink(b, o, SetpointChannel);
      LinkReachable(l, LinkLine(b, SetpointChannel), EnableChannel, now, drift);
    }
  }

  // -- The deadline ----------------------------------------------------------------------------

  /** When a transaction on the wire will have been answered, at the latest. */
  function AnswerBy(l: Line, t: Transaction, delta: nat): int { Max(l.now, t.startedAt + l.device.latency) + delta }

  /** 0, or when the gateway will believe the slave online. */
  function OnlineBy(l: Line, delta: nat): int
  {
    if l.belief.online then 0
    else match l.poll
      case Some(t) => AnswerBy(l, t, delta)
      case None => Max(l.now, l.belief.nextPollAt) + delta + l.device.latency + delta
  }

  /** 0, or when a write of a value that no longer wins will be off the wire. */
  function FreeBy(l: Line, o: Output, delta: nat): int
  {
    match l.SlotOf(o)
    case Some(t) => AnswerBy(l, t, delta)
    case None => 0
  }

  /** 0, or when the delay after a failed write will be over. */
  function RetryBy(l: Line, o: Output, delta: nat): int
  {
    if l.now >= l.belief.LinkOf(o).retryAt then 0 else l.belief.LinkOf(o).retryAt + delta
  }

  function StartBy(l: Line, o: Output, delta: nat): int
  {
    var wait := Max(OnlineBy(l, delta), Max(FreeBy(l, o, delta), RetryBy(l, o, delta)));
    if wait == 0 then l.now + delta else wait
  }

  predicate Settled(l: Line, o: Output)
  {
    l.SlotOf(o).None? && l.belief.LinkOf(o).written && l.belief.LinkOf(o).lastWritten == l.belief.Winning(o)
  }

  /** The winning value is on the wire. */
  predicate Underway(l: Line, o: Output) { l.SlotOf(o).Some? && l.belief.LinkOf(o).inFlight == l.belief.Winning(o) }

  function SettleBy(l: Line, o: Output, delta: nat): int
  {
    if Underway(l, o) then FreeBy(l, o, delta) else StartBy(l, o, delta) + l.device.latency + delta
  }

  lemma DeadlineIsBounded(l: Line, o: Output, delta: nat)
    requires Reachable(l)
    ensures SettleBy(l, o, delta) <= l.now + l.belief.period + 2 * l.device.latency + 3 * delta
  {
    assert SlotFits(l, o) && SlotFits(l, PollChannel);
  }

  lemma DeadlineIsAhead(l: Line, o: Output, delta: nat)
    requires Reachable(l) && !Settled(l, o)
    ensures l.now + delta <= SettleBy(l, o, delta)
  {
    assert SlotFits(l, o);
  }

  lemma OnlineByShrinks(l: Line, r: Line, now: nat, delta: nat)
    requires Reachable(l) && l.now <= now <= l.now + delta && PollsReachable(l, r, now)
    requires r.now == now && SameIdentity(l, r)
    ensures OnlineBy(r, delta) <= OnlineBy(l, delta)
    ensures OnlineBy(l, delta) > 0 && r.belief.online ==> now <= OnlineBy(l, delta)
  {
  }

  ghost predicate KeepsDeadline(l: Line, r: Line, o: Output, delta: nat)
  {
    && (Settled(l, o) ==> Settled(r, o))
    && (Settled(r, o) || SettleBy(r, o, delta) <= SettleBy(l, o, delta))
  }

  lemma FreeIsAnswer(l: Line, o: Output, delta: nat)
    requires l.SlotOf(o).Some? && l.SlotOf(o).value.startedAt == l.now
    ensures FreeBy(l, o, delta) == l.now + l.device.latency + delta
  {
  }

  lemma StartIsNotEarlier(l: Line, now: nat, o: Output, delta: nat)
    requires l.now <= now <= l.now + delta && l.belief.LinkOf(o).retryAt <= now
    requires OnlineBy(l, delta) > 0 ==> now <= OnlineBy(l, delta)
    ensures now <= StartBy(l, o, delta)
  {
    hide OnlineBy;
  }

  /** A write that starts in a pass starts by the time the deadline allows. */
  lemma WriteStarts(l: Line, r: Line, now: nat, o: Output, delta: nat)
    requires l.now <= now <= l.now + delta && WritesReachable(l, r, o, now) && SameIdentity(l, r)
    requires r.now == now && r.belief.Winning(o) == l.belief.Winning(o)
    requires OnlineBy(l, delta) > 0 && r.belief.online ==> now <= OnlineBy(l, delta)
    requires l.SlotOf(o).None? || Due(l.SlotOf(o).value, l, now)
    requires !Underway(l, o) && r.SlotOf(o).Some?
    ensures KeepsDeadline(l, r, o, delta)
  {
    hide OnlineBy, RetryBy, FreeBy;
    assert now <= StartBy(l, o, delta) by {
      assert l.belief.LinkOf(o).retryAt <= now && r.belief.online;
      StartIsNotEarlier(l, now, o, delta);
    }
    assert FreeBy(r, o, delta) == now + l.device.latency + delta by {
      FreeIsAnswer(r, o, delta);
    }
  }

  lemma WaitsAreNotNegative(l: Line, o: Output, delta: nat)
    ensures OnlineBy(l, delta) >= 0 && FreeBy(l, o, delta) >= 0 && RetryBy(l, o, delta) >= 0
    ensures l.belief.online ==> OnlineBy(l, delta) == 0
    ensures !l.belief.online && delta >= 1 ==> OnlineBy(l, delta) > 0
  {
  }

  /** A pass that starts nothing leaves what is waited for where it was. */
  lemma NothingStarts(l: Line, r: Line, now: nat, o: Output, delta: nat)
    requires l.now <= now <= l.now + delta && WritesReachable(l, r, o, now) && SameIdentity(l, r)
    requires r.now == now && r.belief.Winning(o) == l.belief.Winning(o)
    requires OnlineBy(r, delta) <= OnlineBy(l, delta)
    requires OnlineBy(l, delta) > 0 && r.belief.online ==> now <= OnlineBy(l, delta)
    requires l.SlotOf(o).None? || Due(l.SlotOf(o).value, l, now)
    requires !Underway(l, o) && delta >= 1 && r.SlotOf(o).None?
    ensures KeepsDeadline(l, r, o, delta)
  {
    hide OnlineBy, AnswerBy;
    WaitsAreNotNegative(l, o, delta);
    WaitsAreNotNegative(r, o, delta);
    if !Settled(r, o) {
      assert SettleBy(r, o, delta) == StartBy(r, o, delta) + l.device.latency + delta;
      assert RetryBy(r, o, delta) <= RetryBy(l, o, delta) && FreeBy(r, o, delta) == 0;
      assert !r.belief.online || now < l.belief.LinkOf(o).retryAt;
    }
  }

  /** A write that is not yet answered keeps its own deadline. */
  lemma StillOnTheWire(l: Line, r: Line, now: nat, o: Output, delta: nat)
    requires l.now <= now <= l.now + delta && WritesReachable(l, r, o, now)
    requires r.now == now && SameIdentity(l, r) && r.belief.Winning(o) == l.belief.Winning(o)
    requires OnlineBy(r, delta) <= OnlineBy(l, delta)
    requires l.SlotOf(o).Some? && !Due(l.SlotOf(o).value, l, now)
    ensures KeepsDeadline(l, r, o, delta)
  {
    hide OnlineBy;
    assert FreeBy(r, o, delta) <= FreeBy(l, o, delta);
    assert RetryBy(r, o, delta) <= RetryBy(l, o, delta);
    assert FreeBy(r, o, delta) > now;
  }

  lemma DeadlineShrinks(l: Line, r: Line, now: nat, o: Output, delta: nat)
    requires l.now <= now <= l.now + delta && WritesReachable(l, r, o, now) && SlotFits(l, o)
    requires r.now == now && SameIdentity(l, r) && r.belief.Winning(o) == l.belief.Winning(o)
    requires OnlineBy(r, delta) <= OnlineBy(l, delta)
    requires OnlineBy(l, delta) > 0 && r.belief.online ==> now <= OnlineBy(l, delta)
    requires delta >= 1
    ensures KeepsDeadline(l, r, o, delta)
  {
    hide OnlineBy, RetryBy, FreeBy, StartBy;
    if l.SlotOf(o).Some? && !Due(l.SlotOf(o).value, l, now) {
      StillOnTheWire(l, r, now, o, delta);
    } else if Underway(l, o) {
      assert Settled(r, o);
    } else if r.SlotOf(o).Some? {
      WriteStarts(l, r, now, o, delta);
    } else {
      NothingStarts(l, r, now, o, delta);
    }
  }

  /** A settled link of a reachable slave stays settled; an unsettled one settles or keeps its deadline. */
  lemma PassKeepsDeadline(l: Line, now: nat, drift: bool, o: Output, delta: nat)
    requires Reachable(l) && l.now <= now <= l.now + delta && delta >= 1
    ensures KeepsDeadline(l, PassLine(l, now, drift), o, delta)
  {
    var r := PassLine(l, now, drift);
    PassReachable(l, now, drift, o);
    OnlineByShrinks(l, r, now, delta);
    assert SlotFits(l, o) && r.belief.Winning(o) == l.belief.Winning(o);
    DeadlineShrinks(l, r, now, o, delta);
  }

  /** What may happen between T and the deadline: anything but commands to this output, an outage of this slave,
      and a local change of this point. */
  ghost predicate CalmEvent(e: LineEvent, o: Output)
  {
    match e
    case PassEvent(_, _) => true
    case CommandEvent(other, _, _) => other != o
    case ReleaseEvent(other, _) => other != o
    case CableEvent(online) => online
    case FieldEvent(table, _) => table != TableOf(o)
  }

  ghost predicate Calm(es: seq<LineEvent>, o: Output) { forall e :: e in es ==> CalmEvent(e, o) }

  lemma CalmRunIsUntouched(es: seq<LineEvent>, o: Output)
    requires Calm(es, o)
    ensures Untouched(es, o)
  {
    forall e | e in es && e.FieldEvent? ensures e.table != TableOf(o) {
      assert CalmEvent(e, o);
    }
  }

  lemma DeviceChangeIsReachable(l: Line, d: Device)
    requires Reachable(l) && d.online && d.latency == l.device.latency
    ensures Reachable(l.(device := d))
  {
    assert forall c: Channel :: l.(device := d).SlotOf(c) == l.SlotOf(c);
  }

  lemma DeviceChangeKeepsDeadline(l: Line, d: Device, o: Output, delta: nat)
    requires d.latency == l.device.latency
    ensures KeepsDeadline(l, l.(device := d), o, delta)
  {
    var r := l.(device := d);
    assert r.SlotOf(o) == l.SlotOf(o);
    assert OnlineBy(r, delta) == OnlineBy(l, delta) && FreeBy(r, o, delta) == FreeBy(l, o, delta);
    assert SettleBy(r, o, delta) == SettleBy(l, o, delta);
  }

  lemma CommandIsReachable(l: Line, other: Output, c: Command)
    requires Reachable(l)
    ensures Reachable(l.(belief := l.belief.WithCommand(other, c)))
  {
    var r := l.(belief := l.belief.WithCommand(other, c));
    assert forall k: Channel :: r.SlotOf(k) == l.SlotOf(k);
    assert forall k: Output :: r.belief.LinkOf(k) == l.belief.LinkOf(k);
  }

  lemma OtherCommandKeepsDeadline(l: Line, other: Output, c: Command, o: Output, delta: nat)
    requires other != o
    ensures var r := l.(belief := l.belief.WithCommand(other, c));
            KeepsDeadline(l, r, o, delta) && r.belief.CommandOf(o) == l.belief.CommandOf(o)
  {
    var r := l.(belief := l.belief.WithCommand(other, c));
    assert r.SlotOf(o) == l.SlotOf(o);
    assert r.belief.LinkOf(o) == l.belief.LinkOf(o) && r.belief.Winning(o) == l.belief.Winning(o);
    assert OnlineBy(r, delta) == OnlineBy(l, delta) && FreeBy(r, o, delta) == FreeBy(l, o, delta);
  }

  lemma CalmEventKeepsDeadline(l: Line, e: LineEvent, o: Output, delta: nat)
    requires Reachable(l) && !e.PassEvent? && CalmEvent(e, o)
    ensures Reachable(StepLine(l, e)) && KeepsDeadline(l, StepLine(l, e), o, delta)
    ensures SameIdentity(l, StepLine(l, e)) && StepLine(l, e).now == l.now
    ensures StepLine(l, e).belief.CommandOf(o) == l.belief.CommandOf(o)
  {
    match e
    case CommandEvent(other, priority, v) =>
      CommandIsReachable(l, other, Write(l.belief.CommandOf(other), priority, v));
      OtherCommandKeepsDeadline(l, other, Write(l.belief.CommandOf(other), priority, v), o, delta);
    case ReleaseEvent(other, priority) =>
      CommandIsReachable(l, other, Relinquish(l.belief.CommandOf(other), priority));
      OtherCommandKeepsDeadline(l, other, Relinquish(l.belief.CommandOf(other), priority), o, delta);
    case CableEvent(online) =>
      DeviceChangeIsReachable(l, StepLine(l, e).device);
      DeviceChangeKeepsDeadline(l, StepLine(l, e).device, o, delta);
    case FieldEvent(table, word) =>
      DeviceChangeIsReachable(l, StepLine(l, e).device);
      DeviceChangeKeepsDeadline(l, StepLine(l, e).device, o, delta);
  }

  lemma {:induction false} DeadlineOfRun(l: Line, es: seq<LineEvent>, o: Output, delta: nat)
    requires Reachable(l) && delta >= 1 && Paced(l.now, es, delta) && Calm(es, o)
    ensures Reachable(RunLine(l, es)) && SameIdentity(l, RunLine(l, es)) && KeepsDeadline(l, RunLine(l, es), o, delta)
    ensures RunLine(l, es).belief.CommandOf(o) == l.belief.CommandOf(o)
  {
    if es == [] {
    } else {
      var prior, e := es[..|es| - 1], es[|es| - 1];
      assert e in es && forall x :: x in prior ==> x in es;
      DeadlineOfRun(l, prior, o, delta);
      LastPassIsNow(l, prior);
      var m := RunLine(l, prior);
      if e.PassEvent? {
        PassReachable(m, e.now, e.drift, o);
        PassKeepsDeadline(m, e.now, e.drift, o, delta);
      } else {
        CalmEventKeepsDeadline(m, e, o, delta);
      }
    }
  }

  // -- Convergence -------------------------------------------------------------------------------

  /** Whatever its state, a link of a reachable slave settles in bounded time: nothing on the wire, and written with
      the winning value. */
  lemma LineSettles(l: Line, es: seq<LineEvent>, o: Output, delta: nat)
    requires Reachable(l) && delta >= 1 && Paced(l.now, es, delta) && Calm(es, o)
    requires LastPass(l.now, es) > l.now + l.belief.period + 2 * l.device.latency + 2 * delta
    ensures Settled(RunLine(l, es), o) && RunLine(l, es).belief.CommandOf(o) == l.belief.CommandOf(o)
  {
    DeadlineOfRun(l, es, o, delta);
    DeadlineIsBounded(l, o, delta);
    LastPassIsNow(l, es);
    if !Settled(RunLine(l, es), o) {
      DeadlineIsAhead(RunLine(l, es), o, delta);
    }
  }

  /** Once settled, a link has nothing on the wire, and the register holds the winning value. */
  lemma LineConverges(l: Line, es: seq<LineEvent>, o: Output, delta: nat)
    requires Reachable(l) && Faithful(l, o) && delta >= 1 && Paced(l.now, es, delta) && Calm(es, o)
    requires LastPass(l.now, es) > l.now + l.belief.period + 2 * l.device.latency + 2 * delta
    ensures var r := RunLine(l, es);
            && r.belief.CommandOf(o) == l.belief.CommandOf(o)
            && Settled(r, o) && RegisterOf(r.device, o) == Stored(o, l.belief.Winning(o))
  {
    LineSettles(l, es, o, delta);
    PacedIsOrdered(l.now, es, delta);
    CalmRunIsUntouched(es, o);
    RunIsFaithful(l, es, o);
  }

  lemma NothingOnTheWire(sys: System, i: nat, o: Output)
    requires Good(sys) && i < |sys.slaves| && LineOf(sys, i).SlotOf(o).None?
    ensures sys.slaves[i].IdOf(o) == 0
  {
    assert LineOf(sys, i).SlotOf(o) == SlotAt(sys.bus, sys.slaves[i].IdOf(o));
  }

  /** Convergence. Let a run reach any state at all: the slave believed offline, a stale write or poll on the
      wire, a retry delay running. If from then on nobody commands the output, the slave's cable stays in, nobody
      else writes the point, and passes come at most delta apart, then after every pass past
      T + poll period + 2 latency + 2 delta, T being the time of the last pass before - so by the first pass at or
      after T + poll period + 2 latency + 3 delta at the latest - the point holds the winning value and no write is on
      the wire, and none is started any more, whatever happens to the other slaves. */
  lemma OutputsConverge(sys: System, es: seq<Event>, fs: seq<Event>, i: nat, o: Output, delta: nat)
    requires Initial(sys) && Monotone(0, es) && i < |sys.slaves| && delta >= 1
    requires Untouched(Project(0, es, i), o)
    requires |Run(sys, es).slaves| == |sys.slaves| == |Run(sys, es).bus.devices|
    requires Run(sys, es).bus.devices[i].online && Run(sys, es).bus.devices[i].latency <= RESPONSE_TIMEOUT
    requires PacedRun(LastTick(0, es), fs, delta) && Calm(Project(DriftAfter(0, es), fs, i), o)
    requires LastTick(LastTick(0, es), fs) >
             LastTick(0, es) + sys.slaves[i].belief.period + 2 * Run(sys, es).bus.devices[i].latency + 2 * delta
    ensures var r := Run(sys, es + fs);
            && |r.slaves| == |sys.slaves| == |r.bus.devices|
            && r.slaves[i].belief.CommandOf(o) == Run(sys, es).slaves[i].belief.CommandOf(o)
            && RegisterOf(r.bus.devices[i], o) == Stored(o, r.slaves[i].belief.Winning(o))
            && r.slaves[i].IdOf(o) == 0 && Settled(LineOf(r, i), o)
  {
    PacedRunIsMonotone(LastTick(0, es), fs, delta);
    ContinuedRun(sys, es, fs, i);
    RunOfLineIsFaithful(sys, es, i, o);
    ProjectKeepsTime(LastTick(0, es), DriftAfter(0, es), fs, i, delta);
    LineConverges(LineOf(Run(sys, es), i), Project(DriftAfter(0, es), fs, i), o, delta);
    NothingOnTheWire(Run(sys, es + fs), i, o);
  }
}
