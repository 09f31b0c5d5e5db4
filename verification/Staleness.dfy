/** How old a cached reading can be while its slave stays reachable. */
module Staleness {
  import opened Registers
  import opened ForeignBus
  import opened Gateway
  import opened Line
  import opened Runs
  import opened LineInvariant
  import opened Theorems
  import opened Convergence

  /** A poll may be overdue, as when the cable has just been put back, and the next one may be due before it is
      answered. */
  ghost predicate Prompt(l: Line, delta: nat) { Reachable(l) && delta >= 1 && 1 <= l.device.latency }

  /** The poll that a pass at this time answers. */
  predicate AnsweredIn(l: Line, now: nat) { l.poll.Some? && Due(l.poll.value, l, now) }

  /** Some pass of the run has answered a poll. */
  predicate Answered(l: Line, es: seq<LineEvent>)
  {
    es != [] &&
    (var prior, e := es[..|es| - 1], es[|es| - 1];
     Answered(l, prior) || (e.PassEvent? && AnsweredIn(RunLine(l, prior), e.now)))
  }

  /** The cache holds what the register held in a pass at this time, and the next answer cannot be far. */
  ghost predicate FreshSince(l: Line, at: nat, delta: nat)
  {
    && at <= l.now
    && match l.poll
       case None =>
         && l.belief.nextPollAt <= at + l.belief.period - l.device.latency
         && (l.now <= l.belief.nextPollAt || l.now <= at)
       case Some(t) =>
         && l.now < t.startedAt + l.device.latency
         && t.startedAt <= at + Max(0, l.belief.period - l.device.latency) + delta
  }

  lemma FreshMeansRecent(l: Line, at: nat, delta: nat)
    requires Prompt(l, delta) && FreshSince(l, at, delta)
    ensures l.now <= at + Max(l.belief.period, l.device.latency) + delta
  {
  }

  lemma PassKeepsFresh(l: Line, now: nat, drift: bool, at: nat, delta: nat)
    requires Prompt(l, delta) && l.now <= now <= l.now + delta
    ensures var r := PassLine(l, now, drift);
            && Prompt(r, delta) && SameIdentity(l, r) && r.now == now
            && (AnsweredIn(l, now) ==> FreshSince(r, now, delta) && r.belief.measured == Decode(r.device.inputRegister))
            && (!AnsweredIn(l, now) && FreshSince(l, at, delta) ==>
                  FreshSince(r, at, delta) && r.belief.measured == l.belief.measured)
  {
    PassReachable(l, now, drift, SetpointChannel);
    PassKeepsIdentity(l, now, drift);
    assert SlotFits(l, PollChannel);
  }

  lemma EventKeepsFresh(l: Line, e: LineEvent, delta: nat)
    requires Prompt(l, delta) && !e.PassEvent? && (e.CableEvent? ==> e.online)
    ensures var r := StepLine(l, e);
            && Prompt(r, delta) && SameIdentity(l, r) && r.now == l.now && r.belief.measured == l.belief.measured
            && forall at: nat :: FreshSince(l, at, delta) ==> FreshSince(r, at, delta)
  {
    StepKeeps(l, e);
  }

  /** Pass k of the run is where the cached reading comes from. */
  ghost predicate ReadAt(l: Line, es: seq<LineEvent>, k: int)
  {
    && 0 <= k < |es| && es[k].PassEvent?
    && RunLine(l, es).belief.measured == Decode(RunLine(l, es[..k + 1]).device.inputRegister)
  }

  lemma {:induction false} RunKeepsFresh(l: Line, es: seq<LineEvent>, delta: nat)
    requires Prompt(l, delta) && Paced(l.now, es, delta) && NeverPulled(es)
    ensures Prompt(RunLine(l, es), delta) && SameIdentity(l, RunLine(l, es))
    ensures Answered(l, es) ==> exists k :: ReadAt(l, es, k) && FreshSince(RunLine(l, es), es[k].now, delta)
  {
    hide PassLine, Invariant, FreshSince, Decode, Due;
    if es == [] {
    } else {
      var n := |es| - 1;
      var prior, e := es[..n], es[n];
      assert e in es && forall x :: x in prior ==> x in es;
      RunKeepsFresh(l, prior, delta);
      LastPassIsNow(l, prior);
      var m := RunLine(l, prior);
      assert es[..n + 1] == es;
      if Answered(l, prior) {
        var k :| ReadAt(l, prior, k) && FreshSince(m, prior[k].now, delta);
        assert es[..k + 1] == prior[..k + 1] && es[k] == prior[k];
        if e.PassEvent? {
          PassKeepsFresh(m, e.now, e.drift, prior[k].now, delta);
          assert ReadAt(l, es, if AnsweredIn(m, e.now) then n else k);
        } else {
          EventKeepsFresh(m, e, delta);
          assert ReadAt(l, es, k);
        }
      } else if e.PassEvent? {
        PassKeepsFresh(m, e.now, e.drift, 0, delta);
        assert AnsweredIn(m, e.now) ==> ReadAt(l, es, n);
      } else {
        EventKeepsFresh(m, e, delta);
      }
    }
  }

  lemma LineCacheIsRecent(l: Line, es: seq<LineEvent>, delta: nat) returns (k: nat)
    requires Prompt(l, delta) && Paced(l.now, es, delta) && NeverPulled(es) && Answered(l, es)
    ensures ReadAt(l, es, k) && RunLine(l, es).now <= es[k].now + Max(l.belief.period, l.device.latency) + delta
  {
    RunKeepsFresh(l, es, delta);
    k :| ReadAt(l, es, k) && FreshSince(RunLine(l, es), es[k].now, delta);
    FreshMeansRecent(RunLine(l, es), es[k].now, delta);
  }

  // -- The same of the whole gateway ----------------------------------------------------------------

  /** Event k of the projection comes from event j of the run, with the same events before it. */
  ghost predicate ComesFrom(lastDriftAt: nat, es: seq<Event>, i: nat, k: nat, j: nat)
    requires 1 <= k <= |Project(lastDriftAt, es, i)|
  {
    && 1 <= j <= |es| && Project(lastDriftAt, es[..j], i) == Project(lastDriftAt, es, i)[..k]
    && ProjectOne(DriftAfter(lastDriftAt, es[..j - 1]), es[j - 1], i) == [Project(lastDriftAt, es, i)[k - 1]]
  }

  lemma {:induction false} ProjectPrefix(lastDriftAt: nat, es: seq<Event>, i: nat, k: nat) returns (j: nat)
    requires 1 <= k <= |Project(lastDriftAt, es, i)|
    ensures ComesFrom(lastDriftAt, es, i, k, j)
  {
    hide DriftAfter, ProjectOne;
    var n := |es| - 1;
    var prior := es[..n];
    var before, one := Project(lastDriftAt, prior, i), ProjectOne(DriftAfter(lastDriftAt, prior), es[n], i);
    assert Project(lastDriftAt, es, i) == before + one;
    ProjectOneKeepsTime(DriftAfter(lastDriftAt, prior), es[n], i);
    if k <= |before| {
      j := ProjectPrefix(lastDriftAt, prior, i, k);
      assert es[..j] == prior[..j] && es[..j - 1] == prior[..j - 1] && (before + one)[..k] == before[..k];
    } else {
      j := |es|;
      assert es[..j] == es && es[..j - 1] == prior && (before + one)[..k] == before + one;
    }
  }

  lemma {:induction false} MonotonePrefix(start: nat, es: seq<Event>, j: nat)
    requires Monotone(start, es) && j <= |es|
    ensures Monotone(start, es[..j])
  {
    if j < |es| {
      MonotonePrefix(start, es[..|es| - 1], j);
      assert es[..|es| - 1][..j] == es[..j];
    } else {
      assert es[..j] == es;
    }
  }

  lemma DeviceOfRun(sys: System, es: seq<Event>, i: nat)
    requires Good(sys) && Monotone(sys.bus.now, es) && i < |sys.slaves|
    ensures |Run(sys, es).bus.devices| == |sys.slaves|
    ensures Run(sys, es).bus.devices[i] == RunLine(LineOf(sys, i), Project(sys.bus.lastDriftAt, es, i)).device
  {
    RunRefines(sys, es);
  }

  lemma ProjectOneIsTick(lastDriftAt: nat, e: Event, i: nat, le: LineEvent)
    requires ProjectOne(lastDriftAt, e, i) == [le] && le.PassEvent?
    ensures e.Tick? && e.now == le.now
  {
  }

  /** Where in the run the k-th event of the projection is. */
  lemma TickOfProjection(lastDriftAt: nat, fs: seq<Event>, i: nat, k: nat) returns (j: nat)
    requires k < |Project(lastDriftAt, fs, i)| && Project(lastDriftAt, fs, i)[k].PassEvent?
    ensures 1 <= j <= |fs| && fs[j - 1].Tick? && fs[j - 1].now == Project(lastDriftAt, fs, i)[k].now
    ensures Project(lastDriftAt, fs[..j], i) == Project(lastDriftAt, fs, i)[..k + 1]
  {
    var ls := Project(lastDriftAt, fs, i);
    j := ProjectPrefix(lastDriftAt, fs, i, k + 1);
    ProjectOneIsTick(DriftAfter(lastDriftAt, fs[..j - 1]), fs[j - 1], i, ls[k]);
  }

  lemma EventOfRun(sys: System, fs: seq<Event>, i: nat, k: nat) returns (j: nat)
    requires Good(sys) && Monotone(sys.bus.now, fs) && i < |sys.slaves|
    requires k < |Project(sys.bus.lastDriftAt, fs, i)| && Project(sys.bus.lastDriftAt, fs, i)[k].PassEvent?
    ensures 1 <= j <= |fs| && fs[j - 1].Tick? && fs[j - 1].now == Project(sys.bus.lastDriftAt, fs, i)[k].now
    ensures |Run(sys, fs[..j]).bus.devices| == |sys.slaves|
    ensures Run(sys, fs[..j]).bus.devices[i] ==
            RunLine(LineOf(sys, i), Project(sys.bus.lastDriftAt, fs, i)[..k + 1]).device
  {
    j := TickOfProjection(sys.bus.lastDriftAt, fs, i, k);
    MonotonePrefix(sys.bus.now, fs, j);
    DeviceOfRun(sys, fs[..j], i);
  }

  /** The same for a run from any state the gateway can be in. */
  lemma CacheStaysRecent(sys: System, fs: seq<Event>, i: nat, delta: nat) returns (j: nat)
    requires Good(sys) && i < |sys.slaves| && Prompt(LineOf(sys, i), delta)
    requires PacedRun(sys.bus.now, fs, delta) && NeverPulled(Project(sys.bus.lastDriftAt, fs, i))
    requires Answered(LineOf(sys, i), Project(sys.bus.lastDriftAt, fs, i))
    ensures |Run(sys, fs).slaves| == |sys.slaves| && 1 <= j <= |fs| && fs[j - 1].Tick?
    ensures Run(sys, fs).bus.now <=
            fs[j - 1].now + Max(sys.slaves[i].belief.period, sys.bus.devices[i].latency) + delta
    ensures |Run(sys, fs[..j]).bus.devices| == |sys.slaves|
    ensures Run(sys, fs).slaves[i].belief.measured == Decode(Run(sys, fs[..j]).bus.devices[i].inputRegister)
  {
    var l, ls := LineOf(sys, i), Project(sys.bus.lastDriftAt, fs, i);
    PacedRunIsMonotone(sys.bus.now, fs, delta);
    ProjectKeepsTime(sys.bus.now, sys.bus.lastDriftAt, fs, i, delta);
    var k := LineCacheIsRecent(l, ls, delta);
    j := EventOfRun(sys, fs, i, k);
    BeliefOfRun(sys, fs, i);
  }

  /** Bounded staleness. Let a run reach any state at all, with the slave's cable in: also a poll overdue since the
      cable was put back. While the slave stays reachable, once some pass has answered a poll: after every pass the
      cached temperature is what the sensor register held in a pass at most one poll period and one pass gap earlier
      - or one latency and one pass gap, if answering takes longer than the poll period -, however the register
      drifted or was set, and whatever was commanded or happened to the other slaves. */
  lemma CacheIsRecent(sys: System, es: seq<Event>, fs: seq<Event>, i: nat, delta: nat)
    requires Initial(sys) && Monotone(0, es) && i < |sys.slaves| && delta >= 1
    requires |Run(sys, es).slaves| == |sys.slaves| == |Run(sys, es).bus.devices|
    requires Run(sys, es).bus.devices[i].online && Run(sys, es).bus.devices[i].latency <= RESPONSE_TIMEOUT
    requires PacedRun(LastTick(0, es), fs, delta) && NeverPulled(Project(DriftAfter(0, es), fs, i))
    requires Answered(LineOf(Run(sys, es), i), Project(DriftAfter(0, es), fs, i))
    ensures |Run(sys, es + fs).slaves| == |sys.slaves|
    ensures exists j :: 1 <= j <= |fs| && fs[j - 1].Tick?
              && Run(sys, es + fs).bus.now <=
                 fs[j - 1].now + Max(sys.slaves[i].belief.period, Run(sys, es).bus.devices[i].latency) + delta
              && |Run(sys, es + fs[..j]).bus.devices| == |sys.slaves|
              && Run(sys, es + fs).slaves[i].belief.measured ==
                 Decode(Run(sys, es + fs[..j]).bus.devices[i].inputRegister)
  {
    PacedRunIsMonotone(LastTick(0, es), fs, delta);
    ContinuedRun(sys, es, fs, i);
    var j := CacheStaysRecent(Run(sys, es), fs, i, delta);
    RunConcat(sys, es, fs);
    RunConcat(sys, es, fs[..j]);
  }
}
