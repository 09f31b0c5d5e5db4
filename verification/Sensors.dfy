/** The drifting sensors of the simulated slaves: how far they go, when they move, and when they stop. */
module Sensors {
  import opened Registers
  import opened ForeignBus
  import opened Gateway
  import opened Line
  import opened Runs
  import opened LineInvariant
  import opened Theorems
  import opened LocalChanges

  // -- One step ------------------------------------------------------------------------------------

  /** A sensor that drifts, at most five steps around its centre. */
  predicate Drifts(d: Device)
  {
    && d.drifting && -5 <= d.driftOffset <= 5 && (d.driftDirection == 1 || d.driftDirection == -1)
    && d.inputRegister == (d.driftCentre + d.driftOffset) % 65536
  }

  /** One step in the direction it had, unless that would leave the five steps: then one step back. */
  predicate TakesStep(d: Device, r: Device)
  {
    && r.driftDirection == (if d.driftOffset == 5 * d.driftDirection then -d.driftDirection else d.driftDirection)
    && r.driftOffset == d.driftOffset + r.driftDirection && r.driftCentre == d.driftCentre
  }

  predicate SameSensor(d: Device, r: Device)
  {
    && r.drifting == d.drifting && r.driftOffset == d.driftOffset && r.driftDirection == d.driftDirection
    && r.driftCentre == d.driftCentre && r.inputRegister == d.inputRegister
  }

  lemma PassMovesSensor(l: Line, now: nat, drift: bool)
    requires Invariant(l)
    ensures var d, r := l.device, PassLine(l, now, drift).device;
            && (Drifts(d) && drift ==> Drifts(r) && TakesStep(d, r))
            && (!drift || !d.drifting ==> SameSensor(d, r))
  {
    PassKeepsIdentity(l, now, drift);
    forall c: Channel ensures SlotFits(l, c) {
    }
  }

  /** Nobody sets the sensor. */
  ghost predicate NeverSet(es: seq<LineEvent>) { forall e :: e in es && e.FieldEvent? ==> !e.table.InputRegister? }

  lemma EventKeepsSensor(l: Line, e: LineEvent)
    requires !e.PassEvent? && (e.FieldEvent? ==> !e.table.InputRegister?)
    ensures SameSensor(l.device, StepLine(l, e).device)
  {
  }

  // -- The whole gateway ----------------------------------------------------------------------------

  function OffsetOf(sys: System, i: nat): int
  {
    if i < |sys.bus.devices| then sys.bus.devices[i].driftOffset else 0
  }

  /** The time of the last pass in which the sensor of slave i moved; before it has, that of the first pass that is
      not at 0. */
  function LastMove(sys: System, es: seq<Event>, i: nat): nat
  {
    if es == [] then 0
    else
      var prior, e := es[..|es| - 1], es[|es| - 1];
      var last := LastMove(sys, prior, i);
      if e.Tick? && (last == 0 || OffsetOf(Run(sys, es), i) != OffsetOf(Run(sys, prior), i)) then e.now else last
  }

  /** One event: a pass moves the sensor exactly if a second or more has passed since it last moved. */
  ghost predicate MovesEverySecond(d: Device, r: Device, e: Event, last: nat)
  {
    && Drifts(r)
    && if e.Tick? && last != 0 && e.now - last >= 1000 then TakesStep(d, r) else SameSensor(d, r)
  }

  function DriftAfterOne(last: nat, e: Event): nat { if e.Tick? then DriftClock(last, e.now).0 else last }

  lemma LineMoves(l: Line, r: Line, les: seq<LineEvent>, e: Event, last: nat, i: nat)
    requires Invariant(l) && Drifts(l.device) && r == RunLine(l, les) && les == ProjectOne(last, e, i) && NeverSet(les)
    ensures MovesEverySecond(l.device, r.device, e, last)
    ensures DriftAfterOne(last, e) ==
            if e.Tick? && (last == 0 || r.device.driftOffset != l.device.driftOffset) then e.now else last
  {
    hide PassLine, Invariant;
    if les == [] {
    } else {
      RunLineOne(l, les[0]);
      assert les[0] in les && les == [les[0]];
      if e.Tick? {
        PassMovesSensor(l, e.now, DriftClock(last, e.now).1);
      } else {
        EventKeepsSensor(l, les[0]);
      }
    }
  }

  /** Drifting. Let the sensor of slave i drift, and let nobody set it. After every event of any run it is within five
      steps of its centre, and shows it; in a pass it takes a step, turning only at the fifth, if and only if at least
      1000 ms have passed since it last moved, or at first since the first pass; and in no other event. */
  lemma {:induction false} SensorMovesEverySecond(sys: System, es: seq<Event>, i: nat)
    requires Initial(sys) && Monotone(0, es) && i < |sys.slaves|
    requires Drifts(sys.bus.devices[i]) && NeverSet(Project(0, es, i))
    ensures |Run(sys, es).bus.devices| == |sys.slaves| && Drifts(Run(sys, es).bus.devices[i])
    ensures LastMove(sys, es, i) == DriftAfter(0, es)
    ensures es != [] ==>
              var prior := Run(sys, es[..|es| - 1]);
              && |prior.bus.devices| == |sys.slaves|
              && MovesEverySecond(prior.bus.devices[i], Run(sys, es).bus.devices[i], es[|es| - 1],
                                  LastMove(sys, es[..|es| - 1], i))
  {
    LineOfRun(sys, es, i);
    if es == [] {
    } else {
      var prior, e := es[..|es| - 1], es[|es| - 1];
      var before, les := Project(0, prior, i), ProjectOne(DriftAfter(0, prior), e, i);
      assert Project(0, es, i) == before + les;
      assert forall x :: x in before || x in les ==> x in before + les;
      SensorMovesEverySecond(sys, prior, i);
      LastEventOfRun(sys, es, i);
      LineMoves(LineOf(Run(sys, prior), i), LineOf(Run(sys, es), i), les, e, DriftAfter(0, prior), i);
    }
  }

  // -- A sensor that has been set ---------------------------------------------------------------------

  lemma {:induction false} StillSensorStays(l: Line, es: seq<LineEvent>)
    requires Invariant(l) && Ordered(l.now, es) && !l.device.drifting && NeverSet(es)
    ensures SameSensor(l.device, RunLine(l, es).device)
  {
    if es == [] {
    } else {
      var prior, e := es[..|es| - 1], es[|es| - 1];
      assert e in es && forall x :: x in prior ==> x in es;
      StillSensorStays(l, prior);
      RunKeeps(l, prior);
      if e.PassEvent? {
        PassMovesSensor(RunLine(l, prior), e.now, e.drift);
      } else {
        EventKeepsSensor(RunLine(l, prior), e);
      }
    }
  }

  /** A sensor that somebody sets keeps that value, drifting or not, until it is set again. */
  lemma SensorStaysSet(sys: System, es: seq<Event>, word: Word, fs: seq<Event>, i: nat)
    requires Initial(sys) && Monotone(0, es) && Monotone(LastTick(0, es), fs) && i < |sys.slaves|
    requires NeverSet(Project(DriftAfter(0, es), fs, i))
    ensures var r := Run(sys, es + [Field(i, InputRegister, word)] + fs);
            |r.bus.devices| == |sys.slaves| && r.bus.devices[i].inputRegister == word
  {
    hide Run, RunLine, Initial, Project;
    var e, le := Field(i, InputRegister, word), FieldEvent(InputRegister, word);
    AppendEvent(0, 0, es, e, i);
    RunToChange(sys, es, e, i, le);
    ContinuedRun(sys, es + [e], fs, i);
    var changed := LineOf(Run(sys, es + [e]), i);
    assert changed.device == LocalChange(LineOf(Run(sys, es), i).device, InputRegister, word);
    StillSensorStays(changed, Project(DriftAfter(0, es), fs, i));
  }
}
