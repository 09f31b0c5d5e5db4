/** What BACnet clients read and write, against what happened on the foreign bus and what was commanded. Properties
    are given by their numbers: 85 is Present_Value, 87 Priority_Array, 103 Reliability. */
module Served {
  import opened Wrappers
  import opened Registers
  import opened Priority
  import opened ForeignBus
  import opened Gateway
  import opened Runs
  import opened LineInvariant
  import opened Theorems
  import opened Convergence
  import opened Faults
  import opened FaultHistory
  import opened Staleness
  import opened Callbacks
  import opened Modes

  // -- Reading during a run -------------------------------------------------------------------------

  lemma {:induction false} RunKeepsNames(sys: System, es: seq<Event>)
    ensures NamesOf(Run(sys, es).slaves) == NamesOf(sys.slaves) && Run(sys, es).mode == sys.mode
  {
    hide Step;
    if es == [] {
    } else {
      RunKeepsNames(sys, es[..|es| - 1]);
      StepKeepsNames(Run(sys, es[..|es| - 1]), es[|es| - 1]);
    }
  }

  lemma SameNames(a: System, b: System, gateway: nat, p: Place)
    requires NamesOf(a.slaves) == NamesOf(b.slaves) && a.mode == b.mode && p.slave < |a.slaves|
    ensures |b.slaves| == |a.slaves| && NameOf(b, gateway, p) == NameOf(a, gateway, p)
  {
    var i := p.slave;
    assert NamesOf(a.slaves)[i] == SlaveName(a.slaves[i].belief.unitId, a.slaves[i].belief.virtualDevice);
    assert NamesOf(b.slaves)[i] == SlaveName(b.slaves[i].belief.unitId, b.slaves[i].belief.virtualDevice);
  }

  /** In any state of a run, a point is found under its name. */
  lemma PointIsFound(sys: System, es: seq<Event>, gateway: nat, p: Place)
    requires DistinctNames(sys) && p.slave < |sys.slaves| && |Run(sys, es).slaves| == |sys.slaves|
    ensures FindMappedPoint(Run(sys, es), gateway, NameOf(sys, gateway, p)) == Some(p)
  {
    hide Run, FindMappedPoint;
    RunKeepsNames(sys, es);
    SameNames(sys, Run(sys, es), gateway, p);
    NamesDecideDistinct(sys, Run(sys, es));
    NamedPointIsFound(Run(sys, es), gateway, p);
  }

  /** In every run, each of the three points of a slave is served with Reliability no-fault-detected exactly while
      fewer than two timeouts have followed its last answer, and else with communication-failure. */
  lemma ReliabilityFollowsHistory(sys: System, es: seq<Event>, gateway: nat, p: Place, index: Option<nat>)
    requires Initial(sys) && Monotone(0, es) && DistinctNames(sys) && p.slave < |sys.slaves|
    ensures GetEnumerated(Run(sys, es), gateway, NameOf(sys, gateway, p), 103, index) ==
            Some(if Unanswered(History(LineOf(sys, p.slave), Project(0, es, p.slave))) < 2 then 0 else 12)
  {
    hide Run, FindMappedPoint, NameOf, History, Project;
    BeliefFollowsHistory(sys, es, p.slave);
    PointIsFound(sys, es, gateway, p);
  }

  /** A slave whose cable is never pulled is never served with a fault. */
  lemma NoFaultIsServed(sys: System, es: seq<Event>, gateway: nat, p: Place, index: Option<nat>)
    requires Initial(sys) && Monotone(0, es) && DistinctNames(sys) && p.slave < |sys.slaves|
    requires sys.bus.devices[p.slave].online && sys.bus.devices[p.slave].latency <= 300
    requires NeverPulled(Project(0, es, p.slave))
    ensures GetEnumerated(Run(sys, es), gateway, NameOf(sys, gateway, p), 103, index) == Some(0)
  {
    hide Run, FindMappedPoint, NameOf, Project;
    NoFalseFault(sys, es, p.slave, 0);
    PointIsFound(sys, es, gateway, p);
  }

  /** A slave that is cut off is served with a fault, from the time that FaultIsDetected states on. */
  lemma FaultIsServed(sys: System, es: seq<Event>, fs: seq<Event>, gateway: nat, p: Place, index: Option<nat>,
                      delta: nat)
    requires Initial(sys) && Monotone(0, es) && DistinctNames(sys) && p.slave < |sys.slaves| && delta >= 1
    requires |Run(sys, es).slaves| == |sys.slaves| == |Run(sys, es).bus.devices|
    requires !Run(sys, es).bus.devices[p.slave].online && NeverRestored(Project(DriftAfter(0, es), fs, p.slave))
    requires PacedRun(LastTick(0, es), fs, delta)
    requires LastTick(LastTick(0, es), fs) >
             LastTick(0, es) + sys.slaves[p.slave].belief.period
             + Max(sys.slaves[p.slave].belief.period, 300 + delta) + 300 + 2 * delta
    ensures GetEnumerated(Run(sys, es + fs), gateway, NameOf(sys, gateway, p), 103, index) == Some(12)
  {
    hide Run, FindMappedPoint, NameOf, Project;
    FaultIsDetected(sys, es, fs, p.slave, delta);
    PointIsFound(sys, es + fs, gateway, p);
  }

  /** The Present_Value of a slave's Analog Input is what its sensor register held, decoded, in a pass as recent as
      CacheIsRecent states. */
  lemma ServedTemperatureIsRecent(sys: System, es: seq<Event>, fs: seq<Event>, gateway: nat, i: nat,
                                  index: Option<nat>, delta: nat)
    requires Initial(sys) && Monotone(0, es) && DistinctNames(sys) && i < |sys.slaves| && delta >= 1
    requires |Run(sys, es).slaves| == |sys.slaves| == |Run(sys, es).bus.devices|
    requires Run(sys, es).bus.devices[i].online && Run(sys, es).bus.devices[i].latency <= 300
    requires PacedRun(LastTick(0, es), fs, delta) && NeverPulled(Project(DriftAfter(0, es), fs, i))
    requires Answered(LineOf(Run(sys, es), i), Project(DriftAfter(0, es), fs, i))
    ensures exists j :: 1 <= j <= |fs| && fs[j - 1].Tick?
              && Run(sys, es + fs).bus.now <=
                 fs[j - 1].now + Max(sys.slaves[i].belief.period, Run(sys, es).bus.devices[i].latency) + delta
              && |Run(sys, es + fs[..j]).bus.devices| == |sys.slaves|
              && GetReal(Run(sys, es + fs), gateway, NameOf(sys, gateway, Place(i, PollChannel)), 85, index) ==
                 Some(Decode(Run(sys, es + fs[..j]).bus.devices[i].inputRegister))
  {
    hide Run, FindMappedPoint, NameOf, Project, Answered;
    CacheIsRecent(sys, es, fs, i, delta);
    PointIsFound(sys, es + fs, gateway, Place(i, PollChannel));
  }

  /** What never changes: Out_Of_Service (81) is false, inputs and setpoints are in degrees Celsius (117: 62), enables
      have normal polarity (84: 0), and Relinquish_Default (104) is the output's own. */
  lemma FixedPropertiesAreServed(sys: System, gateway: nat, p: Place, index: Option<nat>)
    requires DistinctNames(sys) && p.slave < |sys.slaves|
    ensures var name, b := NameOf(sys, gateway, p), sys.slaves[p.slave].belief;
            && GetBool(sys, gateway, name, 81, index) == Some(false)
            && GetEnumerated(sys, gateway, name, 117, index) == (if p.kind.EnableChannel? then None else Some(62))
            && GetEnumerated(sys, gateway, name, 84, index) == (if p.kind.EnableChannel? then Some(0) else None)
            && GetReal(sys, gateway, name, 104, index) ==
               (if p.kind.SetpointChannel? then Some(b.setpoint.relinquishDefault) else None)
            && (p.kind.EnableChannel? && b.enable.relinquishDefault in {0.0, 1.0} ==>
                  GetEnumerated(sys, gateway, name, 104, index) ==
                  Some(if b.enable.relinquishDefault == 1.0 then 1 else 0))
  {
    hide FindMappedPoint, NameOf, DistinctNames;
    NamedPointIsFound(sys, gateway, p);
  }

  /** A name of no mapped point serves nothing, but that the gateway's Network Port (56) is in BACnet/IP mode normal
      (408: 0) and not out of service. */
  lemma OtherNamesServeNothing(sys: System, gateway: nat, name: Name, property: nat, index: Option<nat>)
    requires DistinctNames(sys) && forall p: Place :: p.slave < |sys.slaves| ==> name != NameOf(sys, gateway, p)
    ensures var port := name.device == gateway && name.objectType == 56;
            && GetReal(sys, gateway, name, property, index) == None
            && GetEnumerated(sys, gateway, name, property, index) ==
               (if port && name.instance == 1 && property == 408 then Some(0) else None)
            && GetBool(sys, gateway, name, property, index) == (if port && property == 81 then Some(false) else None)
  {
    hide FindMappedPoint, NameOf, DistinctNames;
    var p := FindMappedPoint(sys, gateway, name);
    if p.Some? {
      NamesAndPointsCorrespond(sys, gateway, name, p.value);
    }
  }
}
