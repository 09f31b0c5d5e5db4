/** Runs of the whole gateway with its bus, and their projection to one slave. */
module Runs {
  import opened Wrappers
  import opened Registers
  import opened ForeignBus
  import opened Gateway
  import opened Line

  /** What can happen: a pass, a client commanding or relinquishing an output of a slave, somebody pulling or
      restoring the slave's cable, and the field device changing one of its own points. */
  datatype Event =
    | Tick(now: nat)
    | Command(slave: nat, output: Output, priority: Octet, v: real)
    | Release(slave: nat, output: Output, priority: Octet)
    | Cable(slave: nat, online: bool)
    | Field(slave: nat, table: Table, word: Word)

  function WithBelief(sys: System, i: nat, b: Belief): System
    requires i < |sys.slaves|
  {
    sys.(slaves := sys.slaves[i := sys.slaves[i].(belief := b)])
  }

  function Step(sys: System, e: Event): System
  {
    match e
    case Tick(now) => Pass(sys, now)
    case Command(i, o, priority, v) =>
      if i < |sys.slaves| then WithBelief(sys, i, Commanded(sys.slaves[i].belief, o, priority, v)) else sys
    case Release(i, o, priority) =>
      if i < |sys.slaves| then WithBelief(sys, i, Released(sys.slaves[i].belief, o, priority)) else sys
    case Cable(i, online) =>
      if i < |sys.slaves| then sys.(bus := SetOnline(sys.bus, sys.slaves[i].belief.unitId, online)) else sys
    case Field(i, table, word) =>
      if i < |sys.slaves| then sys.(bus := SetPoint(sys.bus, sys.slaves[i].belief.unitId, table, 0, word)) else sys
  }

  function Run(sys: System, es: seq<Event>): System
  {
    if es == [] then sys else Step(Run(sys, es[..|es| - 1]), es[|es| - 1])
  }

  function LastTick(start: nat, es: seq<Event>): nat
  {
    if es == [] then start
    else if es[|es| - 1].Tick? then es[|es| - 1].now
    else LastTick(start, es[..|es| - 1])
  }

  /** The clock is monotone. */
  predicate Monotone(start: nat, es: seq<Event>)
  {
    es == [] ||
    (var prior := es[..|es| - 1];
     Monotone(start, prior) &&
     (es[|es| - 1].Tick? ==> LastTick(start, prior) <= es[|es| - 1].now))
  }

  function SlotAt(bus: Bus, id: Id): Slot
  {
    if id in bus.transactions then Some(bus.transactions[id]) else None
  }

  /** Slave i of the system, with the transaction ids replaced by the transactions they stand for. */
  function LineOf(sys: System, i: nat): Line
    requires i < |sys.slaves| && i < |sys.bus.devices|
  {
    var s := sys.slaves[i];
    Line(sys.mode, sys.bus.devices[i], s.belief,
         SlotAt(sys.bus, s.pollId), SlotAt(sys.bus, s.setpointId), SlotAt(sys.bus, s.enableId), sys.bus.now)
  }

  function DriftAfter(lastDriftAt: nat, es: seq<Event>): nat
  {
    if es == [] then lastDriftAt
    else
      var last := DriftAfter(lastDriftAt, es[..|es| - 1]);
      if es[|es| - 1].Tick? then DriftClock(last, es[|es| - 1].now).0 else last
  }

  function ProjectOne(lastDriftAt: nat, e: Event, i: nat): seq<LineEvent>
  {
    match e
    case Tick(now) => [PassEvent(now, DriftClock(lastDriftAt, now).1)]
    case Command(j, o, priority, v) => if i == j then [CommandEvent(o, priority, v)] else []
    case Release(j, o, priority) => if i == j then [ReleaseEvent(o, priority)] else []
    case Cable(j, online) => if i == j then [CableEvent(online)] else []
    case Field(j, table, word) => if i == j then [FieldEvent(table, word)] else []
  }

  /** What slave i can notice of a run: the passes, and what is addressed to it. */
  function Project(lastDriftAt: nat, es: seq<Event>, i: nat): seq<LineEvent>
  {
    if es == [] then []
    else
      var prior := es[..|es| - 1];
      Project(lastDriftAt, prior, i) + ProjectOne(DriftAfter(lastDriftAt, prior), es[|es| - 1], i)
  }

  /** The state of the tables at start-up: every gateway record names the device at the same place, unit ids
      are distinct octets and every device takes some time to answer. */
  predicate Tables(sys: System)
  {
    && |sys.bus.devices| == |sys.slaves| <= 256
    && (forall i :: 0 <= i < |sys.slaves| ==> sys.slaves[i].belief.unitId == sys.bus.devices[i].unitId)
    && (forall i, j :: 0 <= i < j < |sys.slaves| ==> sys.bus.devices[i].unitId != sys.bus.devices[j].unitId)
    && (forall i :: 0 <= i < |sys.slaves| ==> 1 <= sys.bus.devices[i].latency)
  }

  predicate InitialSlave(s: Slave)
  {
    var b := s.belief;
    && s == Slave(FreshBelief(b.unitId, b.period, b.virtualDevice, b.setpoint.relinquishDefault,
                              b.enable.relinquishDefault), 0, 0, 0)
    && -3276.85 < b.setpoint.relinquishDefault < 3276.75
    && (b.enable.relinquishDefault == 0.0 || b.enable.relinquishDefault == 1.0)
  }

  predicate Initial(sys: System)
  {
    && Tables(sys)
    && sys.bus.transactions == map[] && sys.bus.nextId == 1 && sys.bus.now == 0 && sys.bus.lastDriftAt == 0
    && (forall i :: 0 <= i < |sys.slaves| ==> InitialSlave(sys.slaves[i]))
  }
}
