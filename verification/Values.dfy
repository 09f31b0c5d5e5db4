/** Which values can ever be commanded, and what the field devices can ever hold. */
module Values {
  import opened Wrappers
  import opened Registers
  import opened Priority
  import opened ForeignBus
  import opened Gateway
  import opened Runs
  import opened WriteThrough
  import opened Callbacks
  import opened Modes

  /** A value the output's register can hold without wrapping around. */
  predicate InRange(o: Output, v: real)
  {
    if o.SetpointChannel? then -3276.85 < v < 3276.75 else v == 0.0 || v == 1.0
  }

  ghost predicate CommandInRange(o: Output, c: Command)
  {
    InRange(o, c.relinquishDefault) && forall k :: 0 <= k < SLOTS && c.isSet[k] ==> InRange(o, c.value[k])
  }

  ghost predicate BeliefInRange(b: Belief)
  {
    CommandInRange(SetpointChannel, b.setpoint) && CommandInRange(EnableChannel, b.enable)
  }

  ghost predicate CommandsInRange(sys: System)
  {
    forall i :: 0 <= i < |sys.slaves| ==> BeliefInRange(sys.slaves[i].belief)
  }

  lemma {:induction false} WinnerIsInRange(o: Output, c: Command, slot: nat)
    requires CommandInRange(o, c) && slot <= SLOTS
    ensures InRange(o, WinnerFrom(c, slot))
    decreases SLOTS - slot
  {
    if slot == SLOTS || c.isSet[slot] {
    } else {
      WinnerIsInRange(o, c, slot + 1);
    }
  }

  /** A coil is a bit. */
  ghost predicate CoilsAreBits(bus: Bus) { forall i :: 0 <= i < |bus.devices| ==> bus.devices[i].coil <= 1 }

  // -- What a pass keeps -----------------------------------------------------------------------------

  lemma {:induction false} ResolveAllKeepsBits(bus: Bus, ids: set<Id>, now: nat)
    requires ids <= bus.transactions.Keys && CoilsAreBits(bus)
    ensures CoilsAreBits(ResolveAll(bus, ids, now))
    decreases |ids|
  {
    if ids == {} {
    } else {
      var m := FirstId(ids);
      ResolveAllKeepsBits(Resolve(bus, m, now), ids - {m}, now);
    }
  }

  lemma PollKeepsValues(mode: Mode, bus: Bus, s: Slave, now: nat)
    ensures var (bus', s') := PollStep(mode, bus, s, now);
            bus'.devices == bus.devices
            && s'.belief.setpoint == s.belief.setpoint && s'.belief.enable == s.belief.enable
  {
  }

  lemma LinkKeepsValues(bus: Bus, s: Slave, o: Output, now: nat)
    ensures var (bus', s') := LinkStep(bus, s, o, now);
            bus'.devices == bus.devices
            && s'.belief.setpoint == s.belief.setpoint && s'.belief.enable == s.belief.enable
  {
  }

  lemma PartsKeepValues(mode: Mode, bus: Bus, s: Slave, now: nat)
    ensures var (bus', s') := ServeParts(mode, bus, s, now);
            bus'.devices == bus.devices
            && s'.belief.setpoint == s.belief.setpoint && s'.belief.enable == s.belief.enable
  {
    PollKeepsValues(mode, bus, s, now);
    var (bus1, s1) := PollStep(mode, bus, s, now);
    LinkKeepsValues(bus1, s1, SetpointChannel, now);
    var (bus2, s2) := LinkStep(bus1, s1, SetpointChannel, now);
    LinkKeepsValues(bus2, s2, EnableChannel, now);
  }

  lemma {:induction false} ServeUpToKeepsValues(sys: System, k: nat, now: nat)
    requires k <= |sys.slaves| && CommandsInRange(sys) && CoilsAreBits(sys.bus)
    ensures CommandsInRange(ServeUpTo(sys, k, now)) && CoilsAreBits(ServeUpTo(sys, k, now).bus)
  {
    hide PollStep, LinkStep, ServeParts, ServeSlave;
    if k == 0 {
    } else {
      ServeUpToKeepsValues(sys, k - 1, now);
      var x := ServeUpTo(sys, k - 1, now);
      ServeSlaveIsServeParts(x, k - 1, now);
      PartsKeepValues(x.mode, x.bus, x.slaves[k - 1], now);
    }
  }

  lemma TickKeepsValues(sys: System, now: nat)
    requires CommandsInRange(sys) && CoilsAreBits(sys.bus)
    ensures CommandsInRange(Pass(sys, now)) && CoilsAreBits(Pass(sys, now).bus)
  {
    ResolveAllKeepsBits(Advance(sys.bus, now), sys.bus.transactions.Keys, now);
    ServeUpToKeepsValues(sys.(bus := Serviced(sys.bus, now)), |sys.slaves|, now);
  }

  lemma CommandKeepsValues(sys: System, i: nat, o: Output, priority: Octet, v: real)
    requires CommandsInRange(sys) && InRange(o, v)
    ensures CommandsInRange(Step(sys, Runs.Command(i, o, priority, v)))
  {
    if i < |sys.slaves| {
      var b := sys.slaves[i].belief;
      assert BeliefInRange(b);
      assert CommandInRange(o, Write(b.CommandOf(o), priority, v));
    }
  }

  lemma StepKeepsValues(sys: System, e: Event)
    requires CommandsInRange(sys) && CoilsAreBits(sys.bus) && !e.Command?
    ensures CommandsInRange(Step(sys, e)) && CoilsAreBits(Step(sys, e).bus)
  {
    match e
    case Tick(now) => TickKeepsValues(sys, now);
    case Release(i, o, priority) =>
      if i < |sys.slaves| {
        assert BeliefInRange(sys.slaves[i].belief);
        assert CommandInRange(o, Relinquish(sys.slaves[i].belief.CommandOf(o), priority));
      }
    case _ =>
  }

  lemma CallKeepsValues(sys: System, gateway: nat, c: Call)
    requires CommandsInRange(sys) && CoilsAreBits(sys.bus) && !(c.Happens? && c.event.Command?)
    ensures CommandsInRange(Do(sys, gateway, c).0) && CoilsAreBits(Do(sys, gateway, c).0.bus)
  {
    hide FindMappedPoint;
    if c.Happens? {
      StepKeepsValues(sys, c.event);
    } else if Names(sys, c) {
      var q := FindMappedPoint(sys, gateway, NameOf(sys, gateway, c.p));
      if q.Some? {
        match c
        case WriteReal(p, property, v, priority) =>
          if SetpointAccepted(v) {
            AcceptedIsInRange(v);
            CommandKeepsValues(sys, q.value.slave, SetpointChannel, priority, v.r);
          }
        case WriteEnumerated(p, property, e, priority) =>
          if e <= 1 { CommandKeepsValues(sys, q.value.slave, EnableChannel, priority, e as real); }
        case WriteNull(p, property, priority) =>
          if !q.value.kind.PollChannel? { StepKeepsValues(sys, Release(q.value.slave, q.value.kind, priority)); }
        case _ =>
      }
    }
  }

  lemma {:induction false} RunKeepsValues(sys: System, gateway: nat, cs: seq<Call>)
    requires CommandsInRange(sys) && CoilsAreBits(sys.bus)
    requires forall c :: c in cs ==> !(c.Happens? && c.event.Command?)
    ensures CommandsInRange(DoAll(sys, gateway, cs).0) && CoilsAreBits(DoAll(sys, gateway, cs).0.bus)
  {
    if cs == [] {
    } else {
      var prior := cs[..|cs| - 1];
      assert cs[|cs| - 1] in cs && forall c :: c in prior ==> c in cs;
      RunKeepsValues(sys, gateway, prior);
      CallKeepsValues(DoAll(sys, gateway, prior).0, gateway, cs[|cs| - 1]);
    }
  }

  lemma InitialValuesFit(sys: System)
    requires Initial(sys)
    ensures CommandsInRange(sys)
  {
    forall k | 0 <= k < |sys.slaves| ensures BeliefInRange(sys.slaves[k].belief) {
      assert InitialSlave(sys.slaves[k]);
    }
  }

  /** Whatever clients write - any REAL including NaN and the infinities, any enumerated value, at any priority
      octet - and whatever else happens: every winning setpoint survives scaling, rounding and the 16-bit cast
      without wrapping, and reads back within half a tenth of a degree; every winning enable is 0 or 1 and reaches
      the coil as it is; and the coils only ever hold 0 or 1. */
  lemma ReachableValuesFit(sys: System, gateway: nat, cs: seq<Call>, i: nat)
    requires Initial(sys) && CoilsAreBits(sys.bus)
    requires forall c :: c in cs ==> !(c.Happens? && c.event.Command?)
    requires i < |DoAll(sys, gateway, cs).0.slaves|
    ensures var b := DoAll(sys, gateway, cs).0.slaves[i].belief;
            var s, e := b.Winning(SetpointChannel), b.Winning(EnableChannel);
            && Signed(Stored(SetpointChannel, s)) == Scaled(s, 10.0)
            && -0.05 <= Decode(Stored(SetpointChannel, s)) - s <= 0.05
            && Stored(EnableChannel, e) <= 1 && Stored(EnableChannel, e) as real == e
    ensures forall k :: 0 <= k < |DoAll(sys, gateway, cs).0.bus.devices| ==>
              DoAll(sys, gateway, cs).0.bus.devices[k].coil <= 1
  {
    InitialValuesFit(sys);
    RunKeepsValues(sys, gateway, cs);
    var b := DoAll(sys, gateway, cs).0.slaves[i].belief;
    assert BeliefInRange(b);
    WinnerIsInRange(SetpointChannel, b.setpoint, 0);
    WinnerIsInRange(EnableChannel, b.enable, 0);
    NoWrapIffInRange(b.Winning(SetpointChannel));
    EncodeThenDecode(b.Winning(SetpointChannel));
    CoilRoundTrip(b.Winning(EnableChannel));
  }

  // -- The priority array as it is served --------------------------------------------------------------

  /** One element of a priority array as the callbacks serve it: whether it is NULL, and if not, its value. */
  function ServedSlot(sys: System, gateway: nat, name: Name, kind: Output, k: nat): Option<real>
  {
    if GetBool(sys, gateway, name, PRIORITY_ARRAY, Some(k)) != Some(false) then None
    else if kind.SetpointChannel? then GetReal(sys, gateway, name, PRIORITY_ARRAY, Some(k))
    else match GetEnumerated(sys, gateway, name, PRIORITY_ARRAY, Some(k))
      case Some(e) => Some(e as real)
      case None => None
  }

  function ServedDefault(sys: System, gateway: nat, name: Name, kind: Output): Option<real>
  {
    if kind.SetpointChannel? then GetReal(sys, gateway, name, RELINQUISH_DEFAULT, None)
    else match GetEnumerated(sys, gateway, name, RELINQUISH_DEFAULT, None)
      case Some(e) => Some(e as real)
      case None => None
  }

  /** Present_Value as the BACnet side resolves it: the first element that is not NULL, else the default. */
  function ServedWinner(sys: System, gateway: nat, name: Name, kind: Output, k: nat): Option<real>
    requires 1 <= k <= SLOTS + 1
    decreases SLOTS + 1 - k
  {
    if k > SLOTS then ServedDefault(sys, gateway, name, kind)
    else
      var slot := ServedSlot(sys, gateway, name, kind, k);
      if slot.Some? then slot else ServedWinner(sys, gateway, name, kind, k + 1)
  }

  lemma SlotIsServed(sys: System, gateway: nat, name: Name, p: Place, k: nat)
    requires FindMappedPoint(sys, gateway, name) == Some(p) && p.slave < |sys.slaves| && !p.kind.PollChannel?
    requires 1 <= k <= SLOTS && CommandInRange(p.kind, sys.slaves[p.slave].belief.CommandOf(p.kind))
    ensures var c := sys.slaves[p.slave].belief.CommandOf(p.kind);
            ServedSlot(sys, gateway, name, p.kind, k) == if c.isSet[k - 1] then Some(c.value[k - 1]) else None
  {
    hide FindMappedPoint;
  }

  lemma DefaultIsServed(sys: System, gateway: nat, name: Name, p: Place)
    requires FindMappedPoint(sys, gateway, name) == Some(p) && p.slave < |sys.slaves| && !p.kind.PollChannel?
    requires CommandInRange(p.kind, sys.slaves[p.slave].belief.CommandOf(p.kind))
    ensures ServedDefault(sys, gateway, name, p.kind) ==
            Some(sys.slaves[p.slave].belief.CommandOf(p.kind).relinquishDefault)
  {
    hide FindMappedPoint;
  }

  lemma {:induction false} ServedFromSlot(sys: System, gateway: nat, p: Place, k: nat)
    requires DistinctNames(sys) && p.slave < |sys.slaves| && !p.kind.PollChannel? && 1 <= k <= SLOTS + 1
    requires CommandInRange(p.kind, sys.slaves[p.slave].belief.CommandOf(p.kind))
    ensures ServedWinner(sys, gateway, NameOf(sys, gateway, p), p.kind, k) ==
            Some(WinnerFrom(sys.slaves[p.slave].belief.CommandOf(p.kind), k - 1))
    decreases SLOTS + 1 - k
  {
    hide FindMappedPoint, NameOf, DistinctNames, CommandInRange, ServedSlot, ServedDefault;
    NamedPointIsFound(sys, gateway, p);
    if k > SLOTS {
      DefaultIsServed(sys, gateway, NameOf(sys, gateway, p), p);
    } else {
      SlotIsServed(sys, gateway, NameOf(sys, gateway, p), p, k);
      ServedFromSlot(sys, gateway, p, k + 1);
    }
  }

  lemma {:induction false} RunKeepsNames(sys: System, gateway: nat, cs: seq<Call>)
    ensures NamesOf(DoAll(sys, gateway, cs).0.slaves) == NamesOf(sys.slaves)
  {
    if cs == [] {
    } else {
      RunKeepsNames(sys, gateway, cs[..|cs| - 1]);
      CallKeepsNames(DoAll(sys, gateway, cs[..|cs| - 1]).0, gateway, cs[|cs| - 1]);
    }
  }

  /** What a BACnet client sees as the present value is what the gateway writes to the slave, whatever has been
      called and has happened before. */
  lemma ServedWinnerIsWinner(sys: System, gateway: nat, cs: seq<Call>, p: Place)
    requires Initial(sys) && CoilsAreBits(sys.bus) && DistinctNames(sys)
    requires forall c :: c in cs ==> !(c.Happens? && c.event.Command?)
    requires p.slave < |DoAll(sys, gateway, cs).0.slaves| && !p.kind.PollChannel?
    ensures var r := DoAll(sys, gateway, cs).0;
            ServedWinner(r, gateway, NameOf(r, gateway, p), p.kind, 1) ==
            Some(r.slaves[p.slave].belief.Winning(p.kind))
  {
    InitialValuesFit(sys);
    RunKeepsValues(sys, gateway, cs);
    RunKeepsNames(sys, gateway, cs);
    var r := DoAll(sys, gateway, cs).0;
    NamesDecideDistinct(sys, r);
    assert BeliefInRange(r.slaves[p.slave].belief);
    ServedFromSlot(r, gateway, p, 1);
  }
}
