/** The two modes are the same gateway under two naming schemes: translate the names, and every run of property
    callbacks, passes and events of the field gives equal replies and equal slaves. Only the announcements of the
    virtual devices differ. */
module Modes {
  import opened Wrappers
  import opened Registers
  import opened ForeignBus
  import opened Gateway
  import opened Runs
  import opened Callbacks

  function Unannounced(s: Slave): Slave { s.(belief := s.belief.(discoverable := true, iAms := 0)) }

  ghost predicate Alike(a: System, b: System)
  {
    && a.bus == b.bus && |a.slaves| == |b.slaves|
    && forall i :: 0 <= i < |a.slaves| ==> Unannounced(a.slaves[i]) == Unannounced(b.slaves[i])
  }

  // -- Passes ----------------------------------------------------------------------------------------

  lemma AfterPollAlike(m: Mode, n: Mode, s: Slave, t: Slave, outcome: Outcome, value: Word)
    requires Unannounced(s) == Unannounced(t)
    ensures Unannounced(s.(pollId := 0, belief := AfterPoll(m, s.belief, outcome, value))) ==
            Unannounced(t.(pollId := 0, belief := AfterPoll(n, t.belief, outcome, value)))
  {
    hide Decode;
  }

  lemma PollStepsAlike(m: Mode, n: Mode, bus: Bus, s: Slave, t: Slave, now: nat)
    requires Unannounced(s) == Unannounced(t)
    ensures PollStep(m, bus, s, now).0 == PollStep(n, bus, t, now).0
    ensures Unannounced(PollStep(m, bus, s, now).1) == Unannounced(PollStep(n, bus, t, now).1)
  {
    hide Issue, Check, AfterPoll;
    if s.pollId != 0 {
      AfterPollAlike(m, n, s, t, Check(bus, s.pollId).1, Check(bus, s.pollId).2);
    }
  }

  lemma WritesAlike(bus: Bus, s: Slave, t: Slave, o: Output, now: nat)
    requires Unannounced(s) == Unannounced(t)
    ensures WriteIfWanted(bus, s, o, now).0 == WriteIfWanted(bus, t, o, now).0
    ensures Unannounced(WriteIfWanted(bus, s, o, now).1) == Unannounced(WriteIfWanted(bus, t, o, now).1)
  {
    assert s.belief.LinkOf(o) == t.belief.LinkOf(o) && s.belief.CommandOf(o) == t.belief.CommandOf(o);
  }

  lemma LinkStepsAlike(bus: Bus, s: Slave, t: Slave, o: Output, now: nat)
    requires Unannounced(s) == Unannounced(t)
    ensures LinkStep(bus, s, o, now).0 == LinkStep(bus, t, o, now).0
    ensures Unannounced(LinkStep(bus, s, o, now).1) == Unannounced(LinkStep(bus, t, o, now).1)
  {
    assert s.IdOf(o) == t.IdOf(o) && s.belief.LinkOf(o) == t.belief.LinkOf(o) && s.belief.period == t.belief.period;
    if s.IdOf(o) == 0 {
      WritesAlike(bus, s, t, o, now);
    } else {
      var (bus', outcome, _) := Check(bus, s.IdOf(o));
      if !outcome.Pending? {
        var l := AfterWrite(s.belief.LinkOf(o), outcome, now, s.belief.period);
        WritesAlike(bus', s.(belief := s.belief.WithLink(o, l)).WithId(o, 0),
                    t.(belief := t.belief.WithLink(o, l)).WithId(o, 0), o, now);
      }
    }
  }

  lemma ServePartsAlike(m: Mode, n: Mode, bus: Bus, s: Slave, t: Slave, now: nat)
    requires Unannounced(s) == Unannounced(t)
    ensures ServeParts(m, bus, s, now).0 == ServeParts(n, bus, t, now).0
    ensures Unannounced(ServeParts(m, bus, s, now).1) == Unannounced(ServeParts(n, bus, t, now).1)
  {
    PollStepsAlike(m, n, bus, s, t, now);
    var (bus1, s1) := PollStep(m, bus, s, now);
    var (_, t1) := PollStep(n, bus, t, now);
    LinkStepsAlike(bus1, s1, t1, SetpointChannel, now);
    var (bus2, s2) := LinkStep(bus1, s1, SetpointChannel, now);
    var (_, t2) := LinkStep(bus1, t1, SetpointChannel, now);
    LinkStepsAlike(bus2, s2, t2, EnableChannel, now);
  }

  lemma {:induction false} ServeUpToAlike(a: System, b: System, k: nat, now: nat)
    requires Alike(a, b) && k <= |a.slaves|
    ensures Alike(ServeUpTo(a, k, now), ServeUpTo(b, k, now))
  {
    hide ServeParts, ServeSlave, Unannounced;
    if k == 0 {
    } else {
      ServeUpToAlike(a, b, k - 1, now);
      var x, y := ServeUpTo(a, k - 1, now), ServeUpTo(b, k - 1, now);
      ServeSlaveIsServeParts(x, k - 1, now);
      ServeSlaveIsServeParts(y, k - 1, now);
      ServePartsAlike(x.mode, y.mode, x.bus, x.slaves[k - 1], y.slaves[k - 1], now);
    }
  }

  lemma StepsAlike(a: System, b: System, e: Event)
    requires Alike(a, b)
    ensures Alike(Step(a, e), Step(b, e))
  {
    match e
    case Tick(now) =>
      ServeUpToAlike(a.(bus := Serviced(a.bus, now)), b.(bus := Serviced(b.bus, now)), |a.slaves|, now);
    case Command(i, o, priority, v) =>
      if i < |a.slaves| {
        assert a.slaves[i].belief.CommandOf(o) == b.slaves[i].belief.CommandOf(o) by {
          assert Unannounced(a.slaves[i]) == Unannounced(b.slaves[i]);
        }
      }
    case Release(i, o, priority) =>
      if i < |a.slaves| {
        assert a.slaves[i].belief.CommandOf(o) == b.slaves[i].belief.CommandOf(o) by {
          assert Unannounced(a.slaves[i]) == Unannounced(b.slaves[i]);
        }
      }
    case Cable(i, online) => assert i < |a.slaves| ==> Unannounced(a.slaves[i]) == Unannounced(b.slaves[i]);
    case Field(i, table, word) => assert i < |a.slaves| ==> Unannounced(a.slaves[i]) == Unannounced(b.slaves[i]);
  }

  // -- Property callbacks --------------------------------------------------------------------------------

  /** A call of a property callback for a mapped point, or anything else that can happen. */
  datatype Call =
    | ReadReal(p: Place, property: nat, index: Option<nat>)
    | ReadEnumerated(p: Place, property: nat, index: Option<nat>)
    | ReadBool(p: Place, property: nat, index: Option<nat>)
    | WriteReal(p: Place, property: nat, v: Real, priority: Octet)
    | WriteEnumerated(p: Place, property: nat, e: nat, priority: Octet)
    | WriteNull(p: Place, property: nat, priority: Octet)
    | Happens(event: Event)

  datatype Reply = RealReply(r: Option<real>) | EnumeratedReply(e: Option<int>)
    | BoolReply(b: Option<bool>) | WriteReply(a: Answer) | NoReply

  predicate Names(sys: System, c: Call) { !c.Happens? ==> c.p.slave < |sys.slaves| }

  /** The call, made under the point's name in the mode of this gateway. */
  function Do(sys: System, gateway: nat, c: Call): (System, Reply)
  {
    if !Names(sys, c) then (sys, NoReply) else
    match c
    case ReadReal(p, property, index) =>
      (sys, RealReply(GetReal(sys, gateway, NameOf(sys, gateway, p), property, index)))
    case ReadEnumerated(p, property, index) =>
      (sys, EnumeratedReply(GetEnumerated(sys, gateway, NameOf(sys, gateway, p), property, index)))
    case ReadBool(p, property, index) =>
      (sys, BoolReply(GetBool(sys, gateway, NameOf(sys, gateway, p), property, index)))
    case WriteReal(p, property, v, priority) =>
      var (r, a) := SetReal(sys, gateway, NameOf(sys, gateway, p), property, v, priority); (r, WriteReply(a))
    case WriteEnumerated(p, property, e, priority) =>
      var (r, a) := SetEnumerated(sys, gateway, NameOf(sys, gateway, p), property, e, priority); (r, WriteReply(a))
    case WriteNull(p, property, priority) =>
      var (r, a) := SetNull(sys, gateway, NameOf(sys, gateway, p), property, priority); (r, WriteReply(a))
    case Happens(event) => (Step(sys, event), NoReply)
  }

  lemma NamedPointIsFound(sys: System, gateway: nat, p: Place)
    requires DistinctNames(sys) && p.slave < |sys.slaves|
    ensures FindMappedPoint(sys, gateway, NameOf(sys, gateway, p)) == Some(p)
  {
    NamesAndPointsCorrespond(sys, gateway, NameOf(sys, gateway, p), p);
  }

  lemma CallsAlike(a: System, ga: nat, b: System, gb: nat, c: Call)
    requires Alike(a, b) && DistinctNames(a) && DistinctNames(b)
    ensures Do(a, ga, c).1 == Do(b, gb, c).1 && Alike(Do(a, ga, c).0, Do(b, gb, c).0)
  {
    hide FindMappedPoint, NameOf, DistinctNames;
    if c.Happens? {
      StepsAlike(a, b, c.event);
    } else if Names(a, c) {
      NamedPointIsFound(a, ga, c.p);
      NamedPointIsFound(b, gb, c.p);
      assert Unannounced(a.slaves[c.p.slave]) == Unannounced(b.slaves[c.p.slave]);
      match c
      case WriteReal(p, property, v, priority) =>
        if SetpointAccepted(v) { StepsAlike(a, b, Runs.Command(p.slave, SetpointChannel, priority, v.r)); }
      case WriteEnumerated(p, property, e, priority) =>
        StepsAlike(a, b, Runs.Command(p.slave, EnableChannel, priority, e as real));
      case WriteNull(p, property, priority) =>
        if !p.kind.PollChannel? { StepsAlike(a, b, Release(p.slave, p.kind, priority)); }
      case _ =>
    }
  }

  lemma PollKeepsName(mode: Mode, bus: Bus, s: Slave, now: nat)
    ensures var b := PollStep(mode, bus, s, now).1.belief;
            b.unitId == s.belief.unitId && b.virtualDevice == s.belief.virtualDevice
  {
  }

  lemma LinkKeepsName(bus: Bus, s: Slave, o: Output, now: nat)
    ensures var b := LinkStep(bus, s, o, now).1.belief;
            b.unitId == s.belief.unitId && b.virtualDevice == s.belief.virtualDevice
  {
  }

  lemma PartsKeepNames(mode: Mode, bus: Bus, s: Slave, now: nat)
    ensures var b := ServeParts(mode, bus, s, now).1.belief;
            b.unitId == s.belief.unitId && b.virtualDevice == s.belief.virtualDevice
  {
    PollKeepsName(mode, bus, s, now);
    var (bus1, s1) := PollStep(mode, bus, s, now);
    LinkKeepsName(bus1, s1, SetpointChannel, now);
    var (bus2, s2) := LinkStep(bus1, s1, SetpointChannel, now);
    LinkKeepsName(bus2, s2, EnableChannel, now);
  }

  lemma {:induction false} ServeUpToKeepsNames(sys: System, k: nat, now: nat)
    requires k <= |sys.slaves|
    ensures NamesOf(ServeUpTo(sys, k, now).slaves) == NamesOf(sys.slaves)
  {
    if k == 0 {
    } else {
      ServeUpToKeepsNames(sys, k - 1, now);
      var x := ServeUpTo(sys, k - 1, now);
      ServeSlaveIsServeParts(x, k - 1, now);
      PartsKeepNames(x.mode, x.bus, x.slaves[k - 1], now);
    }
  }

  lemma {:induction false} ServeUpToKeepsMode(sys: System, k: nat, now: nat)
    requires k <= |sys.slaves|
    ensures ServeUpTo(sys, k, now).mode == sys.mode
  {
    if k == 0 {
    } else {
      ServeUpToKeepsMode(sys, k - 1, now);
      ServeSlaveIsServeParts(ServeUpTo(sys, k - 1, now), k - 1, now);
    }
  }

  lemma StepKeepsNames(sys: System, e: Event)
    ensures NamesOf(Step(sys, e).slaves) == NamesOf(sys.slaves) && Step(sys, e).mode == sys.mode
  {
    if e.Tick? {
      ServeUpToKeepsNames(sys.(bus := Serviced(sys.bus, e.now)), |sys.slaves|, e.now);
      ServeUpToKeepsMode(sys.(bus := Serviced(sys.bus, e.now)), |sys.slaves|, e.now);
    }
  }

  lemma NamesDecideDistinct(a: System, b: System)
    requires NamesOf(a.slaves) == NamesOf(b.slaves) && DistinctNames(a)
    ensures DistinctNames(b)
  {
    assert |a.slaves| == |b.slaves|;
    forall i | 0 <= i < |a.slaves|
      ensures a.slaves[i].belief.unitId == b.slaves[i].belief.unitId
      ensures a.slaves[i].belief.virtualDevice == b.slaves[i].belief.virtualDevice
    {
      assert NamesOf(a.slaves)[i] == SlaveName(a.slaves[i].belief.unitId, a.slaves[i].belief.virtualDevice);
      assert NamesOf(b.slaves)[i] == SlaveName(b.slaves[i].belief.unitId, b.slaves[i].belief.virtualDevice);
    }
  }

  lemma CallKeepsNames(sys: System, gateway: nat, c: Call)
    ensures NamesOf(Do(sys, gateway, c).0.slaves) == NamesOf(sys.slaves)
  {
    hide FindMappedPoint, NameOf, Step;
    if c.Happens? {
      StepKeepsNames(sys, c.event);
    } else if Names(sys, c) {
      var q := FindMappedPoint(sys, gateway, NameOf(sys, gateway, c.p));
      if q.Some? {
        match c
        case WriteReal(p, property, v, priority) =>
          if SetpointAccepted(v) { StepKeepsNames(sys, Runs.Command(q.value.slave, SetpointChannel, priority, v.r)); }
        case WriteEnumerated(p, property, e, priority) =>
          StepKeepsNames(sys, Runs.Command(q.value.slave, EnableChannel, priority, e as real));
        case WriteNull(p, property, priority) =>
          if !q.value.kind.PollChannel? { StepKeepsNames(sys, Release(q.value.slave, q.value.kind, priority)); }
        case _ =>
      }
    }
  }

  /** All calls of a run, and their replies. */
  function DoAll(sys: System, gateway: nat, cs: seq<Call>): (System, seq<Reply>)
  {
    if cs == [] then (sys, [])
    else
      var (before, replies) := DoAll(sys, gateway, cs[..|cs| - 1]);
      var (after, reply) := Do(before, gateway, cs[|cs| - 1]);
      (after, replies + [reply])
  }

  lemma {:induction false} RunsAlike(a: System, ga: nat, b: System, gb: nat, cs: seq<Call>)
    requires Alike(a, b) && DistinctNames(a) && DistinctNames(b)
    ensures DoAll(a, ga, cs).1 == DoAll(b, gb, cs).1 && Alike(DoAll(a, ga, cs).0, DoAll(b, gb, cs).0)
    ensures DistinctNames(DoAll(a, ga, cs).0) && DistinctNames(DoAll(b, gb, cs).0)
  {
    if cs == [] {
    } else {
      var prior, c := cs[..|cs| - 1], cs[|cs| - 1];
      RunsAlike(a, ga, b, gb, prior);
      var x, y := DoAll(a, ga, prior).0, DoAll(b, gb, prior).0;
      CallsAlike(x, ga, y, gb, c);
      CallKeepsNames(x, ga, c);
      CallKeepsNames(y, gb, c);
      NamesDecideDistinct(x, Do(x, ga, c).0);
      NamesDecideDistinct(y, Do(y, gb, c).0);
    }
  }

  /** The two modes cannot be told apart by the property callbacks: start one gateway in each mode from the same
      tables, make the same calls at the same points under each mode's own names, mixed with any passes, outages
      and field changes: every reply is the same, and so is every slave but for its announcements. */
  lemma ModesAreBisimilar(eo: System, gateway: nat, vn: System, other: nat, cs: seq<Call>)
    requires eo.mode.EmbeddedObjects? && vn == eo.(mode := VirtualNetwork) && DistinctNames(eo)
    ensures DoAll(eo, gateway, cs).1 == DoAll(vn, other, cs).1
    ensures Alike(DoAll(eo, gateway, cs).0, DoAll(vn, other, cs).0)
  {
    RunsAlike(eo, gateway, vn, other, cs);
  }
}
