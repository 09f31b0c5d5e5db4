/** From a client's write to the value that wins: what a write changes, what is read back, and which write counts. */
module Commanding {
  import opened Wrappers
  import opened Registers
  import opened Priority
  import opened Gateway
  import opened Line
  import opened Runs
  import opened LineInvariant
  import opened Theorems
  import opened Callbacks
  import opened Modes

  // -- One write --------------------------------------------------------------------------------------

  /** The read is of the element of the output's Priority_Array that stands for the priority octet. */
  predicate ReadsElement(n: Name, property: nat, index: Option<nat>, name: Name, priority: Octet)
  {
    n == name && property == 87 && index.Some? && 1 <= index.value <= 16 && InSlot(priority, index.value - 1)
  }

  /** No read of this property tells the two gateways apart. */
  predicate ReadAlike(a: System, b: System, gateway: nat, n: Name, property: nat, index: Option<nat>)
  {
    && GetReal(a, gateway, n, property, index) == GetReal(b, gateway, n, property, index)
    && GetEnumerated(a, gateway, n, property, index) == GetEnumerated(b, gateway, n, property, index)
    && GetBool(a, gateway, n, property, index) == GetBool(b, gateway, n, property, index)
  }

  lemma StepKeepsNamesOf(sys: System, r: System, i: nat)
    requires i < |sys.slaves| && |r.slaves| == |sys.slaves| && r.mode == sys.mode
    requires forall j :: 0 <= j < |sys.slaves| ==>
               r.slaves[j].belief.unitId == sys.slaves[j].belief.unitId
               && r.slaves[j].belief.virtualDevice == sys.slaves[j].belief.virtualDevice
    ensures NamesOf(r.slaves) == NamesOf(sys.slaves)
  {
  }

  lemma Renamed(sys: System, r: System, gateway: nat, p: Place)
    requires p.slave < |sys.slaves| == |r.slaves| && r.mode == sys.mode
    requires r.slaves[p.slave].belief.unitId == sys.slaves[p.slave].belief.unitId
    requires r.slaves[p.slave].belief.virtualDevice == sys.slaves[p.slave].belief.virtualDevice
    ensures NameOf(r, gateway, p) == NameOf(sys, gateway, p)
  {
  }

  lemma SameFound(sys: System, r: System, gateway: nat, n: Name)
    requires NamesOf(r.slaves) == NamesOf(sys.slaves) && r.mode == sys.mode
    ensures FindMappedPoint(r, gateway, n) == FindMappedPoint(sys, gateway, n)
  {
  }

  lemma CommandedPoint(sys: System, r: System, gateway: nat, n: Name, property: nat, index: Option<nat>,
                       p: Place, name: Name, c: Command, priority: Octet)
    requires DistinctNames(sys) && p.slave < |sys.slaves| && !p.kind.PollChannel? && name == NameOf(sys, gateway, p)
    requires r == WithBelief(sys, p.slave, sys.slaves[p.slave].belief.WithCommand(p.kind, c))
    requires c.relinquishDefault == sys.slaves[p.slave].belief.CommandOf(p.kind).relinquishDefault
    requires var d := sys.slaves[p.slave].belief.CommandOf(p.kind);
             forall k :: 0 <= k < 16 && !InSlot(priority, k) ==> c.isSet[k] == d.isSet[k] && c.value[k] == d.value[k]
    ensures FindMappedPoint(r, gateway, name) == Some(p)
    ensures !ReadsElement(n, property, index, name, priority) ==> ReadAlike(sys, r, gateway, n, property, index)
  {
    hide FindMappedPoint, NameOf;
    StepKeepsNamesOf(sys, r, p.slave);
    NamesDecideDistinct(sys, r);
    Renamed(sys, r, gateway, p);
    NamedPointIsFound(sys, gateway, p);
    NamedPointIsFound(r, gateway, p);
    SameFound(sys, r, gateway, n);
    var q := FindMappedPoint(sys, gateway, n);
    if q == Some(p) {
      NamesAndPointsCorrespond(sys, gateway, n, p);
    }
  }

  /** The name is that of some slave's point of this kind. */
  ghost predicate IsNamed(sys: System, gateway: nat, name: Name, kind: Channel)
  {
    exists i: nat :: i < |sys.slaves| && name == NameOf(sys, gateway, Place(i, kind))
  }

  lemma NamedExactly(sys: System, gateway: nat, name: Name, kind: Channel)
    requires DistinctNames(sys)
    ensures var p := FindMappedPoint(sys, gateway, name);
            && (p.Some? && p.value.kind == kind <==> IsNamed(sys, gateway, name, kind))
            && (p.Some? ==> name == NameOf(sys, gateway, p.value))
  {
    hide FindMappedPoint, NameOf;
    var p := FindMappedPoint(sys, gateway, name);
    if p.Some? {
      NamesAndPointsCorrespond(sys, gateway, name, p.value);
      if p.value.kind == kind {
        assert p.value == Place(p.value.slave, kind);
      }
    }
    if i: nat :| i < |sys.slaves| && name == NameOf(sys, gateway, Place(i, kind)) {
      NamedPointIsFound(sys, gateway, Place(i, kind));
    }
  }

  predicate Accepts(v: Real) { v.Finite? && -3276.800048828125 <= v.r <= 3276.699951171875 }

  lemma WrittenCommand(c: Command, priority: Octet, v: real)
    ensures var w := Write(c, priority, v);
            && w.relinquishDefault == c.relinquishDefault
            && forall k: nat | k < 16 ::
                 if InSlot(priority, k) then w.isSet[k] && w.value[k] == v
                 else w.isSet[k] == c.isSet[k] && w.value[k] == c.value[k]
  {
    forall k: nat | k < 16
      ensures if InSlot(priority, k) then Write(c, priority, v).isSet[k] && Write(c, priority, v).value[k] == v
              else Write(c, priority, v).isSet[k] == c.isSet[k] && Write(c, priority, v).value[k] == c.value[k]
    {
      OneSlotChanges(c, priority, v, k);
    }
    OneSlotChanges(c, priority, v, 0);
  }

  lemma RelinquishedCommand(c: Command, priority: Octet)
    ensures var w := Relinquish(c, priority);
            && w.relinquishDefault == c.relinquishDefault
            && forall k: nat | k < 16 ::
                 if InSlot(priority, k) then !w.isSet[k] else w.isSet[k] == c.isSet[k] && w.value[k] == c.value[k]
  {
    forall k: nat | k < 16
      ensures if InSlot(priority, k) then !Relinquish(c, priority).isSet[k]
              else Relinquish(c, priority).isSet[k] == c.isSet[k] && Relinquish(c, priority).value[k] == c.value[k]
    {
      OneSlotChanges(c, priority, 0.0, k);
    }
    OneSlotChanges(c, priority, 0.0, 0);
  }

  lemma NothingChanged(sys: System, gateway: nat, n: Name, property: nat, index: Option<nat>)
    ensures ReadAlike(sys, sys, gateway, n, property, index)
  {
  }

  /** A REAL written to a setpoint: taken or refused by its value alone, and if it is taken, then the element of the
      Priority_Array for its priority holds it, and nothing else that can be read has changed. */
  lemma RealIsCommanded(sys: System, gateway: nat, name: Name, written: nat, v: Real, priority: Octet,
                        n: Name, property: nat, index: Option<nat>)
    requires DistinctNames(sys)
    ensures var (r, answer) := SetReal(sys, gateway, name, written, v, priority);
            && (answer.Declined? <==> written != 85 || !IsNamed(sys, gateway, name, SetpointChannel))
            && (!answer.Declined? ==> answer == if Accepts(v) then Accepted else Refused(37))
            && (!answer.Accepted? ==> r == sys)
            && (answer.Accepted? && ReadsElement(n, property, index, name, priority) ==>
                  GetReal(r, gateway, n, property, index) == Some(v.r)
                  && GetBool(r, gateway, n, property, index) == Some(false))
            && (!ReadsElement(n, property, index, name, priority) ==> ReadAlike(sys, r, gateway, n, property, index))
  {
    hide FindMappedPoint, NameOf, Write, ReadAlike, DistinctNames, InSlot;
    var (r, answer) := SetReal(sys, gateway, name, written, v, priority);
    NamedExactly(sys, gateway, name, SetpointChannel);
    if answer.Accepted? {
      var p := FindMappedPoint(sys, gateway, name).value;
      var c := sys.slaves[p.slave].belief.setpoint;
      WrittenCommand(c, priority, v.r);
      CommandedPoint(sys, r, gateway, n, property, index, p, name, Write(c, priority, v.r), priority);
    } else {
      NothingChanged(sys, gateway, n, property, index);
    }
  }

  /** An enumerated value written to an enable output: the same. */
  lemma EnumeratedIsCommanded(sys: System, gateway: nat, name: Name, written: nat, e: nat, priority: Octet,
                              n: Name, property: nat, index: Option<nat>)
    requires DistinctNames(sys)
    ensures var (r, answer) := SetEnumerated(sys, gateway, name, written, e, priority);
            && (answer.Declined? <==> written != 85 || !IsNamed(sys, gateway, name, EnableChannel))
            && (!answer.Declined? ==> answer == if e <= 1 then Accepted else Refused(37))
            && (!answer.Accepted? ==> r == sys)
            && (answer.Accepted? && ReadsElement(n, property, index, name, priority) ==>
                  GetEnumerated(r, gateway, n, property, index) == Some(e)
                  && GetBool(r, gateway, n, property, index) == Some(false))
            && (!ReadsElement(n, property, index, name, priority) ==> ReadAlike(sys, r, gateway, n, property, index))
  {
    hide FindMappedPoint, NameOf, Write, ReadAlike, DistinctNames, InSlot;
    var (r, answer) := SetEnumerated(sys, gateway, name, written, e, priority);
    NamedExactly(sys, gateway, name, EnableChannel);
    if answer.Accepted? {
      var p := FindMappedPoint(sys, gateway, name).value;
      var c := sys.slaves[p.slave].belief.enable;
      WrittenCommand(c, priority, e as real);
      CommandedPoint(sys, r, gateway, n, property, index, p, name, Write(c, priority, e as real), priority);
    } else {
      NothingChanged(sys, gateway, n, property, index);
    }
  }

  /** A NULL written to an output: the element becomes NULL. */
  lemma NullRelinquishes(sys: System, gateway: nat, name: Name, written: nat, priority: Octet,
                         n: Name, property: nat, index: Option<nat>)
    requires DistinctNames(sys)
    ensures var (r, answer) := SetNull(sys, gateway, name, written, priority);
            && answer == (if written == 85 && (IsNamed(sys, gateway, name, SetpointChannel)
                                               || IsNamed(sys, gateway, name, EnableChannel))
                          then Accepted else Declined)
            && (!answer.Accepted? ==> r == sys)
            && (answer.Accepted? && ReadsElement(n, property, index, name, priority) ==>
                  GetBool(r, gateway, n, property, index) == Some(true)
                  && GetReal(r, gateway, n, property, index) == None
                  && GetEnumerated(r, gateway, n, property, index) == None)
            && (!ReadsElement(n, property, index, name, priority) ==> ReadAlike(sys, r, gateway, n, property, index))
  {
    hide FindMappedPoint, NameOf, Relinquish, ReadAlike, DistinctNames, InSlot;
    var (r, answer) := SetNull(sys, gateway, name, written, priority);
    NamedExactly(sys, gateway, name, SetpointChannel);
    NamedExactly(sys, gateway, name, EnableChannel);
    if answer.Accepted? {
      var p := FindMappedPoint(sys, gateway, name).value;
      var c := sys.slaves[p.slave].belief.CommandOf(p.kind);
      RelinquishedCommand(c, priority);
      CommandedPoint(sys, r, gateway, n, property, index, p, name, Relinquish(c, priority), priority);
    } else {
      NothingChanged(sys, gateway, n, property, index);
    }
  }

  // -- Runs --------------------------------------------------------------------------------------------

  /** The commands to one output in a run, in order. */
  function Operations(es: seq<Event>, i: nat, o: Output): seq<Operation>
  {
    if es == [] then []
    else
      var e := es[|es| - 1];
      Operations(es[..|es| - 1], i, o) +
      if e.Command? && e.slave == i && e.output == o then [WriteAt(e.priority, e.v)]
      else if e.Release? && e.slave == i && e.output == o then [RelinquishAt(e.priority)]
      else []
  }

  lemma ApplyOne(c: Command, ops: seq<Operation>, op: Operation)
    ensures ApplyAll(c, ops + [op]) == Apply(ApplyAll(c, ops), op)
  {
    assert (ops + [op])[..|ops|] == ops;
  }

  lemma LineStepCommands(l: Line, les: seq<LineEvent>, last: nat, e: Event, i: nat, o: Output)
    requires les == ProjectOne(last, e, i)
    ensures var c, r := l.belief.CommandOf(o), RunLine(l, les).belief.CommandOf(o);
            r == if e.Command? && e.slave == i && e.output == o then Apply(c, WriteAt(e.priority, e.v))
                 else if e.Release? && e.slave == i && e.output == o then Apply(c, RelinquishAt(e.priority))
                 else c
  {
    hide PassLine, Write, Relinquish;
    if les != [] {
      RunLineOne(l, les[0]);
      StepKeepsIdentity(l, les[0]);
    }
  }

  lemma NothingApplied(c: Command)
    ensures ApplyAll(c, []) == c
  {
  }

  lemma BeliefOfLine(sys: System, i: nat)
    requires i < |sys.slaves| && i < |sys.bus.devices|
    ensures LineOf(sys, i).belief == sys.slaves[i].belief
  {
  }

  lemma {:induction false} CommandsFollowRun(sys: System, es: seq<Event>, i: nat, o: Output)
    requires Initial(sys) && Monotone(0, es) && i < |sys.slaves|
    ensures |Run(sys, es).slaves| == |sys.slaves|
    ensures Run(sys, es).slaves[i].belief.CommandOf(o) ==
            ApplyAll(sys.slaves[i].belief.CommandOf(o), Operations(es, i, o))
  {
    hide RunLine, Good, Initial, ProjectOne, ApplyAll, LineOf, Invariant;
    if es == [] {
      NothingApplied(sys.slaves[i].belief.CommandOf(o));
    } else {
      var prior, e := es[..|es| - 1], es[|es| - 1];
      CommandsFollowRun(sys, prior, i, o);
      LastEventOfRun(sys, es, i);
      var last := DriftAfter(0, prior);
      LineStepCommands(LineOf(Run(sys, prior), i), ProjectOne(last, e, i), last, e, i, o);
      BeliefOfLine(Run(sys, prior), i);
      BeliefOfLine(Run(sys, es), i);
      var c, ops := sys.slaves[i].belief.CommandOf(o), Operations(prior, i, o);
      if e.Command? && e.slave == i && e.output == o {
        ApplyOne(c, ops, WriteAt(e.priority, e.v));
      } else if e.Release? && e.slave == i && e.output == o {
        ApplyOne(c, ops, RelinquishAt(e.priority));
      } else {
        assert Operations(es, i, o) == ops;
      }
    }
  }

  /** The value that an output is driven to, in any run: that of the standing write to it that no other one outranks,
      whatever was commanded to other outputs and whatever happened, and its relinquish default if none stands. */
  lemma WinnerFollowsRun(sys: System, es: seq<Event>, i: nat, o: Output)
    requires Initial(sys) && Monotone(0, es) && i < |sys.slaves|
    ensures |Run(sys, es).slaves| == |sys.slaves|
    ensures var w, ops := Run(sys, es).slaves[i].belief.Winning(o), Operations(es, i, o);
            && (forall k :: Commands(ops, k) ==> w == ops[k].v)
            && ((forall k :: !Stands(ops, k)) ==> w == sys.slaves[i].belief.CommandOf(o).relinquishDefault)
            && ((exists k :: Stands(ops, k)) ==> exists k :: Commands(ops, k))
  {
    CommandsFollowRun(sys, es, i, o);
    assert InitialSlave(sys.slaves[i]);
    WinnerRefinesHistory(sys.slaves[i].belief.CommandOf(o).relinquishDefault, Operations(es, i, o));
  }
}
