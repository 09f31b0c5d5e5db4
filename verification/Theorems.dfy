/** The main results about the whole gateway: ownership of the transactions in every reachable state, and the
    projection of every run to each slave's line. */
module Theorems {
  import opened Registers
  import opened ForeignBus
  import opened Gateway
  import opened Line
  import opened Runs
  import opened Ownership
  import opened Refinement
  import opened LineInvariant

  /** What holds between two passes, in every run from the initial state. */
  ghost predicate Good(sys: System) { Sound(sys) && Waiting(sys, |sys.slaves|) }

  lemma InitialIsGood(sys: System)
    requires Initial(sys)
    ensures Good(sys)
  {
    assert forall i :: 0 <= i < |sys.slaves| ==> InitialSlave(sys.slaves[i]);
  }

  // -- Refinement of runs ------------------------------------------------------------------

  lemma FieldEventRefines(sys: System, i: nat, d: Device, bus: Bus)
    requires Good(sys) && i < |sys.slaves|
    requires d.unitId == sys.bus.devices[i].unitId && d.latency == sys.bus.devices[i].latency
    requires bus == sys.bus.(devices := sys.bus.devices[i := d])
    ensures Good(sys.(bus := bus))
    ensures forall j :: 0 <= j < |sys.slaves| ==>
      LineOf(sys.(bus := bus), j) == if j == i then LineOf(sys, i).(device := d) else LineOf(sys, j)
  {
    var r := sys.(bus := bus);
    assert Recent(r.bus) == Recent(sys.bus);
    forall id | id in r.bus.transactions ensures exists j, k :: Owns(r, j, k, id) {
      var j, k := FindOwner(sys, id);
      assert Owns(r, j, k, id);
    }
  }

  lemma BeliefEventRefines(sys: System, i: nat, b: Belief)
    requires Good(sys) && i < |sys.slaves| && b.unitId == sys.slaves[i].belief.unitId
    ensures Good(WithBelief(sys, i, b)) && BecomesLine(sys, WithBelief(sys, i, b), i, LineOf(sys, i).(belief := b))
  {
    hide Owned, Young, Timely, BecomesLine;
    BeliefBecomes(sys, i, b);
    var r := WithBelief(sys, i, b);
    assert forall j: nat, c :: j < |sys.slaves| ==> r.slaves[j].IdOf(c) == sys.slaves[j].IdOf(c);
  }

  ghost predicate StepIsLineStep(sys: System, r: System, e: Event)
    requires Tables(sys)
  {
    && Good(r) && |r.slaves| == |sys.slaves|
    && r.bus.now == (if e.Tick? then e.now else sys.bus.now)
    && r.bus.lastDriftAt == (if e.Tick? then DriftClock(sys.bus.lastDriftAt, e.now).0 else sys.bus.lastDriftAt)
    && forall j :: 0 <= j < |sys.slaves| ==>
         LineOf(r, j) == RunLine(LineOf(sys, j), ProjectOne(sys.bus.lastDriftAt, e, j))
  }

  lemma RunLineOne(l: Line, e: LineEvent)
    ensures RunLine(l, [e]) == StepLine(l, e)
  {
    assert [e][..0] == [];
  }

  lemma TickRefines(sys: System, now: nat)
    requires Good(sys) && now >= sys.bus.now
    ensures StepIsLineStep(sys, Step(sys, Tick(now)), Tick(now))
  {
    var r := Step(sys, Tick(now));
    PassRefines(sys, now);
    forall j: nat | j < |sys.slaves|
      ensures LineOf(r, j) == RunLine(LineOf(sys, j), ProjectOne(sys.bus.lastDriftAt, Tick(now), j))
    {
      RunLineOne(LineOf(sys, j), PassEvent(now, DriftClock(sys.bus.lastDriftAt, now).1));
    }
  }

  /** What happens to slave i alone: its line takes one step, and the others stay as they are. */
  lemma OneLineStep(sys: System, r: System, e: Event, i: nat, le: LineEvent)
    requires Good(sys) && i < |sys.slaves| && Good(r) && BecomesLine(sys, r, i, StepLine(LineOf(sys, i), le))
    requires !e.Tick? && forall j: nat :: ProjectOne(sys.bus.lastDriftAt, e, j) == if j == i then [le] else []
    ensures StepIsLineStep(sys, r, e)
  {
    RunLineOne(LineOf(sys, i), le);
  }

  lemma BeliefStepRefines(sys: System, e: Event, i: nat, b: Belief, le: LineEvent)
    requires Good(sys) && i < |sys.slaves| && b.unitId == sys.slaves[i].belief.unitId
    requires StepLine(LineOf(sys, i), le) == LineOf(sys, i).(belief := b)
    requires !e.Tick? && forall j: nat :: ProjectOne(sys.bus.lastDriftAt, e, j) == if j == i then [le] else []
    ensures StepIsLineStep(sys, WithBelief(sys, i, b), e)
  {
    BeliefEventRefines(sys, i, b);
    OneLineStep(sys, WithBelief(sys, i, b), e, i, le);
  }

  lemma CableRefines(sys: System, i: nat, online: bool)
    requires Good(sys) && i < |sys.slaves|
    ensures StepIsLineStep(sys, Step(sys, Cable(i, online)), Cable(i, online))
  {
    var r := Step(sys, Cable(i, online));
    assert FindDevice(sys.bus.devices, sys.slaves[i].belief.unitId) == i;
    FieldEventRefines(sys, i, sys.bus.devices[i].(online := online), r.bus);
    OneLineStep(sys, r, Cable(i, online), i, CableEvent(online));
  }

  lemma FieldRefines(sys: System, i: nat, table: Table, word: Word)
    requires Good(sys) && i < |sys.slaves|
    ensures StepIsLineStep(sys, Step(sys, Field(i, table, word)), Field(i, table, word))
  {
    var r := Step(sys, Field(i, table, word));
    assert FindDevice(sys.bus.devices, sys.slaves[i].belief.unitId) == i;
    FieldEventRefines(sys, i, LocalChange(sys.bus.devices[i], table, word), r.bus);
    OneLineStep(sys, r, Field(i, table, word), i, FieldEvent(table, word));
  }

  lemma NothingRefines(sys: System, e: Event)
    requires Good(sys) && !e.Tick? && e.slave >= |sys.slaves|
    ensures StepIsLineStep(sys, Step(sys, e), e)
  {
  }

  lemma StepRefines(sys: System, e: Event)
    requires Good(sys) && (e.Tick? ==> e.now >= sys.bus.now)
    ensures StepIsLineStep(sys, Step(sys, e), e)
  {
    match e
    case Tick(now) => TickRefines(sys, now);
    case Command(i, o, priority, v) =>
      if i < |sys.slaves| {
        BeliefStepRefines(sys, e, i, Commanded(sys.slaves[i].belief, o, priority, v), CommandEvent(o, priority, v));
      } else {
        NothingRefines(sys, e);
      }
    case Release(i, o, priority) =>
      if i < |sys.slaves| {
        BeliefStepRefines(sys, e, i, Released(sys.slaves[i].belief, o, priority), ReleaseEvent(o, priority));
      } else {
        NothingRefines(sys, e);
      }
    case Cable(i, online) =>
      if i < |sys.slaves| {
        CableRefines(sys, i, online);
      } else {
        NothingRefines(sys, e);
      }
    case Field(i, table, word) =>
      if i < |sys.slaves| {
        FieldRefines(sys, i, table, word);
      } else {
        NothingRefines(sys, e);
      }
  }

  lemma {:induction false} RunLineConcat(l: Line, es: seq<LineEvent>, fs: seq<LineEvent>)
    ensures RunLine(l, es + fs) == RunLine(RunLine(l, es), fs)
  {
    if fs == [] {
      assert es + fs == es;
    } else {
      var n := |fs| - 1;
      RunLineConcat(l, es, fs[..n]);
      assert (es + fs)[..|es + fs| - 1] == es + fs[..n];
    }
  }

  /** Every run of the whole gateway keeps the ownership invariant, and what it does to a slave is what the
      slave's own line does under the events that concern it. */
  lemma {:induction false} RunRefines(sys: System, es: seq<Event>)
    requires Good(sys) && Monotone(sys.bus.now, es)
    ensures var r := Run(sys, es);
            && Good(r) && |r.slaves| == |sys.slaves|
            && r.bus.now == LastTick(sys.bus.now, es) && r.bus.lastDriftAt == DriftAfter(sys.bus.lastDriftAt, es)
            && forall j :: 0 <= j < |sys.slaves| ==>
                 LineOf(r, j) == RunLine(LineOf(sys, j), Project(sys.bus.lastDriftAt, es, j))
  {
    if es == [] {
    } else {
      var n := |es| - 1;
      RunRefines(sys, es[..n]);
      var mid := Run(sys, es[..n]);
      StepRefines(mid, es[n]);
      forall j: nat | j < |sys.slaves|
        ensures LineOf(Run(sys, es), j) == RunLine(LineOf(sys, j), Project(sys.bus.lastDriftAt, es, j))
      {
        RunLineConcat(LineOf(sys, j), Project(sys.bus.lastDriftAt, es[..n], j),
                      ProjectOne(mid.bus.lastDriftAt, es[n], j));
      }
    }
  }

  // -- Ownership and freshness ----------------------------------------------------------------

  /** The state inside a pass just before channel c of slave k is serviced. */
  function MidPass(sys: System, now: nat, k: nat, c: Channel): System
    requires k < |sys.slaves|
  {
    var s := ServeUpTo(AfterService(sys, now), k, now);
    match c
    case PollChannel => s
    case SetpointChannel => Micro(s, k, PollChannel, now)
    case EnableChannel => Micro(Micro(s, k, PollChannel, now), k, SetpointChannel, now)
  }

  lemma MidPassIsSound(sys: System, now: nat, k: nat, c: Channel)
    requires Good(sys) && sys.bus.now <= now && k < |sys.slaves|
    ensures Sound(MidPass(sys, now, k, c))
  {
    ServeUpToRefines(sys, k, now);
    var s := ServeUpTo(AfterService(sys, now), k, now);
    MicroRefines(s, k, PollChannel);
    MicroRefines(Micro(s, k, PollChannel, now), k, SetpointChannel);
  }

  /** The live transactions are exactly those the channels hold, no two channels hold the same one, each is of
      the kind and for the unit of its channel, and the next id is neither 0 nor live. */
  ghost predicate LiveIdsAreHeld(sys: System)
  {
    && (forall id :: id in sys.bus.transactions <==> id != 0 && exists i, c :: Owns(sys, i, c, id))
    && (forall i: nat, j: nat, c, h | i < |sys.slaves| && j < |sys.slaves| ::
          sys.slaves[i].IdOf(c) == sys.slaves[j].IdOf(h) != 0 ==> i == j && c == h)
    && (forall i: nat, c | i < |sys.slaves| && sys.slaves[i].IdOf(c) in sys.bus.transactions ::
          Fits(sys.bus.transactions[sys.slaves[i].IdOf(c)], sys.slaves[i].belief.unitId, c))
    && sys.bus.nextId != 0 && sys.bus.nextId !in sys.bus.transactions
  }

  lemma SoundMeansHeld(sys: System)
    requires Sound(sys)
    ensures LiveIdsAreHeld(sys)
  {
    forall i: nat, j: nat, c, h
      | i < |sys.slaves| && j < |sys.slaves| && sys.slaves[i].IdOf(c) == sys.slaves[j].IdOf(h) != 0
      ensures i == j && c == h
    {
      OwnerIsUnique(sys, i, c, j, h);
    }
  }

  /** In every run of any length, also across the wrap of the 32-bit id counter, before every single servicing of
      a channel: what LiveIdsAreHeld says. So the id about to be checked is live, not one already reported, and the id
      about to be issued is in use nowhere. */
  lemma TransactionsAreOwned(sys: System, es: seq<Event>, now: nat, k: nat, c: Channel)
    requires Initial(sys) && Monotone(0, es) && LastTick(0, es) <= now && k < |sys.slaves|
    ensures |Run(sys, es).slaves| == |sys.slaves|
    ensures LiveIdsAreHeld(MidPass(Run(sys, es), now, k, c))
  {
    InitialIsGood(sys);
    RunRefines(sys, es);
    MidPassIsSound(Run(sys, es), now, k, c);
    SoundMeansHeld(MidPass(Run(sys, es), now, k, c));
  }

  // -- Non-interference ------------------------------------------------------------------------

  /** Two gateways, however many other slaves each of them has and whatever happens to those: if a slave of the
      one and a slave of the other start alike and the same things happen to them, they stay alike, down to the
      transactions on the wire; only the ids may differ. */
  lemma NonInterference(a: System, es: seq<Event>, i: nat, b: System, fs: seq<Event>, j: nat)
    requires Good(a) && Monotone(a.bus.now, es) && i < |a.slaves|
    requires Good(b) && Monotone(b.bus.now, fs) && j < |b.slaves|
    requires LineOf(a, i) == LineOf(b, j)
    requires Project(a.bus.lastDriftAt, es, i) == Project(b.bus.lastDriftAt, fs, j)
    ensures |Run(a, es).slaves| == |a.slaves| && |Run(b, fs).slaves| == |b.slaves|
    ensures Good(Run(a, es)) && Good(Run(b, fs))
    ensures LineOf(Run(a, es), i) == LineOf(Run(b, fs), j)
  {
    RunRefines(a, es);
    RunRefines(b, fs);
  }

  /** The gateway that has only slave i. */
  function Alone(sys: System, i: nat): System
    requires i < |sys.slaves| && i < |sys.bus.devices|
  {
    sys.(slaves := [sys.slaves[i]], bus := sys.bus.(devices := [sys.bus.devices[i]]))
  }

  function OnlyOne(e: Event, i: nat): seq<Event>
  {
    match e
    case Tick(now) => [Tick(now)]
    case Command(k, o, priority, v) => if k == i then [Command(0, o, priority, v)] else []
    case Release(k, o, priority) => if k == i then [Release(0, o, priority)] else []
    case Cable(k, online) => if k == i then [Cable(0, online)] else []
    case Field(k, table, word) => if k == i then [Field(0, table, word)] else []
  }

  /** The run as slave i's own gateway sees it. */
  function Only(es: seq<Event>, i: nat): seq<Event>
  {
    if es == [] then [] else Only(es[..|es| - 1], i) + OnlyOne(es[|es| - 1], i)
  }

  lemma AppendEvent(start: nat, lastDriftAt: nat, es: seq<Event>, e: Event, i: nat)
    ensures Monotone(start, es + [e]) <==> Monotone(start, es) && (e.Tick? ==> LastTick(start, es) <= e.now)
    ensures LastTick(start, es + [e]) == if e.Tick? then e.now else LastTick(start, es)
    ensures DriftAfter(lastDriftAt, es + [e]) ==
            if e.Tick? then DriftClock(DriftAfter(lastDriftAt, es), e.now).0 else DriftAfter(lastDriftAt, es)
    ensures Project(lastDriftAt, es + [e], i) ==
            Project(lastDriftAt, es, i) + ProjectOne(DriftAfter(lastDriftAt, es), e, i)
  {
    assert (es + [e])[..|es|] == es;
  }

  lemma OnlyOneProjectsTheSame(lastDriftAt: nat, e: Event, i: nat)
    ensures OnlyOne(e, i) == [] ==> ProjectOne(lastDriftAt, e, i) == [] && !e.Tick?
    ensures OnlyOne(e, i) != [] ==>
      var f := OnlyOne(e, i)[0];
      && OnlyOne(e, i) == [f] && ProjectOne(lastDriftAt, f, 0) == ProjectOne(lastDriftAt, e, i)
      && (f.Tick? <==> e.Tick?) && (f.Tick? ==> f.now == e.now)
  {
  }

  lemma {:induction false} OnlyProjectsTheSame(start: nat, lastDriftAt: nat, es: seq<Event>, i: nat)
    requires Monotone(start, es)
    ensures Monotone(start, Only(es, i)) && LastTick(start, Only(es, i)) == LastTick(start, es)
    ensures DriftAfter(lastDriftAt, Only(es, i)) == DriftAfter(lastDriftAt, es)
    ensures Project(lastDriftAt, Only(es, i), 0) == Project(lastDriftAt, es, i)
  {
    if es == [] {
    } else {
      var prior, e := es[..|es| - 1], es[|es| - 1];
      OnlyProjectsTheSame(start, lastDriftAt, prior, i);
      assert es == prior + [e];
      AppendEvent(start, lastDriftAt, prior, e, i);
      OnlyOneProjectsTheSame(DriftAfter(lastDriftAt, prior), e, i);
      if OnlyOne(e, i) == [] {
        assert Only(es, i) == Only(prior, i);
      } else {
        var f := OnlyOne(e, i)[0];
        assert Only(es, i) == Only(prior, i) + [f];
        AppendEvent(start, lastDriftAt, Only(prior, i), f, 0);
      }
    }
  }

  /** A run of the whole gateway, seen from slave i, is the run of a gateway that has only that slave: no outage,
      command or timing of another slave ever reaches its cache, its fault state or its registers. */
  lemma SlavesDoNotInterfere(sys: System, es: seq<Event>, i: nat)
    requires Initial(sys) && Monotone(0, es) && i < |sys.slaves|
    ensures Initial(Alone(sys, i)) && Monotone(0, Only(es, i))
    ensures Good(Run(sys, es)) && Good(Run(Alone(sys, i), Only(es, i)))
    ensures |Run(sys, es).slaves| == |sys.slaves| && |Run(Alone(sys, i), Only(es, i)).slaves| == 1
    ensures LineOf(Run(sys, es), i) == LineOf(Run(Alone(sys, i), Only(es, i)), 0)
  {
    var solo := Alone(sys, i);
    assert InitialSlave(solo.slaves[0]);
    assert Tables(solo);
    InitialIsGood(sys);
    InitialIsGood(solo);
    OnlyProjectsTheSame(0, 0, es, i);
    NonInterference(sys, es, i, solo, Only(es, i), 0);
  }

  // -- Timing of a projection ------------------------------------------------------------------

  /** Every pass comes at most delta after the one before. */
  predicate PacedRun(start: nat, es: seq<Event>, delta: nat)
  {
    es == [] ||
    (var prior := es[..|es| - 1];
     PacedRun(start, prior, delta) &&
     (es[|es| - 1].Tick? ==> LastTick(start, prior) <= es[|es| - 1].now <= LastTick(start, prior) + delta))
  }

  lemma AppendLineEvent(start: nat, es: seq<LineEvent>, e: LineEvent, delta: nat)
    ensures Ordered(start, es + [e]) <==> Ordered(start, es) && (e.PassEvent? ==> LastPass(start, es) <= e.now)
    ensures Paced(start, es + [e], delta) <==>
            Paced(start, es, delta) && (e.PassEvent? ==> LastPass(start, es) <= e.now <= LastPass(start, es) + delta)
    ensures LastPass(start, es + [e]) == if e.PassEvent? then e.now else LastPass(start, es)
  {
    assert (es + [e])[..|es|] == es;
  }

  lemma ProjectOneKeepsTime(lastDriftAt: nat, e: Event, i: nat)
    ensures var one := ProjectOne(lastDriftAt, e, i);
            && (one == [] ==> !e.Tick?)
            && (one != [] ==> one == [one[0]] && (one[0].PassEvent? <==> e.Tick?) && (e.Tick? ==> one[0].now == e.now))
  {
  }

  /** The passes of a run are the passes of its projection. */
  lemma {:induction false} ProjectKeepsTime(start: nat, lastDriftAt: nat, es: seq<Event>, i: nat, delta: nat)
    ensures LastPass(start, Project(lastDriftAt, es, i)) == LastTick(start, es)
    ensures Monotone(start, es) ==> Ordered(start, Project(lastDriftAt, es, i))
    ensures PacedRun(start, es, delta) ==> Paced(start, Project(lastDriftAt, es, i), delta)
  {
    if es == [] {
    } else {
      var prior, e := es[..|es| - 1], es[|es| - 1];
      ProjectKeepsTime(start, lastDriftAt, prior, i, delta);
      ProjectOneKeepsTime(DriftAfter(lastDriftAt, prior), e, i);
      var before, one := Project(lastDriftAt, prior, i), ProjectOne(DriftAfter(lastDriftAt, prior), e, i);
      var after := Project(lastDriftAt, es, i);
      assert after == before + one;
      if one == [] {
        assert after == before;
      } else {
        AppendLineEvent(start, before, one[0], delta);
        assert after == before + [one[0]];
      }
    }
  }

  lemma {:induction false} PacedRunIsMonotone(start: nat, es: seq<Event>, delta: nat)
    requires PacedRun(start, es, delta)
    ensures Monotone(start, es)
  {
    if es == [] {
    } else {
      PacedRunIsMonotone(start, es[..|es| - 1], delta);
    }
  }

  /** The line of slave i after a run, and its invariant. */
  lemma LineOfRun(sys: System, es: seq<Event>, i: nat)
    requires Initial(sys) && Monotone(0, es) && i < |sys.slaves|
    ensures Good(Run(sys, es)) && |Run(sys, es).slaves| == |sys.slaves| && Run(sys, es).bus.now == LastTick(0, es)
    ensures LineOf(Run(sys, es), i) == RunLine(LineOf(sys, i), Project(0, es, i))
    ensures Ordered(0, Project(0, es, i)) && LineOf(sys, i).now == 0
    ensures Invariant(LineOf(sys, i)) && Invariant(LineOf(Run(sys, es), i))
  {
    hide Run, Owned, Project;
    InitialIsGood(sys);
    RunRefines(sys, es);
    ProjectKeepsTime(0, 0, es, i, 0);
    assert InitialSlave(sys.slaves[i]);
    RunKeeps(LineOf(sys, i), Project(0, es, i));
  }

  /** The last event of a run, seen from slave i. */
  lemma LastEventOfRun(sys: System, es: seq<Event>, i: nat)
    requires Initial(sys) && Monotone(0, es) && i < |sys.slaves| && es != []
    ensures var m, r := Run(sys, es[..|es| - 1]), Run(sys, es);
            && Good(m) && Good(r) && |m.slaves| == |r.slaves| == |sys.slaves|
            && |m.bus.devices| == |r.bus.devices| == |sys.slaves| && Invariant(LineOf(m, i))
            && LineOf(r, i) == RunLine(LineOf(m, i), ProjectOne(DriftAfter(0, es[..|es| - 1]), es[|es| - 1], i))
  {
    var prior, e := es[..|es| - 1], es[|es| - 1];
    LineOfRun(sys, es, i);
    LineOfRun(sys, prior, i);
    RunLineConcat(LineOf(sys, i), Project(0, prior, i), ProjectOne(DriftAfter(0, prior), e, i));
  }

  lemma BeliefOfRun(sys: System, es: seq<Event>, i: nat)
    requires Good(sys) && Monotone(sys.bus.now, es) && i < |sys.slaves|
    ensures |Run(sys, es).slaves| == |sys.slaves|
    ensures var r := RunLine(LineOf(sys, i), Project(sys.bus.lastDriftAt, es, i));
            Run(sys, es).slaves[i].belief == r.belief && Run(sys, es).bus.now == r.now
  {
    RunRefines(sys, es);
  }

  lemma {:induction false} RunConcat(sys: System, es: seq<Event>, fs: seq<Event>)
    ensures Run(sys, es + fs) == Run(Run(sys, es), fs)
  {
    if fs == [] {
      assert es + fs == es;
    } else {
      RunConcat(sys, es, fs[..|fs| - 1]);
      assert (es + fs)[..|es + fs| - 1] == es + fs[..|fs| - 1];
    }
  }

  /** A run in two parts, seen from slave i: the first part leads to a state the gateway can be in, and what the
      second does to the slave's line is what the line's own events do. */
  lemma ContinuedRun(sys: System, es: seq<Event>, fs: seq<Event>, i: nat)
    requires Initial(sys) && Monotone(0, es) && Monotone(LastTick(0, es), fs) && i < |sys.slaves|
    ensures var mid := Run(sys, es);
            && Good(mid) && |mid.slaves| == |sys.slaves| && mid.bus.now == LastTick(0, es)
            && mid.bus.lastDriftAt == DriftAfter(0, es)
            && Invariant(LineOf(mid, i)) && SameIdentity(LineOf(sys, i), LineOf(mid, i))
    ensures var mid, r := Run(sys, es), Run(sys, es + fs);
            && Good(r) && |r.slaves| == |sys.slaves| && r.bus.now == LastTick(LastTick(0, es), fs)
            && LineOf(r, i) == RunLine(LineOf(mid, i), Project(DriftAfter(0, es), fs, i))
            && Ordered(LineOf(mid, i).now, Project(DriftAfter(0, es), fs, i))
  {
    LineOfRun(sys, es, i);
    InitialIsGood(sys);
    RunRefines(sys, es);
    RunKeepsIdentity(LineOf(sys, i), Project(0, es, i));
    RunRefines(Run(sys, es), fs);
    RunConcat(sys, es, fs);
    ProjectKeepsTime(LastTick(0, es), DriftAfter(0, es), fs, i, 0);
  }
}
