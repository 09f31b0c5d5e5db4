/** Who owns which transaction, and why a new transaction id is never in use although the 32-bit counter wraps. */
module Ownership {
  import opened Wrappers
  import opened Registers
  import opened ForeignBus
  import opened Gateway
  import opened Line
  import opened Runs

  const LAST_ID := ID_SPACE - 1

  /** How many ids have been issued since this one, itself included, as far as the counter can tell. */
  function Age(next: int, id: int): int { if next >= id then next - id else next - id + LAST_ID }

  /** The transactions started at this very time. */
  ghost function Recent(bus: Bus): set<Id>
  {
    set id | id in bus.transactions && bus.transactions[id].startedAt == bus.now
  }

  function Channels(sys: System): nat { 3 * |sys.slaves| }

  function Lesser(a: int, b: int): int { if a <= b then a else b }

  ghost predicate Fits(t: Transaction, unitId: nat, c: Channel)
  {
    t.unitId == unitId && t.table == TableOf(c) && t.isWrite == !c.PollChannel?
  }

  ghost predicate Owns(sys: System, i: nat, c: Channel, id: Id)
  {
    i < |sys.slaves| && sys.slaves[i].IdOf(c) == id
  }

  /** The live transactions are exactly those a channel of some slave names, and each is of its channel's kind. */
  ghost predicate Owned(sys: System)
  {
    && 0 !in sys.bus.transactions
    && (forall i: nat, c :: i < |sys.slaves| && sys.slaves[i].IdOf(c) != 0 ==>
          sys.slaves[i].IdOf(c) in sys.bus.transactions
          && Fits(sys.bus.transactions[sys.slaves[i].IdOf(c)], sys.slaves[i].belief.unitId, c))
    && (forall id :: id in sys.bus.transactions ==> exists i, c :: Owns(sys, i, c, id))
  }

  /** A transaction that has been answered was not started just now, and an unanswered one is recent. */
  ghost predicate Timely(bus: Bus)
  {
    forall id :: id in bus.transactions ==>
      var t := bus.transactions[id];
      t.startedAt <= bus.now &&
      (if t.outcome.Pending? then bus.now - t.startedAt < RESPONSE_TIMEOUT else t.startedAt < bus.now)
  }

  /** The age bound: in every millisecond of a transaction's life each channel can start at most one other. */
  ghost predicate Young(bus: Bus, channels: nat)
  {
    && bus.nextId >= 1
    && (forall id :: id in bus.transactions ==>
          1 <= Age(bus.nextId, id)
            <= channels * Lesser(bus.now - bus.transactions[id].startedAt, RESPONSE_TIMEOUT) + |Recent(bus)|)
  }

  ghost predicate Sound(sys: System)
  {
    Tables(sys) && Owned(sys) && Timely(sys.bus) && Young(sys.bus, Channels(sys))
  }

  /** Every transaction of the first k slaves is still on the wire. */
  ghost predicate Waiting(sys: System, k: nat)
  {
    forall i: nat, c :: i < k && i < |sys.slaves| && sys.slaves[i].IdOf(c) in sys.bus.transactions ==>
      sys.bus.transactions[sys.slaves[i].IdOf(c)].outcome.Pending?
  }

  // -- Counting ----------------------------------------------------------------------

  ghost function IdsOf(slaves: seq<Slave>): set<Id>
  {
    if slaves == [] then {}
    else
      var s := slaves[|slaves| - 1];
      IdsOf(slaves[..|slaves| - 1]) + {s.pollId, s.setpointId, s.enableId}
  }

  lemma {:induction false} IdsOfIsSmall(slaves: seq<Slave>)
    ensures |IdsOf(slaves)| <= 3 * |slaves|
    ensures forall i, c :: 0 <= i < |slaves| ==> slaves[i].IdOf(c) in IdsOf(slaves)
  {
    if slaves == [] {
    } else {
      var prior, s := slaves[..|slaves| - 1], slaves[|slaves| - 1];
      IdsOfIsSmall(prior);
      var own := {s.pollId, s.setpointId, s.enableId};
      assert |own| <= 3;
      assert |IdsOf(prior) + own| <= |IdsOf(prior)| + |own|;
      forall i, c | 0 <= i < |slaves| ensures slaves[i].IdOf(c) in IdsOf(slaves) {
        if i < |prior| { assert prior[i] == slaves[i]; }
      }
    }
  }

  lemma SubsetIsSmaller<T>(a: set<T>, b: set<T>)
    requires a <= b
    ensures |a| <= |b|
  {
    if a == {} {
    } else {
      var x :| x in a;
      SubsetIsSmaller(a - {x}, b - {x});
    }
  }

  lemma FewTransactions(sys: System)
    requires Owned(sys)
    ensures |Recent(sys.bus)| <= Channels(sys)
  {
    IdsOfIsSmall(sys.slaves);
    forall id | id in Recent(sys.bus) ensures id in IdsOf(sys.slaves) {
      var i, c :| Owns(sys, i, c, id);
    }
    SubsetIsSmaller(Recent(sys.bus), IdsOf(sys.slaves));
  }

  lemma MultiplyAtMost(k: nat, a: int, b: int)
    requires a <= b
    ensures k * a <= k * b
  {
  }

  lemma AgeIsSmall(bus: Bus, channels: nat, id: Id)
    requires Young(bus, channels) && Timely(bus) && id in bus.transactions && |Recent(bus)| <= channels <= 768
    ensures 1 <= Age(bus.nextId, id) <= 301 * channels < LAST_ID
  {
    MultiplyAtMost(channels, Lesser(bus.now - bus.transactions[id].startedAt, RESPONSE_TIMEOUT), 300);
  }

  // -- One channel of one slave lets go of a transaction, or takes a new one -------------

  function Freed(sys: System, i: nat, c: Channel): System
    requires i < |sys.slaves|
  {
    sys.(bus := sys.bus.(transactions := sys.bus.transactions - {sys.slaves[i].IdOf(c)}),
         slaves := sys.slaves[i := sys.slaves[i].WithId(c, 0)])
  }

  function Taken(sys: System, i: nat, c: Channel, v: Word): System
    requires i < |sys.slaves|
  {
    var (bus, id) := Issue(sys.bus, sys.slaves[i].belief.unitId, TableOf(c), 0, !c.PollChannel?, v);
    sys.(bus := bus, slaves := sys.slaves[i := sys.slaves[i].WithId(c, id)])
  }

  /** Two channels never name the same live transaction. */
  lemma OwnerIsUnique(sys: System, i: nat, c: Channel, j: nat, k: Channel)
    requires Tables(sys) && Owned(sys) && i < |sys.slaves| && j < |sys.slaves|
    requires sys.slaves[i].IdOf(c) == sys.slaves[j].IdOf(k) != 0
    ensures i == j && c == k
  {
  }

  /** What is left after channel c of slave i has let go: every other id, and its transaction. */
  lemma OthersStayHeld(sys: System, i: nat, c: Channel, j: nat, k: Channel)
    requires Tables(sys) && Owned(sys) && i < |sys.slaves| && sys.slaves[i].IdOf(c) != 0 && j < |sys.slaves|
    ensures var r, id := Freed(sys, i, c), sys.slaves[j].IdOf(k);
            if j == i && k == c then r.slaves[j].IdOf(k) == 0
            else r.slaves[j].IdOf(k) == id && (id != 0 ==> id in r.bus.transactions)
  {
    if sys.slaves[j].IdOf(k) == sys.slaves[i].IdOf(c) {
      OwnerIsUnique(sys, i, c, j, k);
    }
  }

  lemma FreeKeepsTables(sys: System, i: nat, c: Channel)
    requires Tables(sys) && i < |sys.slaves|
    ensures Tables(Freed(sys, i, c)) && |Freed(sys, i, c).slaves| == |sys.slaves|
  {
  }

  lemma FreeKeepsOwned(sys: System, i: nat, c: Channel)
    requires Tables(sys) && Owned(sys) && i < |sys.slaves| && sys.slaves[i].IdOf(c) != 0
    ensures Tables(Freed(sys, i, c)) && Owned(Freed(sys, i, c))
  {
    hide Tables;
    FreeKeepsTables(sys, i, c);
    var r := Freed(sys, i, c);
    forall j: nat, k | j < |r.slaves| && r.slaves[j].IdOf(k) != 0
      ensures r.slaves[j].IdOf(k) in r.bus.transactions
      ensures Fits(r.bus.transactions[r.slaves[j].IdOf(k)], r.slaves[j].belief.unitId, k)
    {
      OthersStayHeld(sys, i, c, j, k);
    }
    forall id | id in r.bus.transactions ensures exists j, k :: Owns(r, j, k, id) {
      var j, k :| Owns(sys, j, k, id);
      OthersStayHeld(sys, i, c, j, k);
      assert Owns(r, j, k, id);
    }
  }

  lemma FreedSlot(sys: System, i: nat, c: Channel, j: nat, k: Channel)
    requires Tables(sys) && Owned(sys) && i < |sys.slaves| && sys.slaves[i].IdOf(c) != 0 && j < |sys.slaves|
    ensures LineOf(Freed(sys, i, c), j).SlotOf(k) == if j == i && k == c then None else LineOf(sys, j).SlotOf(k)
  {
    var r := Freed(sys, i, c);
    assert r.slaves[j].IdOf(k) == if j == i && k == c then 0 else sys.slaves[j].IdOf(k);
    if !(j == i && k == c) {
      if sys.slaves[j].IdOf(k) == sys.slaves[i].IdOf(c) {
        OwnerIsUnique(sys, i, c, j, k);
      }
      assert SlotAt(r.bus, r.slaves[j].IdOf(k)) == SlotAt(sys.bus, sys.slaves[j].IdOf(k));
    }
  }

  lemma FreedLine(sys: System, i: nat, c: Channel, j: nat)
    requires Tables(sys) && Owned(sys) && i < |sys.slaves| && sys.slaves[i].IdOf(c) != 0 && j < |sys.slaves|
    ensures LineOf(Freed(sys, i, c), j) == if j == i then LineOf(sys, i).WithSlot(c, None) else LineOf(sys, j)
  {
    FreedSlot(sys, i, c, j, PollChannel);
    FreedSlot(sys, i, c, j, SetpointChannel);
    FreedSlot(sys, i, c, j, EnableChannel);
  }

  lemma RemoveKeepsYoung(bus: Bus, id: Id, channels: nat)
    requires Young(bus, channels) && Timely(bus) && id in bus.transactions && !bus.transactions[id].outcome.Pending?
    ensures var r := bus.(transactions := bus.transactions - {id}); Young(r, channels) && Timely(r)
  {
    var r := bus.(transactions := bus.transactions - {id});
    assert Recent(r) == Recent(bus);
  }

  lemma FreeKeepsSound(sys: System, i: nat, c: Channel)
    requires Sound(sys) && i < |sys.slaves| && sys.slaves[i].IdOf(c) != 0
    requires !sys.bus.transactions[sys.slaves[i].IdOf(c)].outcome.Pending?
    ensures Sound(Freed(sys, i, c))
  {
    FreeKeepsOwned(sys, i, c);
    RemoveKeepsYoung(sys.bus, sys.slaves[i].IdOf(c), Channels(sys));
  }

  /** The bus after a transaction has been put on the wire. */
  function Issued(bus: Bus, t: Transaction): Bus
    requires bus.nextId >= 1
  {
    bus.(nextId := if bus.nextId == LAST_ID then 1 else bus.nextId + 1,
         transactions := bus.transactions[bus.nextId := t])
  }

  /** A transaction always gets started, under an id that is neither 0 nor live. */
  lemma IssueIsFresh(sys: System, i: nat, c: Channel, v: Word)
    requires Sound(sys) && i < |sys.slaves|
    ensures Issue(sys.bus, sys.slaves[i].belief.unitId, TableOf(c), 0, !c.PollChannel?, v) ==
            (Issued(sys.bus, Request(LineOf(sys, i), c, v)), sys.bus.nextId)
    ensures sys.bus.nextId != 0 && sys.bus.nextId !in sys.bus.transactions
  {
    assert FindDevice(sys.bus.devices, sys.slaves[i].belief.unitId) == i;
  }

  lemma AgeGrowsByOne(bus: Bus, t: Transaction, channels: nat, id: Id)
    requires Young(bus, channels) && Timely(bus) && |Recent(bus)| <= channels <= 768 && id in bus.transactions
    ensures Age(Issued(bus, t).nextId, id) == Age(bus.nextId, id) + 1
  {
    AgeIsSmall(bus, channels, id);
  }

  lemma IssueIsRecent(bus: Bus, t: Transaction, channels: nat)
    requires Young(bus, channels) && t.startedAt == bus.now && t.outcome.Pending?
    ensures bus.nextId !in bus.transactions && Recent(Issued(bus, t)) == Recent(bus) + {bus.nextId}
  {
  }

  lemma IssueKeepsYoung(bus: Bus, t: Transaction, channels: nat)
    requires Young(bus, channels) && Timely(bus) && |Recent(bus)| <= channels <= 768
    requires t.startedAt == bus.now && t.outcome.Pending?
    ensures Young(Issued(bus, t), channels) && Timely(Issued(bus, t))
  {
    var r := Issued(bus, t);
    IssueIsRecent(bus, t, channels);
    forall id | id in bus.transactions ensures Age(r.nextId, id) == Age(bus.nextId, id) + 1 {
      AgeGrowsByOne(bus, t, channels, id);
    }
    assert Age(r.nextId, bus.nextId) == 1;
  }

  lemma TakeKeepsTables(sys: System, i: nat, c: Channel, v: Word)
    requires Tables(sys) && i < |sys.slaves|
    ensures Tables(Taken(sys, i, c, v)) && |Taken(sys, i, c, v).slaves| == |sys.slaves|
  {
  }

  lemma TakeKeepsOwned(sys: System, i: nat, c: Channel, v: Word)
    requires Sound(sys) && i < |sys.slaves| && sys.slaves[i].IdOf(c) == 0
    ensures Tables(Taken(sys, i, c, v)) && Owned(Taken(sys, i, c, v))
  {
    hide Tables, Timely, Young;
    TakeKeepsTables(sys, i, c, v);
    IssueIsFresh(sys, i, c, v);
    var r := Taken(sys, i, c, v);
    var id0 := sys.bus.nextId;
    forall j: nat, k | j < |r.slaves| && r.slaves[j].IdOf(k) != 0
      ensures r.slaves[j].IdOf(k) in r.bus.transactions
      ensures Fits(r.bus.transactions[r.slaves[j].IdOf(k)], r.slaves[j].belief.unitId, k)
    {
      if j == i && k == c {
        assert r.slaves[j].IdOf(k) == id0;
      } else {
        assert r.slaves[j].IdOf(k) == sys.slaves[j].IdOf(k);
      }
    }
    forall id | id in r.bus.transactions ensures exists j, k :: Owns(r, j, k, id) {
      if id == id0 {
        assert Owns(r, i, c, id);
      } else {
        var j, k :| Owns(sys, j, k, id);
        assert Owns(r, j, k, id);
      }
    }
  }

  lemma TakenSlot(sys: System, i: nat, c: Channel, v: Word, j: nat, k: Channel)
    requires Sound(sys) && i < |sys.slaves| && sys.slaves[i].IdOf(c) == 0 && j < |sys.slaves|
    ensures |Taken(sys, i, c, v).bus.devices| == |sys.bus.devices|
    ensures LineOf(Taken(sys, i, c, v), j).SlotOf(k) ==
            if j == i && k == c then Some(Request(LineOf(sys, i), c, v)) else LineOf(sys, j).SlotOf(k)
  {
    IssueIsFresh(sys, i, c, v);
    assert sys.slaves[j].IdOf(k) == 0 || sys.slaves[j].IdOf(k) in sys.bus.transactions;
  }

  lemma TakenLine(sys: System, i: nat, c: Channel, v: Word, j: nat)
    requires Sound(sys) && i < |sys.slaves| && sys.slaves[i].IdOf(c) == 0 && j < |sys.slaves|
    ensures |Taken(sys, i, c, v).bus.devices| == |sys.bus.devices|
    ensures LineOf(Taken(sys, i, c, v), j) ==
            if j == i then LineOf(sys, i).WithSlot(c, Some(Request(LineOf(sys, i), c, v))) else LineOf(sys, j)
  {
    IssueIsFresh(sys, i, c, v);
    TakenSlot(sys, i, c, v, j, PollChannel);
    TakenSlot(sys, i, c, v, j, SetpointChannel);
    TakenSlot(sys, i, c, v, j, EnableChannel);
  }

  lemma TakeKeepsSound(sys: System, i: nat, c: Channel, v: Word)
    requires Sound(sys) && i < |sys.slaves| && sys.slaves[i].IdOf(c) == 0
    ensures Sound(Taken(sys, i, c, v))
  {
    IssueIsFresh(sys, i, c, v);
    TakeKeepsOwned(sys, i, c, v);
    FewTransactions(sys);
    IssueKeepsYoung(sys.bus, Request(LineOf(sys, i), c, v), Channels(sys));
  }
}
