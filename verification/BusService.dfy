/** Answering every transaction in one pass: although the bus visits them in the order of their ids, each device
    and each transaction ends up as if it had been alone. */
module BusService {
  import opened Wrappers
  import opened ForeignBus
  import opened Line

  ghost predicate Distinct(devices: seq<Device>)
  {
    forall i, j :: 0 <= i < j < |devices| ==> devices[i].unitId != devices[j].unitId
  }

  /** A transaction the gateway could have started: it reads the sensor or writes an output of a known device. */
  ghost predicate Regular(devices: seq<Device>, t: Transaction)
  {
    && (t.isWrite <==> !t.table.InputRegister?)
    && (exists i :: 0 <= i < |devices| && devices[i].unitId == t.unitId)
  }

  ghost predicate AllRegular(bus: Bus)
  {
    Distinct(bus.devices) && forall id :: id in bus.transactions ==> Regular(bus.devices, bus.transactions[id])
  }

  function SlotIn(bus: Bus, ids: set<Id>, id: Id): Slot
    requires ids <= bus.transactions.Keys
  {
    if id in ids then Some(bus.transactions[id]) else None
  }

  /** The device as far as answering goes is not changed by the writes of the same pass. */
  lemma ResolveIsLocal(bus: Bus, id: Id, now: nat)
    requires id in bus.transactions && AllRegular(bus)
    ensures AllRegular(Resolve(bus, id, now))
    ensures forall k :: k in bus.transactions && k != id ==>
              Resolve(bus, id, now).transactions[k] == bus.transactions[k]
    ensures forall i :: 0 <= i < |bus.devices| ==>
      var d, d' := bus.devices[i], Resolve(bus, id, now).devices[i];
      && d'.unitId == d.unitId && d'.online == d.online && d'.latency == d.latency
      && d'.inputRegister == d.inputRegister
      && d' == if bus.transactions[id].unitId == d.unitId then Applied(d, bus.transactions[id], now) else d
  {
    var r, t := Resolve(bus, id, now), bus.transactions[id];
    var i := FindDevice(bus.devices, t.unitId);
    assert i < |bus.devices|;
    assert forall j :: 0 <= j < |bus.devices| ==> r.devices[j].unitId == bus.devices[j].unitId;
    forall k | k in r.transactions ensures Regular(r.devices, r.transactions[k]) {
      assert Regular(bus.devices, bus.transactions[k]);
      assert r.transactions[k].unitId == bus.transactions[k].unitId;
      var j :| 0 <= j < |bus.devices| && bus.devices[j].unitId == bus.transactions[k].unitId;
      assert r.devices[j].unitId == r.transactions[k].unitId;
    }
  }

  ghost predicate SameForAnswering(d: Device, d': Device)
  {
    d'.online == d.online && d'.latency == d.latency && d'.inputRegister == d.inputRegister
  }

  lemma ResolvedLooksAtLittle(d: Device, d': Device, t: Transaction, now: nat)
    requires SameForAnswering(d, d') && (t.isWrite || t.table.InputRegister?)
    ensures Resolved(d', t, now) == Resolved(d, t, now)
  {
  }

  /** Resolving one transaction is no concern of another. */
  lemma OthersAreLeft(bus: Bus, m: Id, now: nat, id: Id, i: nat)
    requires m in bus.transactions && id in bus.transactions && AllRegular(bus) && m != id
    requires i < |bus.devices| && bus.devices[i].unitId == bus.transactions[id].unitId
    ensures var next, t := Resolve(bus, m, now), bus.transactions[id];
            && AllRegular(next) && next.transactions.Keys == bus.transactions.Keys && |next.devices| == |bus.devices|
            && next.transactions[id] == t && next.devices[i].unitId == t.unitId
            && Resolved(next.devices[i], t, now) == Resolved(bus.devices[i], t, now)
  {
    hide Applied, Resolved;
    ResolveIsLocal(bus, m, now);
    assert Regular(bus.devices, bus.transactions[id]);
    ResolvedLooksAtLittle(bus.devices[i], Resolve(bus, m, now).devices[i], bus.transactions[id], now);
  }

  lemma OneIsResolved(bus: Bus, id: Id, now: nat, i: nat)
    requires id in bus.transactions && AllRegular(bus)
    requires i < |bus.devices| && bus.devices[i].unitId == bus.transactions[id].unitId
    ensures var next, t := Resolve(bus, id, now), bus.transactions[id];
            && AllRegular(next) && next.transactions.Keys == bus.transactions.Keys && |next.devices| == |bus.devices|
            && next.devices[i].unitId == t.unitId && next.transactions[id].unitId == t.unitId
            && next.transactions[id] == Resolved(bus.devices[i], t, now)
  {
    ResolveIsLocal(bus, id, now);
    assert FindDevice(bus.devices, bus.transactions[id].unitId) == i;
  }

  lemma {:induction false} EveryTransactionAlone(bus: Bus, ids: set<Id>, now: nat, id: Id, i: nat)
    requires ids <= bus.transactions.Keys && AllRegular(bus)
    requires id in bus.transactions && i < |bus.devices| && bus.devices[i].unitId == bus.transactions[id].unitId
    ensures ResolveAll(bus, ids, now).transactions[id] ==
            if id in ids then Resolved(bus.devices[i], bus.transactions[id], now) else bus.transactions[id]
    decreases |ids|
  {
    hide Resolve, Resolved, AllRegular;
    if ids == {} {
    } else {
      var m := FirstId(ids);
      if m == id {
        OneIsResolved(bus, id, now, i);
      } else {
        OthersAreLeft(bus, m, now, id, i);
      }
      EveryTransactionAlone(Resolve(bus, m, now), ids - {m}, now, id, i);
    }
  }

  /** The only write to a point of device i among these transactions is s for the register, e for the coil. */
  ghost predicate OneWriter(bus: Bus, ids: set<Id>, i: nat, s: Id, e: Id)
    requires ids <= bus.transactions.Keys && i < |bus.devices|
  {
    && (forall id :: id in ids && bus.transactions[id].unitId == bus.devices[i].unitId ==>
          match bus.transactions[id].table
          case InputRegister => id != s && id != e
          case HoldingRegister => id == s
          case Coil => id == e)
    && (s in ids ==> bus.transactions[s].unitId == bus.devices[i].unitId && bus.transactions[s].table.HoldingRegister?)
    && (e in ids ==> bus.transactions[e].unitId == bus.devices[i].unitId && bus.transactions[e].table.Coil?)
  }

  lemma OneWriterRemains(bus: Bus, ids: set<Id>, m: Id, now: nat, i: nat, s: Id, e: Id)
    requires ids <= bus.transactions.Keys && AllRegular(bus)
    requires i < |bus.devices| && OneWriter(bus, ids, i, s, e) && m in ids
    ensures AllRegular(Resolve(bus, m, now)) && OneWriter(Resolve(bus, m, now), ids - {m}, i, s, e)
  {
    ResolveIsLocal(bus, m, now);
  }

  lemma WritesCommute(d: Device, t: Transaction, u: Transaction, now: nat)
    requires t.table.HoldingRegister? && u.table.Coil?
    ensures Applied(Applied(d, u, now), t, now) == Applied(Applied(d, t, now), u, now)
  {
  }

  /** What the first of the transactions does to device i, and what is left for the others. */
  lemma FirstDevice(bus: Bus, ids: set<Id>, m: Id, now: nat, i: nat, s: Id, e: Id)
    requires ids <= bus.transactions.Keys && AllRegular(bus)
    requires i < |bus.devices| && OneWriter(bus, ids, i, s, e) && m in ids
    ensures var next := Resolve(bus, m, now);
            && ids - {m} <= next.transactions.Keys && |next.devices| == |bus.devices|
            && SlotIn(next, ids - {m}, s) == (if m == s then None else SlotIn(bus, ids, s))
            && SlotIn(next, ids - {m}, e) == (if m == e then None else SlotIn(bus, ids, e))
            && next.devices[i] ==
               if m == s || m == e then Applied(bus.devices[i], bus.transactions[m], now) else bus.devices[i]
  {
    ResolveIsLocal(bus, m, now);
    assert Regular(bus.devices, bus.transactions[m]);
  }

  lemma {:induction false} EveryDeviceAlone(bus: Bus, ids: set<Id>, now: nat, i: nat, s: Id, e: Id)
    requires ids <= bus.transactions.Keys && AllRegular(bus) && i < |bus.devices| && OneWriter(bus, ids, i, s, e)
    ensures ResolveAll(bus, ids, now).devices[i] ==
            AppliedSlot(AppliedSlot(bus.devices[i], SlotIn(bus, ids, s), now), SlotIn(bus, ids, e), now)
    decreases |ids|
  {
    if ids == {} {
    } else {
      var m := FirstId(ids);
      FirstDevice(bus, ids, m, now, i, s, e);
      OneWriterRemains(bus, ids, m, now, i, s, e);
      EveryDeviceAlone(Resolve(bus, m, now), ids - {m}, now, i, s, e);
      if m == e && s in ids && s != e {
        WritesCommute(bus.devices[i], bus.transactions[s], bus.transactions[m], now);
      }
    }
  }

  lemma AdvanceKeeps(bus: Bus, now: nat)
    ensures Advance(bus, now).transactions == bus.transactions && |Advance(bus, now).devices| == |bus.devices|
    ensures forall i :: 0 <= i < |bus.devices| ==>
      Advance(bus, now).devices[i] == Moved(bus.devices[i], DriftClock(bus.lastDriftAt, now).1)
      && Advance(bus, now).devices[i].unitId == bus.devices[i].unitId
  {
  }
}
