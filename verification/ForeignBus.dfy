/** The simulated foreign bus behind the seam of ForeignBus.h (simulation/SimulatedForeignBus.cpp): devices with
    three points each, and asynchronous transactions that are answered after the device's latency or time out. */
module ForeignBus {
  import opened Registers

  datatype Table = InputRegister | HoldingRegister | Coil

  datatype Outcome = Pending | Done | Timeout

  const RESPONSE_TIMEOUT := 300
  const DRIFT_STEP := 1000
  const DRIFT_MAXIMUM_STEPS := 5
  const ID_SPACE := 0x1_0000_0000

  type Id = n: int | 0 <= n < ID_SPACE

  datatype Device = Device(
    unitId: nat, latency: nat, online: bool,
    inputRegister: Word, holdingRegister: Word, coil: Word,
    drifting: bool, driftCentre: Word, driftOffset: int, driftDirection: int)

  datatype Transaction = Transaction(
    unitId: nat, table: Table, isWrite: bool, value: Word, startedAt: nat, outcome: Outcome)

  datatype Bus = Bus(
    devices: seq<Device>, transactions: map<Id, Transaction>, nextId: Id, now: nat, lastDriftAt: nat)

  /** The index of the device with this unit id, or |devices| when there is none. */
  function FindDevice(devices: seq<Device>, unitId: nat): (i: nat)
    ensures i <= |devices|
    ensures i < |devices| ==> devices[i].unitId == unitId
    ensures forall j :: 0 <= j < i ==> devices[j].unitId != unitId
  {
    if devices == [] then 0
    else if devices[0].unitId == unitId then 0
    else 1 + FindDevice(devices[1..], unitId)
  }

  function Point(d: Device, table: Table): Word
  {
    match table
    case InputRegister => d.inputRegister
    case HoldingRegister => d.holdingRegister
    case Coil => d.coil
  }

  function WithPoint(d: Device, table: Table, v: Word): Device
  {
    match table
    case InputRegister => d.(inputRegister := v)
    case HoldingRegister => d.(holdingRegister := v)
    case Coil => d.(coil := CoilBit(v))
  }

  function Drift(d: Device): Device
  {
    if !d.drifting then d
    else
      var direction := if -DRIFT_MAXIMUM_STEPS <= d.driftOffset + d.driftDirection <= DRIFT_MAXIMUM_STEPS
                       then d.driftDirection else -d.driftDirection;
      var offset := d.driftOffset + direction;
      d.(driftDirection := direction, driftOffset := offset, inputRegister := (d.driftCentre + offset) % 0x1_0000)
  }

  function DriftAll(devices: seq<Device>): (r: seq<Device>)
    ensures |r| == |devices|
    ensures forall i :: 0 <= i < |devices| ==> r[i] == Drift(devices[i])
  {
    if devices == [] then [] else DriftAll(devices[..|devices| - 1]) + [Drift(devices[|devices| - 1])]
  }

  /** The drift clock: what it shows after a pass at this time, and whether the sensors move in that pass. */
  function DriftClock(lastDriftAt: nat, now: nat): (nat, bool)
  {
    var last := if lastDriftAt == 0 then now else lastDriftAt;
    if now - last >= DRIFT_STEP then (now, true) else (last, false)
  }

  function Issue(bus: Bus, unitId: nat, table: Table, address: nat, isWrite: bool, value: Word): (Bus, Id)
  {
    if FindDevice(bus.devices, unitId) == |bus.devices| || address != 0 || (isWrite && table.InputRegister?)
      then (bus, 0)
    else
      var next := (bus.nextId + 1) % ID_SPACE;
      (bus.(nextId := if next == 0 then 1 else next,
            transactions := bus.transactions[bus.nextId :=
                Transaction(unitId, table, isWrite, value, bus.now, Pending)]),
       bus.nextId)
  }

  predicate Answers(d: Device, t: Transaction, now: nat) { d.online && now - t.startedAt >= d.latency }

  /** What one pass makes of a transaction. Answering is tested before timing out. */
  function Resolved(d: Device, t: Transaction, now: nat): Transaction
  {
    if !t.outcome.Pending? then t
    else if Answers(d, t, now) then t.(outcome := Done, value := if t.isWrite then t.value else Point(d, t.table))
    else if now - t.startedAt >= RESPONSE_TIMEOUT then t.(outcome := Timeout)
    else t
  }

  /** What the same pass makes of the device: only an answered write changes it. */
  function Applied(d: Device, t: Transaction, now: nat): Device
  {
    if t.outcome.Pending? && Answers(d, t, now) && t.isWrite then WithPoint(d, t.table, t.value) else d
  }

  function Resolve(bus: Bus, id: Id, now: nat): Bus
    requires id in bus.transactions
  {
    var t := bus.transactions[id];
    var i := FindDevice(bus.devices, t.unitId);
    if i == |bus.devices| then bus
    else bus.(devices := bus.devices[i := Applied(bus.devices[i], t, now)],
              transactions := bus.transactions[id := Resolved(bus.devices[i], t, now)])
  }

  ghost predicate IsLeast(m: Id, ids: set<Id>) { m in ids && forall k :: k in ids ==> m <= k }

  lemma LeastExists(ids: set<Id>)
    requires ids != {}
    ensures exists m :: IsLeast(m, ids)
  {
    var x :| x in ids;
    var rest := ids - {x};
    if rest == {} {
      assert ids == {x};
      assert IsLeast(x, ids);
    } else {
      LeastExists(rest);
      var m :| IsLeast(m, rest);
      var least := if m <= x then m else x;
      forall k | k in ids ensures least <= k {
        assert k == x || k in rest;
      }
      assert IsLeast(least, ids);
    }
  }

  function FirstId(ids: set<Id>): (m: Id)
    requires ids != {}
    ensures m in ids && forall k :: k in ids ==> m <= k
  {
    LeastExists(ids);
    assert exists m :: m in ids && forall k :: k in ids ==> m <= k by {
      var m :| IsLeast(m, ids);
    }
    var m :| m in ids && forall k :: k in ids ==> m <= k;
    m
  }

  /** The transactions are visited in the order of their ids. */
  function ResolveAll(bus: Bus, ids: set<Id>, now: nat): (r: Bus)
    requires ids <= bus.transactions.Keys
    ensures r.transactions.Keys == bus.transactions.Keys
    ensures |r.devices| == |bus.devices|
    ensures r.nextId == bus.nextId && r.now == bus.now && r.lastDriftAt == bus.lastDriftAt
    decreases |ids|
  {
    if ids == {} then bus
    else
      var id := FirstId(ids);
      ResolveAll(Resolve(bus, id, now), ids - {id}, now)
  }

  function Advance(bus: Bus, now: nat): Bus
  {
    var (last, drift) := DriftClock(bus.lastDriftAt, now);
    bus.(now := now, lastDriftAt := last, devices := if drift then DriftAll(bus.devices) else bus.devices)
  }

  function Serviced(bus: Bus, now: nat): Bus
  {
    ResolveAll(Advance(bus, now), bus.transactions.Keys, now)
  }

  /** A finished transaction is forgotten as soon as it has been reported. */
  function Check(bus: Bus, id: Id): (Bus, Outcome, Word)
  {
    if id !in bus.transactions then (bus, Timeout, 0)
    else
      var t := bus.transactions[id];
      (if t.outcome.Pending? then bus else bus.(transactions := bus.transactions - {id}),
       t.outcome,
       if t.outcome.Done? then t.value else 0)
  }

  function SetOnline(bus: Bus, unitId: nat, online: bool): Bus
  {
    var i := FindDevice(bus.devices, unitId);
    if i == |bus.devices| then bus else bus.(devices := bus.devices[i := bus.devices[i].(online := online)])
  }

  /** What the field device itself does to one of its points. */
  function LocalChange(d: Device, table: Table, v: Word): Device
  {
    var changed := WithPoint(d, table, v);
    if table.InputRegister? then changed.(drifting := false) else changed
  }

  function SetPoint(bus: Bus, unitId: nat, table: Table, address: nat, v: Word): Bus
  {
    var i := FindDevice(bus.devices, unitId);
    if i == |bus.devices| || address != 0 then bus
    else bus.(devices := bus.devices[i := LocalChange(bus.devices[i], table, v)])
  }

  /** A point that is not mapped is refused, and so is a write to a sensor: nothing changes. Every other transaction is
      pending under the next id, and the id after that is one more, leaving out 0. */
  lemma UnmappedPointsAreRefused(bus: Bus, unitId: nat, table: Table, address: nat, isWrite: bool, value: Word)
    requires bus.nextId != 0
    ensures var (r, id) := Issue(bus, unitId, table, address, isWrite, value);
            if (exists d :: d in bus.devices && d.unitId == unitId)
               && address == 0 && !(isWrite && table.InputRegister?) then
              && id == bus.nextId && r.nextId == (if bus.nextId == 0xFFFF_FFFF then 1 else bus.nextId + 1)
              && r == bus.(nextId := r.nextId,
                           transactions := bus.transactions[id :=
                               Transaction(unitId, table, isWrite, value, bus.now, Pending)])
            else r == bus && id == 0
  {
    var i := FindDevice(bus.devices, unitId);
    if i < |bus.devices| {
      assert bus.devices[i] in bus.devices;
    }
  }

  // -- The simulation as the program runs it ---------------------------------

  class SimulatedForeignBus {
    const devices: array<Device>
    var transactions: map<Id, Transaction>
    var nextTransactionId: Id
    var nowMilliseconds: nat
    var lastDriftAt: nat

    ghost function View(): Bus
      reads this, devices
    {
      Bus(devices[..], transactions, nextTransactionId, nowMilliseconds, lastDriftAt)
    }

    constructor (table: seq<Device>)
      ensures View() == Bus(table, map[], 1, 0, 0)
      ensures fresh(devices)
    {
      devices := new Device[|table|](i requires 0 <= i < |table| => table[i]);
      transactions := map[];
      nextTransactionId := 1;
      nowMilliseconds := 0;
      lastDriftAt := 0;
    }

    method Find(unitId: nat) returns (i: nat)
      ensures i == FindDevice(devices[..], unitId)
    {
      i := 0;
      while i < devices.Length && devices[i].unitId != unitId
        invariant i <= devices.Length
        invariant forall j :: 0 <= j < i ==> devices[j].unitId != unitId
      {
        i := i + 1;
      }
    }

    method StartTransaction(unitId: nat, table: Table, address: nat, isWrite: bool, value: Word) returns (id: Id)
      modifies this`transactions, this`nextTransactionId
      ensures (View(), id) == Issue(old(View()), unitId, table, address, isWrite, value)
    {
      var i := Find(unitId);
      if i == devices.Length || address != 0 {
        return 0;
      }
      if isWrite && table.InputRegister? {
        return 0;
      }
      id := nextTransactionId;
      nextTransactionId := (nextTransactionId + 1) % ID_SPACE;
      if nextTransactionId == 0 {
        nextTransactionId := 1;
      }
      transactions := transactions[id := Transaction(unitId, table, isWrite, value, nowMilliseconds, Pending)];
    }

    method DriftDevices()
      modifies devices
      ensures devices[..] == DriftAll(old(devices[..]))
    {
      var i := 0;
      while i < devices.Length
        invariant 0 <= i <= devices.Length
        invariant forall j :: 0 <= j < i ==> devices[j] == Drift(old(devices[j]))
        invariant forall j :: i <= j < devices.Length ==> devices[j] == old(devices[j])
      {
        if devices[i].drifting {
          if devices[i].driftOffset + devices[i].driftDirection > DRIFT_MAXIMUM_STEPS ||
             devices[i].driftOffset + devices[i].driftDirection < -DRIFT_MAXIMUM_STEPS {
            devices[i] := devices[i].(driftDirection := -devices[i].driftDirection);
          }
          devices[i] := devices[i].(driftOffset := devices[i].driftOffset + devices[i].driftDirection);
          devices[i] := devices[i].(inputRegister := (devices[i].driftCentre + devices[i].driftOffset) % 0x1_0000);
        }
        i := i + 1;
      }
    }

    method ResolveOne(id: Id, now: nat)
      requires id in transactions
      modifies this`transactions, devices
      ensures View() == Resolve(old(View()), id, now)
    {
      var t := transactions[id];
      var i := Find(t.unitId);
      if !t.outcome.Pending? || i == devices.Length {
        return;
      }
      var elapsed := now - t.startedAt;
      if devices[i].online && elapsed >= devices[i].latency {
        if t.isWrite {
          devices[i] := WithPoint(devices[i], t.table, t.value);
        } else {
          t := t.(value := Point(devices[i], t.table));
        }
        t := t.(outcome := Done);
      } else if elapsed >= RESPONSE_TIMEOUT {
        t := t.(outcome := Timeout);
      }
      transactions := transactions[id := t];
    }

    method Service(now: nat)
      modifies this`transactions, this`nowMilliseconds, this`lastDriftAt, devices
      ensures View() == Serviced(old(View()), now)
    {
      nowMilliseconds := now;
      if lastDriftAt == 0 {
        lastDriftAt := now;
      }
      if now - lastDriftAt >= DRIFT_STEP {
        lastDriftAt := now;
        DriftDevices();
      }
      var entries := transactions.Keys;
      while entries != {}
        invariant entries <= transactions.Keys
        invariant ResolveAll(View(), entries, now) == Serviced(old(View()), now)
        decreases |entries|
      {
        var id := FirstId(entries);
        ResolveOne(id, now);
        entries := entries - {id};
      }
    }

    method CheckTransaction(id: Id) returns (outcome: Outcome, value: Word)
      modifies this`transactions
      ensures (View(), outcome, value) == Check(old(View()), id)
    {
      value := 0;
      if id !in transactions {
        return Timeout, 0;
      }
      outcome := transactions[id].outcome;
      if !outcome.Pending? {
        if outcome.Done? {
          value := transactions[id].value;
        }
        transactions := transactions - {id};
      }
    }

    method SetSlaveOnline(unitId: nat, online: bool) returns (known: bool)
      modifies devices
      ensures View() == SetOnline(old(View()), unitId, online)
      ensures known <==> exists d :: d in old(devices[..]) && d.unitId == unitId
    {
      var i := Find(unitId);
      if i == devices.Length {
        return false;
      }
      assert devices[i] in devices[..];
      devices[i] := devices[i].(online := online);
      return true;
    }

    method SetDevicePoint(unitId: nat, table: Table, address: nat, v: Word) returns (known: bool)
      modifies devices
      ensures View() == SetPoint(old(View()), unitId, table, address, v)
      ensures known <==> address == 0 && exists d :: d in old(devices[..]) && d.unitId == unitId
    {
      var i := Find(unitId);
      if i == devices.Length || address != 0 {
        return false;
      }
      assert devices[i] in devices[..];
      devices[i] := WithPoint(devices[i], table, v);
      if table.InputRegister? {
        devices[i] := devices[i].(drifting := false);
      }
      return true;
    }
  }
}
