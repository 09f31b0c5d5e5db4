/** Commandable outputs: the 16-slot Priority_Array of section 19.2 of ANSI/ASHRAE 135-2024, as main.cpp keeps
    and resolves it (main.cpp:206-210, 259-270, 757-761, 824-827). */
module Priority {
  import opened Wrappers

  const SLOTS := 16

  /** The value of a Commandable record. A relinquished slot keeps its last value, which nobody reads. */
  datatype CommandRecord = CommandRecord(isSet: seq<bool>, value: seq<real>, relinquishDefault: real)

  type Command = c: CommandRecord | |c.isSet| == SLOTS && |c.value| == SLOTS
    witness CommandRecord(seq(SLOTS, _ => false), seq(SLOTS, _ => 0.0), 0.0)

  /** A priority octet outside 1..16 commands the lowest priority. */
  function EffectivePriority(priority: Octet): (p: int)
    ensures 1 <= p <= SLOTS
  {
    if 1 <= priority <= SLOTS then priority else 16
  }

  /** An octet that names one of the priorities above the lowest. Every other octet stands for the lowest one, 16. */
  predicate AboveLowest(priority: Octet) { 1 <= priority <= 15 }

  predicate SamePriority(p: Octet, q: Octet) { p == q || (!AboveLowest(p) && !AboveLowest(q)) }

  /** Lower numbers come first. */
  predicate Outranks(p: Octet, q: Octet) { AboveLowest(p) && (!AboveLowest(q) || p < q) }

  /** Slot 0 is for priority 1, and so on; slot 15 is for the lowest priority, by whatever octet. */
  predicate InSlot(priority: Octet, slot: nat)
  {
    if slot < 15 then priority == slot + 1 else slot == 15 && !AboveLowest(priority)
  }

  function FreshCommand(relinquishDefault: real): Command
  {
    CommandRecord(seq(SLOTS, _ => false), seq(SLOTS, _ => 0.0), relinquishDefault)
  }

  function WinnerFrom(c: Command, slot: nat): real
    requires slot <= SLOTS
    decreases SLOTS - slot
  {
    if slot == SLOTS then c.relinquishDefault
    else if c.isSet[slot] then c.value[slot]
    else WinnerFrom(c, slot + 1)
  }

  function Winner(c: Command): real { WinnerFrom(c, 0) }

  function Write(c: Command, priority: Octet, v: real): Command
  {
    var slot := EffectivePriority(priority) - 1;
    c.(isSet := c.isSet[slot := true], value := c.value[slot := v])
  }

  function Relinquish(c: Command, priority: Octet): Command
  {
    var slot := EffectivePriority(priority) - 1;
    c.(isSet := c.isSet[slot := false])
  }

  /** A write sets the slot of its priority, a relinquish clears it, and neither touches another slot. */
  lemma OneSlotChanges(c: Command, priority: Octet, v: real, slot: nat)
    requires slot < SLOTS
    ensures var w, r := Write(c, priority, v), Relinquish(c, priority);
            && w.isSet[slot] == (InSlot(priority, slot) || c.isSet[slot])
            && w.value[slot] == (if InSlot(priority, slot) then v else c.value[slot])
            && r.isSet[slot] == (!InSlot(priority, slot) && c.isSet[slot])
            && r.value[slot] == c.value[slot]
            && w.relinquishDefault == r.relinquishDefault == c.relinquishDefault
  {
  }

  lemma SlotsArePriorities(p: Octet, q: Octet) returns (slot: nat)
    ensures slot < SLOTS && InSlot(p, slot)
    ensures InSlot(q, slot) <==> SamePriority(p, q)
    ensures forall other: nat :: InSlot(p, other) ==> other == slot
    ensures forall other: nat :: InSlot(q, other) ==> (other < slot <==> Outranks(q, p))
  {
    slot := if AboveLowest(p) then p - 1 else 15;
  }

  // -- The record as the program holds it: two arrays assigned slot by slot ---

  class Commandable {
    const isSet: array<bool>
    const value: array<real>
    const relinquishDefault: real

    ghost predicate Valid() { isSet.Length == SLOTS && value.Length == SLOTS }

    ghost function Repr(): set<object> { {this, isSet, value} }

    ghost function View(): Command
      requires Valid()
      reads isSet, value
    {
      CommandRecord(isSet[..], value[..], relinquishDefault)
    }

    constructor (relinquishDefault: real)
      ensures Valid() && fresh(Repr()) && View() == FreshCommand(relinquishDefault)
    {
      isSet := new bool[SLOTS](_ => false);
      value := new real[SLOTS](_ => 0.0);
      this.relinquishDefault := relinquishDefault;
    }

    method WinningValue() returns (v: real)
      requires Valid()
      ensures v == Winner(View())
    {
      var slotIndex := 0;
      while slotIndex < SLOTS
        invariant 0 <= slotIndex <= SLOTS
        invariant Winner(View()) == WinnerFrom(View(), slotIndex)
      {
        if isSet[slotIndex] {
          return value[slotIndex];
        }
        slotIndex := slotIndex + 1;
      }
      return relinquishDefault;
    }

    method CommandWrite(priority: Octet, v: real)
      requires Valid()
      modifies isSet, value
      ensures View() == Write(old(View()), priority, v)
      ensures forall slot: nat :: slot < SLOTS ==>
                && isSet[slot] == (InSlot(priority, slot) || old(isSet[slot]))
                && value[slot] == (if InSlot(priority, slot) then v else old(value[slot]))
    {
      var slot := EffectivePriority(priority);
      isSet[slot - 1] := true;
      value[slot - 1] := v;
    }

    method RelinquishSlot(priority: Octet)
      requires Valid()
      modifies isSet
      ensures View() == Relinquish(old(View()), priority)
      ensures forall slot: nat :: slot < SLOTS ==> isSet[slot] == (!InSlot(priority, slot) && old(isSet[slot]))
    {
      isSet[EffectivePriority(priority) - 1] := false;
    }
  }

  // -- Against the history of commands ---------------------------------------

  datatype Operation = WriteAt(priority: Octet, v: real) | RelinquishAt(priority: Octet)

  function Apply(c: Command, op: Operation): Command
  {
    match op
    case WriteAt(priority, v) => Write(c, priority, v)
    case RelinquishAt(priority) => Relinquish(c, priority)
  }

  function ApplyAll(c: Command, ops: seq<Operation>): Command
  {
    if ops == [] then c else Apply(ApplyAll(c, ops[..|ops| - 1]), ops[|ops| - 1])
  }

  /** Operation i is a write that nothing after it, at the same priority, has replaced or relinquished. */
  ghost predicate Stands(ops: seq<Operation>, i: int)
  {
    0 <= i < |ops| && ops[i].WriteAt? &&
    forall j :: i < j < |ops| ==> !SamePriority(ops[j].priority, ops[i].priority)
  }

  lemma StandsAfter(ops: seq<Operation>, i: int)
    requires ops != [] && 0 <= i < |ops| - 1
    ensures Stands(ops, i) <==>
            Stands(ops[..|ops| - 1], i) && !SamePriority(ops[|ops| - 1].priority, ops[i].priority)
  {
    var n, before := |ops| - 1, ops[..|ops| - 1];
    assert ops[i] == before[i];
    if Stands(ops, i) {
      assert forall j :: i < j < n ==> before[j] == ops[j];
    }
  }

  /** Slot p is set exactly when the last operation at its priority was a write, and holds what that wrote. */
  ghost predicate HoldsStandingWrite(c: Command, ops: seq<Operation>, slot: nat)
    requires slot < SLOTS
  {
    && (c.isSet[slot] ==> exists i :: Stands(ops, i) && InSlot(ops[i].priority, slot) && ops[i].v == c.value[slot])
    && (!c.isSet[slot] ==> forall i :: Stands(ops, i) ==> !InSlot(ops[i].priority, slot))
  }

  lemma NewestStands(c: Command, ops: seq<Operation>, slot: nat)
    requires slot < SLOTS && ops != [] && InSlot(ops[|ops| - 1].priority, slot)
    ensures HoldsStandingWrite(Apply(c, ops[|ops| - 1]), ops, slot)
  {
    var n := |ops| - 1;
    var op := ops[n];
    OneSlotChanges(c, op.priority, if op.WriteAt? then op.v else 0.0, slot);
    if op.WriteAt? {
      assert Stands(ops, n);
    } else {
      forall i | Stands(ops, i) ensures !InSlot(ops[i].priority, slot) {
        var own := SlotsArePriorities(op.priority, ops[i].priority);
      }
    }
  }

  lemma OthersStand(c: Command, ops: seq<Operation>, slot: nat)
    requires slot < SLOTS && ops != [] && !InSlot(ops[|ops| - 1].priority, slot)
    requires HoldsStandingWrite(c, ops[..|ops| - 1], slot)
    ensures HoldsStandingWrite(Apply(c, ops[|ops| - 1]), ops, slot)
  {
    var n, before := |ops| - 1, ops[..|ops| - 1];
    var op := ops[n];
    OneSlotChanges(c, op.priority, if op.WriteAt? then op.v else 0.0, slot);
    if c.isSet[slot] {
      var i :| Stands(before, i) && InSlot(before[i].priority, slot) && before[i].v == c.value[slot];
      var own := SlotsArePriorities(before[i].priority, op.priority);
      StandsAfter(ops, i);
    } else {
      forall i | Stands(ops, i) ensures !InSlot(ops[i].priority, slot) {
        if i < n {
          StandsAfter(ops, i);
        }
      }
    }
  }

  /** After any history: slot 0 to 14 tells of the operations at exactly one octet, slot 15 of all those at 0 and
      at 16 to 255. */
  lemma {:induction false} SlotHoldsStandingWrite(relinquishDefault: real, ops: seq<Operation>, slot: nat)
    requires slot < SLOTS
    ensures HoldsStandingWrite(ApplyAll(FreshCommand(relinquishDefault), ops), ops, slot)
    ensures ApplyAll(FreshCommand(relinquishDefault), ops).relinquishDefault == relinquishDefault
  {
    if ops == [] {
    } else {
      hide HoldsStandingWrite;
      var n := |ops| - 1;
      SlotHoldsStandingWrite(relinquishDefault, ops[..n], slot);
      var c := ApplyAll(FreshCommand(relinquishDefault), ops[..n]);
      if InSlot(ops[n].priority, slot) {
        NewestStands(c, ops, slot);
      } else {
        OthersStand(c, ops, slot);
      }
    }
  }

  lemma {:induction false} WinnerIsFirstSetSlot(c: Command, slot: nat)
    requires slot <= SLOTS
    ensures (exists p: nat :: slot <= p < SLOTS && c.isSet[p] && WinnerFrom(c, slot) == c.value[p] &&
                         forall q :: slot <= q < p ==> !c.isSet[q])
         || (WinnerFrom(c, slot) == c.relinquishDefault && forall q :: slot <= q < SLOTS ==> !c.isSet[q])
    decreases SLOTS - slot
  {
    if slot == SLOTS || c.isSet[slot] {
    } else {
      WinnerIsFirstSetSlot(c, slot + 1);
    }
  }

  /** Operation i is a standing write that no other one outranks. */
  ghost predicate Commands(ops: seq<Operation>, i: int)
  {
    Stands(ops, i) && forall j :: Stands(ops, j) ==> !Outranks(ops[j].priority, ops[i].priority)
  }

  /** Two standing writes are never at the same priority. */
  lemma StandingWriteIsUnique(ops: seq<Operation>, i: int, j: int)
    requires Stands(ops, i) && Stands(ops, j) && SamePriority(ops[i].priority, ops[j].priority)
    ensures i == j
  {
  }

  lemma StandingWriteIsInSlot(relinquishDefault: real, ops: seq<Operation>, i: int) returns (slot: nat)
    requires Stands(ops, i)
    ensures var c := ApplyAll(FreshCommand(relinquishDefault), ops);
            slot < SLOTS && InSlot(ops[i].priority, slot) && c.isSet[slot] && c.value[slot] == ops[i].v
  {
    slot := SlotsArePriorities(ops[i].priority, ops[i].priority);
    SlotHoldsStandingWrite(relinquishDefault, ops, slot);
    var c := ApplyAll(FreshCommand(relinquishDefault), ops);
    assert c.isSet[slot];
    var j :| Stands(ops, j) && InSlot(ops[j].priority, slot) && ops[j].v == c.value[slot];
    var own := SlotsArePriorities(ops[i].priority, ops[j].priority);
    StandingWriteIsUnique(ops, i, j);
  }

  lemma CommandingWriteWins(relinquishDefault: real, ops: seq<Operation>, i: int)
    requires Commands(ops, i)
    ensures Winner(ApplyAll(FreshCommand(relinquishDefault), ops)) == ops[i].v
  {
    var c := ApplyAll(FreshCommand(relinquishDefault), ops);
    var slot := StandingWriteIsInSlot(relinquishDefault, ops, i);
    WinnerIsFirstSetSlot(c, 0);
    var q: nat :| q < SLOTS && c.isSet[q] && Winner(c) == c.value[q] && forall r :: 0 <= r < q ==> !c.isSet[r];
    SlotHoldsStandingWrite(relinquishDefault, ops, q);
    var j :| Stands(ops, j) && InSlot(ops[j].priority, q) && ops[j].v == c.value[q];
    var own := SlotsArePriorities(ops[i].priority, ops[j].priority);
    assert q == slot;
  }

  lemma DefaultWinsAlone(relinquishDefault: real, ops: seq<Operation>)
    ensures Winner(ApplyAll(FreshCommand(relinquishDefault), ops)) == relinquishDefault || exists i :: Stands(ops, i)
  {
    var c := ApplyAll(FreshCommand(relinquishDefault), ops);
    SlotHoldsStandingWrite(relinquishDefault, ops, 0);
    WinnerIsFirstSetSlot(c, 0);
    if q: nat :| q < SLOTS && c.isSet[q] && Winner(c) == c.value[q] && forall r :: 0 <= r < q ==> !c.isSet[r] {
      SlotHoldsStandingWrite(relinquishDefault, ops, q);
    }
  }

  /** Among the standing writes there is one that no other outranks. */
  lemma {:induction false} SomeWriteCommands(ops: seq<Operation>, i: int)
    requires Stands(ops, i)
    ensures exists k :: Commands(ops, k)
    decreases if AboveLowest(ops[i].priority) then ops[i].priority else 16
  {
    if j :| Stands(ops, j) && Outranks(ops[j].priority, ops[i].priority) {
      SomeWriteCommands(ops, j);
    } else {
      assert Commands(ops, i);
    }
  }

  /** Section 19.2: after any sequence of writes and relinquishes, at any priority octet, the winning value is
      that of the standing write which no other one outranks, and the relinquish default when none stands. The octets
      1 to 15 rank by number; 0 and 16 to 255 are one priority, below them all. */
  lemma WinnerRefinesHistory(relinquishDefault: real, ops: seq<Operation>)
    ensures var w := Winner(ApplyAll(FreshCommand(relinquishDefault), ops));
            && (forall i :: Commands(ops, i) ==> w == ops[i].v)
            && ((forall i :: !Stands(ops, i)) ==> w == relinquishDefault)
            && ((exists i :: Stands(ops, i)) ==> exists i :: Commands(ops, i))
  {
    forall i | Commands(ops, i) ensures Winner(ApplyAll(FreshCommand(relinquishDefault), ops)) == ops[i].v {
      CommandingWriteWins(relinquishDefault, ops, i);
    }
    DefaultWinsAlone(relinquishDefault, ops);
    if i :| Stands(ops, i) {
      SomeWriteCommands(ops, i);
    }
  }
}
