/** The BACnet side of the gateway: which point a (device, object type, object instance) names, and the property
    callbacks that answer from the cache and fill the priority arrays (main.cpp:275-299, 328-338, 473-600, 757-836). */
module Callbacks {
  import opened Wrappers
  import opened Registers
  import opened Priority
  import opened Gateway
  import opened Runs

  const ANALOG_INPUT := 0
  const ANALOG_OUTPUT := 1
  const BINARY_OUTPUT := 4
  const NETWORK_PORT := 56

  const OUT_OF_SERVICE := 81
  const POLARITY := 84
  const PRESENT_VALUE := 85
  const PRIORITY_ARRAY := 87
  const RELIABILITY := 103
  const RELINQUISH_DEFAULT := 104
  const UNITS := 117
  const BACNET_IP_MODE := 408

  const NO_FAULT_DETECTED := 0
  const COMMUNICATION_FAILURE := 12
  const DEGREES_CELSIUS := 62
  const POLARITY_NORMAL := 0
  const BACNET_IP_MODE_NORMAL := 0
  const NETWORK_PORT_INSTANCE := 1
  const VALUE_OUT_OF_RANGE := 37

  datatype Name = Name(device: nat, objectType: nat, instance: nat)

  /** A mapped point: a slave, and one of its three channels. */
  datatype Place = Place(slave: nat, kind: Channel)

  // -- Names and points -------------------------------------------------------------------------

  function KindOf(objectType: nat): Option<Channel>
  {
    if objectType == ANALOG_INPUT then Some(PollChannel)
    else if objectType == ANALOG_OUTPUT then Some(SetpointChannel)
    else if objectType == BINARY_OUTPUT then Some(EnableChannel)
    else None
  }

  function TypeOf(kind: Channel): nat
  {
    match kind
    case PollChannel => ANALOG_INPUT
    case SetpointChannel => ANALOG_OUTPUT
    case EnableChannel => BINARY_OUTPUT
  }

  predicate Matches(mode: Mode, gateway: nat, s: SlaveName, name: Name)
  {
    if mode.EmbeddedObjects? then name.device == gateway && name.instance == s.unitId
    else name.device == s.virtualDevice && name.instance == 1
  }

  function FindFrom(mode: Mode, gateway: nat, slaves: seq<SlaveName>, name: Name, i: nat): (r: nat)
    requires i <= |slaves|
    ensures i <= r <= |slaves|
    decreases |slaves| - i
  {
    if i == |slaves| || Matches(mode, gateway, slaves[i], name) then i
    else FindFrom(mode, gateway, slaves, name, i + 1)
  }

  function FindPlace(mode: Mode, gateway: nat, slaves: seq<SlaveName>, name: Name): (p: Option<Place>)
    ensures p.Some? ==> p.value.slave < |slaves|
  {
    var kind := KindOf(name.objectType);
    var i := FindFrom(mode, gateway, slaves, name, 0);
    if kind.None? || i == |slaves| then None else Some(Place(i, kind.value))
  }

  function FindMappedPoint(sys: System, gateway: nat, name: Name): (p: Option<Place>)
    ensures p.Some? ==> p.value.slave < |sys.slaves|
  {
    FindPlace(sys.mode, gateway, NamesOf(sys.slaves), name)
  }

  /** The name a point has in a mode. */
  function NameOf(sys: System, gateway: nat, p: Place): Name
    requires p.slave < |sys.slaves|
  {
    var b := sys.slaves[p.slave].belief;
    if sys.mode.EmbeddedObjects? then Name(gateway, TypeOf(p.kind), b.unitId)
    else Name(b.virtualDevice, TypeOf(p.kind), 1)
  }

  /** Unit ids are distinct, and so are the virtual devices. */
  predicate DistinctNames(sys: System)
  {
    forall i, j :: 0 <= i < j < |sys.slaves| ==>
      && sys.slaves[i].belief.unitId != sys.slaves[j].belief.unitId
      && sys.slaves[i].belief.virtualDevice != sys.slaves[j].belief.virtualDevice
  }

  lemma {:induction false} FindFromIsFirst(mode: Mode, gateway: nat, slaves: seq<SlaveName>, name: Name, i: nat)
    requires i <= |slaves|
    ensures var r := FindFrom(mode, gateway, slaves, name, i);
            && (r < |slaves| ==> Matches(mode, gateway, slaves[r], name))
            && forall j :: i <= j < r ==> !Matches(mode, gateway, slaves[j], name)
    decreases |slaves| - i
  {
    if i >= |slaves| || Matches(mode, gateway, slaves[i], name) {
    } else {
      FindFromIsFirst(mode, gateway, slaves, name, i + 1);
    }
  }

  /** In either mode, names and points correspond one to one: with three slaves, exactly nine names mean something. */
  lemma NamesAndPointsCorrespond(sys: System, gateway: nat, name: Name, p: Place)
    requires DistinctNames(sys)
    ensures FindMappedPoint(sys, gateway, name) == Some(p) <==>
                p.slave < |sys.slaves| && name == NameOf(sys, gateway, p)
    ensures p.slave < |sys.slaves| ==>
              var own, b := NameOf(sys, gateway, p), sys.slaves[p.slave].belief;
              && own.objectType == (match p.kind
                                    case PollChannel => 0
                                    case SetpointChannel => 1
                                    case EnableChannel => 4)
              && (sys.mode.EmbeddedObjects? ==> own.device == gateway && own.instance == b.unitId)
              && (sys.mode.VirtualNetwork? ==> own.device == b.virtualDevice && own.instance == 1)
  {
    FindFromIsFirst(sys.mode, gateway, NamesOf(sys.slaves), name, 0);
    assert forall i :: 0 <= i < |sys.slaves| ==>
      NamesOf(sys.slaves)[i] == SlaveName(sys.slaves[i].belief.unitId, sys.slaves[i].belief.virtualDevice);
  }

  // -- Reading -------------------------------------------------------------------------------------

  /** None: this is not the array element of a commandable output. */
  function PrioritySlot(property: nat, index: Option<nat>): Option<nat>
  {
    if property == PRIORITY_ARRAY && index.Some? && 1 <= index.value <= SLOTS then Some(index.value - 1) else None
  }

  function SlotValue(c: Command, slot: nat): Option<real>
    requires slot < SLOTS
  {
    if c.isSet[slot] then Some(c.value[slot]) else None
  }

  function RealOf(b: Belief, kind: Channel, property: nat, index: Option<nat>): Option<real>
  {
    if kind.PollChannel? && property == PRESENT_VALUE then Some(b.measured)
    else if kind.SetpointChannel? then
      match PrioritySlot(property, index)
      case Some(slot) => SlotValue(b.setpoint, slot)
      case None => if property == RELINQUISH_DEFAULT then Some(b.setpoint.relinquishDefault) else None
    else None
  }

  function EnumeratedOf(b: Belief, kind: Channel, property: nat, index: Option<nat>): Option<int>
  {
    if property == RELIABILITY then Some(if b.online then NO_FAULT_DETECTED else COMMUNICATION_FAILURE)
    else if property == UNITS && !kind.EnableChannel? then Some(DEGREES_CELSIUS)
    else if kind.EnableChannel? then
      match PrioritySlot(property, index)
      case Some(slot) => (match SlotValue(b.enable, slot) case None => None case Some(v) => Some(Truncate(v)))
      case None =>
        if property == RELINQUISH_DEFAULT then Some(Truncate(b.enable.relinquishDefault))
        else if property == POLARITY then Some(POLARITY_NORMAL)
        else None
    else None
  }

  /** For an element of a priority array: whether it is NULL. */
  function BoolOf(b: Belief, kind: Channel, property: nat, index: Option<nat>): Option<bool>
  {
    if !kind.PollChannel? && PrioritySlot(property, index).Some? then
      Some(!b.CommandOf(kind).isSet[PrioritySlot(property, index).value])
    else if property == OUT_OF_SERVICE then Some(false)
    else None
  }

  function GetReal(sys: System, gateway: nat, name: Name, property: nat, index: Option<nat>): Option<real>
  {
    match FindMappedPoint(sys, gateway, name)
    case None => None
    case Some(p) => RealOf(sys.slaves[p.slave].belief, p.kind, property, index)
  }

  function GetEnumerated(sys: System, gateway: nat, name: Name, property: nat, index: Option<nat>): Option<int>
  {
    match FindMappedPoint(sys, gateway, name)
    case None =>
      if name == Name(gateway, NETWORK_PORT, NETWORK_PORT_INSTANCE) && property == BACNET_IP_MODE
      then Some(BACNET_IP_MODE_NORMAL) else None
    case Some(p) => EnumeratedOf(sys.slaves[p.slave].belief, p.kind, property, index)
  }

  function GetBool(sys: System, gateway: nat, name: Name, property: nat, index: Option<nat>): Option<bool>
  {
    match FindMappedPoint(sys, gateway, name)
    case None =>
      if name.device == gateway && name.objectType == NETWORK_PORT && property == OUT_OF_SERVICE
        then Some(false) else None
    case Some(p) => BoolOf(sys.slaves[p.slave].belief, p.kind, property, index)
  }

  // -- Writing -------------------------------------------------------------------------------------

  datatype Answer = Accepted | Declined | Refused(error: nat)

  function SetReal(sys: System, gateway: nat, name: Name, property: nat, v: Real, priority: Octet): (System, Answer)
  {
    match FindMappedPoint(sys, gateway, name)
    case None => (sys, Declined)
    case Some(p) =>
      if !p.kind.SetpointChannel? || property != PRESENT_VALUE then (sys, Declined)
      else if !SetpointAccepted(v) then (sys, Refused(VALUE_OUT_OF_RANGE))
      else (Step(sys, Runs.Command(p.slave, SetpointChannel, priority, v.r)), Accepted)
  }

  function SetEnumerated(sys: System, gateway: nat, name: Name, property: nat, v: nat, priority: Octet): (System,
                         Answer)
  {
    match FindMappedPoint(sys, gateway, name)
    case None => (sys, Declined)
    case Some(p) =>
      if !p.kind.EnableChannel? || property != PRESENT_VALUE then (sys, Declined)
      else if v > 1 then (sys, Refused(VALUE_OUT_OF_RANGE))
      else (Step(sys, Runs.Command(p.slave, EnableChannel, priority, v as real)), Accepted)
  }

  function SetNull(sys: System, gateway: nat, name: Name, property: nat, priority: Octet): (System, Answer)
  {
    match FindMappedPoint(sys, gateway, name)
    case None => (sys, Declined)
    case Some(p) =>
      if p.kind.PollChannel? || property != PRESENT_VALUE then (sys, Declined)
      else (Step(sys, Release(p.slave, p.kind, priority)), Accepted)
  }

  // -- The callbacks as the program runs them --------------------------------------------------------

  method Find(g: GatewayDevice, gateway: nat, name: Name) returns (p: Option<Place>)
    ensures p == FindPlace(g.mode, gateway, g.Names(), name)
  {
    var kind;
    if name.objectType == ANALOG_INPUT {
      kind := PollChannel;
    } else if name.objectType == ANALOG_OUTPUT {
      kind := SetpointChannel;
    } else if name.objectType == BINARY_OUTPUT {
      kind := EnableChannel;
    } else {
      return None;
    }
    var i := 0;
    while i < |g.slaves|
      invariant 0 <= i <= |g.slaves|
      invariant FindFrom(g.mode, gateway, g.Names(), name, 0) == FindFrom(g.mode, gateway, g.Names(), name, i)
    {
      var slave := g.slaves[i];
      var matches := if g.mode.EmbeddedObjects? then name.device == gateway && name.instance == slave.unitId
                     else name.device == slave.virtualDeviceInstance && name.instance == 1;
      if matches {
        return Some(Place(i, kind));
      }
      i := i + 1;
    }
    return None;
  }

  method ReadPrioritySlot(command: Commandable, slot: nat) returns (v: Option<real>)
    requires command.Valid() && slot < SLOTS
    ensures v == SlotValue(command.View(), slot)
  {
    return if command.isSet[slot] then Some(command.value[slot]) else None;
  }

  method ReadReal(slave: GatewayedSlave, kind: Channel, property: nat, index: Option<nat>) returns (r: Option<real>)
    requires slave.Valid()
    ensures r == RealOf(slave.View().belief, kind, property, index)
  {
    if kind.PollChannel? && property == PRESENT_VALUE {
      return Some(slave.measuredTemperature);
    }
    if kind.SetpointChannel? {
      if property == PRIORITY_ARRAY && index.Some? && 1 <= index.value <= SLOTS {
        r := ReadPrioritySlot(slave.setpoint, index.value - 1);
        return;
      }
      if property == RELINQUISH_DEFAULT {
        return Some(slave.setpoint.relinquishDefault);
      }
    }
    return None;
  }

  method ReadEnumerated(slave: GatewayedSlave, kind: Channel, property: nat, index: Option<nat>)
    returns (r: Option<int>)
    requires slave.Valid()
    ensures r == EnumeratedOf(slave.View().belief, kind, property, index)
  {
    if property == RELIABILITY {
      return Some(if slave.online then NO_FAULT_DETECTED else COMMUNICATION_FAILURE);
    }
    if property == UNITS && !kind.EnableChannel? {
      return Some(DEGREES_CELSIUS);
    }
    if kind.EnableChannel? {
      if property == PRIORITY_ARRAY && index.Some? && 1 <= index.value <= SLOTS {
        var slot := ReadPrioritySlot(slave.enable, index.value - 1);
        return if slot.None? then None else Some(Truncate(slot.value));
      }
      if property == RELINQUISH_DEFAULT {
        return Some(Truncate(slave.enable.relinquishDefault));
      }
      if property == POLARITY {
        return Some(POLARITY_NORMAL);
      }
    }
    return None;
  }

  method ReadBool(slave: GatewayedSlave, kind: Channel, property: nat, index: Option<nat>) returns (r: Option<bool>)
    requires slave.Valid()
    ensures r == BoolOf(slave.View().belief, kind, property, index)
  {
    if !kind.PollChannel? && property == PRIORITY_ARRAY && index.Some? && 1 <= index.value <= SLOTS {
      var command := if kind.SetpointChannel? then slave.setpoint else slave.enable;
      return Some(!command.isSet[index.value - 1]);
    }
    if property == OUT_OF_SERVICE {
      return Some(false);
    }
    return None;
  }

  method GetPropertyReal(g: GatewayDevice, gateway: nat, name: Name, property: nat, index: Option<nat>)
    returns (r: Option<real>)
    requires g.Valid()
    ensures r == GetReal(g.View(), gateway, name, property, index)
  {
    var p := Find(g, gateway, name);
    if p.None? {
      r := None;
    } else {
      r := ReadReal(g.slaves[p.value.slave], p.value.kind, property, index);
      g.SlaveViewAt(p.value.slave);
    }
    g.NamesOfView();
  }

  method GetPropertyEnumerated(g: GatewayDevice, gateway: nat, name: Name, property: nat, index: Option<nat>)
    returns (r: Option<int>)
    requires g.Valid()
    ensures r == GetEnumerated(g.View(), gateway, name, property, index)
  {
    var p := Find(g, gateway, name);
    if p.None? {
      if name == Name(gateway, NETWORK_PORT, NETWORK_PORT_INSTANCE) && property == BACNET_IP_MODE {
        r := Some(BACNET_IP_MODE_NORMAL);
      } else {
        r := None;
      }
    } else {
      r := ReadEnumerated(g.slaves[p.value.slave], p.value.kind, property, index);
      g.SlaveViewAt(p.value.slave);
    }
    g.NamesOfView();
  }

  method GetPropertyBool(g: GatewayDevice, gateway: nat, name: Name, property: nat, index: Option<nat>)
    returns (r: Option<bool>)
    requires g.Valid()
    ensures r == GetBool(g.View(), gateway, name, property, index)
  {
    var p := Find(g, gateway, name);
    if p.None? {
      if name.device == gateway && name.objectType == NETWORK_PORT && property == OUT_OF_SERVICE {
        r := Some(false);
      } else {
        r := None;
      }
    } else {
      r := ReadBool(g.slaves[p.value.slave], p.value.kind, property, index);
      g.SlaveViewAt(p.value.slave);
    }
    g.NamesOfView();
  }

  method CommandOutput(g: GatewayDevice, i: nat, o: Output, priority: Octet, v: real)
    requires g.Valid() && i < |g.slaves|
    modifies g.slaves[i].Repr()
    ensures g.View() == Step(old(g.View()), Runs.Command(i, o, priority, v))
  {
    hide Write, EffectivePriority;
    g.slaves[i].Command(o, priority, v);
    g.OthersUnchanged(i);
  }

  method SetPropertyReal(g: GatewayDevice, gateway: nat, name: Name, property: nat, v: Real, priority: Octet)
    returns (answer: Answer)
    requires g.Valid()
    modifies g.SlaveObjects()
    ensures (g.View(), answer) == SetReal(old(g.View()), gateway, name, property, v, priority)
  {
    var p := Find(g, gateway, name);
    ghost var before := g.View();
    g.NamesOfView();
    assert before == old(g.View());
    if p.Some? && p.value.kind.SetpointChannel? && property == PRESENT_VALUE {
      if !(AtLeast(v, SETPOINT_MINIMUM) && AtMost(v, SETPOINT_MAXIMUM)) {
        return Refused(VALUE_OUT_OF_RANGE);
      }
      CommandOutput(g, p.value.slave, SetpointChannel, priority, v.r);
      assert SetReal(before, gateway, name, property, v, priority) ==
             (Step(before, Runs.Command(p.value.slave, SetpointChannel, priority, v.r)), Accepted);
      return Accepted;
    }
    return Declined;
  }

  method SetPropertyEnumerated(g: GatewayDevice, gateway: nat, name: Name, property: nat, v: nat, priority: Octet)
    returns (answer: Answer)
    requires g.Valid()
    modifies g.SlaveObjects()
    ensures (g.View(), answer) == SetEnumerated(old(g.View()), gateway, name, property, v, priority)
  {
    var p := Find(g, gateway, name);
    ghost var before := g.View();
    g.NamesOfView();
    assert before == old(g.View());
    if p.Some? && p.value.kind.EnableChannel? && property == PRESENT_VALUE {
      if v > 1 {
        return Refused(VALUE_OUT_OF_RANGE);
      }
      CommandOutput(g, p.value.slave, EnableChannel, priority, v as real);
      assert SetEnumerated(before, gateway, name, property, v, priority) ==
             (Step(before, Runs.Command(p.value.slave, EnableChannel, priority, v as real)), Accepted);
      return Accepted;
    }
    return Declined;
  }

  method ReleaseOutput(g: GatewayDevice, i: nat, o: Output, priority: Octet)
    requires g.Valid() && i < |g.slaves|
    modifies g.slaves[i].Repr()
    ensures g.View() == Step(old(g.View()), Release(i, o, priority))
  {
    g.slaves[i].Release(o, priority);
    g.OthersUnchanged(i);
  }

  method SetPropertyNull(g: GatewayDevice, gateway: nat, name: Name, property: nat, priority: Octet)
    returns (answer: Answer)
    requires g.Valid()
    modifies g.SlaveObjects()
    ensures (g.View(), answer) == SetNull(old(g.View()), gateway, name, property, priority)
  {
    var p := Find(g, gateway, name);
    ghost var before := g.View();
    g.NamesOfView();
    assert before == old(g.View());
    if p.Some? && !p.value.kind.PollChannel? && property == PRESENT_VALUE {
      ReleaseOutput(g, p.value.slave, p.value.kind, priority);
      assert SetNull(before, gateway, name, property, priority) ==
             (Step(before, Release(p.value.slave, p.value.kind, priority)), Accepted);
      return Accepted;
    }
    return Declined;
  }
}
