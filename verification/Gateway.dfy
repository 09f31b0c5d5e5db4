/** The gateway's picture of the foreign bus: the cache of every slave and the conversation with it
    (main.cpp sections 2 and 3). Time is in milliseconds and never runs backwards. */
module Gateway {
  import opened Wrappers
  import opened Registers
  import opened Priority
  import opened ForeignBus

  datatype Mode = EmbeddedObjects | VirtualNetwork

  /** The three conversations a slave can have on the wire, at most one transaction in each. */
  datatype Channel = PollChannel | SetpointChannel | EnableChannel

  type Output = c: Channel | !c.PollChannel? witness SetpointChannel

  const OFFLINE_AFTER_FAILED_POLLS := 2

  function TableOf(c: Channel): Table
  {
    match c
    case PollChannel => InputRegister
    case SetpointChannel => HoldingRegister
    case EnableChannel => Coil
  }

  function Scale(o: Output): real { if o.SetpointChannel? then 10.0 else 1.0 }

  /** The register word that stands for a commanded value. */
  function Word16(o: Output, v: real): Word { Encode(v, Scale(o)) }

  datatype Link = Link(written: bool, lastWritten: real, inFlight: real, retryAt: nat)

  datatype Notice = StoppedAnswering | AnswersAgain

  /** Everything the gateway keeps about a slave except which transactions are on the wire. The last three
      fields stand for what it has told the BACnet side: whether the virtual device answers Who-Is, how many
      I-Am it has sent for it, and the changes it has reported. */
  datatype Belief = Belief(
    unitId: nat, period: nat, virtualDevice: nat,
    measured: real, setpoint: Command, enable: Command, setpointLink: Link, enableLink: Link,
    online: bool, failedPolls: Id, nextPollAt: nat,
    discoverable: bool, iAms: nat, notices: seq<Notice>)
  {
    function CommandOf(o: Output): Command { if o.SetpointChannel? then setpoint else enable }

    function LinkOf(o: Output): Link { if o.SetpointChannel? then setpointLink else enableLink }

    function WithLink(o: Output, l: Link): Belief
    {
      if o.SetpointChannel? then this.(setpointLink := l) else this.(enableLink := l)
    }

    function WithCommand(o: Output, c: Command): Belief
    {
      if o.SetpointChannel? then this.(setpoint := c) else this.(enable := c)
    }

    function Winning(o: Output): real { Winner(CommandOf(o)) }
  }

  /** A slave with the ids of its transactions; 0 means that nothing is in flight. */
  datatype Slave = Slave(belief: Belief, pollId: Id, setpointId: Id, enableId: Id)
  {
    function IdOf(c: Channel): Id
    {
      match c
      case PollChannel => pollId
      case SetpointChannel => setpointId
      case EnableChannel => enableId
    }

    function WithId(c: Channel, id: Id): Slave
    {
      match c
      case PollChannel => this.(pollId := id)
      case SetpointChannel => this.(setpointId := id)
      case EnableChannel => this.(enableId := id)
    }
  }

  datatype System = System(mode: Mode, bus: Bus, slaves: seq<Slave>)

  const IDLE_LINK := Link(false, 0.0, 0.0, 0)

  function FreshBelief(unitId: nat, period: nat, virtualDevice: nat, setpoint: real, enable: real): Belief
  {
    Belief(unitId, period, virtualDevice, 0.0, FreshCommand(setpoint), FreshCommand(enable), IDLE_LINK, IDLE_LINK,
           true, 0, 0, true, 0, [])
  }

  // -- What the gateway makes of an outcome -----------------------------------

  function WentOffline(mode: Mode, b: Belief): Belief
  {
    b.(online := false,
       setpointLink := b.setpointLink.(written := false),
       enableLink := b.enableLink.(written := false),
       notices := b.notices + [StoppedAnswering],
       discoverable := if mode.VirtualNetwork? then false else b.discoverable)
  }

  function CameBack(mode: Mode, b: Belief): Belief
  {
    b.(online := true,
       notices := b.notices + [AnswersAgain],
       discoverable := if mode.VirtualNetwork? then true else b.discoverable,
       iAms := if mode.VirtualNetwork? then b.iAms + 1 else b.iAms)
  }

  function AfterPoll(mode: Mode, b: Belief, outcome: Outcome, value: Word): Belief
  {
    match outcome
    case Pending => b
    case Done =>
      var answered := b.(measured := Decode(value), failedPolls := 0);
      if b.online then answered else CameBack(mode, answered)
    case Timeout =>
      var failed := b.(failedPolls := (b.failedPolls + 1) % ID_SPACE);
      if b.online && failed.failedPolls >= OFFLINE_AFTER_FAILED_POLLS then WentOffline(mode, failed) else failed
  }

  function AfterWrite(l: Link, outcome: Outcome, now: nat, period: nat): Link
  {
    match outcome
    case Pending => l
    case Done => l.(written := true, lastWritten := l.inFlight)
    case Timeout => l.(retryAt := now + period)
  }

  predicate WantsWrite(b: Belief, o: Output, now: nat)
  {
    b.online && now >= b.LinkOf(o).retryAt && !(b.LinkOf(o).written && b.LinkOf(o).lastWritten == b.Winning(o))
  }

  // -- One slave's part of a pass ---------------------------------------------

  function PollStep(mode: Mode, bus: Bus, s: Slave, now: nat): (Bus, Slave)
  {
    if s.pollId == 0 then
      if now < s.belief.nextPollAt then (bus, s)
      else
        var (bus', id) := Issue(bus, s.belief.unitId, InputRegister, 0, false, 0);
        (bus', s.(pollId := id, belief := s.belief.(nextPollAt := now + s.belief.period)))
    else
      var (bus', outcome, value) := Check(bus, s.pollId);
      if outcome.Pending? then (bus', s)
      else (bus', s.(pollId := 0, belief := AfterPoll(mode, s.belief, outcome, value)))
  }

  function WriteIfWanted(bus: Bus, s: Slave, o: Output, now: nat): (Bus, Slave)
  {
    if !WantsWrite(s.belief, o, now) then (bus, s)
    else
      var v := s.belief.Winning(o);
      var (bus', id) := Issue(bus, s.belief.unitId, TableOf(o), 0, true, Word16(o, v));
      (bus', s.(belief := s.belief.WithLink(o, s.belief.LinkOf(o).(inFlight := v))).WithId(o, id))
  }

  function LinkStep(bus: Bus, s: Slave, o: Output, now: nat): (Bus, Slave)
  {
    if s.IdOf(o) == 0 then WriteIfWanted(bus, s, o, now)
    else
      var (bus', outcome, _) := Check(bus, s.IdOf(o));
      if outcome.Pending? then (bus', s)
      else
        var l := AfterWrite(s.belief.LinkOf(o), outcome, now, s.belief.period);
        WriteIfWanted(bus', s.(belief := s.belief.WithLink(o, l)).WithId(o, 0), o, now)
  }

  function ChannelStep(mode: Mode, bus: Bus, s: Slave, c: Channel, now: nat): (Bus, Slave)
  {
    if c.PollChannel? then PollStep(mode, bus, s, now) else LinkStep(bus, s, c, now)
  }

  /** The step of the whole system in which one channel of one slave is serviced. */
  function Micro(sys: System, i: nat, c: Channel, now: nat): System
    requires i < |sys.slaves|
  {
    var (bus, s) := ChannelStep(sys.mode, sys.bus, sys.slaves[i], c, now);
    sys.(bus := bus, slaves := sys.slaves[i := s])
  }

  function ServeSlave(sys: System, i: nat, now: nat): System
    requires i < |sys.slaves|
  {
    Micro(Micro(Micro(sys, i, PollChannel, now), i, SetpointChannel, now), i, EnableChannel, now)
  }

  /** The same three steps, seen from the slave and the bus alone. */
  function ServeParts(mode: Mode, bus: Bus, s: Slave, now: nat): (Bus, Slave)
  {
    var (bus1, s1) := PollStep(mode, bus, s, now);
    var (bus2, s2) := LinkStep(bus1, s1, SetpointChannel, now);
    LinkStep(bus2, s2, EnableChannel, now)
  }

  lemma ServeSlaveIsServeParts(sys: System, i: nat, now: nat)
    requires i < |sys.slaves|
    ensures var (bus, s) := ServeParts(sys.mode, sys.bus, sys.slaves[i], now);
            ServeSlave(sys, i, now) == sys.(bus := bus, slaves := sys.slaves[i := s])
  {
  }

  function ServeUpTo(sys: System, k: nat, now: nat): (r: System)
    requires k <= |sys.slaves|
    ensures |r.slaves| == |sys.slaves|
  {
    if k == 0 then sys else ServeSlave(ServeUpTo(sys, k - 1, now), k - 1, now)
  }

  /** One pass of the main loop over the foreign bus. */
  function Pass(sys: System, now: nat): System
  {
    ServeUpTo(sys.(bus := Serviced(sys.bus, now)), |sys.slaves|, now)
  }

  datatype SlaveName = SlaveName(unitId: nat, virtualDevice: nat)

  function NamesOf(slaves: seq<Slave>): (r: seq<SlaveName>)
    ensures |r| == |slaves|
  {
    seq(|slaves|, i requires 0 <= i < |slaves| => SlaveName(slaves[i].belief.unitId, slaves[i].belief.virtualDevice))
  }

  // -- The records as the program holds them -----------------------------------

  class WriteThrough {
    var written: bool
    var lastWrittenValue: real
    var transactionId: Id
    var inFlightValue: real
    var retryAt: nat

    constructor ()
      ensures View() == IDLE_LINK && transactionId == 0
    {
      written, lastWrittenValue, transactionId, inFlightValue, retryAt := false, 0.0, 0, 0.0, 0;
    }

    ghost function View(): Link
      reads this
    {
      Link(written, lastWrittenValue, inFlightValue, retryAt)
    }
  }

  class GatewayedSlave {
    const unitId: nat
    const pollPeriodMilliseconds: nat
    const virtualDeviceInstance: nat
    var measuredTemperature: real
    const setpoint: Commandable
    const enable: Commandable
    const setpointLink: WriteThrough
    const enableLink: WriteThrough
    var online: bool
    var consecutiveFailedPolls: Id
    var nextPollAt: nat
    var pollTransactionId: Id
    var discoverable: bool
    var iAms: nat
    var notices: seq<Notice>

    ghost predicate Valid()
    {
      && setpoint.Valid() && enable.Valid()
      && setpointLink != enableLink
      && setpoint.isSet != enable.isSet && setpoint.value != enable.value
    }

    ghost function Repr(): set<object>
    {
      {this, setpointLink, enableLink} + setpoint.Repr() + enable.Repr()
    }

    ghost function View(): Slave
      requires Valid()
      reads Repr()
    {
      Slave(Belief(unitId, pollPeriodMilliseconds, virtualDeviceInstance, measuredTemperature,
                   setpoint.View(), enable.View(), setpointLink.View(), enableLink.View(),
                   online, consecutiveFailedPolls, nextPollAt, discoverable, iAms, notices),
            pollTransactionId, setpointLink.transactionId, enableLink.transactionId)
    }

    constructor (unitId: nat, pollPeriod: nat, virtualDevice: nat, setpointDefault: real, enableDefault: real)
      ensures Valid() && fresh(Repr())
      ensures View() == Slave(FreshBelief(unitId, pollPeriod, virtualDevice, setpointDefault, enableDefault), 0, 0, 0)
    {
      this.unitId, pollPeriodMilliseconds, virtualDeviceInstance := unitId, pollPeriod, virtualDevice;
      measuredTemperature := 0.0;
      var sp := new Commandable(setpointDefault);
      var en := new Commandable(enableDefault);
      var spLink := new WriteThrough();
      var enLink := new WriteThrough();
      setpoint, enable, setpointLink, enableLink := sp, en, spLink, enLink;
      online, consecutiveFailedPolls, nextPollAt, pollTransactionId := true, 0, 0, 0;
      discoverable, iAms, notices := true, 0, [];
    }

    method Command(o: Output, priority: Octet, v: real)
      requires Valid()
      modifies Repr()
      ensures View() == old(View()).(belief :=
                  old(View()).belief.WithCommand(o, Write(old(View()).belief.CommandOf(o), priority, v)))
    {
      if o.SetpointChannel? {
        setpoint.CommandWrite(priority, v);
      } else {
        enable.CommandWrite(priority, v);
      }
    }

    method Release(o: Output, priority: Octet)
      requires Valid()
      modifies Repr()
      ensures View() == old(View()).(belief :=
                  old(View()).belief.WithCommand(o, Relinquish(old(View()).belief.CommandOf(o), priority)))
    {
      if o.SetpointChannel? {
        setpoint.RelinquishSlot(priority);
      } else {
        enable.RelinquishSlot(priority);
      }
    }

    method SlaveWentOffline(mode: Mode)
      requires Valid()
      modifies this, setpointLink, enableLink
      ensures View() == old(View()).(belief := WentOffline(mode, old(View()).belief))
    {
      online := false;
      setpointLink.written := false;
      enableLink.written := false;
      notices := notices + [StoppedAnswering];
      if mode.VirtualNetwork? {
        discoverable := false;
      }
    }

    method SlaveCameBack(mode: Mode)
      requires Valid()
      modifies this
      ensures View() == old(View()).(belief := CameBack(mode, old(View()).belief))
    {
      online := true;
      notices := notices + [AnswersAgain];
      if mode.VirtualNetwork? {
        discoverable := true;
        iAms := iAms + 1;
      }
    }

    /** The second half of ServicePoll: what became of the poll on the wire. */
    method FinishPoll(mode: Mode, outcome: Outcome, registerValue: Word)
      requires Valid() && !outcome.Pending?
      modifies this, setpointLink, enableLink
      ensures View() == old(View()).(belief := AfterPoll(mode, old(View()).belief, outcome, registerValue), pollId := 0)
    {
      hide Decode;
      pollTransactionId := 0;
      if outcome.Done? {
        measuredTemperature := Decode(registerValue);
        consecutiveFailedPolls := 0;
        if !online {
          SlaveCameBack(mode);
        }
        return;
      }
      consecutiveFailedPolls := (consecutiveFailedPolls + 1) % ID_SPACE;
      if online && consecutiveFailedPolls >= OFFLINE_AFTER_FAILED_POLLS {
        SlaveWentOffline(mode);
      }
    }

    method ServicePoll(mode: Mode, bus: SimulatedForeignBus, now: nat)
      requires Valid()
      modifies this, setpointLink, enableLink, bus`transactions, bus`nextTransactionId
      ensures (bus.View(), View()) == PollStep(mode, old(bus.View()), old(View()), now)
    {
      hide Issue, Check, AfterPoll;
      if pollTransactionId == 0 {
        if now < nextPollAt {
          return;
        }
        nextPollAt := now + pollPeriodMilliseconds;
        pollTransactionId := bus.StartTransaction(unitId, InputRegister, 0, false, 0);
        return;
      }
      var outcome, registerValue := bus.CheckTransaction(pollTransactionId);
      if outcome.Pending? {
        return;
      }
      FinishPoll(mode, outcome, registerValue);
    }

    ghost predicate LinkFor(o: Output, command: Commandable, link: WriteThrough)
    {
      if o.SetpointChannel? then command == setpoint && link == setpointLink
      else command == enable && link == enableLink
    }

    /** The first half of ServiceWriteThrough: learn what became of the write on the wire. */
    method FinishWrite(ghost o: Output, bus: SimulatedForeignBus, ghost command: Commandable, link: WriteThrough,
                       now: nat)
      returns (pending: bool)
      requires Valid() && LinkFor(o, command, link) && link.transactionId != 0
      modifies link, bus`transactions
      ensures var (bus', outcome, _) := Check(old(bus.View()), old(link.transactionId));
              && bus.View() == bus' && pending == outcome.Pending?
              && if pending then View() == old(View())
                 else View() == old(View()).(belief := old(View()).belief.WithLink(o,
                        AfterWrite(old(link.View()), outcome, now, pollPeriodMilliseconds))).WithId(o, 0)
    {
      var outcome, _ := bus.CheckTransaction(link.transactionId);
      if outcome.Pending? {
        return true;
      }
      link.transactionId := 0;
      if outcome.Done? {
        link.written := true;
        link.lastWrittenValue := link.inFlightValue;
      }
      if outcome.Timeout? {
        link.retryAt := now + pollPeriodMilliseconds;
      }
      return false;
    }

    /** The second half: start a write if one is wanted. */
    method StartWrite(ghost o: Output, bus: SimulatedForeignBus, command: Commandable, link: WriteThrough,
                      table: Table, address: nat, registerScale: real, now: nat)
      requires Valid() && LinkFor(o, command, link)
      requires table == TableOf(o) && address == 0 && registerScale == Scale(o)
      modifies link, bus`transactions, bus`nextTransactionId
      ensures (bus.View(), View()) == WriteIfWanted(old(bus.View()), old(View()), o, now)
    {
      hide Issue, Encode;
      var winningValue := command.WinningValue();
      if !online || now < link.retryAt || (link.written && link.lastWrittenValue == winningValue) {
        return;
      }
      link.transactionId := bus.StartTransaction(unitId, table, address, true, Encode(winningValue, registerScale));
      link.inFlightValue := winningValue;
    }

    method ServiceWriteThrough(ghost o: Output, bus: SimulatedForeignBus, command: Commandable, link: WriteThrough,
                               table: Table, address: nat, registerScale: real, now: nat)
      requires Valid() && LinkFor(o, command, link)
      requires table == TableOf(o) && address == 0 && registerScale == Scale(o)
      modifies link, bus`transactions, bus`nextTransactionId
      ensures (bus.View(), View()) == LinkStep(old(bus.View()), old(View()), o, now)
    {
      hide Check, WriteIfWanted, AfterWrite;
      if link.transactionId != 0 {
        var pending := FinishWrite(o, bus, command, link, now);
        if pending {
          return;
        }
      }
      StartWrite(o, bus, command, link, table, address, registerScale, now);
    }

    /** The body of the loop of ServiceForeignBus. */
    method Serve(mode: Mode, bus: SimulatedForeignBus, now: nat)
      requires Valid() && bus !in Repr()
      modifies Repr(), bus`transactions, bus`nextTransactionId
      ensures (bus.View(), View()) == ServeParts(mode, old(bus.View()), old(View()), now)
    {
      ServicePoll(mode, bus, now);
      ServiceWriteThrough(SetpointChannel, bus, setpoint, setpointLink, HoldingRegister, 0, 10.0, now);
      ServiceWriteThrough(EnableChannel, bus, enable, enableLink, Coil, 0, 1.0, now);
    }
  }

  class GatewayDevice {
    const mode: Mode
    const bus: SimulatedForeignBus
    const slaves: seq<GatewayedSlave>

    ghost predicate Valid()
    {
      && (forall i :: 0 <= i < |slaves| ==> slaves[i].Valid())
      && (forall i, j :: 0 <= i < j < |slaves| ==> slaves[i].Repr() !! slaves[j].Repr())
      && (forall i :: 0 <= i < |slaves| ==> bus !in slaves[i].Repr() && bus.devices !in slaves[i].Repr())
    }

    ghost function SlaveObjects(): set<object>
    {
      set i, x: object | 0 <= i < |slaves| && x in slaves[i].Repr() :: x
    }

    ghost function SlaveViews(): (r: seq<Slave>)
      requires Valid()
      reads SlaveObjects()
      ensures |r| == |slaves|
      ensures forall i :: 0 <= i < |slaves| ==> r[i] == slaves[i].View()
    {
      seq(|slaves|, i requires 0 <= i < |slaves| && slaves[i].Valid() reads SlaveObjects() => slaves[i].View())
    }

    ghost function View(): System
      requires Valid()
      reads bus, bus.devices, SlaveObjects()
    {
      System(mode, bus.View(), SlaveViews())
    }

    lemma SlaveViewAt(i: nat)
      requires Valid() && i < |slaves|
      ensures View().mode == mode && |View().slaves| == |slaves| && View().slaves[i] == slaves[i].View()
    {
    }

    /** The slaves' names never change, so they can be told without looking at the heap. */
    ghost function Names(): seq<SlaveName>
    {
      seq(|slaves|, i requires 0 <= i < |slaves| => SlaveName(slaves[i].unitId, slaves[i].virtualDeviceInstance))
    }

    lemma NamesOfView()
      requires Valid()
      ensures View().mode == mode && Names() == NamesOf(View().slaves)
    {
    }

    constructor (mode: Mode, bus: SimulatedForeignBus, slaves: seq<GatewayedSlave>)
      requires forall i :: 0 <= i < |slaves| ==> slaves[i].Valid()
      requires forall i, j :: 0 <= i < j < |slaves| ==> slaves[i].Repr() !! slaves[j].Repr()
      requires forall i :: 0 <= i < |slaves| ==> bus !in slaves[i].Repr() && bus.devices !in slaves[i].Repr()
      ensures Valid() && this.mode == mode && this.bus == bus && this.slaves == slaves
    {
      this.mode, this.bus, this.slaves := mode, bus, slaves;
    }

    lemma BusIsApart()
      requires Valid()
      ensures bus !in SlaveObjects() && bus.devices !in SlaveObjects()
    {
    }

    method ServeOne(i: nat, now: nat)
      requires Valid() && i < |slaves|
      modifies slaves[i].Repr(), bus
      ensures View() == ServeSlave(old(View()), i, now)
    {
      hide ServeParts, ServeSlave, Serviced;
      BusIsApart();
      slaves[i].Serve(mode, bus, now);
      OthersUnchanged(i);
      ServeSlaveIsServeParts(old(View()), i, now);
    }

    /** Serving slave i writes nothing that another slave reads. */
    twostate lemma OthersUnchanged(i: nat)
      requires Valid() && i < |slaves|
      requires forall x: object :: x in SlaveObjects() && x !in slaves[i].Repr() ==> unchanged(x)
      ensures SlaveViews() == old(SlaveViews())[i := slaves[i].View()]
    {
      forall j | 0 <= j < |slaves| && j != i ensures slaves[j].View() == old(slaves[j].View()) {
        assert forall x :: x in slaves[j].Repr() ==> x in SlaveObjects() && x !in slaves[i].Repr();
      }
    }

    twostate lemma SlavesUnchanged()
      requires Valid()
      requires forall x: object :: x in SlaveObjects() ==> unchanged(x)
      ensures SlaveViews() == old(SlaveViews())
    {
      forall j | 0 <= j < |slaves| ensures slaves[j].View() == old(slaves[j].View()) {
        assert forall x :: x in slaves[j].Repr() ==> x in SlaveObjects();
      }
    }

    method ServeBus(now: nat)
      requires Valid()
      modifies bus, bus.devices
      ensures View() == old(View()).(bus := Serviced(old(View()).bus, now))
    {
      bus.Service(now);
      BusIsApart();
      SlavesUnchanged();
    }

    method ServiceForeignBus(now: nat)
      requires Valid()
      modifies SlaveObjects(), bus, bus.devices
      ensures View() == Pass(old(View()), now)
    {
      ServeBus(now);
      ghost var serviced := View();
      var i := 0;
      while i < |slaves|
        invariant 0 <= i <= |slaves|
        invariant View() == ServeUpTo(serviced, i, now)
      {
        assert slaves[i].Repr() <= SlaveObjects();
        ServeOne(i, now);
        i := i + 1;
      }
    }
  }
}
