/** One slave on its own: the device, what the gateway believes about it, and the transactions between them,
    held directly instead of by id. Lines are what the runs of the whole gateway are projected to. */
module Line {
  import opened Wrappers
  import opened Registers
  import opened Priority
  import opened ForeignBus
  import opened Gateway

  type Slot = Option<Transaction>

  datatype Line = Line(mode: Mode, device: Device, belief: Belief, poll: Slot, setpoint: Slot, enable: Slot, now: nat)
  {
    function SlotOf(c: Channel): Slot
    {
      match c
      case PollChannel => poll
      case SetpointChannel => setpoint
      case EnableChannel => enable
    }

    function WithSlot(c: Channel, s: Slot): Line
    {
      match c
      case PollChannel => this.(poll := s)
      case SetpointChannel => this.(setpoint := s)
      case EnableChannel => this.(enable := s)
    }
  }

  // -- One pass ------------------------------------------------------------------

  function ResolvedSlot(d: Device, s: Slot, now: nat): Slot
  {
    if s.None? then None else Some(Resolved(d, s.value, now))
  }

  function AppliedSlot(d: Device, s: Slot, now: nat): Device
  {
    if s.None? then d else Applied(d, s.value, now)
  }

  function Moved(d: Device, drift: bool): Device { if drift then Drift(d) else d }

  function ServeLine(l: Line, now: nat, drift: bool): Line
  {
    var d := Moved(l.device, drift);
    l.(now := now,
       poll := ResolvedSlot(d, l.poll, now),
       setpoint := ResolvedSlot(d, l.setpoint, now),
       enable := ResolvedSlot(d, l.enable, now),
       device := AppliedSlot(AppliedSlot(d, l.setpoint, now), l.enable, now))
  }

  function Request(l: Line, c: Channel, v: Word): Transaction
  {
    Transaction(l.belief.unitId, TableOf(c), !c.PollChannel?, v, l.now, Pending)
  }

  function PollLine(l: Line): Line
  {
    match l.poll
    case None =>
      if l.now < l.belief.nextPollAt then l
      else l.(poll := Some(Request(l, PollChannel, 0)), belief := l.belief.(nextPollAt := l.now + l.belief.period))
    case Some(t) =>
      if t.outcome.Pending? then l
      else l.(poll := None, belief := AfterPoll(l.mode, l.belief, t.outcome, if t.outcome.Done? then t.value else 0))
  }

  function WriteLineIfWanted(l: Line, o: Output): Line
  {
    if !WantsWrite(l.belief, o, l.now) then l
    else
      var v := l.belief.Winning(o);
      l.(belief := l.belief.WithLink(o, l.belief.LinkOf(o).(inFlight := v)))
        .WithSlot(o, Some(Request(l, o, Word16(o, v))))
  }

  function FinishLineWrite(l: Line, o: Output): Line
    requires l.SlotOf(o).Some?
  {
    var t := l.SlotOf(o).value;
    l.(belief := l.belief.WithLink(o, AfterWrite(l.belief.LinkOf(o), t.outcome, l.now, l.belief.period)))
      .WithSlot(o, None)
  }

  function LinkLine(l: Line, o: Output): Line
  {
    match l.SlotOf(o)
    case None => WriteLineIfWanted(l, o)
    case Some(t) => if t.outcome.Pending? then l else WriteLineIfWanted(FinishLineWrite(l, o), o)
  }

  function ChannelLine(l: Line, c: Channel): Line
  {
    if c.PollChannel? then PollLine(l) else LinkLine(l, c)
  }

  function PassLine(l: Line, now: nat, drift: bool): Line
  {
    ChannelLine(ChannelLine(ChannelLine(ServeLine(l, now, drift), PollChannel), SetpointChannel), EnableChannel)
  }

  // -- Runs of a line --------------------------------------------------------------

  datatype LineEvent =
    | PassEvent(now: nat, drift: bool)
    | CommandEvent(output: Output, priority: Octet, v: real)
    | ReleaseEvent(output: Output, priority: Octet)
    | CableEvent(online: bool)
    | FieldEvent(table: Table, word: Word)

  function Commanded(b: Belief, o: Output, priority: Octet, v: real): Belief
  {
    b.WithCommand(o, Write(b.CommandOf(o), priority, v))
  }

  function Released(b: Belief, o: Output, priority: Octet): Belief
  {
    b.WithCommand(o, Relinquish(b.CommandOf(o), priority))
  }

  function StepLine(l: Line, e: LineEvent): Line
  {
    match e
    case PassEvent(now, drift) => PassLine(l, now, drift)
    case CommandEvent(o, priority, v) => l.(belief := Commanded(l.belief, o, priority, v))
    case ReleaseEvent(o, priority) => l.(belief := Released(l.belief, o, priority))
    case CableEvent(online) => l.(device := l.device.(online := online))
    case FieldEvent(table, word) => l.(device := LocalChange(l.device, table, word))
  }

  function RunLine(l: Line, es: seq<LineEvent>): Line
  {
    if es == [] then l else StepLine(RunLine(l, es[..|es| - 1]), es[|es| - 1])
  }

  function LastPass(start: nat, es: seq<LineEvent>): nat
  {
    if es == [] then start
    else if es[|es| - 1].PassEvent? then es[|es| - 1].now
    else LastPass(start, es[..|es| - 1])
  }

  /** Passes never go back in time, and the gap to the next pass is at most delta. */
  predicate Paced(start: nat, es: seq<LineEvent>, delta: nat)
  {
    es == [] ||
    (var prior := es[..|es| - 1];
     var e := es[|es| - 1];
     Paced(start, prior, delta) &&
     (e.PassEvent? ==> LastPass(start, prior) <= e.now <= LastPass(start, prior) + delta))
  }

  predicate Ordered(start: nat, es: seq<LineEvent>)
  {
    es == [] ||
    (var prior := es[..|es| - 1];
     var e := es[|es| - 1];
     Ordered(start, prior) && (e.PassEvent? ==> LastPass(start, prior) <= e.now))
  }

  lemma StepClock(l: Line, e: LineEvent)
    ensures StepLine(l, e).now == if e.PassEvent? then e.now else l.now
  {
  }

  lemma {:induction false} LastPassIsNow(l: Line, es: seq<LineEvent>)
    ensures RunLine(l, es).now == LastPass(l.now, es)
  {
    if es == [] {
    } else {
      LastPassIsNow(l, es[..|es| - 1]);
      StepClock(RunLine(l, es[..|es| - 1]), es[|es| - 1]);
    }
  }

  lemma {:induction false} PacedIsOrdered(start: nat, es: seq<LineEvent>, delta: nat)
    requires Paced(start, es, delta)
    ensures Ordered(start, es)
  {
    if es == [] {
    } else {
      PacedIsOrdered(start, es[..|es| - 1], delta);
    }
  }
}
