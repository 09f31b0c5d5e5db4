/** What the gateway believes about a slave is a function of which polls were answered, also when the failure
    counter wraps while the slave is away; and what it tells the BACnet side follows that belief. */
module FaultHistory {
  import opened Registers
  import opened ForeignBus
  import opened Gateway
  import opened Line
  import opened Runs
  import opened Theorems
  import opened Faults

  /** The poll outcome the gateway learns in this pass, if any. */
  function Heard(l: Line, now: nat, drift: bool): seq<Outcome>
  {
    var s := ServeLine(l, now, drift).poll;
    if s.Some? && !s.value.outcome.Pending? then [s.value.outcome] else []
  }

  /** Every poll outcome of a run, in order. */
  function History(l: Line, es: seq<LineEvent>): seq<Outcome>
  {
    if es == [] then []
    else
      var prior, e := es[..|es| - 1], es[|es| - 1];
      History(l, prior) + if e.PassEvent? then Heard(RunLine(l, prior), e.now, e.drift) else []
  }

  /** How many timeouts have followed the last answer. */
  function Unanswered(h: seq<Outcome>): nat
  {
    if h == [] || h[|h| - 1].Done? then 0 else 1 + Unanswered(h[..|h| - 1])
  }

  /** The specification of the offline detector. */
  predicate BelievedOnline(h: seq<Outcome>) { Unanswered(h) < 2 }

  /** The changes of that belief. */
  function Changes(h: seq<Outcome>): seq<Notice>
  {
    if h == [] then []
    else
      var prior := h[..|h| - 1];
      Changes(prior) +
      if BelievedOnline(prior) == BelievedOnline(h) then []
      else if BelievedOnline(h) then [AnswersAgain] else [StoppedAnswering]
  }

  /** They alternate, beginning with a slave that stopped answering. */
  lemma {:induction false} ChangesAlternate(h: seq<Outcome>)
    ensures BelievedOnline(h) <==> |Changes(h)| % 2 == 0
    ensures forall k :: 0 <= k < |Changes(h)| ==> Changes(h)[k] == if k % 2 == 0 then StoppedAnswering else AnswersAgain
  {
    if h == [] {
    } else {
      ChangesAlternate(h[..|h| - 1]);
    }
  }

  ghost predicate Follows(mode: Mode, b: Belief, h: seq<Outcome>)
  {
    && b.online == BelievedOnline(h)
    && b.failedPolls == Unanswered(h) % ID_SPACE
    && b.notices == Changes(h)
    && b.discoverable == (mode.VirtualNetwork? ==> b.online)
    && b.iAms == (if mode.VirtualNetwork? then |b.notices| / 2 else 0)
  }

  lemma AnswerFollows(mode: Mode, b: Belief, h: seq<Outcome>, value: Word)
    requires Follows(mode, b, h)
    ensures Follows(mode, AfterPoll(mode, b, Done, value), h + [Done])
  {
    var g := h + [Done];
    assert g[..|g| - 1] == h && Unanswered(g) == 0;
    ChangesAlternate(h);
    assert Changes(g) == Changes(h) + if BelievedOnline(h) then [] else [AnswersAgain];
  }

  lemma CounterSteps(n: nat)
    ensures (n % ID_SPACE + 1) % ID_SPACE == (n + 1) % ID_SPACE
    ensures n < 2 ==> n % ID_SPACE == n && (n + 1) % ID_SPACE == n + 1
  {
  }

  /** The counter may wrap; but while the slave is believed online it is still the count itself. */
  lemma TimeoutFollows(mode: Mode, b: Belief, h: seq<Outcome>, value: Word)
    requires Follows(mode, b, h)
    ensures Follows(mode, AfterPoll(mode, b, Timeout, value), h + [Timeout])
  {
    var g := h + [Timeout];
    assert g[..|g| - 1] == h && g[|g| - 1] == Timeout;
    assert Unanswered(g) == Unanswered(h) + 1;
    ChangesAlternate(h);
    assert Changes(g) == Changes(h) + if Unanswered(h) == 1 then [StoppedAnswering] else [];
    CounterSteps(Unanswered(h));
  }

  lemma AfterPollFollows(mode: Mode, b: Belief, h: seq<Outcome>, outcome: Outcome, value: Word)
    requires Follows(mode, b, h) && !outcome.Pending?
    ensures Follows(mode, AfterPoll(mode, b, outcome, value), h + [outcome])
  {
    if outcome.Done? {
      AnswerFollows(mode, b, h, value);
    } else {
      TimeoutFollows(mode, b, h, value);
    }
  }

  lemma PassFollows(l: Line, now: nat, drift: bool, h: seq<Outcome>)
    requires Follows(l.mode, l.belief, h)
    ensures PassLine(l, now, drift).mode == l.mode
    ensures Follows(l.mode, PassLine(l, now, drift).belief, h + Heard(l, now, drift))
  {
    PassIsPoll(l, now, drift);
    var a := ServeLine(l, now, drift);
    if Heard(l, now, drift) == [] {
      assert h + Heard(l, now, drift) == h;
    } else {
      var t := a.poll.value;
      AfterPollFollows(l.mode, l.belief, h, t.outcome, if t.outcome.Done? then t.value else 0);
    }
  }

  lemma {:induction false} RunFollows(l: Line, es: seq<LineEvent>)
    requires Follows(l.mode, l.belief, [])
    ensures RunLine(l, es).mode == l.mode && Follows(l.mode, RunLine(l, es).belief, History(l, es))
  {
    if es == [] {
    } else {
      var prior, e := es[..|es| - 1], es[|es| - 1];
      RunFollows(l, prior);
      if e.PassEvent? {
        PassFollows(RunLine(l, prior), e.now, e.drift, History(l, prior));
      } else {
        assert History(l, es) == History(l, prior);
      }
    }
  }

  lemma FreshFollows(mode: Mode, s: Slave)
    requires InitialSlave(s)
    ensures Follows(mode, s.belief, [])
  {
  }

  lemma LineFollows(sys: System, l: Line, es: seq<LineEvent>, i: nat)
    requires Initial(sys) && i < |sys.slaves| && l == LineOf(sys, i)
    ensures Follows(sys.mode, RunLine(l, es).belief, History(l, es))
  {
    FreshFollows(sys.mode, sys.slaves[i]);
    RunFollows(l, es);
  }

  lemma BeliefOfRunFollows(sys: System, es: seq<Event>, i: nat)
    requires Initial(sys) && Monotone(0, es) && i < |sys.slaves|
    ensures |Run(sys, es).slaves| == |sys.slaves|
    ensures Follows(sys.mode, Run(sys, es).slaves[i].belief, History(LineOf(sys, i), Project(0, es, i)))
  {
    InitialIsGood(sys);
    BeliefOfRun(sys, es, i);
    LineFollows(sys, LineOf(sys, i), Project(0, es, i), i);
  }

  /** In every run: a slave is reported exactly while at least two timeouts have followed its last answer, its
      virtual device is discoverable exactly while it is not reported, the reports and the all-clears strictly
      alternate, and one I-Am is sent for each all-clear. */
  lemma BeliefFollowsHistory(sys: System, es: seq<Event>, i: nat)
    requires Initial(sys) && Monotone(0, es) && i < |sys.slaves|
    ensures |Run(sys, es).slaves| == |sys.slaves|
    ensures var b := Run(sys, es).slaves[i].belief;
            var h := History(LineOf(sys, i), Project(0, es, i));
            && (b.online <==> Unanswered(h) < 2)
            && (sys.mode.VirtualNetwork? ==> b.discoverable == b.online)
            && (b.online <==> |b.notices| % 2 == 0)
            && (forall k :: 0 <= k < |b.notices| ==>
                 b.notices[k] == if k % 2 == 0 then StoppedAnswering else AnswersAgain)
            && (sys.mode.VirtualNetwork? ==> b.iAms == |b.notices| / 2)
            && (sys.mode.EmbeddedObjects? ==> b.discoverable && b.iAms == 0)
  {
    BeliefOfRunFollows(sys, es, i);
    ChangesAlternate(History(LineOf(sys, i), Project(0, es, i)));
  }
}
