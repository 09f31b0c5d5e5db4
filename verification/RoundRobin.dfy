/** Which of the bound UDP sockets the receive callback of common/CASExampleHelper.cpp serves. */
module RoundRobin {
  import opened Wrappers

  type Datagram = seq<int>

  /** A socket and what waits in it, oldest first. */
  datatype Binding = Binding(bound: bool, queue: seq<Datagram>)

  datatype Hit = Hit(index: nat, message: Datagram)

  /** Receive() cuts a datagram to the buffer's size; what is cut off is lost. */
  function Cut(d: Datagram, size: nat): Datagram { if |d| <= size then d else d[..size] }

  datatype Scan = Scan(bindings: seq<Binding>, hit: Option<Hit>)

  /** From the k-th socket on, counted from start. A datagram without octets is taken, and passes for none. */
  function ScanFrom(bindings: seq<Binding>, start: nat, k: nat, size: nat): Scan
    decreases |bindings| - k
  {
    if k >= |bindings| then Scan(bindings, None)
    else
      var i := (start + k) % |bindings|;
      if !bindings[i].bound || bindings[i].queue == [] then ScanFrom(bindings, start, k + 1, size)
      else
        var message := Cut(bindings[i].queue[0], size);
        var rest := bindings[i := Binding(true, bindings[i].queue[1..])];
        if message == [] then ScanFrom(rest, start, k + 1, size) else Scan(rest, Some(Hit(i, message)))
  }

  datatype Sockets = Sockets(bindings: seq<Binding>, next: nat)

  predicate Valid(s: Sockets) { s.next < |s.bindings| || (s.next == 0 && s.bindings == []) }

  datatype Received = Received(sockets: Sockets, hit: Option<Hit>)

  function Receive(s: Sockets, size: nat): Received
  {
    var n := |s.bindings|;
    if n == 0 then Received(s, None)
    else
      var scan := ScanFrom(s.bindings, s.next, 0, size);
      match scan.hit
      case Some(hit) => Received(Sockets(scan.bindings, (hit.index + 1) % n), scan.hit)
      case None => Received(Sockets(scan.bindings, (s.next + 1) % n), None)
  }

  class Receiver {
    var bindings: seq<Binding>
    var next: nat

    function View(): Sockets
      reads this
    {
      Sockets(bindings, next)
    }

    constructor (bindings: seq<Binding>)
      ensures View() == Sockets(bindings, 0)
    {
      this.bindings, next := bindings, 0;
    }

    method ReceiveMessage(size: nat) returns (hit: Option<Hit>)
      modifies this
      ensures Received(View(), hit) == Receive(old(View()), size)
    {
      var n := |bindings|;
      if n == 0 {
        return None;
      }
      var k := 0;
      hit := None;
      while k < n && hit.None?
        invariant k <= n == |bindings| && next == old(next)
        invariant hit.None? ==> ScanFrom(old(bindings), next, 0, size) == ScanFrom(bindings, next, k, size)
        invariant hit.Some? ==> ScanFrom(old(bindings), next, 0, size) == Scan(bindings, hit)
        decreases n - k, hit.None?
      {
        var i := (next + k) % n;
        k := k + 1;
        if bindings[i].bound && bindings[i].queue != [] {
          var message := Cut(bindings[i].queue[0], size);
          bindings := bindings[i := Binding(true, bindings[i].queue[1..])];
          if message != [] {
            hit := Some(Hit(i, message));
          }
        }
      }
      if hit.Some? {
        next := (hit.value.index + 1) % n;
      } else {
        next := (next + 1) % n;
      }
    }
  }

  // -- No socket starves ---------------------------------------------------------------------------------------

  function Place(start: nat, k: nat, n: nat): nat
    requires n > 0
  {
    (start + k) % n
  }

  lemma PlaceIs(start: nat, k: nat, n: nat)
    requires start < n && k < n
    ensures Place(start, k, n) == if start + k < n then start + k else start + k - n
  {
  }

  /** How many sockets are looked at before i. */
  function Distance(start: nat, i: nat, n: nat): (d: nat)
    requires start < n && i < n
    ensures d < n
  {
    if start <= i then i - start else i + n - start
  }

  lemma DistanceReaches(start: nat, i: nat, n: nat, k: nat)
    requires start < n && i < n && k < n
    ensures Place(start, k, n) < n && (Place(start, k, n) == i <==> k == Distance(start, i, n))
  {
    PlaceIs(start, k, n);
  }

  predicate Holding(bindings: seq<Binding>, i: nat)
  {
    i < |bindings| && bindings[i].bound && bindings[i].queue != []
  }

  /** A socket that a scan has passed, or that holds nothing, stays as it is. */
  lemma {:induction false} ScanLeaves(bindings: seq<Binding>, start: nat, k: nat, size: nat, i: nat)
    requires start < |bindings| && i < |bindings|
    requires k > Distance(start, i, |bindings|) || !Holding(bindings, i)
    ensures var r := ScanFrom(bindings, start, k, size);
            && |r.bindings| == |bindings| && r.bindings[i] == bindings[i]
            && (r.hit.Some? ==> r.hit.value.index < |bindings| && r.hit.value.index != i)
    decreases |bindings| - k
  {
    var n := |bindings|;
    if k >= n {
    } else {
      DistanceReaches(start, i, n, k);
      var j := Place(start, k, n);
      if !bindings[j].bound || bindings[j].queue == [] {
        ScanLeaves(bindings, start, k + 1, size, i);
      } else if Cut(bindings[j].queue[0], size) == [] {
        ScanLeaves(bindings[j := Binding(true, bindings[j].queue[1..])], start, k + 1, size, i);
      }
    }
  }

  /** The head of the socket's queue has been taken, and delivered if it has octets. */
  predicate Taken(b: Binding, b': Binding, i: nat, size: nat, hit: Option<Hit>)
    requires b.queue != []
  {
    && b'.bound == b.bound && b'.queue == b.queue[1..]
    && (b.queue[0] != [] ==> hit == Some(Hit(i, Cut(b.queue[0], size))))
  }

  /** A scan that has not yet passed a socket takes the head of its queue, or stops before it. */
  lemma {:induction false} ScanTakes(bindings: seq<Binding>, start: nat, k: nat, size: nat, i: nat)
    requires start < |bindings| && Holding(bindings, i) && k <= Distance(start, i, |bindings|) && size >= 1
    ensures var r, n := ScanFrom(bindings, start, k, size), |bindings|;
            && |r.bindings| == n && (r.hit.Some? ==> r.hit.value.index < n)
            && (Taken(bindings[i], r.bindings[i], i, size, r.hit)
                || (r.bindings[i] == bindings[i] && r.hit.Some?
                    && Distance(start, r.hit.value.index, n) < Distance(start, i, n)))
    decreases |bindings| - k
  {
    var n := |bindings|;
    DistanceReaches(start, i, n, k);
    var j := Place(start, k, n);
    DistanceReaches(start, j, n, k);
    if j == i {
      if Cut(bindings[i].queue[0], size) == [] {
        ScanLeaves(bindings[i := Binding(true, bindings[i].queue[1..])], start, k + 1, size, i);
      }
    } else if !bindings[j].bound || bindings[j].queue == [] {
      ScanTakes(bindings, start, k + 1, size, i);
    } else if Cut(bindings[j].queue[0], size) == [] {
      ScanTakes(bindings[j := Binding(true, bindings[j].queue[1..])], start, k + 1, size, i);
    }
  }

  lemma NextIs(j: nat, n: nat)
    requires j < n
    ensures (j + 1) % n == if j + 1 < n then j + 1 else 0
  {
  }

  lemma NextIsNearer(start: nat, j: nat, i: nat, n: nat, next: nat)
    requires start < n && i < n && j < n && Distance(start, j, n) < Distance(start, i, n)
    requires next == if j + 1 < n then j + 1 else 0
    ensures Distance(next, i, n) < Distance(start, i, n)
  {
  }

  lemma Nearer(start: nat, j: nat, i: nat, n: nat)
    requires start < n && i < n && j < n && Distance(start, j, n) < Distance(start, i, n)
    ensures (j + 1) % n < n && Distance((j + 1) % n, i, n) < Distance(start, i, n)
  {
    NextIs(j, n);
    NextIsNearer(start, j, i, n, if j + 1 < n then j + 1 else 0);
  }

  /** One call takes the head of the socket's queue, or brings its turn nearer and leaves it as it is. */
  lemma TurnComesNearer(s: Sockets, size: nat, i: nat)
    requires Valid(s) && Holding(s.bindings, i) && size >= 1
    ensures var r, n := Receive(s, size), |s.bindings|;
            && Valid(r.sockets) && |r.sockets.bindings| == n
            && (Taken(s.bindings[i], r.sockets.bindings[i], i, size, r.hit)
                || (r.sockets.bindings[i] == s.bindings[i] && Distance(r.sockets.next, i, n) < Distance(s.next, i, n)))
  {
    hide Taken;
    var n, scan := |s.bindings|, ScanFrom(s.bindings, s.next, 0, size);
    ScanTakes(s.bindings, s.next, 0, size, i);
    if scan.hit.Some? && Distance(s.next, scan.hit.value.index, n) < Distance(s.next, i, n) {
      Nearer(s.next, scan.hit.value.index, i, n);
    }
  }

  /** Datagrams arrive between calls, at any bound socket. */
  datatype Event = Arrives(index: nat, datagram: Datagram) | Called(size: nat)

  function Step(s: Sockets, e: Event): Received
  {
    match e
    case Called(size) => Receive(s, size)
    case Arrives(index, datagram) =>
      if index < |s.bindings| then
        var b := s.bindings[index];
        Received(s.(bindings := s.bindings[index := Binding(b.bound, b.queue + [datagram])]), None)
      else Received(s, None)
  }

  /** What each event delivers. */
  function Run(s: Sockets, es: seq<Event>): seq<Option<Hit>>
    decreases es
  {
    if es == [] then []
    else
      var r := Step(s, es[0]);
      [r.hit] + Run(r.sockets, es[1..])
  }

  function After(s: Sockets, es: seq<Event>): Sockets
    decreases es
  {
    if es == [] then s else After(Step(s, es[0]).sockets, es[1..])
  }

  /** What has arrived at socket i, oldest first. */
  function Arrived(es: seq<Event>, i: nat): seq<Datagram>
  {
    if es == [] then []
    else (if es[0].Arrives? && es[0].index == i then [es[0].datagram] else []) + Arrived(es[1..], i)
  }

  function Calls(es: seq<Event>): nat
  {
    if es == [] then 0 else (if es[0].Called? then 1 else 0) + Calls(es[1..])
  }

  predicate Sized(es: seq<Event>) { forall e :: e in es && e.Called? ==> e.size >= 1 }

  /** The datagram of socket i is delivered by the k-th event: its first octets, as many as the buffer holds. */
  predicate Delivers(run: seq<Option<Hit>>, es: seq<Event>, k: nat, i: nat, datagram: Datagram)
    requires |run| == |es|
  {
    && k < |es| && es[k].Called? && run[k].Some? && run[k].value.index == i
    && run[k].value.message <= datagram
    && |run[k].value.message| == if |datagram| <= es[k].size then |datagram| else es[k].size
  }

  lemma {:induction false} RunLength(s: Sockets, es: seq<Event>)
    ensures |Run(s, es)| == |es|
    decreases es
  {
    if es == [] {
    } else {
      RunLength(Step(s, es[0]).sockets, es[1..]);
    }
  }

  /** The calls that can come before the datagram at this depth of socket i is taken. */
  function Wait(s: Sockets, i: nat, depth: nat): nat
    requires Valid(s) && i < |s.bindings|
  {
    |s.bindings| * depth + Distance(s.next, i, |s.bindings|)
  }

  lemma WaitShrinks(s: Sockets, r: Sockets, i: nat, depth: nat)
    requires Valid(s) && Valid(r) && i < |s.bindings| == |r.bindings| && depth > 0
    ensures Wait(r, i, depth - 1) < Wait(s, i, depth)
  {
    assert |s.bindings| * depth == |s.bindings| * (depth - 1) + |s.bindings|;
  }

  lemma {:induction false} ServedByItsTurn(s: Sockets, es: seq<Event>, i: nat, depth: nat) returns (k: nat)
    requires Valid(s) && Holding(s.bindings, i) && depth < |s.bindings[i].queue| && s.bindings[i].queue[depth] != []
    requires Sized(es) && Calls(es) > Wait(s, i, depth)
    ensures |Run(s, es)| == |es| && Delivers(Run(s, es), es, k, i, s.bindings[i].queue[depth])
    decreases es
  {
    hide Receive;
    RunLength(s, es);
    var r := Step(s, es[0]);
    assert es[0] in es && forall e :: e in es[1..] ==> e in es;
    if es[0].Called? {
      TurnComesNearer(s, es[0].size, i);
    }
    if es[0].Called? && Taken(s.bindings[i], r.sockets.bindings[i], i, es[0].size, r.hit) {
      if depth == 0 {
        k := 0;
      } else {
        WaitShrinks(s, r.sockets, i, depth);
        k := ServedByItsTurn(r.sockets, es[1..], i, depth - 1);
        k := k + 1;
      }
    } else {
      k := ServedByItsTurn(r.sockets, es[1..], i, depth);
      k := k + 1;
    }
  }

  /** Of everything that socket i held or that arrived there, the oldest m datagrams have been taken. */
  ghost predicate HasTaken(s: Sockets, es: seq<Event>, i: nat, m: nat)
    requires i < |s.bindings|
  {
    var all := s.bindings[i].queue + Arrived(es, i);
    m <= |all| && i < |After(s, es).bindings| && After(s, es).bindings[i].queue == all[m..]
  }

  lemma StepMoves(s: Sockets, e: Event, i: nat) returns (taken: bool)
    requires Valid(s) && i < |s.bindings| && s.bindings[i].bound && (e.Called? ==> e.size >= 1)
    ensures var r, q := Step(s, e).sockets, s.bindings[i].queue;
            && Valid(r) && |r.bindings| == |s.bindings| && r.bindings[i].bound
            && (taken ==> q != []) && r.bindings[i].queue == (if taken then q[1..] else q) + Arrived([e], i)
    ensures taken ==> e.Called?
    ensures !taken && e.Called? && s.bindings[i].queue != [] ==>
              Distance(Step(s, e).sockets.next, i, |s.bindings|) < Distance(s.next, i, |s.bindings|)
    ensures e.Arrives? ==> Step(s, e).sockets.next == s.next
  {
    taken := false;
    if e.Called? && s.bindings[i].queue != [] {
      TurnComesNearer(s, e.size, i);
      taken := Taken(s.bindings[i], Step(s, e).sockets.bindings[i], i, e.size, Step(s, e).hit);
    } else if e.Called? {
      ScanLeaves(s.bindings, s.next, 0, e.size, i);
    }
  }

  lemma ArrivedSplits(es: seq<Event>, i: nat)
    requires es != []
    ensures Arrived(es, i) == Arrived([es[0]], i) + Arrived(es[1..], i)
  {
    assert [es[0]][1..] == [];
  }

  /** What is left of a queue, counted before and after its head is taken. */
  lemma Regroup(q: seq<Datagram>, one: seq<Datagram>, rest: seq<Datagram>, taken: bool, m: nat)
    requires taken ==> q != []
    ensures var all, left := q + (one + rest), ((if taken then q[1..] else q) + one) + rest;
            && |all| == |left| + (if taken then 1 else 0)
            && (m <= |left| ==> all[if taken then m + 1 else m..] == left[m..])
  {
    var all, left := q + (one + rest), ((if taken then q[1..] else q) + one) + rest;
    if taken {
      assert all == [q[0]] + left;
    } else {
      assert all == left;
    }
  }

  lemma MoreTaken(s: Sockets, es: seq<Event>, i: nat, taken: bool, m: nat)
    requires es != [] && i < |s.bindings| && i < |Step(s, es[0]).sockets.bindings|
    requires taken ==> s.bindings[i].queue != []
    requires var q := s.bindings[i].queue;
             Step(s, es[0]).sockets.bindings[i].queue == (if taken then q[1..] else q) + Arrived([es[0]], i)
    requires HasTaken(Step(s, es[0]).sockets, es[1..], i, m)
    ensures HasTaken(s, es, i, if taken then m + 1 else m)
  {
    hide Step;
    ArrivedSplits(es, i);
    Regroup(s.bindings[i].queue, Arrived([es[0]], i), Arrived(es[1..], i), taken, m);
  }

  lemma {:induction false} QueueMoves(s: Sockets, es: seq<Event>, i: nat) returns (m: nat)
    requires Valid(s) && i < |s.bindings| && s.bindings[i].bound && Sized(es)
    ensures HasTaken(s, es, i, m)
    decreases es
  {
    hide Step;
    if es == [] {
      m := 0;
    } else {
      assert es[0] in es && forall e :: e in es[1..] ==> e in es;
      var taken := StepMoves(s, es[0], i);
      m := QueueMoves(Step(s, es[0]).sockets, es[1..], i);
      MoreTaken(s, es, i, taken, m);
      m := if taken then m + 1 else m;
    }
  }

  lemma {:induction false} TakenByItsTurn(s: Sockets, es: seq<Event>, i: nat, depth: nat) returns (m: nat)
    requires Valid(s) && Holding(s.bindings, i) && depth < |s.bindings[i].queue|
    requires Sized(es) && Calls(es) > Wait(s, i, depth)
    ensures HasTaken(s, es, i, m) && m > depth
    decreases es
  {
    hide Step, HasTaken;
    assert es[0] in es && forall e :: e in es[1..] ==> e in es;
    var r := Step(s, es[0]).sockets;
    var taken := StepMoves(s, es[0], i);
    if taken && depth == 0 {
      m := QueueMoves(r, es[1..], i);
    } else {
      if taken {
        WaitShrinks(s, r, i, depth);
      }
      m := TakenByItsTurn(r, es[1..], i, if taken then depth - 1 else depth);
    }
    MoreTaken(s, es, i, taken, m);
    m := if taken then m + 1 else m;
  }

  /** With n sockets, the datagram at any depth of any bound socket's queue is taken within n * (depth + 1) calls, in
      the order in which the datagrams came, and if it has octets it is delivered, cut to the buffer: whatever
      arrives in the meantime, and whatever the others hold. */
  lemma NoSocketStarves(s: Sockets, es: seq<Event>, i: nat, depth: nat)
    requires Valid(s) && i < |s.bindings| && s.bindings[i].bound && depth < |s.bindings[i].queue|
    requires Sized(es) && Calls(es) >= |s.bindings| * (depth + 1)
    ensures exists m :: m > depth && HasTaken(s, es, i, m)
    ensures |Run(s, es)| == |es|
    ensures s.bindings[i].queue[depth] != [] ==>
              exists k :: Delivers(Run(s, es), es, k, i, s.bindings[i].queue[depth])
  {
    assert |s.bindings| * (depth + 1) == |s.bindings| * depth + |s.bindings|;
    var m := TakenByItsTurn(s, es, i, depth);
    RunLength(s, es);
    if s.bindings[i].queue[depth] != [] {
      var k := ServedByItsTurn(s, es, i, depth);
    }
  }

  lemma UnboundInStep(s: Sockets, e: Event, i: nat)
    requires Valid(s) && i < |s.bindings| && !s.bindings[i].bound
    ensures var r := Step(s, e);
            && Valid(r.sockets) && i < |r.sockets.bindings|
            && r.sockets.bindings[i] == Binding(false, s.bindings[i].queue + Arrived([e], i))
            && (r.hit.Some? ==> r.hit.value.index != i)
  {
    match e
    case Called(size) =>
      ScanLeaves(s.bindings, s.next, 0, size, i);
      assert s.bindings[i].queue + Arrived([e], i) == s.bindings[i].queue;
    case Arrives(_, _) =>
      assert s.bindings[i].queue + [] == s.bindings[i].queue;
  }

  /** What arrives at a socket that is not bound stays there. */
  lemma {:induction false} UnboundIsLeft(s: Sockets, es: seq<Event>, i: nat)
    requires Valid(s) && i < |s.bindings| && !s.bindings[i].bound
    ensures i < |After(s, es).bindings|
    ensures After(s, es).bindings[i] == Binding(false, s.bindings[i].queue + Arrived(es, i))
    ensures forall k :: 0 <= k < |Run(s, es)| && Run(s, es)[k].Some? ==> Run(s, es)[k].value.index != i
    decreases es
  {
    hide Receive, Valid;
    if es == [] {
      assert s.bindings[i].queue + [] == s.bindings[i].queue;
    } else {
      UnboundInStep(s, es[0], i);
      UnboundIsLeft(Step(s, es[0]).sockets, es[1..], i);
      ArrivedSplits(es, i);
      assert s.bindings[i].queue + Arrived(es, i) == (s.bindings[i].queue + Arrived([es[0]], i)) + Arrived(es[1..], i);
    }
  }

  lemma {:induction false} HitsHaveOctets(bindings: seq<Binding>, start: nat, k: nat, size: nat)
    requires bindings != []
    ensures var hit := ScanFrom(bindings, start, k, size).hit; hit.Some? ==> hit.value.message != []
    decreases |bindings| - k
  {
    var n := |bindings|;
    if k >= n {
    } else {
      var j := (start + k) % n;
      if !bindings[j].bound || bindings[j].queue == [] {
        HitsHaveOctets(bindings, start, k + 1, size);
      } else if Cut(bindings[j].queue[0], size) == [] {
        HitsHaveOctets(bindings[j := Binding(true, bindings[j].queue[1..])], start, k + 1, size);
      }
    }
  }

  /** A call never delivers an empty datagram, and delivers nothing only if no socket's oldest datagram has octets. */
  lemma EmptyDatagramsArePassed(s: Sockets, size: nat)
    requires Valid(s) && size >= 1
    ensures var hit := Receive(s, size).hit;
            && (hit.Some? ==> hit.value.message != [])
            && (hit.None? ==> forall i: nat :: Holding(s.bindings, i) ==> s.bindings[i].queue[0] == [])
  {
    if s.bindings != [] {
      HitsHaveOctets(s.bindings, s.next, 0, size);
      forall i: nat | Receive(s, size).hit.None? && Holding(s.bindings, i) ensures s.bindings[i].queue[0] == [] {
        ScanTakes(s.bindings, s.next, 0, size, i);
      }
    }
  }

  predicate AllQuiet(bindings: seq<Binding>) { forall i :: 0 <= i < |bindings| ==> bindings[i].queue == [] }

  lemma {:induction false} QuietScan(bindings: seq<Binding>, start: nat, k: nat, size: nat)
    requires AllQuiet(bindings)
    ensures ScanFrom(bindings, start, k, size) == Scan(bindings, None)
    decreases |bindings| - k
  {
    if k >= |bindings| {
    } else {
      assert bindings[(start + k) % |bindings|].queue == [];
      QuietScan(bindings, start, k + 1, size);
    }
  }

  lemma QuietCall(s: Sockets, size: nat)
    requires Valid(s) && s.bindings != [] && AllQuiet(s.bindings)
    ensures Receive(s, size).sockets ==
            Sockets(s.bindings, if s.next + 1 < |s.bindings| then s.next + 1 else 0)
  {
    QuietScan(s.bindings, s.next, 0, size);
    NextIs(s.next, |s.bindings|);
  }

  /** The turn goes round also while nothing arrives: every idle call begins one socket further on, and n of them, n
      being the number of sockets, end where they began. */
  lemma {:induction false} IdleCallsRotate(s: Sockets, es: seq<Event>)
    requires Valid(s) && AllQuiet(s.bindings) && |es| <= |s.bindings| && forall e :: e in es ==> e.Called?
    ensures var n, turn := |s.bindings|, s.next + |es|;
            After(s, es) == Sockets(s.bindings, if turn < n || es == [] then turn else turn - n)
    decreases es
  {
    if es == [] {
    } else {
      assert es[0] in es && forall e :: e in es[1..] ==> e in es;
      QuietCall(s, es[0].size);
      IdleCallsRotate(Receive(s, es[0].size).sockets, es[1..]);
    }
  }
}
