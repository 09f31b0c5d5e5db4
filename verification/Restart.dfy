/** The deferred restart of common/CASExampleHelper.cpp: requests are recorded, and a check in the main loop says when
    the restart is due. Times are milliseconds of a clock that does not run backwards within 64 bits. */
module Restart {
  import opened Wrappers

  datatype Kind = Cold | Warm

  datatype Pending = Pending(pending: bool, dueAt: nat, kind: Kind)

  datatype Event = Requested(now: nat, kind: Kind, delay: nat) | Checked(now: nat)

  const INITIAL := Pending(false, 0, Warm)

  function AfterRequest(p: Pending, now: nat, kind: Kind, delay: nat): Pending
  {
    var due := now + delay;
    if p.pending then Pending(true, if due < p.dueAt then due else p.dueAt, if kind.Cold? then Cold else p.kind)
    else Pending(true, due, kind)
  }

  predicate Due(p: Pending, now: nat) { p.pending && now >= p.dueAt }

  function Step(p: Pending, e: Event): Pending
  {
    match e
    case Requested(now, kind, delay) => AfterRequest(p, now, kind, delay)
    case Checked(now) => if Due(p, now) then p.(pending := false) else p
  }

  function After(es: seq<Event>): Pending
  {
    if es == [] then INITIAL else Step(After(es[..|es| - 1]), es[|es| - 1])
  }

  /** What the event at position j answers: only a check ever reports a restart. */
  function Outcome(es: seq<Event>, j: nat): Option<Kind>
    requires j < |es|
  {
    var p := After(es[..j]);
    if es[j].Checked? && Due(p, es[j].now) then Some(p.kind) else None
  }

  /** The globals and the functions that update them. */
  class DeferredRestart {
    var pending: bool
    var dueAt: nat
    var kind: Kind

    function View(): Pending
      reads this
    {
      Pending(pending, dueAt, kind)
    }

    constructor ()
      ensures View() == INITIAL
    {
      pending, dueAt, kind := false, 0, Warm;
    }

    method RequestRestart(now: nat, kind: Kind, delay: nat)
      modifies this
      ensures View() == Step(old(View()), Requested(now, kind, delay))
    {
      var due := now + delay;
      if pending {
        if due < dueAt {
          dueAt := due;
        }
        if kind == Cold {
          this.kind := Cold;
        }
        return;
      }
      pending := true;
      dueAt := due;
      this.kind := kind;
    }

    method RestartDue(now: nat) returns (r: Option<Kind>)
      modifies this`pending
      ensures View() == Step(old(View()), Checked(now))
      ensures r == if Due(old(View()), now) then Some(old(kind)) else None
    {
      if !pending || now < dueAt {
        return None;
      }
      pending := false;
      r := Some(kind);
    }
  }

  // -- Batches ------------------------------------------------------------------------------------------------

  predicate Fires(es: seq<Event>, j: nat)
    requires j < |es|
  {
    Outcome(es, j).Some?
  }

  /** The request at position a has not been answered by any restart before position f. */
  predicate Waits(es: seq<Event>, a: nat, f: nat)
    requires f <= |es|
  {
    a < f && es[a].Requested? && forall j :: a < j < f ==> !Fires(es, j)
  }

  function Deadline(e: Event): nat
    requires e.Requested?
  {
    e.now + e.delay
  }

  lemma PrefixDecides(es: seq<Event>, n: nat, j: nat)
    requires j < n <= |es|
    ensures Outcome(es[..n], j) == Outcome(es, j)
  {
    assert es[..n][..j] == es[..j];
  }

  /** What is pending is what waits: the earliest deadline, and Cold if any request is. */
  ghost predicate Sums(es: seq<Event>, p: Pending)
  {
    && (p.pending ==> exists a: nat :: Waits(es, a, |es|) && Deadline(es[a]) == p.dueAt)
    && (forall a: nat :: Waits(es, a, |es|) ==> p.pending && p.dueAt <= Deadline(es[a]))
    && (p.pending && p.kind.Cold? ==> exists a: nat :: Waits(es, a, |es|) && es[a].kind.Cold?)
    && (p.pending && (exists a: nat :: Waits(es, a, |es|) && es[a].kind.Cold?) ==> p.kind.Cold?)
  }

  lemma WaitsLonger(es: seq<Event>, a: nat)
    requires es != [] && a < |es| - 1
    ensures Waits(es, a, |es|) <==> Waits(es[..|es| - 1], a, |es| - 1) && !Fires(es, |es| - 1)
  {
    var n := |es| - 1;
    forall j | a < j < n ensures Fires(es[..n], j) == Fires(es, j) {
      PrefixDecides(es, n, j);
    }
    assert Waits(es, a, |es|) ==> !Fires(es, n);
  }

  predicate Extends(es: seq<Event>, prior: seq<Event>)
  {
    es != [] && prior == es[..|es| - 1]
  }

  ghost predicate KeepsWaiting(es: seq<Event>, prior: seq<Event>)
    requires Extends(es, prior)
  {
    forall a: nat :: a < |prior| ==> (Waits(es, a, |es|) <==> Waits(prior, a, |prior|) && !Fires(es, |prior|))
  }

  /** A check that reports nothing, like a request, lets what waits wait on. */
  lemma WitnessesStay(es: seq<Event>, prior: seq<Event>, p: Pending)
    requires Extends(es, prior) && KeepsWaiting(es, prior) && Sums(prior, p) && p.pending && !Fires(es, |prior|)
    ensures exists a: nat :: a < |prior| && Waits(es, a, |es|) && Deadline(es[a]) == p.dueAt
    ensures p.kind.Cold? ==> exists a: nat :: a < |prior| && Waits(es, a, |es|) && es[a].kind.Cold?
  {
    var a: nat :| Waits(prior, a, |prior|) && Deadline(prior[a]) == p.dueAt;
    assert Waits(es, a, |es|);
    if p.kind.Cold? {
      var c: nat :| Waits(prior, c, |prior|) && prior[c].kind.Cold?;
      assert Waits(es, c, |es|);
    }
  }

  lemma RequestSums(es: seq<Event>, prior: seq<Event>, p: Pending)
    requires Extends(es, prior) && KeepsWaiting(es, prior) && Sums(prior, p) && es[|prior|].Requested?
    ensures Sums(es, Step(p, es[|prior|]))
  {
    var n := |prior|;
    assert !Fires(es, n) && Waits(es, n, |es|);
    if p.pending {
      WitnessesStay(es, prior, p);
    }
    forall a: nat | Waits(es, a, |es|)
      ensures Step(p, es[n]).dueAt <= Deadline(es[a]) && (es[a].kind.Cold? ==> Step(p, es[n]).kind.Cold?)
    {
      assert a == n || Waits(prior, a, n);
    }
  }

  lemma CheckSums(es: seq<Event>, prior: seq<Event>, p: Pending)
    requires Extends(es, prior) && KeepsWaiting(es, prior)
    requires Sums(prior, p) && p == After(prior) && es[|prior|].Checked?
    ensures Sums(es, Step(p, es[|prior|]))
  {
    var n := |prior|;
    assert es[..n] == prior;
    assert Fires(es, n) == Due(p, es[n].now);
    if p.pending && !Fires(es, n) {
      WitnessesStay(es, prior, p);
    }
    forall a: nat | Waits(es, a, |es|)
      ensures !Fires(es, n) && Waits(prior, a, n)
    {
      assert a != n;
    }
  }

  lemma {:induction false} PendingSums(es: seq<Event>)
    ensures Sums(es, After(es))
  {
    if es == [] {
    } else {
      var n := |es| - 1;
      var prior := es[..n];
      PendingSums(prior);
      forall a: nat | a < n ensures Waits(es, a, |es|) <==> Waits(prior, a, n) && !Fires(es, n) {
        WaitsLonger(es, a);
      }
      if es[n].Requested? {
        RequestSums(es, prior, After(prior));
      } else {
        CheckSums(es, prior, After(prior));
      }
      assert After(es) == Step(After(prior), es[n]);
    }
  }

  /** Over any interleaving of requests and checks: a check reports a restart exactly when some request that no
      restart has answered yet has reached its deadline, and as Cold exactly when some such request was Cold. What
      it reports answers all of them, so each batch restarts once, at the first check at or after its earliest
      deadline. */
  lemma RestartFiresOncePerBatch(es: seq<Event>, f: nat)
    requires f < |es| && es[f].Checked?
    ensures Fires(es, f) <==> exists a: nat :: Waits(es, a, f) && Deadline(es[a]) <= es[f].now
    ensures Fires(es, f) ==>
              (Outcome(es, f) == Some(Cold) <==> exists a: nat :: Waits(es, a, f) && es[a].kind.Cold?)
    ensures Fires(es, f) ==> forall a: nat, g: nat :: a < f < g <= |es| ==> !Waits(es, a, g)
  {
    var prior := es[..f];
    PendingSums(prior);
    forall a: nat ensures Waits(prior, a, f) == Waits(es, a, f) {
      forall j | a < j < f ensures Fires(prior, j) == Fires(es, j) {
        PrefixDecides(es, f, j);
      }
    }
  }
}
