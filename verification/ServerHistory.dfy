/** What a client of the simulated server gets to know, told by the requests and the answers alone: which writes are
    accepted, and what a read shows. */
module ServerHistory {
  import opened Wrappers
  import opened Tags
  import opened Apdu
  import opened Frames
  import opened Server
  import opened ServerMap

  // -- What is seen from outside ------------------------------------------------------------------------

  /** What a client reads out of what was sent at one step; None where nothing was. */
  function Understood(reply: Decoded<Option<Octets>>): Option<Answered>
  {
    match reply
    case Value(Some(data)) =>
      (match DecodeFrame(data)
       case Value(f) => DecodeAnswer(ApduOf(f))
       case _ => None)
    case _ => None
  }

  function AllUnderstood(replies: seq<Decoded<Option<Octets>>>): (r: seq<Option<Answered>>)
    ensures |r| == |replies| && forall i :: 0 <= i < |r| ==> r[i] == Understood(replies[i])
  {
    if replies == [] then [] else [Understood(replies[0])] + AllUnderstood(replies[1..])
  }

  /** The mode after these happenings. */
  function ModeAfter(mode: Mode, es: seq<Happening>): Mode
  {
    if es == [] then mode
    else if es[|es| - 1].Switched? then es[|es| - 1].mode
    else ModeAfter(mode, es[..|es| - 1])
  }

  predicate Writes(e: Happening, r: Reference) { e.Asked? && e.request.query.Write? && e.request.query.reference == r }

  /** The value of the last write to exactly this property that was acknowledged. */
  function LastAccepted(es: seq<Happening>, answers: seq<Option<Answered>>, r: Reference): Option<Octets>
    requires |answers| == |es| && forall e :: e in es ==> HappensInRange(e)
  {
    if es == [] then None
    else
      var n := |es| - 1;
      assert HappensInRange(es[n]) && forall e :: e in es[..n] ==> e in es;
      if Writes(es[n], r) && answers[n] == Some(Accepted) then Some(Encode(es[n].request.query.value))
      else LastAccepted(es[..n], answers[..n], r)
  }

  /** What a property holds: the last write that was acknowledged, else what it held at first. */
  function Held(objects: Table, last: Option<Octets>, r: Reference): Option<Octets>
  {
    if last.Some? then last
    else if r.key in objects && r.property in objects[r.key] then Some(objects[r.key][r.property])
    else None
  }

  /** Who may write what: a listed object's listed properties, or just those named as writable. */
  predicate Writable(d: ValidDevice, objects: Table, r: Reference)
  {
    r.key in objects && (match d.writable
                         case None => r.property in objects[r.key]
                         case Some(writable) => (r.key, r.property) in writable)
  }

  // -- The plain run, step by step -------------------------------------------------------------------------

  lemma {:induction false} InRangeEach(es: seq<Happening>)
    requires AllInRange(es)
    ensures forall e :: e in es ==> HappensInRange(e)
  {
    if es == [] {
    } else {
      InRangeEach(es[1..]);
      assert forall e :: e in es ==> e == es[0] || e in es[1..];
    }
  }

  lemma {:induction false} InRangePrefix(es: seq<Happening>, n: nat)
    requires AllInRange(es) && n <= |es|
    ensures AllInRange(es[..n])
    decreases es
  {
    if n == 0 {
    } else {
      InRangePrefix(es[1..], n - 1);
      assert es[..n][1..] == es[1..][..n - 1];
    }
  }

  lemma {:induction false} AnswersOfRun(d: ValidDevice, s: ServerState, es: seq<Happening>)
    requires AllInRange(es)
    ensures |RunPlain(d, s, es).answers| == |es|
    decreases es
  {
    if es == [] {
    } else {
      AnswersOfRun(d, PlainStep(d, s, es[0]).state, es[1..]);
    }
  }

  /** Step n of a plain run is taken from the state after the first n. */
  lemma {:induction false} StepOfRun(d: ValidDevice, s: ServerState, es: seq<Happening>, n: nat)
    requires AllInRange(es) && n < |es|
    ensures AllInRange(es[..n]) && AllInRange(es[..n + 1]) && HappensInRange(es[n])
    ensures var before, run := RunPlain(d, s, es[..n]), RunPlain(d, s, es);
            var o := PlainStep(d, before.state, es[n]);
            && |before.answers| == n && |run.answers| == |es| && run.answers[..n] == before.answers
            && run.answers[n] == o.answer && RunPlain(d, s, es[..n + 1]).state == o.state
    decreases es
  {
    hide PlainStep, HappensInRange;
    InRangePrefix(es, n);
    InRangePrefix(es, n + 1);
    var o, rest := PlainStep(d, s, es[0]), es[1..];
    if n == 0 {
      assert es[..1] == [es[0]] && es[..1][1..] == [];
      AnswersOfRun(d, o.state, rest);
    } else {
      StepOfRun(d, o.state, rest, n - 1);
      assert es[..n][1..] == rest[..n - 1] && es[..n + 1][1..] == rest[..n];
    }
  }

  /** The table between two steps, against the requests and answers so far. */
  ghost predicate Remembers(d: ValidDevice, initial: Table, objects: Table, es: seq<Happening>,
                            answers: seq<Option<Answered>>)
    requires |answers| == |es| && forall e :: e in es ==> HappensInRange(e)
  {
    && objects.Keys == initial.Keys
    && (d.writable.None? ==> forall key :: key in initial ==> objects[key].Keys == initial[key].Keys)
    && forall r: Reference :: r.key in initial ==>
         Held(objects, None, r) == Held(initial, LastAccepted(es, answers, r), r)
  }

  lemma LastAcceptedGrows(es: seq<Happening>, answers: seq<Option<Answered>>, e: Happening, a: Option<Answered>,
                          r: Reference)
    requires |answers| == |es| && HappensInRange(e) && forall x :: x in es ==> HappensInRange(x)
    ensures forall x :: x in es + [e] ==> HappensInRange(x)
    ensures LastAccepted(es + [e], answers + [a], r) ==
            if Writes(e, r) && a == Some(Accepted) then Some(Encode(e.request.query.value))
            else LastAccepted(es, answers, r)
  {
    assert (es + [e])[..|es|] == es && (answers + [a])[..|es|] == answers;
  }

  lemma StepAccepts(d: ValidDevice, s: ServerState, e: Happening)
    requires HappensInRange(e) && e.Asked? && e.request.query.Write? && !s.mode.Offline?
    ensures var o, r := PlainStep(d, s, e), e.request.query.reference;
            && (o.answer == Some(Accepted) <==> s.mode.Online? && Writable(d, s.objects, r))
            && (o.answer != Some(Accepted) ==>
                  o.answer == Some(if r.key in s.objects then Refused(2, 40) else Refused(1, 31)))
  {
  }

  lemma StepRemembers(d: ValidDevice, s: ServerState, e: Happening, r: Reference)
    requires HappensInRange(e) && r.key in s.objects
    ensures var o := PlainStep(d, s, e);
            && o.state.objects.Keys == s.objects.Keys
            && Held(o.state.objects, None, r) ==
               (if Writes(e, r) && o.answer == Some(Accepted) then Some(Encode(e.request.query.value))
                else Held(s.objects, None, r))
            && (d.writable.None? ==> o.state.objects[r.key].Keys == s.objects[r.key].Keys)
  {
  }

  lemma KeysStay(d: ValidDevice, s: ServerState, e: Happening)
    requires HappensInRange(e)
    ensures PlainStep(d, s, e).state.objects.Keys == s.objects.Keys
  {
  }

  lemma HeldIsLast(initial: Table, r: Reference)
    ensures forall v: Octets :: Held(initial, Some(v), r) == Some(v)
  {
  }

  lemma RemembersMore(d: ValidDevice, initial: Table, s: ServerState, es: seq<Happening>,
                      answers: seq<Option<Answered>>, e: Happening)
    requires |answers| == |es| && HappensInRange(e) && forall x :: x in es ==> HappensInRange(x)
    requires Remembers(d, initial, s.objects, es, answers)
    ensures forall x :: x in es + [e] ==> HappensInRange(x)
    ensures var o := PlainStep(d, s, e); Remembers(d, initial, o.state.objects, es + [e], answers + [o.answer])
  {
    hide PlainStep, HappensInRange, LastAccepted, Held, Writes;
    var o := PlainStep(d, s, e);
    KeysStay(d, s, e);
    forall r: Reference | r.key in initial
      ensures Held(o.state.objects, None, r) == Held(initial, LastAccepted(es + [e], answers + [o.answer], r), r)
    {
      StepRemembers(d, s, e, r);
      LastAcceptedGrows(es, answers, e, o.answer, r);
      HeldIsLast(initial, r);
    }
    forall key | key in initial && d.writable.None? ensures o.state.objects[key].Keys == initial[key].Keys {
      StepRemembers(d, s, e, Reference(key, 0));
    }
  }

  lemma NothingToRemember(d: ValidDevice, s: ServerState)
    ensures RunPlain(d, s, []) == PlainRun(s, []) && Remembers(d, s.objects, s.objects, [], [])
  {
  }

  lemma ModeSteps(d: ValidDevice, s: ServerState, e: Happening)
    requires HappensInRange(e)
    ensures PlainStep(d, s, e).state.mode == if e.Switched? then e.mode else s.mode
  {
  }

  lemma {:induction false} RunRemembers(d: ValidDevice, s: ServerState, es: seq<Happening>, n: nat)
    requires AllInRange(es) && n <= |es|
    ensures AllInRange(es[..n]) && |RunPlain(d, s, es[..n]).answers| == n
    ensures forall e :: e in es[..n] ==> HappensInRange(e)
    ensures var run := RunPlain(d, s, es[..n]);
            && Remembers(d, s.objects, run.state.objects, es[..n], run.answers)
            && run.state.mode == ModeAfter(s.mode, es[..n])
  {
    hide PlainStep, Remembers, HappensInRange, RunPlain;
    InRangePrefix(es, n);
    InRangeEach(es[..n]);
    AnswersOfRun(d, s, es[..n]);
    if n == 0 {
      NothingToRemember(d, s);
    } else {
      RunRemembers(d, s, es, n - 1);
      StepOfRun(d, s, es[..n], n - 1);
      assert es[..n][..n - 1] == es[..n - 1] && es[..n][..n] == es[..n] == es[..n - 1] + [es[n - 1]];
      var before, run := RunPlain(d, s, es[..n - 1]), RunPlain(d, s, es[..n]);
      RemembersMore(d, s.objects, before.state, es[..n - 1], before.answers, es[n - 1]);
      ModeSteps(d, before.state, es[n - 1]);
      assert run.answers == before.answers + [run.answers[n - 1]];
    }
  }

  // -- The same of what is sent --------------------------------------------------------------------------

  lemma MatchesIsUnderstood(reply: Decoded<Option<Octets>>, e: Happening, answer: Option<Answered>)
    requires Matches(reply, e, answer)
    ensures Understood(reply) == answer
  {
  }

  lemma RunIsUnderstood(d: ValidDevice, s: ServerState, es: seq<Happening>)
    requires AllInRange(es) && Tidy(s.objects)
    ensures AllUnderstood(RunServer(ServerOf(d), s, es).replies) == RunPlain(d, s, es).answers
  {
    hide Matches, RunServer, RunPlain, Tidy, AllInRange, ServerOf, Understood;
    ServerIsMap(d, s, es);
    var run, plain := RunServer(ServerOf(d), s, es), RunPlain(d, s, es);
    forall i | 0 <= i < |es| ensures Understood(run.replies[i]) == plain.answers[i] {
      MatchesIsUnderstood(run.replies[i], es[i], plain.answers[i]);
    }
  }

  /** The answer to a read of an object that is not listed: the Device object has a name and an identifier, under its
      own instance and under 4194303, and there is no other object. */
  ghost predicate AnswersForDevice(d: ValidDevice, r: Reference, answer: Answered)
  {
    if r.key != ObjectKey(8, d.instance) && r.key != ObjectKey(8, 4194303) then answer == Refused(1, 31)
    else if r.property == 77 then
      answer.Shown? && ReadTag(answer.value, 0) == Value(Tag(7, false, Primitive, [0] + d.name, |answer.value|))
    else if r.property == 75 then
      answer.Shown? && exists w ::
        ReadTag(answer.value, 0) == Value(Tag(12, false, Primitive, w, |answer.value|)) && |w| == 4
        && KeyOf(BigEndian(w)) == ObjectKey(8, d.instance)
    else answer == Refused(2, 32)
  }

  lemma ItemIsRead(number: nat, body: Octets)
    requires number <= 14 && number != 1 && |body| < 254
    ensures var v := Encode(Item(number, false, body, End));
            ReadTag(v, 0) == Value(Tag(number, false, Primitive, body, |v|))
  {
    hide ReadTag;
    var items := Item(number, false, body, End);
    var v, item := Encode(items), Header(number, false, |body|) + body;
    assert EncodeFirst(items) == item && Encode(items.rest) == [];
    assert item + [] == item;
    assert v == item;
    assert v[0..] == item;
    AtItself(v, 0, item);
    ReadPrimitive(v, 0, number, false, body);
  }

  lemma DeviceAnswers(d: ValidDevice, objects: Table, r: Reference)
    requires r.key !in objects
    ensures AnswersForDevice(d, r, Look(d, objects, r))
  {
    hide ReadTag, Encode, ToBytes, KeyOf, BigEndian, ObjectId;
    var body := ToBytes(ObjectId(DeviceKey(d)), 4);
    ItemIsRead(7, [0] + d.name);
    ItemIsRead(12, body);
    UnsignedRoundTrip(ObjectId(DeviceKey(d)));
    KeyRoundTrip(DeviceKey(d));
  }

  /** The answer to step n of a run. */
  ghost predicate AnsweredFromHistory(d: ValidDevice, s: ServerState, es: seq<Happening>,
                                      answers: seq<Option<Answered>>, n: nat)
    requires n < |es| == |answers| && forall e :: e in es[..n] ==> HappensInRange(e)
  {
    var mode, answer := ModeAfter(s.mode, es[..n]), answers[n];
    match es[n]
    case Switched(_) => answer == None
    case Asked(request) =>
      var r := request.query.reference;
      if mode.Offline? then answer == None
      else if request.query.Write? then
        if mode.Online? && Writable(d, s.objects, r) then answer == Some(Accepted)
        else answer == Some(if r.key in s.objects then Refused(2, 40) else Refused(1, 31))
      else if r.key !in s.objects then answer.Some? && AnswersForDevice(d, r, answer.value)
      else
        answer == match Held(s.objects, LastAccepted(es[..n], answers[..n], r), r)
                  case Some(v) => Some(Shown(v))
                  case None => Some(Refused(2, 32))
  }

  lemma WritableStays(d: ValidDevice, initial: Table, objects: Table, es: seq<Happening>,
                      answers: seq<Option<Answered>>, r: Reference)
    requires |answers| == |es| && forall e :: e in es ==> HappensInRange(e)
    requires Remembers(d, initial, objects, es, answers)
    ensures Writable(d, objects, r) == Writable(d, initial, r) && (r.key in objects <==> r.key in initial)
  {
    assert r.key in objects <==> r.key in objects.Keys;
    if d.writable.None? && r.key in initial {
      assert r.property in objects[r.key] <==> r.property in objects[r.key].Keys;
    }
  }

  lemma ReadLooks(d: ValidDevice, s: ServerState, e: Happening)
    requires HappensInRange(e) && e.Asked? && e.request.query.Read? && !s.mode.Offline?
    ensures var r := e.request.query.reference;
            && PlainStep(d, s, e).answer == Some(Look(d, s.objects, r))
            && (r.key in s.objects ==>
                  Look(d, s.objects, r) == match Held(s.objects, None, r)
                                           case Some(v) => Shown(v)
                                           case None => Refused(2, 32))
  {
  }

  lemma QuietSteps(d: ValidDevice, s: ServerState, e: Happening)
    requires HappensInRange(e) && (e.Switched? || s.mode.Offline?)
    ensures PlainStep(d, s, e).answer == None
  {
  }

  lemma HeldFromHistory(d: ValidDevice, initial: Table, objects: Table, es: seq<Happening>,
                        answers: seq<Option<Answered>>, r: Reference)
    requires |answers| == |es| && r.key in initial && forall e :: e in es ==> HappensInRange(e)
    requires Remembers(d, initial, objects, es, answers)
    ensures Held(objects, None, r) == Held(initial, LastAccepted(es, answers, r), r)
  {
  }

  lemma PlainAnswersFromHistory(d: ValidDevice, s: ServerState, es: seq<Happening>, n: nat)
    requires AllInRange(es) && n < |es|
    ensures |RunPlain(d, s, es).answers| == |es| && forall e :: e in es[..n] ==> HappensInRange(e)
    ensures AnsweredFromHistory(d, s, es, RunPlain(d, s, es).answers, n)
  {
    hide PlainStep, Remembers, HappensInRange, RunPlain, Writable, AnswersForDevice, Look;
    RunRemembers(d, s, es, n);
    StepOfRun(d, s, es, n);
    var before := RunPlain(d, s, es[..n]);
    var e := es[n];
    if e.Switched? || before.state.mode.Offline? {
      QuietSteps(d, before.state, e);
    } else {
      WritableStays(d, s.objects, before.state.objects, es[..n], before.answers, e.request.query.reference);
      if e.request.query.Write? {
        StepAccepts(d, before.state, e);
      } else {
        ReadLooks(d, before.state, e);
        if e.request.query.reference.key in s.objects {
          HeldFromHistory(d, s.objects, before.state.objects, es[..n], before.answers, e.request.query.reference);
        } else {
          DeviceAnswers(d, before.state.objects, e.request.query.reference);
        }
      }
    }
  }

  /** The server, from outside. In any run of requests and changes of mode, at every step: an offline server sends
      nothing; a write is acknowledged if and only if the object is listed, the server is online and the property may
      be written, and else refused with the error for it; and a read of a listed object shows the value of the last
      write to exactly that property that was acknowledged, or else what the property held at first, or that there is
      no such property. */
  lemma ServerKeepsWhatItAccepts(d: ValidDevice, s: ServerState, es: seq<Happening>, n: nat)
    requires AllInRange(es) && Tidy(s.objects) && n < |es|
    ensures |RunServer(ServerOf(d), s, es).replies| == |es| && forall e :: e in es[..n] ==> HappensInRange(e)
    ensures AnsweredFromHistory(d, s, es, AllUnderstood(RunServer(ServerOf(d), s, es).replies), n)
  {
    hide AnsweredFromHistory, RunServer, RunPlain, Tidy, AllInRange;
    RunIsUnderstood(d, s, es);
    PlainAnswersFromHistory(d, s, es, n);
  }
}
