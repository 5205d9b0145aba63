/** When a generation cancel of the prefetch streams stops every stream of its generation. */
module TtsPrefetchCut {
  import opened Options
  import opened Text
  import opened TtsPrefetch
  import opened TtsPrefetchInvariant
  import opened TtsPrefetchTheorems

  predicate AllStopped(s: State, epoch: string, playback: nat) {
    forall i :: i in s.all && Of(s.all[i], epoch, playback) ==> Stopped(s.all[i])
  }

  /** No stream of the generation is both out of the map and still to be stopped. */
  predicate NoneUnderway(s: State, epoch: string, playback: nat) {
    forall i :: i in s.all && Of(s.all[i], epoch, playback) ==> Mapped(s, i) || Stopped(s.all[i])
  }

  function Generation(s: State, epoch: string, playback: nat): set<nat> {
    set i | i in s.all && Of(s.all[i], epoch, playback)
  }

  // ---- what a cancel is charged with it stops ----

  /** The call itself is going to stop whatever of `ids` is not stopped yet. */
  predicate Charged(s: State, c: nat, ids: set<nat>) {
    c in s.calls && ids <= s.all.Keys && forall i :: i in ids ==> Stopped(s.all[i]) || Awaits(s.calls[c].phase, i)
  }

  lemma CaptureCharges(s: State, c: nat, epoch: string, playback: nat)
    requires Enabled(s, CaptureGeneration(c, epoch, playback)) && NoneUnderway(s, TrimSpace(epoch), playback)
    requires TrimSpace(epoch) != "" && playback != 0
    ensures Charged(Step(s, CaptureGeneration(c, epoch, playback)), c, Generation(s, TrimSpace(epoch), playback))
  {
    hide TrimSpace;
  }

  lemma AfterGrows(a: Stream, op: Op)
    ensures Of(After(a, op), a.epoch, a.playback) && (Stopped(a) ==> Stopped(After(a, op)))
  {
  }

  lemma ActedGrows(a: Stream, act: Act)
    requires CanAct(a, act)
    ensures Of(Acted(a, act), a.epoch, a.playback) && (Stopped(a) ==> Stopped(Acted(a, act)))
  {
    forall op ensures Of(After(a, op), a.epoch, a.playback) && (Stopped(a) ==> Stopped(After(a, op))) {
      AfterGrows(a, op);
    }
    hide After;
  }

  lemma StreamGrows(s: State, e: Event, i: nat)
    requires Enabled(s, e) && i in s.all
    ensures i in Step(s, e).all && Of(Step(s, e).all[i], s.all[i].epoch, s.all[i].playback)
    ensures Stopped(s.all[i]) ==> Stopped(Step(s, e).all[i])
  {
    hide GenerationCancelled, OfGeneration, MappedStreams, After, Acted, CanAct;
    match e
    case Lookup(_, _, _, _, _, _, _) =>
    case Send(_) =>
    case CloseStream(_) => AfterGrows(s.all[i], CloseQueue);
    case VictimOp(c) => AfterGrows(s.all[i], s.calls[c].phase.work.value.ops[0]);
    case Own(j, act) => if i == j { ActedGrows(s.all[i], act); }
    case _ =>
  }

  lemma AwaitsVictim(s: State, c: nat, i: nat)
    requires Inv(s) && Enabled(s, VictimOp(c)) && i in s.all && Awaits(s.calls[c].phase, i)
    ensures var t := VictimOpStep(s, c);
            c in t.calls && i in t.all && (Awaits(t.calls[c].phase, i) || Stopped(t.all[i]))
  {
    var script := s.calls[c].phase.work.value;
    VictimStep(s, c, After(s.all[script.stream], script.ops[0]));
    hide Inv, After, Grown, Base, PhaseOk;
  }

  /** A call goes on waiting for a stream until it works on it. */
  lemma AwaitsKept(s: State, e: Event, c: nat, i: nat)
    requires Enabled(s, e) && e != VictimOp(c) && c in s.calls && Awaits(s.calls[c].phase, i)
    ensures c in Step(s, e).calls && Awaits(Step(s, e).calls[c].phase, i)
  {
    hide GenerationCancelled, OfGeneration, MappedStreams, After, Sent, Acted, CanAct;
    match e
    case Lookup(_, _, _, _, _, _, _) =>
    case Send(_) =>
    case Find(_, _, _) =>
    case CloseStream(_) =>
    case CaptureGeneration(_, _, _) =>
    case CaptureAll(_) =>
    case CaptureSome(_, _) =>
    case NextVictim(_, _) =>
    case VictimOp(_) =>
    case CancelsDone(_) =>
    case Own(_, _) =>
  }

  lemma AwaitsStep(s: State, e: Event, c: nat, i: nat)
    requires Inv(s) && Enabled(s, e) && c in s.calls && i in s.all && Awaits(s.calls[c].phase, i)
    ensures c in Step(s, e).calls
    ensures Awaits(Step(s, e).calls[c].phase, i) || (i in Step(s, e).all && Stopped(Step(s, e).all[i]))
  {
    if e == VictimOp(c) { AwaitsVictim(s, c, i); } else { AwaitsKept(s, e, c, i); }
    hide Inv, Step, VictimOpStep;
  }

  lemma KindStays(s: State, e: Event, c: nat)
    requires Enabled(s, e) && c in s.calls
    ensures c in Step(s, e).calls && Step(s, e).calls[c].kind == s.calls[c].kind
  {
    hide GenerationCancelled, OfGeneration, MappedStreams, After, Sent, Acted, CanAct;
    match e
    case Lookup(_, _, _, _, _, _, _) =>
    case Send(_) =>
    case Find(_, _, _) =>
    case CloseStream(_) =>
    case CaptureGeneration(_, _, _) =>
    case CaptureAll(_) =>
    case CaptureSome(_, _) =>
    case NextVictim(_, _) =>
    case VictimOp(_) =>
    case CancelsDone(_) =>
    case Own(_, _) =>
  }

  /** Only a push that is not refused makes a stream. */
  lemma NewStreamIsAllowed(s: State, e: Event, i: nat)
    requires Enabled(s, e) && i in Step(s, e).all && i !in s.all
    ensures e.Lookup? && !GenerationCancelled(s.marks, e.epoch, e.playback)
    ensures Step(s, e).all[i].epoch == TrimSpace(e.epoch) && Step(s, e).all[i].playback == e.playback
  {
    hide OfGeneration, MappedStreams, After, Sent, Acted, CanAct;
    match e
    case Lookup(_, _, _, _, _, _, _) =>
    case Send(_) =>
    case Find(_, _, _) =>
    case CloseStream(_) =>
    case CaptureGeneration(_, _, _) =>
    case CaptureAll(_) =>
    case CaptureSome(_, _) =>
    case NextVictim(_, _) =>
    case VictimOp(_) =>
    case CancelsDone(_) =>
    case Own(_, _) =>
  }

  lemma ChargedStep(s: State, e: Event, c: nat, ids: set<nat>)
    requires Inv(s) && Enabled(s, e) && Charged(s, c, ids)
    ensures Charged(Step(s, e), c, ids)
  {
    var t := Step(s, e);
    KindStays(s, e, c);
    forall i | i in ids ensures i in t.all && (Stopped(t.all[i]) || Awaits(t.calls[c].phase, i)) {
      StreamGrows(s, e, i);
      hide Inv, Step, Stopped;
      if Awaits(s.calls[c].phase, i) { AwaitsStep(s, e, c, i); }
    }
    hide Inv, Step, Stopped, Awaits;
  }

  lemma {:induction false} ChargedRun(s: State, events: seq<Event>, c: nat, ids: set<nat>)
    requires Inv(s) && CanRun(s, events) && Charged(s, c, ids)
    ensures Charged(Run(s, events), c, ids)
    decreases |events|
  {
    if events != [] {
      ChargedStep(s, events[0], c, ids);
      StepKeepsInv(s, events[0]);
      hide Inv, Step, Enabled, Charged;
      ChargedRun(Step(s, events[0]), events[1..], c, ids);
    }
  }

  /** From its capture on, a generation cancel lets no stream of its generation be made. */
  lemma {:induction false} NoneIsMade(s: State, events: seq<Event>, c: nat, i: nat)
    requires Inv(s) && CanRun(s, events) && c in s.calls && Cuts(s.calls[c].kind)
    ensures var t, kind := Run(s, events), s.calls[c].kind;
      i in t.all && Of(t.all[i], kind.epoch, kind.playback) ==> i in s.all && Of(s.all[i], kind.epoch, kind.playback)
    decreases |events|
  {
    if events != [] {
      var e, kind := events[0], s.calls[c].kind;
      var t := Step(s, e);
      assert CutOk(kind, s);
      KindStays(s, e, c);
      if i in s.all { StreamGrows(s, e, i); } else if i in t.all { NewStreamIsAllowed(s, e, i); }
      StepKeepsInv(s, e);
      hide Inv, Step, Enabled;
      NoneIsMade(t, events[1..], c, i);
    }
  }

  // ---- if one is underway, the cancel can return before it is stopped ----

  lemma {:induction false} RunConcat(s: State, first: seq<Event>, second: seq<Event>)
    requires CanRun(s, first) && CanRun(Run(s, first), second)
    ensures CanRun(s, first + second) && Run(s, first + second) == Run(Run(s, first), second)
    decreases |first|
  {
    hide Step, Enabled;
    if first == [] {
      assert first + second == second;
    } else {
      assert (first + second)[1..] == first[1..] + second;
      RunConcat(Step(s, first[0]), first[1..], second);
    }
  }

  lemma {:induction false} FinishVictim(s: State, c: nat, i: nat) returns (events: seq<Event>)
    requires Inv(s) && Busy(s, c) && i in s.all && s.calls[c].phase.work.value.stream != i
    ensures CanRun(s, events)
    ensures var t := Run(s, events);
      && i in t.all && t.all[i] == s.all[i]
      && c in t.calls && t.calls[c] == Call(s.calls[c].kind, Cancelling(s.calls[c].phase.pending, None))
    decreases |s.calls[c].phase.work.value.ops|
  {
    var script, t := s.calls[c].phase.work.value, VictimOpStep(s, c);
    assert CanRun(t, []) && Run(t, []) == t;
    events := [VictimOp(c)];
    assert events[1..] == [] && Step(s, VictimOp(c)) == t;
    if |script.ops| > 1 {
      StepKeepsInv(s, VictimOp(c));
      assert Busy(t, c);
      var rest := FinishVictim(t, c, i);
      events := [VictimOp(c)] + rest;
      assert events[1..] == rest;
    }
  }

  /** A cancel can run to its end while nothing else happens. */
  lemma {:induction false} FinishCancel(s: State, c: nat, i: nat) returns (events: seq<Event>)
    requires Inv(s) && c in s.calls && s.calls[c].phase.Cancelling? && s.calls[c].phase.work.None?
    requires i in s.all && i !in s.calls[c].phase.pending
    ensures CanRun(s, events)
    ensures var t := Run(s, events);
      i in t.all && t.all[i] == s.all[i] && c in t.calls && t.calls[c] == Call(s.calls[c].kind, Returned)
    decreases s.calls[c].phase.pending
  {
    var pending := s.calls[c].phase.pending;
    if pending == {} {
      events := [CancelsDone(c)];
      var t := Step(s, CancelsDone(c));
      assert events[1..] == [] && CanRun(t, []) && Run(t, []) == t;
    } else {
      var j :| j in pending;
      assert PhaseOk(s.calls[c].phase, s.all);
      var u := Step(s, NextVictim(c, j));
      StepKeepsInv(s, NextVictim(c, j));
      hide Inv;
      var first := FinishVictim(u, c, i);
      var v := Run(u, first);
      RunKeepsInv(u, first);
      var second := FinishCancel(v, c, i);
      RunConcat(u, first, second);
      events := [NextVictim(c, j)] + (first + second);
      assert events[1..] == first + second;
    }
  }

  /** A generation cancel stops every stream of its generation, in every run up to its return,
      exactly when no such stream is already out of the map and unstopped as it begins. */
  lemma CutStopsAllExactly(s: State, c: nat, epoch: string, playback: nat)
    requires Reachable(s) && Enabled(s, CaptureGeneration(c, epoch, playback))
    requires TrimSpace(epoch) != "" && playback != 0
    ensures var u := Step(s, CaptureGeneration(c, epoch, playback));
      NoneUnderway(s, TrimSpace(epoch), playback) <==>
      forall events :: CanRun(u, events) && c in Run(u, events).calls && Run(u, events).calls[c].phase == Returned ==>
        AllStopped(Run(u, events), TrimSpace(epoch), playback)
  {
    var e, u := TrimSpace(epoch), Step(s, CaptureGeneration(c, epoch, playback));
    ReachableInv(s);
    StepKeepsInv(s, CaptureGeneration(c, epoch, playback));
    if NoneUnderway(s, e, playback) {
      CaptureCharges(s, c, epoch, playback);
      CaptureIs(s, c, epoch, playback);
      forall events | CanRun(u, events) && c in Run(u, events).calls && Run(u, events).calls[c].phase == Returned
        ensures AllStopped(Run(u, events), e, playback)
      {
        hide Inv, Step, TrimSpace;
        ChargedRun(u, events, c, Generation(s, e, playback));
        forall i { NoneIsMade(u, events, c, i); }
      }
    } else {
      var i :| i in s.all && Of(s.all[i], e, playback) && !Mapped(s, i) && !Stopped(s.all[i]);
      assert u.all == s.all && c in u.calls && u.calls[c].phase == Cancelling(OfGeneration(s, e, playback), None);
      hide Inv, Step, TrimSpace;
      var events := FinishCancel(u, c, i);
      assert !AllStopped(Run(u, events), e, playback);
    }
  }

  lemma CaptureIs(s: State, c: nat, epoch: string, playback: nat)
    requires Enabled(s, CaptureGeneration(c, epoch, playback)) && TrimSpace(epoch) != "" && playback != 0
    ensures var u := Step(s, CaptureGeneration(c, epoch, playback));
      u.all == s.all && c in u.calls
      && u.calls[c] == Call(CancelGeneration(TrimSpace(epoch), playback), Cancelling(OfGeneration(s, TrimSpace(epoch), playback), None))
  {
    hide TrimSpace;
  }

  /** A cancel of everything, as a reset makes it, has stopped every stream that existed when
      it began, in every run up to its return, exactly when none of them is already out of the
      map and unstopped as it begins. */
  lemma CancelAllStopsExactly(s: State, c: nat)
    requires Reachable(s) && Enabled(s, CaptureAll(c))
    ensures var u := Step(s, CaptureAll(c));
      (forall i :: i in s.all ==> Mapped(s, i) || Stopped(s.all[i])) <==>
      forall events :: CanRun(u, events) && c in Run(u, events).calls && Run(u, events).calls[c].phase == Returned ==>
        forall i :: i in s.all ==> i in Run(u, events).all && Stopped(Run(u, events).all[i])
  {
    var u := Step(s, CaptureAll(c));
    ReachableInv(s);
    StepKeepsInv(s, CaptureAll(c));
    assert u.all == s.all && c in u.calls && u.calls[c].phase == Cancelling(MappedStreams(s), None);
    if forall i :: i in s.all ==> Mapped(s, i) || Stopped(s.all[i]) {
      assert Charged(u, c, s.all.Keys);
      forall events | CanRun(u, events) && c in Run(u, events).calls && Run(u, events).calls[c].phase == Returned
        ensures forall i :: i in s.all ==> i in Run(u, events).all && Stopped(Run(u, events).all[i])
      {
        hide Inv, Step;
        ChargedRun(u, events, c, s.all.Keys);
      }
    } else {
      var i :| i in s.all && !Mapped(s, i) && !Stopped(s.all[i]);
      hide Inv, Step;
      var events := FinishCancel(u, c, i);
      assert !Stopped(Run(u, events).all[i]);
    }
  }

  /** A caller that starts when no other cancel is in progress has the guarantee. */
  lemma AloneMeansNoneUnderway(s: State, epoch: string, playback: nat)
    requires Reachable(s) && forall d :: d in s.calls ==> !s.calls[d].phase.Cancelling?
    ensures NoneUnderway(s, epoch, playback)
    ensures forall i :: i in s.all ==> Mapped(s, i) || Stopped(s.all[i])
  {
    ReachableInv(s);
    forall i | i in s.all ensures Mapped(s, i) || Stopped(s.all[i]) {
      assert Homed(s, i);
    }
  }

  lemma Next(s: State, e: Event) returns (t: State)
    requires Reachable(s) && Enabled(s, e)
    ensures t == Step(s, e) && Reachable(t)
  {
    var events :| CanRun(START, events) && s == Run(START, events);
    t := Step(s, e);
    assert [e][1..] == [] && CanRun(t, []) && Run(t, []) == t;
    RunConcat(START, events, [e]);
  }

  /** The condition can fail: a cancel of everything that has only taken a stream out of the
      map lets a later cancel of its generation return with the stream still open and live. */
  lemma OvertakenCut() returns (s: State, c: nat, i: nat)
    ensures Reachable(s) && c in s.calls && Cuts(s.calls[c].kind) && s.calls[c].phase == Returned
    ensures i in s.all && Of(s.all[i], s.calls[c].kind.epoch, s.calls[c].kind.playback)
    ensures !s.all[i].closed && !s.all[i].cancelled
  {
    assert CanRun(START, []);
    s := Next(START, Lookup(0, 0, "k", "t", "e", 1, "x"));
    s := Next(s, CaptureAll(1));
    s := Next(s, CaptureGeneration(2, "e", 1));
    assert s.calls[2].phase.pending == {};
    s := Next(s, CancelsDone(2));
    c, i := 2, 0;
  }
}
