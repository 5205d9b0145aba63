/** What single steps of the prefetch streams decide, in terms of tokens, channels and cancels. */
module TtsPrefetchMeaning {
  import opened Options
  import opened Text
  import opened TtsPrefetch
  import opened TtsPrefetchInvariant
  import opened TtsPrefetchTheorems
  import opened TtsPrefetchCut

  // ---- pushing ----

  /** A push whose token is not blank, to an open stream with fewer than 128 tokens queued,
      appends the trimmed token; any other push leaves its stream as it was. No other stream,
      no binding and no mark changes. */
  lemma SendsExactly(s: State, c: nat)
    requires Reachable(s) && Enabled(s, Send(c))
    ensures var t, i, token := Step(s, Send(c)), s.calls[c].phase.stream, s.calls[c].phase.token;
      && t.all.Keys == s.all.Keys && t.streams == s.streams && t.marks == s.marks
      && (forall j | j in s.all && j != i :: t.all[j] == s.all[j])
      && (if TrimSpace(token) != "" && !s.all[i].closed && |s.all[i].queue| < 128 then
            && t.all[i].queue == s.all[i].queue + [TrimSpace(token)]
            && t.all[i].accepted == s.all[i].accepted + [TrimSpace(token)]
            && t.all[i].received == s.all[i].received && !t.all[i].closed && t.all[i].lateSends == 0
          else t.all[i] == s.all[i])
      && t.calls == s.calls[c := Call(s.calls[c].kind, Returned)]
  {
    ReachableInv(s);
    var i := s.calls[c].phase.stream;
    assert StreamOk(s.all[i], Mapped(s, i));
    hide Inv, TrimSpace, Progress;
  }

  /** From its capture on, a generation cancel has marked its generation, and a mark is always
      the generation of some cancel of that runtime. */
  ghost predicate MarksAreCut(s: State) {
    forall epoch | epoch in s.marks ::
      exists c :: c in s.calls && Cuts(s.calls[c].kind) && s.calls[c].kind == CancelGeneration(epoch, s.marks[epoch])
  }

  lemma StepKeepsMarks(s: State, e: Event)
    requires Inv(s) && Enabled(s, e) && MarksAreCut(s)
    ensures MarksAreCut(Step(s, e))
  {
    var t := Step(s, e);
    NewMark(s, e);
    forall epoch | epoch in t.marks
      ensures exists c :: c in t.calls && Cuts(t.calls[c].kind) && t.calls[c].kind == CancelGeneration(epoch, t.marks[epoch])
    {
      if epoch in s.marks && t.marks[epoch] == s.marks[epoch] {
        var c :| c in s.calls && Cuts(s.calls[c].kind) && s.calls[c].kind == CancelGeneration(epoch, s.marks[epoch]);
        KindStays(s, e, c);
      }
      hide Step;
    }
  }

  lemma NewMark(s: State, e: Event)
    requires Enabled(s, e)
    ensures forall epoch | epoch in Step(s, e).marks ::
      (epoch in s.marks && Step(s, e).marks[epoch] == s.marks[epoch])
      || (e.CaptureGeneration? && e.c in Step(s, e).calls
          && Step(s, e).calls[e.c].kind == CancelGeneration(epoch, Step(s, e).marks[epoch]) && Cuts(Step(s, e).calls[e.c].kind))
  {
    hide GenerationCancelled, OfGeneration, MappedStreams, After, Sent, Acted, CanAct, TrimSpace;
    match e
    case Lookup(_, _, _, _, _, _, _) =>
    case CloseStream(_) =>
    case CaptureGeneration(_, _, _) =>
    case VictimOp(_) =>
    case Own(_, _) =>
    case _ =>
  }

  lemma {:induction false} RunKeepsMarks(s: State, events: seq<Event>)
    requires Inv(s) && CanRun(s, events) && MarksAreCut(s)
    ensures MarksAreCut(Run(s, events))
    decreases |events|
  {
    if events != [] {
      StepKeepsInv(s, events[0]);
      StepKeepsMarks(s, events[0]);
      hide Inv, Step, Enabled, MarksAreCut;
      RunKeepsMarks(Step(s, events[0]), events[1..]);
    }
  }

  lemma ReachableMarks(s: State)
    requires Reachable(s)
    ensures Inv(s) && MarksAreCut(s)
  {
    var events :| CanRun(START, events) && s == Run(START, events);
    StartInv();
    RunKeepsMarks(START, events);
    ReachableInv(s);
  }

  /** Some cancel has cut the generation, or a later one of the same runtime. */
  ghost predicate WasCut(s: State, epoch: string, playback: nat) {
    exists c :: c in s.calls && s.calls[c].kind.CancelGeneration? && s.calls[c].kind.epoch == TrimSpace(epoch)
                && TrimSpace(epoch) != "" && 1 <= playback <= s.calls[c].kind.playback
  }

  /** A push is refused if and only if some cancel has cut its generation. Otherwise it goes to
      the stream bound to its key, or to a new, empty, open one that it binds to the key. */
  lemma LooksUpExactly(s: State, e: Event)
    requires Reachable(s) && Enabled(s, e) && e.Lookup?
    ensures var t := Step(s, e);
      if WasCut(s, e.epoch, e.playback) then t == s.(calls := s.calls[e.c := Call(Push, Returned)])
      else if e.key in s.streams then t == s.(calls := s.calls[e.c := Call(Push, Sending(s.streams[e.key], e.token))])
      else
        && t.streams == s.streams[e.key := e.made] && t.all.Keys == s.all.Keys + {e.made} && t.marks == s.marks
        && (forall j | j in s.all :: t.all[j] == s.all[j])
        && t.calls == s.calls[e.c := Call(Push, Sending(e.made, e.token))]
        && var n := t.all[e.made];
           && n.key == e.key && n.trace == e.trace && n.epoch == TrimSpace(e.epoch) && n.playback == e.playback
           && n.queue == n.accepted == n.received == [] && !n.closed && !n.cancelled
           && n.ready == n.done == 0 && n.runner == Receiving
  {
    ReachableMarks(s);
    RefusedIsCut(s, e.epoch, e.playback);
    hide Inv, MarksAreCut, GenerationCancelled, WasCut, TrimSpace;
  }

  lemma RefusedIsCut(s: State, epoch: string, playback: nat)
    requires Inv(s) && MarksAreCut(s)
    ensures GenerationCancelled(s.marks, epoch, playback) <==> WasCut(s, epoch, playback)
  {
    var trimmed := TrimSpace(epoch);
    if GenerationCancelled(s.marks, epoch, playback) {
      var c :| c in s.calls && Cuts(s.calls[c].kind) && s.calls[c].kind == CancelGeneration(trimmed, s.marks[trimmed]);
    }
    if WasCut(s, epoch, playback) {
      var c :| c in s.calls && s.calls[c].kind.CancelGeneration? && s.calls[c].kind.epoch == trimmed
               && 1 <= playback <= s.calls[c].kind.playback;
      assert CutOk(s.calls[c].kind, s);
    }
    hide Inv, TrimSpace;
  }

  // ---- the goroutine ----

  /** What a goroutine does next: it takes the oldest token, or finalizes when the closed channel
      is empty; a token taken under a cancelled context ends the consuming; a final event
      signals Ready, then Done, and every exit signals both, cancels and leaves the map. */
  lemma ActsExactly(s: State, i: nat, act: Act)
    requires Reachable(s) && Enabled(s, Own(i, act))
    ensures var a, b := s.all[i], Step(s, Own(i, act)).all[i];
      && b.accepted == a.accepted
      && (act.Receive? ==>
            if a.queue == [] then b == a.(runner := Finalizing)
            else b == a.(queue := a.queue[1..], received := a.received + [a.queue[0]], runner := Took(a.queue[0])))
      && (act.CheckCtx? ==> b == a.(runner := if a.cancelled then Finalizing else Consuming))
      && (act.SignalReady? ==> b == a.(ready := 1))
      && (act.TokenDone? ==> b == a.(runner := Receiving))
      && (act.FinalDone? ==> b == a.(runner := Exiting([CloseReady, CloseDone, CancelCtx, Unmap])))
      && (act.FinalSpoken? ==> b == a.(runner := Signalling([CloseReady, CloseDone])))
      && (act.GoStale? ==> b == a.(runner := Staling([CloseQueue, CancelCtx, CloseReady, CloseDone], a.runner == Finalizing)))
      && (!act.Receive? ==> b.queue == a.queue && b.received == a.received)
  {
    ReachableInv(s);
    assert StreamOk(s.all[i], Mapped(s, i));
    hide Inv, Progress;
    if act.NextOp? { AfterKeepsTokens(s.all[i], s.all[i].runner.ops[0]); hide After; }
  }

  lemma AfterKeepsTokens(a: Stream, op: Op)
    ensures After(a, op).queue == a.queue && After(a, op).accepted == a.accepted && After(a, op).received == a.received
  {
  }

  /** One operation of a script that a goroutine is in: what it closes, cancels or unbinds, and
      what follows it. */
  lemma OperatesExactly(s: State, i: nat)
    requires Reachable(s) && Enabled(s, Own(i, NextOp))
    ensures var a, t := s.all[i], Step(s, Own(i, NextOp)); var b, op, left := t.all[i], a.runner.ops[0], |a.runner.ops|;
      && (b.closed <==> a.closed || op == CloseQueue) && (b.cancelled <==> a.cancelled || op == CancelCtx)
      && (b.ready == 1 <==> a.ready == 1 || op == CloseReady) && (b.done == 1 <==> a.done == 1 || op == CloseDone)
      && (a.key in s.streams && a.key !in t.streams <==> op == Unmap && a.key in s.streams && s.streams[a.key] == i)
      && (left > 1 ==> b.runner == a.runner.(ops := a.runner.ops[1..]))
      && (left == 1 ==> b.runner == (if a.runner.Exiting? then Exited
                                     else if a.runner.Staling? && !a.runner.final then Consuming
                                     else Exiting([CloseReady, CloseDone, CancelCtx, Unmap])))
  {
    ReachableInv(s);
    var a := s.all[i];
    assert StreamOk(a, Mapped(s, i));
    hide Inv, StreamOk, Operated;
    OpExactly(a, Mapped(s, i));
    OwnIs(s, i, NextOp);
    hide Step, Acted, CanAct;
  }

  lemma OwnIs(s: State, i: nat, act: Act)
    requires Enabled(s, Own(i, act))
    ensures var t, a := Step(s, Own(i, act)), s.all[i];
      && t.all == s.all[i := Acted(a, act)] && t.calls == s.calls && t.marks == s.marks
      && t.streams == (if Unmaps(a, act) && Mapped(s, i) then s.streams - {a.key} else s.streams)
  {
    hide Acted, CanAct;
  }

  lemma AfterExactly(a: Stream, op: Op)
    requires a.ready <= 1 && a.done <= 1
    ensures var b := After(a, op);
      && (b.closed <==> a.closed || op == CloseQueue) && (b.cancelled <==> a.cancelled || op == CancelCtx)
      && (b.ready == 1 <==> a.ready == 1 || op == CloseReady) && (b.done == 1 <==> a.done == 1 || op == CloseDone)
  {
  }

  lemma AfterOpExactly(runner: Runner)
    requires Scripted(runner) && runner.ops != []
    ensures |runner.ops| > 1 ==> AfterOp(runner) == runner.(ops := runner.ops[1..])
    ensures |runner.ops| == 1 ==>
              AfterOp(runner) == (if runner.Exiting? then Exited
                                  else if runner.Staling? && !runner.final then Consuming
                                  else Exiting([CloseReady, CloseDone, CancelCtx, Unmap]))
  {
  }

  lemma OpExactly(a: Stream, mapped: bool)
    requires StreamOk(a, mapped) && Scripted(a.runner)
    ensures var b, op, left := Operated(a), a.runner.ops[0], |a.runner.ops|;
      && (b.closed <==> a.closed || op == CloseQueue) && (b.cancelled <==> a.cancelled || op == CancelCtx)
      && (b.ready == 1 <==> a.ready == 1 || op == CloseReady) && (b.done == 1 <==> a.done == 1 || op == CloseDone)
      && (left > 1 ==> b.runner == a.runner.(ops := a.runner.ops[1..]))
      && (left == 1 ==> b.runner == (if a.runner.Exiting? then Exited
                                     else if a.runner.Staling? && !a.runner.final then Consuming
                                     else Exiting([CloseReady, CloseDone, CancelCtx, Unmap])))
    ensures a.runner.ops[0] == Unmap ==> a.runner.Exiting?
  {
    if !a.runner.Exiting? { NoUnmap(a, Whole(a.runner), a.runner.ops); }
    assert a.ready <= 1 && a.done <= 1;
    hide Progress, StreamOk, Base, After, AfterOp;
    AfterExactly(a, a.runner.ops[0]);
    AfterOpExactly(a.runner);
  }

  // ---- cancels ----

  /** What is left of a script after its first operation. */
  function Left(script: Script): Option<Script> {
    if |script.ops| <= 1 then None else Some(Script(script.stream, script.ops[1..]))
  }

  /** How a cancel goes on: it takes one of its streams, performs the four operations on it one
      after the other, and returns when none is left. */
  lemma CallsExactly(s: State, c: nat, i: nat)
    requires c in s.calls && s.calls[c].phase.Cancelling?
    ensures var phase, kind := s.calls[c].phase, s.calls[c].kind;
      && (Enabled(s, NextVictim(c, i)) <==> phase.work == None && i in phase.pending)
      && (Enabled(s, NextVictim(c, i)) ==>
            Step(s, NextVictim(c, i)) == s.(calls := s.calls[c := Call(kind,
              Cancelling(phase.pending - {i}, Some(Script(i, [CloseQueue, CancelCtx, CloseReady, CloseDone]))))]))
      && (Enabled(s, VictimOp(c)) ==>
            var script := phase.work.value;
            && Step(s, VictimOp(c)).all == s.all[script.stream := After(s.all[script.stream], script.ops[0])]
            && Step(s, VictimOp(c)).streams == s.streams
            && Step(s, VictimOp(c)).calls == s.calls[c := Call(kind, Cancelling(phase.pending, Left(script)))])
      && (Enabled(s, CancelsDone(c)) <==> phase.work == None && phase.pending == {})
      && (Enabled(s, CancelsDone(c)) ==> Step(s, CancelsDone(c)) == s.(calls := s.calls[c := Call(kind, Returned)]))
  {
    hide After;
  }

  /** A timeout or a session end captures any set of bound streams, and leaves the map alone. */
  lemma SomeAreCaptured(s: State, c: nat, chosen: set<nat>)
    requires c !in s.calls && forall i | i in chosen :: i in s.all && Mapped(s, i)
    ensures Enabled(s, CaptureSome(c, chosen))
    ensures Step(s, CaptureSome(c, chosen)) == s.(calls := s.calls[c := Call(OtherCancel, Cancelling(chosen, None))])
  {
  }

  /** A generation cancel waits for streams of its own generation alone. */
  ghost predicate AwaitsOwn(s: State, c: nat)
    requires c in s.calls
  {
    forall i | i in s.all && s.calls[c].kind.CancelGeneration? && Awaits(s.calls[c].phase, i) ::
      Of(s.all[i], s.calls[c].kind.epoch, s.calls[c].kind.playback)
  }

  ghost predicate AllAwaitOwn(s: State) {
    forall c | c in s.calls :: AwaitsOwn(s, c)
  }

  /** A step makes a call wait for a stream only by capturing it. */
  lemma NewlyAwaits(s: State, e: Event, c: nat, i: nat)
    requires Inv(s) && Enabled(s, e) && c in Step(s, e).calls && Awaits(Step(s, e).calls[c].phase, i)
    ensures (c in s.calls && Awaits(s.calls[c].phase, i))
            || (e.CaptureGeneration? && e.c == c && Step(s, e).calls[c].kind.CancelGeneration?
                && i in s.all && Step(s, e).all == s.all
                && Of(s.all[i], Step(s, e).calls[c].kind.epoch, Step(s, e).calls[c].kind.playback))
            || (c !in s.calls && !Step(s, e).calls[c].kind.CancelGeneration?)
  {
    hide Inv, GenerationCancelled, MappedStreams, After, Sent, Acted, CanAct, TrimSpace;
    match e
    case Lookup(_, _, _, _, _, _, _) =>
    case Send(_) =>
    case Find(_, _, _) =>
    case CloseStream(_) =>
    case CaptureGeneration(_, _, _) =>
    case CaptureAll(_) =>
    case CaptureSome(_, _) =>
    case NextVictim(_, _) =>
    case VictimOp(_) =>
    case CancelsDone(_) =>
    case Own(_, _) =>
  }

  lemma StepKeepsAwaits(s: State, e: Event)
    requires Inv(s) && Enabled(s, e) && AllAwaitOwn(s)
    ensures AllAwaitOwn(Step(s, e))
  {
    var t := Step(s, e);
    forall c, i | c in t.calls && i in t.all && t.calls[c].kind.CancelGeneration? && Awaits(t.calls[c].phase, i)
      ensures Of(t.all[i], t.calls[c].kind.epoch, t.calls[c].kind.playback)
    {
      NewlyAwaits(s, e, c, i);
      if c in s.calls && Awaits(s.calls[c].phase, i) {
        AwaitedExists(s, c, i);
        KindStays(s, e, c);
        StreamGrows(s, e, i);
        assert AwaitsOwn(s, c);
      }
      hide Inv, Step;
    }
  }

  lemma AwaitedExists(s: State, c: nat, i: nat)
    requires Inv(s) && c in s.calls && Awaits(s.calls[c].phase, i)
    ensures i in s.all
  {
    assert PhaseOk(s.calls[c].phase, s.all);
  }

  lemma {:induction false} RunKeepsAwaits(s: State, events: seq<Event>)
    requires Inv(s) && CanRun(s, events) && AllAwaitOwn(s)
    ensures AllAwaitOwn(Run(s, events))
    decreases |events|
  {
    if events != [] {
      StepKeepsInv(s, events[0]);
      StepKeepsAwaits(s, events[0]);
      hide Inv, Step, Enabled, AllAwaitOwn;
      RunKeepsAwaits(Step(s, events[0]), events[1..]);
    }
  }

  /** A generation cancel works on streams of its own generation alone, and closes, cancels
      and signals nothing else. */
  lemma CancelTouchesItsGeneration(s: State, c: nat, i: nat)
    requires Reachable(s) && Enabled(s, VictimOp(c)) && s.calls[c].kind.CancelGeneration? && i in s.all
    requires Step(s, VictimOp(c)).all[i] != s.all[i]
    ensures s.all[i].epoch == s.calls[c].kind.epoch && s.all[i].playback == s.calls[c].kind.playback
  {
    var events :| CanRun(START, events) && s == Run(START, events);
    StartInv();
    RunKeepsAwaits(START, events);
    assert AwaitsOwn(s, c);
    hide After;
  }

  // ---- closing ----

  /** A close by trace finds the stream bound to the key; it closes the channel of that stream
      if the trace is not blank and the stream's own, and drops no token. */
  lemma ClosesExactly(s: State, c: nat)
    requires Reachable(s) && Enabled(s, CloseStream(c))
    ensures var t, i, trace := Step(s, CloseStream(c)), s.calls[c].phase.stream, s.calls[c].phase.trace;
      && t.streams == s.streams && t.marks == s.marks && t.all.Keys == s.all.Keys
      && (forall j | j in s.all && j != i :: t.all[j] == s.all[j])
      && t.all[i].queue == s.all[i].queue && t.all[i].cancelled == s.all[i].cancelled && t.all[i].runner == s.all[i].runner
      && (t.all[i].closed <==> s.all[i].closed || (TrimSpace(trace) != "" && s.all[i].trace == trace))
      && t.calls == s.calls[c := Call(s.calls[c].kind, Returned)]
  {
    hide TrimSpace;
  }

  // ---- a whole life ----

  lemma Words()
    ensures TrimSpace("e") == "e" && TrimSpace(" x") == "x" && TrimSpace("t") == "t"
  {
  }

  lemma PushOne() returns (s: State)
    ensures Reachable(s) && s.streams == map["k" := 0] && s.calls.Keys == {0} && 0 in s.all && s.all[0].runner == Receiving
    ensures s.all[0].queue == s.all[0].accepted == ["x"] && s.all[0].received == [] && !s.all[0].closed && !s.all[0].cancelled
    ensures s.all[0].trace == "t" && s.all[0].ready == 0 && s.all[0].done == 0
  {
    assert CanRun(START, []);
    Words();
    var e := Lookup(0, 0, "k", "t", "e", 1, " x");
    hide TrimSpace;
    s := Next(START, e);
    assert s.all == map[0 := NewStream("k", "t", "e", 1)] && s.streams == map["k" := 0] && s.calls == map[0 := Call(Push, Sending(0, " x"))];
    var t := Next(s, Send(0));
    SendsExactly(s, 0);
    hide Step;
    s := t;
  }

  lemma Advance(s: State, act: Act) returns (t: State)
    requires Reachable(s) && 0 in s.all && CanAct(s.all[0], act)
    ensures Reachable(t) && 0 in t.all && t.all[0] == Acted(s.all[0], act) && t.calls == s.calls
    ensures !Unmaps(s.all[0], act) ==> t.streams == s.streams
  {
    hide Acted, CanAct;
    t := Next(s, Own(0, act));
  }

  lemma CloseIt(s: State) returns (t: State)
    requires Reachable(s) && 0 in s.all && s.streams == map["k" := 0] && s.all[0].trace == "t" && 1 !in s.calls
    ensures Reachable(t) && 0 in t.all && t.all[0] == After(s.all[0], CloseQueue)
  {
    Words();
    hide TrimSpace, After;
    t := Next(s, Find(1, "k", "t"));
    assert t.all == s.all && t.calls[1] == Call(Close, Closing(0, "t"));
    t := Next(t, CloseStream(1));
  }

  /** A stream whose consuming is over, with nothing more to do. */
  predicate Spent(a: Stream) { a.closed && a.queue == [] && a.accepted == a.received == ["x"] && a.ready <= 1 && a.done <= 1 }

  lemma Operate(s: State, ops: seq<Op>) returns (t: State)
    requires Reachable(s) && 0 in s.all && Spent(s.all[0]) && |ops| > 1
    requires s.all[0].runner == Signalling(ops) || s.all[0].runner == Exiting(ops)
    ensures Reachable(t) && 0 in t.all && Spent(t.all[0]) && t.all[0].runner == s.all[0].runner.(ops := ops[1..])
  {
    t := Advance(s, NextOp);
    AfterKeepsTokens(s.all[0], ops[0]);
    ReachableInv(s);
    assert StreamOk(s.all[0], Mapped(s, 0));
    hide Inv, Progress, StreamOk;
    AfterExactly(s.all[0], ops[0]);
    ReachableInv(t);
    assert StreamOk(t.all[0], Mapped(t, 0));
  }

  lemma OperateLast(s: State, op: Op) returns (t: State)
    requires Reachable(s) && 0 in s.all && Spent(s.all[0])
    requires s.all[0].runner == Signalling([op]) || s.all[0].runner == Exiting([op])
    ensures Reachable(t) && 0 in t.all && Spent(t.all[0]) && t.all[0].runner == AfterOp(s.all[0].runner)
  {
    t := Advance(s, NextOp);
    hide Step;
    AfterKeepsTokens(s.all[0], op);
    ReachableInv(t);
    assert StreamOk(t.all[0], Mapped(t, 0));
    ReachableInv(s);
    AfterExactly(s.all[0], op);
  }

  lemma EndConsuming(s: State) returns (t: State)
    requires Reachable(s) && 0 in s.all && Spent(s.all[0]) && s.all[0].runner == Receiving
    ensures Reachable(t) && 0 in t.all && Spent(t.all[0]) && t.all[0].runner == Signalling([CloseReady, CloseDone])
  {
    t := Advance(s, Receive);
    t := Advance(t, FinalSpoken);
  }

  lemma Speak(s: State) returns (t: State)
    requires Reachable(s) && 0 in s.all && Spent(s.all[0]) && s.all[0].runner == Receiving
    ensures Reachable(t) && 0 in t.all && Spent(t.all[0])
    ensures t.all[0].runner == Exiting([CloseReady, CloseDone, CancelCtx, Unmap])
  {
    hide Reachable, Spent;
    t := EndConsuming(s);
    t := Operate(t, [CloseReady, CloseDone]);
    assert [CloseReady, CloseDone][1..] == [CloseDone];
    t := OperateLast(t, CloseDone);
  }

  lemma Leave(s: State) returns (t: State)
    requires Reachable(s) && 0 in s.all && Spent(s.all[0])
    requires s.all[0].runner == Exiting([CloseReady, CloseDone, CancelCtx, Unmap])
    ensures Reachable(t) && 0 in t.all && Spent(t.all[0]) && t.all[0].runner == Exited
  {
    hide Reachable, Spent;
    t := Operate(s, [CloseReady, CloseDone, CancelCtx, Unmap]);
    assert [CloseReady, CloseDone, CancelCtx, Unmap][1..] == [CloseDone, CancelCtx, Unmap];
    t := Operate(t, [CloseDone, CancelCtx, Unmap]);
    assert [CloseDone, CancelCtx, Unmap][1..] == [CancelCtx, Unmap];
    t := Operate(t, [CancelCtx, Unmap]);
    assert [CancelCtx, Unmap][1..] == [Unmap];
    t := OperateLast(t, Unmap);
  }

  /** A pushed token is received in some run, and the goroutine of its stream, closed by its
      trace, then signals, cancels and leaves. */
  lemma WholeLife() returns (s: State)
    ensures Reachable(s) && 0 in s.all && s.all[0].accepted == s.all[0].received == ["x"]
    ensures s.all[0].runner == Exited && s.all[0].closed && s.all[0].cancelled && s.all[0].done == 1
    ensures forall k | k in s.streams :: s.streams[k] != 0
  {
    s := PushOne();
    s := Advance(s, Receive);
    s := Advance(s, CheckCtx);
    s := Advance(s, TokenDone);
    s := CloseIt(s);
    var a := s.all[0];
    assert a.runner == Receiving && a.queue == [] && a.closed && a.received == a.accepted == ["x"];
    s := Speak(s);
    s := Leave(s);
    FinishedStream(s, 0);
  }
}
