/** What single steps of the speech queue decide, in terms of items, the channel and cancels. */
module TtsQueueMeaning {
  import opened Options
  import opened Text
  import opened TtsQueue
  import opened TtsQueueInvariant
  import opened TtsQueueSafety
  import opened TtsQueueTheorems

  // ---- the channel is first in, first out ----

  /** The item that enters the channel at an event, if one does. */
  ghost function Entering(s: State, e: Event): seq<nat> {
    if e.Enqueue? && |s.queue| < 512 then [e.i] else []
  }

  /** The item the worker receives or a reset drains at an event, if one does. */
  ghost function Leaving(s: State, e: Event): seq<nat> {
    if (e == Receive || (e.Do? && e.act == DrainTake)) && s.queue != [] then [s.queue[0]] else []
  }

  /** The items that enter the channel over a run, in order. */
  ghost function Sent(s: State, events: seq<Event>): seq<nat>
    requires CanRun(s, events)
    decreases |events|
  {
    if events == [] then [] else Entering(s, events[0]) + Sent(Step(s, events[0]), events[1..])
  }

  /** The items taken out of it over a run, in order. */
  ghost function Taken(s: State, events: seq<Event>): seq<nat>
    requires CanRun(s, events)
    decreases |events|
  {
    if events == [] then [] else Leaving(s, events[0]) + Taken(Step(s, events[0]), events[1..])
  }

  lemma QueueStep(s: State, e: Event)
    requires Enabled(s, e)
    ensures s.queue + Entering(s, e) == Leaving(s, e) + Step(s, e).queue
  {
    hide GenerationCancelled, OfGeneration, Marked, After, NextCall;
    assert s.queue != [] ==> s.queue == [s.queue[0]] + s.queue[1..];
  }

  /** Whatever interleaves, items leave the channel in the order in which they entered it, none
      is lost and none is taken twice. */
  lemma {:induction false} FirstInFirstOut(s: State, events: seq<Event>)
    requires CanRun(s, events)
    ensures s.queue + Sent(s, events) == Taken(s, events) + Run(s, events).queue
    decreases |events|
  {
    if events != [] {
      var e, t := events[0], Step(s, events[0]);
      QueueStep(s, e);
      hide Step, Enabled, Entering, Leaving;
      FirstInFirstOut(t, events[1..]);
      Shift(s.queue, Entering(s, e), Sent(t, events[1..]), Leaving(s, e), t.queue, Taken(t, events[1..]), Run(t, events[1..]).queue);
    }
  }

  lemma Shift(queue: seq<nat>, enters: seq<nat>, sent: seq<nat>, leaves: seq<nat>, next: seq<nat>, taken: seq<nat>, end: seq<nat>)
    requires queue + enters == leaves + next && next + sent == taken + end
    ensures queue + (enters + sent) == (leaves + taken) + end
  {
    assert queue + (enters + sent) == (queue + enters) + sent == leaves + (next + sent) == (leaves + taken) + end;
  }

  // ---- the producer ----

  /** A new item carries the queue's present generation. */
  lemma CreatesExactly(s: State, i: nat, epoch: string, playback: nat, key: string)
    requires Enabled(s, Create(i, epoch, playback, key))
    ensures Step(s, Create(i, epoch, playback, key))
         == s.(items := s.items[i := Item(epoch, playback, key, s.gen, false, 0, 0, Loaded, false)])
  {
  }

  /** The send appends the item while fewer than 512 are queued, and otherwise turns it away. */
  lemma EnqueuesExactly(s: State, i: nat)
    requires Enabled(s, Enqueue(i))
    ensures Step(s, Enqueue(i)) ==
      if |s.queue| < 512 then s.(queue := s.queue + [i], items := s.items[i := s.items[i].(place := Queued)])
      else s.(items := s.items[i := s.items[i].(place := Failing([CancelCtx, CloseReady, CloseDone]), turnedAway := true)])
  {
  }

  /** A mark is always the generation of some cancel of that epoch that has captured. */
  ghost predicate MarksAreCut(s: State) {
    forall epoch | epoch in s.watermark :: MarkIsCut(s, epoch)
  }

  ghost predicate MarkIsCut(s: State, epoch: string)
    requires epoch in s.watermark
  {
    exists c :: c in s.calls && Cuts(s.calls[c].kind) && !s.calls[c].phase.Begun?
                && s.calls[c].kind == GenerationCancel(epoch, s.watermark[epoch])
  }

  lemma KindStays(s: State, e: Event, c: nat)
    requires Enabled(s, e) && c in s.calls
    ensures c in Step(s, e).calls && Step(s, e).calls[c].kind == s.calls[c].kind
    ensures !s.calls[c].phase.Begun? ==> !Step(s, e).calls[c].phase.Begun?
  {
    if About(e, c) { OwnKindStays(s, c, e.act); hide NextCall, Shared; } else { Untouched(s, e, c); hide Step; }
  }

  lemma OwnKindStays(s: State, c: nat, act: Act)
    requires c in s.calls && CanDo(s, c, act)
    ensures NextCall(s, c, act).kind == s.calls[c].kind
    ensures !s.calls[c].phase.Begun? ==> !NextCall(s, c, act).phase.Begun?
  {
    hide OfGeneration;
  }

  lemma NewMark(s: State, e: Event, epoch: string)
    requires Safe(s) && Enabled(s, e) && epoch in Step(s, e).watermark
    ensures (epoch in s.watermark && Step(s, e).watermark[epoch] == s.watermark[epoch]) || MarkIsCut(Step(s, e), epoch)
  {
    var t := Step(s, e);
    if e.Do? && e.act.Capture? {
      var c := e.c;
      assert CutOk(s.calls[c], s.watermark, s.active, s.items);
      hide Safe;
      assert c in t.calls && t.calls[c].kind == s.calls[c].kind && !t.calls[c].phase.Begun?;
    } else {
      OthersKeepMarks(s, e);
      hide Safe, Step, Enabled;
    }
  }

  lemma OthersKeepMarks(s: State, e: Event)
    requires Enabled(s, e) && !(e.Do? && e.act.Capture?)
    ensures Step(s, e).watermark == s.watermark
  {
    hide NextCall, GenerationCancelled, After, CanDo;
  }

  lemma StepKeepsMarks(s: State, e: Event)
    requires Safe(s) && Enabled(s, e) && MarksAreCut(s)
    ensures MarksAreCut(Step(s, e))
  {
    var t := Step(s, e);
    forall epoch | epoch in t.watermark ensures MarkIsCut(t, epoch) {
      NewMark(s, e, epoch);
      hide Safe, Step, Enabled;
      if epoch in s.watermark && t.watermark[epoch] == s.watermark[epoch] {
        assert MarkIsCut(s, epoch);
        var c :| c in s.calls && Cuts(s.calls[c].kind) && !s.calls[c].phase.Begun?
                 && s.calls[c].kind == GenerationCancel(epoch, s.watermark[epoch]);
        KindStays(s, e, c);
      }
    }
  }

  lemma {:induction false} RunKeepsMarks(s: State, events: seq<Event>)
    requires Safe(s) && CanRun(s, events) && MarksAreCut(s)
    ensures MarksAreCut(Run(s, events))
    decreases |events|
  {
    if events != [] {
      StepKeepsSafe(s, events[0]);
      StepKeepsMarks(s, events[0]);
      hide Safe, Step, Enabled, MarksAreCut;
      RunKeepsMarks(Step(s, events[0]), events[1..]);
    }
  }

  /** A cancel that has captured has cut the generation, or a later one of the same epoch. */
  ghost predicate WasCut(s: State, epoch: string, playback: nat) {
    exists c :: c in s.calls && s.calls[c].kind.GenerationCancel? && !s.calls[c].phase.Begun?
                && s.calls[c].kind.epoch == TrimSpace(epoch) != "" && 1 <= playback <= s.calls[c].kind.playback
  }

  lemma RefusedIsCut(s: State, epoch: string, playback: nat)
    requires Reachable(s)
    ensures GenerationCancelled(s.watermark, epoch, playback) <==> WasCut(s, epoch, playback)
  {
    var events :| CanRun(START, events) && s == Run(START, events);
    StartSafe();
    RunKeepsMarks(START, events);
    ReachableIsSafe(s);
    var trimmed := TrimSpace(epoch);
    hide TrimSpace;
    if GenerationCancelled(s.watermark, epoch, playback) {
      assert MarkIsCut(s, trimmed);
      hide Safe;
    }
    if WasCut(s, epoch, playback) {
      var c :| c in s.calls && s.calls[c].kind.GenerationCancel? && !s.calls[c].phase.Begun?
               && s.calls[c].kind.epoch == trimmed != "" && 1 <= playback <= s.calls[c].kind.playback;
      assert CutOk(s.calls[c], s.watermark, s.active, s.items);
      hide Safe;
    }
  }

  /** A registration is refused if and only if some cancel that has captured has cut the item's
      generation; otherwise the item enters the registry. */
  lemma RegistersExactly(s: State, i: nat)
    requires Reachable(s) && Enabled(s, Register(i))
    ensures Step(s, Register(i)) ==
      if WasCut(s, s.items[i].epoch, s.items[i].playback)
      then s.(items := s.items[i := s.items[i].(place := Failing([CancelCtx, CloseReady, CloseDone]))])
      else s.(items := s.items[i := s.items[i].(place := Registered)], active := s.active + {i})
  {
    RefusedIsCut(s, s.items[i].epoch, s.items[i].playback);
    hide GenerationCancelled, WasCut;
  }

  // ---- the worker ----

  /** The worker drops the item it has received if and only if the item is of an older queue
      generation, its playback generation has been cut, or its context is cancelled, each at
      the moment it looks; otherwise it speaks it, and then completes it. */
  lemma WorkerDecidesExactly(s: State)
    requires Reachable(s)
    ensures Enabled(s, Receive) ==> Step(s, Receive).worker == Received(s.queue[0])
    ensures Enabled(s, CheckGen) ==>
              Step(s, CheckGen) == s.(worker := if s.items[s.worker.item].gen < s.gen
                then Finishing(Script(s.worker.item, [CancelCtx, CloseReady, CloseDone, Unregister]))
                else GenChecked(s.worker.item))
    ensures Enabled(s, CheckMark) ==>
              Step(s, CheckMark) == s.(worker := if WasCut(s, s.items[s.worker.item].epoch, s.items[s.worker.item].playback)
                then Finishing(Script(s.worker.item, [CancelCtx, CloseReady, CloseDone, Unregister]))
                else MarkChecked(s.worker.item))
    ensures Enabled(s, CheckCtx) ==>
              Step(s, CheckCtx) == s.(worker := if s.items[s.worker.item].cancelled
                then Finishing(Script(s.worker.item, [CancelCtx, CloseReady, CloseDone, Unregister]))
                else Emitting(s.worker.item))
    ensures Enabled(s, EmitEnd) ==>
              Step(s, EmitEnd) == s.(worker := Finishing(Script(s.worker.item, [CloseReady, CloseDone, CancelCtx, Unregister])))
  {
    ReachableIsSafe(s);
    if Enabled(s, CheckGen) { assert ItemOk(s.items[s.worker.item], s.gen, s.worker.item in s.active); }
    if Enabled(s, CheckMark) { RefusedIsCut(s, s.items[s.worker.item].epoch, s.items[s.worker.item].playback); }
    hide Safe, GenerationCancelled, WasCut, TrimSpace;
  }

  // ---- shutdown operations ----

  /** The item an event's next shutdown operation is about, and the operation. */
  function Operation(s: State, e: Event): Option<Script> {
    match e
    case Fail(i) => if i in s.items && s.items[i].place.Failing? then Some(Script(i, s.items[i].place.ops)) else None
    case EmitReady => if s.worker.Emitting? then Some(Script(s.worker.item, [CloseReady])) else None
    case WorkerOp => if s.worker.Finishing? then Some(s.worker.script) else None
    case Do(c, act) =>
      if c in s.calls && ((act.VictimOp? && s.calls[c].phase.Cancelling?) || (act.DrainOp? && s.calls[c].phase.Draining?))
      then s.calls[c].phase.work else None
    case _ => None
  }

  /** Item `i` is cancelled, signalled and unregistered between `s` and `t` as `script` says, if
      it is the script's item, and not otherwise. */
  ghost predicate OperatedBy(s: State, t: State, i: nat, script: Option<Script>)
    requires i in s.items
  {
    var mine := script.Some? && script.value.item == i && script.value.ops != [];
    && i in t.items
    && (t.items[i].cancelled <==> s.items[i].cancelled || (mine && script.value.ops[0] == CancelCtx))
    && (t.items[i].ready == 1 <==> s.items[i].ready == 1 || (mine && script.value.ops[0] == CloseReady))
    && (t.items[i].done == 1 <==> s.items[i].done == 1 || (mine && script.value.ops[0] == CloseDone))
    && (i in s.active && i !in t.active <==> i in s.active && mine && script.value.ops[0] == Unregister)
  }

  /** One shutdown operation cancels, closes or unregisters what it names, on its own item
      alone, and an item is touched in these ways by nothing else. */
  lemma OperatesExactly(s: State, e: Event, i: nat)
    requires Reachable(s) && Enabled(s, e) && i in s.items
    ensures OperatedBy(s, Step(s, e), i, Operation(s, e))
  {
    ReachableIsSafe(s);
    assert ItemOk(s.items[i], s.gen, i in s.active);
    hide Safe, Reachable, ItemOk, OperatedBy, Operation;
    if e.Do? {
      CallOperates(s, e.c, e.act, i);
      hide Shared, NextCall, CanDo;
    } else if e.Fail? || e.EmitReady? || e.WorkerOp? {
      ShutOperates(s, e, i);
    } else {
      OthersOperate(s, e, i);
    }
  }

  lemma OthersOperate(s: State, e: Event, i: nat)
    requires Enabled(s, e) && i in s.items && !e.Do? && !e.Fail? && !e.EmitReady? && !e.WorkerOp?
    ensures OperatedBy(s, Step(s, e), i, Operation(s, e))
  {
    hide GenerationCancelled;
  }

  lemma ShutOperates(s: State, e: Event, i: nat)
    requires Enabled(s, e) && i in s.items && Lifecycle(s.items[i]) && (e.Fail? || e.EmitReady? || e.WorkerOp?)
    ensures OperatedBy(s, Step(s, e), i, Operation(s, e))
  {
    var script := Operation(s, e).value;
    var t := Perform(s, script.item, script.ops[0], Step(s, e).items[script.item].place);
    PerformedExactly(s, script.item, script.ops[0], Step(s, e).items[script.item].place, i);
    assert Step(s, e).items == t.items && Step(s, e).active == t.active by { hide After; }
    hide Step, Perform, Operation;
  }

  /** What one operation on item `j` does to item `i`. */
  ghost predicate Performed(s: State, j: nat, op: Op, place: Place, i: nat)
    requires i in s.items && j in s.items
  {
    var a, t := s.items[i], Perform(s, j, op, place);
    && i in t.items
    && (t.items[i].cancelled <==> a.cancelled || (j == i && op == CancelCtx))
    && (t.items[i].ready == 1 <==> a.ready == 1 || (j == i && op == CloseReady))
    && (t.items[i].done == 1 <==> a.done == 1 || (j == i && op == CloseDone))
    && (i in t.active <==> i in s.active && !(j == i && op == Unregister))
  }

  lemma PerformedExactly(s: State, j: nat, op: Op, place: Place, i: nat)
    requires i in s.items && j in s.items && s.items[i].ready <= 1 && s.items[i].done <= 1
    ensures Performed(s, j, op, place, i)
  {
    AfterExactly(s.items[i], op);
    hide After;
  }

  lemma CallOperates(s: State, c: nat, act: Act, i: nat)
    requires CanDo(s, c, act) && i in s.items && Lifecycle(s.items[i])
    ensures OperatedBy(s, Shared(s, c, act), i, Operation(s, Do(c, act)))
  {
    if act.VictimOp? || act.DrainOp? {
      var script := s.calls[c].phase.work.value;
      PerformedExactly(s, script.item, script.ops[0],
        if act.VictimOp? then s.items[script.item].place else if |script.ops| == 1 then Gone else WithDrainer(c), i);
    }
    hide Perform, Marked;
  }

  lemma AfterExactly(a: Item, op: Op)
    requires a.ready <= 1 && a.done <= 1
    ensures var b := After(a, op);
      && (b.cancelled <==> a.cancelled || op == CancelCtx) && (b.ready == 1 <==> a.ready == 1 || op == CloseReady)
      && (b.done == 1 <==> a.done == 1 || op == CloseDone)
  {
  }

  // ---- calls ----

  /** What is left of a script after its first operation. */
  function Left(script: Script): Option<Script> {
    if |script.ops| <= 1 then None else Some(Script(script.item, script.ops[1..]))
  }

  /** What a reset does: it raises the queue generation by one, captures every registered item,
      drains the oldest queued item while there is one, and returns over an empty channel. What
      a generation cancel does: it captures the registered items of its generation alone. */
  lemma CallsExactly(s: State, c: nat, act: Act)
    requires Enabled(s, Do(c, act)) && c in s.calls
    ensures var t, phase, kind := Step(s, Do(c, act)), s.calls[c].phase, s.calls[c].kind;
      && c in t.calls && t.calls[c].kind == kind
      && (act.Bump? ==> t.gen == s.gen + 1 && t.calls[c].phase == Bumped(t.gen)) && (!act.Bump? ==> t.gen == s.gen)
      && (act.Capture? && kind.Reset? ==> t.calls[c].phase == Cancelling(phase.g, s.active, None) && t.watermark == s.watermark)
      && (act.Capture? && kind.GenerationCancel? ==>
            && t.calls[c].phase.Cancelling? && t.calls[c].phase.work == None
            && forall i :: i in t.calls[c].phase.pending <==>
                 i in s.active && i in s.items && s.items[i].epoch == kind.epoch && s.items[i].playback == kind.playback)
      && (act.NextVictim? ==>
            t.calls[c].phase.work == Some(Script(act.i, if kind.GenerationCancel? then [CancelCtx, CloseReady, CloseDone] else [CancelCtx])))
      && (act.NextVictim? ==> act.i in phase.pending && t.calls[c].phase.pending == phase.pending - {act.i})
      && (act.VictimOp? ==> t.calls[c].phase == Cancelling(phase.g, phase.pending, Left(phase.work.value)))
      && (act.DrainOp? ==> t.calls[c].phase == Draining(phase.g, Left(phase.work.value)))
      && (act.DrainTake? ==>
            && t.queue == s.queue[1..]
            && t.calls[c].phase == Draining(phase.g, Some(Script(s.queue[0], [CancelCtx, CloseReady, CloseDone, Unregister]))))
      && (act.DrainEnd? ==> s.queue == [] && t == s.(calls := t.calls))
      && (act.CancelsDone? ==> t.calls[c].phase == if kind.Reset? then Draining(phase.g, None) else Returned(phase.g))
  {
    hide After, Marked;
  }

  /** A timeout or a session end captures any set of registered items. */
  lemma SomeAreCaptured(s: State, c: nat, chosen: set<nat>)
    requires c in s.calls && s.calls[c] == Call(OtherCancel, Begun) && chosen <= s.active
    ensures Enabled(s, Do(c, CaptureSome(chosen)))
    ensures Step(s, Do(c, CaptureSome(chosen))) == s.(calls := s.calls[c := Call(OtherCancel, Cancelling(0, chosen, None))])
  {
  }

  /** A generation cancel waits for items of its own generation alone. */
  ghost predicate AwaitsOwn(s: State, c: nat)
    requires c in s.calls
  {
    s.calls[c].kind.GenerationCancel? && s.calls[c].phase.Cancelling? ==>
      forall i | i in s.items && Awaits(s.calls[c].phase, i) :: Of(s.items[i], s.calls[c].kind.epoch, s.calls[c].kind.playback)
  }

  ghost predicate AllAwaitOwn(s: State) {
    forall c | c in s.calls :: AwaitsOwn(s, c)
  }

  lemma OwnAwaits(s: State, c: nat, act: Act, i: nat)
    requires CanDo(s, c, act) && NextCall(s, c, act).kind.GenerationCancel? && NextCall(s, c, act).phase.Cancelling?
    requires Awaits(NextCall(s, c, act).phase, i)
    ensures c in s.calls && NextCall(s, c, act).kind == s.calls[c].kind
    ensures (s.calls[c].phase.Cancelling? && Awaits(s.calls[c].phase, i))
            || (i in s.items && Of(s.items[i], s.calls[c].kind.epoch, s.calls[c].kind.playback))
  {
  }

  lemma StepKeepsAwaits(s: State, e: Event)
    requires Inv(s) && Enabled(s, e) && AllAwaitOwn(s)
    ensures AllAwaitOwn(Step(s, e))
  {
    var t := Step(s, e);
    forall c, i | c in t.calls && t.calls[c].kind.GenerationCancel? && t.calls[c].phase.Cancelling? && i in t.items && Awaits(t.calls[c].phase, i)
      ensures Of(t.items[i], t.calls[c].kind.epoch, t.calls[c].kind.playback)
    {
      if About(e, c) {
        assert t.calls[c] == NextCall(s, c, e.act) by { hide NextCall, Shared; }
        hide Step;
        OwnAwaits(s, c, e.act, i);
      } else {
        hide Step;
        Untouched(s, e, c);
      }
      assert AwaitsOwn(s, c);
      if s.calls[c].phase.Cancelling? && Awaits(s.calls[c].phase, i) { AwaitedExists(s, c, i); }
      StepGrows(s, e, i);
      hide Inv, NextCall, Enabled;
    }
  }

  lemma AwaitedExists(s: State, c: nat, i: nat)
    requires Inv(s) && c in s.calls && s.calls[c].phase.Cancelling? && Awaits(s.calls[c].phase, i)
    ensures i in s.items
  {
    assert CallOk(s.calls[c], s.gen, s.items);
  }

  lemma {:induction false} RunKeepsAwaits(s: State, events: seq<Event>)
    requires Inv(s) && CanRun(s, events) && AllAwaitOwn(s)
    ensures AllAwaitOwn(Run(s, events))
    decreases |events|
  {
    if events != [] {
      StepKeepsInv(s, events[0]);
      StepKeepsAwaits(s, events[0]);
      hide Inv, Step, Enabled, AllAwaitOwn;
      RunKeepsAwaits(Step(s, events[0]), events[1..]);
    }
  }

  /** A generation cancel changes items of its own generation alone. */
  lemma CancelTouchesItsGeneration(s: State, c: nat, i: nat)
    requires Reachable(s) && Enabled(s, Do(c, VictimOp)) && s.calls[c].kind.GenerationCancel? && i in s.items
    requires Step(s, Do(c, VictimOp)).items[i] != s.items[i]
    ensures s.items[i].epoch == s.calls[c].kind.epoch && s.items[i].playback == s.calls[c].kind.playback
  {
    var events :| CanRun(START, events) && s == Run(START, events);
    StartInv();
    RunKeepsAwaits(START, events);
    assert AwaitsOwn(s, c);
    hide After;
  }

  // ---- a whole life ----

  lemma Shut(s: State, ops: seq<Op>) returns (t: State)
    requires Reachable(s) && 0 in s.items && s.worker == Finishing(Script(0, ops)) && ops != []
    ensures Reachable(t) && 0 in t.items
    ensures |ops| > 1 ==> t.worker == Finishing(Script(0, ops[1..]))
    ensures |ops| == 1 ==> t.worker == Idle && t.items[0].place == Gone && (ops[0] == Unregister ==> 0 !in t.active)
  {
    hide After;
    t := Next(s, WorkerOp);
  }

  /** An item that is sent, spoken and completed: it ends signalled and out of the registry. */
  lemma WholeLife() returns (s: State)
    ensures Reachable(s) && 0 in s.items && s.worker == Idle && s.items[0].place == Gone && 0 !in s.active
    ensures s.items[0].cancelled && s.items[0].ready == 1 && s.items[0].done == 1 && !s.items[0].turnedAway
  {
    var speaking := SpeakingIsReachable();
    s := Next(speaking, EmitEnd);
    hide Step;
    s := Shut(s, [CloseReady, CloseDone, CancelCtx, Unregister]);
    assert [CloseReady, CloseDone, CancelCtx, Unregister][1..] == [CloseDone, CancelCtx, Unregister];
    s := Shut(s, [CloseDone, CancelCtx, Unregister]);
    assert [CloseDone, CancelCtx, Unregister][1..] == [CancelCtx, Unregister];
    s := Shut(s, [CancelCtx, Unregister]);
    assert [CancelCtx, Unregister][1..] == [Unregister];
    s := Shut(s, [Unregister]);
    ReachableIsSafe(s);
    assert ItemOk(s.items[0], s.gen, 0 in s.active);
    hide Reachable, Safe;
  }
}
