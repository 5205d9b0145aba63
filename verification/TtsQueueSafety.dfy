/** What resets and generation cancels promise about the item being spoken, over every
    interleaving of the speech queue. */
module TtsQueueSafety {
  import opened Options
  import opened Text
  import opened TtsQueue
  import opened TtsQueueInvariant

  // ---- reset ----

  /** The worker has compared its item's generation and has not let go of the item. */
  predicate PastGeneration(w: Worker) {
    w.GenChecked? || w.MarkChecked? || w.Emitting?
  }

  predicate Awaits(phase: Phase, i: nat) {
    phase.Bumped? || (phase.Cancelling? && (i in phase.pending || (phase.work.Some? && phase.work.value.item == i)))
  }

  /** An older item past the check is cancelled, or this reset is still going to cancel it. */
  predicate ResetOk(call: Call, worker: Worker, items: map<nat, Item>) {
    call.kind == Reset && !call.phase.Begun? && PastGeneration(worker) && worker.item in items ==>
      items[worker.item].gen < call.phase.g ==> items[worker.item].cancelled || Awaits(call.phase, worker.item)
  }

  ghost predicate Resets(s: State) {
    forall c :: c in s.calls ==> ResetOk(s.calls[c], s.worker, s.items)
  }

  // ---- generation cancel ----

  predicate Closed(item: Item) { item.cancelled && item.done == 1 }

  predicate Of(item: Item, epoch: string, playback: nat) { item.epoch == epoch && item.playback == playback }

  predicate Cuts(kind: Kind) { kind.GenerationCancel? && kind.epoch != "" && kind.playback != 0 }

  /** A generation cancel that has captured its victims has raised the mark, and each
      registered item of its generation is closed or still to be closed by it. */
  ghost predicate CutOk(call: Call, watermark: map<string, nat>, active: set<nat>, items: map<nat, Item>) {
    call.kind.GenerationCancel? ==>
      && TrimSpace(call.kind.epoch) == call.kind.epoch
      && (!Cuts(call.kind) ==> call.phase.Returned?)
      && (Cuts(call.kind) && !call.phase.Begun? ==>
            && call.kind.playback <= Watermark(watermark, call.kind.epoch)
            && forall i :: i in active && i in items && Of(items[i], call.kind.epoch, call.kind.playback) ==>
                 Closed(items[i]) || Awaits(call.phase, i))
  }

  ghost predicate AllCut(s: State) {
    forall c :: c in s.calls ==> CutOk(s.calls[c], s.watermark, s.active, s.items)
  }

  ghost predicate Safe(s: State) { Inv(s) && Resets(s) && AllCut(s) }

  // ---- steps ----

  lemma PerformGrows(s: State, j: nat, op: Op, place: Place, i: nat)
    requires i in s.items && j in s.items
    ensures i in Perform(s, j, op, place).items && Grown(s.items[i], Perform(s, j, op, place).items[i])
  {
  }

  /** Nothing that has happened to an item is undone. */
  lemma StepGrows(s: State, e: Event, i: nat)
    requires Enabled(s, e) && i in s.items
    ensures i in Step(s, e).items && Grown(s.items[i], Step(s, e).items[i])
  {
    if e.Do? {
      CallGrows(s, e.c, e.act, i);
      hide Shared, NextCall, CanDo, Grown;
    } else {
      forall j, op, place | j in s.items
        ensures i in Perform(s, j, op, place).items && Grown(s.items[i], Perform(s, j, op, place).items[i])
      {
        PerformGrows(s, j, op, place, i);
      }
      hide GenerationCancelled, Perform;
    }
  }

  lemma CallGrows(s: State, c: nat, act: Act, i: nat)
    requires CanDo(s, c, act) && i in s.items
    ensures i in Shared(s, c, act).items && Grown(s.items[i], Shared(s, c, act).items[i])
  {
    forall j, op, place | j in s.items
      ensures i in Perform(s, j, op, place).items && Grown(s.items[i], Perform(s, j, op, place).items[i])
    {
      PerformGrows(s, j, op, place, i);
    }
    hide Marked, Perform;
  }

  /** A call leaves the worker, the other calls and the registry's other items alone, and
      never lowers a mark. */
  lemma SharedFrame(s: State, c: nat, act: Act)
    requires CanDo(s, c, act)
    ensures var t := Shared(s, c, act);
      && t.calls == s.calls && t.worker == s.worker && t.active <= s.active
      && forall epoch :: Watermark(s.watermark, epoch) <= Watermark(t.watermark, epoch)
  {
    hide After;
  }

  lemma MarksRise(s: State, e: Event, epoch: string)
    requires Enabled(s, e)
    ensures Watermark(s.watermark, epoch) <= Watermark(Step(s, e).watermark, epoch)
  {
    if e.Do? { SharedFrame(s, e.c, e.act); }
    hide GenerationCancelled, Shared, NextCall, CanDo, After;
  }

  /** The operation a reset or a generation cancel performs next on a victim. */
  lemma VictimClosed(s: State, c: nat)
    requires Inv(s) && CanDo(s, c, VictimOp)
    ensures var t, script := Shared(s, c, VictimOp), s.calls[c].phase.work.value;
      && (s.calls[c].kind.Reset? ==> t.items[script.item].cancelled)
      && (s.calls[c].kind.GenerationCancel? && |script.ops| == 1 ==> Closed(t.items[script.item]))
  {
    var script, t := s.calls[c].phase.work.value, Shared(s, c, VictimOp);
    var i, whole := script.item, VictimOps(s.calls[c].kind);
    assert CallOk(s.calls[c], s.gen, s.items) && ItemOk(s.items[i], s.gen, i in s.active);
    ScriptStep(s.items[i], t.items[i], whole, script.ops);
    assert script.ops[0] == whole[|whole| - |script.ops|];
  }

  /** The item a worker has is registered. */
  lemma HeldIsActive(s: State, i: nat)
    requires Inv(s) && i in s.items
    requires Holds(s.worker, i) || i in s.queue || exists c :: c in s.calls && Drains(s.calls[c], i)
    ensures i in s.active
  {
    assert ItemOk(s.items[i], s.gen, i in s.active) && PlaceOk(s.items[i].place, i, s.queue, s.worker, s.calls);
  }

  predicate About(e: Event, c: nat) { e.Do? && e.c == c }

  lemma Untouched(s: State, e: Event, c: nat)
    requires Enabled(s, e) && !About(e, c)
    ensures c in Step(s, e).calls <==> c in s.calls
    ensures c in s.calls ==> Step(s, e).calls[c] == s.calls[c]
  {
    if e.Do? { SharedFrame(s, e.c, e.act); }
    hide GenerationCancelled, Shared, NextCall, CanDo, After;
  }

  /** The worker only gets past the check with an item of the current generation. */
  lemma WorkerPast(s: State, e: Event)
    requires Enabled(s, e) && PastGeneration(Step(s, e).worker)
    ensures var i := Step(s, e).worker.item;
      (PastGeneration(s.worker) && s.worker.item == i)
      || (e.CheckGen? && i in s.items && s.items[i].gen == s.gen && Step(s, e).items == s.items)
  {
    if e.Do? { SharedFrame(s, e.c, e.act); }
    hide GenerationCancelled, Shared, NextCall, CanDo, After;
  }

  lemma ResetOther(s: State, e: Event, c: nat)
    requires Safe(s) && Enabled(s, e) && c in s.calls && !About(e, c)
    ensures ResetOk(s.calls[c], Step(s, e).worker, Step(s, e).items)
  {
    var w := s.worker;
    assert CallOk(s.calls[c], s.gen, s.items) && ResetOk(s.calls[c], s.worker, s.items);
    assert PastGeneration(w) ==> w.item in s.items;
    hide Safe, Inv, Progress, GenerationCancelled, Step, Enabled;
    if PastGeneration(w) { StepGrows(s, e, w.item); }
    if PastGeneration(Step(s, e).worker) { WorkerPast(s, e); }
  }

  /** Only its own registration makes an item registered, and the mark refuses it. */
  lemma NewlyActive(s: State, e: Event, i: nat)
    requires Enabled(s, e) && i in Step(s, e).active && i !in s.active
    ensures e == Register(i) && i in s.items
    ensures !GenerationCancelled(s.watermark, s.items[i].epoch, s.items[i].playback)
  {
    if e.Do? { SharedFrame(s, e.c, e.act); }
    hide Shared, NextCall, CanDo, After;
  }

  lemma CutOther(s: State, e: Event, c: nat)
    requires Safe(s) && Enabled(s, e) && c in s.calls && !About(e, c)
    ensures CutOk(s.calls[c], Step(s, e).watermark, Step(s, e).active, Step(s, e).items)
  {
    var t, call := Step(s, e), s.calls[c];
    assert CutOk(call, s.watermark, s.active, s.items);
    if Cuts(call.kind) && !call.phase.Begun? {
      MarksRise(s, e, call.kind.epoch);
      forall i | i in t.active && i in t.items && Of(t.items[i], call.kind.epoch, call.kind.playback)
        ensures Closed(t.items[i]) || Awaits(call.phase, i)
      {
        if i !in s.active { NewlyActive(s, e, i); }
        StepGrows(s, e, i);
        StepKeepsInv(s, e);
        hide Step;
      }
    }
  }

  // ---- what a call does itself ----

  lemma CutInvoke(s: State, c: nat, kind: Kind)
    requires CanDo(s, c, Invoke(kind))
    ensures var t := Step(s, Do(c, Invoke(kind))); CutOk(t.calls[c], t.watermark, t.active, t.items)
  {
    if kind.GenerationCancel? { TrimIdempotent(IsSpace, kind.epoch); }
  }

  /** A cancelling call only stops waiting for an item by finishing with it. */
  lemma Progresses(s: State, c: nat, act: Act, i: nat)
    requires c in s.calls && CanDo(s, c, act) && CallOk(s.calls[c], s.gen, s.items)
    ensures NextCall(s, c, act).kind == s.calls[c].kind
    ensures Awaits(s.calls[c].phase, i) && !act.Capture? ==>
              Awaits(NextCall(s, c, act).phase, i)
              || (act.VictimOp? && s.calls[c].phase.work.value.item == i && |s.calls[c].phase.work.value.ops| == 1)
    ensures act.Capture? && (s.calls[c].kind.Reset? ==> i in s.active)
            && (s.calls[c].kind.GenerationCancel? ==> i in OfGeneration(s, s.calls[c].kind.epoch, s.calls[c].kind.playback)) ==>
              Awaits(NextCall(s, c, act).phase, i)
  {
    hide OfGeneration, Progress;
  }

  lemma ResetPhase(s: State, c: nat, act: Act)
    requires c in s.calls && CanDo(s, c, act) && s.calls[c].kind == Reset
    ensures NextCall(s, c, act).kind == Reset
    ensures var phase := NextCall(s, c, act).phase;
            if s.calls[c].phase.Begun? then phase.Bumped? else !phase.Begun? && phase.g == s.calls[c].phase.g
  {
  }

  lemma ResetOwn(s: State, c: nat, act: Act)
    requires Safe(s) && c in s.calls && CanDo(s, c, act)
    ensures ResetOk(NextCall(s, c, act), Shared(s, c, act).worker, Shared(s, c, act).items)
  {
    var w := s.worker;
    assert ResetOk(s.calls[c], w, s.items) && CallOk(s.calls[c], s.gen, s.items);
    assert PastGeneration(w) ==> w.item in s.items && Holds(w, w.item);
    hide Safe, Inv, CallOk, NextCall, Shared;
    SharedFrame(s, c, act);
    Progresses(s, c, act, if PastGeneration(w) then w.item else 0);
    if s.calls[c].kind == Reset && PastGeneration(w) {
      ResetPhase(s, c, act);
      CallGrows(s, c, act, w.item);
      HeldIsActive(s, w.item);
      if act.VictimOp? { VictimClosed(s, c); }
      hide OfGeneration, Holds;
    }
  }

  lemma ClosedStays(s: State, e: Event, i: nat)
    requires Inv(s) && Enabled(s, e) && i in s.items && Closed(s.items[i])
    ensures i in Step(s, e).items && Closed(Step(s, e).items[i])
  {
    StepGrows(s, e, i);
    StepKeepsInv(s, e);
    hide Step;
    assert ItemOk(Step(s, e).items[i], Step(s, e).gen, i in Step(s, e).active);
    hide Inv, Progress;
  }

  lemma CaptureAwaits(s: State, c: nat, i: nat)
    requires CanDo(s, c, Capture) && i in s.active && i in s.items && s.calls[c].kind.GenerationCancel?
    requires Of(s.items[i], s.calls[c].kind.epoch, s.calls[c].kind.playback)
    ensures i in OfGeneration(s, s.calls[c].kind.epoch, s.calls[c].kind.playback)
  {
  }

  lemma CutVictim(s: State, c: nat, act: Act, i: nat)
    requires Safe(s) && c in s.calls && CanDo(s, c, act) && Cuts(s.calls[c].kind)
    requires i in Shared(s, c, act).active && i in Shared(s, c, act).items
    requires Of(Shared(s, c, act).items[i], s.calls[c].kind.epoch, s.calls[c].kind.playback)
    ensures NextCall(s, c, act).phase.Begun? || Closed(Shared(s, c, act).items[i]) || Awaits(NextCall(s, c, act).phase, i)
  {
    assert CutOk(s.calls[c], s.watermark, s.active, s.items) && CallOk(s.calls[c], s.gen, s.items);
    assert s.active <= s.items.Keys && Step(s, Do(c, act)).items == Shared(s, c, act).items;
    hide Safe, Inv, Step, Shared, Progress, CallOk;
    SharedFrame(s, c, act);
    StepGrows(s, Do(c, act), i);
    Progresses(s, c, act, i);
    if act.Capture? {
      CaptureAwaits(s, c, i);
    } else if Closed(s.items[i]) {
      ClosedStays(s, Do(c, act), i);
    } else if act.VictimOp? {
      VictimClosed(s, c);
    }
  }

  lemma CaptureMarks(s: State, c: nat, act: Act)
    requires c in s.calls && CanDo(s, c, act) && s.calls[c].kind.GenerationCancel?
    ensures s.calls[c].phase.Begun? ==>
              s.calls[c].kind.playback <= Watermark(Shared(s, c, act).watermark, s.calls[c].kind.epoch)
    ensures s.calls[c].phase.Returned? ==> NextCall(s, c, act).phase.Returned?
  {
  }

  lemma CutOwn(s: State, c: nat, act: Act)
    requires Safe(s) && c in s.calls && CanDo(s, c, act)
    ensures var t := Shared(s, c, act); CutOk(NextCall(s, c, act), t.watermark, t.active, t.items)
  {
    var t, kind := Shared(s, c, act), s.calls[c].kind;
    assert CutOk(s.calls[c], s.watermark, s.active, s.items) && CallOk(s.calls[c], s.gen, s.items);
    Progresses(s, c, act, 0);
    SharedFrame(s, c, act);
    if Cuts(kind) {
      CaptureMarks(s, c, act);
      forall i | i in t.active && i in t.items && Of(t.items[i], kind.epoch, kind.playback)
        ensures NextCall(s, c, act).phase.Begun? || Closed(t.items[i]) || Awaits(NextCall(s, c, act).phase, i)
      {
        CutVictim(s, c, act, i);
      }
    }
    hide Inv, Safe, Shared, NextCall, Closed, Of, Watermark;
  }

  lemma StartSafe()
    ensures Safe(START)
  {
  }

  /** Every step of every interleaving keeps both promises. */
  lemma StepKeepsSafe(s: State, e: Event)
    requires Safe(s) && Enabled(s, e)
    ensures Safe(Step(s, e))
  {
    var t := Step(s, e);
    StepKeepsInv(s, e);
    forall c | c in t.calls
      ensures ResetOk(t.calls[c], t.worker, t.items) && CutOk(t.calls[c], t.watermark, t.active, t.items)
    {
      StepKeepsCall(s, e, c);
    }
    hide Inv, Step, ResetOk, CutOk;
  }

  lemma StepKeepsCall(s: State, e: Event, c: nat)
    requires Safe(s) && Enabled(s, e) && c in Step(s, e).calls
    ensures ResetOk(Step(s, e).calls[c], Step(s, e).worker, Step(s, e).items)
    ensures CutOk(Step(s, e).calls[c], Step(s, e).watermark, Step(s, e).active, Step(s, e).items)
  {
    if !About(e, c) {
      hide Safe, Step, Enabled;
      Untouched(s, e, c);
      ResetOther(s, e, c);
      CutOther(s, e, c);
      hide ResetOk, CutOk;
    } else if e.act.Invoke? {
      CutInvoke(s, c, e.act.kind);
      hide Safe, CutOk, TrimSpace;
    } else {
      ResetOwn(s, c, e.act);
      CutOwn(s, c, e.act);
      hide Safe, Shared, NextCall, ResetOk, CutOk;
    }
  }

  lemma {:induction false} RunKeepsSafe(s: State, events: seq<Event>)
    requires Safe(s) && CanRun(s, events)
    ensures Safe(Run(s, events))
    decreases |events|
  {
    if events != [] {
      StepKeepsSafe(s, events[0]);
      hide Safe, Step, Enabled;
      RunKeepsSafe(Step(s, events[0]), events[1..]);
    }
  }

  lemma ReachableIsSafe(s: State)
    requires Reachable(s)
    ensures Safe(s)
  {
    var events :| CanRun(START, events) && s == Run(START, events);
    StartSafe();
    RunKeepsSafe(START, events);
  }
}
