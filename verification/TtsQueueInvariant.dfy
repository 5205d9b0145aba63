/** What every step of the speech queue keeps: who holds an item, how far its shutdown has
    got, and that an item in the queue or in flight is registered. */
module TtsQueueInvariant {
  import opened Options
  import opened Ordering
  import opened Text
  import opened TtsQueue

  // ---- shutdown scripts ----

  /** The lasting effect of one shutdown operation. */
  predicate Effect(item: Item, op: Op) {
    match op
    case CancelCtx => item.cancelled
    case CloseReady => item.ready == 1
    case CloseDone => item.done == 1
    case Unregister => true
  }

  /** `ops` is what is left of `whole`, and the part before it has taken effect. */
  predicate Progress(item: Item, whole: seq<Op>, ops: seq<Op>) {
    && |ops| <= |whole|
    && ops == whole[|whole| - |ops|..]
    && forall j :: 0 <= j < |whole| - |ops| ==> Effect(item, whole[j])
  }

  /** Every close of `done` comes right after a close of `ready`. */
  predicate Signals(whole: seq<Op>) {
    forall j :: 0 <= j < |whole| && whole[j] == CloseDone ==> j > 0 && whole[j - 1] == CloseReady
  }

  predicate Lifecycle(item: Item) {
    item.ready <= 1 && item.done <= item.ready
  }

  /** `b` is `a` later on: who it is does not change and nothing that happened is undone. */
  predicate Grown(a: Item, b: Item) {
    && b.epoch == a.epoch && b.playback == a.playback && b.key == a.key && b.gen == a.gen
    && (a.cancelled ==> b.cancelled) && a.ready <= b.ready && a.done <= b.done
    && (a.turnedAway ==> b.turnedAway)
  }

  lemma ProgressFresh(item: Item, whole: seq<Op>)
    ensures Progress(item, whole, whole)
  {
  }

  lemma ProgressGrown(a: Item, b: Item, whole: seq<Op>, ops: seq<Op>)
    requires Progress(a, whole, ops) && Grown(a, b) && Lifecycle(b)
    ensures Progress(b, whole, ops)
  {
    forall j | 0 <= j < |whole| - |ops| ensures Effect(b, whole[j]) {
      assert Effect(a, whole[j]);
    }
  }

  lemma ProgressStep(a: Item, whole: seq<Op>, ops: seq<Op>)
    requires ops != [] && Progress(a, whole, ops) && Lifecycle(a) && Signals(whole)
    ensures Lifecycle(After(a, ops[0])) && Progress(After(a, ops[0]), whole, ops[1..])
  {
    var k := |whole| - |ops|;
    assert ops[0] == whole[k];
    assert ops[0] == CloseDone ==> Effect(a, whole[k - 1]);
    var b := After(a, ops[0]);
    forall j | 0 <= j < |whole| - |ops[1..]| ensures Effect(b, whole[j]) {
      if j < k { assert Effect(a, whole[j]); }
    }
  }

  predicate IsScript(whole: seq<Op>) {
    whole == ABANDON || whole == DROP || whole == COMPLETE || whole == [CancelCtx]
  }

  /** An item one of the three shutdowns has been through is cancelled and signalled. */
  lemma Finished(item: Item, whole: seq<Op>)
    requires Progress(item, whole, []) && IsScript(whole) && whole != [CancelCtx]
    ensures item.cancelled && item.done == 1
  {
    assert Effect(item, whole[0]) && Effect(item, whole[2]);
    assert Effect(item, whole[1]);
  }

  lemma ScriptsSignal(whole: seq<Op>)
    requires IsScript(whole)
    ensures Signals(whole)
  {
  }

  /** One operation of a script, wherever the item goes next. */
  lemma ScriptStep(a: Item, b: Item, whole: seq<Op>, ops: seq<Op>)
    requires ops != [] && Progress(a, whole, ops) && Lifecycle(a)
    requires IsScript(whole)
    requires b == After(a, ops[0]).(place := b.place)
    ensures Lifecycle(b) && Grown(a, b) && Progress(b, whole, ops[1..])
    ensures |ops| == 1 && whole != [CancelCtx] ==> b.cancelled && b.done == 1
  {
    ScriptsSignal(whole);
    hide Signals, IsScript, Effect;
    ProgressStep(a, whole, ops);
    ProgressGrown(After(a, ops[0]), b, whole, ops[1..]);
    if |ops| == 1 && whole != [CancelCtx] {
      assert ops[1..] == [];
      Finished(b, whole);
    }
    hide Progress;
  }

  // ---- one item ----

  /** Places whose item the registry must hold. */
  predicate InFlight(place: Place) {
    place.Registered? || place.Queued? || place.WithWorker? || place.WithDrainer?
  }

  predicate ItemOk(item: Item, gen: nat, registered: bool) {
    && Lifecycle(item)
    && item.gen <= gen
    && (registered <==> InFlight(item.place) || item.turnedAway)
    && (item.turnedAway ==> item.place.Failing? || item.place.Gone?)
    && (item.place.Failing? ==> item.place.ops != [] && Progress(item, ABANDON, item.place.ops))
    && (item.place.Gone? ==> item.cancelled && item.done == 1)
  }

  predicate Holds(w: Worker, i: nat) {
    match w
    case Idle => false
    case Received(j) => j == i
    case GenChecked(j) => j == i
    case MarkChecked(j) => j == i
    case Emitting(j) => j == i
    case Finishing(script) => script.item == i
  }

  predicate Drains(call: Call, i: nat) {
    call.phase.Draining? && call.phase.work.Some? && call.phase.work.value.item == i
  }

  /** The place of an item says exactly who has it: the channel, the worker or a drain. */
  ghost predicate PlaceOk(place: Place, i: nat, queue: seq<nat>, worker: Worker, calls: map<nat, Call>) {
    && (place.Queued? <==> i in queue)
    && (place.WithWorker? <==> Holds(worker, i))
    && (place.WithDrainer? ==> place.call in calls)
    && (forall c :: c in calls ==> (place == WithDrainer(c) <==> Drains(calls[c], i)))
  }

  predicate WorkerOk(worker: Worker, items: map<nat, Item>) {
    match worker
    case Idle => true
    case Received(i) => i in items
    case GenChecked(i) => i in items
    case MarkChecked(i) => i in items
    case Emitting(i) => i in items
    case Finishing(script) =>
      && script.item in items && script.ops != []
      && (Progress(items[script.item], DROP, script.ops) || Progress(items[script.item], COMPLETE, script.ops))
  }

  /** The script a call is in the middle of. */
  predicate WorkOk(work: Option<Script>, whole: seq<Op>, items: map<nat, Item>) {
    work.Some? ==> work.value.item in items && work.value.ops != []
                   && Progress(items[work.value.item], whole, work.value.ops)
  }

  predicate CallOk(call: Call, gen: nat, items: map<nat, Item>) {
    match call.phase
    case Begun => true
    case Bumped(g) => call.kind == Reset && g <= gen
    case Cancelling(g, pending, work) => g <= gen && pending <= items.Keys && WorkOk(work, VictimOps(call.kind), items)
    case Draining(g, work) => call.kind == Reset && g <= gen && WorkOk(work, DROP, items)
    case Returned(g) => g <= gen
  }

  ghost predicate Items(s: State) {
    && s.active <= s.items.Keys
    && forall i :: i in s.items ==> ItemOk(s.items[i], s.gen, i in s.active)
  }

  ghost predicate Places(s: State) {
    && (forall i :: i in s.queue ==> i in s.items)
    && Distinct(s.queue)
    && forall i :: i in s.items ==> PlaceOk(s.items[i].place, i, s.queue, s.worker, s.calls)
  }

  ghost predicate Work(s: State) {
    && WorkerOk(s.worker, s.items)
    && forall c :: c in s.calls ==> CallOk(s.calls[c], s.gen, s.items)
  }

  ghost predicate Inv(s: State) { Items(s) && Places(s) && Work(s) }

  lemma StartInv()
    ensures Inv(START)
  {
  }

  // ---- frames ----

  ghost predicate AllGrown(a: map<nat, Item>, b: map<nat, Item>) {
    forall i :: i in a ==> i in b && Grown(a[i], b[i]) && Lifecycle(b[i])
  }

  lemma WorkerFrame(w: Worker, a: map<nat, Item>, b: map<nat, Item>)
    requires WorkerOk(w, a) && AllGrown(a, b)
    ensures WorkerOk(w, b)
  {
    if w.Finishing? {
      var i := w.script.item;
      if Progress(a[i], DROP, w.script.ops) { ProgressGrown(a[i], b[i], DROP, w.script.ops); }
      else { ProgressGrown(a[i], b[i], COMPLETE, w.script.ops); }
    }
  }

  lemma WorkFrame(work: Option<Script>, whole: seq<Op>, a: map<nat, Item>, b: map<nat, Item>)
    requires WorkOk(work, whole, a) && AllGrown(a, b)
    ensures WorkOk(work, whole, b)
  {
    if work.Some? {
      ProgressGrown(a[work.value.item], b[work.value.item], whole, work.value.ops);
    }
  }

  lemma CallFrame(call: Call, g: nat, h: nat, a: map<nat, Item>, b: map<nat, Item>)
    requires CallOk(call, g, a) && g <= h && AllGrown(a, b)
    ensures CallOk(call, h, b)
  {
    hide Progress, Grown;
    match call.phase
    case Begun =>
    case Bumped(_) =>
    case Cancelling(_, _, work) => WorkFrame(work, VictimOps(call.kind), a, b);
    case Draining(_, work) => WorkFrame(work, DROP, a, b);
    case Returned(_) =>
  }

  /** Calls and a worker that a step leaves alone stay right while items only grow. */
  lemma WorkKept(s: State, t: State)
    requires Work(s) && AllGrown(s.items, t.items) && s.gen <= t.gen
    ensures WorkerOk(s.worker, t.items)
    ensures forall c :: c in s.calls ==> CallOk(s.calls[c], t.gen, t.items)
  {
    WorkerFrame(s.worker, s.items, t.items);
    forall c | c in s.calls ensures CallOk(s.calls[c], t.gen, t.items) {
      CallFrame(s.calls[c], s.gen, t.gen, s.items, t.items);
    }
  }

  /** A step that changes one item, and that item's registration only. */
  lemma OneItem(s: State, t: State, i: nat)
    requires Items(s) && i in t.items && t.items == s.items[i := t.items[i]] && s.gen <= t.gen
    requires ItemOk(t.items[i], t.gen, i in t.active)
    requires t.active - {i} == s.active - {i}
    ensures Items(t)
  {
    forall j | j in t.items ensures ItemOk(t.items[j], t.gen, j in t.active) {
      if j != i {
        assert ItemOk(s.items[j], s.gen, j in s.active);
        assert j in t.active <==> j in t.active - {i};
        assert j in s.active <==> j in s.active - {i};
      }
    }
    forall j | j in t.active ensures j in t.items {
      if j != i { assert j in s.active - {i}; }
    }
  }

  /** Nobody's hold on `j` changes between `s` and `t`. */
  ghost predicate SameHold(s: State, t: State, j: nat) {
    && (j in s.queue <==> j in t.queue)
    && (Holds(s.worker, j) <==> Holds(t.worker, j))
    && (forall c :: c in s.calls ==> c in t.calls)
    && (forall c :: c in t.calls ==> (Drains(t.calls[c], j) <==> c in s.calls && Drains(s.calls[c], j)))
  }

  /** A step that moves one item from one holder to another. */
  lemma OnePlace(s: State, t: State, i: nat)
    requires Places(s) && i in t.items && t.items == s.items[i := t.items[i]]
    requires PlaceOk(t.items[i].place, i, t.queue, t.worker, t.calls)
    requires forall j :: j in s.items && j != i ==> SameHold(s, t, j)
    requires Distinct(t.queue) && forall j :: j in t.queue ==> j in t.items
    ensures Places(t)
  {
    forall j | j in t.items ensures PlaceOk(t.items[j].place, j, t.queue, t.worker, t.calls) {
      if j != i {
        var place := s.items[j].place;
        assert PlaceOk(place, j, s.queue, s.worker, s.calls) && SameHold(s, t, j);
        forall c | c in t.calls ensures place == WithDrainer(c) <==> Drains(t.calls[c], j) {
        }
      }
    }
  }

  lemma DistinctAppend(queue: seq<nat>, i: nat)
    requires Distinct(queue) && i !in queue
    ensures Distinct(queue + [i])
  {
  }

  lemma DistinctRest(queue: seq<nat>)
    requires Distinct(queue) && queue != []
    ensures Distinct(queue[1..]) && queue[0] !in queue[1..]
    ensures forall j :: j != queue[0] ==> (j in queue <==> j in queue[1..])
  {
    assert queue == [queue[0]] + queue[1..];
  }

  // ---- steps ----

  lemma CreateKeeps(s: State, i: nat, epoch: string, playback: nat, key: string)
    requires Inv(s) && Enabled(s, Create(i, epoch, playback, key))
    ensures Inv(Step(s, Create(i, epoch, playback, key)))
  {
    var t := Step(s, Create(i, epoch, playback, key));
    WorkKept(s, t);
    OneItem(s, t, i);
    OnePlace(s, t, i);
    hide Items, ItemOk, Places, WorkerOk, CallOk;
  }

  predicate Unheld(place: Place) {
    place.Loaded? || place.Registered? || place.Failing? || place.Gone?
  }

  /** A producer's step changes its own item and nobody's hold on it. */
  lemma ProducerMove(s: State, t: State, i: nat)
    requires Inv(s) && i in s.items && i in t.items
    requires t == s.(items := s.items[i := t.items[i]], active := t.active)
    requires t.active - {i} == s.active - {i}
    requires Grown(s.items[i], t.items[i]) && Unheld(s.items[i].place) && Unheld(t.items[i].place)
    requires ItemOk(t.items[i], s.gen, i in t.active)
    ensures Inv(t)
  {
    assert PlaceOk(s.items[i].place, i, s.queue, s.worker, s.calls);
    OneItem(s, t, i);
    OnePlace(s, t, i);
    hide Progress, Grown, Distinct, PlaceOk;
    WorkKept(s, t);
  }

  lemma RegisterKeeps(s: State, i: nat)
    requires Inv(s) && Enabled(s, Register(i))
    ensures Inv(Step(s, Register(i)))
  {
    assert ItemOk(s.items[i], s.gen, i in s.active);
    hide GenerationCancelled, Progress, Inv;
    var t := RegisterStep(s, i);
    ProgressFresh(t.items[i], ABANDON);
    ProducerMove(s, t, i);
  }

  lemma EnqueueKeeps(s: State, i: nat)
    requires Inv(s) && Enabled(s, Enqueue(i))
    ensures Inv(Step(s, Enqueue(i)))
  {
    if |s.queue| < CAPACITY {
      QueuedKeeps(s, i);
    } else {
      var t := EnqueueStep(s, i);
      assert ItemOk(s.items[i], s.gen, i in s.active);
      ProgressFresh(t.items[i], ABANDON);
      hide Progress, Inv;
      ProducerMove(s, t, i);
    }
    hide Inv;
  }

  lemma QueuedKeeps(s: State, i: nat)
    requires Inv(s) && i in s.items && s.items[i].place == Registered && |s.queue| < CAPACITY
    ensures Inv(EnqueueStep(s, i))
  {
    var t := EnqueueStep(s, i);
    QueuedPlaces(s, i);
    assert ItemOk(s.items[i], s.gen, i in s.active);
    hide Progress, Places;
    OneItem(s, t, i);
    hide Items;
    WorkKept(s, t);
  }

  lemma QueuedPlaces(s: State, i: nat)
    requires Places(s) && i in s.items && s.items[i].place == Registered && |s.queue| < CAPACITY
    ensures Places(EnqueueStep(s, i))
  {
    assert PlaceOk(s.items[i].place, i, s.queue, s.worker, s.calls);
    DistinctAppend(s.queue, i);
    hide Distinct;
    OnePlace(s, EnqueueStep(s, i), i);
  }

  lemma FailKeeps(s: State, i: nat)
    requires Inv(s) && Enabled(s, Fail(i))
    ensures Inv(Step(s, Fail(i)))
  {
    var t, ops := FailStep(s, i), s.items[i].place.ops;
    assert ItemOk(s.items[i], s.gen, i in s.active);
    ScriptStep(s.items[i], t.items[i], ABANDON, ops);
    hide Progress, Inv, After;
    ProducerMove(s, t, i);
  }

  // the worker

  lemma ReceiveKeeps(s: State)
    requires Inv(s) && Enabled(s, Receive)
    ensures Inv(Step(s, Receive))
  {
    var t, i := Step(s, Receive), s.queue[0];
    assert ItemOk(s.items[i], s.gen, i in s.active) && PlaceOk(s.items[i].place, i, s.queue, s.worker, s.calls);
    DistinctRest(s.queue);
    hide Progress, Distinct;
    OneItem(s, t, i);
    OnePlace(s, t, i);
    WorkKept(s, t);
  }

  /** The worker goes on with its item, or lets it go when it has shut it down. */
  lemma WorkerMove(s: State, t: State, i: nat)
    requires Inv(s) && i in s.items && i in t.items && Holds(s.worker, i)
    requires t == s.(items := s.items[i := t.items[i]], active := t.active, worker := t.worker)
    requires t.active - {i} == s.active - {i}
    requires Grown(s.items[i], t.items[i]) && ItemOk(t.items[i], s.gen, i in t.active)
    requires WorkerOk(t.worker, t.items)
    requires (Holds(t.worker, i) && t.items[i].place == s.items[i].place) || (t.worker == Idle && t.items[i].place == Gone)
    ensures Inv(t)
  {
    assert PlaceOk(s.items[i].place, i, s.queue, s.worker, s.calls);
    OneItem(s, t, i);
    OnePlace(s, t, i);
    hide Progress, Grown, Distinct, PlaceOk;
    WorkKept(s, t);
  }

  lemma CheckKeeps(s: State, e: Event)
    requires Inv(s) && Enabled(s, e) && (e.CheckGen? || e.CheckMark? || e.CheckCtx? || e.EmitEnd?)
    ensures Inv(Step(s, e))
  {
    var t, i := Step(s, e), s.worker.item;
    assert ItemOk(s.items[i], s.gen, i in s.active);
    ProgressFresh(s.items[i], DROP);
    ProgressFresh(s.items[i], COMPLETE);
    hide Progress, Inv, GenerationCancelled;
    assert t.items == s.items[i := s.items[i]];
    WorkerMove(s, t, i);
  }

  lemma WorkerOpKeeps(s: State)
    requires Inv(s) && Enabled(s, WorkerOp)
    ensures Inv(Step(s, WorkerOp))
  {
    var t, i, ops := WorkerOpStep(s), s.worker.script.item, s.worker.script.ops;
    assert ItemOk(s.items[i], s.gen, i in s.active) && PlaceOk(s.items[i].place, i, s.queue, s.worker, s.calls);
    assert Progress(s.items[i], DROP, ops) || Progress(s.items[i], COMPLETE, ops);
    hide Progress, Inv, PlaceOk, After;
    if Progress(s.items[i], DROP, ops) { WorkerScript(s, DROP); } else { WorkerScript(s, COMPLETE); }
    WorkerMove(s, t, i);
  }

  /** The next operation of the worker on the item it is finishing with. */
  lemma WorkerScript(s: State, whole: seq<Op>)
    requires Enabled(s, WorkerOp) && (whole == DROP || whole == COMPLETE)
    requires var i := s.worker.script.item;
      ItemOk(s.items[i], s.gen, i in s.active) && s.items[i].place == WithWorker && Progress(s.items[i], whole, s.worker.script.ops)
    ensures var t, i := WorkerOpStep(s), s.worker.script.item;
      Grown(s.items[i], t.items[i]) && ItemOk(t.items[i], s.gen, i in t.active) && WorkerOk(t.worker, t.items)
  {
    var t, i, ops := WorkerOpStep(s), s.worker.script.item, s.worker.script.ops;
    ScriptStep(s.items[i], t.items[i], whole, ops);
    UnregisterLast(s.items[i], whole, ops);
    hide Progress, After;
  }

  /** The registration goes with the last operation of a script. */
  lemma UnregisterLast(item: Item, whole: seq<Op>, ops: seq<Op>)
    requires Progress(item, whole, ops) && ops != [] && IsScript(whole)
    ensures ops[0] == Unregister <==> |ops| == 1 && (whole == DROP || whole == COMPLETE)
  {
    assert ops[0] == whole[|whole| - |ops|];
  }

  // cancels and resets

  /** An item is cancelled or signalled by somebody who does not hold it. */
  lemma ItemGrows(s: State, t: State, i: nat)
    requires Inv(s) && i in s.items && i in t.items
    requires t == s.(items := s.items[i := t.items[i]])
    requires Grown(s.items[i], t.items[i]) && Lifecycle(t.items[i]) && t.items[i].place == s.items[i].place
    requires t.items[i].turnedAway == s.items[i].turnedAway
    ensures Inv(t)
  {
    assert ItemOk(s.items[i], s.gen, i in s.active) && PlaceOk(s.items[i].place, i, s.queue, s.worker, s.calls);
    if s.items[i].place.Failing? { ProgressGrown(s.items[i], t.items[i], ABANDON, s.items[i].place.ops); }
    OneItem(s, t, i);
    OnePlace(s, t, i);
    hide Progress, Grown, Distinct, PlaceOk;
    WorkKept(s, t);
  }

  lemma EmitReadyKeeps(s: State)
    requires Inv(s) && Enabled(s, EmitReady)
    ensures Inv(Step(s, EmitReady))
  {
    var t, i := Step(s, EmitReady), s.worker.item;
    assert ItemOk(s.items[i], s.gen, i in s.active);
    assert t == s.(items := s.items[i := t.items[i]]);
    hide Inv;
    ItemGrows(s, t, i);
  }

  predicate Drainless(call: Call) {
    call.phase.Draining? ==> call.phase.work.None?
  }

  /** A call goes on without taking an item from the channel. */
  lemma CallMove(s: State, t: State, c: nat)
    requires Inv(s) && c in t.calls
    requires t == s.(gen := t.gen, watermark := t.watermark, calls := s.calls[c := t.calls[c]])
    requires s.gen <= t.gen && CallOk(t.calls[c], t.gen, t.items)
    requires Drainless(t.calls[c]) && (c in s.calls ==> Drainless(s.calls[c]))
    ensures Inv(t)
  {
    WorkKept(s, t);
    hide Progress, Distinct, CallOk, WorkerOk;
    forall i | i in t.items
      ensures ItemOk(t.items[i], t.gen, i in t.active) && PlaceOk(t.items[i].place, i, t.queue, t.worker, t.calls)
    {
      assert ItemOk(s.items[i], s.gen, i in s.active) && PlaceOk(s.items[i].place, i, s.queue, s.worker, s.calls);
    }
  }

  predicate Moves(act: Act) { !act.Capture? && !act.NextVictim? && !act.VictimOp? && !act.DrainTake? && !act.DrainOp? }

  lemma CallKeeps(s: State, c: nat, act: Act)
    requires Inv(s) && Enabled(s, Do(c, act)) && Moves(act)
    ensures Inv(Step(s, Do(c, act)))
  {
    assert c in s.calls ==> CallOk(s.calls[c], s.gen, s.items);
    assert s.active <= s.items.Keys;
    hide Inv, Progress, TrimSpace;
    CallMove(s, Step(s, Do(c, act)), c);
  }

  lemma CaptureKeeps(s: State, c: nat)
    requires Inv(s) && Enabled(s, Do(c, Capture))
    ensures Inv(Step(s, Do(c, Capture)))
  {
    assert CallOk(s.calls[c], s.gen, s.items) && s.active <= s.items.Keys;
    hide Inv, Progress, Marked;
    CallMove(s, Step(s, Do(c, Capture)), c);
  }

  lemma NextVictimKeeps(s: State, c: nat, i: nat)
    requires Inv(s) && Enabled(s, Do(c, NextVictim(i)))
    ensures Inv(Step(s, Do(c, NextVictim(i))))
  {
    assert CallOk(s.calls[c], s.gen, s.items);
    ProgressFresh(s.items[i], VictimOps(s.calls[c].kind));
    hide Inv, Progress;
    CallMove(s, Step(s, Do(c, NextVictim(i))), c);
  }

  /** What the next operation of a cancel does to its victim. */
  lemma VictimStep(s: State, c: nat, b: Item)
    requires Inv(s) && CanDo(s, c, VictimOp)
    requires var script := s.calls[c].phase.work.value; b == After(s.items[script.item], script.ops[0])
    ensures var i, ops := s.calls[c].phase.work.value.item, s.calls[c].phase.work.value.ops;
      && Grown(s.items[i], b) && Lifecycle(b) && b.place == s.items[i].place && b.turnedAway == s.items[i].turnedAway
      && ops[0] != Unregister && CallOk(NextCall(s, c, VictimOp), s.gen, s.items[i := b])
  {
    var script, kind := s.calls[c].phase.work.value, s.calls[c].kind;
    var a := s.items[script.item];
    assert CallOk(s.calls[c], s.gen, s.items) && ItemOk(a, s.gen, script.item in s.active);
    hide Inv;
    ScriptStep(a, b, VictimOps(kind), script.ops);
    UnregisterLast(a, VictimOps(kind), script.ops);
    hide Progress, Lifecycle, Grown;
  }

  lemma VictimOpKeeps(s: State, c: nat)
    requires Inv(s) && Enabled(s, Do(c, VictimOp))
    ensures Inv(Step(s, Do(c, VictimOp)))
  {
    var i, ops := s.calls[c].phase.work.value.item, s.calls[c].phase.work.value.ops;
    var b := After(s.items[i], ops[0]);
    hide Inv, After, Grown, Lifecycle, CallOk;
    VictimStep(s, c, b);
    ItemGrows(s, WithItem(s, i, b), i);
    CallMove(WithItem(s, i, b), Step(s, Do(c, VictimOp)), c);
  }

  // drains

  lemma DrainTakePlaces(s: State, c: nat)
    requires Places(s) && Enabled(s, Do(c, DrainTake))
    ensures Places(Step(s, Do(c, DrainTake)))
  {
    var t, i := Step(s, Do(c, DrainTake)), s.queue[0];
    assert PlaceOk(s.items[i].place, i, s.queue, s.worker, s.calls);
    DistinctRest(s.queue);
    hide Distinct;
    OnePlace(s, t, i);
  }

  lemma DrainTakeKeeps(s: State, c: nat)
    requires Inv(s) && Enabled(s, Do(c, DrainTake))
    ensures Inv(Step(s, Do(c, DrainTake)))
  {
    DrainTakePlaces(s, c);
    DrainTakeWork(s, c);
    hide Step, Work, Places, Items;
  }

  lemma DrainTakeWork(s: State, c: nat)
    requires Inv(s) && Enabled(s, Do(c, DrainTake))
    ensures var t := Step(s, Do(c, DrainTake)); Items(t) && Work(t)
  {
    var t, i := Step(s, Do(c, DrainTake)), s.queue[0];
    assert ItemOk(s.items[i], s.gen, i in s.active) && PlaceOk(s.items[i].place, i, s.queue, s.worker, s.calls);
    assert s.items[i].place == Queued && CallOk(s.calls[c], s.gen, s.items);
    hide Places, PlaceOk, Progress;
    OneItem(s, t, i);
    assert t.items[i] == s.items[i].(place := WithDrainer(c));
    ProgressFresh(t.items[i], DROP);
    hide Items, ItemOk;
    WorkKept(s, t);
  }

  /** A reset goes on with the item it drained, or lets it go when it has shut it down. */
  lemma DrainMove(s: State, t: State, c: nat, i: nat)
    requires Inv(s) && i in s.items && i in t.items && c in s.calls && Drains(s.calls[c], i) && c in t.calls
    requires t == s.(items := s.items[i := t.items[i]], active := t.active, calls := s.calls[c := t.calls[c]])
    requires t.active - {i} == s.active - {i}
    requires Grown(s.items[i], t.items[i]) && ItemOk(t.items[i], s.gen, i in t.active)
    requires CallOk(t.calls[c], s.gen, t.items)
    requires if Drains(t.calls[c], i) then t.items[i].place == s.items[i].place
             else Drainless(t.calls[c]) && t.items[i].place == Gone
    ensures Inv(t)
  {
    assert PlaceOk(s.items[i].place, i, s.queue, s.worker, s.calls);
    OneItem(s, t, i);
    OnePlace(s, t, i);
    hide Progress, Grown, Distinct, PlaceOk;
    WorkKept(s, t);
  }

  lemma DrainOpKeeps(s: State, c: nat)
    requires Inv(s) && Enabled(s, Do(c, DrainOp))
    ensures Inv(Step(s, Do(c, DrainOp)))
  {
    var t, i, ops := Step(s, Do(c, DrainOp)), s.calls[c].phase.work.value.item, s.calls[c].phase.work.value.ops;
    assert ItemOk(s.items[i], s.gen, i in s.active) && PlaceOk(s.items[i].place, i, s.queue, s.worker, s.calls);
    assert CallOk(s.calls[c], s.gen, s.items);
    hide Progress, Inv, PlaceOk;
    DrainScript(s, c);
    hide ItemOk, CallOk, Grown;
    DrainMove(s, t, c, i);
  }

  /** The next operation of a reset on the item it drained. */
  lemma DrainScript(s: State, c: nat)
    requires Enabled(s, Do(c, DrainOp)) && CallOk(s.calls[c], s.gen, s.items)
    requires var i := s.calls[c].phase.work.value.item;
      ItemOk(s.items[i], s.gen, i in s.active) && s.items[i].place == WithDrainer(c)
    ensures var t, i := Step(s, Do(c, DrainOp)), s.calls[c].phase.work.value.item;
      && Grown(s.items[i], t.items[i]) && ItemOk(t.items[i], s.gen, i in t.active)
      && CallOk(t.calls[c], s.gen, t.items)
  {
    var t, i, ops := Step(s, Do(c, DrainOp)), s.calls[c].phase.work.value.item, s.calls[c].phase.work.value.ops;
    ScriptStep(s.items[i], t.items[i], DROP, ops);
    UnregisterLast(s.items[i], DROP, ops);
    hide Progress, After;
  }

  lemma DoKeeps(s: State, c: nat, act: Act)
    requires Inv(s) && Enabled(s, Do(c, act))
    ensures Inv(Step(s, Do(c, act)))
  {
    hide Inv, Enabled, Step;
    match act
    case Capture => CaptureKeeps(s, c);
    case NextVictim(i) => NextVictimKeeps(s, c, i);
    case VictimOp => VictimOpKeeps(s, c);
    case DrainTake => DrainTakeKeeps(s, c);
    case DrainOp => DrainOpKeeps(s, c);
    case _ => CallKeeps(s, c, act);
  }

  /** Every step of every interleaving keeps the invariant. */
  lemma StepKeepsInv(s: State, e: Event)
    requires Inv(s) && Enabled(s, e)
    ensures Inv(Step(s, e))
  {
    hide Inv, Enabled, Step;
    match e
    case Create(i, epoch, playback, key) => CreateKeeps(s, i, epoch, playback, key);
    case Register(i) => RegisterKeeps(s, i);
    case Enqueue(i) => EnqueueKeeps(s, i);
    case Fail(i) => FailKeeps(s, i);
    case Receive => ReceiveKeeps(s);
    case CheckGen => CheckKeeps(s, e);
    case CheckMark => CheckKeeps(s, e);
    case CheckCtx => CheckKeeps(s, e);
    case EmitReady => EmitReadyKeeps(s);
    case EmitEnd => CheckKeeps(s, e);
    case WorkerOp => WorkerOpKeeps(s);
    case Do(c, act) => DoKeeps(s, c, act);
  }
}
