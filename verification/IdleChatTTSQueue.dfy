/** The speech queue's shared state as the program keeps it: a two-level registry, a mark per
    epoch, a generation counter and a bounded channel. Each method is one atomic section and
    takes exactly the step of the same name. */
module IdleChatTTSQueue {
  import opened Options
  import opened Text
  import opened TtsQueue
  import opened TtsQueueInvariant

  /** The two-level registry holds exactly `all`, each item under its own key, no key empty. */
  ghost predicate Files(active: map<string, set<nat>>, items: map<nat, Item>, all: set<nat>) {
    && (forall k, i :: k in active && i in active[k] ==> i in all && i in items && items[i].key == k)
    && (forall i :: i in all && i in items ==> items[i].key in active && i in active[items[i].key])
    && (forall k :: k in active ==> active[k] != {})
  }

  ghost predicate SameKeys(a: map<nat, Item>, b: map<nat, Item>) {
    forall i :: i in a ==> i in b && b[i].key == a[i].key
  }

  lemma FilesKept(active: map<string, set<nat>>, a: map<nat, Item>, b: map<nat, Item>, all: set<nat>)
    requires Files(active, a, all) && SameKeys(a, b) && all <= a.Keys
    ensures Files(active, b, all)
  {
  }

  lemma FilesAdd(active: map<string, set<nat>>, a: map<nat, Item>, b: map<nat, Item>, all: set<nat>, i: nat)
    requires Files(active, a, all) && SameKeys(a, b) && all <= a.Keys && i in b
    ensures Files(active[b[i].key := (if b[i].key in active then active[b[i].key] else {}) + {i}], b, all + {i})
  {
  }

  lemma FilesRemove(active: map<string, set<nat>>, a: map<nat, Item>, b: map<nat, Item>, all: set<nat>, i: nat)
    requires Files(active, a, all) && SameKeys(a, b) && all <= a.Keys && i in a && a[i].key in active
    ensures var keyed := active[a[i].key] - {i};
            Files(if keyed == {} then active - {a[i].key} else active[a[i].key := keyed], b, all - {i})
  {
  }

  /** Collects the registered items a cancel wants, whatever order the two maps are walked in. */
  method Collect(active: map<string, set<nat>>, items: map<nat, Item>, wanted: Item -> bool, ghost all: set<nat>)
    returns (picked: set<nat>)
    requires Files(active, items, all) && all <= items.Keys
    ensures forall i :: i in picked <==> i in all && wanted(items[i])
  {
    picked := {};
    var keys := active.Keys;
    while keys != {}
      invariant keys <= active.Keys
      invariant forall i :: i in picked <==> i in all && items[i].key !in keys && wanted(items[i])
      decreases |keys|
    {
      var key :| key in keys;
      var keyed := active[key];
      while keyed != {}
        invariant keyed <= active[key]
        invariant forall i :: i in picked <==> i in all && items[i].key !in keys - {key} && i !in keyed && wanted(items[i])
        decreases |keyed|
      {
        var item :| item in keyed;
        if wanted(items[item]) { picked := picked + {item}; }
        keyed := keyed - {item};
      }
      keys := keys - {key};
    }
  }

  lemma HeadKnown(s: State)
    requires Inv(s)
    ensures s.queue != [] ==> s.queue[0] in s.items
    ensures s.active <= s.items.Keys
  {
  }

  lemma DrainTakeFields(s: State, c: nat, active: map<string, set<nat>>)
    requires Inv(s) && Enabled(s, Do(c, DrainTake)) && Files(active, s.items, s.active)
    ensures var t, i := Step(s, Do(c, DrainTake)), s.queue[0];
      && Inv(t) && t.gen == s.gen && t.watermark == s.watermark && t.queue == s.queue[1..]
      && t.items == s.items[i := s.items[i].(place := WithDrainer(c))] && Files(active, t.items, t.active)
  {
    var t, i := Step(s, Do(c, DrainTake)), s.queue[0];
    assert s.active <= s.items.Keys;
    hide Inv, Files;
    assert t.items == s.items[i := s.items[i].(place := WithDrainer(c))] && t.active == s.active && t.gen == s.gen;
    assert t.watermark == s.watermark && t.queue == s.queue[1..];
    hide Step;
    DrainTakeKeeps(s, c);
    FilesKept(active, s.items, t.items, s.active);
  }

  lemma DrainEndFields(s: State, c: nat)
    requires Inv(s) && Enabled(s, Do(c, DrainEnd))
    ensures var t := Step(s, Do(c, DrainEnd));
      && Inv(t) && t.gen == s.gen && t.watermark == s.watermark && t.active == s.active && t.queue == s.queue
      && t.items == s.items
  {
    CallKeeps(s, c, DrainEnd);
    hide Inv;
  }

  /** The registry once an item has left it. */
  function Unfiled(active: map<string, set<nat>>, key: string, i: nat): map<string, set<nat>> {
    if key !in active then active
    else if active[key] - {i} == {} then active - {key}
    else active[key := active[key] - {i}]
  }

  /** Event `e` is the last operation on item `i`, by the worker or by a reset that drained it. */
  predicate Unregisters(s: State, e: Event, i: nat) {
    || (e == WorkerOp && s.worker == Finishing(Script(i, [TtsQueue.Unregister])))
    || (e.Do? && e.act == DrainOp && e.c in s.calls && s.calls[e.c].phase.Draining?
        && s.calls[e.c].phase.work == Some(Script(i, [TtsQueue.Unregister])))
  }

  lemma UnregisterStep(s: State, e: Event, i: nat)
    requires Inv(s) && Unregisters(s, e, i) && Enabled(s, e)
    ensures var t := Step(s, e);
      && t.gen == s.gen && t.watermark == s.watermark && t.queue == s.queue
      && t.items == s.items[i := s.items[i].(place := Gone)] && t.active == s.active - {i}
    ensures i in s.active && s.active <= s.items.Keys
  {
    assert i in s.active && s.active <= s.items.Keys by {
      assert ItemOk(s.items[i], s.gen, i in s.active) && PlaceOk(s.items[i].place, i, s.queue, s.worker, s.calls);
    }
    hide Inv;
    match e
    case WorkerOp =>
    case Do(c, act) =>
  }

  lemma UnregisterFields(s: State, e: Event, i: nat, active: map<string, set<nat>>)
    requires Inv(s) && Unregisters(s, e, i) && Enabled(s, e) && Files(active, s.items, s.active)
    ensures var t := Step(s, e);
      && Inv(t) && t.gen == s.gen && t.watermark == s.watermark && t.queue == s.queue
      && t.items == s.items[i := s.items[i].(place := Gone)] && Files(Unfiled(active, s.items[i].key, i), t.items, t.active)
  {
    StepKeepsInv(s, e);
    UnregisterStep(s, e, i);
    hide Inv, Step;
    FilesRemove(active, s.items, Step(s, e).items, s.active, i);
    hide Files;
  }

  lemma RegisterFields(s: State, i: nat, active: map<string, set<nat>>)
    requires Inv(s) && Enabled(s, TtsQueue.Register(i)) && Files(active, s.items, s.active)
    ensures var t, item := Step(s, TtsQueue.Register(i)), s.items[i];
      && Inv(t) && t.gen == s.gen && t.watermark == s.watermark && t.queue == s.queue
      && (if GenerationCancelled(s.watermark, item.epoch, item.playback) then
            i !in t.active && t.items == s.items[i := item.(place := Failing(ABANDON))] && Files(active, t.items, t.active)
          else
            i in t.active && t.items == s.items[i := item.(place := Registered)]
            && Files(active[item.key := (if item.key in active then active[item.key] else {}) + {i}], t.items, t.active))
  {
    var t := Step(s, TtsQueue.Register(i));
    assert s.active <= s.items.Keys && i !in s.active by { assert ItemOk(s.items[i], s.gen, i in s.active); }
    hide Inv, GenerationCancelled, Files;
    RegisterKeeps(s, i);
    FilesKept(active, s.items, t.items, s.active);
    FilesAdd(active, s.items, t.items, s.active, i);
    hide Files;
  }

  lemma EnqueueFields(s: State, i: nat, active: map<string, set<nat>>)
    requires Inv(s) && Enabled(s, TtsQueue.Enqueue(i)) && Files(active, s.items, s.active)
    ensures var t, item := Step(s, TtsQueue.Enqueue(i)), s.items[i];
      && Inv(t) && t.gen == s.gen && t.watermark == s.watermark && Files(active, t.items, t.active)
      && (if |s.queue| < CAPACITY then t.queue == s.queue + [i] && t.items == s.items[i := item.(place := Queued)]
          else t.queue == s.queue && t.items == s.items[i := item.(place := Failing(ABANDON), turnedAway := true)])
  {
    EnqueueKeeps(s, i);
    assert s.active <= s.items.Keys;
    hide Inv;
    FilesKept(active, s.items, EnqueueStep(s, i).items, s.active);
    hide Files;
  }

  lemma CaptureFields(s: State, c: nat)
    requires Inv(s) && Enabled(s, Do(c, Capture))
    ensures var t, kind := Step(s, Do(c, Capture)), s.calls[c].kind;
      && Inv(t) && t.gen == s.gen && t.queue == s.queue && t.items == s.items && t.active == s.active
      && s.active <= s.items.Keys
      && t.watermark == (if kind.GenerationCancel? then Marked(s, kind.epoch, kind.playback) else s.watermark)
  {
    CaptureKeeps(s, c);
    hide Inv;
  }

  /** The epoch has a mark, and the generation lies between 1 and the mark. */
  predicate Refuses(marks: map<string, nat>, epoch: string, playback: nat) {
    TrimSpace(epoch) != "" && TrimSpace(epoch) in marks && 1 <= playback <= marks[TrimSpace(epoch)]
  }

  lemma RefusedByMark(marks: map<string, nat>, epoch: string, playback: nat)
    ensures GenerationCancelled(marks, epoch, playback) <==> Refuses(marks, epoch, playback)
  {
    hide TrimSpace;
  }

  class SpeechQueue {
    var gen: nat
    var active: map<string, set<nat>>
    var cancelled: map<string, nat>
    var channel: seq<nat>
    /** The item objects; an item's `place` is bookkeeping of the model. */
    var items: map<nat, Item>

    /** The fields above with what the worker and the calls in progress are doing. */
    ghost var world: State

    ghost predicate Valid()
      reads this
    {
      && Inv(world)
      && world.gen == gen && world.watermark == cancelled && world.queue == channel && world.items == items
      && Files(active, items, world.active)
    }

    constructor ()
      ensures Valid() && world == START
    {
      gen, active, cancelled, channel, items := 0, map[], map[], [], map[];
      world := START;
    }

    /** The lock section of registerIdleChatTTSItem. */
    method Register(i: nat) returns (ok: bool)
      requires Valid() && Enabled(world, TtsQueue.Register(i))
      modifies this
      ensures Valid() && world == Step(old(world), TtsQueue.Register(i))
      ensures ok <==> i in world.active
      ensures !ok <==> Refuses(cancelled, old(items[i].epoch), old(items[i].playback))
      ensures cancelled == old(cancelled) && channel == old(channel) && gen == old(gen)
      ensures if ok then old(items[i].key) in active && i in active[old(items[i].key)] else active == old(active)
    {
      hide Inv, Files, GenerationCancelled, Step, Refuses;
      RefusedByMark(cancelled, items[i].epoch, items[i].playback);
      RegisterFields(world, i, active);
      var item := items[i];
      world := Step(world, TtsQueue.Register(i));
      ok := !GenerationCancelled(cancelled, item.epoch, item.playback);
      if ok { active := active[item.key := (if item.key in active then active[item.key] else {}) + {i}]; }
      items := items[i := item.(place := if ok then Registered else Failing(ABANDON))];
    }

    /** The non-blocking send of emitIdleChatTTSAsync. */
    method Enqueue(i: nat) returns (ok: bool)
      requires Valid() && Enabled(world, TtsQueue.Enqueue(i))
      modifies this
      ensures Valid() && world == Step(old(world), TtsQueue.Enqueue(i))
      ensures ok <==> old(|channel|) < 512
      ensures channel == if ok then old(channel) + [i] else old(channel)
    {
      hide Inv, Files, Step;
      EnqueueFields(world, i, active);
      world := Step(world, TtsQueue.Enqueue(i));
      ok := |channel| < CAPACITY;
      if ok {
        channel := channel + [i];
        items := items[i := items[i].(place := Queued)];
      } else {
        items := items[i := items[i].(place := Failing(ABANDON), turnedAway := true)];
      }
    }

    /** unregisterIdleChatTTSItem, called by the worker or by the drain of a reset. */
    method Unregister(i: nat, ghost e: Event)
      requires Valid() && Unregisters(world, e, i) && Enabled(world, e)
      modifies this
      ensures Valid() && world == Step(old(world), e)
    {
      hide Inv, Files, Step;
      UnregisterFields(world, e, i, active);
      var key := items[i].key;
      world := Step(world, e);
      items := items[i := items[i].(place := Gone)];
      if key in active {
        var keyed := active[key] - {i};
        active := if keyed == {} then active - {key} else active[key := keyed];
      }
    }

    /** The lock section of cancelIdleChatTTSGeneration. */
    method CaptureGeneration(c: nat, epoch: string, playback: nat) returns (victims: set<nat>)
      requires Valid() && Enabled(world, Do(c, Capture)) && world.calls[c].kind == GenerationCancel(epoch, playback)
      modifies this
      ensures Valid() && world == Step(old(world), Do(c, Capture))
      ensures forall i :: i in victims <==>
                i in old(world).active && i in items && items[i].epoch == epoch && items[i].playback == playback
      ensures cancelled == if epoch in old(cancelled) && playback <= old(cancelled)[epoch] then old(cancelled)
                           else if playback == 0 then old(cancelled) else old(cancelled)[epoch := playback]
      ensures items == old(items) && channel == old(channel) && gen == old(gen) && active == old(active)
    {
      CaptureFields(world, c);
      hide Inv, Step;
      if playback > Watermark(cancelled, epoch) { cancelled := cancelled[epoch := playback]; }
      victims := Collect(active, items, (item: Item) => item.epoch == epoch && item.playback == playback, world.active);
      world := Step(world, Do(c, Capture));
    }

    /** The lock section of cancelAllIdleChatTTS within a reset. */
    method CaptureAll(c: nat) returns (victims: set<nat>)
      requires Valid() && Enabled(world, Do(c, Capture)) && world.calls[c].kind == Reset
      modifies this`world
      ensures Valid() && world == Step(old(world), Do(c, Capture))
      ensures victims == world.active
    {
      CaptureFields(world, c);
      hide Inv, Step;
      victims := Collect(active, items, (item: Item) => true, world.active);
      world := Step(world, Do(c, Capture));
    }

    ghost predicate CanDrain(c: nat)
      requires Valid()
      reads this
    {
      c in world.calls && world.calls[c].phase.Draining? && world.calls[c].phase.work.None?
    }

    /** One round of the drain loop of resetIdleChatTTSQueue. */
    method Drain(c: nat) returns (item: Option<nat>)
      requires Valid() && CanDrain(c)
      modifies this
      ensures Valid()
      ensures item == if old(channel) == [] then None else Some(old(channel)[0])
      ensures old(channel) == [] ==> world == Step(old(world), Do(c, DrainEnd))
      ensures old(channel) != [] ==> world == Step(old(world), Do(c, DrainTake))
    {
      hide Inv, Step, Files;
      assert (channel != [] ==> channel[0] in items) && world.active <= items.Keys by { HeadKnown(world); }
      if channel == [] {
        DrainEndFields(world, c);
        world := Step(world, Do(c, DrainEnd));
        item := None;
      } else {
        DrainTakeFields(world, c, active);
        world := Step(world, Do(c, DrainTake));
        item := Some(channel[0]);
        items := items[channel[0] := items[channel[0]].(place := WithDrainer(c))];
        channel := channel[1..];
      }
    }
  }

  /** The two channels of an item's lifecycle and the two guards that close them once. */
  class LifecycleController {
    var readyOnce: bool
    var doneOnce: bool
    ghost var readyCloses: nat
    ghost var doneCloses: nat

    ghost predicate Valid()
      reads this
    {
      && readyCloses == (if readyOnce then 1 else 0)
      && doneCloses == (if doneOnce then 1 else 0)
      && (doneOnce ==> readyOnce)
    }

    constructor ()
      ensures Valid() && !readyOnce && !doneOnce
    {
      readyOnce, doneOnce := false, false;
      readyCloses, doneCloses := 0, 0;
    }

    method SignalReady()
      requires Valid()
      modifies this
      ensures Valid() && readyCloses == 1 && doneCloses == old(doneCloses)
    {
      if !readyOnce {
        readyOnce := true;
        readyCloses := readyCloses + 1;
      }
    }

    method SignalDone()
      requires Valid()
      modifies this
      ensures Valid() && readyCloses == 1 && doneCloses == 1
    {
      SignalReady();
      if !doneOnce {
        doneOnce := true;
        doneCloses := doneCloses + 1;
      }
    }
  }
}
