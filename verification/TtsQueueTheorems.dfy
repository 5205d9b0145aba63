/** The promises of the idle-chat speech queue, for every interleaving. */
module TtsQueueTheorems {
  import opened Ordering
  import opened Text
  import opened TtsQueue
  import opened TtsQueueInvariant
  import opened TtsQueueSafety

  /** Queued or in flight implies registered: cancel-all sees every such item. */
  lemma InFlightIsRegistered(s: State, i: nat)
    requires Reachable(s) && i in s.items
    requires i in s.queue || Holds(s.worker, i) || exists c :: c in s.calls && Drains(s.calls[c], i)
    ensures i in s.active
  {
    ReachableIsSafe(s);
    HeldIsActive(s, i);
  }

  /** The registry holds exactly the items between their registration and their shutdown, and
      the ones a full channel turned away. */
  lemma RegistryExactly(s: State, i: nat)
    requires Reachable(s) && i in s.items
    ensures i in s.active <==> InFlight(s.items[i].place) || s.items[i].turnedAway
    ensures s.items[i].turnedAway ==> s.items[i].place.Failing? || s.items[i].place.Gone?
    ensures s.active <= s.items.Keys
  {
    ReachableIsSafe(s);
    assert ItemOk(s.items[i], s.gen, i in s.active);
  }

  /** One holder at a time: the channel, the worker and the drains never share an item, and
      the channel never holds one twice. */
  lemma OneHolder(s: State, i: nat)
    requires Reachable(s) && i in s.items
    ensures i in s.queue ==> !Holds(s.worker, i) && multiset(s.queue)[i] == 1
    ensures forall c :: c in s.calls && Drains(s.calls[c], i) ==> i !in s.queue && !Holds(s.worker, i)
    ensures forall c, d :: c in s.calls && d in s.calls && Drains(s.calls[c], i) && Drains(s.calls[d], i) ==> c == d
  {
    ReachableIsSafe(s);
    assert PlaceOk(s.items[i].place, i, s.queue, s.worker, s.calls);
    if i in s.queue { CountOnce(s.queue, i); }
  }

  lemma {:induction false} CountOnce(queue: seq<nat>, i: nat)
    requires Distinct(queue)
    ensures multiset(queue)[i] == if i in queue then 1 else 0
  {
    if queue != [] {
      DistinctRest(queue);
      CountOnce(queue[1..], i);
      assert queue == [queue[0]] + queue[1..];
    }
  }

  /** An item nobody holds any more, whose producer has finished with it, has a cancelled
      context and a closed Done channel. Done closed means Ready closed, and neither closes
      twice. */
  lemma ItemTermination(s: State, i: nat)
    requires Reachable(s) && i in s.items
    ensures var item := s.items[i];
      && item.ready <= 1 && item.done <= 1 && (item.done == 1 ==> item.ready == 1)
      && (!item.place.Loaded? && !item.place.Registered? && !item.place.Failing?
          && i !in s.queue && !Holds(s.worker, i) && (forall c :: c in s.calls ==> !Drains(s.calls[c], i)) ==>
            item.cancelled && item.done == 1)
  {
    ReachableIsSafe(s);
    assert ItemOk(s.items[i], s.gen, i in s.active) && PlaceOk(s.items[i].place, i, s.queue, s.worker, s.calls);
  }

  /** After a reset has returned, an item of an older generation is not being spoken with a
      live context. */
  lemma ResetSafety(s: State, c: nat, i: nat)
    requires Reachable(s) && c in s.calls && s.calls[c].kind == Reset && s.calls[c].phase.Returned?
    requires i in s.items && s.items[i].gen < s.calls[c].phase.g && s.worker == Emitting(i)
    ensures s.items[i].cancelled
  {
    ReachableIsSafe(s);
    assert ResetOk(s.calls[c], s.worker, s.items);
  }

  lemma {:induction false} RunGrows(s: State, events: seq<Event>, i: nat)
    requires CanRun(s, events) && i in s.items
    ensures i in Run(s, events).items && Grown(s.items[i], Run(s, events).items[i])
    decreases |events|
  {
    if events != [] {
      StepGrows(s, events[0], i);
      hide Step, Enabled;
      RunGrows(Step(s, events[0]), events[1..], i);
    }
  }

  predicate SameReset(a: Call, b: Call) {
    a.kind == Reset && b.kind == Reset && !a.phase.Begun? && !b.phase.Begun? && a.phase.g == b.phase.g
  }

  lemma ResetCarries(s: State, e: Event, c: nat)
    requires Enabled(s, e) && c in s.calls && SameReset(s.calls[c], s.calls[c])
    ensures c in Step(s, e).calls && SameReset(s.calls[c], Step(s, e).calls[c])
  {
    if About(e, c) { ResetPhase(s, c, e.act); hide NextCall, Shared; } else { Untouched(s, e, c); hide Step; }
  }

  lemma {:induction false} ResetRuns(s: State, events: seq<Event>, c: nat)
    requires CanRun(s, events) && c in s.calls && SameReset(s.calls[c], s.calls[c])
    ensures c in Run(s, events).calls && SameReset(s.calls[c], Run(s, events).calls[c])
    decreases |events|
  {
    if events != [] {
      ResetCarries(s, events[0], c);
      hide Step, Enabled;
      ResetRuns(Step(s, events[0]), events[1..], c);
    }
  }

  /** What a full channel turned away stays registered for good. */
  lemma TurnedAwayStays(s: State, events: seq<Event>, i: nat)
    requires Reachable(s) && CanRun(s, events) && i in s.items && s.items[i].turnedAway
    ensures i in Run(s, events).active
  {
    ReachableIsSafe(s);
    RunKeepsSafe(s, events);
    RunGrows(s, events, i);
    var t := Run(s, events);
    assert ItemOk(t.items[i], t.gen, i in t.active);
  }

  /** From any reachable state, whatever interleaves with a reset: once it has returned, no
      item that existed when it began is being spoken with a live context, not even one that
      was registered or enqueued after the reset's cancels. */
  lemma ResetStopsOlderItems(s: State, c: nat, events: seq<Event>, i: nat)
    requires Reachable(s) && Enabled(s, Do(c, Bump)) && CanRun(Step(s, Do(c, Bump)), events) && i in s.items
    ensures var t := Run(Step(s, Do(c, Bump)), events);
      && c in t.calls && i in t.items
      && (t.calls[c].phase.Returned? && t.worker == Emitting(i) ==> t.items[i].cancelled)
  {
    var u := Step(s, Do(c, Bump));
    var t := Run(u, events);
    ReachableIsSafe(s);
    assert ItemOk(s.items[i], s.gen, i in s.active);
    StepKeepsSafe(s, Do(c, Bump));
    RunKeepsSafe(u, events);
    ResetRuns(u, events, c);
    RunGrows(u, events, i);
    assert ResetOk(t.calls[c], t.worker, t.items);
  }

  /** A generation cancel is a cut: once it has returned, no item of its generation is queued,
      held or spoken except closed ones with a cancelled context. */
  lemma GenerationCut(s: State, c: nat, i: nat)
    requires Reachable(s) && c in s.calls && Cuts(s.calls[c].kind) && s.calls[c].phase.Returned?
    requires i in s.items && Of(s.items[i], s.calls[c].kind.epoch, s.calls[c].kind.playback)
    requires i in s.queue || Holds(s.worker, i) || exists d :: d in s.calls && Drains(s.calls[d], i)
    ensures s.items[i].cancelled && s.items[i].done == 1
  {
    ReachableIsSafe(s);
    HeldIsActive(s, i);
    assert CutOk(s.calls[c], s.watermark, s.active, s.items);
  }

  /** ... and nothing of the generations up to it can be registered from its capture on. */
  lemma NothingOlderRegisters(s: State, c: nat, i: nat)
    requires Reachable(s) && c in s.calls && Cuts(s.calls[c].kind) && !s.calls[c].phase.Begun?
    requires Enabled(s, Register(i)) && TrimSpace(s.items[i].epoch) == s.calls[c].kind.epoch
    requires 1 <= s.items[i].playback <= s.calls[c].kind.playback
    ensures i !in Step(s, Register(i)).active && Step(s, Register(i)).items[i].place == Failing(ABANDON)
  {
    ReachableIsSafe(s);
    assert CutOk(s.calls[c], s.watermark, s.active, s.items) && ItemOk(s.items[i], s.gen, i in s.active);
  }

  /** The cancelled-generation mark of an epoch never falls. */
  lemma {:induction false} WatermarkNeverFalls(s: State, events: seq<Event>, epoch: string)
    requires CanRun(s, events)
    ensures Watermark(s.watermark, epoch) <= Watermark(Run(s, events).watermark, epoch)
    decreases |events|
  {
    if events != [] {
      MarksRise(s, events[0], epoch);
      hide Step, Enabled;
      WatermarkNeverFalls(Step(s, events[0]), events[1..], epoch);
    }
  }

  lemma {:induction false} RunAppend(s: State, events: seq<Event>, e: Event)
    requires CanRun(s, events) && Enabled(Run(s, events), e)
    ensures CanRun(s, events + [e]) && Run(s, events + [e]) == Step(Run(s, events), e)
    decreases |events|
  {
    if events == [] {
      assert [e][1..] == [];
    } else {
      assert (events + [e])[1..] == events[1..] + [e];
      hide Step, Enabled;
      RunAppend(Step(s, events[0]), events[1..], e);
    }
  }

  lemma Next(s: State, e: Event) returns (t: State)
    requires Reachable(s) && Enabled(s, e)
    ensures t == Step(s, e) && Reachable(t)
  {
    var events :| CanRun(START, events) && s == Run(START, events);
    RunAppend(START, events, e);
    t := Step(s, e);
  }

  lemma WaitingIsReachable() returns (s: State)
    ensures Reachable(s)
    ensures s == State(0, {0}, map[], [0], map[0 := Item("e", 1, "k", 0, false, 0, 0, Queued, false)], Idle, map[])
  {
    assert CanRun(START, []);
    s := Next(START, Create(0, "e", 1, "k"));
    s := Next(s, Register(0));
    assert s == State(0, {0}, map[], [], map[0 := Item("e", 1, "k", 0, false, 0, 0, Registered, false)], Idle, map[]);
    hide GenerationCancelled;
    s := Next(s, Enqueue(0));
  }

  lemma SpeakingIsReachable() returns (s: State)
    ensures Reachable(s)
    ensures s == State(0, {0}, map[], [], map[0 := Item("e", 1, "k", 0, false, 0, 0, WithWorker, false)], Emitting(0), map[])
  {
    s := WaitingIsReachable();
    s := Next(s, Receive);
    s := Next(s, CheckGen);
    assert s.worker == GenChecked(0) && s.queue == [];
    s := Next(s, CheckMark);
    s := Next(s, CheckCtx);
  }

  /** A producer sends one more item to the channel, whether or not there is room. */
  lemma SendOne(s: State, i: nat) returns (t: State)
    requires Reachable(s) && i !in s.items && s.watermark == map[]
    ensures Reachable(t) && t.watermark == map[] && t.items.Keys == s.items.Keys + {i}
    ensures t.queue == if |s.queue| < CAPACITY then s.queue + [i] else s.queue
    ensures t.items[i].turnedAway <==> |s.queue| >= CAPACITY
  {
    var a := Next(s, Create(i, "e", 1, "k"));
    assert a.items == s.items[i := Item("e", 1, "k", s.gen, false, 0, 0, Loaded, false)] && a.queue == s.queue && a.watermark == map[];
    var b := Next(a, Register(i));
    assert b.items == a.items[i := a.items[i].(place := Registered)] && b.queue == s.queue && b.watermark == map[];
    hide GenerationCancelled;
    t := Next(b, Enqueue(i));
  }

  lemma {:induction false} ChannelFills(n: nat) returns (s: State)
    requires n <= CAPACITY
    ensures Reachable(s) && s.watermark == map[] && |s.queue| == n && forall i :: i in s.items ==> i < n
  {
    if n == 0 {
      assert CanRun(START, []);
      s := START;
    } else {
      var t := ChannelFills(n - 1);
      s := SendOne(t, n - 1);
    }
  }

  /** The channel can be full: an item is turned away in some run, and stays registered. */
  lemma SomeItemIsTurnedAway() returns (s: State, i: nat)
    ensures Reachable(s) && i in s.items && s.items[i].turnedAway && i in s.active && |s.queue| == CAPACITY
  {
    var full := ChannelFills(CAPACITY);
    i := CAPACITY;
    s := SendOne(full, i);
    RegistryExactly(s, i);
  }

  /** The cut is at one generation exactly: an item of a lower generation that is being
      spoken goes on, with a live context, after the cancel has returned. */
  lemma LowerGenerationGoesOn() returns (s: State, c: nat, i: nat)
    ensures Reachable(s) && c in s.calls && i in s.items
    ensures Cuts(s.calls[c].kind) && s.calls[c].phase.Returned?
    ensures s.items[i].epoch == s.calls[c].kind.epoch && 1 <= s.items[i].playback < s.calls[c].kind.playback
    ensures s.worker == Emitting(i) && !s.items[i].cancelled
  {
    s := SpeakingIsReachable();
    c, i := 0, 0;
    s := Next(s, Do(0, Invoke(GenerationCancel("e", 2))));
    s := Next(s, Do(0, Capture));
    s := Next(s, Do(0, CancelsDone));
  }
}
