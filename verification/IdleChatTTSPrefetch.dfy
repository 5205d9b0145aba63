/** The prefetch manager and its streams as the program keeps them. Each method is one
    section under one mutex and takes exactly the step of the same name. */
module IdleChatTTSPrefetch {
  import opened Options
  import opened Text
  import opened TtsPrefetch
  import opened TtsPrefetchInvariant

  /** What a script has done to a stream when it has run to its end. */
  ghost function RunAll(stream: Stream, ops: seq<Op>): Stream
    decreases |ops|
  {
    if ops == [] then stream else RunAll(After(stream, ops[0]), ops[1..])
  }

  lemma RunStale(stream: Stream)
    ensures RunAll(stream, STALE_OPS) == After(After(After(After(stream, CloseQueue), CancelCtx), CloseReady), CloseDone)
  {
    var a := After(stream, CloseQueue);
    var b := After(a, CancelCtx);
    assert STALE_OPS[1..][1..][1..] == [CloseDone] && [CloseDone][1..] == [];
    assert RunAll(stream, STALE_OPS) == RunAll(a, STALE_OPS[1..]) == RunAll(b, STALE_OPS[1..][1..]);
    assert RunAll(b, STALE_OPS[1..][1..]) == RunAll(After(b, CloseReady), [CloseDone]);
    assert RunAll(After(After(b, CloseReady), CloseDone), []) == After(After(b, CloseReady), CloseDone);
  }

  lemma WithoutOne(streams: map<string, nat>, key: string, i: nat)
    requires forall k :: k in streams && streams[k] == i ==> k == key
    ensures Without(streams, {i}) == if key in streams && streams[key] == i then streams - {key} else streams
  {
  }

  /** Takes the streams of one generation out of the map, walking it in any order. */
  method TakeOut(streams: map<string, nat>, all: map<nat, Stream>, epoch: string, playback: nat)
    returns (rest: map<string, nat>, victims: set<nat>)
    requires forall k :: k in streams ==> streams[k] in all && all[streams[k]].key == k
    ensures forall i :: i in victims <==>
              i in all && all[i].key in streams && streams[all[i].key] == i && Of(all[i], epoch, playback)
    ensures rest == Without(streams, victims)
  {
    rest, victims := streams, {};
    var keys := streams.Keys;
    while keys != {}
      invariant keys <= streams.Keys
      invariant forall i :: i in victims <==>
                  i in all && all[i].key in streams && streams[all[i].key] == i && all[i].key !in keys && Of(all[i], epoch, playback)
      invariant rest == Without(streams, victims)
      decreases |keys|
    {
      var key :| key in keys;
      var i := streams[key];
      if Of(all[i], epoch, playback) {
        victims, rest := victims + {i}, rest - {key};
      }
      keys := keys - {key};
    }
  }

  class PrefetchStream {
    const key: string
    const trace: string
    const epoch: string
    const playback: nat
    var queue: seq<string>
    var closed: bool
    var cancelled: bool
    var ready: bool
    var done: bool

    ghost var accepted: seq<string>
    ghost var received: seq<string>
    ghost var closes: nat
    ghost var lateSends: nat

    /** The stream as the step model sees it. */
    ghost function Value(runner: Runner): Stream
      reads this
    {
      Stream(key, trace, epoch, playback, queue, accepted, received, closed, closes, lateSends, cancelled,
             if ready then 1 else 0, if done then 1 else 0, runner)
    }

    ghost predicate Valid()
      reads this
    {
      Base(Value(Receiving))
    }

    constructor (key: string, trace: string, epoch: string, playback: nat)
      ensures Valid() && Value(Receiving) == NewStream(key, trace, epoch, playback)
    {
      this.key, this.trace, this.epoch, this.playback := key, trace, TrimSpace(epoch), playback;
      queue, closed, cancelled, ready, done := [], false, false, false, false;
      accepted, received, closes, lateSends := [], [], 0, 0;
    }

    method Enqueue(token: string)
      requires Valid()
      modifies this
      ensures Valid()
      ensures forall runner :: Value(runner) == Sent(old(Value(runner)), token)
      ensures if TrimSpace(token) != "" && !old(closed) && |old(queue)| < 128
              then queue == old(queue) + [TrimSpace(token)] && accepted == old(accepted) + [TrimSpace(token)]
              else queue == old(queue) && accepted == old(accepted)
      ensures received == old(received) && closed == old(closed) && cancelled == old(cancelled) && lateSends == 0
      ensures ready == old(ready) && done == old(done) && closes == old(closes)
    {
      var text := TrimSpace(token);
      if text == "" || closed { return; }
      if |queue| < CAPACITY {
        queue, accepted := queue + [text], accepted + [text];
        lateSends := lateSends + (if closes > 0 then 1 else 0);
      }
    }

    /** One receive of the goroutine's loop; the loop ends when there is nothing more to come. */
    method Receive() returns (token: Option<string>)
      requires Valid() && (queue != [] || closed)
      modifies this
      ensures Valid()
      ensures token == if old(queue) == [] then None else Some(old(queue)[0])
      ensures accepted == old(accepted) && received + queue == accepted
      ensures received == if token.None? then old(received) else old(received) + [token.value]
      ensures closed == old(closed) && cancelled == old(cancelled) && ready == old(ready) && done == old(done)
    {
      if queue == [] { return None; }
      token := Some(queue[0]);
      received, queue := received + [queue[0]], queue[1..];
    }

    method Close(trace: string) returns (ok: bool)
      requires Valid()
      modifies this
      ensures Valid()
      ensures ok <==> TrimSpace(trace) != "" && trace == this.trace
      ensures forall runner :: Value(runner) == if ok then After(old(Value(runner)), CloseQueue) else old(Value(runner))
      ensures (closed <==> old(closed) || ok) && queue == old(queue) && accepted == old(accepted) && cancelled == old(cancelled)
    {
      if TrimSpace(trace) == "" || this.trace != trace { return false; }
      if !closed { closed, closes := true, closes + 1; }
      return true;
    }

    method SignalReady()
      requires Valid()
      modifies this
      ensures Valid()
      ensures forall runner :: Value(runner) == After(old(Value(runner)), CloseReady)
      ensures ready && done == old(done) && queue == old(queue) && closed == old(closed) && cancelled == old(cancelled)
    {
      if !ready { ready := true; }
    }

    /** cancelForStale run to its end. */
    method CancelForStale()
      requires Valid()
      modifies this
      ensures Valid() && closed && cancelled && ready && done
      ensures queue == old(queue) && accepted == old(accepted) && received == old(received)
      ensures forall runner :: Value(runner) == RunAll(old(Value(runner)), STALE_OPS)
    {
      if !closed { closed, closes := true, closes + 1; }
      cancelled := true;
      SignalReady();
      if !done { done := true; }
      forall runner ensures Value(runner) == RunAll(old(Value(runner)), STALE_OPS) {
        RunStale(old(Value(runner)));
      }
    }
  }

  lemma UnmapFields(s: State, i: nat)
    requires Inv(s) && Enabled(s, Own(i, NextOp)) && s.all[i].runner == Exiting([Unmap])
    ensures var t := Step(s, Own(i, NextOp));
      && Inv(t) && t.marks == s.marks && t.all == s.all[i := s.all[i].(runner := Exited)]
      && t.streams == Without(s.streams, {i})
    ensures forall k :: k in s.streams && s.streams[k] == i ==> k == s.all[i].key
  {
    OwnKeeps(s, i, NextOp);
    assert Keys(s) && Acted(s.all[i], NextOp) == s.all[i].(runner := Exited);
    hide Inv, Acted, CanAct;
    WithoutOne(s.streams, s.all[i].key, i);
    hide Without, Keys;
  }

  class PrefetchManager {
    var streams: map<string, nat>
    var cancelledGeneration: map<string, nat>
    /** The stream objects ever made, by identity. */
    var all: map<nat, Stream>

    ghost var world: State

    ghost predicate Valid()
      reads this
    {
      Inv(world) && world.streams == streams && world.marks == cancelledGeneration && world.all == all
    }

    constructor ()
      ensures Valid() && world == START
    {
      streams, cancelledGeneration, all := map[], map[], map[];
      world := START;
    }

    /** The lock section of `stream`. */
    method StreamFor(c: nat, made: nat, key: string, trace: string, epoch: string, playback: nat, token: string)
      returns (found: Option<nat>)
      requires Valid() && Enabled(world, Lookup(c, made, key, trace, epoch, playback, token))
      modifies this
      ensures Valid() && world == Step(old(world), Lookup(c, made, key, trace, epoch, playback, token))
      ensures world.calls[c].phase == if found.None? then Returned else Sending(found.value, token)
      ensures found.None? <==> TrimSpace(epoch) != "" && TrimSpace(epoch) in old(cancelledGeneration)
                               && 1 <= playback <= old(cancelledGeneration)[TrimSpace(epoch)]
      ensures found.Some? ==> found.value == (if key in old(streams) then old(streams)[key] else made)
                              && streams == old(streams)[key := found.value]
    {
      LookupKeeps(world, Lookup(c, made, key, trace, epoch, playback, token));
      hide Inv;
      world := Step(world, Lookup(c, made, key, trace, epoch, playback, token));
      if GenerationCancelled(cancelledGeneration, epoch, playback) { return None; }
      if key in streams { return Some(streams[key]); }
      all, streams := all[made := NewStream(key, trace, epoch, playback)], streams[key := made];
      found := Some(made);
    }

    /** removeStream, as the last deferred call of the goroutine of stream `i`. */
    method RemoveStream(i: nat)
      requires Valid() && Enabled(world, Own(i, NextOp)) && world.all[i].runner == Exiting([Unmap])
      modifies this
      ensures Valid() && world == Step(old(world), Own(i, NextOp))
      ensures streams == Without(old(streams), {i})
    {
      hide Inv;
      UnmapFields(world, i);
      WithoutOne(streams, all[i].key, i);
      hide Without, Step;
      world := Step(world, Own(i, NextOp));
      var key := all[i].key;
      if key in streams && streams[key] == i { streams := streams - {key}; }
      all := all[i := all[i].(runner := Exited)];
    }

    /** The lock section of CancelGeneration: the map is walked once, in any order. */
    method Capture(c: nat, epoch: string, playback: nat) returns (victims: set<nat>)
      requires Valid() && Enabled(world, CaptureGeneration(c, epoch, playback))
      modifies this
      ensures Valid() && world == Step(old(world), CaptureGeneration(c, epoch, playback))
      ensures forall i :: i in victims <==>
                TrimSpace(epoch) != "" && playback != 0 && i in old(all) && i in old(streams).Values
                && old(all)[i].epoch == TrimSpace(epoch) && old(all)[i].playback == playback
      ensures streams == map k | k in old(streams) && old(streams)[k] !in victims :: old(streams)[k]
    {
      var trimmed := TrimSpace(epoch);
      CaptureGenerationKeeps(world, c, epoch, playback);
      assert Keys(world);
      hide Inv;
      if trimmed == "" || playback == 0 {
        world := Step(world, CaptureGeneration(c, epoch, playback));
        return {};
      }
      var rest, taken := TakeOut(streams, all, trimmed, playback);
      assert taken == OfGeneration(world, trimmed, playback);
      world := Step(world, CaptureGeneration(c, epoch, playback));
      streams, victims := rest, taken;
      if playback > Mark(cancelledGeneration, trimmed) {
        cancelledGeneration := cancelledGeneration[trimmed := playback];
      }
    }

    /** The lock section of CancelAll. */
    method TakeAll(c: nat) returns (victims: set<nat>)
      requires Valid() && Enabled(world, CaptureAll(c))
      modifies this
      ensures Valid() && world == Step(old(world), CaptureAll(c))
      ensures victims == old(streams).Values && streams == map[]
    {
      CaptureAllKeeps(world, c);
      assert Keys(world);
      hide Inv;
      victims := set k | k in streams :: streams[k];
      assert victims == MappedStreams(world);
      world := Step(world, CaptureAll(c));
      streams := map[];
    }
  }
}
