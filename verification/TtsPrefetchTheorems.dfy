/** The promises of the prefetch streams, for every interleaving. */
module TtsPrefetchTheorems {
  import opened Text
  import opened TtsPrefetch
  import opened TtsPrefetchInvariant

  /** The token channel closes at most once, nothing is sent after it closes, and every
      accepted token is received in order or still queued. */
  lemma ChannelSafety(s: State, i: nat)
    requires Reachable(s) && i in s.all
    ensures s.all[i].closes <= 1 && (s.all[i].closes == 1 <==> s.all[i].closed)
    ensures s.all[i].lateSends == 0
    ensures s.all[i].accepted == s.all[i].received + s.all[i].queue && |s.all[i].queue| <= CAPACITY
  {
    ReachableInv(s);
    assert StreamOk(s.all[i], Mapped(s, i));
  }

  /** A goroutine only finalizes a closed stream, so its early return for an open one is never
      taken; unless the stream was cancelled, every accepted token has been received by then. */
  lemma FinalizesClosed(s: State, i: nat)
    requires Reachable(s) && i in s.all && Ended(s.all[i].runner)
    ensures s.all[i].closed
    ensures !s.all[i].cancelled ==> s.all[i].received == s.all[i].accepted
  {
    ReachableInv(s);
    assert StreamOk(s.all[i], Mapped(s, i));
  }

  /** A stream whose goroutine has ended is closed, cancelled, signalled and out of the map. */
  lemma FinishedStream(s: State, i: nat)
    requires Reachable(s) && i in s.all && s.all[i].runner == Exited
    ensures Stopped(s.all[i]) && s.all[i].ready == 1 && s.all[i].done == 1
    ensures forall k :: k in s.streams ==> s.streams[k] != i
  {
    ReachableInv(s);
    assert StreamOk(s.all[i], Mapped(s, i));
  }

  /** A goroutine takes nothing out of the map but its own stream: a newer stream under the
      same key stays. */
  lemma RemovesOnlyItself(s: State, i: nat, act: Act, k: string)
    requires Reachable(s) && Enabled(s, Own(i, act))
    ensures var t := Step(s, Own(i, act));
      && (k in t.streams ==> k in s.streams && t.streams[k] == s.streams[k])
      && (k in s.streams && s.streams[k] != i ==> k in t.streams)
      && (k in s.streams && k !in t.streams ==> s.streams[k] == i && t.all[i].runner == Exited)
  {
    ReachableInv(s);
    assert StreamOk(s.all[i], Mapped(s, i));
    ActedOk(s.all[i], act, Mapped(s, i));
    hide Inv, StreamOk, Acted, Grown;
  }

  /** A generation cancel that has returned left no stream of its generation open and live,
      except one that another cancel took out of the map and has not stopped yet. */
  lemma GenerationCut(s: State, c: nat, i: nat)
    requires Reachable(s) && c in s.calls && Cuts(s.calls[c].kind) && s.calls[c].phase == Returned
    requires i in s.all && Of(s.all[i], s.calls[c].kind.epoch, s.calls[c].kind.playback)
    ensures Stopped(s.all[i]) || exists d :: d in s.calls && d != c && Awaits(s.calls[d].phase, i)
    ensures forall k :: k in s.streams ==> s.streams[k] != i
  {
    ReachableInv(s);
    assert CutOk(s.calls[c].kind, s) && Homed(s, i);
  }

  /** ... and no stream of the generations up to it is created, or fed by a new push. */
  lemma NothingOlderIsFed(s: State, c: nat, e: Event)
    requires Reachable(s) && c in s.calls && Cuts(s.calls[c].kind)
    requires Enabled(s, e) && e.Lookup? && TrimSpace(e.epoch) == s.calls[c].kind.epoch
    requires 1 <= e.playback <= s.calls[c].kind.playback
    ensures Step(s, e).all == s.all && Step(s, e).streams == s.streams && Step(s, e).calls[e.c] == Call(Push, Returned)
  {
    ReachableInv(s);
    assert CutOk(s.calls[c].kind, s);
  }

  lemma MarkRises(s: State, e: Event, epoch: string)
    requires Enabled(s, e)
    ensures Mark(s.marks, epoch) <= Mark(Step(s, e).marks, epoch)
  {
    hide GenerationCancelled, OfGeneration, MappedStreams, After, Sent, Acted, CanAct;
    match e
    case Lookup(_, _, _, _, _, _, _) =>
    case Send(_) =>
    case Find(_, _, _) =>
    case CloseStream(_) =>
    case CaptureGeneration(_, _, _) =>
    case CaptureAll(_) =>
    case CaptureSome(_, _) =>
    case NextVictim(_, _) =>
    case VictimOp(_) =>
    case CancelsDone(_) =>
    case Own(_, _) =>
  }

  lemma {:induction false} MarkNeverFalls(s: State, events: seq<Event>, epoch: string)
    requires CanRun(s, events)
    ensures Mark(s.marks, epoch) <= Mark(Run(s, events).marks, epoch)
    decreases |events|
  {
    if events != [] {
      MarkRises(s, events[0], epoch);
      hide Step, Enabled;
      MarkNeverFalls(Step(s, events[0]), events[1..], epoch);
    }
  }
}
