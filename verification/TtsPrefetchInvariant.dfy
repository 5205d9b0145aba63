/** What every step of the prefetch streams keeps. */
module TtsPrefetchInvariant {
  import opened Options
  import opened Text
  import opened TtsPrefetch

  // ---- scripts ----

  predicate Effect(stream: Stream, op: Op) {
    match op
    case CloseQueue => stream.closed
    case CancelCtx => stream.cancelled
    case CloseReady => stream.ready == 1
    case CloseDone => stream.done == 1
    case Unmap => true
  }

  /** `ops` is what is left of `whole`, and the part before it has taken effect. */
  predicate Progress(stream: Stream, whole: seq<Op>, ops: seq<Op>) {
    && |ops| <= |whole|
    && ops == whole[|whole| - |ops|..]
    && forall j :: 0 <= j < |whole| - |ops| ==> Effect(stream, whole[j])
  }

  /** True of a stream whatever its goroutine is doing. */
  predicate Base(stream: Stream) {
    && stream.closes == (if stream.closed then 1 else 0)
    && stream.lateSends == 0
    && stream.accepted == stream.received + stream.queue
    && |stream.queue| <= CAPACITY
    && stream.ready <= 1 && stream.done <= stream.ready
    && (stream.cancelled ==> stream.closed)
  }

  /** `b` is `a` later on. */
  predicate Grown(a: Stream, b: Stream) {
    && b.key == a.key && b.trace == a.trace && b.epoch == a.epoch && b.playback == a.playback
    && (a.closed ==> b.closed) && (a.cancelled ==> b.cancelled)
    && a.ready <= b.ready && a.done <= b.done && a.accepted <= b.accepted && a.received <= b.received
  }

  lemma ProgressFresh(stream: Stream, whole: seq<Op>)
    ensures Progress(stream, whole, whole)
  {
  }

  lemma ProgressGrown(a: Stream, b: Stream, whole: seq<Op>, ops: seq<Op>)
    requires Progress(a, whole, ops) && Grown(a, b) && Base(b)
    ensures Progress(b, whole, ops)
  {
    forall j | 0 <= j < |whole| - |ops| ensures Effect(b, whole[j]) {
      assert Effect(a, whole[j]);
    }
  }

  /** One operation of either script, whatever the goroutine does next. */
  lemma ScriptStep(a: Stream, b: Stream, whole: seq<Op>, ops: seq<Op>)
    requires ops != [] && Progress(a, whole, ops) && Base(a)
    requires whole == STALE_OPS || whole == SIGNAL_OPS || (whole == EXIT_OPS && a.closed)
    requires b == After(a, ops[0]).(runner := b.runner)
    ensures Base(b) && Grown(a, b) && Progress(b, whole, ops[1..])
    ensures |ops| == 1 ==> b.done == 1 && (whole != SIGNAL_OPS ==> b.closed && b.cancelled)
    ensures ops[0] == Unmap ==> |ops| == 1
  {
    var k := |whole| - |ops|;
    assert ops[0] == whole[k];
    if k > 0 { assert Effect(a, whole[k - 1]); }
    if whole == STALE_OPS && k > 0 { assert Effect(a, whole[0]); }
    if k > 1 { assert Effect(a, whole[k - 2]); }
    if k > 2 { assert Effect(a, whole[k - 3]); }
    forall j | 0 <= j < |whole| - |ops[1..]| ensures Effect(b, whole[j]) {
      if j < k { assert Effect(a, whole[j]); }
    }
  }

  // ---- one stream ----

  predicate Ended(runner: Runner) {
    runner.Finalizing? || (runner.Staling? && runner.final)
    || runner.Signalling? || runner.Exiting? || runner.Exited?
  }

  /** The script a goroutine is in. */
  function Whole(runner: Runner): seq<Op>
    requires Scripted(runner)
  {
    if runner.Staling? then STALE_OPS else if runner.Signalling? then SIGNAL_OPS else EXIT_OPS
  }

  predicate StreamOk(stream: Stream, mapped: bool) {
    && Base(stream)
    && (Ended(stream.runner) ==> stream.closed && (stream.queue == [] || stream.cancelled))
    && (Scripted(stream.runner) ==> stream.runner.ops != [] && Progress(stream, Whole(stream.runner), stream.runner.ops))
    && (stream.runner.Exited? ==> stream.cancelled && stream.done == 1 && !mapped)
  }

  predicate Stopped(stream: Stream) { stream.closed && stream.cancelled }

  // ---- one call ----

  predicate Awaits(phase: Phase, i: nat) {
    phase.Cancelling? && (i in phase.pending || (phase.work.Some? && phase.work.value.stream == i))
  }

  predicate PhaseOk(phase: Phase, all: map<nat, Stream>) {
    match phase
    case Sending(i, _) => i in all
    case Closing(i, _) => i in all
    case Cancelling(pending, work) =>
      && pending <= all.Keys
      && (work.Some? ==> work.value.stream in all && work.value.ops != []
                         && Progress(all[work.value.stream], STALE_OPS, work.value.ops))
    case Returned => true
  }

  predicate Cuts(kind: Kind) { kind.CancelGeneration? && kind.epoch != "" && kind.playback != 0 }

  /** From its capture on, a generation cancel keeps its generation out of the map. */
  ghost predicate CutOk(kind: Kind, s: State) {
    Cuts(kind) ==>
      && TrimSpace(kind.epoch) == kind.epoch
      && kind.playback <= Mark(s.marks, kind.epoch)
      && forall i :: i in s.all && Mapped(s, i) ==> !Of(s.all[i], kind.epoch, kind.playback)
  }

  // ---- the whole ----

  ghost predicate Keys(s: State) {
    forall k :: k in s.streams ==> s.streams[k] in s.all && s.all[s.streams[k]].key == k
  }

  ghost predicate Streams(s: State) {
    forall i :: i in s.all ==> StreamOk(s.all[i], Mapped(s, i))
  }

  ghost predicate Phases(s: State) {
    forall c :: c in s.calls ==> PhaseOk(s.calls[c].phase, s.all)
  }

  /** A stream is in the map, stopped, or still to be stopped by a call that unmapped it. */
  ghost predicate Homed(s: State, i: nat)
    requires i in s.all
  {
    Mapped(s, i) || Stopped(s.all[i]) || exists c :: c in s.calls && Awaits(s.calls[c].phase, i)
  }

  ghost predicate AllHomed(s: State) {
    forall i :: i in s.all ==> Homed(s, i)
  }

  ghost predicate Cut(s: State) {
    forall c :: c in s.calls ==> CutOk(s.calls[c].kind, s)
  }

  ghost predicate Inv(s: State) { Keys(s) && Streams(s) && Phases(s) && AllHomed(s) && Cut(s) }

  lemma StartInv()
    ensures Inv(START)
  {
  }

  // ---- two kinds of step ----

  lemma PhaseFrame(phase: Phase, a: map<nat, Stream>, b: map<nat, Stream>)
    requires PhaseOk(phase, a)
    requires forall i :: i in a ==> i in b && Grown(a[i], b[i]) && Base(b[i])
    ensures PhaseOk(phase, b)
  {
    if phase.Cancelling? && phase.work.Some? {
      var i := phase.work.value.stream;
      ProgressGrown(a[i], b[i], STALE_OPS, phase.work.value.ops);
    }
  }

  ghost predicate OneStream(s: State, t: State, i: nat) {
    && i in s.all && i in t.all
    && t == s.(all := s.all[i := t.all[i]], streams := t.streams)
    && (t.streams == s.streams || (Mapped(s, i) && Stopped(t.all[i]) && t.streams == s.streams - {s.all[i].key}))
    && Grown(s.all[i], t.all[i]) && StreamOk(t.all[i], Mapped(t, i))
  }

  lemma OtherStream(s: State, t: State, i: nat, j: nat)
    requires Inv(s) && OneStream(s, t, i) && j in t.all
    ensures j in s.all && Grown(s.all[j], t.all[j]) && (Mapped(t, j) ==> Mapped(s, j))
    ensures StreamOk(t.all[j], Mapped(t, j)) && Homed(t, j)
  {
    hide Progress;
    assert StreamOk(s.all[j], Mapped(s, j)) && Homed(s, j);
  }

  /** A step that changes one stream, and the map at most by taking that stream out. */
  lemma StreamMove(s: State, t: State, i: nat)
    requires Inv(s) && OneStream(s, t, i)
    ensures Inv(t)
  {
    forall j | j in t.all
      ensures j in s.all && Grown(s.all[j], t.all[j]) && Base(t.all[j]) && (Mapped(t, j) ==> Mapped(s, j))
      ensures StreamOk(t.all[j], Mapped(t, j)) && Homed(t, j)
    {
      OtherStream(s, t, i, j);
    }
    MapOf(s, t, i);
    hide Progress, Homed, StreamOk, Base;
    forall c | c in t.calls ensures PhaseOk(t.calls[c].phase, t.all) && CutOk(t.calls[c].kind, t) {
      PhaseFrame(s.calls[c].phase, s.all, t.all);
      assert CutOk(s.calls[c].kind, s);
      CutFrame(s, t, s.calls[c].kind);
      hide PhaseOk, CutOk;
    }
  }

  lemma MapOf(s: State, t: State, i: nat)
    requires Keys(s) && OneStream(s, t, i)
    ensures Keys(t)
  {
    hide StreamOk;
  }

  lemma CutFrame(s: State, t: State, kind: Kind)
    requires CutOk(kind, s) && t.marks == s.marks
    requires forall j :: j in t.all ==> j in s.all && Grown(s.all[j], t.all[j]) && (Mapped(t, j) ==> Mapped(s, j))
    ensures CutOk(kind, t)
  {
  }

  /** A step that changes one call, and lets go of no stream that is not stopped. */
  lemma CallMove(s: State, t: State, c: nat)
    requires Inv(s) && c in t.calls && t == s.(calls := s.calls[c := t.calls[c]])
    requires PhaseOk(t.calls[c].phase, t.all) && CutOk(t.calls[c].kind, t)
    requires forall i :: i in s.all && c in s.calls && Awaits(s.calls[c].phase, i) ==>
                           Awaits(t.calls[c].phase, i) || Stopped(s.all[i])
    ensures Inv(t)
  {
    hide Progress, StreamOk, PhaseOk;
    forall i | i in t.all ensures Homed(t, i) {
      assert Homed(s, i);
      if !Mapped(t, i) && !Stopped(t.all[i]) {
        var d :| d in s.calls && Awaits(s.calls[d].phase, i);
        assert d in t.calls && Awaits(t.calls[d].phase, i);
      }
    }
    forall d | d in t.calls ensures CutOk(t.calls[d].kind, t) {
      assert d in s.calls ==> CutOk(s.calls[d].kind, s);
    }
  }

  // ---- the goroutine of a stream ----

  lemma NoUnmap(stream: Stream, whole: seq<Op>, ops: seq<Op>)
    requires ops != [] && Progress(stream, whole, ops) && (whole == STALE_OPS || whole == SIGNAL_OPS)
    ensures ops[0] != Unmap
  {
    assert ops[0] == whole[|whole| - |ops|];
  }

  /** What a goroutine does next to its stream. */
  lemma ActedOk(a: Stream, act: Act, mapped: bool)
    requires StreamOk(a, mapped) && CanAct(a, act)
    ensures Grown(a, Acted(a, act)) && StreamOk(Acted(a, act), mapped && !Unmaps(a, act))
    ensures Unmaps(a, act) ==> Stopped(a) && Acted(a, act).runner == Exited
  {
    var b := Acted(a, act);
    match act
    case NextOp => hide Progress, Grown, StreamOk, Base, Operated; ScriptOk(a, mapped);
    case GoStale => ProgressFresh(b, STALE_OPS); hide Progress, Base;
    case FinalDone => ProgressFresh(b, EXIT_OPS); hide Progress, Base;
    case FinalSpoken => ProgressFresh(b, SIGNAL_OPS); hide Progress, Base;
    case _ => hide Progress, Whole;
  }

  lemma Operation(a: Stream, mapped: bool)
    requires StreamOk(a, mapped) && Scripted(a.runner)
    ensures var b, ops := Operated(a), a.runner.ops;
      && Base(b) && Grown(a, b) && b.queue == a.queue && Progress(b, Whole(a.runner), ops[1..])
      && (|ops| == 1 ==> b.done == 1 && (!a.runner.Signalling? ==> Stopped(b)))
      && (a.runner.Exiting? ==> (ops[0] == Unmap <==> |ops| == 1) && (ops[0] == Unmap ==> Stopped(a)))
  {
    var b, ops := Operated(a), a.runner.ops;
    AfterQueue(a, ops[0]);
    if a.runner.Exiting? { LastIsUnmap(a, ops); }
    hide Progress, Grown, AfterOp;
    ScriptStep(a, b, Whole(a.runner), ops);
    hide After, Base;
  }

  lemma ScriptOk(a: Stream, mapped: bool)
    requires StreamOk(a, mapped) && Scripted(a.runner)
    ensures var b := Operated(a);
      && Grown(a, b) && StreamOk(b, mapped && !Unmaps(a, NextOp))
      && (Unmaps(a, NextOp) ==> Stopped(a) && b.runner == Exited)
  {
    var b := Operated(a);
    Operation(a, mapped);
    ProgressFresh(b, EXIT_OPS);
    assert b.runner == AfterOp(a.runner);
    assert (a.closed ==> b.closed) && (a.cancelled ==> b.cancelled);
    hide Progress, After, Operated, Grown, Base, AfterOp;
    TurnOk(a, b, mapped && !Unmaps(a, NextOp));
  }

  lemma TurnOk(a: Stream, b: Stream, mapped: bool)
    requires Scripted(a.runner) && a.runner.ops != [] && b.runner == AfterOp(a.runner)
    requires Base(b) && (Ended(a.runner) ==> b.closed && (b.queue == [] || b.cancelled))
    requires Progress(b, Whole(a.runner), a.runner.ops[1..]) && Progress(b, EXIT_OPS, EXIT_OPS)
    requires |a.runner.ops| == 1 ==> b.done == 1 && (!a.runner.Signalling? ==> Stopped(b))
    requires a.runner.Exiting? && mapped ==> |a.runner.ops| > 1
    ensures StreamOk(b, mapped)
  {
    hide Progress, Base;
  }

  lemma AfterQueue(a: Stream, op: Op)
    ensures After(a, op).queue == a.queue && After(a, op).runner == a.runner
    ensures op == Unmap ==> After(a, op) == a
  {
  }

  lemma OwnChange(s: State, i: nat, act: Act)
    requires Inv(s) && Enabled(s, Own(i, act))
    ensures OneStream(s, OwnStep(s, i, act), i)
  {
    var t, a := OwnStep(s, i, act), s.all[i];
    assert StreamOk(a, Mapped(s, i));
    ActedOk(a, act, Mapped(s, i));
    hide Inv, StreamOk, Acted, Unmaps;
    assert t.all[i].key == a.key && (Stopped(a) ==> Stopped(t.all[i]));
    hide Grown, Stopped;
  }

  lemma OwnKeeps(s: State, i: nat, act: Act)
    requires Inv(s) && Enabled(s, Own(i, act))
    ensures Inv(Step(s, Own(i, act)))
  {
    OwnChange(s, i, act);
    hide Inv, OneStream, OwnStep;
    StreamMove(s, OwnStep(s, i, act), i);
  }

  lemma LastIsUnmap(stream: Stream, ops: seq<Op>)
    requires ops != [] && Progress(stream, EXIT_OPS, ops)
    ensures ops[0] == Unmap <==> |ops| == 1
  {
    assert ops[0] == EXIT_OPS[|EXIT_OPS| - |ops|];
  }

  // ---- calls ----

  /** Somebody else than its goroutine changes a stream. */
  lemma Touched(s: State, i: nat, b: Stream)
    requires Inv(s) && i in s.all && Grown(s.all[i], b) && Base(b)
    requires b.runner == s.all[i].runner && (s.all[i].closed ==> b.queue == s.all[i].queue)
    ensures Inv(WithStream(s, i, b))
  {
    var a := s.all[i];
    assert StreamOk(a, Mapped(s, i));
    if Scripted(a.runner) { ProgressGrown(a, b, Whole(a.runner), a.runner.ops); }
    assert StreamOk(b, Mapped(s, i)) by { hide Progress; }
    assert b.key == s.all[i].key;
    hide StreamOk, Grown, Base, Inv;
    StreamMove(s, WithStream(s, i, b), i);
  }

  lemma SendKeeps(s: State, c: nat)
    requires Inv(s) && Enabled(s, Send(c))
    ensures Inv(Step(s, Send(c)))
  {
    var i := s.calls[c].phase.stream;
    var sent := Sent(s.all[i], s.calls[c].phase.token);
    assert StreamOk(s.all[i], Mapped(s, i));
    hide Inv;
    Touched(s, i, sent);
    hide Sent, StreamOk, Base, Grown;
    CallMove(WithStream(s, i, sent), Step(s, Send(c)), c);
  }

  lemma CloseStreamKeeps(s: State, c: nat)
    requires Inv(s) && Enabled(s, CloseStream(c))
    ensures Inv(Step(s, CloseStream(c)))
  {
    var i, t, trace := s.calls[c].phase.stream, Step(s, CloseStream(c)), s.calls[c].phase.trace;
    var b := After(s.all[i], CloseQueue);
    assert StreamOk(s.all[i], Mapped(s, i));
    hide Inv, TrimSpace;
    assert Base(b) && Grown(s.all[i], b) && b.runner == s.all[i].runner && b.queue == s.all[i].queue;
    hide After, StreamOk, Base, Grown;
    if TrimSpace(trace) == "" || s.all[i].trace != trace {
      CallMove(s, t, c);
    } else {
      Touched(s, i, b);
      CallMove(WithStream(s, i, b), t, c);
    }
  }

  /** The next operation of a cancel on its victim. */
  lemma VictimStep(s: State, c: nat, b: Stream)
    requires Inv(s) && Busy(s, c)
    requires var script := s.calls[c].phase.work.value; b == After(s.all[script.stream], script.ops[0])
    ensures var i, ops := s.calls[c].phase.work.value.stream, s.calls[c].phase.work.value.ops;
      && Grown(s.all[i], b) && Base(b) && b.runner == s.all[i].runner && b.queue == s.all[i].queue
      && ops[0] != Unmap && (|ops| == 1 ==> Stopped(b))
      && PhaseOk(VictimOpStep(s, c).calls[c].phase, s.all[i := b])
  {
    var script := s.calls[c].phase.work.value;
    assert StreamOk(s.all[script.stream], Mapped(s, script.stream)) && PhaseOk(s.calls[c].phase, s.all);
    hide Inv, StreamOk;
    ScriptStep(s.all[script.stream], b, STALE_OPS, script.ops);
    NoUnmap(s.all[script.stream], STALE_OPS, script.ops);
    AfterQueue(s.all[script.stream], script.ops[0]);
    hide Progress, Base, Grown, After, Awaits;
  }

  lemma VictimOpKeeps(s: State, c: nat)
    requires Inv(s) && Enabled(s, VictimOp(c))
    ensures Inv(Step(s, VictimOp(c)))
  {
    var i := s.calls[c].phase.work.value.stream;
    var b := After(s.all[i], s.calls[c].phase.work.value.ops[0]);
    hide Inv, StreamOk, Progress, Base, Grown, PhaseOk, After;
    VictimStep(s, c, b);
    Touched(s, i, b);
    MidCut(s, WithStream(s, i, b), c);
    CallMove(WithStream(s, i, b), VictimOpStep(s, c), c);
  }

  lemma MidCut(s: State, t: State, c: nat)
    requires Inv(t) && c in s.calls && t.calls == s.calls
    ensures PhaseOk(t.calls[c].phase, t.all) && CutOk(t.calls[c].kind, t)
  {
  }

  predicate Moves(e: Event) { e.Find? || e.CaptureSome? || e.CancelsDone? }

  lemma MoveKeeps(s: State, e: Event)
    requires Inv(s) && Enabled(s, e) && Moves(e)
    ensures Inv(Step(s, e))
  {
    if e.c in s.calls { MidCut(s, s, e.c); }
    assert e.Find? && e.key in s.streams ==> s.streams[e.key] in s.all;
    hide Inv, Progress, StreamOk;
    match e
    case Find(c, _, _) => CallMove(s, Step(s, e), c);
    case CaptureSome(c, _) => CallMove(s, Step(s, e), c);
    case CancelsDone(c) => CallMove(s, Step(s, e), c);
  }

  lemma NextVictimKeeps(s: State, c: nat, i: nat)
    requires Inv(s) && Enabled(s, NextVictim(c, i))
    ensures Inv(Step(s, NextVictim(c, i)))
  {
    MidCut(s, s, c);
    ProgressFresh(s.all[i], STALE_OPS);
    hide Inv, Progress;
    CallMove(s, Step(s, NextVictim(c, i)), c);
  }

  /** The state with a new stream under a free key. */
  function Created(s: State, c: nat, made: nat, stream: Stream, token: string): State {
    WithCall(WithStream(s, made, stream), c, Call(Push, Sending(made, token))).(streams := s.streams[stream.key := made])
  }

  lemma CreatedStream(s: State, c: nat, made: nat, stream: Stream, token: string, i: nat)
    requires Inv(s) && c !in s.calls && made !in s.all && stream.key !in s.streams
    requires Base(stream) && stream.runner == Receiving
    requires i in Created(s, c, made, stream, token).all
    ensures var t := Created(s, c, made, stream, token);
      StreamOk(t.all[i], Mapped(t, i)) && Homed(t, i) && (i != made ==> i in s.all && (Mapped(t, i) <==> Mapped(s, i)))
  {
    hide Progress, Base;
    if i in s.all {
      var t := Created(s, c, made, stream, token);
      assert i != made && StreamOk(s.all[i], Mapped(s, i)) && Homed(s, i);
      assert Mapped(t, i) <==> Mapped(s, i);
      assert forall d :: d in s.calls ==> d in t.calls && t.calls[d] == s.calls[d];
    }
  }

  lemma CreateKeeps(s: State, c: nat, made: nat, stream: Stream, token: string)
    requires Inv(s) && c !in s.calls && made !in s.all && stream.key !in s.streams
    requires Base(stream) && stream.runner == Receiving
    requires !GenerationCancelled(s.marks, stream.epoch, stream.playback)
    ensures Inv(Created(s, c, made, stream, token))
  {
    var t := Created(s, c, made, stream, token);
    forall i | i in t.all
      ensures StreamOk(t.all[i], Mapped(t, i)) && Homed(t, i) && (i != made ==> i in s.all && (Mapped(t, i) <==> Mapped(s, i)))
    {
      hide Inv;
      CreatedStream(s, c, made, stream, token, i);
    }
    CreatedKeys(s, c, made, stream, token);
    hide StreamOk, Homed, Keys;
    forall d | d in t.calls ensures PhaseOk(t.calls[d].phase, t.all) && CutOk(t.calls[d].kind, t) {
      if d in s.calls { CreatedCall(s, c, made, stream, token, d); }
    }
    hide PhaseOk, CutOk, Mapped;
  }

  lemma CreatedKeys(s: State, c: nat, made: nat, stream: Stream, token: string)
    requires Keys(s) && made !in s.all
    ensures Keys(Created(s, c, made, stream, token))
  {
  }

  lemma CreatedCall(s: State, c: nat, made: nat, stream: Stream, token: string, d: nat)
    requires Inv(s) && made !in s.all && d in s.calls && d != c
    requires !GenerationCancelled(s.marks, stream.epoch, stream.playback)
    requires var t := Created(s, c, made, stream, token); forall i :: i in s.all ==> (Mapped(t, i) <==> Mapped(s, i))
    ensures var t := Created(s, c, made, stream, token); PhaseOk(t.calls[d].phase, t.all) && CutOk(t.calls[d].kind, t)
  {
    assert PhaseOk(s.calls[d].phase, s.all) && CutOk(s.calls[d].kind, s);
    hide Inv, Progress;
  }

  lemma LookupKeeps(s: State, e: Event)
    requires Inv(s) && Enabled(s, e) && e.Lookup?
    ensures Inv(Step(s, e))
  {
    var stream := NewStream(e.key, e.trace, e.epoch, e.playback);
    TrimIdempotent(IsSpace, e.epoch);
    assert e.key in s.streams ==> s.streams[e.key] in s.all;
    if GenerationCancelled(s.marks, e.epoch, e.playback) || e.key in s.streams {
      hide Inv;
      CallMove(s, Step(s, e), e.c);
    } else {
      assert Base(stream);
      hide Inv, Base;
      CreateKeeps(s, e.c, e.made, stream, e.token);
    }
  }

  /** A cancel takes some streams out of the map and is going to stop each of them. */
  lemma CaptureKeeps(s: State, t: State, c: nat, gone: set<nat>)
    requires Inv(s) && c !in s.calls && c in t.calls && gone <= s.all.Keys
    requires t == s.(streams := Without(s.streams, gone), marks := t.marks, calls := s.calls[c := t.calls[c]])
    requires t.calls[c].phase == Cancelling(gone, None) && CutOk(t.calls[c].kind, t)
    requires forall epoch :: Mark(s.marks, epoch) <= Mark(t.marks, epoch)
    ensures Inv(t)
  {
    hide Progress, Base;
    forall i | i in t.all
      ensures StreamOk(t.all[i], Mapped(t, i)) && Homed(t, i) && (Mapped(t, i) ==> Mapped(s, i))
    {
      assert StreamOk(s.all[i], Mapped(s, i)) && Homed(s, i);
      assert Mapped(t, i) <==> Mapped(s, i) && i !in gone;
      assert c in t.calls && (i in gone ==> Awaits(t.calls[c].phase, i));
      assert forall d :: d in s.calls ==> d in t.calls && t.calls[d] == s.calls[d];
    }
    hide StreamOk, Homed;
    forall d | d in t.calls ensures PhaseOk(t.calls[d].phase, t.all) && CutOk(t.calls[d].kind, t) {
      if d != c { assert PhaseOk(s.calls[d].phase, s.all) && CutOk(s.calls[d].kind, s); }
    }
  }

  lemma CaptureAllKeeps(s: State, c: nat)
    requires Inv(s) && Enabled(s, CaptureAll(c))
    ensures Inv(Step(s, CaptureAll(c)))
  {
    var t := Step(s, CaptureAll(c));
    assert forall k :: k in s.streams ==> Mapped(s, s.streams[k]) && s.streams[k] in MappedStreams(s);
    assert t.streams == Without(s.streams, MappedStreams(s));
    hide Inv;
    CaptureKeeps(s, t, c, MappedStreams(s));
  }

  lemma CaptureGenerationKeeps(s: State, c: nat, epoch: string, playback: nat)
    requires Inv(s) && Enabled(s, CaptureGeneration(c, epoch, playback))
    ensures Inv(Step(s, CaptureGeneration(c, epoch, playback)))
  {
    var t, trimmed := Step(s, CaptureGeneration(c, epoch, playback)), TrimSpace(epoch);
    TrimIdempotent(IsSpace, epoch);
    hide Inv;
    if trimmed == "" || playback == 0 {
      CallMove(s, t, c);
    } else {
      CaptureKeeps(s, t, c, OfGeneration(s, trimmed, playback));
    }
  }

  /** Every step of every interleaving keeps the invariant. */
  lemma StepKeepsInv(s: State, e: Event)
    requires Inv(s) && Enabled(s, e)
    ensures Inv(Step(s, e))
  {
    hide Inv, Enabled, Step;
    match e
    case Lookup(_, _, _, _, _, _, _) => LookupKeeps(s, e);
    case Send(c) => SendKeeps(s, c);
    case CloseStream(c) => CloseStreamKeeps(s, c);
    case CaptureGeneration(c, epoch, playback) => CaptureGenerationKeeps(s, c, epoch, playback);
    case CaptureAll(c) => CaptureAllKeeps(s, c);
    case VictimOp(c) => VictimOpKeeps(s, c);
    case Own(i, act) => OwnKeeps(s, i, act);
    case NextVictim(c, i) => NextVictimKeeps(s, c, i);
    case _ => MoveKeeps(s, e);
  }

  lemma {:induction false} RunKeepsInv(s: State, events: seq<Event>)
    requires Inv(s) && CanRun(s, events)
    ensures Inv(Run(s, events))
    decreases |events|
  {
    if events != [] {
      StepKeepsInv(s, events[0]);
      hide Inv, Step, Enabled;
      RunKeepsInv(Step(s, events[0]), events[1..]);
    }
  }

  lemma ReachableInv(s: State)
    requires Reachable(s)
    ensures Inv(s)
  {
    var events :| CanRun(START, events) && s == Run(START, events);
    StartInv();
    RunKeepsInv(START, events);
  }
}
