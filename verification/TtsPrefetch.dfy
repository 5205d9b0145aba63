/** Prefetch streams of the idle-chat speech: callers push tokens, close and cancel while one
    goroutine per stream consumes. One event is one lock section, channel operation or call of
    a context's cancel; every interleaving of the events is a run. */
module TtsPrefetch {
  import opened Options
  import opened Text

  /** The pieces of cancelForStale and of the deferred calls of a stream's goroutine. */
  datatype Op = CloseQueue | CancelCtx | CloseReady | CloseDone | Unmap

  const STALE_OPS := [CloseQueue, CancelCtx, CloseReady, CloseDone]
  const SIGNAL_OPS := [CloseReady, CloseDone]
  const EXIT_OPS := [CloseReady, CloseDone, CancelCtx, Unmap]

  /** What a stream's goroutine is doing. A stale token or a failed push makes it run
      cancelForStale on its own stream, while consuming or while finalizing. A final event
      that is spoken whole signals Done when it ends, before the deferred calls do. */
  datatype Runner =
    | Receiving | Took(token: string) | Consuming | Finalizing
    | Staling(ops: seq<Op>, final: bool)
    | Signalling(ops: seq<Op>)
    | Exiting(ops: seq<Op>)
    | Exited

  /** `closes` counts the closes of the token channel and `lateSends` the sends after one;
      `ready` and `done` count the closes of the lifecycle channels. */
  datatype Stream = Stream(
    key: string, trace: string, epoch: string, playback: nat,
    queue: seq<string>, accepted: seq<string>, received: seq<string>,
    closed: bool, closes: nat, lateSends: nat,
    cancelled: bool, ready: nat, done: nat, runner: Runner)

  datatype Script = Script(stream: nat, ops: seq<Op>)

  datatype Kind = Push | Close | CancelGeneration(epoch: string, playback: nat) | OtherCancel

  datatype Phase =
    | Sending(stream: nat, token: string)
    | Closing(stream: nat, trace: string)
    | Cancelling(pending: set<nat>, work: Option<Script>)
    | Returned

  datatype Call = Call(kind: Kind, phase: Phase)

  /** `streams` is the manager's map by key; `all` holds every stream ever created. */
  datatype State = State(
    streams: map<string, nat>, marks: map<string, nat>, all: map<nat, Stream>, calls: map<nat, Call>)

  const START := State(map[], map[], map[], map[])

  const CAPACITY := 128

  function Mark(marks: map<string, nat>, epoch: string): nat {
    if epoch in marks then marks[epoch] else 0
  }

  predicate GenerationCancelled(marks: map<string, nat>, epoch: string, playback: nat) {
    TrimSpace(epoch) != "" && playback != 0 && playback <= Mark(marks, TrimSpace(epoch))
  }

  function WithStream(s: State, i: nat, stream: Stream): State { s.(all := s.all[i := stream]) }

  function WithCall(s: State, c: nat, call: Call): State { s.(calls := s.calls[c := call]) }

  predicate Mapped(s: State, i: nat)
    requires i in s.all
  {
    s.all[i].key in s.streams && s.streams[s.all[i].key] == i
  }

  // ---- single operations ----

  function After(stream: Stream, op: Op): Stream {
    match op
    case CloseQueue => if stream.closed then stream else stream.(closed := true, closes := stream.closes + 1)
    case CancelCtx => stream.(cancelled := true)
    case CloseReady => if stream.ready == 0 then stream.(ready := 1) else stream
    case CloseDone => if stream.done == 0 then stream.(done := 1) else stream
    case Unmap => stream
  }

  function NewStream(key: string, trace: string, epoch: string, playback: nat): Stream {
    Stream(key, trace, TrimSpace(epoch), playback, [], [], [], false, 0, 0, false, 0, 0, Receiving)
  }

  /** The send of `enqueue`: an empty token, a closed stream and a full channel drop it. */
  function Sent(stream: Stream, token: string): Stream {
    if TrimSpace(token) == "" || stream.closed || |stream.queue| >= CAPACITY then stream
    else stream.(queue := stream.queue + [TrimSpace(token)], accepted := stream.accepted + [TrimSpace(token)],
                 lateSends := stream.lateSends + (if stream.closes > 0 then 1 else 0))
  }

  // ---- the goroutine of a stream ----

  datatype Act =
    | Receive | CheckCtx | SignalReady | GoStale | TokenDone | FinalDone | FinalSpoken
    | NextOp

  predicate CanAct(stream: Stream, act: Act) {
    match act
    case Receive => stream.runner == Receiving && (stream.queue != [] || stream.closed)
    case CheckCtx => stream.runner.Took?
    case SignalReady => stream.runner == Consuming || stream.runner == Finalizing
    case GoStale => stream.runner == Consuming || stream.runner == Finalizing
    case TokenDone => stream.runner == Consuming
    case FinalDone => stream.runner == Finalizing
    case FinalSpoken => stream.runner == Finalizing
    case NextOp => Scripted(stream.runner) && stream.runner.ops != []
  }

  /** What its goroutine does next to a stream. */
  function Acted(stream: Stream, act: Act): Stream
    requires CanAct(stream, act)
  {
    match act
    case Receive =>
      if stream.queue == [] then stream.(runner := Finalizing)
      else stream.(queue := stream.queue[1..], received := stream.received + [stream.queue[0]], runner := Took(stream.queue[0]))
    case CheckCtx => stream.(runner := if stream.cancelled then Finalizing else Consuming)
    case SignalReady => After(stream, CloseReady)
    case GoStale => stream.(runner := Staling(STALE_OPS, stream.runner == Finalizing))
    case TokenDone => stream.(runner := Receiving)
    case FinalDone => stream.(runner := Exiting(EXIT_OPS))
    case FinalSpoken => stream.(runner := Signalling(SIGNAL_OPS))
    case NextOp => Operated(stream)
  }

  predicate Scripted(runner: Runner) { runner.Staling? || runner.Signalling? || runner.Exiting? }

  /** Where a goroutine stands after the next operation of the script it is in. */
  function AfterOp(runner: Runner): Runner
    requires Scripted(runner) && runner.ops != []
  {
    match runner
    case Staling(ops, final) =>
      if |ops| > 1 then Staling(ops[1..], final) else if final then Exiting(EXIT_OPS) else Consuming
    case Signalling(ops) => if |ops| > 1 then Signalling(ops[1..]) else Exiting(EXIT_OPS)
    case Exiting(ops) => if |ops| > 1 then Exiting(ops[1..]) else Exited
  }

  /** The next operation of the script a goroutine is in. */
  function Operated(stream: Stream): Stream
    requires Scripted(stream.runner) && stream.runner.ops != []
  {
    After(stream, stream.runner.ops[0]).(runner := AfterOp(stream.runner))
  }

  predicate Unmaps(stream: Stream, act: Act)
    requires CanAct(stream, act)
  {
    act.NextOp? && stream.runner.Exiting? && stream.runner.ops[0] == Unmap
  }

  // ---- steps ----

  predicate Of(stream: Stream, epoch: string, playback: nat) { stream.epoch == epoch && stream.playback == playback }

  function MappedStreams(s: State): set<nat> { set i | i in s.all && Mapped(s, i) }

  function OfGeneration(s: State, epoch: string, playback: nat): set<nat> {
    set i | i in s.all && Mapped(s, i) && Of(s.all[i], epoch, playback)
  }

  function Without(streams: map<string, nat>, gone: set<nat>): map<string, nat> {
    map k | k in streams && streams[k] !in gone :: streams[k]
  }

  function Raised(marks: map<string, nat>, epoch: string, playback: nat): map<string, nat> {
    if playback > Mark(marks, epoch) then marks[epoch := playback] else marks
  }

  function Rest(script: Script): Option<Script>
    requires script.ops != []
  {
    if |script.ops| == 1 then None else Some(Script(script.stream, script.ops[1..]))
  }

  datatype Event =
    | Lookup(c: nat, made: nat, key: string, trace: string, epoch: string, playback: nat, token: string)
    | Send(c: nat)
    | Find(c: nat, key: string, trace: string) | CloseStream(c: nat)
    | CaptureGeneration(c: nat, epoch: string, playback: nat) | CaptureAll(c: nat) | CaptureSome(c: nat, chosen: set<nat>)
    | NextVictim(c: nat, i: nat) | VictimOp(c: nat) | CancelsDone(c: nat)
    | Own(i: nat, act: Act)

  predicate Busy(s: State, c: nat) {
    c in s.calls && s.calls[c].phase.Cancelling? && s.calls[c].phase.work.Some?
    && s.calls[c].phase.work.value.stream in s.all && s.calls[c].phase.work.value.ops != []
  }

  predicate Enabled(s: State, e: Event) {
    match e
    case Lookup(c, made, _, _, _, _, _) => c !in s.calls && made !in s.all
    case Send(c) => c in s.calls && s.calls[c].phase.Sending? && s.calls[c].phase.stream in s.all
    case Find(c, _, _) => c !in s.calls
    case CloseStream(c) => c in s.calls && s.calls[c].phase.Closing? && s.calls[c].phase.stream in s.all
    case CaptureGeneration(c, _, _) => c !in s.calls
    case CaptureAll(c) => c !in s.calls
    case CaptureSome(c, chosen) => c !in s.calls && chosen <= MappedStreams(s)
    case NextVictim(c, i) =>
      c in s.calls && s.calls[c].phase.Cancelling? && s.calls[c].phase.work.None? && i in s.calls[c].phase.pending
    case VictimOp(c) => Busy(s, c)
    case CancelsDone(c) =>
      c in s.calls && s.calls[c].phase.Cancelling? && s.calls[c].phase.work.None? && s.calls[c].phase.pending == {}
    case Own(i, act) => i in s.all && CanAct(s.all[i], act)
  }

  /** The lock section of `stream`: refuse, find or create. */
  function LookupStep(s: State, c: nat, made: nat, stream: Stream, epoch: string, token: string): State {
    if GenerationCancelled(s.marks, epoch, stream.playback) then WithCall(s, c, Call(Push, Returned))
    else if stream.key in s.streams then WithCall(s, c, Call(Push, Sending(s.streams[stream.key], token)))
    else WithCall(WithStream(s, made, stream), c, Call(Push, Sending(made, token))).(streams := s.streams[stream.key := made])
  }

  function CaptureGenerationStep(s: State, c: nat, epoch: string, playback: nat): State {
    if epoch == "" || playback == 0 then WithCall(s, c, Call(CancelGeneration(epoch, playback), Returned))
    else
      var victims := OfGeneration(s, epoch, playback);
      WithCall(s, c, Call(CancelGeneration(epoch, playback), Cancelling(victims, None)))
        .(streams := Without(s.streams, victims), marks := Raised(s.marks, epoch, playback))
  }

  function VictimOpStep(s: State, c: nat): State
    requires Busy(s, c)
  {
    var script := s.calls[c].phase.work.value;
    WithCall(WithStream(s, script.stream, After(s.all[script.stream], script.ops[0])), c,
             Call(s.calls[c].kind, Cancelling(s.calls[c].phase.pending, Rest(script))))
  }

  /** The last operation of a goroutine's exit takes its stream out of the map, if the map
      still holds this very stream. */
  function OwnStep(s: State, i: nat, act: Act): State
    requires i in s.all && CanAct(s.all[i], act)
  {
    WithStream(s, i, Acted(s.all[i], act))
      .(streams := if Unmaps(s.all[i], act) && Mapped(s, i) then s.streams - {s.all[i].key} else s.streams)
  }

  function Step(s: State, e: Event): State
    requires Enabled(s, e)
  {
    match e
    case Lookup(c, made, key, trace, epoch, playback, token) =>
      LookupStep(s, c, made, NewStream(key, trace, epoch, playback), epoch, token)
    case Send(c) =>
      var i := s.calls[c].phase.stream;
      WithCall(WithStream(s, i, Sent(s.all[i], s.calls[c].phase.token)), c, Call(s.calls[c].kind, Returned))
    case Find(c, key, trace) =>
      WithCall(s, c, Call(Close, if key in s.streams then Closing(s.streams[key], trace) else Returned))
    case CloseStream(c) =>
      var i := s.calls[c].phase.stream;
      var t := WithCall(s, c, Call(s.calls[c].kind, Returned));
      if TrimSpace(s.calls[c].phase.trace) == "" || s.all[i].trace != s.calls[c].phase.trace then t
      else WithStream(t, i, After(s.all[i], CloseQueue))
    case CaptureGeneration(c, epoch, playback) => CaptureGenerationStep(s, c, TrimSpace(epoch), playback)
    case CaptureAll(c) => WithCall(s, c, Call(OtherCancel, Cancelling(MappedStreams(s), None))).(streams := map[])
    case CaptureSome(c, chosen) => WithCall(s, c, Call(OtherCancel, Cancelling(chosen, None)))
    case NextVictim(c, i) =>
      WithCall(s, c, Call(s.calls[c].kind, Cancelling(s.calls[c].phase.pending - {i}, Some(Script(i, STALE_OPS)))))
    case VictimOp(c) => VictimOpStep(s, c)
    case CancelsDone(c) => WithCall(s, c, Call(s.calls[c].kind, Returned))
    case Own(i, act) => OwnStep(s, i, act)
  }

  predicate CanRun(s: State, events: seq<Event>)
    decreases |events|
  {
    events == [] || (Enabled(s, events[0]) && CanRun(Step(s, events[0]), events[1..]))
  }

  function Run(s: State, events: seq<Event>): State
    requires CanRun(s, events)
    decreases |events|
  {
    if events == [] then s else Run(Step(s, events[0]), events[1..])
  }

  ghost predicate Reachable(s: State) {
    exists events :: CanRun(START, events) && s == Run(START, events)
  }
}
