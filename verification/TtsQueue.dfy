/** The idle-chat speech queue: producers, one queue worker, cancels and resets run
    concurrently. One event is one lock section, channel operation, atomic load or add, or
    call of a context's cancel; every interleaving of the events is a run. */
module TtsQueue {
  import opened Options
  import opened Text

  /** What a goroutine does to an item once it has finished with it. `signalDone` is
      CloseReady followed by CloseDone. */
  datatype Op = CancelCtx | CloseReady | CloseDone | Unregister

  const ABANDON := [CancelCtx, CloseReady, CloseDone]
  const DROP := [CancelCtx, CloseReady, CloseDone, Unregister]
  const COMPLETE := [CloseReady, CloseDone, CancelCtx, Unregister]

  datatype Script = Script(item: nat, ops: seq<Op>)

  /** Who has the item: its producer, before or after it registered it or while it gives it
      up; the channel; the worker; a reset that drained it; or nobody any more. */
  datatype Place = Loaded | Registered | Failing(ops: seq<Op>) | Queued | WithWorker | WithDrainer(call: nat) | Gone

  /** `ready` and `done` count the closes of the two lifecycle channels; `turnedAway` records
      that the channel was full when the item was sent. */
  datatype Item = Item(
    epoch: string, playback: nat, key: string, gen: nat,
    cancelled: bool, ready: nat, done: nat, place: Place, turnedAway: bool)

  datatype Worker =
    | Idle
    | Received(item: nat) | GenChecked(item: nat) | MarkChecked(item: nat)
    | Emitting(item: nat)
    | Finishing(script: Script)

  datatype Kind = GenerationCancel(epoch: string, playback: nat) | Reset | OtherCancel

  /** How far a call has got; `g` is the generation a reset installed. */
  datatype Phase =
    | Begun
    | Bumped(g: nat)
    | Cancelling(g: nat, pending: set<nat>, work: Option<Script>)
    | Draining(g: nat, work: Option<Script>)
    | Returned(g: nat)

  datatype Call = Call(kind: Kind, phase: Phase)

  datatype State = State(
    gen: nat, active: set<nat>, watermark: map<string, nat>, queue: seq<nat>,
    items: map<nat, Item>, worker: Worker, calls: map<nat, Call>)

  const START := State(0, {}, map[], [], map[], Idle, map[])

  const CAPACITY := 512

  // ---- single steps ----

  function Watermark(marks: map<string, nat>, epoch: string): nat {
    if epoch in marks then marks[epoch] else 0
  }

  predicate GenerationCancelled(marks: map<string, nat>, epoch: string, playback: nat) {
    TrimSpace(epoch) != "" && playback != 0 && playback <= Watermark(marks, TrimSpace(epoch))
  }

  function WithItem(s: State, i: nat, item: Item): State { s.(items := s.items[i := item]) }

  function WithPlace(s: State, i: nat, place: Place): State
    requires i in s.items
  {
    WithItem(s, i, s.items[i].(place := place))
  }

  function WithCall(s: State, c: nat, call: Call): State { s.(calls := s.calls[c := call]) }

  /** What one operation does to the item's own context and channels; each channel closes once. */
  function After(item: Item, op: Op): Item {
    match op
    case CancelCtx => item.(cancelled := true)
    case CloseReady => if item.ready == 0 then item.(ready := 1) else item
    case CloseDone => if item.done == 0 then item.(done := 1) else item
    case Unregister => item
  }

  /** One operation of a script; `place` says who has the item afterwards. */
  function Perform(s: State, i: nat, op: Op, place: Place): State
    requires i in s.items
  {
    WithItem(s, i, After(s.items[i], op).(place := place)).(active := if op.Unregister? then s.active - {i} else s.active)
  }

  function VictimOps(kind: Kind): seq<Op> {
    if kind.GenerationCancel? then ABANDON else [CancelCtx]
  }

  function Rest(script: Script): Option<Script>
    requires script.ops != []
  {
    if |script.ops| == 1 then None else Some(Script(script.item, script.ops[1..]))
  }

  /** What a cancel or a reset does next. */
  datatype Act =
    | Invoke(kind: Kind)
    | Bump | Capture | CaptureSome(chosen: set<nat>)
    | NextVictim(i: nat) | VictimOp | CancelsDone
    | DrainTake | DrainOp | DrainEnd

  predicate CanDo(s: State, c: nat, act: Act) {
    if act.Invoke? then c !in s.calls else c in s.calls && CanGoOn(s, s.calls[c].kind, s.calls[c].phase, act)
  }

  predicate CanGoOn(s: State, kind: Kind, phase: Phase, act: Act) {
    match act
    case Invoke(_) => false
    case Bump => kind.Reset? && phase.Begun?
    case Capture => (kind.GenerationCancel? && phase.Begun?) || (kind.Reset? && phase.Bumped?)
    case CaptureSome(chosen) => kind.OtherCancel? && phase.Begun? && chosen <= s.active
    case NextVictim(i) => phase.Cancelling? && phase.work.None? && i in phase.pending
    case VictimOp => phase.Cancelling? && phase.work.Some? && phase.work.value.item in s.items && phase.work.value.ops != []
    case CancelsDone => phase.Cancelling? && phase.work.None? && phase.pending == {}
    case DrainTake => phase.Draining? && phase.work.None? && s.queue != [] && s.queue[0] in s.items
    case DrainOp => phase.Draining? && phase.work.Some? && phase.work.value.item in s.items && phase.work.value.ops != []
    case DrainEnd => phase.Draining? && phase.work.None? && s.queue == []
  }

  datatype Event =
    | Create(i: nat, epoch: string, playback: nat, key: string)
    | Register(i: nat) | Enqueue(i: nat) | Fail(i: nat)
    | Receive | CheckGen | CheckMark | CheckCtx | EmitReady | EmitEnd | WorkerOp
    | Do(c: nat, act: Act)

  predicate Enabled(s: State, e: Event) {
    match e
    case Create(i, _, _, _) => i !in s.items
    case Register(i) => i in s.items && s.items[i].place == Loaded
    case Enqueue(i) => i in s.items && s.items[i].place == Registered
    case Fail(i) => i in s.items && s.items[i].place.Failing? && s.items[i].place.ops != []
    case Receive => s.worker == Idle && s.queue != [] && s.queue[0] in s.items
    case CheckGen => s.worker.Received? && s.worker.item in s.items
    case CheckMark => s.worker.GenChecked? && s.worker.item in s.items
    case CheckCtx => s.worker.MarkChecked? && s.worker.item in s.items
    case EmitReady => s.worker.Emitting? && s.worker.item in s.items
    case EmitEnd => s.worker.Emitting?
    case WorkerOp => s.worker.Finishing? && s.worker.script.item in s.items && s.worker.script.ops != []
    case Do(c, act) => CanDo(s, c, act)
  }

  // the producer

  function RegisterStep(s: State, i: nat): State
    requires i in s.items
  {
    if GenerationCancelled(s.watermark, s.items[i].epoch, s.items[i].playback) then WithPlace(s, i, Failing(ABANDON))
    else WithPlace(s, i, Registered).(active := s.active + {i})
  }

  function EnqueueStep(s: State, i: nat): State
    requires i in s.items
  {
    if |s.queue| < CAPACITY then WithPlace(s, i, Queued).(queue := s.queue + [i])
    else WithItem(s, i, s.items[i].(place := Failing(ABANDON), turnedAway := true))
  }

  function FailStep(s: State, i: nat): State
    requires i in s.items && s.items[i].place.Failing? && s.items[i].place.ops != []
  {
    var ops := s.items[i].place.ops;
    Perform(s, i, ops[0], if |ops| == 1 then Gone else Failing(ops[1..]))
  }

  // the worker

  function WorkerOpStep(s: State): State
    requires Enabled(s, WorkerOp)
  {
    var script := s.worker.script;
    if |script.ops| == 1 then Perform(s, script.item, script.ops[0], Gone).(worker := Idle)
    else Perform(s, script.item, script.ops[0], WithWorker).(worker := Finishing(Rest(script).value))
  }

  // calls

  function Marked(s: State, epoch: string, playback: nat): map<string, nat> {
    if playback > Watermark(s.watermark, epoch) then s.watermark[epoch := playback] else s.watermark
  }

  function OfGeneration(s: State, epoch: string, playback: nat): set<nat> {
    set i | i in s.active && i in s.items && s.items[i].epoch == epoch && s.items[i].playback == playback
  }

  /** What the next thing call `c` does makes of the call itself. */
  function NextCall(s: State, c: nat, act: Act): Call
    requires CanDo(s, c, act)
  {
    match act
    case Invoke(GenerationCancel(epoch, playback)) =>
      Call(GenerationCancel(TrimSpace(epoch), playback),
           if TrimSpace(epoch) == "" || playback == 0 then Returned(0) else Begun)
    case Invoke(kind) => Call(kind, Begun)
    case Bump => Call(Reset, Bumped(s.gen + 1))
    case Capture =>
      if s.calls[c].kind.GenerationCancel? then
        Call(s.calls[c].kind, Cancelling(0, OfGeneration(s, s.calls[c].kind.epoch, s.calls[c].kind.playback), None))
      else Call(Reset, Cancelling(s.calls[c].phase.g, s.active, None))
    case CaptureSome(chosen) => Call(OtherCancel, Cancelling(0, chosen, None))
    case NextVictim(i) =>
      Call(s.calls[c].kind, Cancelling(s.calls[c].phase.g, s.calls[c].phase.pending - {i}, Some(Script(i, VictimOps(s.calls[c].kind)))))
    case VictimOp =>
      Call(s.calls[c].kind, Cancelling(s.calls[c].phase.g, s.calls[c].phase.pending, Rest(s.calls[c].phase.work.value)))
    case CancelsDone =>
      Call(s.calls[c].kind,
           if s.calls[c].kind.Reset? then Draining(s.calls[c].phase.g, None) else Returned(s.calls[c].phase.g))
    case DrainTake => Call(s.calls[c].kind, Draining(s.calls[c].phase.g, Some(Script(s.queue[0], DROP))))
    case DrainOp => Call(s.calls[c].kind, Draining(s.calls[c].phase.g, Rest(s.calls[c].phase.work.value)))
    case DrainEnd => Call(s.calls[c].kind, Returned(s.calls[c].phase.g))
  }

  /** ... and of everything else. */
  function Shared(s: State, c: nat, act: Act): State
    requires CanDo(s, c, act)
  {
    match act
    case Bump => s.(gen := s.gen + 1)
    case Capture =>
      if s.calls[c].kind.GenerationCancel? then
        s.(watermark := Marked(s, s.calls[c].kind.epoch, s.calls[c].kind.playback))
      else s
    case VictimOp =>
      var script := s.calls[c].phase.work.value;
      Perform(s, script.item, script.ops[0], s.items[script.item].place)
    case DrainTake => WithPlace(s, s.queue[0], WithDrainer(c)).(queue := s.queue[1..])
    case DrainOp =>
      var script := s.calls[c].phase.work.value;
      Perform(s, script.item, script.ops[0], if |script.ops| == 1 then Gone else WithDrainer(c))
    case _ => s
  }

  function Step(s: State, e: Event): State
    requires Enabled(s, e)
  {
    match e
    case Create(i, epoch, playback, key) => WithItem(s, i, Item(epoch, playback, key, s.gen, false, 0, 0, Loaded, false))
    case Register(i) => RegisterStep(s, i)
    case Enqueue(i) => EnqueueStep(s, i)
    case Fail(i) => FailStep(s, i)
    case Receive => WithPlace(s, s.queue[0], WithWorker).(worker := Received(s.queue[0]), queue := s.queue[1..])
    case CheckGen =>
      var i := s.worker.item;
      s.(worker := if s.items[i].gen == s.gen then GenChecked(i) else Finishing(Script(i, DROP)))
    case CheckMark =>
      var i := s.worker.item;
      s.(worker := if GenerationCancelled(s.watermark, s.items[i].epoch, s.items[i].playback)
                   then Finishing(Script(i, DROP)) else MarkChecked(i))
    case CheckCtx =>
      var i := s.worker.item;
      s.(worker := if s.items[i].cancelled then Finishing(Script(i, DROP)) else Emitting(i))
    case EmitReady => Perform(s, s.worker.item, CloseReady, s.items[s.worker.item].place)
    case EmitEnd => s.(worker := Finishing(Script(s.worker.item, COMPLETE)))
    case WorkerOp => WorkerOpStep(s)
    case Do(c, act) => WithCall(Shared(s, c, act), c, NextCall(s, c, act))
  }

  predicate CanRun(s: State, events: seq<Event>)
    decreases |events|
  {
    events == [] || (Enabled(s, events[0]) && CanRun(Step(s, events[0]), events[1..]))
  }

  function Run(s: State, events: seq<Event>): State
    requires CanRun(s, events)
    decreases |events|
  {
    if events == [] then s else Run(Step(s, events[0]), events[1..])
  }

  ghost predicate Reachable(s: State) {
    exists events :: CanRun(START, events) && s == Run(START, events)
  }
}
