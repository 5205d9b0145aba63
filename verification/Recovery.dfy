/** Restart recovery of Actions and Runs: the records, the store operations the recovery
    uses, and the settling loop as a function of the store it starts from. */
module Recovery {
  import opened Options
  import opened Ordering
  import opened Text

  type ID = string

  datatype ActionStatus = Open | Succeeded | Failed | Cancelled | Superseded
  datatype AttemptStatus = Running | Succeeded | Failed | Cancelled | TimedOut
  datatype RunStatus = Running | Succeeded | Failed | Cancelled | Waiting | Blocked | Interrupted | Reassigned | Superseded
  datatype TaskStatus = Queued | Running | Waiting | Blocked | Failed | Succeeded | Cancelled | Superseded

  datatype Action = Action(
    actionID: ID, taskID: ID, runID: ID, kind: string, name: string,
    status: ActionStatus, currentAttemptID: ID, createdAt: int, summary: string)

  /** `typed` says that the Attempt holds native delegation state; `acceptedRevision` is the
      criteria revision for which its stored Run result carries a valid acceptance proof. */
  datatype Attempt = Attempt(
    actionID: ID, status: AttemptStatus, typed: bool, acceptedRevision: Option<string>, summary: string)

  datatype Run = Run(
    taskID: ID, assignee: string, status: RunStatus, writerGeneration: nat, startedAt: int, summary: string)

  datatype Task = Task(status: TaskStatus, assignee: string, expectedCriteriaRevision: string, summary: string)

  /** The Action store, the Task store and the writer generation of this process. */
  datatype Store = Store(
    actions: map<ID, Action>, attempts: map<ID, Attempt>,
    tasks: map<ID, Task>, runs: map<ID, Run>, generation: nat)

  ghost predicate WellFormed(s: Store) {
    forall id | id in s.actions :: s.actions[id].actionID == id
  }

  const DELEGATION_KIND := "delegation"
  const NATIVE_DELEGATION_ACTION_NAME := "native_harness.delegate"
  const CANCEL_SUMMARY := "process restarted before Action completion"
  const DEFAULT_SUMMARY := "recovered from terminal Action after process restart"

  predicate IsNative(a: Action) {
    a.kind == DELEGATION_KIND && a.name == NATIVE_DELEGATION_ACTION_NAME
  }

  // ---- the store operations ----

  predicate IsRunning(s: Store, runID: ID) {
    runID in s.runs && s.runs[runID].status == RunStatus.Running
  }

  /** No other Run of the Task is as recent, and none is still active. */
  predicate IsLatestRun(s: Store, taskID: ID, runID: ID) {
    && runID in s.runs && s.runs[runID].taskID == taskID
    && forall r | r in s.runs && r != runID && s.runs[r].taskID == taskID ::
         s.runs[r].startedAt < s.runs[runID].startedAt && s.runs[r].status != RunStatus.Running
  }

  function RunStatusFor(status: TaskStatus): RunStatus {
    match status
    case Queued => RunStatus.Interrupted
    case Running => RunStatus.Running
    case Waiting => RunStatus.Waiting
    case Blocked => RunStatus.Blocked
    case Failed => RunStatus.Failed
    case Succeeded => RunStatus.Succeeded
    case Cancelled => RunStatus.Cancelled
    case Superseded => RunStatus.Superseded
  }

  datatype RecoverResult = Refused | Untouched | Recovered(store: Store)

  function CloseRun(run: Run, status: TaskStatus, summary: string): Run {
    run.(status := RunStatusFor(status), summary := if summary == "" then run.summary else summary)
  }

  function CloseTask(task: Task, status: TaskStatus, summary: string): Task {
    task.(status := status, summary := if summary == "" then task.summary else summary)
  }

  /** Closes a Run left running by an earlier writer generation. A Run of this generation,
      and a Run already closed, is left as it is without an error. */
  function RecoverRun(s: Store, taskID: ID, runID: ID, actor: string, status: TaskStatus, summary: string): RecoverResult {
    var actorID := TrimSpace(actor);
    if actorID == "" || !(status.Succeeded? || status.Failed? || status.Cancelled?) then Refused
    else if s.generation == 0 || taskID !in s.tasks || !IsLatestRun(s, taskID, runID) then Refused
    else if s.runs[runID].status != RunStatus.Running then Untouched
    else
      var task, run := s.tasks[taskID], s.runs[runID];
      if task.status != TaskStatus.Running || task.assignee != actorID || run.assignee != actorID then Refused
      else if run.writerGeneration == s.generation then Untouched
      else if run.writerGeneration == 0 || run.writerGeneration > s.generation then Refused
      else Recovered(s.(
        tasks := s.tasks[taskID := CloseTask(task, status, TrimSpace(summary))],
        runs := s.runs[runID := CloseRun(run, status, TrimSpace(summary))]))
  }

  /** The Attempt of the Action that its CurrentAttemptID names. */
  function CurrentAttempt(s: Store, a: Action): Option<Attempt> {
    if a.currentAttemptID in s.attempts && s.attempts[a.currentAttemptID].actionID == a.actionID
    then Some(s.attempts[a.currentAttemptID])
    else None
  }

  /** Closes the Action and its current Attempt as cancelled. Refuses a closed pair, a pair
      that does not belong together, and typed native delegation state. */
  function CancelAction(s: Store, actionID: ID, attemptID: ID, summary: string): Option<Store> {
    if actionID !in s.actions || attemptID !in s.attempts then None
    else
      var action, attempt := s.actions[actionID], s.attempts[attemptID];
      if action.status != ActionStatus.Open || action.currentAttemptID != attemptID
         || attempt.actionID != actionID || attempt.status != AttemptStatus.Running || attempt.typed then None
      else Some(s.(
        actions := s.actions[actionID := action.(status := ActionStatus.Cancelled, summary := summary)],
        attempts := s.attempts[attemptID := attempt.(status := AttemptStatus.Cancelled, summary := summary)]))
  }

  // ---- the settling loop ----

  /** How the Task owner resolves a Run: one live read per Run, or one shared pass up front. */
  datatype Resolver = Live | Shared(snapshot: map<ID, Run>)

  function Resolve(s: Store, resolver: Resolver, runID: ID): Option<Run> {
    var runs := if resolver.Live? then s.runs else resolver.snapshot;
    if runID in runs then Some(runs[runID]) else None
  }

  datatype Error =
    | NoCurrentAttempt(actionID: ID)
    | CancelRefused(actionID: ID)
    | RunMissing(actionID: ID)
    | RunRefused(actionID: ID)

  datatype Step = Next(store: Store, didRecover: bool) | Stop(store: Store, error: Error)

  datatype Outcome = Outcome(store: Store, recovered: nat, error: Option<Error>)

  /** The status a Run gets from an Action that ended with `status`. */
  function FinalStatus(s: Store, a: Action, status: ActionStatus): TaskStatus {
    match status
    case Succeeded =>
      if !IsNative(a) then TaskStatus.Succeeded
      else
        var revision := if a.taskID in s.tasks then s.tasks[a.taskID].expectedCriteriaRevision else "";
        var current := CurrentAttempt(s, a);
        if current.Some? && current.value.status == AttemptStatus.Succeeded && current.value.acceptedRevision == Some(revision)
        then TaskStatus.Succeeded else TaskStatus.Failed
    case Cancelled => TaskStatus.Cancelled
    case Superseded => TaskStatus.Cancelled
    case Open => TaskStatus.Failed
    case Failed => TaskStatus.Failed
  }

  function SettleRun(s: Store, resolver: Resolver, a: Action, status: ActionStatus, summary: string): Step {
    match Resolve(s, resolver, a.runID)
    case None => Stop(s, RunMissing(a.actionID))
    case Some(run) =>
      if run.status != RunStatus.Running then Next(s, false)
      else
        var text := if summary == "" then DEFAULT_SUMMARY else summary;
        match RecoverRun(s, a.taskID, a.runID, run.assignee, FinalStatus(s, a, status), text)
        case Refused => Stop(s, RunRefused(a.actionID))
        case Untouched => Next(s, false)
        case Recovered(s') => Next(s', true)
  }

  function Settle(s: Store, resolver: Resolver, a: Action): Step {
    if a.status == ActionStatus.Open || IsNative(a) then
      match CurrentAttempt(s, a)
      case None => Stop(s, NoCurrentAttempt(a.actionID))
      case Some(current) =>
        if a.status != ActionStatus.Open then SettleRun(s, resolver, a, a.status, a.summary)
        else if current.status != AttemptStatus.Running then Stop(s, NoCurrentAttempt(a.actionID))
        else if IsNative(a) then Next(s, false)
        else
          match CancelAction(s, a.actionID, a.currentAttemptID, CANCEL_SUMMARY)
          case None => Stop(s, CancelRefused(a.actionID))
          case Some(s') => SettleRun(s', resolver, a, ActionStatus.Cancelled, CANCEL_SUMMARY)
    else SettleRun(s, resolver, a, a.status, a.summary)
  }

  function Loop(s: Store, resolver: Resolver, list: seq<Action>): Outcome
    decreases |list|
  {
    if list == [] then Outcome(s, 0, None)
    else
      match Settle(s, resolver, list[0])
      case Stop(s', error) => Outcome(s', 0, Some(error))
      case Next(s', did) =>
        var rest := Loop(s', resolver, list[1..]);
        rest.(recovered := rest.recovered + (if did then 1 else 0))
  }

  // ---- what the loop walks ----

  /** Oldest first, ties by Action ID. */
  predicate Before(a: Action, b: Action) {
    a.createdAt < b.createdAt || (a.createdAt == b.createdAt && StringLess(a.actionID, b.actionID))
  }

  predicate InScope(s: Store, a: Action) {
    a.status == ActionStatus.Open || IsNative(a) || IsRunning(s, a.runID)
  }

  ghost predicate IsListing(actions: set<Action>, list: seq<Action>) {
    Elements(list) == actions && Sorted(Before, list)
  }

  ghost function Listing(actions: set<Action>): seq<Action> { Sort(Before, Enumerate(actions)) }

  ghost function WholeHistory(s: Store): seq<Action> { Listing(s.actions.Values) }

  ghost function RecoveryScope(s: Store): seq<Action> {
    Listing(set a | a in s.actions.Values && InScope(s, a))
  }

  /** One recovery pass over the bounded scope. */
  ghost function Pass(s: Store, resolver: Resolver): Outcome { Loop(s, resolver, RecoveryScope(s)) }

  ghost function LiveRecovery(s: Store): Outcome { Pass(s, Live) }

  ghost function SharedRecovery(s: Store): Outcome { Pass(s, Shared(s.runs)) }

  lemma BeforeOrders(s: Store, actions: set<Action>)
    requires WellFormed(s) && actions <= s.actions.Values
    ensures StrictOrderOn(Before, actions)
  {
    forall a, b | a in actions && b in actions ensures a == b || Before(a, b) || Before(b, a)
      ensures !Before(a, a)
    {
      StringLessTrichotomy(a.actionID, b.actionID);
      StringLessTrichotomy(a.actionID, a.actionID);
    }
    forall a, b, c | Before(a, b) && Before(b, c) ensures Before(a, c) {
      if a.createdAt == b.createdAt == c.createdAt {
        StringLessTransitive(a.actionID, b.actionID, c.actionID);
      }
    }
  }

  lemma ListingLists(s: Store, actions: set<Action>)
    requires WellFormed(s) && actions <= s.actions.Values
    ensures IsListing(actions, Listing(actions))
    ensures Distinct(Listing(actions))
  {
    EnumerateElements(actions);
    BeforeOrders(s, actions);
    SortSorts(Before, Enumerate(actions));
    SortedDistinct(Before, Listing(actions));
  }

  /** Whatever order the three queries and the map gave the Actions in, the sorted scope is
      the same sequence. */
  lemma ListingIsUnique(s: Store, actions: set<Action>, list: seq<Action>)
    requires WellFormed(s) && actions <= s.actions.Values && IsListing(actions, list)
    ensures list == Listing(actions)
  {
    ListingLists(s, actions);
    BeforeOrders(s, actions);
    SortedIsUnique(Before, list, Listing(actions));
  }

  function ScopeTest(s: Store): Action -> bool { (a: Action) => InScope(s, a) }

  /** The bounded scope is the whole history with the other Actions left out. */
  lemma ScopeIsFilteredHistory(s: Store)
    requires WellFormed(s)
    ensures RecoveryScope(s) == Filter(ScopeTest(s), WholeHistory(s))
  {
    var scoped := set a | a in s.actions.Values && InScope(s, a);
    var filtered := Filter(ScopeTest(s), WholeHistory(s));
    ListingLists(s, s.actions.Values);
    FilterMembers(ScopeTest(s), WholeHistory(s));
    FilterSorted(Before, ScopeTest(s), WholeHistory(s));
    assert Elements(filtered) == scoped by {
      forall a ensures a in Elements(filtered) <==> a in scoped {
        assert a in WholeHistory(s) <==> a in Elements(WholeHistory(s));
      }
    }
    ListingIsUnique(s, scoped, filtered);
  }

  /** The list holds stored Actions, each once. */
  ghost predicate Stored(s: Store, list: seq<Action>) {
    && (forall a | a in list :: a.actionID in s.actions && s.actions[a.actionID] == a)
    && (forall i, j | 0 <= i < j < |list| :: list[i].actionID != list[j].actionID)
  }

  lemma ListingStored(s: Store, actions: set<Action>)
    requires WellFormed(s) && actions <= s.actions.Values
    ensures Stored(s, Listing(actions))
    ensures forall a :: a in Listing(actions) <==> a in actions
  {
    var list := Listing(actions);
    ListingLists(s, actions);
    assert forall a :: a in list <==> a in Elements(list);
    forall a | a in list ensures a.actionID in s.actions && s.actions[a.actionID] == a {
      var id :| id in s.actions && s.actions[id] == a;
    }
  }
}
