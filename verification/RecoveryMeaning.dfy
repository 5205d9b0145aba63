/** What a recovery pass decides, in terms of the stored records alone. */
module RecoveryMeaning {
  import opened Options
  import opened Ordering
  import opened Text
  import opened Recovery
  import opened RecoveryRefinement
  import opened RecoveryEnd
  import opened RecoveryResolvers
  import opened RecoveryTheorems

  // ---- which Runs a pass may close ----

  /** The Run was left running by an earlier writer generation, under a running Task with the
      same holder, as the latest of the Task's Runs and the only running one. */
  ghost predicate LeftBehind(s: Store, r: ID) {
    && r in s.runs && s.runs[r].taskID in s.tasks
    && var run, task := s.runs[r], s.tasks[s.runs[r].taskID];
       && run.status == RunStatus.Running && task.status == TaskStatus.Running
       && 1 <= run.writerGeneration < s.generation
       && run.assignee == task.assignee == TrimSpace(run.assignee) != ""
       && forall q | q in s.runs && q != r && s.runs[q].taskID == run.taskID ::
            s.runs[q].startedAt < run.startedAt && s.runs[q].status != RunStatus.Running
  }

  /** Run `r` and its Task hold the verdict of `a`. */
  ghost predicate Settled(s: Store, a: Action, r: ID, t: Store)
    requires LeftBehind(s, r)
  {
    var k := s.runs[r].taskID;
    && a.runID == r && a.taskID == k && r in t.runs && k in t.tasks
    && t.runs[r] == CloseRun(s.runs[r], Verdict(s, a), EndSummary(a))
    && t.tasks[k] == CloseTask(s.tasks[k], Verdict(s, a), EndSummary(a))
  }

  lemma RecoveredWasLeft(c: Store, taskID: ID, runID: ID, actor: string, status: TaskStatus, summary: string)
    requires RecoverRun(c, taskID, runID, actor, status, summary).Recovered?
    ensures LeftBehind(c, runID) && c.runs[runID].taskID == taskID
  {
    TrimIdempotent(IsSpace, actor);
  }

  lemma SettleRunClosesLeft(s: Store, resolver: Resolver, a: Action, status: ActionStatus, summary: string)
    ensures var step := SettleRun(s, resolver, a, status, summary);
      step.Next? && step.didRecover ==> LeftBehind(s, a.runID) && s.runs[a.runID].taskID == a.taskID
  {
    var run := Resolve(s, resolver, a.runID);
    if run.Some? {
      var text := if summary == "" then DEFAULT_SUMMARY else summary;
      var result := RecoverRun(s, a.taskID, a.runID, run.value.assignee, FinalStatus(s, a, status), text);
      if result.Recovered? { RecoveredWasLeft(s, a.taskID, a.runID, run.value.assignee, FinalStatus(s, a, status), text); }
    }
    hide RecoverRun, FinalStatus, LeftBehind;
  }

  lemma TurnClosesLeft(s: Store, resolver: Resolver, a: Action)
    ensures var step := Settle(s, resolver, a);
      step.Next? && step.didRecover ==> LeftBehind(s, a.runID) && s.runs[a.runID].taskID == a.taskID
  {
    var c := CancelAction(s, a.actionID, a.currentAttemptID, CANCEL_SUMMARY);
    SettleRunClosesLeft(s, resolver, a, a.status, a.summary);
    if c.Some? {
      SettleRunClosesLeft(c.value, resolver, a, ActionStatus.Cancelled, CANCEL_SUMMARY);
      assert LeftBehind(c.value, a.runID) <==> LeftBehind(s, a.runID);
    }
    hide SettleRun, LeftBehind;
  }

  lemma TurnKeepsTasks(s: Store, resolver: Resolver, a: Action, k: ID)
    requires k in s.tasks
    ensures var step := Settle(s, resolver, a);
      k in step.store.tasks && (step.store.tasks[k] == s.tasks[k] || (step.Next? && step.didRecover && k == a.taskID))
  {
    hide IsLatestRun, FinalStatus, TrimSpace;
  }

  /** A Task none of whose Runs is running is not touched again. */
  lemma {:induction false} IdleTaskStays(s: Store, resolver: Resolver, list: seq<Action>, k: ID)
    requires k in s.tasks && forall r | r in s.runs && s.runs[r].taskID == k :: s.runs[r].status != RunStatus.Running
    ensures var t := Loop(s, resolver, list).store; k in t.tasks && t.tasks[k] == s.tasks[k]
    decreases |list|
  {
    if list != [] {
      var step := Settle(s, resolver, list[0]);
      TurnKeepsTasks(s, resolver, list[0], k);
      TurnClosesLeft(s, resolver, list[0]);
      SettleEvolves(s, resolver, list[0]);
      SettleKeepsOwners(s, resolver, list[0]);
      LoopHead(s, resolver, list);
      hide Settle, Loop;
      if step.Next? { IdleTaskStays(step.store, resolver, list[1..], k); }
    }
  }

  /** What is left behind stays so until its Run is closed. */
  lemma LeftBefore(s: Store, a: Action, t: Store, did: bool, r: ID)
    requires StepLeaves(s, a, t, did) && (did ==> LeftBehind(s, a.runID) && s.runs[a.runID].taskID == a.taskID)
    requires r in s.runs && s.runs[r].status == RunStatus.Running && LeftBehind(t, r) && !(did && r == a.runID)
    ensures LeftBehind(s, r) && t.runs[r] == s.runs[r] && t.tasks[s.runs[r].taskID] == s.tasks[s.runs[r].taskID]
  {
    StepKeepsKeys(s, a, t, did);
    forall q | q in s.runs
      ensures t.runs[q] == s.runs[q] || (did && q == a.runID)
    {
      OneRun(s, a, t, did, q);
    }
    if did { assert s.runs[r].taskID != a.taskID; }
    hide Verdict, EndSummary, TrimSpace;
  }

  /** Whether or not the loop fails later, a Run it has closed was left behind, and holds with
      its Task the verdict of the first Action to settle it. */
  lemma {:induction false} ClosedIsSettled(s0: Store, s: Store, resolver: Resolver, list: seq<Action>, r: ID)
    requires Evolves(s0, s) && ResolvesFrom(s0, resolver) && Stored(s, list) && WellFormed(s)
    requires IsRunning(s, r) && !IsRunning(Loop(s, resolver, list).store, r)
    ensures LeftBehind(s, r) && FirstSettler(list, r).Some?
    ensures Settled(s, FirstSettler(list, r).value, r, Loop(s, resolver, list).store)
    decreases |list|
  {
    assert list != [];
    var step := Settle(s, resolver, list[0]);
    hide Settle, EndStore, Loop, LeftBehind, Settled;
    Turn(s0, s, resolver, list);
    LoopHead(s, resolver, list);
    TurnClosesLeft(s, resolver, list[0]);
    assert step.Next?;
    OneRun(s, list[0], step.store, step.didRecover, r);
    hide StepLeaves;
    if step.didRecover && r == list[0].runID {
      ClosedByHead(s, resolver, list, r);
    } else {
      ClosedIsSettled(s0, step.store, resolver, list[1..], r);
      ClosedByTail(s, resolver, list, r);
    }
  }

  lemma ClosedByHead(s: Store, resolver: Resolver, list: seq<Action>, r: ID)
    requires list != [] && r == list[0].runID && LeftBehind(s, r) && s.runs[r].taskID == list[0].taskID
    requires var step := Settle(s, resolver, list[0]); step.Next? && StepLeaves(s, list[0], step.store, true)
    ensures FirstSettler(list, r).Some? && Settled(s, FirstSettler(list, r).value, r, Loop(s, resolver, list).store)
  {
    var a, t := list[0], Settle(s, resolver, list[0]).store;
    LoopHead(s, resolver, list);
    OneRun(s, a, t, true, r);
    ClosedNow(s, a, t, r);
    hide Settle, Loop, StepLeaves;
    LoopEvolves(t, resolver, list[1..]);
    IdleTaskStays(t, resolver, list[1..], a.taskID);
    SettledStays(s, a, r, t, Loop(t, resolver, list[1..]).store);
    hide LeftBehind, Settled;
  }

  lemma ClosedByTail(s: Store, resolver: Resolver, list: seq<Action>, r: ID)
    requires list != [] && Stored(s, list) && IsRunning(s, r)
    requires var step := Settle(s, resolver, list[0]);
      && step.Next? && StepLeaves(s, list[0], step.store, step.didRecover) && !(step.didRecover && r == list[0].runID)
      && (step.didRecover ==> LeftBehind(s, list[0].runID) && s.runs[list[0].runID].taskID == list[0].taskID)
      && LeftBehind(step.store, r) && FirstSettler(list[1..], r).Some?
      && Settled(step.store, FirstSettler(list[1..], r).value, r, Loop(step.store, resolver, list[1..]).store)
    ensures LeftBehind(s, r) && FirstSettler(list, r).Some?
    ensures Settled(s, FirstSettler(list, r).value, r, Loop(s, resolver, list).store)
  {
    var a, step, first := list[0], Settle(s, resolver, list[0]), FirstSettler(list[1..], r).value;
    var t, did := step.store, step.didRecover;
    LoopHead(s, resolver, list);
    hide Settle, Loop, Settled;
    assert FirstSettler(list, r) == Some(first) by { OneRun(s, a, t, did, r); }
    LeftBefore(s, a, t, did, r);
    StepKeepsStored(s, list, t, did);
    FirstSettlerListed(list[1..], r);
    VerdictStable(s, a, t, did, first);
    hide StepLeaves, LeftBehind, Stored;
    SettledBefore(s, first, r, t, Loop(t, resolver, list[1..]).store);
  }

  lemma SettledStays(s: Store, a: Action, r: ID, t: Store, end: Store)
    requires LeftBehind(s, r) && Settled(s, a, r, t)
    requires r in end.runs && end.runs[r] == t.runs[r] && a.taskID in end.tasks && end.tasks[a.taskID] == t.tasks[a.taskID]
    ensures Settled(s, a, r, end)
  {
    hide LeftBehind, Verdict, EndSummary, CloseRun, CloseTask;
  }

  lemma SettledBefore(s: Store, a: Action, r: ID, t: Store, end: Store)
    requires LeftBehind(s, r) && LeftBehind(t, r) && Settled(t, a, r, end) && Verdict(t, a) == Verdict(s, a)
    requires t.runs[r] == s.runs[r] && t.tasks[s.runs[r].taskID] == s.tasks[s.runs[r].taskID]
    ensures Settled(s, a, r, end)
  {
    hide Verdict, EndSummary, CloseRun, CloseTask;
  }

  lemma ClosedNow(s: Store, a: Action, t: Store, r: ID)
    requires StepLeaves(s, a, t, true) && r == a.runID && LeftBehind(s, r) && s.runs[r].taskID == a.taskID
    ensures Settled(s, a, r, t) && Settles(a) && t.runs.Keys == s.runs.Keys
    ensures forall q | q in t.runs && t.runs[q].taskID == a.taskID :: t.runs[q].status != RunStatus.Running
  {
    StepKeepsKeys(s, a, t, true);
    forall q | q in t.runs ensures t.runs[q].taskID == s.runs[q].taskID && (t.runs[q].taskID == a.taskID ==> t.runs[q].status != RunStatus.Running) {
      OneRun(s, a, t, true, q);
      hide StepLeaves, Verdict, EndSummary;
    }
    hide Verdict, EndSummary, IsLatestRun;
  }

  // ---- the verdict ----

  /** An open native delegation, which recovery leaves to its owner. */
  predicate Delegated(a: Action) {
    a.status == ActionStatus.Open && a.kind == "delegation" && a.name == "native_harness.delegate"
  }

  /** Of the stored Actions of the Run that are not open native delegations, `a` comes first by
      creation time and, at one time, by ID. */
  ghost predicate Oldest(s: Store, r: ID, a: Action) {
    && a.actionID in s.actions && s.actions[a.actionID] == a && a.runID == r && !Delegated(a)
    && forall id | id in s.actions && s.actions[id] != a && s.actions[id].runID == r && !Delegated(s.actions[id]) ::
         a.createdAt < s.actions[id].createdAt
         || (a.createdAt == s.actions[id].createdAt && StringLess(a.actionID, s.actions[id].actionID))
  }

  /** The Action ended well: it succeeded and, if it is a native delegation, its own current
      Attempt succeeded with a result accepted under the criteria its Task now has. */
  ghost predicate EndedWell(s: Store, a: Action)
    requires a.taskID in s.tasks
  {
    && a.status == ActionStatus.Succeeded
    && (a.kind == "delegation" && a.name == "native_harness.delegate" ==>
          && a.currentAttemptID in s.attempts
          && var attempt := s.attempts[a.currentAttemptID];
             && attempt.actionID == a.actionID && attempt.status == AttemptStatus.Succeeded
             && attempt.acceptedRevision == Some(s.tasks[a.taskID].expectedCriteriaRevision))
  }

  ghost predicate WasAbandoned(a: Action) {
    a.status == ActionStatus.Open || a.status == ActionStatus.Cancelled || a.status == ActionStatus.Superseded
  }

  /** The summary an Action leaves: why it was cancelled, its own, or a default; trimmed. */
  function Note(a: Action): string {
    TrimSpace(if a.status == ActionStatus.Open then "process restarted before Action completion"
              else if a.summary == "" then "recovered from terminal Action after process restart"
              else a.summary)
  }

  /** Run `r` and the Task of `a` end in `t` as succeeded, cancelled or failed exactly as the
      Action `a` ended in `s`. Nothing else of the two records changes but an unempty summary. */
  ghost predicate EndsAs(s: Store, a: Action, r: ID, t: Store)
    requires r in s.runs && a.taskID in s.tasks
  {
    && r in t.runs && a.taskID in t.tasks
    && var run, task := t.runs[r], t.tasks[a.taskID];
       && (run.status == RunStatus.Succeeded <==> EndedWell(s, a))
       && (run.status == RunStatus.Cancelled <==> WasAbandoned(a))
       && (run.status == RunStatus.Failed <==> !EndedWell(s, a) && !WasAbandoned(a))
       && (task.status == TaskStatus.Succeeded <==> EndedWell(s, a))
       && (task.status == TaskStatus.Cancelled <==> WasAbandoned(a))
       && (task.status == TaskStatus.Failed <==> !EndedWell(s, a) && !WasAbandoned(a))
       && run == s.runs[r].(status := run.status, summary := if Note(a) == "" then s.runs[r].summary else Note(a))
       && task == s.tasks[a.taskID].(status := task.status, summary := if Note(a) == "" then s.tasks[a.taskID].summary else Note(a))
  }

  /** Whether or not the pass fails half-way and however Runs are resolved: a Run it has closed
      was left behind by an earlier writer generation, and ends with its Task as its oldest
      settling Action ended. */
  lemma ClosedAsOldestEnded(s: Store, resolver: Resolver, r: ID) returns (a: Action)
    requires WellFormed(s) && ResolvesFrom(s, resolver) && r in s.runs && s.runs[r].status == RunStatus.Running
    requires r in Pass(s, resolver).store.runs && Pass(s, resolver).store.runs[r].status != RunStatus.Running
    ensures LeftBehind(s, r) && Oldest(s, r, a) && a.taskID == s.runs[r].taskID && EndsAs(s, a, r, Pass(s, resolver).store)
  {
    var list, t := RecoveryScope(s), Pass(s, resolver).store;
    ScopeStored(s);
    ClosedIsSettled(s, s, resolver, list, r);
    a := FirstSettler(list, r).value;
    assert Recoverable(s, r) && a.taskID in s.tasks;
    FirstIsOldest(s, r);
    hide RecoveryScope, Loop, Stored, LeftBehind, Settled, EndsAs, Oldest;
    FirstIsOldestByTime(s, r, a);
    SettledEnds(s, a, r, t);
  }

  lemma FirstIsOldestByTime(s: Store, r: ID, a: Action)
    requires FirstToSettle(s, r, a)
    ensures Oldest(s, r, a)
  {
  }

  lemma SettledEnds(s: Store, a: Action, r: ID, t: Store)
    requires LeftBehind(s, r) && Settled(s, a, r, t)
    ensures a.taskID in s.tasks && EndsAs(s, a, r, t)
  {
    VerdictMeans(s, a);
    SettledMeans(s, a, r, t);
    hide Settled, EndedWell, WasAbandoned, Note, Verdict;
  }

  lemma VerdictMeans(s: Store, a: Action)
    requires a.taskID in s.tasks
    ensures var verdict := Verdict(s, a);
      && (verdict == TaskStatus.Succeeded <==> EndedWell(s, a))
      && (verdict == TaskStatus.Cancelled <==> WasAbandoned(a))
      && (verdict == TaskStatus.Failed <==> !EndedWell(s, a) && !WasAbandoned(a))
    ensures EndSummary(a) == Note(a)
  {
    hide TrimSpace;
  }

  lemma SettledMeans(s: Store, a: Action, r: ID, t: Store)
    requires LeftBehind(s, r) && Settled(s, a, r, t)
    requires a.taskID in s.tasks && (Verdict(s, a) in {TaskStatus.Succeeded, TaskStatus.Failed, TaskStatus.Cancelled})
    ensures r in t.runs && a.taskID in t.tasks && a.taskID == s.runs[r].taskID
    ensures var run, task, verdict := t.runs[r], t.tasks[a.taskID], Verdict(s, a);
      && (run.status == RunStatus.Succeeded <==> verdict == TaskStatus.Succeeded)
      && (run.status == RunStatus.Cancelled <==> verdict == TaskStatus.Cancelled)
      && (run.status == RunStatus.Failed <==> verdict == TaskStatus.Failed)
      && task.status == verdict
      && run == s.runs[r].(status := run.status, summary := if EndSummary(a) == "" then s.runs[r].summary else EndSummary(a))
      && task == s.tasks[a.taskID].(status := verdict, summary := if EndSummary(a) == "" then s.tasks[a.taskID].summary else EndSummary(a))
  {
    hide Verdict, EndSummary;
  }

  /** A pass that succeeds closes exactly the running Runs of other writer generations that
      some Action, other than an open native delegation, names. */
  lemma SuccessfulPassCloses(s: Store, resolver: Resolver, r: ID)
    requires WellFormed(s) && ResolvesFrom(s, resolver) && Pass(s, resolver).error == None && r in s.runs
    ensures r in Pass(s, resolver).store.runs
    ensures Pass(s, resolver).store.runs[r] != s.runs[r] <==>
              s.runs[r].status == RunStatus.Running && s.runs[r].writerGeneration != s.generation
              && exists id :: id in s.actions && s.actions[id].runID == r && !Delegated(s.actions[id])
  {
    var list := RecoveryScope(s);
    ScopeStored(s);
    LoopEnds(s, s, resolver, list);
    EndStoreRun(s, list, r);
    ClosedStatus(s, list, r);
    FirstSettlerListed(list, r);
    hide RecoveryScope, Loop, Stored, EndStore;
    if Recoverable(s, r) {
      forall id | id in s.actions && s.actions[id].runID == r ensures s.actions[id] in list { }
    }
  }

  // ---- when a turn stops ----

  /** The Attempt that the Action names as its current one. */
  ghost predicate HasAttempt(s: Store, a: Action) {
    a.currentAttemptID in s.attempts && s.attempts[a.currentAttemptID].actionID == a.actionID
  }

  /** The Action needs an Attempt, a running one while it is open, and has none. */
  ghost predicate LacksAttempt(s: Store, a: Action) {
    if a.status == ActionStatus.Open then !HasAttempt(s, a) || s.attempts[a.currentAttemptID].status != AttemptStatus.Running
    else a.kind == "delegation" && a.name == "native_harness.delegate" && !HasAttempt(s, a)
  }

  /** The open Action's Attempt holds native delegation state, so it cannot be cancelled here. */
  ghost predicate MayNotCancel(s: Store, a: Action) {
    && a.status == ActionStatus.Open && !Delegated(a)
    && HasAttempt(s, a) && s.attempts[a.currentAttemptID].typed
  }

  /** The Run is the latest of the Action's Task, and none other of that Task is running. */
  ghost predicate IsLatest(s: Store, a: Action) {
    && a.runID in s.runs && s.runs[a.runID].taskID == a.taskID && a.taskID in s.tasks
    && forall q | q in s.runs && q != a.runID && s.runs[q].taskID == a.taskID ::
         s.runs[q].startedAt < s.runs[a.runID].startedAt && s.runs[q].status != RunStatus.Running
  }

  /** The Task owner closes the Run, or leaves it as closed already or as its own. */
  ghost predicate Closes(s: Store, a: Action, holder: string) {
    && TrimSpace(holder) != "" && s.generation != 0 && IsLatest(s, a)
    && var run := s.runs[a.runID];
       run.status == RunStatus.Running ==>
         && run.assignee == s.tasks[a.taskID].assignee == TrimSpace(holder) && s.tasks[a.taskID].status == TaskStatus.Running
         && 1 <= run.writerGeneration <= s.generation
  }

  /** A turn over a stored Action stops for exactly four reasons: it lacks an Attempt; its
      Attempt may not be cancelled here; no Run of its name is resolved; or that Run was
      resolved as running and the Task owner refuses to close it. */
  lemma TurnStopsExactly(s: Store, resolver: Resolver, a: Action)
    requires a.actionID in s.actions && s.actions[a.actionID] == a
    ensures var step, runs := Settle(s, resolver, a), if resolver.Live? then s.runs else resolver.snapshot;
      && (step.Stop? && step.error == NoCurrentAttempt(a.actionID) <==> LacksAttempt(s, a))
      && (step.Stop? && step.error == CancelRefused(a.actionID) <==> !LacksAttempt(s, a) && MayNotCancel(s, a))
      && (step.Stop? && step.error == RunMissing(a.actionID) <==>
            !LacksAttempt(s, a) && !MayNotCancel(s, a) && !Delegated(a) && a.runID !in runs)
      && (step.Stop? && step.error == RunRefused(a.actionID) <==>
            !LacksAttempt(s, a) && !MayNotCancel(s, a) && !Delegated(a)
            && a.runID in runs && runs[a.runID].status == RunStatus.Running && !Closes(s, a, runs[a.runID].assignee))
      && (step.Stop? ==> step.error in {NoCurrentAttempt(a.actionID), CancelRefused(a.actionID),
                                        RunMissing(a.actionID), RunRefused(a.actionID)})
  {
    var runs := if resolver.Live? then s.runs else resolver.snapshot;
    var c := CancelAction(s, a.actionID, a.currentAttemptID, CANCEL_SUMMARY);
    if a.runID in runs {
      RefusedExactly(s, a, runs[a.runID].assignee, FinalStatus(s, a, a.status), if a.summary == "" then DEFAULT_SUMMARY else a.summary);
      if c.Some? { RefusedExactly(c.value, a, runs[a.runID].assignee, TaskStatus.Cancelled, CANCEL_SUMMARY); }
    }
    hide RecoverRun, Closes, FinalStatus;
  }

  lemma RefusedExactly(s: Store, a: Action, holder: string, status: TaskStatus, summary: string)
    requires status.Succeeded? || status.Failed? || status.Cancelled?
    ensures RecoverRun(s, a.taskID, a.runID, holder, status, summary).Refused? <==> !Closes(s, a, holder)
  {
    hide TrimSpace;
  }

  // ---- what a pass walks ----

  /** The scope is every Action that is open, a native delegation, or of a running Run, oldest
      first and, at one time, by ID. */
  lemma ScopeExactly(s: Store)
    requires WellFormed(s)
    ensures forall a :: a in RecoveryScope(s) <==>
              a.actionID in s.actions && s.actions[a.actionID] == a
              && (a.status == ActionStatus.Open || (a.kind == "delegation" && a.name == "native_harness.delegate")
                  || (a.runID in s.runs && s.runs[a.runID].status == RunStatus.Running))
    ensures var scope := RecoveryScope(s);
      forall i, j | 0 <= i < j < |scope| ::
        scope[i].createdAt < scope[j].createdAt
        || (scope[i].createdAt == scope[j].createdAt && StringLess(scope[i].actionID, scope[j].actionID))
  {
    ScopeStored(s);
    ScopeSorted(s);
    hide RecoveryScope;
  }
}
