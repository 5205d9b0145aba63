/** What a successful recovery leaves behind, stated without the loop. */
module RecoveryEnd {
  import opened Options
  import opened Ordering
  import opened Text
  import opened Recovery
  import opened RecoveryRefinement

  /** The loop settles every Action it walks but an open native delegation. */
  predicate Settles(a: Action) {
    !(a.status == ActionStatus.Open && IsNative(a))
  }

  predicate Cancels(a: Action) {
    a.status == ActionStatus.Open && !IsNative(a)
  }

  function EndStatus(a: Action): ActionStatus {
    if a.status == ActionStatus.Open then ActionStatus.Cancelled else a.status
  }

  function EndSummary(a: Action): string {
    TrimSpace(if a.status == ActionStatus.Open then CANCEL_SUMMARY else if a.summary == "" then DEFAULT_SUMMARY else a.summary)
  }

  /** A running Run that an earlier writer generation left behind. */
  predicate Recoverable(s: Store, runID: ID) {
    IsRunning(s, runID) && s.runs[runID].writerGeneration != s.generation
  }

  function Verdict(s: Store, a: Action): TaskStatus { FinalStatus(s, a, EndStatus(a)) }

  // ---- one step in closed form ----

  function CancelApplied(s: Store, a: Action): Store
    requires a.actionID in s.actions && a.currentAttemptID in s.attempts
  {
    s.(actions := s.actions[a.actionID := s.actions[a.actionID].(status := ActionStatus.Cancelled, summary := CANCEL_SUMMARY)],
       attempts := s.attempts[a.currentAttemptID :=
         s.attempts[a.currentAttemptID].(status := AttemptStatus.Cancelled, summary := CANCEL_SUMMARY)])
  }

  function CloseApplied(s: Store, t: Store, a: Action): Store
    requires a.runID in t.runs && a.taskID in t.tasks
  {
    t.(runs := t.runs[a.runID := CloseRun(t.runs[a.runID], Verdict(s, a), EndSummary(a))],
       tasks := t.tasks[a.taskID := CloseTask(t.tasks[a.taskID], Verdict(s, a), EndSummary(a))])
  }

  ghost predicate StepLeaves(s: Store, a: Action, t: Store, did: bool) {
    && (Cancels(a) ==> a.actionID in s.actions && a.currentAttemptID in s.attempts
                       && s.attempts[a.currentAttemptID].actionID == a.actionID)
    && (did <==> Settles(a) && Recoverable(s, a.runID))
    && (did ==> a.taskID in s.tasks && s.runs[a.runID].taskID == a.taskID && IsLatestRun(s, a.taskID, a.runID))
    && var c := if Cancels(a) then CancelApplied(s, a) else s;
       t == if did then CloseApplied(s, c, a) else c
  }

  /** What the store operation leaves when it does not refuse. */
  lemma RecoverLeaves(c: Store, taskID: ID, runID: ID, actor: string, status: TaskStatus, summary: string)
    ensures var result := RecoverRun(c, taskID, runID, actor, status, summary);
      && (!result.Refused? ==> taskID in c.tasks && IsLatestRun(c, taskID, runID))
      && (result.Untouched? ==> !Recoverable(c, runID))
      && (result.Recovered? ==> Recoverable(c, runID) && result.store == c.(
            runs := c.runs[runID := CloseRun(c.runs[runID], status, TrimSpace(summary))],
            tasks := c.tasks[taskID := CloseTask(c.tasks[taskID], status, TrimSpace(summary))]))
  {
    hide TrimSpace;
  }

  lemma SettleRunLeaves(s0: Store, s: Store, resolver: Resolver, c: Store, a: Action)
    requires Evolves(s0, s) && ResolvesFrom(s0, resolver)
    requires c.runs == s.runs && c.tasks == s.tasks && c.generation == s.generation && Settles(a)
    requires c == s || (a.status == ActionStatus.Open && c.attempts.Keys == s.attempts.Keys)
    ensures var summary := if a.status == ActionStatus.Open then CANCEL_SUMMARY else a.summary;
            var step := SettleRun(c, resolver, a, EndStatus(a), summary);
            step.Next? ==>
              && (step.didRecover <==> Recoverable(s, a.runID))
              && (step.didRecover ==> a.taskID in s.tasks && s.runs[a.runID].taskID == a.taskID && IsLatestRun(s, a.taskID, a.runID)
                                      && step.store == CloseApplied(s, c, a))
              && (!step.didRecover ==> step.store == c)
  {
    assert a.runID in s0.runs && !IsRunning(s0, a.runID) ==> !IsRunning(s, a.runID);
    assert IsRunning(s, a.runID) ==> s0.runs[a.runID] == s.runs[a.runID];
    assert FinalStatus(c, a, EndStatus(a)) == Verdict(s, a) && (IsLatestRun(c, a.taskID, a.runID) <==> IsLatestRun(s, a.taskID, a.runID));
    assert IsLatestRun(s, a.taskID, a.runID) ==> s.runs[a.runID].taskID == a.taskID;
    hide Evolves, TrimSpace, FinalStatus, IsLatestRun, RecoverRun;
    var run := Resolve(c, resolver, a.runID);
    if run.Some? {
      var summary := if a.status == ActionStatus.Open then CANCEL_SUMMARY else a.summary;
      var text := if summary == "" then DEFAULT_SUMMARY else summary;
      RecoverLeaves(c, a.taskID, a.runID, run.value.assignee, Verdict(s, a), text);
    }
  }

  /** What one successful turn leaves, however Runs are resolved. */
  lemma SettleLeaves(s0: Store, s: Store, resolver: Resolver, a: Action)
    requires Evolves(s0, s) && ResolvesFrom(s0, resolver)
    ensures var step := Settle(s, resolver, a); step.Next? ==> StepLeaves(s, a, step.store, step.didRecover)
  {
    if Settles(a) {
      var c := CancelAction(s, a.actionID, a.currentAttemptID, CANCEL_SUMMARY);
      if Cancels(a) && c.Some? {
        assert c.value == CancelApplied(s, a);
        SettleRunLeaves(s0, s, resolver, c.value, a);
      } else {
        SettleRunLeaves(s0, s, resolver, s, a);
      }
    }
    hide SettleRun, Evolves;
  }

  // ---- the whole pass in closed form ----

  function FirstSettler(list: seq<Action>, runID: ID): Option<Action> {
    if list == [] then None
    else if list[0].runID == runID && Settles(list[0]) then Some(list[0])
    else FirstSettler(list[1..], runID)
  }

  /** The first Action that closes a Run of the Task. */
  function FirstCloser(s: Store, list: seq<Action>, taskID: ID): Option<Action> {
    if list == [] then None
    else if Settles(list[0]) && Recoverable(s, list[0].runID) && s.runs[list[0].runID].taskID == taskID then Some(list[0])
    else FirstCloser(s, list[1..], taskID)
  }

  function EndRun(s: Store, list: seq<Action>, runID: ID): Run
    requires runID in s.runs
  {
    var first := FirstSettler(list, runID);
    if first.None? || !Recoverable(s, runID) then s.runs[runID]
    else CloseRun(s.runs[runID], Verdict(s, first.value), EndSummary(first.value))
  }

  function EndTask(s: Store, list: seq<Action>, taskID: ID): Task
    requires taskID in s.tasks
  {
    match FirstCloser(s, list, taskID)
    case None => s.tasks[taskID]
    case Some(a) => CloseTask(s.tasks[taskID], Verdict(s, a), EndSummary(a))
  }

  function EndAction(s: Store, list: seq<Action>, id: ID): Action
    requires id in s.actions
  {
    var a := s.actions[id];
    if a in list && Cancels(a) then a.(status := ActionStatus.Cancelled, summary := CANCEL_SUMMARY) else a
  }

  function EndAttempt(s: Store, list: seq<Action>, id: ID): Attempt
    requires id in s.attempts
  {
    if exists a | a in list :: Cancels(a) && a.currentAttemptID == id
    then s.attempts[id].(status := AttemptStatus.Cancelled, summary := CANCEL_SUMMARY)
    else s.attempts[id]
  }

  /** The store after the Actions of `list` were settled, read off the store before. */
  function EndStore(s: Store, list: seq<Action>): Store {
    Store(
      map id | id in s.actions :: EndAction(s, list, id),
      map id | id in s.attempts :: EndAttempt(s, list, id),
      map id | id in s.tasks :: EndTask(s, list, id),
      map id | id in s.runs :: EndRun(s, list, id),
      s.generation)
  }

  lemma StepKeepsStored(s: Store, list: seq<Action>, t: Store, did: bool)
    requires list != [] && Stored(s, list) && StepLeaves(s, list[0], t, did)
    ensures Stored(t, list[1..])
    ensures forall b | b in list[1..] :: b.actionID != list[0].actionID
  {
    forall b | b in list[1..] ensures b in list && b.actionID != list[0].actionID {
      var k :| 0 <= k < |list[1..]| && list[1..][k] == b;
      assert list[k + 1] == b;
    }
  }

  /** Settling one Action does not change the verdict another one gives. */
  lemma VerdictStable(s: Store, a: Action, t: Store, did: bool, b: Action)
    requires StepLeaves(s, a, t, did) && a.actionID != b.actionID
    ensures Verdict(t, b) == Verdict(s, b)
  {
  }

  lemma {:induction false} FirstSettlerListed(list: seq<Action>, runID: ID)
    ensures var first := FirstSettler(list, runID);
            && (first.Some? ==> first.value in list && first.value.runID == runID && Settles(first.value))
            && (first.None? ==> forall a | a in list :: a.runID == runID ==> !Settles(a))
  {
    if list != [] { FirstSettlerListed(list[1..], runID); }
  }

  lemma {:induction false} FirstCloserListed(s: Store, list: seq<Action>, taskID: ID)
    ensures var first := FirstCloser(s, list, taskID);
            first.Some? ==> first.value in list && Settles(first.value)
                            && Recoverable(s, first.value.runID) && s.runs[first.value.runID].taskID == taskID
  {
    if list != [] { FirstCloserListed(s, list[1..], taskID); }
  }

  lemma {:induction false} FirstCloserStable(s: Store, t: Store, list: seq<Action>, taskID: ID)
    requires forall r :: (Recoverable(s, r) && s.runs[r].taskID == taskID) <==> (Recoverable(t, r) && t.runs[r].taskID == taskID)
    ensures FirstCloser(s, list, taskID) == FirstCloser(t, list, taskID)
  {
    if list != [] { FirstCloserStable(s, t, list[1..], taskID); }
  }

  lemma EndRunStep(s: Store, list: seq<Action>, t: Store, did: bool, r: ID)
    requires list != [] && Stored(s, list) && StepLeaves(s, list[0], t, did) && r in s.runs
    ensures r in t.runs && EndRun(t, list[1..], r) == EndRun(s, list, r)
  {
    StepKeepsStored(s, list, t, did);
    FirstSettlerListed(list[1..], r);
    var first := FirstSettler(list[1..], r);
    if first.Some? { VerdictStable(s, list[0], t, did, first.value); }
    hide FinalStatus, Stored, IsLatestRun, TrimSpace, CancelApplied;
    OneRun(s, list[0], t, did, r);
    hide StepLeaves, CloseRun, EndSummary;
  }

  /** The Runs after one step. */
  lemma OneRun(s: Store, a: Action, t: Store, did: bool, r: ID)
    requires StepLeaves(s, a, t, did) && r in s.runs
    ensures r in t.runs && t.generation == s.generation
    ensures did <==> Settles(a) && Recoverable(s, a.runID)
    ensures t.runs[r] == if did && r == a.runID then CloseRun(s.runs[r], Verdict(s, a), EndSummary(a)) else s.runs[r]
    ensures did && r == a.runID ==> t.runs[r].status != RunStatus.Running
  {
    hide TrimSpace, IsLatestRun;
  }

  lemma EndTaskClosed(s: Store, list: seq<Action>, t: Store, did: bool, k: ID)
    requires list != [] && StepLeaves(s, list[0], t, did) && k in s.tasks && did && s.runs[list[0].runID].taskID == k
    ensures k in t.tasks && EndTask(t, list[1..], k) == EndTask(s, list, k)
  {
    var a := list[0];
    assert k == a.taskID && IsLatestRun(s, k, a.runID) && t.runs.Keys == s.runs.Keys;
    assert k in t.tasks && t.tasks[k] == CloseTask(s.tasks[k], Verdict(s, a), EndSummary(a));
    FirstCloserListed(t, list[1..], k);
    forall r | r in t.runs && t.runs[r].taskID == k ensures !Recoverable(t, r) {
      hide TrimSpace, FinalStatus, EndSummary;
      OneRun(s, a, t, did, r);
      hide StepLeaves, CloseRun, Verdict;
    }
    hide StepLeaves, Verdict, EndSummary, CloseTask;
  }

  lemma EndTaskKept(s: Store, list: seq<Action>, t: Store, did: bool, k: ID)
    requires list != [] && Stored(s, list) && StepLeaves(s, list[0], t, did) && k in s.tasks
    requires !(did && s.runs[list[0].runID].taskID == k)
    ensures k in t.tasks && EndTask(t, list[1..], k) == EndTask(s, list, k)
  {
    var a, first := list[0], FirstCloser(t, list[1..], k);
    assert t.tasks.Keys == s.tasks.Keys && t.tasks[k] == s.tasks[k];
    assert Settles(a) && Recoverable(s, a.runID) ==> s.runs[a.runID].taskID != k;
    hide StepLeaves, Stored, Verdict, EndSummary, CloseTask, Settles;
    StepKeepsStored(s, list, t, did);
    FirstCloserListed(t, list[1..], k);
    if first.Some? { VerdictStable(s, a, t, did, first.value); }
    OtherTaskRuns(s, a, t, did, k);
    hide Recoverable;
    FirstCloserStable(s, t, list[1..], k);
  }

  lemma EndTaskStep(s: Store, list: seq<Action>, t: Store, did: bool, k: ID)
    requires list != [] && Stored(s, list) && StepLeaves(s, list[0], t, did) && k in s.tasks
    ensures k in t.tasks && EndTask(t, list[1..], k) == EndTask(s, list, k)
  {
    if did && s.runs[list[0].runID].taskID == k { EndTaskClosed(s, list, t, did, k); }
    else { EndTaskKept(s, list, t, did, k); }
  }

  lemma OtherTaskRuns(s: Store, a: Action, t: Store, did: bool, k: ID)
    requires StepLeaves(s, a, t, did) && !(did && s.runs[a.runID].taskID == k)
    ensures forall r :: (Recoverable(s, r) && s.runs[r].taskID == k) <==> (Recoverable(t, r) && t.runs[r].taskID == k)
  {
    hide FinalStatus, TrimSpace;
  }

  lemma EndActionStep(s: Store, list: seq<Action>, t: Store, did: bool, id: ID)
    requires list != [] && Stored(s, list) && StepLeaves(s, list[0], t, did) && id in s.actions && WellFormed(s)
    ensures id in t.actions && EndAction(t, list[1..], id) == EndAction(s, list, id)
  {
    StepKeepsStored(s, list, t, did);
    assert list == [list[0]] + list[1..];
    assert list[0] in list;
  }

  lemma EndAttemptStep(s: Store, list: seq<Action>, t: Store, did: bool, id: ID)
    requires list != [] && StepLeaves(s, list[0], t, did) && id in s.attempts
    ensures id in t.attempts && EndAttempt(t, list[1..], id) == EndAttempt(s, list, id)
  {
    assert list == [list[0]] + list[1..];
  }

  lemma StepKeepsKeys(s: Store, a: Action, t: Store, did: bool)
    requires StepLeaves(s, a, t, did)
    ensures t.runs.Keys == s.runs.Keys && t.tasks.Keys == s.tasks.Keys && t.generation == s.generation
    ensures t.actions.Keys == s.actions.Keys && t.attempts.Keys == s.attempts.Keys
  {
  }

  lemma EndRunsAndTasksStep(s: Store, list: seq<Action>, t: Store, did: bool)
    requires list != [] && Stored(s, list) && StepLeaves(s, list[0], t, did)
    ensures EndStore(t, list[1..]).runs == EndStore(s, list).runs
    ensures EndStore(t, list[1..]).tasks == EndStore(s, list).tasks
  {
    StepKeepsKeys(s, list[0], t, did);
    hide StepLeaves, Stored, EndRun, EndTask, EndAction, EndAttempt;
    forall r | r in s.runs ensures r in t.runs && EndRun(t, list[1..], r) == EndRun(s, list, r) {
      EndRunStep(s, list, t, did, r);
    }
    forall k | k in s.tasks ensures k in t.tasks && EndTask(t, list[1..], k) == EndTask(s, list, k) {
      EndTaskStep(s, list, t, did, k);
    }
  }

  lemma EndActionsStep(s: Store, list: seq<Action>, t: Store, did: bool)
    requires list != [] && Stored(s, list) && StepLeaves(s, list[0], t, did) && WellFormed(s)
    ensures EndStore(t, list[1..]).actions == EndStore(s, list).actions
  {
    StepKeepsKeys(s, list[0], t, did);
    hide StepLeaves, Stored, WellFormed, EndRun, EndTask, EndAction, EndAttempt;
    forall id | id in s.actions ensures id in t.actions && EndAction(t, list[1..], id) == EndAction(s, list, id) {
      EndActionStep(s, list, t, did, id);
    }
  }

  lemma EndAttemptsStep(s: Store, list: seq<Action>, t: Store, did: bool)
    requires list != [] && StepLeaves(s, list[0], t, did)
    ensures EndStore(t, list[1..]).attempts == EndStore(s, list).attempts
  {
    StepKeepsKeys(s, list[0], t, did);
    hide StepLeaves, EndRun, EndTask, EndAction, EndAttempt;
    forall id | id in s.attempts ensures id in t.attempts && EndAttempt(t, list[1..], id) == EndAttempt(s, list, id) {
      EndAttemptStep(s, list, t, did, id);
    }
  }

  lemma EndStoreStep(s: Store, list: seq<Action>, t: Store, did: bool)
    requires list != [] && Stored(s, list) && StepLeaves(s, list[0], t, did) && WellFormed(s)
    ensures EndStore(t, list[1..]) == EndStore(s, list)
  {
    EndRunsAndTasksStep(s, list, t, did);
    EndActionsStep(s, list, t, did);
    EndAttemptsStep(s, list, t, did);
    StepKeepsKeys(s, list[0], t, did);
    hide StepLeaves, Stored, WellFormed;
  }

  lemma StepKeepsWellFormed(s: Store, a: Action, t: Store, did: bool)
    requires StepLeaves(s, a, t, did) && WellFormed(s)
    ensures WellFormed(t)
  {
  }

  /** One turn, with everything the rest of the loop needs to know about it. */
  lemma Turn(s0: Store, s: Store, resolver: Resolver, list: seq<Action>)
    requires Evolves(s0, s) && ResolvesFrom(s0, resolver) && WellFormed(s) && list != [] && Stored(s, list)
    ensures var step := Settle(s, resolver, list[0]);
      && Evolves(s0, step.store)
      && (step.Stop? ==> step.store.runs == s.runs)
      && (step.Next? ==> StepLeaves(s, list[0], step.store, step.didRecover) && WellFormed(step.store)
                         && Stored(step.store, list[1..]) && EndStore(step.store, list[1..]) == EndStore(s, list))
  {
    var step := Settle(s, resolver, list[0]);
    SettleLeaves(s0, s, resolver, list[0]);
    SettleEvolves(s, resolver, list[0]);
    EvolvesTransitive(s0, s, step.store);
    StopKeepsRuns(s, resolver, list[0]);
    hide Settle, Evolves;
    if step.Next? {
      StepKeepsStored(s, list, step.store, step.didRecover);
      StepKeepsWellFormed(s, list[0], step.store, step.didRecover);
      EndStoreStep(s, list, step.store, step.didRecover);
    }
    hide StepLeaves, EndStore, Stored;
  }

  lemma StopKeepsRuns(s: Store, resolver: Resolver, a: Action)
    ensures Settle(s, resolver, a).Stop? ==> Settle(s, resolver, a).store.runs == s.runs
  {
    hide RecoverRun;
  }

  /** A successful loop, however Runs are resolved, ends in the store read off its start. */
  lemma {:induction false} LoopEnds(s0: Store, s: Store, resolver: Resolver, list: seq<Action>)
    requires Evolves(s0, s) && ResolvesFrom(s0, resolver) && Stored(s, list) && WellFormed(s)
    requires Loop(s, resolver, list).error == None
    ensures Loop(s, resolver, list).store == EndStore(s, list)
    decreases |list|
  {
    if list == [] {
      assert EndStore(s, list) == s;
    } else {
      Turn(s0, s, resolver, list);
      hide Settle, StepLeaves, EndStore, Stored, Evolves, WellFormed;
      LoopEnds(s0, Settle(s, resolver, list[0]).store, resolver, list[1..]);
    }
  }

  /** Whether or not the loop fails later, a Run it has closed has its final record. */
  lemma {:induction false} ClosedRunIsFinal(s0: Store, s: Store, resolver: Resolver, list: seq<Action>, r: ID)
    requires Evolves(s0, s) && ResolvesFrom(s0, resolver) && Stored(s, list) && WellFormed(s) && r in s.runs
    ensures var after := Loop(s, resolver, list).store.runs;
      r in after && (after[r] == s.runs[r]
                     || (Recoverable(s, r) && FirstSettler(list, r).Some? && after[r] == EndRun(s, list, r)))
    decreases |list|
  {
    if list != [] {
      var step := Settle(s, resolver, list[0]);
      Turn(s0, s, resolver, list);
      hide Settle, Stored, Evolves, WellFormed, EndStore;
      if step.Next? { ClosedRunAfterTurn(s0, s, resolver, list, r); }
    }
  }

  lemma ClosedRunAfterTurn(s0: Store, s: Store, resolver: Resolver, list: seq<Action>, r: ID)
    requires Evolves(s0, s) && ResolvesFrom(s0, resolver) && Stored(s, list) && WellFormed(s) && r in s.runs && list != []
    requires Settle(s, resolver, list[0]).Next?
    ensures var after := Loop(s, resolver, list).store.runs;
      r in after && (after[r] == s.runs[r]
                     || (Recoverable(s, r) && FirstSettler(list, r).Some? && after[r] == EndRun(s, list, r)))
    decreases |list|, 0
  {
    var step := Settle(s, resolver, list[0]);
    var t, did := step.store, step.didRecover;
    hide Settle, EndStore, StepLeaves, Stored, Verdict, EndSummary, CloseRun, WellFormed, Evolves;
    Turn(s0, s, resolver, list);
    OneRun(s, list[0], t, did, r);
    EndRunStep(s, list, t, did, r);
    ClosedRunIsFinal(s0, t, resolver, list[1..], r);
  }

  lemma ScopeStored(s: Store)
    requires WellFormed(s)
    ensures Stored(s, RecoveryScope(s))
    ensures forall a :: a in RecoveryScope(s) <==> a.actionID in s.actions && s.actions[a.actionID] == a && InScope(s, a)
  {
    var scoped := set a | a in s.actions.Values && InScope(s, a);
    ListingStored(s, scoped);
  }
}
