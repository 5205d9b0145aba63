/** The guarantees of restart recovery over every store it can start from. */
module RecoveryTheorems {
  import opened Options
  import opened Ordering
  import opened Text
  import opened Recovery
  import opened RecoveryRefinement
  import opened RecoveryEnd
  import opened RecoveryResolvers

  // ---- deterministic settlement ----

  /** Of the Actions of the Run that the recovery settles, `a` is the oldest. */
  ghost predicate FirstToSettle(s: Store, runID: ID, a: Action) {
    && a.actionID in s.actions && s.actions[a.actionID] == a && a.runID == runID && Settles(a)
    && forall id | id in s.actions && s.actions[id].runID == runID && Settles(s.actions[id]) ::
         s.actions[id] == a || Before(a, s.actions[id])
  }

  lemma {:induction false} FirstSettlerIsOldest(list: seq<Action>, runID: ID)
    requires Sorted(Before, list)
    ensures var first := FirstSettler(list, runID);
            first.Some? ==> forall a | a in list && a.runID == runID && Settles(a) :: a == first.value || Before(first.value, a)
  {
    if list != [] {
      FirstSettlerIsOldest(list[1..], runID);
      forall a | a in list ensures a == list[0] || (a in list[1..] && Before(list[0], a)) {
        HeadFirst(Before, list, a);
        assert list == [list[0]] + list[1..];
      }
    }
  }

  /** On the scope, the first settling Action of a Run is the oldest of the whole history. */
  lemma FirstIsOldest(s: Store, runID: ID)
    requires WellFormed(s) && Recoverable(s, runID)
    ensures forall a :: FirstToSettle(s, runID, a) <==> FirstSettler(RecoveryScope(s), runID) == Some(a)
  {
    var list, scoped := RecoveryScope(s), set a | a in s.actions.Values && InScope(s, a);
    ScopeStored(s);
    ListingLists(s, scoped);
    BeforeOrders(s, s.actions.Values);
    FirstSettlerListed(list, runID);
    FirstSettlerIsOldest(list, runID);
    forall a | a in s.actions.Values && a.runID == runID ensures a in list {
      var id :| id in s.actions && s.actions[id] == a;
    }
    var first := FirstSettler(list, runID);
    if first.Some? { assert FirstToSettle(s, runID, first.value); }
    forall a | FirstToSettle(s, runID, a) ensures first == Some(a) {
      assert a in list;
    }
  }

  /** Whether or not the pass fails half-way and however Runs are resolved, the record of a
      Run it has closed is fixed by the oldest Action to settle that Run alone, and any other
      Run is as it was. A successful pass has closed every Run it can. */
  lemma SettlementIsDeterministic(s: Store, resolver: Resolver, runID: ID)
    requires WellFormed(s) && ResolvesFrom(s, resolver) && runID in s.runs
    ensures var o := Pass(s, resolver);
      && runID in o.store.runs
      && (o.store.runs[runID] == s.runs[runID]
          || (Recoverable(s, runID) && !IsRunning(o.store, runID) && exists a :: FirstToSettle(s, runID, a)))
      && (forall a :: FirstToSettle(s, runID, a) && Recoverable(s, runID)
                      && (o.error == None || !IsRunning(o.store, runID)) ==>
            o.store.runs[runID] == CloseRun(s.runs[runID], Verdict(s, a), EndSummary(a)))
  {
    var list, o := RecoveryScope(s), Pass(s, resolver);
    ScopeStored(s);
    ClosedRunIsFinal(s, s, resolver, list, runID);
    if o.error == None { LoopEnds(s, s, resolver, list); }
    EndStoreRun(s, list, runID);
    ClosedStatus(s, list, runID);
    if Recoverable(s, runID) { FirstIsOldest(s, runID); }
    hide EndStore, FirstToSettle, RecoveryScope, FirstSettler, Loop, Stored, WellFormed, CloseRun;
  }

  lemma ClosedStatus(s: Store, list: seq<Action>, runID: ID)
    requires runID in s.runs
    ensures Recoverable(s, runID) ==> s.runs[runID].status == RunStatus.Running
    ensures Recoverable(s, runID) && FirstSettler(list, runID).Some? ==> EndRun(s, list, runID).status != RunStatus.Running
  {
    FirstSettlerListed(list, runID);
  }

  lemma EndStoreRun(s: Store, list: seq<Action>, runID: ID)
    requires runID in s.runs
    ensures runID in EndStore(s, list).runs && EndStore(s, list).runs[runID] == EndRun(s, list, runID)
  {
  }

  // ---- the count ----

  ghost function Moved(s: Store, t: Store): set<ID> {
    set r | r in s.runs && IsRunning(s, r) && !IsRunning(t, r)
  }

  lemma SettleMoves(s: Store, resolver: Resolver, a: Action)
    ensures var step := Settle(s, resolver, a);
            Moved(s, step.store) == if step.Next? && step.didRecover then {a.runID} else {}
  {
    assert Moved(s, s) == {};
    hide SettleRun, Moved;
    CancelledMoves(s, resolver, a);
    SettleRunMoves(s, resolver, a, a.status, a.summary);
  }

  lemma CancelledMoves(s: Store, resolver: Resolver, a: Action)
    ensures var c := CancelAction(s, a.actionID, a.currentAttemptID, CANCEL_SUMMARY);
      c.Some? ==> var step := SettleRun(c.value, resolver, a, ActionStatus.Cancelled, CANCEL_SUMMARY);
                  Moved(s, c.value) == {} && Moved(s, step.store) == if step.Next? && step.didRecover then {a.runID} else {}
  {
    var c := CancelAction(s, a.actionID, a.currentAttemptID, CANCEL_SUMMARY);
    if c.Some? {
      SettleRunMoves(c.value, resolver, a, ActionStatus.Cancelled, CANCEL_SUMMARY);
      var t := SettleRun(c.value, resolver, a, ActionStatus.Cancelled, CANCEL_SUMMARY).store;
      assert Moved(s, t) == Moved(c.value, t);
    }
    hide SettleRun;
  }

  lemma SettleRunMoves(s: Store, resolver: Resolver, a: Action, status: ActionStatus, summary: string)
    ensures var step := SettleRun(s, resolver, a, status, summary);
            Moved(s, step.store) == if step.Next? && step.didRecover then {a.runID} else {}
  {
    hide TrimSpace;
  }

  lemma MovedAdds(s: Store, t: Store, u: Store)
    requires Evolves(s, t) && Evolves(t, u)
    ensures Moved(s, u) == Moved(s, t) + Moved(t, u) && Moved(s, t) !! Moved(t, u)
  {
  }

  /** The returned count is the number of Runs moved out of `running`, whether or not the
      pass fails half-way and however Runs are resolved. */
  lemma {:induction false} RecoveredCountsMovedRuns(s: Store, resolver: Resolver, list: seq<Action>)
    ensures var o := Loop(s, resolver, list); o.recovered == |Moved(s, o.store)|
    decreases |list|
  {
    if list == [] {
      assert Moved(s, s) == {};
    } else {
      var step := Settle(s, resolver, list[0]);
      hide Settle, Evolves, Moved;
      SettleMoves(s, resolver, list[0]);
      LoopHead(s, resolver, list);
      if step.Next? {
        RecoveredCountsMovedRuns(step.store, resolver, list[1..]);
        SettleEvolves(s, resolver, list[0]);
        LoopEvolves(step.store, resolver, list[1..]);
        MovedAdds(s, step.store, Loop(step.store, resolver, list[1..]).store);
      }
      hide Loop;
    }
  }

  // ---- the end state ----

  /** After a successful pass the open Actions are the native delegations that were open
      before, and a finished Action has a running Run only where that Run belongs to the
      process that is recovering. */
  lemma EndState(s: Store, resolver: Resolver)
    requires WellFormed(s) && ResolvesFrom(s, resolver) && Pass(s, resolver).error == None
    ensures var t := Pass(s, resolver).store;
            && t.actions.Keys == s.actions.Keys
            && (forall id | id in s.actions :: t.actions[id].status == ActionStatus.Open
                  <==> s.actions[id].status == ActionStatus.Open && IsNative(s.actions[id]))
            && (forall id | id in t.actions && t.actions[id].status != ActionStatus.Open && IsRunning(t, t.actions[id].runID) ::
                  t.runs[t.actions[id].runID].writerGeneration == t.generation)
  {
    var list := RecoveryScope(s);
    ScopeStored(s);
    LoopEnds(s, s, resolver, list);
    LoopEvolves(s, resolver, list);
    var t := EndStore(s, list);
    assert Pass(s, resolver).store == t;
    hide Loop, Settle, EndRun, EndTask, EndAttempt, Evolves;
    forall id | id in s.actions
      ensures t.actions[id].status == ActionStatus.Open <==> s.actions[id].status == ActionStatus.Open && IsNative(s.actions[id])
      ensures t.actions[id].runID == s.actions[id].runID
    {
      assert t.actions[id] == EndAction(s, list, id);
    }
    forall id | id in s.actions && t.actions[id].status != ActionStatus.Open && IsRunning(t, t.actions[id].runID)
      ensures t.runs[t.actions[id].runID].writerGeneration == t.generation
    {
      FinishedRunIsOwn(s, list, s.actions[id]);
    }
  }

  /** A settling Action whose running Run belongs to the recovering process itself. */
  ghost predicate OwnsRun(s: Store, id: ID) {
    id in s.actions && Settles(s.actions[id]) && IsRunning(s, s.actions[id].runID)
    && s.runs[s.actions[id].runID].writerGeneration == s.generation
  }

  ghost predicate FinishedRunning(t: Store, id: ID) {
    id in t.actions && t.actions[id].status != ActionStatus.Open && IsRunning(t, t.actions[id].runID)
  }

  /** No finished Action is left with a running Run exactly when none of the Actions to settle
      names a running Run of the recovering process. */
  lemma NoFinishedActionRunsExactly(s: Store, resolver: Resolver)
    requires WellFormed(s) && ResolvesFrom(s, resolver) && Pass(s, resolver).error == None
    ensures (forall id :: !FinishedRunning(Pass(s, resolver).store, id)) <==> forall id :: !OwnsRun(s, id)
  {
    var list, t := RecoveryScope(s), Pass(s, resolver).store;
    ScopeStored(s);
    hide Loop, Settle, EndTask, EndAttempt, RecoveryScope, Stored;
    LoopEnds(s, s, resolver, list);
    LoopEvolves(s, resolver, list);
    EndState(s, resolver);
    forall id | id in s.actions ensures id in t.actions && t.actions[id].runID == s.actions[id].runID {
      assert t.actions[id] == EndAction(s, list, id);
    }
    forall id ensures FinishedRunning(t, id) <==> OwnsRun(s, id) {
      if OwnsRun(s, id) {
        var r := s.actions[id].runID;
        assert t.runs[r] == EndRun(s, list, r) == s.runs[r];
      }
    }
  }

  lemma FinishedRunIsOwn(s: Store, list: seq<Action>, a: Action)
    requires a in list && Settles(a) && a.runID in s.runs && EndRun(s, list, a.runID).status == RunStatus.Running
    ensures EndRun(s, list, a.runID).writerGeneration == s.generation
  {
    FirstSettlerListed(list, a.runID);
  }

  // ---- a second pass ----

  ghost predicate Quiet(s: Store, a: Action) {
    Settle(s, Live, a) == Next(s, false)
  }

  /** The Action as the pass leaves it. */
  function After(a: Action): Action {
    if Cancels(a) then a.(status := ActionStatus.Cancelled, summary := CANCEL_SUMMARY) else a
  }

  lemma SettledIsQuiet(s: Store, a: Action)
    ensures var step := Settle(s, Live, a); step.Next? ==> Quiet(step.store, After(a))
  {
    SettleLeaves(s, s, Live, a);
    if Cancels(a) {
      var c := CancelAction(s, a.actionID, a.currentAttemptID, CANCEL_SUMMARY);
      if c.Some? { SettledRunIsQuiet(c.value, a, After(a), ActionStatus.Cancelled, CANCEL_SUMMARY); }
    } else {
      SettledRunIsQuiet(s, a, a, a.status, a.summary);
    }
    hide SettleRun;
  }

  lemma SettledRunIsQuiet(s: Store, a: Action, b: Action, status: ActionStatus, summary: string)
    requires a.runID == b.runID && a.taskID == b.taskID && a.actionID == b.actionID
    requires status == ActionStatus.Cancelled || a == b
    ensures var step := SettleRun(s, Live, a, status, summary);
            step.Next? ==> SettleRun(step.store, Live, b, status, summary) == Next(step.store, false)
  {
  }

  /** A running Run of this process, the latest of its Task, is not touched by settling others. */
  lemma OwnRunPersists(s: Store, taskID: ID, runID: ID, b: Action, t: Store, did: bool)
    requires IsLatestRun(s, taskID, runID) && IsRunning(s, runID) && s.runs[runID].writerGeneration == s.generation
    requires StepLeaves(s, b, t, did)
    ensures runID in t.runs && t.runs[runID] == s.runs[runID] && IsLatestRun(t, taskID, runID)
    ensures t.generation == s.generation
    ensures taskID in s.tasks ==> taskID in t.tasks && t.tasks[taskID] == s.tasks[taskID]
  {
    if did { assert b.runID != runID && b.taskID != taskID; }
    hide FinalStatus, TrimSpace;
  }

  /** A Run the recovery left running, because it is its own, stays left alone. */
  lemma UntouchedPersists(s: Store, taskID: ID, runID: ID, verdict: TaskStatus, summary: string, b: Action, t: Store, did: bool, later: TaskStatus)
    requires IsRunning(s, runID) && RecoverRun(s, taskID, runID, s.runs[runID].assignee, verdict, summary) == Untouched
    requires StepLeaves(s, b, t, did) && (later.Succeeded? || later.Failed? || later.Cancelled?)
    ensures IsRunning(t, runID) && t.runs[runID] == s.runs[runID]
    ensures RecoverRun(t, taskID, runID, t.runs[runID].assignee, later, summary) == Untouched
  {
    assert s.runs[runID].writerGeneration == s.generation && IsLatestRun(s, taskID, runID);
    OwnRunPersists(s, taskID, runID, b, t, did);
    hide StepLeaves, IsLatestRun, FinalStatus, TrimSpace;
  }

  lemma RunQuietPersists(s: Store, a: Action, status: ActionStatus, b: Action, t: Store, did: bool)
    requires SettleRun(s, Live, a, status, a.summary) == Next(s, false)
    requires StepLeaves(s, b, t, did)
    ensures SettleRun(t, Live, a, status, a.summary) == Next(t, false)
  {
    StepKeepsKeys(s, b, t, did);
    assert a.runID in s.runs && a.runID in t.runs;
    if IsRunning(s, a.runID) {
      var text := if a.summary == "" then DEFAULT_SUMMARY else a.summary;
      var verdict, later := FinalStatus(s, a, status), FinalStatus(t, a, status);
      assert RecoverRun(s, a.taskID, a.runID, s.runs[a.runID].assignee, verdict, text) == Untouched;
      UntouchedPersists(s, a.taskID, a.runID, verdict, text, b, t, did, later);
      hide StepLeaves, RecoverRun, FinalStatus;
    } else {
      hide RecoverRun, FinalStatus;
    }
  }

  lemma QuietPersists(s: Store, a: Action, b: Action, t: Store, did: bool)
    requires Quiet(s, a) && !Cancels(a) && StepLeaves(s, b, t, did) && a.actionID != b.actionID
    ensures Quiet(t, a)
  {
    assert CurrentAttempt(s, a) == CurrentAttempt(t, a);
    if Settles(a) {
      assert SettleRun(s, Live, a, a.status, a.summary) == Next(s, false);
      RunQuietPersists(s, a, a.status, b, t, did);
    }
    hide SettleRun;
  }

  lemma {:induction false} LoopLeavesQuiet(s: Store, list: seq<Action>, settled: set<Action>)
    requires Stored(s, list) && Loop(s, Live, list).error == None
    requires forall a | a in settled :: Quiet(s, a) && !Cancels(a) && forall b | b in list :: a.actionID != b.actionID
    ensures var t := Loop(s, Live, list).store;
            (forall a | a in settled :: Quiet(t, a)) && (forall a | a in list :: Quiet(t, After(a)))
    decreases |list|
  {
    if list != [] {
      var a, rest := list[0], list[1..];
      assert list == [a] + rest;
      SettleLeaves(s, s, Live, a);
      SettledIsQuiet(s, a);
      var step := Settle(s, Live, a);
      assert Loop(s, Live, list).store == Loop(step.store, Live, rest).store && Loop(step.store, Live, rest).error == None;
      StepKeepsStored(s, list, step.store, step.didRecover);
      forall b | b in settled ensures Quiet(step.store, b) {
        QuietPersists(s, b, a, step.store, step.didRecover);
      }
      hide Settle, Quiet, StepLeaves, Stored, Loop;
      LoopLeavesQuiet(step.store, rest, settled + {After(a)});
    }
  }

  lemma {:induction false} QuietLoop(s: Store, resolver: Resolver, list: seq<Action>)
    requires forall a | a in list :: Settle(s, resolver, a) == Next(s, false)
    ensures Loop(s, resolver, list) == Outcome(s, 0, None)
    decreases |list|
  {
    if list != [] {
      assert list[0] in list;
      QuietLoop(s, resolver, list[1..]);
    }
  }

  lemma LiveSecondPass(s: Store)
    requires WellFormed(s) && LiveRecovery(s).error == None
    ensures var t := LiveRecovery(s).store;
            WellFormed(t) && forall b | b in RecoveryScope(t) :: Quiet(t, b)
  {
    var list := RecoveryScope(s);
    ScopeStored(s);
    hide Loop, Settle, Quiet;
    LoopEnds(s, s, Live, list);
    LoopLeavesQuiet(s, list, {});
    var t := EndStore(s, list);
    assert LiveRecovery(s).store == t;
    assert WellFormed(t);
    ScopeStored(t);
    hide Stored, EndRun, EndTask, EndAttempt;
    forall b | b in RecoveryScope(t) ensures Quiet(t, b) {
      var a := s.actions[b.actionID];
      assert b == EndAction(s, list, b.actionID);
      assert InScope(s, a) && a in list;
      assert b == After(a);
    }
  }

  lemma SettleOwnSnapshot(s: Store, a: Action)
    ensures Settle(s, Shared(s.runs), a) == Settle(s, Live, a)
  {
    hide RecoverRun;
  }

  /** A second pass over what a successful pass left recovers nothing and changes nothing, in
      whichever way either of them resolves Runs. */
  lemma SecondPassIsIdle(s: Store, first: Resolver, second: Resolver)
    requires WellFormed(s) && ResolvesFrom(s, first) && Pass(s, first).error == None
    requires ResolvesFrom(Pass(s, first).store, second)
    ensures var t := Pass(s, first).store;
            WellFormed(t) && Pass(t, second) == Outcome(t, 0, None)
  {
    if first.Shared? { SuccessIsShared(s); }
    LiveSecondPass(s);
    var t := Pass(s, first).store;
    hide Loop, RecoveryScope;
    forall b | b in RecoveryScope(t) ensures Settle(t, second, b) == Next(t, false) {
      assert Quiet(t, b);
      SettleOwnSnapshot(t, b);
      hide Settle;
    }
    hide Settle;
    QuietLoop(t, second, RecoveryScope(t));
  }

  const OWN_RUN_STORE := Store(
    map["a1" := EXAMPLE_ACTION], map[], map["t1" := EXAMPLE_TASK],
    map["r1" := Run("t1", "mio", RunStatus.Running, 1, 0, "")], 1)

  /** The condition can fail: a finished Action whose Run this very process is running is
      passed over without an error, and the Run goes on. */
  lemma OwnRunExample()
    ensures WellFormed(OWN_RUN_STORE) && LiveRecovery(OWN_RUN_STORE).error == None
    ensures OwnsRun(OWN_RUN_STORE, "a1") && FinishedRunning(LiveRecovery(OWN_RUN_STORE).store, "a1")
  {
    var s, list := OWN_RUN_STORE, [EXAMPLE_ACTION];
    var scoped := set a | a in s.actions.Values && InScope(s, a);
    assert s.actions["a1"] == EXAMPLE_ACTION;
    assert Elements(list) == scoped by {
      forall a ensures a in list <==> a in scoped {
        if a in scoped { var id :| id in s.actions && s.actions[id] == a; }
      }
    }
    ListingIsUnique(s, scoped, list);
    assert TrimSpace("mio") == "mio";
    assert Settle(s, Live, EXAMPLE_ACTION) == Next(s, false);
    hide Settle, RecoveryScope;
    assert list[1..] == [] && Loop(s, Live, list) == Outcome(s, 0, None);
  }
}
