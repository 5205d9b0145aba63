/** Comparing recoveries: Runs read live against one shared pass, and the bounded scope against
    the whole history. */
module RecoveryResolvers {
  import opened Options
  import opened Ordering
  import opened Text
  import opened Recovery
  import opened RecoveryRefinement
  import opened RecoveryEnd

  // ---- what a pass gets past ----

  /** The turn of the loop at `list[k]`, in the store its elders leave, which is read off the
      store the loop starts from. */
  ghost function TurnAt(s: Store, resolver: Resolver, list: seq<Action>, k: nat): Step
    requires k < |list|
  {
    Settle(EndStore(s, list[..k]), resolver, list[k])
  }

  /** No Action of the scope that is `d` or older stops the recovery in the store its elders
      leave. */
  ghost predicate GetsPast(s: Store, resolver: Resolver, d: Action) {
    var scope := RecoveryScope(s);
    forall k | 0 <= k < |scope| && (scope[k] == d || Before(scope[k], d)) :: TurnAt(s, resolver, scope, k).Next?
  }

  lemma StoredPrefix(s: Store, list: seq<Action>, k: nat)
    requires Stored(s, list) && k <= |list|
    ensures Stored(s, list[..k])
  {
  }

  lemma PrefixTail(list: seq<Action>, k: nat)
    requires 0 < k <= |list|
    ensures list[..k] != [] && list[..k][0] == list[0] && list[..k][1..] == list[1..][..k - 1]
  {
  }

  /** One turn on, the turns to come are the same. */
  lemma TurnAtTail(s0: Store, s: Store, resolver: Resolver, list: seq<Action>, k: nat)
    requires Evolves(s0, s) && ResolvesFrom(s0, resolver) && Stored(s, list) && WellFormed(s)
    requires 0 < k < |list| && Settle(s, resolver, list[0]).Next?
    ensures TurnAt(s, resolver, list, k) == TurnAt(Settle(s, resolver, list[0]).store, resolver, list[1..], k - 1)
  {
    var step := Settle(s, resolver, list[0]);
    PrefixTail(list, k);
    StoredPrefix(s, list, k);
    hide Settle, EndStore;
    Turn(s0, s, resolver, list);
    EndStoreStep(s, list[..k], step.store, step.didRecover);
    hide StepLeaves, Stored, Evolves, WellFormed;
  }

  /** Turn `n` is the first that stops, and the outcome says so; or no turn stops, and `n` is
      the number of them. */
  ghost predicate StopsAt(s: Store, resolver: Resolver, list: seq<Action>, n: nat) {
    && n <= |list|
    && (forall k | 0 <= k < n :: TurnAt(s, resolver, list, k).Next?)
    && var error := Loop(s, resolver, list).error;
       if n < |list| then TurnAt(s, resolver, list, n).Stop? && error.Some? && error.value.actionID == list[n].actionID
       else error == None
  }

  lemma StopsLater(s0: Store, s: Store, resolver: Resolver, list: seq<Action>, m: nat)
    requires Evolves(s0, s) && ResolvesFrom(s0, resolver) && Stored(s, list) && WellFormed(s)
    requires list != [] && Settle(s, resolver, list[0]).Next?
    requires StopsAt(Settle(s, resolver, list[0]).store, resolver, list[1..], m)
    ensures StopsAt(s, resolver, list, m + 1)
  {
    var t := Settle(s, resolver, list[0]).store;
    FirstTurn(s, resolver, list);
    LoopHead(s, resolver, list);
    hide Settle, TurnAt, Evolves, Stored, WellFormed, Loop;
    forall k | 1 <= k < |list| ensures TurnAt(s, resolver, list, k) == TurnAt(t, resolver, list[1..], k - 1) {
      TurnAtTail(s0, s, resolver, list, k);
    }
  }

  /** The loop stops at the first Action that stops in the store read off its elders. */
  lemma {:induction false} FirstStop(s0: Store, s: Store, resolver: Resolver, list: seq<Action>) returns (n: nat)
    requires Evolves(s0, s) && ResolvesFrom(s0, resolver) && Stored(s, list) && WellFormed(s)
    ensures StopsAt(s, resolver, list, n)
    decreases |list|
  {
    if list == [] { return 0; }
    hide Settle, EndStore, Evolves, Stored, WellFormed, TurnAt;
    var step := Settle(s, resolver, list[0]);
    if step.Stop? {
      FirstTurn(s, resolver, list);
      LoopHead(s, resolver, list);
      return 0;
    }
    hide StepLeaves, StopsAt;
    Turn(s0, s, resolver, list);
    var m := FirstStop(s0, step.store, resolver, list[1..]);
    n := m + 1;
    StopsLater(s0, s, resolver, list, m);
  }

  lemma FirstTurn(s: Store, resolver: Resolver, list: seq<Action>)
    requires list != []
    ensures TurnAt(s, resolver, list, 0) == Settle(s, resolver, list[0])
    ensures var step := Settle(s, resolver, list[0]); step.Stop? ==> step.error.actionID == list[0].actionID
  {
    assert list[..0] == [] && EndStore(s, []) == s;
    StopNamesAction(s, resolver, list[0]);
    hide Settle, EndStore;
  }

  lemma BeforeIsStrict(a: Action, b: Action, c: Action)
    ensures !Before(a, a) && !(Before(a, b) && Before(b, a))
    ensures Before(a, b) && Before(b, c) ==> Before(a, c)
    ensures Before(a, b) || Before(b, a) || a.actionID == b.actionID
  {
    StringLessTrichotomy(a.actionID, b.actionID);
    StringLessTrichotomy(a.actionID, a.actionID);
    if a.createdAt == b.createdAt == c.createdAt && StringLess(a.actionID, b.actionID) && StringLess(b.actionID, c.actionID) {
      StringLessTransitive(a.actionID, b.actionID, c.actionID);
    }
  }

  /** Getting past an Action is what the outcome of the pass says of it. */
  lemma GetsPastIsReaches(s: Store, resolver: Resolver, d: Action)
    requires WellFormed(s) && ResolvesFrom(s, resolver) && d in s.actions.Values
    ensures GetsPast(s, resolver, d) <==> Reaches(s, Pass(s, resolver).error, d)
  {
    var scope := RecoveryScope(s);
    ScopeStored(s);
    ScopeSorted(s);
    var n := FirstStop(s, s, resolver, scope);
    hide Settle, EndStore, RecoveryScope, Loop, TurnAt;
    if n < |scope| {
      assert s.actions[scope[n].actionID] == scope[n];
      var id :| id in s.actions && s.actions[id] == d;
      BeforeIsStrict(d, scope[n], d);
      hide Before;
      if Before(d, scope[n]) {
        forall k | 0 <= k < |scope| && (scope[k] == d || Before(scope[k], d)) ensures k < n {
          BeforeIsStrict(scope[k], d, scope[n]);
          BeforeIsStrict(scope[n], scope[k], d);
        }
      }
    }
  }

  lemma ScopeSorted(s: Store)
    requires WellFormed(s)
    ensures var scope := RecoveryScope(s); forall j, k | 0 <= j < k < |scope| :: Before(scope[j], scope[k])
  {
    var scoped := set a | a in s.actions.Values && InScope(s, a);
    ListingLists(s, scoped);
  }

  // ---- the bounded scope against the whole history ----

  /** The recovery over the whole history and the one over the bounded scope end with the same
      stores, count and result, unless a finished Action outside the scope names a Run that no
      Task owns and no older Action of the scope stops the recovery: then, and only then, they
      differ. */
  lemma ScopeRefinesWholeHistory(s: Store, resolver: Resolver)
    requires WellFormed(s) && ResolvesFrom(s, resolver)
    ensures Loop(s, resolver, WholeHistory(s)) != Pass(s, resolver) <==>
            exists d :: Dangling(s, d) && GetsPast(s, resolver, d)
  {
    WalksPartAtDangling(s, resolver);
    forall d | Dangling(s, d) ensures GetsPast(s, resolver, d) <==> Reaches(s, Pass(s, resolver).error, d) {
      assert d in s.actions.Values;
      GetsPastIsReaches(s, resolver, d);
    }
    hide GetsPast, Reaches, Pass, Loop, Dangling;
  }

  // ---- live reads against one shared pass ----

  /** A settling Action names a Task that does not own its running Run. */
  ghost predicate Strays(s: Store, a: Action) {
    && a.actionID in s.actions && s.actions[a.actionID] == a && Settles(a)
    && IsRunning(s, a.runID) && s.runs[a.runID].taskID != a.taskID
  }

  /** The Run belongs to its Task, as that Task's latest. */
  ghost predicate Owned(s0: Store, s: Store, r: ID)
    requires r in s0.runs && r in s.runs
  {
    && s.generation != 0 && s.runs[r].taskID in s.tasks && IsLatestRun(s, s.runs[r].taskID, r)
    && s.runs[r].taskID == s0.runs[r].taskID && TrimSpace(s0.runs[r].assignee) != ""
  }

  /** Every Run closed since `s0` was closed by its own Task, as that Task's latest. */
  ghost predicate ClosedByOwner(s0: Store, s: Store) {
    && Evolves(s0, s)
    && forall r | r in s0.runs && IsRunning(s0, r) && !IsRunning(s, r) :: Owned(s0, s, r)
  }

  lemma ResolversAgree(s0: Store, s: Store, a: Action, status: ActionStatus, summary: string)
    requires ClosedByOwner(s0, s) && (IsRunning(s0, a.runID) ==> s0.runs[a.runID].taskID == a.taskID)
    requires status != ActionStatus.Open
    ensures SettleRun(s, Shared(s0.runs), a, status, summary) == SettleRun(s, Live, a, status, summary)
  {
  }

  lemma SettleResolversAgree(s0: Store, s: Store, a: Action)
    requires ClosedByOwner(s0, s) && (IsRunning(s0, a.runID) && Settles(a) ==> s0.runs[a.runID].taskID == a.taskID)
    ensures Settle(s, Shared(s0.runs), a) == Settle(s, Live, a)
  {
    if Settles(a) {
      var c := CancelAction(s, a.actionID, a.currentAttemptID, CANCEL_SUMMARY);
      if a.status != ActionStatus.Open {
        ResolversAgree(s0, s, a, a.status, a.summary);
      } else if c.Some? {
        assert ClosedByOwner(s0, c.value);
        ResolversAgree(s0, c.value, a, ActionStatus.Cancelled, CANCEL_SUMMARY);
      }
    }
    hide SettleRun, ClosedByOwner;
  }

  lemma LatestStays(s: Store, a: Action, t: Store, did: bool, k: ID, r: ID)
    requires StepLeaves(s, a, t, did) && IsLatestRun(s, k, r)
    ensures IsLatestRun(t, k, r)
  {
    StepKeepsKeys(s, a, t, did);
    forall q | q in t.runs
      ensures t.runs[q].taskID == s.runs[q].taskID && t.runs[q].startedAt == s.runs[q].startedAt
      ensures t.runs[q].status == s.runs[q].status || t.runs[q].status != RunStatus.Running
    {
      OneRun(s, a, t, did, q);
      hide StepLeaves, Verdict, EndSummary;
    }
    hide StepLeaves;
  }

  lemma StepKeepsOwned(s0: Store, s: Store, a: Action, t: Store, did: bool, r: ID)
    requires StepLeaves(s, a, t, did) && r in s0.runs && r in s.runs && r in t.runs
    requires if did && r == a.runID then s.runs[r] == s0.runs[r] && s.generation != 0 && TrimSpace(s.runs[r].assignee) != ""
             else Owned(s0, s, r)
    ensures Owned(s0, t, r)
  {
    StepKeepsKeys(s, a, t, did);
    OneRun(s, a, t, did, r);
    assert IsLatestRun(s, s.runs[r].taskID, r) && s.runs[r].taskID in s.tasks;
    hide TrimSpace, FinalStatus;
    LatestStays(s, a, t, did, s.runs[r].taskID, r);
    hide IsLatestRun, StepLeaves;
  }

  lemma StepKeepsClosedByOwner(s0: Store, s: Store, a: Action, t: Store, did: bool)
    requires ClosedByOwner(s0, s) && Settle(s, Live, a) == Next(t, did)
    ensures ClosedByOwner(s0, t)
  {
    hide Settle, TrimSpace, FinalStatus, StepLeaves;
    SettleLeaves(s, s, Live, a);
    SettleEvolves(s, Live, a);
    EvolvesTransitive(s0, s, t);
    ClosedNeedsOwner(s, a);
    hide Owned;
    forall r | r in s0.runs && IsRunning(s0, r) && !IsRunning(t, r) ensures Owned(s0, t, r) {
      OneRun(s, a, t, did, r);
      StepKeepsOwned(s0, s, a, t, did, r);
    }
  }

  lemma ClosedNeedsOwner(s: Store, a: Action)
    ensures var step := Settle(s, Live, a); step.Next? && step.didRecover ==>
              s.generation != 0 && a.runID in s.runs && TrimSpace(s.runs[a.runID].assignee) != ""
  {
  }

  lemma {:induction false} LoopResolversAgree(s0: Store, s: Store, list: seq<Action>)
    requires ClosedByOwner(s0, s)
    requires forall a | a in list && IsRunning(s0, a.runID) && Settles(a) :: s0.runs[a.runID].taskID == a.taskID
    ensures Loop(s, Shared(s0.runs), list) == Loop(s, Live, list)
    decreases |list|
  {
    if list != [] {
      assert list[0] in list;
      SettleResolversAgree(s0, s, list[0]);
      var step := Settle(s, Live, list[0]);
      if step.Next? {
        StepKeepsClosedByOwner(s0, s, list[0], step.store, step.didRecover);
        hide Settle, ClosedByOwner;
        LoopResolversAgree(s0, step.store, list[1..]);
      }
    }
  }

  lemma SharedStepNeedsOwner(s0: Store, s: Store, a: Action)
    requires Evolves(s0, s) && IsRunning(s0, a.runID) && Settles(a) && Settle(s, Shared(s0.runs), a).Next?
    ensures a.runID in s.runs && s.runs[a.runID].taskID == a.taskID
  {
  }

  lemma {:induction false} SharedSuccessNeedsOwners(s0: Store, s: Store, list: seq<Action>)
    requires Evolves(s0, s) && Loop(s, Shared(s0.runs), list).error == None
    requires forall r | r in s0.runs :: s.runs[r].taskID == s0.runs[r].taskID
    ensures forall a | a in list && IsRunning(s0, a.runID) && Settles(a) :: s0.runs[a.runID].taskID == a.taskID
    decreases |list|
  {
    if list != [] {
      var a, rest := list[0], list[1..];
      assert list == [a] + rest;
      var step := Settle(s, Shared(s0.runs), a);
      if IsRunning(s0, a.runID) && Settles(a) { SharedStepNeedsOwner(s0, s, a); }
      SettleEvolves(s, Shared(s0.runs), a);
      EvolvesTransitive(s0, s, step.store);
      SettleKeepsOwners(s, Shared(s0.runs), a);
      hide Settle;
      SharedSuccessNeedsOwners(s0, step.store, rest);
    }
  }

  lemma SettleKeepsOwners(s: Store, resolver: Resolver, a: Action)
    ensures var t := Settle(s, resolver, a).store;
            t.runs.Keys == s.runs.Keys && forall r | r in s.runs :: t.runs[r].taskID == s.runs[r].taskID
  {
    var c := CancelAction(s, a.actionID, a.currentAttemptID, CANCEL_SUMMARY);
    SettleRunKeepsOwners(s, resolver, a, a.status, a.summary);
    if c.Some? { SettleRunKeepsOwners(c.value, resolver, a, ActionStatus.Cancelled, CANCEL_SUMMARY); }
    hide SettleRun;
  }

  lemma SettleRunKeepsOwners(s: Store, resolver: Resolver, a: Action, status: ActionStatus, summary: string)
    ensures var t := SettleRun(s, resolver, a, status, summary).store;
            t.runs.Keys == s.runs.Keys && forall r | r in s.runs :: t.runs[r].taskID == s.runs[r].taskID
  {
  }

  // ---- the two resolvers, failing passes included ----

  /** Where the live recovery stops at a stray Action, the shared one stops alike. */
  lemma StrayStopsAlike(s0: Store, s: Store, a: Action)
    requires Evolves(s0, s) && Strays(s0, a) && Settle(s, Live, a).Stop?
    ensures Settle(s, Shared(s0.runs), a) == Settle(s, Live, a)
  {
  }

  lemma StrayStopsShared(s0: Store, s: Store, a: Action)
    requires ClosedByOwner(s0, s) && Strays(s0, a)
    ensures Settle(s, Shared(s0.runs), a).Stop?
  {
    if Settle(s, Shared(s0.runs), a).Next? { SharedStepNeedsOwner(s0, s, a); }
    hide Settle;
  }

  /** One turn under the two resolvers. */
  lemma TurnsPart(s0: Store, s: Store, a: Action)
    requires ClosedByOwner(s0, s) && a.actionID in s0.actions && s0.actions[a.actionID] == a
    ensures var live, shared := Settle(s, Live, a), Settle(s, Shared(s0.runs), a);
      if Strays(s0, a) then shared.Stop? && (live.Stop? ==> shared == live) else shared == live
    ensures var live, shared := Settle(s, Live, a), Settle(s, Shared(s0.runs), a);
      && (live.Stop? ==> live.error.actionID == a.actionID)
      && (shared.Stop? ==> shared.error.actionID == a.actionID)
  {
    StopNamesAction(s, Live, a);
    StopNamesAction(s, Shared(s0.runs), a);
    hide Settle;
    if Strays(s0, a) {
      StrayStopsShared(s0, s, a);
      if Settle(s, Live, a).Stop? { StrayStopsAlike(s0, s, a); }
    } else {
      SettleResolversAgree(s0, s, a);
    }
  }

  ghost predicate PartsAtStray(s0: Store, s: Store, list: seq<Action>) {
    var live, shared := Loop(s, Live, list), Loop(s, Shared(s0.runs), list);
    live != shared <==> exists a :: a in list && Strays(s0, a) && Reaches(s0, live.error, a)
  }

  lemma PartsLater(s0: Store, s: Store, list: seq<Action>)
    requires list != [] && ClosedByOwner(s0, s) && Stored(s0, list) && Sorted(Before, list)
    requires var live := Settle(s, Live, list[0]); live.Next? ==> PartsAtStray(s0, live.store, list[1..])
    ensures PartsAtStray(s0, s, list)
  {
    var a, rest := list[0], list[1..];
    hide Settle, ClosedByOwner, Before, Strays;
    HeadIsOldest(s0, list);
    hide Stored, Sorted;
    TurnsPart(s0, s, a);
    LoopHead(s, Live, list);
    LoopHead(s, Shared(s0.runs), list);
    hide Loop;
    var live := Settle(s, Live, a);
    if live.Stop? {
      BeforeIsStrict(a, a, a);
    } else if Strays(s0, a) {
      ErrorNamesListed(s0, live.store, Live, rest);
      assert Reaches(s0, Loop(s, Live, list).error, a) && Loop(s, Live, list).error != Loop(s, Shared(s0.runs), list).error;
      hide Reaches;
    } else {
      hide Reaches;
    }
  }

  lemma {:induction false} ResolversPartAtStray(s0: Store, s: Store, list: seq<Action>)
    requires ClosedByOwner(s0, s) && Stored(s0, list) && Sorted(Before, list)
    ensures PartsAtStray(s0, s, list)
    decreases |list|
  {
    if list == [] { return; }
    hide Settle, ClosedByOwner, PartsAtStray;
    HeadIsOldest(s0, list);
    var live := Settle(s, Live, list[0]);
    if live.Next? {
      StepKeepsClosedByOwner(s0, s, list[0], live.store, live.didRecover);
      ResolversPartAtStray(s0, live.store, list[1..]);
    }
    PartsLater(s0, s, list);
  }

  /** Reading Runs live and reading them once up front give different recoveries exactly when
      a settling Action names a Task other than the owner of its running Run, and the live
      recovery gets past it. */
  lemma ResolversDifferExactly(s: Store)
    requires WellFormed(s)
    ensures SharedRecovery(s) != LiveRecovery(s) <==> exists a :: Strays(s, a) && GetsPast(s, Live, a)
  {
    ScopeStored(s);
    ScopeSorted(s);
    ResolversPartAtStray(s, s, RecoveryScope(s));
    forall a | Strays(s, a)
      ensures a in RecoveryScope(s) && (GetsPast(s, Live, a) <==> Reaches(s, LiveRecovery(s).error, a))
    {
      assert a in s.actions.Values;
      GetsPastIsReaches(s, Live, a);
    }
    hide GetsPast, Reaches, Loop, Strays, RecoveryScope;
  }

  /** A shared pass that succeeds is the live one. */
  lemma SuccessIsShared(s: Store)
    requires WellFormed(s) && SharedRecovery(s).error == None
    ensures SharedRecovery(s) == LiveRecovery(s)
  {
    var list := RecoveryScope(s);
    SharedSuccessNeedsOwners(s, s, list);
    LoopResolversAgree(s, s, list);
    hide Loop, RecoveryScope;
  }

  // ---- examples ----

  const EXAMPLE_ACTION := Action("a1", "t1", "r1", "tool", "x", ActionStatus.Succeeded, "", 1, "done")
  const EXAMPLE_STRAY := EXAMPLE_ACTION.(actionID := "a2", taskID := "t2", createdAt := 2)
  const EXAMPLE_TASK := Task(TaskStatus.Running, "mio", "", "")
  const EXAMPLE_STORE := Store(
    map["a1" := EXAMPLE_ACTION, "a2" := EXAMPLE_STRAY], map[], map["t1" := EXAMPLE_TASK, "t2" := EXAMPLE_TASK],
    map["r1" := Run("t1", "mio", RunStatus.Running, 1, 0, "")], 2)

  lemma ExampleScope()
    ensures WellFormed(EXAMPLE_STORE) && RecoveryScope(EXAMPLE_STORE) == [EXAMPLE_ACTION, EXAMPLE_STRAY]
  {
    var s, list := EXAMPLE_STORE, [EXAMPLE_ACTION, EXAMPLE_STRAY];
    assert s.actions["a1"] == EXAMPLE_ACTION && s.actions["a2"] == EXAMPLE_STRAY;
    var scoped := set a | a in s.actions.Values && InScope(s, a);
    assert Elements(list) == scoped by {
      forall a ensures a in list <==> a in scoped {
        if a in scoped { var id :| id in s.actions && s.actions[id] == a; }
      }
    }
    ListingIsUnique(s, scoped, list);
  }

  lemma ExampleFirstStep(resolver: Resolver) returns (closed: Store)
    requires ResolvesFrom(EXAMPLE_STORE, resolver)
    ensures Settle(EXAMPLE_STORE, resolver, EXAMPLE_ACTION) == Next(closed, true)
    ensures closed.generation == 2 && closed.tasks.Keys == {"t1", "t2"} && closed.runs.Keys == {"r1"}
    ensures closed.runs["r1"] == EXAMPLE_STORE.runs["r1"].(status := RunStatus.Succeeded, summary := "done")
  {
    assert TrimSpace("mio") == "mio" && TrimSpace("done") == "done";
    hide TrimSpace;
    closed := Settle(EXAMPLE_STORE, resolver, EXAMPLE_ACTION).store;
  }

  lemma ExampleSecondStep(closed: Store)
    requires closed.generation == 2 && closed.tasks.Keys == {"t1", "t2"} && closed.runs.Keys == {"r1"}
    requires closed.runs["r1"] == EXAMPLE_STORE.runs["r1"].(status := RunStatus.Succeeded, summary := "done")
    ensures Settle(closed, Live, EXAMPLE_STRAY) == Next(closed, false)
    ensures Settle(closed, Shared(EXAMPLE_STORE.runs), EXAMPLE_STRAY) == Stop(closed, RunRefused("a2"))
  {
  }

  lemma TwoSteps(s: Store, resolver: Resolver, a: Action, b: Action, t: Store)
    requires Settle(s, resolver, a) == Next(t, true)
    ensures Settle(t, resolver, b) == Next(t, false) ==> Loop(s, resolver, [a, b]) == Outcome(t, 1, None)
    ensures Settle(t, resolver, b).Stop? ==> Loop(s, resolver, [a, b]).error == Some(Settle(t, resolver, b).error)
  {
    hide Settle;
    assert [a, b][1..] == [b] && [b][1..] == [];
    assert Settle(t, resolver, b) == Next(t, false) ==> Loop(t, resolver, [b]) == Outcome(t, 0, None);
  }

  /** The two ways of resolving Runs do differ: a second Action that names another Task than
      the Run's owner is passed over by live reads, and refused by the shared pass. */
  lemma StrayExample()
    ensures WellFormed(EXAMPLE_STORE) && Strays(EXAMPLE_STORE, EXAMPLE_STRAY)
    ensures LiveRecovery(EXAMPLE_STORE).error == None && LiveRecovery(EXAMPLE_STORE).recovered == 1
    ensures SharedRecovery(EXAMPLE_STORE).error == Some(RunRefused("a2"))
  {
    var s := EXAMPLE_STORE;
    ExampleScope();
    assert Strays(s, EXAMPLE_STRAY);
    var shared := Shared(s.runs);
    hide Settle, RecoveryScope, Strays, Loop, WellFormed;
    var t := ExampleFirstStep(Live);
    ExampleSecondStep(t);
    TwoSteps(s, Live, EXAMPLE_ACTION, EXAMPLE_STRAY, t);
    var u := ExampleFirstStep(shared);
    ExampleSecondStep(u);
    TwoSteps(s, shared, EXAMPLE_ACTION, EXAMPLE_STRAY, u);
  }

  lemma HasHead(list: seq<Action>)
    ensures list == [] || list[0] in list
  {
  }

  const DANGLING_STORE := Store(map["a1" := EXAMPLE_ACTION], map[], map["t1" := EXAMPLE_TASK], map[], 2)

  /** The two walks do differ: over a finished Action whose Run no Task owns the bounded pass
      succeeds with nothing to do, and the walk over the history stops. */
  lemma DanglingExample()
    ensures WellFormed(DANGLING_STORE)
    ensures Pass(DANGLING_STORE, Live) == Outcome(DANGLING_STORE, 0, None)
    ensures Loop(DANGLING_STORE, Live, WholeHistory(DANGLING_STORE)).error == Some(RunMissing("a1"))
  {
    var s := DANGLING_STORE;
    assert s.actions["a1"] == EXAMPLE_ACTION;
    ScopeStored(s);
    HasHead(RecoveryScope(s));
    assert Elements([EXAMPLE_ACTION]) == s.actions.Values;
    ListingIsUnique(s, s.actions.Values, [EXAMPLE_ACTION]);
    hide RecoveryScope, WholeHistory;
  }
}
