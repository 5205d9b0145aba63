/** The bounded recovery refines the recovery over the whole history. */
module RecoveryRefinement {
  import opened Options
  import opened Ordering
  import opened Text
  import opened Recovery

  /** What the loop may do to the runs: close some that were running, and nothing else. */
  ghost predicate Evolves(s: Store, t: Store) {
    && t.generation == s.generation
    && t.runs.Keys == s.runs.Keys && t.tasks.Keys == s.tasks.Keys
    && t.actions.Keys == s.actions.Keys && t.attempts.Keys == s.attempts.Keys
    && forall r | r in s.runs ::
         t.runs[r] == s.runs[r] || (s.runs[r].status == RunStatus.Running && t.runs[r].status != RunStatus.Running)
  }

  lemma EvolvesTransitive(s: Store, t: Store, u: Store)
    requires Evolves(s, t) && Evolves(t, u)
    ensures Evolves(s, u)
  {
    forall r | r in s.runs
      ensures u.runs[r] == s.runs[r] || (s.runs[r].status == RunStatus.Running && u.runs[r].status != RunStatus.Running)
    {
      assert r in t.runs;
    }
  }

  lemma CancelEvolves(s: Store, actionID: ID, attemptID: ID, summary: string)
    ensures var t := CancelAction(s, actionID, attemptID, summary);
            t.Some? ==> Evolves(s, t.value) && t.value.runs == s.runs && t.value.tasks == s.tasks
  {
  }

  lemma RecoverRunEvolves(s: Store, taskID: ID, runID: ID, actor: string, status: TaskStatus, summary: string)
    ensures var t := RecoverRun(s, taskID, runID, actor, status, summary); t.Recovered? ==> Evolves(s, t.store)
  {
    hide TrimSpace;
  }

  lemma SettleRunEvolves(s: Store, resolver: Resolver, a: Action, status: ActionStatus, summary: string)
    ensures Evolves(s, SettleRun(s, resolver, a, status, summary).store)
  {
    var text := if summary == "" then DEFAULT_SUMMARY else summary;
    var run := Resolve(s, resolver, a.runID);
    assert Evolves(s, s);
    hide Evolves, RecoverRun, FinalStatus, Resolve;
    if run.Some? { RecoverRunEvolves(s, a.taskID, a.runID, run.value.assignee, FinalStatus(s, a, status), text); }
  }

  lemma CancelThenRunEvolves(s: Store, resolver: Resolver, a: Action)
    ensures var t := CancelAction(s, a.actionID, a.currentAttemptID, CANCEL_SUMMARY);
      t.Some? ==> Evolves(s, SettleRun(t.value, resolver, a, ActionStatus.Cancelled, CANCEL_SUMMARY).store)
  {
    var t := CancelAction(s, a.actionID, a.currentAttemptID, CANCEL_SUMMARY);
    CancelEvolves(s, a.actionID, a.currentAttemptID, CANCEL_SUMMARY);
    hide SettleRun, CancelAction;
    if t.Some? {
      SettleRunEvolves(t.value, resolver, a, ActionStatus.Cancelled, CANCEL_SUMMARY);
      EvolvesTransitive(s, t.value, SettleRun(t.value, resolver, a, ActionStatus.Cancelled, CANCEL_SUMMARY).store);
    }
  }

  /** A Run only ever leaves `running` while the loop runs. */
  lemma SettleEvolves(s: Store, resolver: Resolver, a: Action)
    ensures Evolves(s, Settle(s, resolver, a).store)
  {
    assert Evolves(s, s);
    hide Evolves, SettleRun, CancelAction;
    SettleRunEvolves(s, resolver, a, a.status, a.summary);
    CancelThenRunEvolves(s, resolver, a);
  }

  lemma {:induction false} LoopEvolves(s: Store, resolver: Resolver, list: seq<Action>)
    ensures Evolves(s, Loop(s, resolver, list).store)
    decreases |list|
  {
    if list != [] {
      SettleEvolves(s, resolver, list[0]);
      var step := Settle(s, resolver, list[0]);
      if step.Next? {
        LoopEvolves(step.store, resolver, list[1..]);
        EvolvesTransitive(s, step.store, Loop(step.store, resolver, list[1..]).store);
      }
    }
  }

  /** The resolvers the recovery can be given when it starts from `s0`. */
  predicate ResolvesFrom(s0: Store, resolver: Resolver) {
    resolver.Live? || resolver.snapshot == s0.runs
  }

  /** An Action outside the scope has nothing to settle, at any later moment of the loop;
      it only has its Run looked up. */
  lemma OutsideIsIdle(s0: Store, s: Store, resolver: Resolver, a: Action)
    requires Evolves(s0, s) && ResolvesFrom(s0, resolver) && !InScope(s0, a)
    ensures Settle(s, resolver, a) == if a.runID in s0.runs then Next(s, false) else Stop(s, RunMissing(a.actionID))
  {
  }

  /** The loop stopped at an Action the bounded scope never looks at. */
  predicate StoppedOutside(s0: Store, o: Outcome) {
    && o.error.Some? && o.error.value.RunMissing?
    && o.error.value.actionID in s0.actions && !InScope(s0, s0.actions[o.error.value.actionID])
  }

  lemma StopNamesAction(s: Store, resolver: Resolver, a: Action)
    ensures var step := Settle(s, resolver, a); step.Stop? ==> step.error.actionID == a.actionID
  {
  }

  lemma LoopHead(s: Store, resolver: Resolver, list: seq<Action>)
    requires list != []
    ensures var step, o := Settle(s, resolver, list[0]), Loop(s, resolver, list);
      && (step.Stop? ==> o == Outcome(step.store, 0, Some(step.error)))
      && (step.Next? ==> var rest := Loop(step.store, resolver, list[1..]);
                         o == rest.(recovered := rest.recovered + (if step.didRecover then 1 else 0)))
  {
    hide Settle;
  }

  lemma {:induction false} FilteredLoop(s0: Store, s: Store, resolver: Resolver, list: seq<Action>)
    requires Evolves(s0, s) && ResolvesFrom(s0, resolver) && Stored(s0, list)
    ensures var whole, scoped := Loop(s, resolver, list), Loop(s, resolver, Filter(ScopeTest(s0), list));
            (whole == scoped || StoppedOutside(s0, whole)) && !StoppedOutside(s0, scoped)
    decreases |list|
  {
    if list != [] {
      var a, rest := list[0], list[1..];
      var step := Settle(s, resolver, a);
      assert a in list && Stored(s0, rest);
      hide Settle, Evolves, InScope, Stored;
      SettleEvolves(s, resolver, a);
      EvolvesTransitive(s0, s, step.store);
      StopNamesAction(s, resolver, a);
      if !InScope(s0, a) { OutsideIsIdle(s0, s, resolver, a); }
      if InScope(s0, a) {
        var kept := Filter(ScopeTest(s0), list);
        assert kept == [a] + Filter(ScopeTest(s0), rest);
        assert kept[1..] == Filter(ScopeTest(s0), rest);
        if step.Next? { FilteredLoop(s0, step.store, resolver, rest); }
      } else {
        assert Filter(ScopeTest(s0), list) == Filter(ScopeTest(s0), rest);
        FilteredLoop(s0, s, resolver, rest);
      }
    }
  }

  /** A finished Action outside the scope whose Run no Task owns. */
  ghost predicate Dangling(s: Store, d: Action) {
    d.actionID in s.actions && s.actions[d.actionID] == d && !InScope(s, d) && d.runID !in s.runs
  }

  /** The Action the scoped recovery failed at, if any, comes after `d`. */
  predicate Reaches(s: Store, error: Option<Error>, d: Action) {
    error == None || (error.value.actionID in s.actions && Before(d, s.actions[error.value.actionID]))
  }

  lemma {:induction false} ErrorNamesListed(s0: Store, s: Store, resolver: Resolver, list: seq<Action>)
    requires Stored(s0, list)
    ensures var o := Loop(s, resolver, list);
            o.error.Some? ==> o.error.value.actionID in s0.actions && s0.actions[o.error.value.actionID] in list
    decreases |list|
  {
    if list != [] {
      assert list[0] in list && forall b | b in list[1..] :: b in list;
      StopNamesAction(s, resolver, list[0]);
      var step := Settle(s, resolver, list[0]);
      hide Settle;
      if step.Next? { ErrorNamesListed(s0, step.store, resolver, list[1..]); }
    }
  }

  lemma HeadIsOldest(s0: Store, list: seq<Action>)
    requires list != [] && Stored(s0, list) && Sorted(Before, list)
    ensures Stored(s0, list[1..]) && Sorted(Before, list[1..])
    ensures forall b | b in list[1..] :: Before(list[0], b) && !Before(b, list[0])
    ensures list == [list[0]] + list[1..] && s0.actions[list[0].actionID] == list[0]
  {
    assert list == [list[0]] + list[1..] && list[0] in list;
    forall b | b in list[1..] ensures Before(list[0], b) && !Before(b, list[0]) {
      HeadFirst(Before, list, b);
      StringLessTrichotomy(list[0].actionID, b.actionID);
    }
  }

  /** At a dangling Action outside the scope the two walks part. */
  lemma DanglingHead(s0: Store, s: Store, resolver: Resolver, list: seq<Action>)
    requires list != [] && Evolves(s0, s) && ResolvesFrom(s0, resolver) && Stored(s0, list) && Sorted(Before, list)
    requires !InScope(s0, list[0]) && list[0].runID !in s0.runs
    ensures var whole, scoped := Loop(s, resolver, list), Loop(s, resolver, Filter(ScopeTest(s0), list));
            whole != scoped && list[0] in list && Dangling(s0, list[0]) && Reaches(s0, scoped.error, list[0])
  {
    var a, kept := list[0], Filter(ScopeTest(s0), list[1..]);
    HeadIsOldest(s0, list);
    OutsideIsIdle(s0, s, resolver, a);
    FilteredLoop(s0, s, resolver, list);
    FilterStored(s0, list);
    FilterMembers(ScopeTest(s0), list[1..]);
    assert Filter(ScopeTest(s0), list) == kept;
    ErrorNamesListed(s0, s, resolver, kept);
    hide Settle, Evolves, Before, Stored;
  }

  ghost predicate PartsAtDangling(s0: Store, s: Store, resolver: Resolver, list: seq<Action>) {
    var whole, scoped := Loop(s, resolver, list), Loop(s, resolver, Filter(ScopeTest(s0), list));
    whole != scoped <==> exists d :: d in list && Dangling(s0, d) && Reaches(s0, scoped.error, d)
  }

  /** The walks do not part at an Action in the scope, or at one whose Run is known. */
  lemma PartsLater(s0: Store, s: Store, resolver: Resolver, list: seq<Action>)
    requires list != [] && Evolves(s0, s) && ResolvesFrom(s0, resolver) && Stored(s0, list) && Sorted(Before, list)
    requires InScope(s0, list[0]) || list[0].runID in s0.runs
    requires var step := Settle(s, resolver, list[0]); step.Next? ==> PartsAtDangling(s0, step.store, resolver, list[1..])
    ensures PartsAtDangling(s0, s, resolver, list)
  {
    var a, rest := list[0], list[1..];
    var kept := Filter(ScopeTest(s0), rest);
    HeadIsOldest(s0, list);
    hide Settle, Evolves, Before, Stored, Sorted;
    LoopHead(s, resolver, list);
    if !InScope(s0, a) {
      OutsideIsIdle(s0, s, resolver, a);
      assert Filter(ScopeTest(s0), list) == kept && !Dangling(s0, a);
      hide Filter, InScope, Loop, Reaches, Dangling;
    } else {
      StopNamesAction(s, resolver, a);
      assert Filter(ScopeTest(s0), list) == [a] + kept && ([a] + kept)[1..] == kept;
      LoopHead(s, resolver, [a] + kept);
      assert !Dangling(s0, a);
      hide Filter, InScope, Loop, Dangling;
      if Settle(s, resolver, a).Next? { hide Reaches; }
    }
  }

  lemma {:induction false} DanglingDecides(s0: Store, s: Store, resolver: Resolver, list: seq<Action>)
    requires Evolves(s0, s) && ResolvesFrom(s0, resolver) && Stored(s0, list) && Sorted(Before, list)
    ensures PartsAtDangling(s0, s, resolver, list)
    decreases |list|
  {
    if list == [] { return; }
    HeadIsOldest(s0, list);
    hide Settle, Evolves;
    if !InScope(s0, list[0]) && list[0].runID !in s0.runs {
      DanglingHead(s0, s, resolver, list);
      return;
    }
    hide PartsAtDangling;
    var step := Settle(s, resolver, list[0]);
    SettleEvolves(s, resolver, list[0]);
    EvolvesTransitive(s0, s, step.store);
    if step.Next? { DanglingDecides(s0, step.store, resolver, list[1..]); }
    PartsLater(s0, s, resolver, list);
  }

  lemma {:induction false} FilterStored(s0: Store, list: seq<Action>)
    requires Stored(s0, list)
    ensures Stored(s0, Filter(ScopeTest(s0), list))
  {
    if list != [] {
      FilterStored(s0, list[1..]);
      FilterMembers(ScopeTest(s0), list[1..]);
      var kept := Filter(ScopeTest(s0), list[1..]);
      assert list == [list[0]] + list[1..];
      forall j | 0 <= j < |kept| ensures kept[j].actionID != list[0].actionID {
        assert kept[j] in list[1..];
        var k :| 0 <= k < |list[1..]| && list[1..][k] == kept[j];
        assert list[k + 1] == kept[j];
      }
    }
  }

  /** The walk over the whole history and the pass over the bounded scope part exactly at a
      dangling Action that the scoped pass gets past. */
  lemma WalksPartAtDangling(s: Store, resolver: Resolver)
    requires WellFormed(s) && ResolvesFrom(s, resolver)
    ensures var whole, scoped := Loop(s, resolver, WholeHistory(s)), Pass(s, resolver);
            whole != scoped <==> exists d :: Dangling(s, d) && Reaches(s, scoped.error, d)
  {
    ListingStored(s, s.actions.Values);
    ListingLists(s, s.actions.Values);
    ScopeIsFilteredHistory(s);
    DanglingDecides(s, s, resolver, WholeHistory(s));
    assert forall d :: Dangling(s, d) ==> d in s.actions.Values && d in WholeHistory(s);
  }

  /** What verifyActionRunReferences accepts. */
  ghost predicate ReferencesResolve(s: Store) {
    forall id | id in s.actions :: s.actions[id].runID in s.runs
  }

  /** With every Run reference resolved the two agree, on failures too; and whenever the
      whole-history recovery succeeds so does the scoped one, with the same result. */
  lemma ScopedRecoveryAgrees(s: Store, resolver: Resolver)
    requires WellFormed(s) && ResolvesFrom(s, resolver)
    ensures var whole, scoped := Loop(s, resolver, WholeHistory(s)), Pass(s, resolver);
            ReferencesResolve(s) || whole.error == None ==> whole == scoped
  {
    WalksPartAtDangling(s, resolver);
    ListingStored(s, s.actions.Values);
    ScopeIsFilteredHistory(s);
    FilteredLoop(s, s, resolver, WholeHistory(s));
  }
}
