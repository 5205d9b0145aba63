/** The recovery as it runs: owners whose records the loop updates in place. Each method is
    proved against the functions of module Recovery. */
module RecoveryOwners {
  import opened Options
  import opened Ordering
  import opened Text
  import opened Recovery
  import opened RecoveryRefinement

  /** A store query: every field that is set must match. */
  datatype Filter = Filter(status: Option<ActionStatus>, kind: Option<string>, name: Option<string>, runID: Option<ID>)

  const EVERYTHING := Filter(None, None, None, None)

  predicate Matches(f: Filter, a: Action) {
    && (f.status == None || f.status == Some(a.status))
    && (f.kind == None || f.kind == Some(a.kind))
    && (f.name == None || f.name == Some(a.name))
    && (f.runID == None || f.runID == Some(a.runID))
  }

  /** The Runs that stored Actions name and no Task owns. */
  ghost function DanglingRuns(s: Store): set<ID> {
    set id | id in s.actions && s.actions[id].runID !in s.runs :: s.actions[id].runID
  }

  /** `ids` are the Runs that the first `n` Actions of the list name. */
  ghost predicate AreRunsOf(ids: set<ID>, list: seq<Action>, n: nat)
    requires n <= |list|
  {
    && (forall k | 0 <= k < n :: list[k].runID in ids)
    && (forall r | r in ids :: exists k :: 0 <= k < n && list[k].runID == r)
  }

  lemma OneMoreRun(ids: set<ID>, list: seq<Action>, i: nat)
    requires i < |list| && AreRunsOf(ids, list, i)
    ensures AreRunsOf(if list[i].runID in ids then ids else ids + {list[i].runID}, list, i + 1)
  {
  }

  lemma DanglingFound(s: Store, all: seq<Action>, checked: set<ID>, dangling: set<ID>)
    requires forall a :: a in all <==> a in s.actions.Values
    requires AreRunsOf(checked, all, |all|)
    requires forall r :: r in dangling <==> r in checked && r !in s.runs
    ensures dangling == DanglingRuns(s)
    ensures dangling == {} <==> ReferencesResolve(s)
  {
    forall r ensures r in dangling <==> r in DanglingRuns(s) {
      if r in dangling {
        var k :| 0 <= k < |all| && all[k].runID == r;
        assert all[k] in all;
        var id :| id in s.actions && s.actions[id] == all[k];
      }
      if r in DanglingRuns(s) {
        var id :| id in s.actions && s.actions[id].runID !in s.runs && r == s.actions[id].runID;
        assert s.actions[id] in s.actions.Values && s.actions[id] in all;
      }
    }
    forall id | id in s.actions && s.actions[id].runID !in s.runs ensures s.actions[id].runID in DanglingRuns(s) { }
  }

  lemma CountMissing(seen: set<ID>, known: set<ID>, r: ID)
    ensures |(seen + {r}) - known| == |seen - known| + (if r in seen || r in known then 0 else 1)
  {
    if r in seen || r in known {
      assert (seen + {r}) - known == seen - known;
    } else {
      assert (seen + {r}) - known == (seen - known) + {r};
    }
  }

  ghost predicate IsOldestDangling(s: Store, a: Action) {
    && a in s.actions.Values && a.runID !in s.runs
    && forall b | b in s.actions.Values && b.runID !in s.runs :: b == a || Before(a, b)
  }

  lemma OldestDangling(s: Store, at: nat)
    requires WellFormed(s) && at < |WholeHistory(s)| && WholeHistory(s)[at].runID !in s.runs
    requires forall k | 0 <= k < at :: WholeHistory(s)[k].runID in s.runs
    ensures IsOldestDangling(s, WholeHistory(s)[at]) && !ReferencesResolve(s)
  {
    ListingStored(s, s.actions.Values);
    ListingLists(s, s.actions.Values);
    var all := WholeHistory(s);
    assert all[at] in all;
    forall b | b in s.actions.Values && b.runID !in s.runs ensures b == all[at] || Before(all[at], b) {
      assert b in all;
      var k :| 0 <= k < |all| && all[k] == b;
    }
  }

  class Owners {
    var actions: map<ID, Action>
    var attempts: map<ID, Attempt>
    var tasks: map<ID, Task>
    var runs: map<ID, Run>
    const generation: nat

    constructor (s: Store)
      ensures State() == s
    {
      actions, attempts, tasks, runs, generation := s.actions, s.attempts, s.tasks, s.runs, s.generation;
    }

    function State(): Store
      reads this
    {
      Store(actions, attempts, tasks, runs, generation)
    }

    method ListActions(f: Filter) returns (found: seq<Action>)
      requires WellFormed(State())
      ensures found == Listing(set a | a in actions.Values && Matches(f, a))
    {
      found := [];
      var rest := actions.Keys;
      while rest != {}
        invariant rest <= actions.Keys
        invariant forall a :: a in found <==> exists id :: id in actions.Keys - rest && actions[id] == a && Matches(f, a)
        invariant Distinct(found)
        decreases rest
      {
        var id :| id in rest;
        if Matches(f, actions[id]) {
          assert actions[id] !in found;
          found := found + [actions[id]];
        }
        rest := rest - {id};
      }
      ghost var matching := set a | a in actions.Values && Matches(f, a);
      assert Elements(found) == matching;
      BeforeOrders(State(), matching);
      SortSorts(Before, found);
      found := Sort(Before, found);
      ListingIsUnique(State(), matching, found);
    }

    method ListRunningRuns() returns (found: seq<ID>)
      ensures forall r :: r in found <==> IsRunning(State(), r)
    {
      found := [];
      var rest := runs.Keys;
      while rest != {}
        invariant rest <= runs.Keys
        invariant forall r :: r in found <==> r in runs.Keys - rest && runs[r].status == RunStatus.Running
        decreases rest
      {
        var r :| r in rest;
        if runs[r].status == RunStatus.Running { found := found + [r]; }
        rest := rest - {r};
      }
    }

    /** Adds the found Actions to a map by ID. */
    method Add(byID: map<ID, Action>, found: seq<Action>) returns (r: map<ID, Action>)
      requires forall id | id in byID :: id in actions && byID[id] == actions[id]
      requires Stored(State(), found) && WellFormed(State())
      ensures forall id | id in r :: id in actions && r[id] == actions[id]
      ensures forall id :: id in r <==> id in byID || (id in actions && actions[id] in found)
    {
      r := byID;
      for i := 0 to |found|
        invariant forall id | id in r :: id in actions && r[id] == actions[id]
        invariant forall id :: id in r <==> id in byID || (id in actions && actions[id] in found[..i])
      {
        assert found[i] in found && found[..i + 1] == found[..i] + [found[i]];
        r := r[found[i].actionID := found[i]];
      }
      assert found[..|found|] == found;
    }

    /** One query and what it adds. */
    method AddMatching(byID: map<ID, Action>, f: Filter) returns (r: map<ID, Action>)
      requires WellFormed(State()) && forall id | id in byID :: id in actions && byID[id] == actions[id]
      ensures forall id | id in r :: id in actions && r[id] == actions[id]
      ensures forall id :: id in r <==> id in byID || (id in actions && Matches(f, actions[id]))
    {
      var found := ListActions(f);
      QueryIsStored(f);
      hide Listing, Matches;
      r := Add(byID, found);
    }

    /** The union of the three queries, by ID. */
    method CollectScope(runningRuns: seq<ID>) returns (byID: map<ID, Action>)
      requires WellFormed(State())
      requires forall r :: r in runningRuns <==> IsRunning(State(), r)
      ensures forall id | id in byID :: id in actions && byID[id] == actions[id]
      ensures forall id :: id in byID <==> id in actions && InScope(State(), actions[id])
    {
      hide WellFormed;
      byID := AddMatching(map[], EVERYTHING.(status := Some(ActionStatus.Open)));
      byID := AddMatching(byID, EVERYTHING.(kind := Some(DELEGATION_KIND), name := Some(NATIVE_DELEGATION_ACTION_NAME)));
      for i := 0 to |runningRuns|
        invariant forall id | id in byID :: id in actions && byID[id] == actions[id]
        invariant forall id :: id in byID <==>
                    (id in actions && (actions[id].status == ActionStatus.Open || IsNative(actions[id]) || actions[id].runID in runningRuns[..i]))
      {
        byID := AddMatching(byID, EVERYTHING.(runID := Some(runningRuns[i])));
        assert runningRuns[..i + 1] == runningRuns[..i] + [runningRuns[i]];
      }
      assert runningRuns[..|runningRuns|] == runningRuns;
    }

    /** The scope, oldest first. The order in which the map gives its values back does not
        show in the result. */
    method ActionsInRecoveryScope(runningRuns: seq<ID>) returns (scoped: seq<Action>)
      requires WellFormed(State())
      requires forall r :: r in runningRuns <==> IsRunning(State(), r)
      ensures scoped == RecoveryScope(State())
    {
      var byID := CollectScope(runningRuns);
      scoped := [];
      var rest := byID.Keys;
      while rest != {}
        invariant rest <= byID.Keys
        invariant forall a :: a in scoped <==> exists id :: id in byID.Keys - rest && byID[id] == a
        invariant Distinct(scoped)
        decreases rest
      {
        var id :| id in rest;
        assert byID[id] !in scoped;
        scoped := scoped + [byID[id]];
        rest := rest - {id};
      }
      ghost var inScope := set a | a in actions.Values && InScope(State(), a);
      forall a ensures a in scoped <==> a in inScope {
        if a in inScope { assert a.actionID in byID && byID[a.actionID] == a; }
      }
      assert Elements(scoped) == inScope;
      BeforeOrders(State(), inScope);
      SortSorts(Before, scoped);
      scoped := Sort(Before, scoped);
      ListingIsUnique(State(), inScope, scoped);
    }

    lemma QueryIsStored(f: Filter)
      requires WellFormed(State())
      ensures var found := Listing(set a | a in actions.Values && Matches(f, a));
              Stored(State(), found)
              && forall id | id in actions :: actions[id] in found <==> Matches(f, actions[id])
    {
      ListingStored(State(), set a | a in actions.Values && Matches(f, a));
    }

    method CompleteAttempt(actionID: ID, attemptID: ID, summary: string) returns (ok: bool)
      modifies this`actions, this`attempts
      ensures var r := CancelAction(old(State()), actionID, attemptID, summary);
              ok == r.Some? && State() == if ok then r.value else old(State())
    {
      if actionID !in actions || attemptID !in attempts { return false; }
      var action, attempt := actions[actionID], attempts[attemptID];
      if action.status != ActionStatus.Open || action.currentAttemptID != attemptID
         || attempt.actionID != actionID || attempt.status != AttemptStatus.Running || attempt.typed {
        return false;
      }
      attempts := attempts[attemptID := attempt.(status := AttemptStatus.Cancelled, summary := summary)];
      actions := actions[actionID := action.(status := ActionStatus.Cancelled, summary := summary)];
      return true;
    }

    method RecoverRunAfterProcessRestart(taskID: ID, runID: ID, actor: string, status: TaskStatus, summary: string)
      returns (didRecover: bool, ok: bool)
      modifies this`tasks, this`runs
      ensures var r := RecoverRun(old(State()), taskID, runID, actor, status, summary);
              && ok == !r.Refused? && didRecover == r.Recovered?
              && State() == if r.Recovered? then r.store else old(State())
    {
      var actorID := TrimSpace(actor);
      if actorID == "" || !(status.Succeeded? || status.Failed? || status.Cancelled?) { return false, false; }
      if generation == 0 || taskID !in tasks || runID !in runs || runs[runID].taskID != taskID { return false, false; }
      var task, run := tasks[taskID], runs[runID];
      var rest := runs.Keys - {runID};
      while rest != {}
        invariant rest <= runs.Keys - {runID}
        invariant forall r | r in runs.Keys - rest && r != runID && runs[r].taskID == taskID ::
                    runs[r].startedAt < run.startedAt && runs[r].status != RunStatus.Running
        decreases rest
      {
        var r :| r in rest;
        if runs[r].taskID == taskID && (runs[r].startedAt >= run.startedAt || runs[r].status == RunStatus.Running) {
          return false, false;
        }
        rest := rest - {r};
      }
      assert IsLatestRun(State(), taskID, runID);
      if run.status != RunStatus.Running { return false, true; }
      if task.status != TaskStatus.Running || task.assignee != actorID || run.assignee != actorID { return false, false; }
      if run.writerGeneration == generation { return false, true; }
      if run.writerGeneration == 0 || run.writerGeneration > generation { return false, false; }
      tasks := tasks[taskID := CloseTask(task, status, TrimSpace(summary))];
      runs := runs[runID := CloseRun(run, status, TrimSpace(summary))];
      return true, true;
    }

    /** Settles one Action of the scope: the body of the recovery's loop. */
    method SettleAction(resolver: Resolver, a: Action) returns (didRecover: bool, error: Option<Error>)
      modifies this
      ensures var step := Settle(old(State()), resolver, a);
              && State() == step.store
              && error == (if step.Stop? then Some(step.error) else None)
              && didRecover == (step.Next? && step.didRecover)
    {
      var actionStatus, summary := a.status, a.summary;
      if actionStatus == ActionStatus.Open || IsNative(a) {
        var current := CurrentAttempt(State(), a);
        if current == None { return false, Some(NoCurrentAttempt(a.actionID)); }
        if actionStatus == ActionStatus.Open {
          if current.value.status != AttemptStatus.Running { return false, Some(NoCurrentAttempt(a.actionID)); }
          if IsNative(a) { return false, None; }
          summary := CANCEL_SUMMARY;
          var cancelled := CompleteAttempt(a.actionID, a.currentAttemptID, summary);
          if !cancelled { return false, Some(CancelRefused(a.actionID)); }
          actionStatus := ActionStatus.Cancelled;
        }
      }
      label settling:
      var run := Resolve(State(), resolver, a.runID);
      if run == None { return false, Some(RunMissing(a.actionID)); }
      if run.value.status != RunStatus.Running { return false, None; }
      var status := FinalStatus(State(), a, actionStatus);
      if summary == "" { summary := DEFAULT_SUMMARY; }
      var did, ok := RecoverRunAfterProcessRestart(a.taskID, a.runID, run.value.assignee, status, summary);
      if !ok { return false, Some(RunRefused(a.actionID)); }
      return did, None;
    }

    method RecoverActionRunsAfterRestart(idIndexed: bool) returns (recovered: nat, error: Option<Error>)
      requires WellFormed(State())
      modifies this
      ensures var o := if idIndexed then LiveRecovery(old(State())) else SharedRecovery(old(State()));
              State() == o.store && recovered == o.recovered && error == o.error
    {
      var runningRuns := ListRunningRuns();
      var scoped := ActionsInRecoveryScope(runningRuns);
      var resolver := if idIndexed then Live else Shared(runs);
      ghost var all := Loop(State(), resolver, scoped);
      recovered, error := 0, None;
      for i := 0 to |scoped|
        invariant var rest := Loop(State(), resolver, scoped[i..]);
                  rest.store == all.store && rest.error == all.error && recovered + rest.recovered == all.recovered
      {
        ghost var before := State();
        assert scoped[i..][0] == scoped[i] && scoped[i..][1..] == scoped[i + 1..];
        var did, stop := SettleAction(resolver, scoped[i]);
        hide Settle;
        if stop.Some? {
          assert Loop(before, resolver, scoped[i..]) == Outcome(State(), 0, stop);
          return recovered, stop;
        }
        if did { recovered := recovered + 1; }
      }
    }

    /** The loop of the reference check: distinct Runs, each looked up once. */
    method CheckReferences(all: seq<Action>) returns (missing: nat, first: Option<Action>, ghost checked: set<ID>, ghost at: nat)
      ensures AreRunsOf(checked, all, |all|)
      ensures missing == |checked - runs.Keys|
      ensures first == None ==> forall k | 0 <= k < |all| :: all[k].runID in runs
      ensures first.Some? ==> at < |all| && all[at] == first.value && all[at].runID !in runs
                              && forall k | 0 <= k < at :: all[k].runID in runs
    {
      var seen: set<ID> := {};
      missing, first, at := 0, None, 0;
      assert AreRunsOf({}, all, 0);
      hide AreRunsOf;
      for i := 0 to |all|
        invariant AreRunsOf(seen, all, i)
        invariant missing == |seen - runs.Keys|
        invariant first == None ==> missing == 0 && forall k | 0 <= k < i :: all[k].runID in runs
        invariant first.Some? ==> missing > 0 && at < i && all[at] == first.value && all[at].runID !in runs
                                  && forall k | 0 <= k < at :: all[k].runID in runs
      {
        var runID := all[i].runID;
        OneMoreRun(seen, all, i);
        CountMissing(seen, runs.Keys, runID);
        if runID !in seen {
          if runID !in runs {
            if missing == 0 { first, at := Some(all[i]), i; }
            missing := missing + 1;
          }
          seen := seen + {runID};
        }
      }
      checked := seen;
    }

    /** Reads the whole history and counts the Runs it names that no Task owns. */
    method VerifyActionRunReferences() returns (missing: nat, first: Option<Action>)
      requires WellFormed(State())
      ensures missing == |DanglingRuns(State())|
      ensures first == None <==> ReferencesResolve(State())
      ensures first.Some? ==> IsOldestDangling(State(), first.value)
    {
      HistoryQuery();
      var all := ListActions(EVERYTHING);
      ghost var checked, at;
      missing, first, checked, at := CheckReferences(all);
      hide Listing, Matches, Sorted, StrictOrderOn;
      DanglingFound(State(), all, checked, checked - runs.Keys);
      if first.Some? {
        OldestDangling(State(), at);
      } else {
        forall id | id in actions ensures actions[id].runID in runs {
          assert actions[id] in actions.Values && actions[id] in all;
        }
      }
    }

    lemma HistoryQuery()
      requires WellFormed(State())
      ensures (set a | a in actions.Values && Matches(EVERYTHING, a)) == actions.Values
      ensures forall a :: a in WholeHistory(State()) <==> a in actions.Values
    {
      assert (set a | a in actions.Values && Matches(EVERYTHING, a)) == actions.Values;
      ListingStored(State(), actions.Values);
    }
  }
}
