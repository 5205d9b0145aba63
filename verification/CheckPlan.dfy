/** The check-plan runner: a plan from the planner is validated against the manifest, then the
    included checks run in order and a receipt is made. */
module CheckPlan {
  import opened Options
  import opened Ordering
  import opened Text

  const SCHEMA_VERSION := 1
  const MAX_RECEIPT_MESSAGE := 256

  datatype Request = Request(purpose: string, phase: string, checks: seq<string>)

  datatype PlanItem = PlanItem(checkId: string, reason: string)

  datatype Plan = Plan(
    schemaVersion: int, status: string, purpose: string, phase: string, evaluatedAt: int, revision: string,
    included: seq<PlanItem>, excluded: seq<PlanItem>, deferred: seq<PlanItem>, errors: seq<string>)

  datatype Group = Included | Excluded | Deferred

  datatype Error =
    | SchemaVersion | PurposeOrPhase | EvaluatedAt | NoRevision | Blocked | UnknownStatus | ReadyWithErrors
    | DuplicateManifestCheck(id: string)
    | NotDeclared(group: Group, id: string) | RepeatedCheck(id: string)
    | NotEveryCheckClassified
    | PlannerFailed | CoreUrlRejected | NotAllowlisted(id: string) | ChecksFailed

  function HeaderError(request: Request, plan: Plan, now: int): Option<Error> {
    if plan.schemaVersion != SCHEMA_VERSION then Some(SchemaVersion)
    else if plan.purpose != request.purpose || plan.phase != request.phase then Some(PurposeOrPhase)
    else if plan.evaluatedAt != now then Some(EvaluatedAt)
    else if TrimSpace(plan.revision) == "" then Some(NoRevision)
    else if plan.status == "blocked" then Some(Blocked)
    else if plan.status != "ready" then Some(UnknownStatus)
    else if plan.errors != [] then Some(ReadyWithErrors)
    else None
  }

  /** The plan answers this request at this moment, names its revision, is ready and has no
      errors. */
  predicate RightHeader(request: Request, plan: Plan, now: int) {
    && plan.schemaVersion == 1 && plan.purpose == request.purpose && plan.phase == request.phase
    && plan.evaluatedAt == now && TrimSpace(plan.revision) != "" && plan.status == "ready" && plan.errors == []
  }

  /** The error names something wrong with the header, and nothing tested before it is wrong. */
  predicate HeaderIsWrong(request: Request, plan: Plan, now: int, error: Error) {
    if plan.schemaVersion != 1 then error == SchemaVersion
    else if !(plan.purpose == request.purpose && plan.phase == request.phase) then error == PurposeOrPhase
    else if plan.evaluatedAt != now then error == EvaluatedAt
    else if TrimSpace(plan.revision) == "" then error == NoRevision
    else if plan.status != "ready" then error == if plan.status == "blocked" then Blocked else UnknownStatus
    else error == ReadyWithErrors && |plan.errors| > 0
  }

  lemma HeaderExactly(request: Request, plan: Plan, now: int)
    ensures HeaderError(request, plan, now) == None <==> RightHeader(request, plan, now)
    ensures HeaderError(request, plan, now).Some? ==> HeaderIsWrong(request, plan, now, HeaderError(request, plan, now).value)
    ensures var error := HeaderError(request, plan, now);
      error.Some? ==> !error.value.DuplicateManifestCheck? && !error.value.PlannerFailed? && !error.value.CoreUrlRejected?
                      && !error.value.NotAllowlisted?
  {
    hide TrimSpace;
  }

  function Ids(items: seq<PlanItem>): (r: seq<string>)
    ensures |r| == |items| && forall k :: 0 <= k < |items| ==> r[k] == items[k].checkId
  {
    seq(|items|, k requires 0 <= k < |items| => items[k].checkId)
  }

  function Set(ids: seq<string>): set<string> { set id | id in ids }

  /** The ids of the three groups, in the order they are read. */
  function PlanIds(plan: Plan): seq<string> {
    Ids(plan.included) + Ids(plan.excluded) + Ids(plan.deferred)
  }

  /** Every id of the manifest in the plan exactly once, and no other id. */
  ghost predicate Partitions(plan: Plan, checks: seq<string>) {
    multiset(PlanIds(plan)) == multiset(checks)
  }

  /** The ids of `checks` before the first repeated one, or that one. */
  method ReadManifest(checks: seq<string>) returns (error: Option<Error>, known: set<string>)
    ensures error.None? <==> Distinct(checks)
    ensures error.None? ==> known == Set(checks) && |known| == |checks|
    ensures error.Some? ==> exists k ::
              0 <= k < |checks| && error == Some(DuplicateManifestCheck(checks[k]))
              && checks[k] in checks[..k] && Distinct(checks[..k])
  {
    error, known := None, {};
    for i := 0 to |checks|
      invariant Distinct(checks[..i]) && known == Set(checks[..i]) && |known| == i
    {
      if checks[i] in known {
        return Some(DuplicateManifestCheck(checks[i])), known;
      }
      known := known + {checks[i]};
      assert checks[..i + 1] == checks[..i] + [checks[i]];
    }
    assert checks[..|checks|] == checks;
  }

  /** The first `n` ids are known, not yet seen and not repeated. */
  predicate FitsTo(ids: seq<string>, n: nat, known: set<string>, seen: set<string>)
    requires n <= |ids|
  {
    && (forall k :: 0 <= k < n ==> ids[k] in known && ids[k] !in seen)
    && (forall j, k :: 0 <= j < k < n ==> ids[j] != ids[k])
  }

  predicate Fits(ids: seq<string>, known: set<string>, seen: set<string>) {
    FitsTo(ids, |ids|, known, seen)
  }

  function Firsts(ids: seq<string>, n: nat): set<string>
    requires n <= |ids|
  {
    set k | 0 <= k < n :: ids[k]
  }

  /** What is wrong with an id that does not fit after `earlier`. */
  function Misfit(group: Group, id: string, known: set<string>): Error {
    if id !in known then NotDeclared(group, id) else RepeatedCheck(id)
  }

  lemma FitsNext(ids: seq<string>, n: nat, known: set<string>, seen: set<string>)
    requires n < |ids|
    ensures FitsTo(ids, n + 1, known, seen) <==>
              FitsTo(ids, n, known, seen) && ids[n] in known && ids[n] !in seen && ids[n] !in Firsts(ids, n)
    ensures Fits(ids, known, seen) ==> FitsTo(ids, n + 1, known, seen)
    ensures Firsts(ids, n + 1) == Firsts(ids, n) + {ids[n]}
  {
  }

  lemma FitsEnds(ids: seq<string>, known: set<string>, seen: set<string>)
    ensures FitsTo(ids, 0, known, seen) && Firsts(ids, 0) == {} && Firsts(ids, |ids|) == Set(ids)
    ensures Fits(ids, known, seen) <==> FitsTo(ids, |ids|, known, seen)
  {
  }

  method ReadGroup(group: Group, items: seq<PlanItem>, known: set<string>, seen: set<string>)
    returns (error: Option<Error>, now: set<string>, ghost at: nat)
    ensures error.None? <==> Fits(Ids(items), known, seen)
    ensures error.None? ==> now == seen + Set(Ids(items)) && |now| == |seen| + |items|
    ensures error.Some? ==>
              at < |items|
              && error.value == (if items[at].checkId in known then RepeatedCheck(items[at].checkId) else NotDeclared(group, items[at].checkId))
              && FitsTo(Ids(items), at, known, seen) && !FitsTo(Ids(items), at + 1, known, seen)
  {
    hide FitsTo, Firsts, Set, Ids, Fits;
    ghost var ids := Ids(items);
    error, now, at := None, seen, 0;
    FitsEnds(ids, known, seen);
    for i := 0 to |items|
      invariant FitsTo(ids, i, known, seen) && now == seen + Firsts(ids, i) && |now| == |seen| + i
    {
      var id := items[i].checkId;
      FitsNext(ids, i, known, seen);
      if id !in known || id in now {
        return Some(Misfit(group, id, known)), now, i;
      }
      now := now + {id};
    }
  }

  lemma FitsConcat(a: seq<string>, b: seq<string>, known: set<string>, seen: set<string>)
    ensures Fits(a + b, known, seen) <==> Fits(a, known, seen) && Fits(b, known, seen + Set(a))
    ensures Set(a + b) == Set(a) + Set(b)
  {
    if Fits(a + b, known, seen) {
      assert forall k :: 0 <= k < |a| ==> a[k] == (a + b)[k];
      assert forall k :: 0 <= k < |b| ==> b[k] == (a + b)[|a| + k];
    }
  }

  lemma {:induction false} CountOfDistinct(ids: seq<string>, id: string)
    requires Distinct(ids)
    ensures multiset(ids)[id] == if id in ids then 1 else 0
  {
    if ids != [] {
      var n := |ids| - 1;
      assert ids == ids[..n] + [ids[n]];
      CountOfDistinct(ids[..n], id);
    }
  }

  lemma {:induction false} SizeOfDistinct(ids: seq<string>)
    requires Distinct(ids)
    ensures |Set(ids)| == |ids|
  {
    if ids != [] {
      var n := |ids| - 1;
      assert ids == ids[..n] + [ids[n]];
      SizeOfDistinct(ids[..n]);
      assert Set(ids) == Set(ids[..n]) + {ids[n]};
    }
  }

  lemma SameMembers(a: seq<string>, b: seq<string>, id: string)
    requires multiset(a) == multiset(b)
    ensures id in a <==> id in b
  {
    assert id in multiset(a) <==> id in a;
    assert id in multiset(b) <==> id in b;
  }

  lemma {:induction false} RepeatCounts(ids: seq<string>, j: nat, k: nat)
    requires j < k < |ids| && ids[j] == ids[k]
    ensures multiset(ids)[ids[j]] >= 2
  {
    assert ids == ids[..k] + [ids[k]] + ids[k + 1..];
    assert ids[j] == ids[..k][j] && ids[..k][j] in multiset(ids[..k]);
  }

  /** A duplicate check and one size comparison decide whether the ids are a permutation. */
  lemma SizeDecides(ids: seq<string>, checks: seq<string>)
    requires Distinct(checks)
    ensures Fits(ids, Set(checks), {}) && |ids| == |checks| <==> multiset(ids) == multiset(checks)
  {
    if Fits(ids, Set(checks), {}) && |ids| == |checks| {
      SizeOfDistinct(ids);
      SizeOfDistinct(checks);
      SubsetOfSameSize(Set(ids), Set(checks));
      forall id ensures multiset(ids)[id] == multiset(checks)[id] {
        CountOfDistinct(ids, id);
        CountOfDistinct(checks, id);
        assert id in Set(ids) <==> id in Set(checks);
      }
    }
    if multiset(ids) == multiset(checks) {
      assert |ids| == |multiset(ids)| == |multiset(checks)| == |checks|;
      forall k | 0 <= k < |ids| ensures ids[k] in Set(checks) {
        SameMembers(ids, checks, ids[k]);
      }
      forall j, k | 0 <= j < k < |ids| ensures ids[j] != ids[k] {
        if ids[j] == ids[k] {
          RepeatCounts(ids, j, k);
          CountOfDistinct(checks, ids[j]);
        }
      }
    }
  }

  /** The three groups read one after the other, and one size, decide whether the plan is a
      partition. */
  lemma PlanFits(plan: Plan, checks: seq<string>)
    requires Distinct(checks)
    ensures var a, b, c, known := Ids(plan.included), Ids(plan.excluded), Ids(plan.deferred), Set(checks);
      Partitions(plan, checks) <==>
        Fits(a, known, {}) && Fits(b, known, {} + Set(a)) && Fits(c, known, {} + Set(a) + Set(b))
        && |a| + |b| + |c| == |checks|
  {
    var a, b, c, known := Ids(plan.included), Ids(plan.excluded), Ids(plan.deferred), Set(checks);
    FitsConcat(a + b, c, known, {});
    FitsConcat(a, b, known, {});
    assert {} + Set(a + b) == {} + Set(a) + Set(b);
    SizeDecides(PlanIds(plan), checks);
    hide Fits, FitsTo, Set;
  }

  /** Accepts exactly the plans with a right header that classify every check of a duplicate-free
      manifest exactly once and nothing else. */
  method ValidatePlan(request: Request, plan: Plan, now: int) returns (error: Option<Error>)
    ensures error.None? <==> RightHeader(request, plan, now) && Distinct(request.checks) && Partitions(plan, request.checks)
    ensures !RightHeader(request, plan, now) ==> error.Some? && HeaderIsWrong(request, plan, now, error.value)
    ensures error.Some? && error.value.DuplicateManifestCheck? ==> !Distinct(request.checks)
    ensures error.Some? ==> !error.value.PlannerFailed? && !error.value.CoreUrlRejected? && !error.value.NotAllowlisted?
  {
    HeaderExactly(request, plan, now);
    hide HeaderError, RightHeader, HeaderIsWrong, FitsTo, Fits, Partitions, Distinct, Set, Ids;
    error := HeaderError(request, plan, now);
    if error.Some? { return; }
    var known: set<string>;
    error, known := ReadManifest(request.checks);
    if error.Some? { return; }
    PlanFits(plan, request.checks);
    var seen: set<string>;
    ghost var at: nat;
    error, seen, at := ReadGroup(Included, plan.included, known, {});
    if error.Some? { return; }
    error, seen, at := ReadGroup(Excluded, plan.excluded, known, seen);
    if error.Some? { return; }
    error, seen, at := ReadGroup(Deferred, plan.deferred, known, seen);
    if error.Some? { return; }
    if |seen| != |known| { error := Some(NotEveryCheckClassified); }
  }

  // ---- running the included checks ----

  datatype Result = Result(checkId: string, status: string, message: string)

  datatype Receipt = Receipt(
    status: string, results: seq<Result>, excluded: seq<PlanItem>, deferred: seq<PlanItem>, error: Option<Error>)

  const ALLOWLIST: set<string> :=
    {"core_health", "core_readiness", "core_l1_lightweight_query", "core_l1_snapshot_integrity"}

  /** Only these four checks have executors. */
  lemma AllowlistIs(id: string)
    ensures id in ALLOWLIST <==>
              id == "core_health" || id == "core_readiness" || id == "core_l1_lightweight_query" || id == "core_l1_snapshot_integrity"
  {
  }

  /** What the receipt keeps of an executor's result. */
  function Recorded(id: string, result: Result): Result {
    Result(id, if result.status == "" then "failed" else result.status,
           if |result.message| > MAX_RECEIPT_MESSAGE then result.message[..MAX_RECEIPT_MESSAGE] else result.message)
  }

  /** The record is under the check's own id; a missing status counts as failed, and of a message
      the first 256 characters are kept. */
  predicate Records(record: Result, id: string, result: Result) {
    && record.checkId == id
    && record.status == (if result.status == "" then "failed" else result.status)
    && |record.message| <= 256 && record.message <= result.message
    && (|result.message| <= 256 ==> record.message == result.message) && (|result.message| > 256 ==> |record.message| == 256)
  }

  lemma RecordedRecords(id: string, result: Result)
    ensures Records(Recorded(id, result), id, result)
  {
  }

  predicate AllPassed(results: seq<Result>) {
    forall k :: 0 <= k < |results| ==> results[k].status == "passed"
  }

  function ResultIds(results: seq<Result>): (r: seq<string>)
    ensures |r| == |results| && forall k :: 0 <= k < |results| ==> r[k] == results[k].checkId
  {
    seq(|results|, k requires 0 <= k < |results| => results[k].checkId)
  }

  method RunIncluded(included: seq<PlanItem>, execute: string -> Result)
    returns (results: seq<Result>, executed: seq<string>)
    ensures executed == Ids(included) && |results| == |included|
    ensures forall k :: 0 <= k < |included| ==> Records(results[k], included[k].checkId, execute(included[k].checkId))
    ensures ResultIds(results) == Ids(included)
  {
    results, executed := [], [];
    for i := 0 to |included|
      invariant |results| == |executed| == i
      invariant forall k :: 0 <= k < i ==> executed[k] == included[k].checkId
      invariant forall k :: 0 <= k < i ==> Records(results[k], included[k].checkId, execute(included[k].checkId))
    {
      var id := included[i].checkId;
      var result := execute(id);
      RecordedRecords(id, result);
      executed := executed + [id];
      results := results + [Recorded(id, result)];
    }
  }

  method Passed(results: seq<Result>) returns (passed: bool)
    ensures passed <==> AllPassed(results)
  {
    for i := 0 to |results|
      invariant forall k :: 0 <= k < i ==> results[k].status == "passed"
    {
      if results[i].status != "passed" { return false; }
    }
    return true;
  }

  /** The part of runRunner after the planner's output is decoded. `execute` stands for the
      fixed executors, and `executed` records which of them ran. */
  method RunPlan(request: Request, plan: Plan, now: int, plannerFailed: bool, urlAccepted: bool, execute: string -> Result)
    returns (receipt: Receipt, executed: seq<string>)
    ensures var ready :=
        && RightHeader(request, plan, now)
        && Distinct(request.checks) && Partitions(plan, request.checks)
        && !plannerFailed && urlAccepted
        && forall k :: 0 <= k < |plan.included| ==>
             plan.included[k].checkId in ALLOWLIST;
      if ready then
        && executed == Ids(plan.included) && |receipt.results| == |plan.included|
        && (forall k :: 0 <= k < |plan.included| ==>
              Records(receipt.results[k], plan.included[k].checkId, execute(plan.included[k].checkId)))
        && receipt.excluded == plan.excluded && receipt.deferred == plan.deferred
        && receipt.status == (if forall k :: 0 <= k < |receipt.results| ==> receipt.results[k].status == "passed" then "passed" else "failed")
        && receipt.error == (if receipt.status == "passed" then None else Some(ChecksFailed))
      else
        executed == [] && receipt.results == [] && receipt.status == "blocked" && receipt.error.Some?
    ensures receipt.error == Some(PlannerFailed) ==> plannerFailed
    ensures receipt.error == Some(CoreUrlRejected) ==> !plannerFailed && !urlAccepted
    ensures receipt.error.Some? && receipt.error.value.NotAllowlisted? ==>
              !plannerFailed && urlAccepted && exists k :: 0 <= k < |plan.included| && plan.included[k].checkId == receipt.error.value.id
    ensures receipt.status != "blocked" ==>
      multiset(ResultIds(receipt.results) + Ids(receipt.excluded) + Ids(receipt.deferred)) == multiset(request.checks)
  {
    hide RightHeader, HeaderIsWrong, Distinct, Records, Ids, ResultIds, ALLOWLIST;
    executed := [];
    receipt := Receipt("blocked", [], [], [], None);
    var error := ValidatePlan(request, plan, now);
    if error.Some? { return receipt.(error := error), executed; }
    if plannerFailed { return receipt.(error := Some(PlannerFailed)), executed; }
    if !urlAccepted { return receipt.(error := Some(CoreUrlRejected)), executed; }
    for i := 0 to |plan.included|
      invariant forall k :: 0 <= k < i ==> plan.included[k].checkId in ALLOWLIST
    {
      if plan.included[i].checkId !in ALLOWLIST {
        return receipt.(error := Some(NotAllowlisted(plan.included[i].checkId))), executed;
      }
    }
    var results;
    results, executed := RunIncluded(plan.included, execute);
    var passed := Passed(results);
    receipt := Receipt(if passed then "passed" else "failed", results, plan.excluded, plan.deferred,
                       if passed then None else Some(ChecksFailed));
  }
}
