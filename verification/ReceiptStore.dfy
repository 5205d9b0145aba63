/** The receipt tables: what one run of the remapper leaves, what a scan reports and what the
    integrity gate says of two scans. */
module ReceiptStore {
  import opened IdKeys
  import opened Options
  import opened Text
  import opened JsonValues
  import opened ReceiptRemap

  /** `frozen` stands for the columns the tool never writes. */
  datatype Row = Row(rowid: int, frozen: seq<string>, payload: Payload)

  datatype Table = Table(columns: seq<string>, rows: seq<Row>)

  type Tables = map<string, Table>

  const RECEIPT_TABLES := ["stage_run_receipt", "closure_receipt", "queue_freeze"]

  predicate UniqueRowids(rows: seq<Row>) {
    forall j, k :: 0 <= j < k < |rows| ==> rows[j].rowid != rows[k].rowid
  }

  predicate ValidTables(tables: Tables) {
    forall t :: t in tables ==> UniqueRowids(tables[t].rows)
  }

  function PayloadRows(table: Table): seq<Row> {
    if "payload" in table.columns then table.rows else []
  }

  predicate IsReceipt(tables: Tables, t: string) { t in tables && t in RECEIPT_TABLES }

  // ---- what a run leaves ----

  predicate RowsAccepted(rows: seq<Row>) {
    forall k :: 0 <= k < |rows| ==> RemapPayload(rows[k].payload).Remapped?
  }

  ghost predicate Accepted(tables: Tables) {
    forall t :: IsReceipt(tables, t) ==> RowsAccepted(PayloadRows(tables[t]))
  }

  function RowAfter(row: Row): Row {
    match RemapPayload(row.payload)
    case Refused(_) => row
    case Remapped(payload, _) => row.(payload := payload)
  }

  function RowsAfter(rows: seq<Row>): (r: seq<Row>)
    ensures |r| == |rows| && forall k :: 0 <= k < |rows| ==> r[k] == RowAfter(rows[k])
  {
    seq(|rows|, k requires 0 <= k < |rows| => RowAfter(rows[k]))
  }

  function TableAfter(table: Table): Table {
    if "payload" in table.columns then table.(rows := RowsAfter(table.rows)) else table
  }

  function After(tables: Tables): Tables {
    map t | t in tables :: if t in RECEIPT_TABLES then TableAfter(tables[t]) else tables[t]
  }

  /** The columns, the number and order of the rows and every other column stay; so does every
      payload that is not converted. */
  lemma OnlyConvertedPayloadsChange(tables: Tables, t: string, k: nat)
    requires Accepted(tables) && t in tables && k < |tables[t].rows|
    ensures After(tables).Keys == tables.Keys
    ensures var a, b := tables[t], After(tables)[t];
      && b.columns == a.columns && |b.rows| == |a.rows|
      && b.rows[k].rowid == a.rows[k].rowid && b.rows[k].frozen == a.rows[k].frozen
      && (b.rows[k].payload != a.rows[k].payload ==>
            t in RECEIPT_TABLES && "payload" in a.columns && Converts(a.rows[k].payload))
  {
    if IsReceipt(tables, t) && "payload" in tables[t].columns && !Converts(tables[t].rows[k].payload) {
      assert RowsAccepted(PayloadRows(tables[t]));
      OthersUntouched(tables[t].rows[k].payload);
    }
  }

  lemma RowsSecondRun(rows: seq<Row>)
    requires RowsAccepted(rows)
    ensures RowsAccepted(RowsAfter(rows)) && RowsAfter(RowsAfter(rows)) == RowsAfter(rows)
    ensures forall k :: 0 <= k < |rows| ==> !Converts(RowsAfter(rows)[k].payload)
  {
    forall k | 0 <= k < |rows|
      ensures RemapPayload(RowAfter(rows[k]).payload).Remapped? && !Converts(RowAfter(rows[k]).payload)
      ensures RowAfter(RowAfter(rows[k])) == RowAfter(rows[k])
    {
      SecondRunConvertsNothing(rows[k].payload);
    }
    hide RowAfter, RemapPayload, Converts;
    assert forall k :: 0 <= k < |rows| ==> RowsAfter(rows)[k] == RowAfter(rows[k]);
  }

  /** A second run is accepted, converts nothing and changes nothing. */
  lemma SecondRunIsIdle(tables: Tables)
    requires Accepted(tables)
    ensures Accepted(After(tables)) && After(After(tables)) == After(tables)
    ensures forall t, k :: IsReceipt(tables, t) && 0 <= k < |PayloadRows(After(tables)[t])| ==>
              !Converts(PayloadRows(After(tables)[t])[k].payload)
  {
    forall t | IsReceipt(tables, t)
      ensures RowsAccepted(PayloadRows(After(tables)[t])) && TableAfter(TableAfter(tables[t])) == TableAfter(tables[t])
      ensures forall k :: 0 <= k < |PayloadRows(After(tables)[t])| ==> !Converts(PayloadRows(After(tables)[t])[k].payload)
    {
      assert RowsAccepted(PayloadRows(tables[t]));
      RowsSecondRun(PayloadRows(tables[t]));
      hide RowsAfter, Converts, RowsAccepted;
    }
    hide TableAfter, RowsAccepted, PayloadRows, Converts;
  }

  // ---- what a scan reports ----

  function SeenText(seen: Seen): string {
    match seen
    case Unparseable => "<unparseable>"
    case NonObject => "<non-object>"
    case Id(text) => text
  }

  function HeadId(p: Payload): string { SeenText(DecodeHead(p)) }

  function DeployedId(p: Payload): string { SeenText(DecodeDeployed(p)) }

  datatype Bucket = BothNonempty | HeadOnly | DeployedOnly | NeitherReader

  function BucketOf(p: Payload): Bucket {
    if HeadId(p) != "" && DeployedId(p) != "" then BothNonempty
    else if HeadId(p) != "" then HeadOnly
    else if DeployedId(p) != "" then DeployedOnly
    else NeitherReader
  }

  function StateOf(p: Payload): Option<RowState> {
    match RemapPayload(p)
    case Refused(_) => None
    case Remapped(_, state) => Some(state)
  }

  datatype Report = Report(
    rows: nat, columns: seq<string>, census: map<RowState, nat>, resolution: map<Bucket, nat>,
    deployedOnly: set<string>, bothResolve: set<string>)

  /** How many of the first `n` rows are in a state. */
  function CountState(rows: seq<Row>, n: nat, state: RowState): nat
    requires n <= |rows|
  {
    if n == 0 then 0
    else CountState(rows, n - 1, state) + (if StateOf(rows[n - 1].payload) == Some(state) then 1 else 0)
  }

  /** How many of the first `n` rows are in a bucket. */
  function CountBucket(rows: seq<Row>, n: nat, bucket: Bucket): nat
    requires n <= |rows|
  {
    if n == 0 then 0
    else CountBucket(rows, n - 1, bucket) + (if BucketOf(rows[n - 1].payload) == bucket then 1 else 0)
  }

  /** A counter of a census, zero where it has no entry. */
  function Counter<K(==)>(census: map<K, nat>, key: K): nat {
    if key in census then census[key] else 0
  }

  /** Ids only the deployed reader resolves, in the first `n` rows. */
  function DeployedOnlyIds(rows: seq<Row>, n: nat): set<string>
    requires n <= |rows|
  {
    set k | 0 <= k < n && BucketOf(rows[k].payload) == DeployedOnly :: DeployedId(rows[k].payload)
  }

  /** Ids the head reader resolves, in the first `n` rows. */
  function HeadIds(rows: seq<Row>, n: nat): set<string>
    requires n <= |rows|
  {
    set k | 0 <= k < n && (BucketOf(rows[k].payload) == BothNonempty || BucketOf(rows[k].payload) == HeadOnly) ::
      HeadId(rows[k].payload)
  }

  /** The report on one table. */
  ghost predicate Reports(report: Report, table: Table) {
    var rows := PayloadRows(table);
    && report.rows == |rows| && report.columns == table.columns
    && (forall state :: Counter(report.census, state) == CountState(rows, |rows|, state))
    && (forall bucket :: Counter(report.resolution, bucket) == CountBucket(rows, |rows|, bucket))
    && report.deployedOnly == DeployedOnlyIds(rows, |rows|) && report.bothResolve == HeadIds(rows, |rows|)
  }

  /** The report on a whole database. */
  ghost predicate Scans(scan: map<string, Report>, tables: Tables) {
    && (forall t :: t in scan <==> IsReceipt(tables, t))
    && forall t :: t in scan ==> Reports(scan[t], tables[t])
  }

  // ---- the integrity gate ----

  datatype Problem = RowCountChanged(t: string) | ColumnsChanged(t: string) | StillDeployedOnly(t: string, moved: set<string>) | StillConvertible(t: string)

  /** What the gate asks of the two reports on one table. */
  predicate TablePasses(before: Report, after: Report) {
    && before.rows == after.rows && before.columns == after.columns
    && before.deployedOnly - after.deployedOnly == before.deployedOnly
    && (ConvertedRow in after.census ==> after.census[ConvertedRow] == 0)
  }

  ghost predicate Passes(before: map<string, Report>, after: map<string, Report>) {
    forall t :: t in before ==> t in after && TablePasses(before[t], after[t])
  }

  /** A legacy id of white space alone: not empty to the deployed reader, blank to the tool. */
  predicate BlankLegacy(p: Payload) {
    p.Encoded? && Lookup(p.o, CANON).None?
    && (var legacy := Lookup(p.o, LEGACY); legacy.Some? && legacy.value.Str? && legacy.value.s != "" && Strip(legacy.value.s) == "")
  }

  lemma KeptBucket(p: Payload)
    requires p.Encoded? && RemapPayload(p).Remapped? && !Converts(p)
    ensures RemapPayload(p).payload == p
    ensures BucketOf(p) == DeployedOnly <==> BlankLegacy(p)
  {
    var canon, legacy := Lookup(p.o, CANON), Lookup(p.o, LEGACY);
    assert legacy.None? ==> DeployedId(p) == "";
    assert canon.None? ==> HeadId(p) == "";
    hide Lookup, Strip;
  }

  /** After a run the deployed reader alone resolves exactly the blank legacy ids. */
  lemma DeployedOnlyAfter(p: Payload)
    requires RemapPayload(p).Remapped?
    ensures var q := RemapPayload(p).payload; BucketOf(q) == DeployedOnly <==> BlankLegacy(p)
    ensures BlankLegacy(p) ==> RemapPayload(p).payload == p
  {
    if Converts(p) {
      if Lookup(p.o, CANON).Some? { var _ := DroppedLegacy(p); } else { RenamedInPlace(p); }
      assert BlankLegacy(p) ==> !Converts(p);
      hide RemapPayload, Lookup, BlankLegacy;
    } else if p.Encoded? {
      KeptBucket(p);
      hide RemapPayload, Lookup, BlankLegacy;
    }
  }

  lemma {:induction false} NoneConverted(rows: seq<Row>, n: nat)
    requires n <= |rows| && forall k :: 0 <= k < n ==> !Converts(rows[k].payload)
    ensures CountState(rows, n, ConvertedRow) == 0
  {
    if n > 0 { NoneConverted(rows, n - 1); }
  }

  lemma TablePassesExactly(before: Report, after: Report, tables: Tables, t: string)
    requires Accepted(tables) && IsReceipt(tables, t)
    requires Reports(before, tables[t]) && Reports(after, After(tables)[t])
    ensures TablePasses(before, after) <==>
            forall k :: 0 <= k < |PayloadRows(tables[t])| ==> !BlankLegacy(PayloadRows(tables[t])[k].payload)
  {
    var rows, done := PayloadRows(tables[t]), PayloadRows(After(tables)[t]);
    assert RowsAccepted(rows) && |done| == |rows|;
    forall k | 0 <= k < |rows|
      ensures done[k] == RowAfter(rows[k]) && (BucketOf(done[k].payload) == DeployedOnly <==> BlankLegacy(rows[k].payload))
      ensures BlankLegacy(rows[k].payload) ==> done[k] == rows[k]
    {
      DeployedOnlyAfter(rows[k].payload);
    }
    SecondRunIsIdle(tables);
    NoneConverted(done, |done|);
    assert Counter(after.census, ConvertedRow) == 0;
    hide BucketOf, BlankLegacy, RemapPayload, Lookup;
    if k :| 0 <= k < |rows| && BlankLegacy(rows[k].payload) {
      var id := DeployedId(rows[k].payload);
      assert id in DeployedOnlyIds(rows, |rows|) && id in DeployedOnlyIds(done, |done|);
    } else {
      assert DeployedOnlyIds(done, |done|) == {};
    }
  }

  /** The gate reports no problem after a run if and only if no receipt row has a legacy id of
      white space alone and no head id. */
  lemma GatePassesExactly(before: map<string, Report>, after: map<string, Report>, tables: Tables)
    requires Accepted(tables) && Scans(before, tables) && Scans(after, After(tables))
    ensures Passes(before, after) <==>
            forall t, k :: IsReceipt(tables, t) && 0 <= k < |PayloadRows(tables[t])| ==>
              !BlankLegacy(PayloadRows(tables[t])[k].payload)
  {
    forall t | IsReceipt(tables, t)
      ensures t in before && t in after
      ensures TablePasses(before[t], after[t]) <==>
              forall k :: 0 <= k < |PayloadRows(tables[t])| ==> !BlankLegacy(PayloadRows(tables[t])[k].payload)
    {
      TablePassesExactly(before[t], after[t], tables, t);
    }
    hide TablePasses, BlankLegacy;
  }

  // ---- ids that the run drops ----

  /** A reader resolved an id of the row before the run, and neither does afterwards. */
  predicate LosesId(row: Row) {
    BucketOf(row.payload) != NeitherReader && BucketOf(RowAfter(row).payload) == NeitherReader
  }

  /** Both keys are there, the head id counts as empty to its reader and the legacy id does not. */
  predicate EmptyHeadId(p: Payload) {
    p.Encoded?
    && (var canon, legacy := Lookup(p.o, CANON), Lookup(p.o, LEGACY);
        canon.Some? && legacy.Some? && !Truthy(canon.value) && Truthy(legacy.value))
  }

  lemma TruthyIsSeen(v: Value)
    ensures Truthy(v) ==> Rendered(v) != ""
  {
    if v.Other? { assert Strip("") == ""; }
  }

  /** An accepted row loses its id exactly when both keys agree on an id that only the deployed
      reader takes for one. */
  lemma LosesIdExactly(row: Row)
    requires RemapPayload(row.payload).Remapped?
    ensures LosesId(row) <==> EmptyHeadId(row.payload)
    ensures LosesId(row) ==> BucketOf(row.payload) == DeployedOnly && Converts(row.payload)
  {
    var p := row.payload;
    if p.Encoded? {
      var canon, legacy := Lookup(p.o, CANON), Lookup(p.o, LEGACY);
      if canon.Some? { TruthyIsSeen(canon.value); }
      if legacy.Some? { TruthyIsSeen(legacy.value); }
      if Converts(p) {
        if canon.Some? { var _ := DroppedLegacy(p); } else { RenamedInPlace(p); }
      } else {
        OthersUntouched(p);
      }
      hide Lookup, Strip;
    }
  }

  ghost predicate SomeRow(tables: Tables, holds: Row -> bool) {
    exists t, k :: IsReceipt(tables, t) && 0 <= k < |PayloadRows(tables[t])| && holds(PayloadRows(tables[t])[k])
  }

  /** The gate passes although the run has dropped an id if and only if no row has a legacy id
      of white space alone and no head id, and some row has an empty head id beside a legacy
      one. */
  lemma GateMissesExactly(before: map<string, Report>, after: map<string, Report>, tables: Tables)
    requires Accepted(tables) && Scans(before, tables) && Scans(after, After(tables))
    ensures Passes(before, after) && SomeRow(tables, LosesId) <==>
            !SomeRow(tables, (row: Row) => BlankLegacy(row.payload)) && SomeRow(tables, (row: Row) => EmptyHeadId(row.payload))
  {
    GatePassesExactly(before, after, tables);
    forall t, k | IsReceipt(tables, t) && 0 <= k < |PayloadRows(tables[t])|
      ensures LosesId(PayloadRows(tables[t])[k]) <==> EmptyHeadId(PayloadRows(tables[t])[k].payload)
    {
      assert RowsAccepted(PayloadRows(tables[t]));
      LosesIdExactly(PayloadRows(tables[t])[k]);
    }
    hide LosesId, EmptyHeadId, BlankLegacy, Passes, Accepted, Scans;
  }

  // ---- a database on which the gate misses it ----

  ghost function Census(rows: seq<Row>): map<RowState, nat> {
    map state | state in {EmptyPayload, ConvertedRow, AlreadyCanonical, EmptyLegacyValue, NoIdKey} :: CountState(rows, |rows|, state)
  }

  ghost function Resolution(rows: seq<Row>): map<Bucket, nat> {
    map bucket | bucket in {BothNonempty, HeadOnly, DeployedOnly, NeitherReader} :: CountBucket(rows, |rows|, bucket)
  }

  lemma CensusCounts(rows: seq<Row>, state: RowState)
    ensures Counter(Census(rows), state) == CountState(rows, |rows|, state)
  {
    hide CountState;
  }

  lemma ResolutionCounts(rows: seq<Row>, bucket: Bucket)
    ensures Counter(Resolution(rows), bucket) == CountBucket(rows, |rows|, bucket)
  {
    hide CountBucket;
  }

  ghost function ReportOf(table: Table): Report {
    var rows := PayloadRows(table);
    Report(|rows|, table.columns, Census(rows), Resolution(rows), DeployedOnlyIds(rows, |rows|), HeadIds(rows, |rows|))
  }

  lemma ReportReports(table: Table)
    ensures Reports(ReportOf(table), table)
  {
    var rows := PayloadRows(table);
    hide CountState, CountBucket, DeployedOnlyIds, HeadIds, Census, Resolution, Counter, PayloadRows;
    forall state ensures Counter(Census(rows), state) == CountState(rows, |rows|, state) { CensusCounts(rows, state); }
    forall bucket ensures Counter(Resolution(rows), bucket) == CountBucket(rows, |rows|, bucket) { ResolutionCounts(rows, bucket); }
  }

  /** The scan of a database. */
  ghost function ScanOf(tables: Tables): map<string, Report> {
    map t | t in tables && t in RECEIPT_TABLES :: ReportOf(tables[t])
  }

  lemma ScanOfScans(tables: Tables)
    ensures Scans(ScanOf(tables), tables)
  {
    forall t | IsReceipt(tables, t) ensures Reports(ReportOf(tables[t]), tables[t]) { ReportReports(tables[t]); }
    hide Reports, ReportOf;
  }

  /** Both keys say None: one by a null, one by that text. */
  const NONE_PAIRS: seq<Pair> := [Pair(CANON, Null), Pair(LEGACY, Str("None"))]

  lemma NonePairs()
    ensures UniqueKeys(NONE_PAIRS)
    ensures Lookup(NONE_PAIRS, CANON) == Some(Null) && Lookup(NONE_PAIRS, LEGACY) == Some(Str("None"))
  {
    KeysDiffer();
    assert UniqueKeys(NONE_PAIRS);
    LookupIn(NONE_PAIRS, NONE_PAIRS[0]);
    LookupIn(NONE_PAIRS, NONE_PAIRS[1]);
  }

  const NONE_ROW := Row(1, [], Encoded(NONE_PAIRS))
  const NONE_TABLES: Tables := map["queue_freeze" := Table(["payload"], [NONE_ROW])]

  lemma NoneIsLost()
    ensures RemapPayload(NONE_ROW.payload).Remapped? && !BlankLegacy(NONE_ROW.payload)
    ensures LosesId(NONE_ROW) && EmptyHeadId(NONE_ROW.payload) && DeployedId(NONE_ROW.payload) == "None"
  {
    NonePairs();
    hide UniqueKeys;
    assert RemapPayload(NONE_ROW.payload).Remapped? && EmptyHeadId(NONE_ROW.payload) && !BlankLegacy(NONE_ROW.payload);
    LosesIdExactly(NONE_ROW);
  }

  /** A database of one row whose only id the run drops, and on which the gate passes. */
  lemma GateMissesADroppedId() returns (tables: Tables, row: Row)
    ensures Accepted(tables) && IsReceipt(tables, "queue_freeze") && PayloadRows(tables["queue_freeze"]) == [row]
    ensures LosesId(row) && DeployedId(row.payload) == "None"
    ensures Scans(ScanOf(tables), tables) && Scans(ScanOf(After(tables)), After(tables))
    ensures Passes(ScanOf(tables), ScanOf(After(tables)))
  {
    tables, row := NONE_TABLES, NONE_ROW;
    NoneIsLost();
    hide RemapPayload, Lookup, BlankLegacy, BucketOf, LosesId, EmptyHeadId, DeployedId;
    assert RECEIPT_TABLES[2] == "queue_freeze";
    assert PayloadRows(tables["queue_freeze"]) == [row];
    assert Accepted(tables);
    ScanOfScans(tables);
    ScanOfScans(After(tables));
    hide ScanOf, Scans, Passes, Accepted, After;
    GatePassesExactly(ScanOf(tables), ScanOf(After(tables)), tables);
  }
}
