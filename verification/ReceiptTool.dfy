/** The remapper as it runs: loops over payloads, rows and tables, one transaction, and the
    integrity gate. */
module ReceiptTool {
  import opened IdKeys
  import opened Options
  import opened Text
  import opened JsonValues
  import opened ReceiptRemap
  import opened ReceiptStore

  method DropKey(o: Object, key: string) returns (out: seq<Pair>)
    ensures out == Drop(o, key)
  {
    out := [];
    for i := 0 to |o|
      invariant out + Drop(o[i..], key) == Drop(o, key)
    {
      assert o[i..][1..] == o[i + 1..];
      if o[i].key != key { out := out + [o[i]]; }
    }
    assert o[|o|..] == [];
  }

  method RenameKey(o: Object, key: string, to: string) returns (out: seq<Pair>)
    ensures out == Rename(o, key, to)
  {
    out := [];
    for i := 0 to |o|
      invariant |out| == i && forall k :: 0 <= k < i ==> out[k] == Rename(o, key, to)[k]
    {
      out := out + [Pair(if o[i].key == key then to else o[i].key, o[i].value)];
    }
  }

  /** remap_payload: both loops build the new object key by key. */
  method RemapOne(p: Payload) returns (r: Remap)
    ensures r == RemapPayload(p)
  {
    if !p.Encoded? { return RemapPayload(p); }
    var canon, legacy := Lookup(p.o, CANON), Lookup(p.o, LEGACY);
    if canon.Some? && legacy.Some? {
      if Strip(Rendered(canon.value)) != Strip(Rendered(legacy.value)) { return Refused(DisagreeingIds); }
      DropShape(p.o, LEGACY);
      var out := DropKey(p.o, LEGACY);
      return Remapped(Encoded(out), ConvertedRow);
    }
    if canon.Some? { return Remapped(p, AlreadyCanonical); }
    if legacy.None? { return Remapped(p, NoIdKey); }
    if Strip(Rendered(legacy.value)) == "" { return Remapped(p, EmptyLegacyValue); }
    RenameUnique(p.o, LEGACY, CANON);
    var out := RenameKey(p.o, LEGACY, CANON);
    return Remapped(Encoded(out), ConvertedRow);
  }

  /** The rows with one payload replaced, wherever the row id occurs. */
  function WithPayload(rows: seq<Row>, rowid: int, payload: Payload): (r: seq<Row>)
    ensures |r| == |rows|
    ensures forall k :: 0 <= k < |rows| ==> r[k] == if rows[k].rowid == rowid then rows[k].(payload := payload) else rows[k]
  {
    seq(|rows|, k requires 0 <= k < |rows| => if rows[k].rowid == rowid then rows[k].(payload := payload) else rows[k])
  }

  /** A database with at most one open write transaction. */
  class Database {
    var tables: Tables
    var working: Tables
    var open: bool

    constructor (tables: Tables)
      ensures this.tables == tables && !open
    {
      this.tables, this.working, open := tables, tables, false;
    }

    method Begin()
      requires !open
      modifies this
      ensures open && working == tables && tables == old(tables)
    {
      working, open := tables, true;
    }

    method Update(t: string, rowid: int, payload: Payload)
      requires open && t in working
      modifies this`working
      ensures working == old(working)[t := old(working)[t].(rows := WithPayload(old(working)[t].rows, rowid, payload))]
    {
      working := working[t := working[t].(rows := WithPayload(working[t].rows, rowid, payload))];
    }

    method Commit()
      requires open
      modifies this
      ensures !open && tables == old(working)
    {
      tables, open := working, false;
    }

    /** A rollback, explicit or by closing the connection. */
    method Discard()
      modifies this
      ensures !open && tables == old(tables)
    {
      open := false;
    }
  }

  /** Rows before `n` done, the others as they were. */
  function Partly(rows: seq<Row>, n: nat): (r: seq<Row>)
    requires n <= |rows|
    ensures |r| == |rows|
    ensures forall k :: 0 <= k < |rows| ==> r[k] == if k < n then RowAfter(rows[k]) else rows[k]
  {
    seq(|rows|, k requires 0 <= k < |rows| => if k < n then RowAfter(rows[k]) else rows[k])
  }

  /** The row is accepted, and the database takes its update if there is one. */
  predicate Goes(breaks: (string, int) -> bool, t: string, row: Row) {
    RemapPayload(row.payload).Remapped? && (Converts(row.payload) ==> !breaks(t, row.rowid))
  }

  predicate AllGo(breaks: (string, int) -> bool, t: string, rows: seq<Row>) {
    forall k :: 0 <= k < |rows| ==> Goes(breaks, t, rows[k])
  }

  lemma PartlyNext(rows: seq<Row>, n: nat)
    requires UniqueRowids(rows) && n < |rows| && RemapPayload(rows[n].payload).Remapped?
    ensures Partly(rows, n + 1) ==
            if Converts(rows[n].payload) then WithPayload(Partly(rows, n), rows[n].rowid, RemapPayload(rows[n].payload).payload)
            else Partly(rows, n)
    ensures StateOf(rows[n].payload) == Some(ConvertedRow) <==> Converts(rows[n].payload)
  {
    if !Converts(rows[n].payload) { OthersUntouched(rows[n].payload); }
    forall k | 0 <= k < |rows| ensures Partly(rows, n)[k].rowid == rows[k].rowid {
    }
  }

  lemma PartlyEnds(table: Table)
    ensures Partly(table.rows, 0) == table.rows && Partly(table.rows, |table.rows|) == RowsAfter(table.rows)
    ensures table.(rows := table.rows) == table
  {
  }

  /** One table within the transaction. */
  method ApplyTable(db: Database, t: string, breaks: (string, int) -> bool) returns (ok: bool, changed: nat)
    requires db.open && t in db.working && UniqueRowids(db.working[t].rows)
    modifies db`working
    ensures ok <==> AllGo(breaks, t, PayloadRows(old(db.working)[t]))
    ensures ok ==> db.working == old(db.working)[t := TableAfter(old(db.working)[t])]
    ensures ok ==> changed == CountState(PayloadRows(old(db.working)[t]), |PayloadRows(old(db.working)[t])|, ConvertedRow)
  {
    hide Partly, WithPayload, RowsAfter, UniqueRowids, RemapPayload, StateOf, Converts, Goes;
    ghost var was := db.working;
    var rows := PayloadRows(db.working[t]);
    ok, changed := true, 0;
    if "payload" !in db.working[t].columns { return; }
    PartlyEnds(was[t]);
    for i := 0 to |rows|
      invariant db.open && db.working == was[t := was[t].(rows := Partly(rows, i))]
      invariant forall k :: 0 <= k < i ==> Goes(breaks, t, rows[k])
      invariant changed == CountState(rows, i, ConvertedRow)
    {
      var r := RemapOne(rows[i].payload);
      GoesIs(breaks, t, rows[i]);
      if r.Refused? { return false, changed; }
      PartlyNext(rows, i);
      if r.state == ConvertedRow {
        if breaks(t, rows[i].rowid) { return false, changed; }
        db.Update(t, rows[i].rowid, r.payload);
        changed := changed + 1;
      }
    }
  }

  lemma GoesIs(breaks: (string, int) -> bool, t: string, row: Row)
    ensures var r := RemapPayload(row.payload);
      && (Goes(breaks, t, row) <==> r.Remapped? && (r.state == ConvertedRow ==> !breaks(t, row.rowid)))
      && (Converts(row.payload) <==> r.Remapped? && r.state == ConvertedRow)
  {
  }

  // ---- the whole run ----

  datatype Stats = Stats(rows: map<string, nat>, changed: map<string, nat>)

  predicate Among(t: string, n: nat)
    requires n <= |RECEIPT_TABLES|
  {
    exists k :: 0 <= k < n && RECEIPT_TABLES[k] == t
  }

  /** The database with the first `n` receipt tables done. */
  function AfterTo(tables: Tables, n: nat): Tables
    requires n <= |RECEIPT_TABLES|
  {
    map t | t in tables :: if Among(t, n) then TableAfter(tables[t]) else tables[t]
  }

  lemma AfterNext(tables: Tables, n: nat)
    requires n < |RECEIPT_TABLES|
    ensures var t := RECEIPT_TABLES[n];
      if t in tables then t in AfterTo(tables, n) && AfterTo(tables, n)[t] == tables[t]
                          && AfterTo(tables, n + 1) == AfterTo(tables, n)[t := TableAfter(tables[t])]
      else AfterTo(tables, n + 1) == AfterTo(tables, n)
  {
    assert RECEIPT_TABLES[0] != RECEIPT_TABLES[1] && RECEIPT_TABLES[0] != RECEIPT_TABLES[2] && RECEIPT_TABLES[1] != RECEIPT_TABLES[2];
    assert Among(RECEIPT_TABLES[n], n + 1) && !Among(RECEIPT_TABLES[n], n);
    assert forall t :: t != RECEIPT_TABLES[n] ==> (Among(t, n + 1) <==> Among(t, n));
    hide TableAfter;
  }

  lemma AfterEnds(tables: Tables)
    ensures AfterTo(tables, 0) == tables && AfterTo(tables, |RECEIPT_TABLES|) == After(tables)
  {
    assert forall t :: Among(t, |RECEIPT_TABLES|) <==> t in RECEIPT_TABLES;
    hide TableAfter;
  }

  ghost predicate Runs(breaks: (string, int) -> bool, tables: Tables) {
    forall t :: IsReceipt(tables, t) ==> AllGo(breaks, t, PayloadRows(tables[t]))
  }

  /** A run goes through if and only if every payload of the receipt tables is accepted and the
      database takes the update of every row that is converted. */
  lemma RunsExactly(breaks: (string, int) -> bool, tables: Tables)
    ensures Runs(breaks, tables) <==>
              forall t, k :: IsReceipt(tables, t) && 0 <= k < |PayloadRows(tables[t])| ==>
                var row := PayloadRows(tables[t])[k];
                RemapPayload(row.payload).Remapped?
                && (RemapPayload(row.payload).state == ConvertedRow ==> !breaks(t, row.rowid))
  {
    hide RemapPayload, PayloadRows;
    if Runs(breaks, tables) {
      forall t, k | IsReceipt(tables, t) && 0 <= k < |PayloadRows(tables[t])| ensures Goes(breaks, t, PayloadRows(tables[t])[k]) {
        assert AllGo(breaks, t, PayloadRows(tables[t]));
      }
    }
  }

  /** The statistics on one table are right. */
  predicate Counted(stats: Stats, rows: seq<Row>, t: string) {
    && t in stats.rows && stats.rows[t] == |rows|
    && t in stats.changed && stats.changed[t] == CountState(rows, |rows|, ConvertedRow)
  }

  lemma CountedNext(stats: Stats, rows: seq<Row>, t: string, other: string, m: nat, n: nat)
    requires Counted(stats, rows, t) && t != other
    ensures Counted(Stats(stats.rows[other := m], stats.changed[other := n]), rows, t)
  {
  }

  /** The first `n` receipt tables went through and are counted. */
  ghost predicate Done(stats: Stats, breaks: (string, int) -> bool, tables: Tables, n: nat)
    requires n <= |RECEIPT_TABLES|
  {
    forall k :: 0 <= k < n && RECEIPT_TABLES[k] in tables ==>
      AllGo(breaks, RECEIPT_TABLES[k], PayloadRows(tables[RECEIPT_TABLES[k]]))
      && Counted(stats, PayloadRows(tables[RECEIPT_TABLES[k]]), RECEIPT_TABLES[k])
  }

  lemma DoneNext(stats: Stats, breaks: (string, int) -> bool, tables: Tables, n: nat, changed: nat)
    requires n < |RECEIPT_TABLES| && Done(stats, breaks, tables, n)
    ensures var t := RECEIPT_TABLES[n];
      if t in tables then
        var rows := PayloadRows(tables[t]);
        AllGo(breaks, t, rows) && changed == CountState(rows, |rows|, ConvertedRow) ==>
          Done(Stats(stats.rows[t := |rows|], stats.changed[t := changed]), breaks, tables, n + 1)
      else Done(stats, breaks, tables, n + 1)
  {
    var t := RECEIPT_TABLES[n];
    if t in tables {
      var rows := PayloadRows(tables[t]);
      var next := Stats(stats.rows[t := |rows|], stats.changed[t := changed]);
      assert changed == CountState(rows, |rows|, ConvertedRow) ==> Counted(next, rows, t);
      forall k | 0 <= k < n && RECEIPT_TABLES[k] in tables
        ensures Counted(next, PayloadRows(tables[RECEIPT_TABLES[k]]), RECEIPT_TABLES[k])
      {
        NamesDiffer(k, n);
        CountedNext(stats, PayloadRows(tables[RECEIPT_TABLES[k]]), RECEIPT_TABLES[k], t, |rows|, changed);
      }
      hide Counted, AllGo, PayloadRows;
    }
  }

  lemma DoneEnds(stats: Stats, breaks: (string, int) -> bool, tables: Tables)
    requires Done(stats, breaks, tables, |RECEIPT_TABLES|)
    ensures Runs(breaks, tables)
    ensures forall t :: IsReceipt(tables, t) ==> Counted(stats, PayloadRows(tables[t]), t)
  {
    hide Counted, AllGo, PayloadRows;
    forall t | IsReceipt(tables, t) ensures AllGo(breaks, t, PayloadRows(tables[t])) && Counted(stats, PayloadRows(tables[t]), t) {
      var k :| 0 <= k < |RECEIPT_TABLES| && RECEIPT_TABLES[k] == t;
    }
  }

  /** apply_remap: every convertible row of every receipt table is converted and committed, or
      the database is as it was. */
  method ApplyRemap(db: Database, breaks: (string, int) -> bool) returns (stats: Option<Stats>)
    requires !db.open && ValidTables(db.tables)
    modifies db
    ensures !db.open
    ensures stats.Some? <==> Runs(breaks, old(db.tables))
    ensures db.tables == if stats.Some? then After(old(db.tables)) else old(db.tables)
    ensures stats.Some? ==> forall t :: IsReceipt(old(db.tables), t) ==>
      Counted(stats.value, PayloadRows(old(db.tables)[t]), t)
  {
    ghost var was := db.tables;
    var result := Stats(map[], map[]);
    db.Begin();
    AfterEnds(was);
    assert Done(result, breaks, was, 0);
    hide TableAfter, AfterTo, After, AllGo, PayloadRows, Counted, CountState, Done;
    for i := 0 to |RECEIPT_TABLES|
      invariant db.open && db.tables == was && db.working == AfterTo(was, i) && Done(result, breaks, was, i)
    {
      var t := RECEIPT_TABLES[i];
      AfterNext(was, i);
      SameNames(was, i);
      if t in db.working {
        var rows := |PayloadRows(db.working[t])|;
        var ok, changed := ApplyTable(db, t, breaks);
        if !ok {
          db.Discard();
          return None;
        }
        DoneNext(result, breaks, was, i, changed);
        result := Stats(result.rows[t := rows], result.changed[t := changed]);
      } else {
        DoneNext(result, breaks, was, i, 0);
      }
    }
    DoneEnds(result, breaks, was);
    db.Commit();
    stats := Some(result);
  }

  lemma SameNames(tables: Tables, n: nat)
    requires n <= |RECEIPT_TABLES|
    ensures AfterTo(tables, n).Keys == tables.Keys
  {
  }

  lemma NamesDiffer(j: nat, k: nat)
    requires j < k < |RECEIPT_TABLES|
    ensures RECEIPT_TABLES[j] != RECEIPT_TABLES[k]
  {
    assert |RECEIPT_TABLES[0]| != |RECEIPT_TABLES[1]| && |RECEIPT_TABLES[0]| != |RECEIPT_TABLES[2]|
           && |RECEIPT_TABLES[1]| != |RECEIPT_TABLES[2]|;
  }

  // ---- scan and gate ----

  lemma ScanNext(rows: seq<Row>, n: nat, state: RowState)
    requires n < |rows| && StateOf(rows[n].payload) == Some(state)
    ensures forall other :: CountState(rows, n + 1, other) == CountState(rows, n, other) + (if other == state then 1 else 0)
    ensures forall bucket :: CountBucket(rows, n + 1, bucket)
                             == CountBucket(rows, n, bucket) + (if bucket == BucketOf(rows[n].payload) then 1 else 0)
    ensures DeployedOnlyIds(rows, n + 1) ==
            DeployedOnlyIds(rows, n) + (if BucketOf(rows[n].payload) == DeployedOnly then {DeployedId(rows[n].payload)} else {})
    ensures HeadIds(rows, n + 1) ==
            HeadIds(rows, n) + (if BucketOf(rows[n].payload) == BothNonempty || BucketOf(rows[n].payload) == HeadOnly
                                then {HeadId(rows[n].payload)} else {})
  {
    hide StateOf, BucketOf, DeployedId, HeadId;
  }

  lemma ScanEnds(rows: seq<Row>)
    ensures DeployedOnlyIds(rows, 0) == {} && HeadIds(rows, 0) == {}
  {
  }

  /** The scan of one table, row by row; it stops at a refused payload. */
  method ScanTable(table: Table) returns (report: Option<Report>)
    ensures report.Some? <==> RowsAccepted(PayloadRows(table))
    ensures report.Some? ==> Reports(report.value, table)
  {
    hide DeployedOnlyIds, HeadIds, BucketOf, RemapPayload, DeployedId, HeadId;
    var rows := PayloadRows(table);
    var census: map<RowState, nat> := map[];
    var resolution: map<Bucket, nat> := map[];
    var deployedOnly, both: set<string> := {}, {};
    ScanEnds(rows);
    for i := 0 to |rows|
      invariant forall k :: 0 <= k < i ==> RemapPayload(rows[k].payload).Remapped?
      invariant forall state :: Counter(census, state) == CountState(rows, i, state)
      invariant forall bucket :: Counter(resolution, bucket) == CountBucket(rows, i, bucket)
      invariant deployedOnly == DeployedOnlyIds(rows, i) && both == HeadIds(rows, i)
    {
      var p := rows[i].payload;
      var r := RemapOne(p);
      if r.Refused? { return None; }
      ScanNext(rows, i, r.state);
      census := census[r.state := Counter(census, r.state) + 1];
      var bucket := BucketOf(p);
      resolution := resolution[bucket := Counter(resolution, bucket) + 1];
      if bucket == DeployedOnly {
        deployedOnly := deployedOnly + {DeployedId(p)};
      } else if bucket != NeitherReader {
        both := both + {HeadId(p)};
      }
    }
    report := Some(Report(|rows|, table.columns, census, resolution, deployedOnly, both));
  }

  /** The scan of every receipt table. */
  method Scan(tables: Tables) returns (scan: Option<map<string, Report>>)
    ensures scan.Some? <==> Accepted(tables)
    ensures scan.Some? ==> Scans(scan.value, tables)
  {
    hide Reports, RowsAccepted, PayloadRows, Among;
    NoneAmong();
    var found: map<string, Report> := map[];
    for i := 0 to |RECEIPT_TABLES|
      invariant forall t :: t in found <==> t in tables && Among(t, i)
      invariant forall t :: t in found ==> Reports(found[t], tables[t]) && RowsAccepted(PayloadRows(tables[t]))
    {
      var t := RECEIPT_TABLES[i];
      AmongNext(i);
      if t in tables {
        var report := ScanTable(tables[t]);
        if report.None? { return None; }
        found := found[t := report.value];
      }
    }
    AllAmong();
    scan := Some(found);
  }

  lemma AmongNext(n: nat)
    requires n < |RECEIPT_TABLES|
    ensures forall t :: Among(t, n + 1) <==> Among(t, n) || t == RECEIPT_TABLES[n]
  {
    forall t ensures Among(t, n + 1) <==> Among(t, n) || t == RECEIPT_TABLES[n] {
      assert t == RECEIPT_TABLES[n] ==> Among(t, n + 1);
      if Among(t, n) {
        var k :| 0 <= k < n && RECEIPT_TABLES[k] == t;
        assert Among(t, n + 1);
      }
    }
  }

  lemma NoneAmong()
    ensures forall t :: !Among(t, 0)
  {
  }

  lemma AllAmong()
    ensures forall t :: Among(t, |RECEIPT_TABLES|) <==> t in RECEIPT_TABLES
  {
  }

  method CheckTable(t: string, before: Report, after: Report) returns (problems: seq<Problem>)
    ensures problems == [] <==> TablePasses(before, after)
    ensures RowCountChanged(t) in problems <==> before.rows != after.rows
    ensures ColumnsChanged(t) in problems <==> before.columns != after.columns
    ensures (exists moved :: StillDeployedOnly(t, moved) in problems) <==>
              exists id :: id in before.deployedOnly && id in after.deployedOnly
    ensures StillConvertible(t) in problems <==> ConvertedRow in after.census && after.census[ConvertedRow] != 0
  {
    problems := [];
    if before.rows != after.rows { problems := problems + [RowCountChanged(t)]; }
    if before.columns != after.columns { problems := problems + [ColumnsChanged(t)]; }
    var moved := before.deployedOnly - after.deployedOnly;
    if moved != before.deployedOnly { problems := problems + [StillDeployedOnly(t, moved)]; }
    if ConvertedRow in after.census && after.census[ConvertedRow] != 0 { problems := problems + [StillConvertible(t)]; }
  }

  /** check_integrity: one list of problems over the tables of the first scan. */
  method CheckIntegrity(before: map<string, Report>, after: map<string, Report>) returns (problems: seq<Problem>)
    ensures problems == [] <==> Passes(before, after)
  {
    problems := [];
    var todo := before.Keys;
    while todo != {}
      invariant todo <= before.Keys
      invariant problems == [] <==>
                forall t :: t in before && t !in todo ==> t in after && TablePasses(before[t], after[t])
      decreases |todo|
    {
      var t :| t in todo;
      todo := todo - {t};
      if t !in after {
        problems := problems + [RowCountChanged(t), ColumnsChanged(t)];
      } else {
        var found := CheckTable(t, before[t], after[t]);
        problems := problems + found;
      }
    }
  }

  /** The apply branch of main: scan, apply, scan again, gate. Nothing changes, or everything
      convertible is converted and the gate objects exactly to blank legacy ids. */
  method Run(db: Database, breaks: (string, int) -> bool) returns (problems: Option<seq<Problem>>)
    requires !db.open && ValidTables(db.tables)
    modifies db
    ensures problems.Some? <==> Runs(breaks, old(db.tables))
    ensures db.tables == if problems.Some? then After(old(db.tables)) else old(db.tables)
    ensures problems.Some? ==>
      (problems.value == [] <==>
       forall t, k :: IsReceipt(old(db.tables), t) && 0 <= k < |PayloadRows(old(db.tables)[t])| ==>
         !BlankLegacy(PayloadRows(old(db.tables)[t])[k].payload))
  {
    ghost var was := db.tables;
    if Runs(breaks, was) { RunsAccepted(breaks, was); }
    var before := Scan(db.tables);
    if before.None? { return None; }
    var stats := ApplyRemap(db, breaks);
    if stats.None? { return None; }
    SecondRunIsIdle(was);
    var after := Scan(db.tables);
    var found := CheckIntegrity(before.value, after.value);
    GatePassesExactly(before.value, after.value, was);
    hide Accepted, After, Scans, Passes, BlankLegacy;
    problems := Some(found);
  }

  lemma RunsAccepted(breaks: (string, int) -> bool, tables: Tables)
    requires Runs(breaks, tables)
    ensures Accepted(tables)
  {
    forall t | IsReceipt(tables, t) ensures RowsAccepted(PayloadRows(tables[t])) {
      assert AllGo(breaks, t, PayloadRows(tables[t]));
      forall k | 0 <= k < |PayloadRows(tables[t])| ensures RemapPayload(PayloadRows(tables[t])[k].payload).Remapped? {
        assert Goes(breaks, t, PayloadRows(tables[t])[k]);
      }
    }
  }
}
