/** What the written log shows when it is read again, by its readers and by the tool itself. */
module BacklogFixedPoint {
  import opened Options
  import opened Ordering
  import opened Text
  import opened JsonValues
  import opened Backlog
  import opened BacklogLines
  import opened BacklogTheorems

  /** The line, re-read, for the same revision of an id. */
  predicate SameRevision(a: Object, b: Object) {
    Fingerprint(a) == Fingerprint(b) && Updated(a) == Updated(b)
  }

  lemma RereadLine(entries: seq<Entry>, i: nat)
    requires MapLines(entries).Some? && i < |entries|
    ensures var out := Reread(Mapped(entries))[i].obj;
            && out == After(entries)[i].obj && SameRevision(out, entries[i].obj)
            && Ident(HeadReader, out) == Ident(EitherKey, entries[i].obj) == Ident(EitherKey, out)
  {
    AfterLine(entries, i);
  }

  lemma NewestIsUnique(a: seq<Entry>, b: seq<Entry>, id: string, k: int, j: int)
    requires |a| == |b| && IsNewest(a, id, k) && IsNewest(b, id, j)
    requires forall i | 0 <= i < |a| :: Ident(EitherKey, a[i].obj) == Ident(EitherKey, b[i].obj)
    requires forall i | 0 <= i < |a| :: Updated(a[i].obj) == Updated(b[i].obj)
    ensures k == j
  {
    StringLessTrichotomy(Updated(a[k].obj), Updated(a[j].obj));
    hide Ident, Updated;
  }

  lemma SameIdents(entries: seq<Entry>)
    requires MapLines(entries).Some?
    ensures var again := Reread(Mapped(entries));
            && |again| == |entries| == |After(entries)| && Increasing(again)
            && (forall i | 0 <= i < |entries| :: again[i].obj == After(entries)[i].obj)
            && (forall i | 0 <= i < |entries| :: Updated(again[i].obj) == Updated(entries[i].obj))
            && (forall i | 0 <= i < |entries| :: Ident(EitherKey, again[i].obj) == Ident(EitherKey, entries[i].obj))
  {
    forall i | 0 <= i < |entries| { RereadLine(entries, i); }
    hide Ident, Updated, Fingerprint, MapLines, Mapped;
  }

  lemma RenamedNewest(entries: seq<Entry>, id: string)
    requires Accepted(entries) && id != ""
    ensures var again := Reread(Mapped(entries));
            && (id in IntentState(again) <==> id in Baseline(entries))
            && (id in IntentState(again) ==> SameRevision(IntentState(again)[id].obj, Baseline(entries)[id].obj))
  {
    SameIdents(entries);
    var again := Reread(Mapped(entries));
    hide Mapped, Ident, Updated, Fingerprint, MapLines, Reread, After, IntentState;
    var k := NewestRevisionWins(entries, id);
    var j := NewestRevisionWins(again, id);
    if k >= 0 && j >= 0 {
      NewestIsUnique(entries, again, id, k, j);
      RereadLine(entries, k);
    }
  }

  lemma RenamedLast(entries: seq<Entry>, id: string)
    requires Accepted(entries) && id != ""
    ensures var again := Reread(Mapped(entries));
            && (id in Head(again) <==> id in Head(After(entries)))
            && (id in Head(again) ==> Head(again)[id].obj == Head(After(entries))[id].obj)
  {
    SameIdents(entries);
    var again := Reread(Mapped(entries));
    var after := After(entries);
    hide Mapped, Ident, Updated, MapLines, Reread, After, EffectiveState;
    var m := LastLineWins(after, HeadReader, id);
    var n := LastLineWins(again, HeadReader, id);
    if m >= 0 && n >= 0 { assert m == n; }
  }

  /** Renaming moves no id to another revision: the newest and the last line of every id are
      where they were. */
  lemma RenamedStates(entries: seq<Entry>, id: string)
    requires Accepted(entries)
    ensures var again := Reread(Mapped(entries));
            && (id in IntentState(again) <==> id in Baseline(entries))
            && (id in IntentState(again) ==> SameRevision(IntentState(again)[id].obj, Baseline(entries)[id].obj))
            && (id in Head(again) <==> id in Head(After(entries)))
            && (id in Head(again) ==> Head(again)[id].obj == Head(After(entries))[id].obj)
  {
    SameIdents(entries);
    var again, after := Reread(Mapped(entries)), After(entries);
    assert Increasing(after);
    hide Mapped, Ident, Updated, MapLines, Reread, After, EffectiveState, IntentState, Fingerprint, SameRevision;
    if id == "" {
      EmptyIdAbsent(entries);
      EmptyIdAbsent(again);
      EmptyIdAbsent(after);
    } else {
      RenamedNewest(entries, id);
      RenamedLast(entries, id);
    }
  }

  lemma EmptyIdAbsent(entries: seq<Entry>)
    requires Increasing(entries)
    ensures "" !in IntentState(entries) && "" !in Head(entries)
  {
    var k := NewestRevisionWins(entries, "");
    var j := LastLineWins(entries, HeadReader, "");
  }

  lemma RereadAppend(lines: seq<Object>, line: Object)
    ensures Reread(lines + [line]) == Reread(lines) + [Entry(|lines| + 1, line)]
  {
  }

  lemma {:induction false} IntentIsOlder(entries: seq<Entry>, id: string)
    ensures id in IntentState(entries) ==> exists k :: 0 <= k < |entries| && IntentState(entries)[id] == entries[k]
  {
    if entries != [] {
      IntentIsOlder(entries[..|entries| - 1], id);
      hide Ident, AtLeast;
    }
  }

  /** A line that repeats the newest revision of its id, written last, is the newest. */
  lemma RepeatedWinner(lines: seq<Object>, winner: Object, id: string)
    requires Ident(EitherKey, winner) == Ident(HeadReader, winner) == id != ""
    requires id in IntentState(Reread(lines)) ==> Updated(IntentState(Reread(lines))[id].obj) == Updated(winner)
    ensures var last := Entry(|lines| + 1, winner);
            && IntentState(Reread(lines + [winner])) == IntentState(Reread(lines))[id := last]
            && Head(Reread(lines + [winner])) == Head(Reread(lines))[id := last]
  {
    RereadAppend(lines, winner);
    var again := Reread(lines);
    var last := Entry(|lines| + 1, winner);
    IntentIsOlder(again, id);
    assert (again + [last])[..|again|] == again;
    AppendedState(again, last);
    hide Ident, Updated;
  }

  /** After the winners are appended each of their ids shows its winner as newest and as last;
      every other id shows what it showed. */
  lemma {:induction false} WinnersShow(baseline: map<string, Entry>, ids: seq<string>, lines: seq<Object>)
    requires Plain(baseline, ids)
    requires forall id | id in ids :: id in IntentState(Reread(lines)) && Updated(IntentState(Reread(lines))[id].obj) == Updated(baseline[id].obj)
    ensures var again, before := Reread(lines + Winners(baseline, ids)), Reread(lines);
            && (forall id | id in ids :: id in IntentState(again) && id in Head(again)
                  && IntentState(again)[id] == Head(again)[id] && Head(again)[id].obj == Winner(baseline[id].obj, id))
            && (forall id | id !in ids :: (id in IntentState(again) <==> id in IntentState(before))
                  && (id in Head(again) <==> id in Head(before))
                  && (id in IntentState(again) ==> IntentState(again)[id] == IntentState(before)[id])
                  && (id in Head(again) ==> Head(again)[id] == Head(before)[id]))
    decreases |ids|
  {
    if ids == [] {
      assert lines + Winners(baseline, ids) == lines;
    } else {
      var id := ids[0];
      var winner := Winner(baseline[id].obj, id);
      WinnerKeeps(baseline[id].obj, id);
      RepeatedWinner(lines, winner, id);
      WinnersStep(baseline, ids, lines);
      hide Winners, Winner, Ident, Updated, Fingerprint, Head, IntentState, Reread, Canonical;
      WinnersShow(baseline, ids[1..], lines + [winner]);
    }
  }

  /** What a successful run writes, in either mode. */
  lemma AppliedShape(entries: seq<Entry>, appendCurrent: bool)
    requires Accepted(entries)
    ensures forall id | id in StaleIds(entries) :: id in Baseline(entries)
    ensures var o, baseline, ids := Apply(entries, appendCurrent), Baseline(entries), StaleIds(entries);
            o.Applied? ==> o.lines == Mapped(entries) + Winners(baseline, ids) && Plain(baseline, ids)
  {
    ReconcileSucceedsExactly(entries);
    SameIds(entries);
    StaleIdsSize(entries);
    NoWinners(Baseline(entries));
    assert Mapped(entries) + [] == Mapped(entries);
    hide Apply, Baseline, Strip, Winners, Accepted, MapLines;
  }

  /** The states of the written log, id by id. */
  lemma WrittenStates(entries: seq<Entry>, appendCurrent: bool, id: string)
    requires Accepted(entries) && Apply(entries, appendCurrent).Applied?
    ensures var again := Reread(Apply(entries, appendCurrent).lines);
            && (id in Head(again) <==> id in Baseline(entries))
            && (id in IntentState(again) <==> id in Baseline(entries))
            && (id in Baseline(entries) ==>
                  Fingerprint(Head(again)[id].obj) == Fingerprint(Baseline(entries)[id].obj) == Fingerprint(IntentState(again)[id].obj))
  {
    AppliedShape(entries, appendCurrent);
    SameIds(entries);
    var baseline, ids := Baseline(entries), StaleIds(entries);
    RenamedStates(entries, id);
    forall other | other in ids
      ensures other in IntentState(Reread(Mapped(entries)))
      ensures Updated(IntentState(Reread(Mapped(entries)))[other].obj) == Updated(baseline[other].obj)
    {
      RenamedStates(entries, other);
    }
    WinnersShow(baseline, ids, Mapped(entries));
    if id in ids { WinnerKeeps(baseline[id].obj, id); }
    hide Apply, Winners, Winner, Fingerprint, Updated, Ident, Head, Baseline, IntentState, Reread, Accepted, MapLines, After;
    if id in baseline && id !in ids { assert id !in Stale(entries); }
  }

  /** After a successful run the last line of every id is its newest revision, no id is lost
      or added, and every line of the history is kept, in place, as it was renamed. */
  lemma WrittenLogReadsNewest(entries: seq<Entry>, appendCurrent: bool)
    requires Accepted(entries) && Apply(entries, appendCurrent).Applied?
    ensures var lines := Apply(entries, appendCurrent).lines;
            && Mapped(entries) <= lines
            && Head(Reread(lines)).Keys == Baseline(entries).Keys
            && forall id | id in Baseline(entries) :: Fingerprint(Head(Reread(lines))[id].obj) == Fingerprint(Baseline(entries)[id].obj)
  {
    AppliedShape(entries, appendCurrent);
    hide Apply, Head, Baseline, Fingerprint, Reread, Accepted, MapLines, Winners;
    forall id { WrittenStates(entries, appendCurrent, id); }
  }

  lemma WrittenLinesCanonical(entries: seq<Entry>, appendCurrent: bool)
    requires Accepted(entries) && Apply(entries, appendCurrent).Applied?
    ensures forall line | line in Apply(entries, appendCurrent).lines :: Canonical(line)
  {
    AppliedShape(entries, appendCurrent);
    var mapped, baseline, ids := Mapped(entries), Baseline(entries), StaleIds(entries);
    hide Apply, Canonical, Winner;
    forall i | 0 <= i < |mapped| ensures Canonical(mapped[i]) { AfterLine(entries, i); }
    forall i | 0 <= i < |ids| ensures Canonical(Winners(baseline, ids)[i]) {
      assert ids[i] in ids;
      WinnerKeeps(baseline[ids[i]].obj, ids[i]);
    }
  }

  /** A second run, in either mode, over what a successful run wrote converts nothing, finds
      no stale id, appends nothing and writes the same lines. */
  lemma SecondRunIsIdentity(entries: seq<Entry>, appendCurrent: bool, again: bool)
    requires Accepted(entries) && Apply(entries, appendCurrent).Applied?
    ensures var written := Apply(entries, appendCurrent).lines;
            && Accepted(Reread(written))
            && (forall line | line in written :: RemapLine(line).Line? && RemapLine(line).state != Converted)
            && Apply(Reread(written), again) == Applied(written, 0)
  {
    var written := Apply(entries, appendCurrent).lines;
    var log := Reread(written);
    WrittenLinesCanonical(entries, appendCurrent);
    forall i | 0 <= i < |log| ensures Canonical(log[i].obj) { assert log[i].obj == written[i] && written[i] in written; }
    MapLinesOfCanonical(log);
    assert Mapped(log) == written;
    assert After(log) == log;
    assert Stale(log) == {} by {
      hide Apply, Head, Baseline, Fingerprint, MapLines;
      forall id { WrittenStates(entries, appendCurrent, id); }
    }
    StaleIdsSize(log);
    NoWinners(Baseline(log));
    ReconcileSucceedsExactly(log);
    assert written + [] == written;
    hide Apply, RemapLine, Winners, MapLines, Baseline;
  }
}
