/** The guarantees of the remapper over every log it can be given. */
module BacklogTheorems {
  import opened IdKeys
  import opened Options
  import opened Ordering
  import opened Text
  import opened JsonValues
  import opened Backlog
  import opened BacklogLines

  ghost predicate Accepted(entries: seq<Entry>) {
    Increasing(entries) && MapLines(entries).Some?
  }

  ghost function Mapped(entries: seq<Entry>): (mapped: seq<Object>)
    requires MapLines(entries).Some?
    ensures |mapped| == |entries|
  {
    MapLinesLength(entries); MapLines(entries).value
  }

  ghost function After(entries: seq<Entry>): seq<Entry>
    requires MapLines(entries).Some?
  {
    Zip(entries, Mapped(entries))
  }

  ghost function Baseline(entries: seq<Entry>): map<string, Entry> { IntentState(entries) }

  ghost function Head(entries: seq<Entry>): map<string, Entry> { EffectiveState(entries, HeadReader) }

  /** The ids whose newest revision the renamed log does not show. */
  ghost function Stale(entries: seq<Entry>): set<string>
    requires MapLines(entries).Some?
  {
    ChangedIds(Baseline(entries), Head(After(entries)))
  }

  lemma AfterLine(entries: seq<Entry>, i: nat)
    requires MapLines(entries).Some? && i < |entries|
    ensures var out := After(entries)[i];
            && out.lineno == entries[i].lineno && out.obj == Mapped(entries)[i] && Canonical(out.obj)
            && Ident(HeadReader, out.obj) == Ident(EitherKey, entries[i].obj) == Ident(EitherKey, out.obj)
            && Fingerprint(out.obj) == Fingerprint(entries[i].obj) && Updated(out.obj) == Updated(entries[i].obj)
  {
    MapLinesPointwise(entries);
    RemapLineKeeps(entries[i].obj);
  }

  /** The renamed log shows exactly the ids of the baseline. */
  lemma SameIds(entries: seq<Entry>)
    requires Accepted(entries)
    ensures Baseline(entries).Keys == Head(After(entries)).Keys
    ensures forall id | id in Baseline(entries) :: id != "" && Strip(id) == id
  {
    forall id ensures id in Baseline(entries) <==> id in Head(After(entries))
      ensures id in Baseline(entries) ==> id != "" && Strip(id) == id
    {
      var k := NewestRevisionWins(entries, id);
      var j := LastLineWins(After(entries), HeadReader, id);
      if k >= 0 { AfterLine(entries, k); IdentIsStripped(EitherKey, entries[k].obj); }
      if j >= 0 { AfterLine(entries, j); }
      hide Ident, Updated;
    }
  }

  /** Two states over the same ids differ by changed revisions alone. */
  lemma OnlyRevisionsDiffer(left: map<string, Entry>, right: map<string, Entry>)
    requires left.Keys == right.Keys
    ensures var ids := SortedStrings(ChangedIds(left, right));
            && (forall id | id in ids :: id in left && id in right)
            && DiffStates(left, right) == Changes(left, right, ids)
            && (DiffStates(left, right) == [] <==> ChangedIds(left, right) == {})
  {
    var ids := ChangedIds(left, right);
    SortedStringsMembers(ids);
    assert left.Keys - right.Keys == {} && right.Keys - left.Keys == {};
    if ids != {} { var id :| id in ids; assert id in SortedStrings(ids); }
    if SortedStrings(ids) != [] { assert SortedStrings(ids)[0] in ids; }
  }

  // ---- the append loop ----

  ghost function Winners(baseline: map<string, Entry>, ids: seq<string>): seq<Object>
    requires forall id | id in ids :: id in baseline
  {
    seq(|ids|, i requires 0 <= i < |ids| => Winner(baseline[ids[i]].obj, ids[i]))
  }

  ghost predicate Plain(baseline: map<string, Entry>, ids: seq<string>) {
    forall id | id in ids :: id in baseline && '(' !in id && id != "" && Strip(id) == id
  }

  lemma AppendedState(after: seq<Entry>, last: Entry)
    ensures var ident := Ident(HeadReader, last.obj);
            Head(after + [last]) == if ident == "" then Head(after) else Head(after)[ident := last]
  {
    EffectiveStep(after + [last], HeadReader);
    assert (after + [last])[..|after|] == after;
  }

  lemma RenderAllStep(ds: seq<Difference>)
    requires ds != []
    ensures RenderAll(ds) == [Render(ds[0])] + RenderAll(ds[1..])
    ensures RenderAll(ds)[1..] == RenderAll(ds[1..])
  {
    assert RenderAll(ds) == [Render(ds[0])] + RenderAll(ds[1..]);
  }

  function WinnerEntry(baseline: map<string, Entry>, id: string, lineno: nat): Entry
    requires id in baseline
  {
    Entry(lineno, Winner(baseline[id].obj, id))
  }

  /** One turn of the append loop acts on the id cut at its first "(". */
  lemma AppendStep(baseline: map<string, Entry>, ds: seq<Difference>, mapped: seq<Object>, after: seq<Entry>)
    requires ds != [] && ds[0].RevisionChanged?
    ensures var id := HeadOfSplit(ds[0].ident, '(');
            Append(baseline, RenderAll(ds), mapped, after) ==
              if id !in baseline then Refuse(UnknownId)
              else var winner := WinnerEntry(baseline, id, |mapped| + 1);
                   Append(baseline, RenderAll(ds[1..]), mapped + [winner.obj], after + [winner])
  {
    ParsedIdentCuts(ds[0]);
    RenderAllStep(ds);
    hide Winner, Render, ParsedIdent, RenderAll, HeadOfSplit;
  }

  lemma WinnersStep(baseline: map<string, Entry>, ids: seq<string>, mapped: seq<Object>)
    requires ids != [] && forall id | id in ids :: id in baseline
    ensures forall id | id in ids[1..] :: id in ids
    ensures (mapped + [Winner(baseline[ids[0]].obj, ids[0])]) + Winners(baseline, ids[1..]) == mapped + Winners(baseline, ids)
    ensures forall id :: id in ids <==> id == ids[0] || id in ids[1..]
  {
    assert ids == [ids[0]] + ids[1..];
    assert Winners(baseline, ids) == [Winner(baseline[ids[0]].obj, ids[0])] + Winners(baseline, ids[1..]);
  }

  /** With ids that read back, the loop appends exactly their newest revisions, in order, and
      the state then shows those revisions and is otherwise unchanged. */
  lemma {:induction false} PlainIdsAreAppended(baseline: map<string, Entry>, ds: seq<Difference>, ids: seq<string>, mapped: seq<Object>, after: seq<Entry>)
    requires |ds| == |ids| && forall i | 0 <= i < |ds| :: ds[i].RevisionChanged? && ds[i].ident == ids[i]
    requires Plain(baseline, ids)
    ensures var r := Append(baseline, RenderAll(ds), mapped, after);
            && r.Extended? && r.mapped == mapped + Winners(baseline, ids)
            && (forall id | id in ids :: id in Head(r.after) && Head(r.after)[id].obj == Winner(baseline[id].obj, id))
            && (forall id | id !in ids :: (id in Head(r.after) <==> id in Head(after))
                                          && (id in Head(after) ==> Head(r.after)[id] == Head(after)[id]))
    decreases |ds|
  {
    if ds == [] {
      assert Winners(baseline, ids) == [];
    } else {
      var id := ids[0];
      HeadOfSplitConcat(id, "", '(');
      AppendStep(baseline, ds, mapped, after);
      var winner := WinnerEntry(baseline, id, |mapped| + 1);
      WinnerKeeps(baseline[id].obj, id);
      AppendedState(after, winner);
      WinnersStep(baseline, ids, mapped);
      hide Append, Winner, Winners, Ident, RenderAll, Head, Fingerprint, Updated, Canonical, HeadOfSplit;
      PlainIdsAreAppended(baseline, ds[1..], ids[1..], mapped + [winner.obj], after + [winner]);
    }
  }

  /** Whatever the loop appends, an id that holds a "(" shows what it showed before. */
  lemma {:induction false} ParenthesisedIdsStay(baseline: map<string, Entry>, ds: seq<Difference>, mapped: seq<Object>, after: seq<Entry>, id: string)
    requires forall i | 0 <= i < |ds| :: ds[i].RevisionChanged?
    requires '(' in id
    ensures var r := Append(baseline, RenderAll(ds), mapped, after);
            r.Extended? ==> (id in Head(r.after) <==> id in Head(after))
                            && (id in Head(after) ==> Head(r.after)[id] == Head(after)[id])
    decreases |ds|
  {
    if ds != [] {
      AppendStep(baseline, ds, mapped, after);
      var ident := HeadOfSplit(ds[0].ident, '(');
      if ident in baseline {
        ParsedIdentCuts(ds[0]);
        var winner := WinnerEntry(baseline, ident, |mapped| + 1);
        AppendedState(after, winner);
        StripTwice(ident);
        assert '(' !in Ident(HeadReader, winner.obj);
        hide Append, Winner, Ident, RenderAll, Head, Render, ParsedIdent, HeadOfSplit;
        ParenthesisedIdsStay(baseline, ds[1..], mapped + [winner.obj], after + [winner], id);
      }
    }
  }

  // ---- when the reconcile succeeds ----

  lemma ApplyUnfolds(entries: seq<Entry>, appendCurrent: bool)
    requires Accepted(entries)
    ensures var baseline, ids := Baseline(entries), StaleIds(entries);
            && (forall id | id in ids :: id in baseline && id in Head(After(entries)) && id != "" && Strip(id) == id)
            && var ds := Changes(baseline, Head(After(entries)), ids);
               Apply(entries, appendCurrent) ==
                 if ids == [] then Applied(Mapped(entries), 0)
                 else if !appendCurrent then Refused(WouldRegress)
                 else match Append(baseline, RenderAll(ds), Mapped(entries), After(entries))
                      case Refuse(reason) => Refused(reason)
                      case Extended(lines, after) =>
                        if DiffStates(baseline, Head(after)) != [] then Refused(StillRegresses) else Applied(lines, |ids|)
  {
    SameIds(entries);
    OnlyRevisionsDiffer(Baseline(entries), Head(After(entries)));
    assert Apply(entries, appendCurrent) == ApplyMapped(entries, Mapped(entries), appendCurrent);
    hide Apply, Accepted, MapLines, Append, RenderAll, IntentState, EffectiveState, SortedStrings, DiffStates, Strip;
  }

  /** `append-current` succeeds on a log exactly when no stale id holds a "("; it then keeps
      every line and appends the newest revision of each stale id. Strict mode succeeds
      exactly when no id is stale. */
  lemma ReconcileSucceedsExactly(entries: seq<Entry>)
    requires Accepted(entries)
    ensures Apply(entries, true).Applied? <==> forall id | id in Stale(entries) :: '(' !in id
    ensures forall id | id in StaleIds(entries) :: id in Baseline(entries)
    ensures Apply(entries, true).Applied? ==>
              Apply(entries, true) == Applied(Mapped(entries) + Winners(Baseline(entries), StaleIds(entries)), |Stale(entries)|)
    ensures Apply(entries, false) == if Stale(entries) == {} then Applied(Mapped(entries), 0) else Refused(WouldRegress)
  {
    ApplyUnfolds(entries, true);
    ApplyUnfolds(entries, false);
    StaleIdsSize(entries);
    hide Apply, DiffStates, Head, Baseline, Winners;
    if StaleIds(entries) == [] {
      assert Winners(Baseline(entries), StaleIds(entries)) == [] by { NoWinners(Baseline(entries)); }
      assert Mapped(entries) + [] == Mapped(entries);
    } else if forall id | id in Stale(entries) :: '(' !in id {
      PlainReconcile(entries);
    } else {
      var id :| id in Stale(entries) && '(' in id;
      ParenthesisedReconcile(entries, id);
    }
  }

  lemma NoWinners(baseline: map<string, Entry>)
    ensures Winners(baseline, []) == []
  {
  }

  lemma StaleIdsSize(entries: seq<Entry>)
    requires MapLines(entries).Some?
    ensures |StaleIds(entries)| == |Stale(entries)|
    ensures StaleIds(entries) == [] <==> Stale(entries) == {}
  {
    SortedStringsMembers(Stale(entries));
    DistinctSize(StaleIds(entries));
    assert Elements(StaleIds(entries)) == Stale(entries);
  }

  lemma PlainReconcile(entries: seq<Entry>)
    requires Accepted(entries) && StaleIds(entries) != [] && forall id | id in Stale(entries) :: '(' !in id
    ensures forall id | id in StaleIds(entries) :: id in Baseline(entries)
    ensures Apply(entries, true) == Applied(Mapped(entries) + Winners(Baseline(entries), StaleIds(entries)), |StaleIds(entries)|)
  {
    ApplyUnfolds(entries, true);
    SameIds(entries);
    var baseline, after, ids := Baseline(entries), After(entries), StaleIds(entries);
    var ds := Changes(baseline, Head(after), ids);
    hide Apply, DiffStates, Append, Head, Baseline, Winners, RenderAll, Winner, Strip, Accepted;
    PlainIdsAreAppended(baseline, ds, ids, Mapped(entries), after);
    var r := Append(baseline, RenderAll(ds), Mapped(entries), after);
    ReconciledMatches(baseline, Head(after), Head(r.after), ids);
    OnlyRevisionsDiffer(baseline, Head(r.after));
  }

  lemma ParenthesisedReconcile(entries: seq<Entry>, id: string)
    requires Accepted(entries) && StaleIds(entries) != [] && id in Stale(entries) && '(' in id
    ensures !Apply(entries, true).Applied?
  {
    ApplyUnfolds(entries, true);
    var baseline, after, ids := Baseline(entries), After(entries), StaleIds(entries);
    var ds := Changes(baseline, Head(after), ids);
    ParenthesisedIdsStay(baseline, ds, Mapped(entries), after, id);
    var r := Append(baseline, RenderAll(ds), Mapped(entries), after);
    hide Apply, DiffStates, Append, Head, Baseline, RenderAll;
    if r.Extended? {
      assert id in ChangedIds(baseline, Head(r.after));
      StillDiffers(baseline, Head(r.after), id);
    }
  }

  ghost function StaleIds(entries: seq<Entry>): (ids: seq<string>)
    requires MapLines(entries).Some?
    ensures ids == SortedStrings(Stale(entries)) && forall id :: id in ids <==> id in Stale(entries)
  {
    SortedStringsMembers(Stale(entries)); SortedStrings(Stale(entries))
  }

  lemma {:induction false} DistinctSize<T>(s: seq<T>)
    requires Distinct(s)
    ensures |Elements(s)| == |s|
  {
    if s != [] {
      DistinctSize(s[1..]);
      assert s == [s[0]] + s[1..];
      assert Elements(s) == Elements(s[1..]) + {s[0]};
    }
  }

  lemma StillDiffers(left: map<string, Entry>, right: map<string, Entry>, id: string)
    requires id in ChangedIds(left, right)
    ensures DiffStates(left, right) != []
  {
    SortedStringsMembers(ChangedIds(left, right));
    assert id in SortedStrings(ChangedIds(left, right));
  }

  lemma ReconciledMatches(baseline: map<string, Entry>, before: map<string, Entry>, after: map<string, Entry>, ids: seq<string>)
    requires baseline.Keys == before.Keys
    requires forall id :: id in ids <==> id in ChangedIds(baseline, before)
    requires Plain(baseline, ids)
    requires forall id | id in ids :: id in after && after[id].obj == Winner(baseline[id].obj, id)
    requires forall id | id !in ids :: (id in after <==> id in before) && (id in before ==> after[id] == before[id])
    ensures after.Keys == baseline.Keys && ChangedIds(baseline, after) == {}
  {
    forall id | id in ids ensures Fingerprint(after[id].obj) == Fingerprint(baseline[id].obj) {
      WinnerKeeps(baseline[id].obj, id);
    }
    hide Winner, Fingerprint;
  }

  const NEWER_LINE: Object := map[CANON := Str("a(b"), UPDATED_AT := Str("2")]
  const OLDER_LINE: Object := map[LEGACY := Str("a(b"), UPDATED_AT := Str("1")]
  const PARENTHESIS_LOG := [Entry(1, NEWER_LINE), Entry(2, OLDER_LINE)]

  lemma ParenthesisLines()
    ensures Ident(EitherKey, NEWER_LINE) == "a(b" == Ident(EitherKey, OLDER_LINE)
    ensures Updated(NEWER_LINE) == "2" && Updated(OLDER_LINE) == "1" && Fingerprint(NEWER_LINE) != Fingerprint(OLDER_LINE)
    ensures RemapLine(NEWER_LINE).Line? && RemapLine(OLDER_LINE).Line? && StringLess("1", "2") && !StringLess("2", "1")
  {
    assert Strip("a(b") == "a(b" && Strip("2") == "2" && Strip("1") == "1" && Strip("") == "";
    assert Fingerprint(NEWER_LINE)[UPDATED_AT] == StrDump("2") && Fingerprint(OLDER_LINE)[UPDATED_AT] == StrDump("1");
  }

  lemma MapLinesOfTwo(entries: seq<Entry>)
    requires |entries| == 2 && RemapLine(entries[0].obj).Line? && RemapLine(entries[1].obj).Line?
    ensures MapLines(entries).Some?
  {
    hide RemapLine;
    var one := entries[..1];
    assert one[..|one| - 1] == [] && one[|one| - 1] == entries[0];
    assert MapLines(one).Some?;
    assert entries[..|entries| - 1] == one;
  }

  /** A log that `append-current` refuses although renaming accepts it: the id of its stale
      line is cut at the "(" when it is read back. */
  lemma ParenthesisExample()
    ensures Accepted(PARENTHESIS_LOG) && "a(b" in Stale(PARENTHESIS_LOG)
    ensures Apply(PARENTHESIS_LOG, true).Refused?
  {
    var log, id := PARENTHESIS_LOG, "a(b";
    ParenthesisLines();
    hide RemapLine, Ident, Updated, Fingerprint;
    MapLinesOfTwo(log);
    var k := NewestRevisionWins(log, id);
    assert k == 0;
    AfterLine(log, 0);
    AfterLine(log, 1);
    var j := LastLineWins(After(log), HeadReader, id);
    assert j == 1;
    ReconcileSucceedsExactly(log);
  }
}
