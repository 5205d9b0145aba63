/** The remapper in terms of the keys, texts and values of the lines it is given. */
module BacklogMeaning {
  import opened Options
  import opened Ordering
  import opened Text
  import opened JsonValues
  import opened Backlog
  import opened BacklogLines
  import opened BacklogTheorems
  import opened BacklogFixedPoint

  // ---- texts and values ----

  /** The text under a key: a missing value and a null read as empty, a string reads as itself
      and any other value as it is shown, both without white space at their ends. */
  lemma TextsExactly(obj: Object, key: string)
    ensures Updated(obj) == TextOf(Get(obj, "updated_at")) && Ident(HeadReader, obj) == TextOf(Get(obj, "backlog_item_id"))
    ensures var head, legacy := TextOf(Get(obj, "backlog_item_id")), TextOf(Get(obj, "item_id"));
            Ident(EitherKey, obj) == if head != "" then head else legacy
    ensures key !in obj ==> TextOf(Get(obj, key)) == ""
    ensures key in obj ==>
              TextOf(Get(obj, key)) ==
              match obj[key]
              case Null => ""
              case Str(s) => Strip(s)
              case Other(_, rendered, _) => Strip(rendered)
  {
  }

  /** Two values have one sorted dump: both null, one string, or equal dumps of something else. */
  predicate SameValue(a: Value, b: Value) {
    match a
    case Null => b == Null
    case Str(_) => b == a
    case Other(canonical, _, _) => b.Other? && b.canonical == canonical
  }

  /** Two lines carry the same values under every key but the two id keys. */
  ghost predicate SameContent(a: Object, b: Object) {
    forall k | k != "backlog_item_id" && k != "item_id" ::
      (k in a <==> k in b) && (k in a ==> SameValue(a[k], b[k]))
  }

  lemma FingerprintsAgreeExactly(a: Object, b: Object)
    ensures Fingerprint(a) == Fingerprint(b) <==> SameContent(a, b)
  {
    if Fingerprint(a) == Fingerprint(b) {
      forall k | k != "backlog_item_id" && k != "item_id" ensures (k in a <==> k in b) && (k in a ==> SameValue(a[k], b[k])) {
        assert k in Fingerprint(a) <==> k in a;
        assert k in Fingerprint(b) <==> k in b;
        if k in a { assert Fingerprint(a)[k] == Dump(a[k]) && Fingerprint(b)[k] == Dump(b[k]); }
      }
    }
  }

  // ---- single lines ----

  /** Both keys are there, with different texts. */
  predicate Disagrees(obj: Object) {
    && "backlog_item_id" in obj && "item_id" in obj
    && TextOf(Some(obj["backlog_item_id"])) != TextOf(Some(obj["item_id"]))
  }

  /** The old key is there, beside the new one or alone with a text that is not blank. */
  predicate HasOldKey(obj: Object) {
    "item_id" in obj && ("backlog_item_id" in obj || TextOf(Some(obj["item_id"])) != "")
  }

  /** The line without the old key, its value under the new one unless that was there. */
  function WithNewKey(obj: Object): Object
    requires "item_id" in obj
  {
    map k | k in obj.Keys + {"backlog_item_id"} && k != "item_id" ::
      if k in obj then obj[k] else obj["item_id"]
  }

  function Renamed(obj: Object): Object { if HasOldKey(obj) then WithNewKey(obj) else obj }

  /** A line is refused if and only if its two keys disagree; any other line is renamed if it
      has an old key to rename, and kept as it is if not. */
  lemma LineExactly(obj: Object)
    ensures RemapLine(obj).Disagree? <==> Disagrees(obj)
    ensures !Disagrees(obj) ==>
              && (RemapLine(obj).state == Converted <==> HasOldKey(obj))
              && RemapLine(obj).obj == Renamed(obj)
    ensures !Disagrees(obj) && !HasOldKey(obj) ==>
              && (RemapLine(obj).state == AlreadyCanonical <==>
                    "backlog_item_id" in obj && TextOf(Some(obj["backlog_item_id"])) != "")
              && (RemapLine(obj).state == EmptyCanonical <==>
                    "backlog_item_id" in obj && TextOf(Some(obj["backlog_item_id"])) == "")
              && (RemapLine(obj).state == EmptyLegacy <==> "item_id" in obj)
              && (RemapLine(obj).state == NoIdKey <==> "backlog_item_id" !in obj && "item_id" !in obj)
  {
    KeysDiffer();
    hide TextOf;
    if HasOldKey(obj) && !Disagrees(obj) { assert RemapLine(obj).obj == WithNewKey(obj); }
  }

  lemma KeysDiffer()
    ensures "backlog_item_id" != "item_id"
  {
    assert |"backlog_item_id"| != |"item_id"|;
  }

  // ---- whole logs ----

  lemma {:induction false} RefusedByALine(entries: seq<Entry>)
    ensures MapLines(entries).None? <==> exists i :: 0 <= i < |entries| && RemapLine(entries[i].obj).Disagree?
  {
    hide RemapLine;
    if entries != [] {
      var n := |entries| - 1;
      var rest := entries[..n];
      RefusedByALine(rest);
      assert forall i | 0 <= i < n :: rest[i] == entries[i];
      if i :| 0 <= i < |entries| && RemapLine(entries[i].obj).Disagree? { assert i == n || rest[i] == entries[i]; }
    }
  }

  /** A log is refused for disagreeing ids if and only if some line has both keys with different
      texts. Otherwise every line with an old key is renamed and every other line is kept. */
  lemma LogRefusedExactly(entries: seq<Entry>)
    ensures MapLines(entries).None? <==> exists i :: 0 <= i < |entries| && Disagrees(entries[i].obj)
    ensures MapLines(entries).Some? ==> |MapLines(entries).value| == |entries|
    ensures MapLines(entries).Some? ==> forall i | 0 <= i < |entries| ::
              MapLines(entries).value[i] == Renamed(entries[i].obj)
  {
    RefusedByALine(entries);
    if MapLines(entries).Some? { MapLinesPointwise(entries); }
    hide RemapLine, MapLines, Disagrees, Renamed;
    forall i | 0 <= i < |entries|
      ensures RemapLine(entries[i].obj).Disagree? <==> Disagrees(entries[i].obj)
      ensures !Disagrees(entries[i].obj) ==>
                RemapLine(entries[i].obj).obj == Renamed(entries[i].obj)
    {
      LineExactly(entries[i].obj);
    }
  }

  lemma {:induction false} AppendReasons(baseline: map<string, Entry>, changed: seq<string>, mapped: seq<Object>, after: seq<Entry>)
    ensures var r := Append(baseline, changed, mapped, after); r.Refuse? ==> r.reason != DisagreeingIds
    decreases |changed|
  {
    if changed != [] {
      var ident := ParsedIdent(changed[0]);
      if ident.Some? && ident.value in baseline {
        var winner := Winner(baseline[ident.value].obj, ident.value);
        AppendReasons(baseline, changed[1..], mapped + [winner], after + [Entry(|mapped + [winner]|, winner)]);
      }
    }
  }

  /** The tool, in either mode, fails closed on exactly these logs. */
  lemma DisagreementRefusedExactly(entries: seq<Entry>, appendCurrent: bool)
    ensures Apply(entries, appendCurrent) == Refused(DisagreeingIds) <==>
            exists i :: 0 <= i < |entries| && Disagrees(entries[i].obj)
  {
    LogRefusedExactly(entries);
    if MapLines(entries).Some? {
      var mapped := MapLines(entries).value;
      var baseline, after := IntentState(entries), Zip(entries, mapped);
      AppendReasons(baseline, RenderAll(DiffStates(baseline, EffectiveState(after, HeadReader))), mapped, after);
      hide Append, DiffStates, RenderAll, EffectiveState, IntentState;
    }
  }

  // ---- the written log ----

  /** Line `k` is the newest of its id under either key, ties going to the later line; line `j`
      is the last that carries the id. */
  ghost predicate NewestAndLast(entries: seq<Entry>, id: string, k: int, j: int) {
    && 0 <= k < |entries| && 0 <= j < |entries| && id != ""
    && Ident(EitherKey, entries[k].obj) == id == Ident(EitherKey, entries[j].obj)
    && (forall i | j < i < |entries| :: Ident(EitherKey, entries[i].obj) != id)
    && forall i | 0 <= i < |entries| && Ident(EitherKey, entries[i].obj) == id ::
         StringLess(Updated(entries[i].obj), Updated(entries[k].obj))
         || (Updated(entries[i].obj) == Updated(entries[k].obj) && i <= k)
  }

  lemma OneNewestAndLast(entries: seq<Entry>, id: string, k: int, j: int, k': int, j': int)
    requires NewestAndLast(entries, id, k, j) && NewestAndLast(entries, id, k', j')
    ensures k == k' && j == j'
  {
    StringLessTrichotomy(Updated(entries[k].obj), Updated(entries[k'].obj));
    hide Ident, Updated, StringLess;
  }

  /** An id of an accepted log is stale if and only if its last line and its newest line carry
      different values under some key that is not an id key. */
  lemma StaleExactly(entries: seq<Entry>, id: string)
    requires Accepted(entries)
    ensures id in Stale(entries) <==>
              exists k, j :: NewestAndLast(entries, id, k, j) && !SameContent(entries[k].obj, entries[j].obj)
  {
    var k := NewestRevisionWins(entries, id);
    var j := LastLineWins(After(entries), HeadReader, id);
    SameIds(entries);
    if k >= 0 && j >= 0 {
      AfterLine(entries, j);
      LastIsLast(entries, id, k, j);
      FingerprintsAgreeExactly(entries[k].obj, entries[j].obj);
      hide Ident, Updated, Fingerprint, SameContent, MapLines, After, NewestAndLast, Accepted;
      forall k', j' | NewestAndLast(entries, id, k', j') ensures k' == k && j' == j {
        OneNewestAndLast(entries, id, k, j, k', j');
      }
    } else {
      hide Ident, Updated, Fingerprint, SameContent, MapLines, After;
      assert forall k', j' :: !NewestAndLast(entries, id, k', j');
    }
  }

  lemma LastIsLast(entries: seq<Entry>, id: string, k: int, j: int)
    requires Accepted(entries) && IsNewest(entries, id, k) && IsLast(After(entries), HeadReader, id, j)
    ensures NewestAndLast(entries, id, k, j)
  {
    forall i | 0 <= i < |entries| ensures Ident(HeadReader, After(entries)[i].obj) == Ident(EitherKey, entries[i].obj) {
      AfterLine(entries, i);
    }
    hide Ident, Updated, MapLines;
  }

  /** Line `k` is the newest of its id under either key, ties going to the later line. */
  ghost predicate Newest(entries: seq<Entry>, id: string, k: int) {
    && 0 <= k < |entries| && id != "" && Ident(EitherKey, entries[k].obj) == id
    && forall i | 0 <= i < |entries| && Ident(EitherKey, entries[i].obj) == id ::
         StringLess(Updated(entries[i].obj), Updated(entries[k].obj))
         || (Updated(entries[i].obj) == Updated(entries[k].obj) && i <= k)
  }

  /** The line is the newest one of its id again, under the new key alone. */
  ghost predicate Repeats(line: Object, newest: Object, id: string) {
    && "backlog_item_id" in line && line["backlog_item_id"] == Str(id) && "item_id" !in line
    && forall k | k != "backlog_item_id" && k != "item_id" :: (k in line <==> k in newest) && (k in line ==> line[k] == newest[k])
  }

  /** `lines` are the lines of the log, each in its place and renamed if it has an old key, and
      after them, for each of `ids`, its newest line again. */
  ghost predicate Written(entries: seq<Entry>, ids: seq<string>, lines: seq<Object>) {
    && |lines| == |entries| + |ids|
    && (forall i | 0 <= i < |entries| ::
          lines[i] == Renamed(entries[i].obj))
    && (forall m | 0 <= m < |ids| ::
          exists k :: Newest(entries, ids[m], k) && Repeats(lines[|entries| + m], entries[k].obj, ids[m]))
  }

  /** A successful run writes the whole log and after it, in ascending order, the newest line of
      each stale id. */
  lemma WritesExactly(entries: seq<Entry>, appendCurrent: bool)
    requires Accepted(entries) && Apply(entries, appendCurrent).Applied?
    ensures Written(entries, StaleIds(entries), Apply(entries, appendCurrent).lines)
    ensures Apply(entries, appendCurrent).appended == |StaleIds(entries)|
    ensures forall m, n | 0 <= m < n < |StaleIds(entries)| :: StringLess(StaleIds(entries)[m], StaleIds(entries)[n])
  {
    AppliedShape(entries, appendCurrent);
    ReconcileSucceedsExactly(entries);
    StaleIdsSize(entries);
    SortedStringsMembers(Stale(entries));
    hide Apply, MapLines, Stale, Baseline, SortedStrings, Winners, Written, Accepted;
    WrittenLines(entries, Apply(entries, appendCurrent).lines);
  }

  lemma WrittenLines(entries: seq<Entry>, lines: seq<Object>)
    requires Accepted(entries) && forall id | id in StaleIds(entries) :: id in Baseline(entries)
    requires lines == Mapped(entries) + Winners(Baseline(entries), StaleIds(entries))
    ensures Written(entries, StaleIds(entries), lines)
  {
    hide MapLines, Stale, Renamed, Baseline, SortedStrings, Winners, Repeats;
    var n, ids, winners := |entries|, StaleIds(entries), Winners(Baseline(entries), StaleIds(entries));
    HistoryIsRenamed(entries);
    WinnersRepeat(entries);
    hide StaleIds, Mapped;
    forall i | 0 <= i < n
      ensures lines[i] == Renamed(entries[i].obj)
    {
      assert lines[i] == Mapped(entries)[i];
    }
    forall m | 0 <= m < |ids| ensures exists k :: Newest(entries, ids[m], k) && Repeats(lines[n + m], entries[k].obj, ids[m]) {
      assert lines[n + m] == winners[m];
    }
  }

  lemma HistoryIsRenamed(entries: seq<Entry>)
    requires MapLines(entries).Some?
    ensures forall i | 0 <= i < |entries| ::
              Mapped(entries)[i] == Renamed(entries[i].obj)
  {
    LogRefusedExactly(entries);
    hide MapLines;
  }

  lemma WinnersRepeat(entries: seq<Entry>)
    requires Accepted(entries) && forall id | id in StaleIds(entries) :: id in Baseline(entries)
    ensures var ids, winners := StaleIds(entries), Winners(Baseline(entries), StaleIds(entries));
      |winners| == |ids|
      && forall m | 0 <= m < |ids| :: exists k :: Newest(entries, ids[m], k) && Repeats(winners[m], entries[k].obj, ids[m])
  {
    var ids, baseline := StaleIds(entries), Baseline(entries);
    hide MapLines, Stale, Baseline, SortedStrings, Newest, Repeats, Winner, StaleIds, Accepted;
    forall m | 0 <= m < |ids|
      ensures exists k :: Newest(entries, ids[m], k) && Repeats(Winner(baseline[ids[m]].obj, ids[m]), entries[k].obj, ids[m])
    {
      assert ids[m] in ids;
      NewestIsBaseline(entries, ids[m]);
    }
  }

  lemma NewestIsBaseline(entries: seq<Entry>, id: string)
    requires Accepted(entries) && id in Baseline(entries)
    ensures exists k :: Newest(entries, id, k) && entries[k] == Baseline(entries)[id] && Repeats(Winner(Baseline(entries)[id].obj, id), entries[k].obj, id)
  {
    var k := NewestRevisionWins(entries, id);
    assert Newest(entries, id, k);
    hide Ident, Updated, MapLines, Newest;
    WinnerRepeats(entries[k].obj, id);
  }

  lemma WinnerRepeats(newest: Object, id: string)
    ensures Repeats(Winner(newest, id), newest, id)
  {
    KeysDiffer();
  }

  /** Read back by its head reader, the written log shows exactly the ids of the log, each with
      a last line that carries the values of its newest one. */
  lemma WrittenShowsNewest(entries: seq<Entry>, appendCurrent: bool, id: string, k: int) returns (j: int)
    requires Accepted(entries) && Apply(entries, appendCurrent).Applied? && Newest(entries, id, k)
    ensures var lines := Apply(entries, appendCurrent).lines;
      && 0 <= j < |lines| && Ident(HeadReader, lines[j]) == id
      && (forall i | j < i < |lines| :: Ident(HeadReader, lines[i]) != id)
      && SameContent(lines[j], entries[k].obj)
  {
    var lines := Apply(entries, appendCurrent).lines;
    var k' := NewestRevisionWins(entries, id);
    WrittenStates(entries, appendCurrent, id);
    j := LastLineWins(Reread(lines), HeadReader, id);
    hide Apply, Ident, Updated, Fingerprint, SameContent, MapLines, EffectiveState;
    assert k' >= 0;
    StringLessTrichotomy(Updated(entries[k].obj), Updated(entries[k'].obj));
    assert k' == k;
    FingerprintsAgreeExactly(lines[j], entries[k].obj);
    forall i | j < i < |lines| ensures Ident(HeadReader, lines[i]) != id { assert Reread(lines)[i].obj == lines[i]; }
  }

  // ---- the text of a difference ----

  /** Over the same ids, each difference names an id whose revisions differ, in ascending order,
      with the line of the left state and then that of the right. */
  lemma DifferencesExactly(left: map<string, Entry>, right: map<string, Entry>, i: nat)
    requires left.Keys == right.Keys && i < |DiffStates(left, right)|
    ensures DiffStates(left, right)[i].RevisionChanged?
    ensures var d := DiffStates(left, right)[i];
      && d.ident in left && d.ident in right && d.leftLine == left[d.ident].lineno && d.rightLine == right[d.ident].lineno
      && !SameContent(left[d.ident].obj, right[d.ident].obj)
      && (i > 0 ==> DiffStates(left, right)[i - 1].RevisionChanged?
                    && StringLess(DiffStates(left, right)[i - 1].ident, d.ident))
  {
    OnlyRevisionsDiffer(left, right);
    var ids := SortedStrings(ChangedIds(left, right));
    SortedStringsMembers(ChangedIds(left, right));
    var id := ids[i];
    assert id in ids && (i > 0 ==> ids[i - 1] in ids);
    FingerprintsAgreeExactly(left[id].obj, right[id].obj);
    hide DiffStates, SortedStrings, Fingerprint, SameContent;
  }

  /** What a decimal text stands for. */
  function DecimalValue(s: string): int {
    if s == "" then 0 else 10 * DecimalValue(s[..|s| - 1]) + (s[|s| - 1] as int - '0' as int)
  }

  /** A rendered number reads back. */
  lemma {:induction false} DecimalReadsBack(n: nat)
    ensures forall c | c in Decimal(n) :: '0' <= c <= '9'
    ensures DecimalValue(Decimal(n)) == n && Decimal(n) != ""
  {
    DigitReadsBack(n % 10);
    var digit := "0123456789"[n % 10];
    var rest := if n < 10 then "" else Decimal(n / 10);
    assert Decimal(n) == rest + [digit];
    if n >= 10 { DecimalReadsBack(n / 10); }
    hide Decimal;
    assert (rest + [digit])[..|rest|] == rest;
  }

  lemma DigitReadsBack(d: nat)
    requires d < 10
    ensures var digit := "0123456789"[d]; '0' <= digit <= '9' && digit as int - '0' as int == d
  {
  }
}
