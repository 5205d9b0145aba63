/** The remapper as it runs: loops that fill dictionaries and append to lists, each proved
    against the functions of module Backlog. */
module BacklogTool {
  import opened Options
  import opened Ordering
  import opened JsonValues
  import opened Backlog
  import opened BacklogLines
  import opened BacklogTheorems
  import opened BacklogMeaning

  method ReadState(entries: seq<Entry>, reader: Reader) returns (state: map<string, Entry>)
    ensures state == EffectiveState(entries, reader)
  {
    state := map[];
    for i := 0 to |entries|
      invariant state == EffectiveState(entries[..i], reader)
    {
      assert entries[..i + 1][..i] == entries[..i];
      EffectiveStep(entries[..i + 1], reader);
      var ident := Ident(reader, entries[i].obj);
      if ident == "" { continue; }
      state := state[ident := entries[i]];
    }
    assert entries[..|entries|] == entries;
  }

  method ReadIntent(entries: seq<Entry>) returns (best: map<string, Entry>)
    ensures best == IntentState(entries)
  {
    best := map[];
    for i := 0 to |entries|
      invariant best == IntentState(entries[..i])
    {
      assert entries[..i + 1][..i] == entries[..i];
      IntentStep(entries[..i + 1]);
      hide IntentState, Ident, AtLeast;
      var ident := Ident(EitherKey, entries[i].obj);
      if ident == "" { continue; }
      if ident !in best || AtLeast(entries[i], best[ident]) {
        best := best[ident := entries[i]];
      }
    }
    assert entries[..|entries|] == entries;
  }

  method SortedList(s: set<string>) returns (list: seq<string>)
    ensures list == SortedStrings(s)
  {
    list := [];
    var rest := s;
    while rest != {}
      invariant rest <= s && Distinct(list)
      invariant forall x :: x in list <==> x in s - rest
      decreases rest
    {
      var x :| x in rest;
      assert x !in list;
      list := list + [x];
      rest := rest - {x};
    }
    StringOrderOn(s);
    assert Elements(list) == s;
    SortSorts(StringLess, list);
    SortedStringsMembers(s);
    assert Elements(SortedStrings(s)) == s;
    list := Sort(StringLess, list);
    SortedIsUnique(StringLess, list, SortedStrings(s));
  }

  function Changed(left: map<string, Entry>, right: map<string, Entry>): string -> bool {
    (id: string) => id in ChangedIds(left, right)
  }

  lemma {:induction false} FilterSnoc<T>(keep: T -> bool, s: seq<T>, x: T)
    ensures Filter(keep, s + [x]) == Filter(keep, s) + (if keep(x) then [x] else [])
  {
    if s != [] {
      FilterSnoc(keep, s[1..], x);
      assert (s + [x])[1..] == s[1..] + [x];
    }
  }

  /** The loop over the common ids, in order. */
  method ChangedRevisions(left: map<string, Entry>, right: map<string, Entry>, common: seq<string>) returns (out: seq<Difference>)
    requires forall id | id in common :: id in left && id in right
    ensures forall id | id in Filter(Changed(left, right), common) :: id in left && id in right
    ensures out == Changes(left, right, Filter(Changed(left, right), common))
  {
    out := [];
    ghost var test := Changed(left, right);
    for i := 0 to |common|
      invariant forall id | id in Filter(test, common[..i]) :: id in left && id in right
      invariant out == Changes(left, right, Filter(test, common[..i]))
    {
      var ident := common[i];
      assert ident in common && common[..i + 1] == common[..i] + [ident];
      FilterSnoc(test, common[..i], ident);
      hide Filter, Changes;
      if Fingerprint(left[ident].obj) != Fingerprint(right[ident].obj) {
        assert test(ident);
        ChangesExtend(left, right, Filter(test, common[..i]), ident);
        out := out + [RevisionChanged(ident, left[ident].lineno, right[ident].lineno)];
      }
    }
    assert common[..|common|] == common;
  }

  method Diff(left: map<string, Entry>, right: map<string, Entry>) returns (out: seq<Difference>)
    ensures out == DiffStates(left, right)
  {
    out := [];
    var onlyLeft, onlyRight := left.Keys - right.Keys, right.Keys - left.Keys;
    if onlyLeft != {} { out := out + [OnlyIn(LEFT_LABEL, onlyLeft)]; }
    if onlyRight != {} { out := out + [OnlyIn(RIGHT_LABEL, onlyRight)]; }
    var common := SortedList(left.Keys * right.Keys);
    CommonInOrder(left, right);
    hide SortedStrings, Filter, Changes, ChangedIds;
    var changed := ChangedRevisions(left, right, common);
    out := out + changed;
  }

  lemma CommonInOrder(left: map<string, Entry>, right: map<string, Entry>)
    ensures var common := SortedStrings(left.Keys * right.Keys);
            && (forall id | id in common :: id in left && id in right)
            && Filter(Changed(left, right), common) == SortedStrings(ChangedIds(left, right))
  {
    var common := SortedStrings(left.Keys * right.Keys);
    SortedStringsMembers(left.Keys * right.Keys);
    FilterMembers(Changed(left, right), common);
    FilterSorted(StringLess, Changed(left, right), common);
    ChangedInOrder(left, right, Filter(Changed(left, right), common));
  }

  lemma ChangesExtend(left: map<string, Entry>, right: map<string, Entry>, ids: seq<string>, id: string)
    requires forall x | x in ids + [id] :: x in left && x in right
    ensures forall x | x in ids :: x in left && x in right
    ensures id in left && id in right
    ensures Changes(left, right, ids + [id])
         == Changes(left, right, ids) + [RevisionChanged(id, left[id].lineno, right[id].lineno)]
  {
    forall x | x in ids ensures x in ids + [id] { }
    assert id in ids + [id];
  }

  lemma ChangedInOrder(left: map<string, Entry>, right: map<string, Entry>, ids: seq<string>)
    requires Sorted(StringLess, ids) && forall id :: id in ids <==> id in ChangedIds(left, right)
    ensures ids == SortedStrings(ChangedIds(left, right))
  {
    var changed := ChangedIds(left, right);
    StringOrderOn(changed);
    SortedStringsMembers(changed);
    assert Elements(ids) == changed == Elements(SortedStrings(changed));
    SortedIsUnique(StringLess, ids, SortedStrings(changed));
  }

  /** The lines that have an old key to rename, among the first `n`. */
  ghost function OldKeyLines(entries: seq<Entry>, n: nat): set<int>
    requires n <= |entries|
  {
    set i | 0 <= i < n && HasOldKey(entries[i].obj)
  }

  lemma OneMoreLine(entries: seq<Entry>, n: nat)
    requires n < |entries|
    ensures |OldKeyLines(entries, n + 1)| == |OldKeyLines(entries, n)| + (if HasOldKey(entries[n].obj) then 1 else 0)
  {
    assert OldKeyLines(entries, n + 1) == OldKeyLines(entries, n) + (if HasOldKey(entries[n].obj) then {n} else {});
    hide HasOldKey;
  }

  /** The renaming loop, with the number of converted lines the report shows. */
  method RemapAll(entries: seq<Entry>) returns (mapped: seq<Object>, converted: nat, ok: bool)
    ensures ok <==> MapLines(entries).Some?
    ensures ok <==> forall i | 0 <= i < |entries| :: !Disagrees(entries[i].obj)
    ensures ok ==> mapped == MapLines(entries).value && |mapped| == |entries|
    ensures ok ==> forall i | 0 <= i < |entries| :: mapped[i] == Renamed(entries[i].obj)
    ensures ok ==> converted == |OldKeyLines(entries, |entries|)|
  {
    LogRefusedExactly(entries);
    hide RemapLine, HasOldKey, Disagrees, Renamed;
    mapped, converted, ok := [], 0, true;
    assert MapLines(entries[..0]) == Some([]) && OldKeyLines(entries, 0) == {};
    hide MapLines, OldKeyLines;
    for i := 0 to |entries|
      invariant MapLines(entries[..i]) == Some(mapped)
      invariant converted == |OldKeyLines(entries, i)| && ok
    {
      assert entries[..i + 1][..i] == entries[..i];
      LineExactly(entries[i].obj);
      MapLinesStep(entries[..i + 1]);
      OneMoreLine(entries, i);
      var line := RemapLine(entries[i].obj);
      if line.Disagree? {
        RefusedPrefix(entries, i + 1);
        return [], 0, false;
      }
      mapped := mapped + [line.obj];
      if line.state == Converted {
        converted := converted + 1;
      }
    }
    assert entries[..|entries|] == entries;
  }

  lemma MapLinesStep(entries: seq<Entry>)
    requires entries != []
    ensures var rest, last := MapLines(entries[..|entries| - 1]), RemapLine(entries[|entries| - 1].obj);
            MapLines(entries) == if rest.None? || last.Disagree? then None else Some(rest.value + [last.obj])
  {
    hide RemapLine;
  }

  lemma {:induction false} RefusedPrefix(entries: seq<Entry>, n: nat)
    requires n <= |entries| && MapLines(entries[..n]).None?
    ensures MapLines(entries).None?
    decreases |entries|
  {
    if n < |entries| {
      assert entries[..|entries| - 1][..n] == entries[..n];
      RefusedPrefix(entries[..|entries| - 1], n);
    } else {
      assert entries[..n] == entries;
    }
  }

  /** The append loop of `append-current`. */
  method AppendCurrent(baseline: map<string, Entry>, changed: seq<Difference>, mapped: seq<Object>, after: seq<Entry>)
    returns (r: Reconciled)
    ensures r == Append(baseline, RenderAll(changed), mapped, after)
  {
    var mapped', after' := mapped, after;
    for i := 0 to |changed|
      invariant Append(baseline, RenderAll(changed), mapped, after) == Append(baseline, RenderAll(changed[i..]), mapped', after')
    {
      assert changed[i..][0] == changed[i] && changed[i..][1..] == changed[i + 1..];
      RenderAllStep(changed[i..]);
      var entry := Render(changed[i]);
      if !StartsWith(entry, CHANGED_PREFIX) { return Refuse(CannotReconcile); }
      var ident := ParsedIdent(entry);
      if ident.None? || ident.value !in baseline { return Refuse(UnknownId); }
      var winner := Winner(baseline[ident.value].obj, ident.value);
      mapped' := mapped' + [winner];
      after' := after' + [Entry(|mapped'|, winner)];
    }
    return Extended(mapped', after');
  }

  /** `main` with `--apply`. */
  method ApplyTool(entries: seq<Entry>, appendCurrent: bool) returns (o: Outcome)
    ensures o == Apply(entries, appendCurrent)
  {
    MapLinesLength(entries);
    var mapped, converted, ok := RemapAll(entries);
    if !ok { return Refused(DisagreeingIds); }
    var after := Zip(entries, mapped);
    var baseline := ReadIntent(entries);
    var state := ReadState(after, HeadReader);
    var changed := Diff(baseline, state);
    if changed != [] && appendCurrent {
      var r := AppendCurrent(baseline, changed, mapped, after);
      if r.Refuse? { return Refused(r.reason); }
      state := ReadState(r.after, HeadReader);
      var still := Diff(baseline, state);
      if still != [] { return Refused(StillRegresses); }
      return Applied(r.mapped, |changed|);
    }
    if changed != [] { return Refused(WouldRegress); }
    return Applied(mapped, 0);
  }
}
