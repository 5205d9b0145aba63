/** What renaming does to one line, what the two states of a log say about its lines, and
    what is read back from a rendered difference. */
module BacklogLines {
  import opened IdKeys
  import opened Options
  import opened Ordering
  import opened Text
  import opened JsonValues
  import opened Backlog

  // ---- single lines ----

  lemma StripTwice(s: string)
    ensures Strip(Strip(s)) == Strip(s)
    ensures forall c | c in Strip(s) :: c in s
  {
    TrimIdempotent(IsPythonSpace, s);
  }

  lemma IdentIsStripped(reader: Reader, obj: Object)
    ensures Strip(Ident(reader, obj)) == Ident(reader, obj)
  {
    if CANON in obj { StripTwice(Rendered(obj[CANON])); }
    if LEGACY in obj { StripTwice(Rendered(obj[LEGACY])); }
    assert Strip("") == "";
  }

  /** A line in the new form, which a second run leaves alone. */
  predicate Canonical(obj: Object) {
    RemapLine(obj).Line? && RemapLine(obj).obj == obj && RemapLine(obj).state != Converted
  }

  /** Renaming keeps the id a line carries, its revision and every other key, and the result
      needs no further renaming. */
  lemma RemapLineKeeps(obj: Object)
    requires RemapLine(obj).Line?
    ensures var out := RemapLine(obj).obj;
            && Canonical(out)
            && Ident(HeadReader, out) == Ident(EitherKey, obj) == Ident(EitherKey, out)
            && Fingerprint(out) == Fingerprint(obj) && Updated(out) == Updated(obj)
            && (forall k | k != CANON && k != LEGACY :: Get(out, k) == Get(obj, k))
  {
    var out := RemapLine(obj).obj;
    assert Fingerprint(out) == Fingerprint(obj);
    hide Fingerprint, Strip;
  }

  lemma WinnerKeeps(newest: Object, ident: string)
    requires Strip(ident) == ident != ""
    ensures var w := Winner(newest, ident);
            && Canonical(w) && Ident(HeadReader, w) == Ident(EitherKey, w) == ident
            && Fingerprint(w) == Fingerprint(newest) && Updated(w) == Updated(newest)
  {
    assert Fingerprint(Winner(newest, ident)) == Fingerprint(newest);
    hide Fingerprint, Strip;
  }

  lemma {:induction false} MapLinesPointwise(entries: seq<Entry>)
    requires MapLines(entries).Some?
    ensures |MapLines(entries).value| == |entries|
    ensures forall i | 0 <= i < |entries| :: RemapLine(entries[i].obj).Line? && MapLines(entries).value[i] == RemapLine(entries[i].obj).obj
  {
    hide RemapLine;
    if entries != [] { MapLinesPointwise(entries[..|entries| - 1]); }
  }

  lemma {:induction false} MapLinesOfCanonical(entries: seq<Entry>)
    requires forall i | 0 <= i < |entries| :: Canonical(entries[i].obj)
    ensures MapLines(entries).Some? && |MapLines(entries).value| == |entries|
    ensures forall i | 0 <= i < |entries| :: MapLines(entries).value[i] == entries[i].obj
  {
    if entries != [] { MapLinesOfCanonical(entries[..|entries| - 1]); }
  }

  // ---- the two states ----

  ghost predicate IsLast(entries: seq<Entry>, reader: Reader, id: string, k: int) {
    && 0 <= k < |entries| && id != "" && Ident(reader, entries[k].obj) == id
    && forall j | k < j < |entries| :: Ident(reader, entries[j].obj) != id
  }

  lemma EffectiveStep(entries: seq<Entry>, reader: Reader)
    requires entries != []
    ensures var state, last := EffectiveState(entries[..|entries| - 1], reader), entries[|entries| - 1];
            var ident := Ident(reader, last.obj);
            EffectiveState(entries, reader) == if ident == "" then state else state[ident := last]
  {
  }

  lemma LastStays(entries: seq<Entry>, reader: Reader, id: string, k: int)
    requires entries != [] && IsLast(entries[..|entries| - 1], reader, id, k)
    requires Ident(reader, entries[|entries| - 1].obj) != id
    ensures IsLast(entries, reader, id, k) && entries[..|entries| - 1][k] == entries[k]
  {
    hide Ident;
    assert forall j | k < j < |entries| - 1 :: entries[..|entries| - 1][j] == entries[j];
  }

  lemma NoneStays(entries: seq<Entry>, rest: seq<Entry>, reader: Reader, id: string)
    requires entries != [] && rest == entries[..|entries| - 1] && Ident(reader, entries[|entries| - 1].obj) != id
    requires forall i | 0 <= i < |rest| :: Ident(reader, rest[i].obj) != id
    ensures forall i | 0 <= i < |entries| :: Ident(reader, entries[i].obj) != id
  {
    hide Ident;
    forall i | 0 <= i < |entries| ensures Ident(reader, entries[i].obj) != id {
      if i < |rest| { assert rest[i] == entries[i]; }
    }
  }

  /** The state holds an id exactly when a line carries it, with the last such line. */
  lemma {:induction false} LastLineWins(entries: seq<Entry>, reader: Reader, id: string) returns (k: int)
    ensures var state := EffectiveState(entries, reader);
            && (id in state <==> k >= 0)
            && (k >= 0 ==> IsLast(entries, reader, id, k) && state[id] == entries[k])
            && (k < 0 && id != "" ==> forall i | 0 <= i < |entries| :: Ident(reader, entries[i].obj) != id)
  {
    if entries == [] { return -1; }
    EffectiveStep(entries, reader);
    var n := |entries| - 1;
    k := LastLineWins(entries[..n], reader, id);
    if id != "" && id == Ident(reader, entries[n].obj) {
      assert IsLast(entries, reader, id, n);
      k := n;
      hide Ident, EffectiveState, IsLast;
    } else if k >= 0 {
      LastStays(entries, reader, id, k);
      hide Ident, EffectiveState, IsLast;
    } else {
      if id != "" { NoneStays(entries, entries[..n], reader, id); }
      hide Ident, EffectiveState, IsLast;
    }
  }

  ghost predicate IsNewest(entries: seq<Entry>, id: string, k: int) {
    && 0 <= k < |entries| && id != "" && Ident(EitherKey, entries[k].obj) == id
    && forall j | 0 <= j < |entries| && Ident(EitherKey, entries[j].obj) == id ::
         StringLess(Updated(entries[j].obj), Updated(entries[k].obj))
         || (Updated(entries[j].obj) == Updated(entries[k].obj) && j <= k)
  }

  lemma NewerTakesOver(entries: seq<Entry>, id: string, k: int)
    requires entries != [] && IsNewest(entries[..|entries| - 1], id, k)
    requires var last := entries[|entries| - 1].obj;
             Ident(EitherKey, last) == id && (StringLess(Updated(entries[k].obj), Updated(last)) || Updated(entries[k].obj) == Updated(last))
    ensures IsNewest(entries, id, |entries| - 1)
  {
    var n := |entries| - 1;
    hide Ident, Updated, StringLess;
    forall j | 0 <= j < n && Ident(EitherKey, entries[j].obj) == id
      ensures StringLess(Updated(entries[j].obj), Updated(entries[n].obj)) || Updated(entries[j].obj) == Updated(entries[n].obj)
    {
      assert entries[..n][j] == entries[j];
      UpTo(Updated(entries[j].obj), Updated(entries[k].obj), Updated(entries[n].obj));
    }
  }

  lemma UpTo(a: string, b: string, c: string)
    requires (StringLess(a, b) || a == b) && (StringLess(b, c) || b == c)
    ensures StringLess(a, c) || a == c
  {
    if StringLess(a, b) && StringLess(b, c) { StringLessTransitive(a, b, c); }
  }

  lemma OlderStays(entries: seq<Entry>, id: string, k: int)
    requires entries != [] && IsNewest(entries[..|entries| - 1], id, k)
    requires var last := entries[|entries| - 1].obj;
             Ident(EitherKey, last) != id || StringLess(Updated(last), Updated(entries[k].obj))
    ensures IsNewest(entries, id, k)
  {
    hide Ident, Updated;
    assert forall j | 0 <= j < |entries| - 1 :: entries[..|entries| - 1][j] == entries[j];
  }

  lemma IntentStep(entries: seq<Entry>)
    requires entries != []
    ensures var best, last := IntentState(entries[..|entries| - 1]), entries[|entries| - 1];
            var ident := Ident(EitherKey, last.obj);
            IntentState(entries) ==
              if ident == "" || (ident in best && !AtLeast(last, best[ident])) then best else best[ident := last]
  {
  }

  /** What the intent state says of an id: absent (k < 0), or shown with its newest line. */
  ghost predicate ShowsNewest(entries: seq<Entry>, id: string, k: int) {
    var state := IntentState(entries);
    && (id in state <==> k >= 0)
    && (k >= 0 ==> IsNewest(entries, id, k) && state[id] == entries[k])
    && (k < 0 && id != "" ==> forall i | 0 <= i < |entries| :: Ident(EitherKey, entries[i].obj) != id)
  }

  lemma OtherLine(entries: seq<Entry>, id: string, k: int)
    requires entries != [] && ShowsNewest(entries[..|entries| - 1], id, k)
    requires id == "" || Ident(EitherKey, entries[|entries| - 1].obj) != id
    ensures ShowsNewest(entries, id, k)
  {
    IntentStep(entries);
    if k >= 0 {
      OlderStays(entries, id, k);
      assert entries[..|entries| - 1][k] == entries[k];
    } else if id != "" {
      NoneStays(entries, entries[..|entries| - 1], EitherKey, id);
    }
    hide IntentState, IsNewest, Ident, AtLeast;
  }

  lemma FirstLine(entries: seq<Entry>, id: string, k: int)
    requires entries != [] && ShowsNewest(entries[..|entries| - 1], id, k) && k < 0
    requires id != "" && Ident(EitherKey, entries[|entries| - 1].obj) == id
    ensures ShowsNewest(entries, id, |entries| - 1)
  {
    IntentStep(entries);
    assert forall i | 0 <= i < |entries| - 1 :: entries[..|entries| - 1][i] == entries[i];
    hide IntentState, Ident, Updated, AtLeast, StringLess;
    assert IsNewest(entries, id, |entries| - 1);
  }

  lemma AnotherRevision(entries: seq<Entry>, id: string, k: int)
    requires entries != [] && ShowsNewest(entries[..|entries| - 1], id, k) && k >= 0 && Increasing(entries)
    requires Ident(EitherKey, entries[|entries| - 1].obj) == id
    ensures ShowsNewest(entries, id, if AtLeast(entries[|entries| - 1], entries[k]) then |entries| - 1 else k)
  {
    var last := entries[|entries| - 1];
    IntentStep(entries);
    assert entries[..|entries| - 1][k] == entries[k] && entries[k].lineno < last.lineno;
    StringLessTrichotomy(Updated(last.obj), Updated(entries[k].obj));
    hide IntentState, Ident, Updated, StringLess, Increasing;
    if AtLeast(last, entries[k]) { NewerTakesOver(entries, id, k); } else { OlderStays(entries, id, k); }
    hide IsNewest;
  }

  /** The intent state holds an id exactly when a line carries it under either key, with the
      newest revision, ties going to the later line. */
  lemma {:induction false} NewestRevisionWins(entries: seq<Entry>, id: string) returns (k: int)
    requires Increasing(entries)
    ensures var state := IntentState(entries);
            && (id in state <==> k >= 0)
            && (k >= 0 ==> IsNewest(entries, id, k) && state[id] == entries[k])
            && (k < 0 && id != "" ==> forall i | 0 <= i < |entries| :: Ident(EitherKey, entries[i].obj) != id)
  {
    if entries == [] { return -1; }
    var n := |entries| - 1;
    k := NewestRevisionWins(entries[..n], id);
    assert ShowsNewest(entries[..n], id, k);
    assert k >= 0 ==> id != "" && k < n;
    hide IsNewest, Ident, IntentState, AtLeast, Increasing;
    if id == "" || Ident(EitherKey, entries[n].obj) != id {
      OtherLine(entries, id, k);
    } else if k < 0 {
      FirstLine(entries, id, k);
      k := n;
    } else {
      AnotherRevision(entries, id, k);
      k := if AtLeast(entries[n], entries[k]) then n else k;
    }
  }

  // ---- rendered differences ----

  lemma {:induction false} HeadOfSplitConcat(a: string, b: string, c: char)
    ensures HeadOfSplit(a + [c] + b, c) == HeadOfSplit(a, c)
    ensures c !in HeadOfSplit(a, c) && (c !in a <==> HeadOfSplit(a, c) == a)
    ensures forall d | d in HeadOfSplit(a, c) :: d in a
  {
    if a != "" {
      HeadOfSplitConcat(a[1..], b, c);
      assert (a + [c] + b)[1..] == a[1..] + [c] + b;
      assert a == [a[0]] + a[1..];
    } else {
      assert a + [c] + b == [c] + b;
    }
  }

  lemma {:induction false} HeadOfSplitPrefix(p: string, s: string, c: char)
    requires c !in p
    ensures HeadOfSplit(p + s, c) == p + HeadOfSplit(s, c)
  {
    if p != "" {
      assert (p + s)[1..] == p[1..] + s && p == [p[0]] + p[1..];
      HeadOfSplitPrefix(p[1..], s, c);
    } else {
      assert p + s == s;
    }
  }

  lemma {:induction false} TailOfSplitPrefix(p: string, s: string, c: char)
    requires c !in p
    ensures TailOfSplit(p + [c] + s, c) == Some(s)
  {
    if p != "" {
      assert (p + [c] + s)[1..] == p[1..] + [c] + s;
      TailOfSplitPrefix(p[1..], s, c);
    } else {
      assert p + [c] + s == [c] + s;
    }
  }

  lemma RenderedHead(d: Difference)
    requires d.RevisionChanged?
    ensures StartsWith(Render(d), CHANGED_PREFIX)
    ensures HeadOfSplit(Render(d), '(') == CHANGED_PREFIX + HeadOfSplit(d.ident, '(')
  {
    var tail := LEFT_LABEL + "_line=" + Decimal(d.leftLine) + " " + RIGHT_LABEL + "_line=" + Decimal(d.rightLine) + ")";
    var text := CHANGED_PREFIX + d.ident;
    hide HeadOfSplit, Decimal;
    assert Render(d) == text + "(" + tail;
    HeadOfSplitConcat(text, tail, '(');
    HeadOfSplitPrefix(CHANGED_PREFIX, d.ident, '(');
  }

  /** The id read back is the id written, cut at its first "(". */
  lemma ParsedIdentCuts(d: Difference)
    requires d.RevisionChanged?
    ensures StartsWith(Render(d), CHANGED_PREFIX)
    ensures ParsedIdent(Render(d)) == Some(HeadOfSplit(d.ident, '('))
    ensures ParsedIdent(Render(d)) == Some(d.ident) <==> '(' !in d.ident
    ensures '(' !in HeadOfSplit(d.ident, '(')
  {
    hide HeadOfSplit, TailOfSplit, Decimal, Render;
    RenderedHead(d);
    var word := "revision_changed";
    assert CHANGED_PREFIX == word + [':'] && word + [':'] + HeadOfSplit(d.ident, '(') == CHANGED_PREFIX + HeadOfSplit(d.ident, '(');
    TailOfSplitPrefix(word, HeadOfSplit(d.ident, '('), ':');
    HeadOfSplitConcat(d.ident, "", '(');
  }
}
