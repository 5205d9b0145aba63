/** The backlog remapper: renaming a key in an append-only log that is read as
    "the last line of an id wins", and reconciling it with the newest revision of each id. */
module Backlog {
  import opened IdKeys
  import opened Options
  import opened Ordering
  import opened Text
  import opened JsonValues

  const UPDATED_AT := "updated_at"

  type Object = map<string, Value>

  datatype Entry = Entry(lineno: nat, obj: Object)

  // ---- single lines ----

  /** The script's `text`: the empty string for a missing or null value. */
  function TextOf(v: Option<Value>): string {
    if v.None? || v.value.Null? then "" else Strip(Rendered(v.value))
  }

  function Get(obj: Object, key: string): Option<Value> {
    if key in obj then Some(obj[key]) else None
  }

  function Fingerprint(obj: Object): map<string, Dumped> {
    map k | k in obj && k != CANON && k != LEGACY :: Dump(obj[k])
  }

  datatype LineState = Converted | AlreadyCanonical | EmptyCanonical | EmptyLegacy | NoIdKey

  datatype Remapped = Disagree | Line(obj: Object, state: LineState)

  function RemapLine(obj: Object): Remapped {
    if CANON in obj && LEGACY in obj then
      if TextOf(Get(obj, CANON)) != TextOf(Get(obj, LEGACY)) then Disagree
      else Line(obj - {LEGACY}, Converted)
    else if CANON in obj then
      Line(obj, if TextOf(Get(obj, CANON)) != "" then AlreadyCanonical else EmptyCanonical)
    else if LEGACY in obj then
      if TextOf(Get(obj, LEGACY)) == "" then Line(obj, EmptyLegacy)
      else Line((obj - {LEGACY})[CANON := obj[LEGACY]], Converted)
    else Line(obj, NoIdKey)
  }

  datatype Reader = HeadReader | DeployedReader | EitherKey

  /** The id a reader sees on a line; empty when it skips the line. */
  function Ident(reader: Reader, obj: Object): string {
    var canon, legacy := TextOf(Get(obj, CANON)), TextOf(Get(obj, LEGACY));
    match reader
    case HeadReader => canon
    case DeployedReader => legacy
    case EitherKey => if canon != "" then canon else legacy
  }

  function Updated(obj: Object): string { TextOf(Get(obj, UPDATED_AT)) }

  // ---- whole logs ----

  /** Reading order: line numbers increase, blank lines being skipped. */
  predicate Increasing(entries: seq<Entry>) {
    forall i, j | 0 <= i < j < |entries| :: entries[i].lineno < entries[j].lineno
  }

  /** Per id, the last line that carries it. */
  function EffectiveState(entries: seq<Entry>, reader: Reader): map<string, Entry> {
    if entries == [] then map[]
    else
      var state, last := EffectiveState(entries[..|entries| - 1], reader), entries[|entries| - 1];
      var ident := Ident(reader, last.obj);
      if ident == "" then state else state[ident := last]
  }

  /** `rank >= best` on pairs of revision text and line number. */
  predicate AtLeast(a: Entry, b: Entry) {
    StringLess(Updated(b.obj), Updated(a.obj)) || (Updated(a.obj) == Updated(b.obj) && a.lineno >= b.lineno)
  }

  /** Per id under either key, the newest revision, ties to the later line. */
  function IntentState(entries: seq<Entry>): map<string, Entry> {
    if entries == [] then map[]
    else
      var best, last := IntentState(entries[..|entries| - 1]), entries[|entries| - 1];
      var ident := Ident(EitherKey, last.obj);
      if ident == "" || (ident in best && !AtLeast(last, best[ident])) then best else best[ident := last]
  }

  // ---- the difference of two states, and its text ----

  datatype Difference = OnlyIn(side: string, ids: set<string>) | RevisionChanged(ident: string, leftLine: nat, rightLine: nat)

  function Decimal(n: nat): string {
    (if n < 10 then "" else Decimal(n / 10)) + ["0123456789"[n % 10]]
  }

  const CHANGED_PREFIX := "revision_changed:"
  const ONLY_IN_PREFIX := "ids_only_in_"
  const LEFT_LABEL := "intent_baseline"
  const RIGHT_LABEL := "after_remap"

  function Render(d: Difference): string {
    match d
    case OnlyIn(side, ids) => ONLY_IN_PREFIX + side + "(" + Decimal(|ids|) + ")"
    case RevisionChanged(ident, leftLine, rightLine) =>
      CHANGED_PREFIX + ident + "(" + LEFT_LABEL + "_line=" + Decimal(leftLine) + " " + RIGHT_LABEL + "_line=" + Decimal(rightLine) + ")"
  }

  predicate StartsWith(s: string, prefix: string) { prefix <= s }

  /** `s.split(c, 1)[0]` */
  function HeadOfSplit(s: string, c: char): string {
    if s == "" || s[0] == c then "" else [s[0]] + HeadOfSplit(s[1..], c)
  }

  /** `s.split(c, 1)[1]`, where the separator occurs. */
  function TailOfSplit(s: string, c: char): Option<string> {
    if s == "" then None else if s[0] == c then Some(s[1..]) else TailOfSplit(s[1..], c)
  }

  /** The id the reconcile step reads back from a rendered difference. */
  function ParsedIdent(rendered: string): Option<string> {
    TailOfSplit(HeadOfSplit(rendered, '('), ':')
  }

  /** The ids whose left and right revisions differ. */
  function ChangedIds(left: map<string, Entry>, right: map<string, Entry>): set<string> {
    set id | id in left && id in right && Fingerprint(left[id].obj) != Fingerprint(right[id].obj)
  }

  function Changes(left: map<string, Entry>, right: map<string, Entry>, ids: seq<string>): seq<Difference>
    requires forall id | id in ids :: id in left && id in right
  {
    seq(|ids|, i requires 0 <= i < |ids| => RevisionChanged(ids[i], left[ids[i]].lineno, right[ids[i]].lineno))
  }

  ghost function DiffStates(left: map<string, Entry>, right: map<string, Entry>): seq<Difference> {
    var onlyLeft, onlyRight := left.Keys - right.Keys, right.Keys - left.Keys;
    var ids := ChangedIds(left, right);
    SortedStringsMembers(ids);
    (if onlyLeft != {} then [OnlyIn(LEFT_LABEL, onlyLeft)] else [])
    + (if onlyRight != {} then [OnlyIn(RIGHT_LABEL, onlyRight)] else [])
    + Changes(left, right, SortedStrings(ids))
  }

  // ---- the tool ----

  function MapLines(entries: seq<Entry>): Option<seq<Object>> {
    if entries == [] then Some([])
    else
      var rest, last := MapLines(entries[..|entries| - 1]), RemapLine(entries[|entries| - 1].obj);
      if rest.None? || last.Disagree? then None else Some(rest.value + [last.obj])
  }

  function Zip(entries: seq<Entry>, mapped: seq<Object>): seq<Entry>
    requires |mapped| == |entries|
  {
    seq(|mapped|, i requires 0 <= i < |mapped| => Entry(entries[i].lineno, mapped[i]))
  }

  function Winner(newest: Object, ident: string): Object {
    (newest - {LEGACY})[CANON := Str(ident)]
  }

  datatype Refusal = DisagreeingIds | CannotReconcile | UnknownId | StillRegresses | WouldRegress

  datatype Reconciled = Refuse(reason: Refusal) | Extended(mapped: seq<Object>, after: seq<Entry>)

  /** The append loop of `append-current`, over the rendered differences. */
  function Append(baseline: map<string, Entry>, changed: seq<string>, mapped: seq<Object>, after: seq<Entry>): Reconciled
    decreases |changed|
  {
    if changed == [] then Extended(mapped, after)
    else if !StartsWith(changed[0], CHANGED_PREFIX) then Refuse(CannotReconcile)
    else
      var ident := ParsedIdent(changed[0]);
      if ident.None? || ident.value !in baseline then Refuse(UnknownId)
      else
        var winner := Winner(baseline[ident.value].obj, ident.value);
        var mapped' := mapped + [winner];
        Append(baseline, changed[1..], mapped', after + [Entry(|mapped'|, winner)])
  }

  function RenderAll(ds: seq<Difference>): seq<string> {
    seq(|ds|, i requires 0 <= i < |ds| => Render(ds[i]))
  }

  datatype Outcome = Refused(reason: Refusal) | Applied(lines: seq<Object>, appended: nat)

  ghost function ApplyMapped(entries: seq<Entry>, mapped: seq<Object>, appendCurrent: bool): Outcome
    requires |mapped| == |entries|
  {
    var baseline := IntentState(entries);
    var after := Zip(entries, mapped);
    var changed := DiffStates(baseline, EffectiveState(after, HeadReader));
    if changed == [] then Applied(mapped, 0)
    else if !appendCurrent then Refused(WouldRegress)
    else
      match Append(baseline, RenderAll(changed), mapped, after)
      case Refuse(reason) => Refused(reason)
      case Extended(mapped', after') =>
        if DiffStates(baseline, EffectiveState(after', HeadReader)) != [] then Refused(StillRegresses)
        else Applied(mapped', |changed|)
  }

  /** `--apply`, strict or with `--reconcile append-current`. */
  ghost function Apply(entries: seq<Entry>, appendCurrent: bool): Outcome {
    match MapLines(entries)
    case None => Refused(DisagreeingIds)
    case Some(mapped) => MapLinesLength(entries); ApplyMapped(entries, mapped, appendCurrent)
  }

  lemma {:induction false} MapLinesLength(entries: seq<Entry>)
    ensures MapLines(entries).Some? ==> |MapLines(entries).value| == |entries|
  {
    if entries != [] { MapLinesLength(entries[..|entries| - 1]); }
  }

  /** The log the tool writes, as it is read again: one object a line, no blank lines. */
  function Reread(lines: seq<Object>): seq<Entry> {
    seq(|lines|, i requires 0 <= i < |lines| => Entry(i + 1, lines[i]))
  }
}
