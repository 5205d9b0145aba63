/** The receipt remapper in terms of the keys and values of the payloads it is given. */
module ReceiptMeaning {
  import opened IdKeys
  import opened Options
  import opened Text
  import opened JsonValues
  import opened ReceiptRemap
  import opened ReceiptStore

  /** The value under a key of a decoded object, if the key is there. */
  predicate Holds(p: Payload, key: string, v: Value) { p.Encoded? && Pair(key, v) in p.o }

  predicate Lacks(p: Payload, key: string) {
    p.Encoded? && forall k :: 0 <= k < |p.o| ==> p.o[k].key != key
  }

  /** How a value reads once shown and trimmed. */
  function Shown(v: Value): string {
    match v
    case Null => Strip("None")
    case Str(s) => Strip(s)
    case Other(_, rendered, _) => Strip(rendered)
  }

  ghost predicate Disagrees(p: Payload) {
    exists c, l :: Holds(p, "backlog_item_id", c) && Holds(p, "item_id", l) && Shown(c) != Shown(l)
  }

  ghost predicate HasBoth(p: Payload) {
    p.Encoded? && !Lacks(p, "backlog_item_id") && !Lacks(p, "item_id")
  }

  ghost predicate LegacyOnly(p: Payload) {
    Lacks(p, "backlog_item_id") && !Lacks(p, "item_id")
  }

  /** The legacy value is there and shows as white space at most. */
  ghost predicate BlankOld(p: Payload) {
    exists l :: Holds(p, "item_id", l) && Shown(l) == ""
  }

  lemma LookupMeans(p: Payload, key: string)
    requires p.Encoded?
    ensures Lookup(p.o, key).None? <==> Lacks(p, key)
    ensures Lookup(p.o, key).Some? ==> Holds(p, key, Lookup(p.o, key).value)
    ensures forall v :: Holds(p, key, v) ==> Lookup(p.o, key) == Some(v)
  {
    forall v | Holds(p, key, v) ensures Lookup(p.o, key) == Some(v) {
      LookupIn(p.o, Pair(key, v));
    }
    hide Lookup;
  }

  /** A payload is refused if and only if it is not JSON, not an object, or holds the two keys
      with different texts. */
  lemma RefusesExactly(p: Payload)
    ensures RemapPayload(p) == Refused(IsNotJson) <==> p == NotJson
    ensures RemapPayload(p) == Refused(IsNotObject) <==> p == NotObject
    ensures RemapPayload(p) == Refused(DisagreeingIds) <==> Disagrees(p)
  {
    if p.Encoded? {
      LookupMeans(p, CANON);
      LookupMeans(p, LEGACY);
      hide Lookup, Holds, Lacks, Strip, Drop, Rename;
    }
  }

  /** What the census counts an accepted payload under. A payload is converted if and only if it
      holds the old key, beside the new one or alone with a text that is not blank. */
  lemma StatesExactly(p: Payload)
    requires RemapPayload(p).Remapped?
    ensures var state := RemapPayload(p).state;
      && (state == EmptyPayload <==> !p.Encoded?)
      && (state == ConvertedRow <==> HasBoth(p) || (LegacyOnly(p) && !BlankOld(p)))
      && (state == AlreadyCanonical <==> p.Encoded? && !Lacks(p, "backlog_item_id") && Lacks(p, "item_id"))
      && (state == EmptyLegacyValue <==> LegacyOnly(p) && BlankOld(p))
      && (state == NoIdKey <==> Lacks(p, "backlog_item_id") && Lacks(p, "item_id"))
  {
    if p.Encoded? {
      LookupMeans(p, CANON);
      LookupMeans(p, LEGACY);
      hide Lookup, Holds, Lacks, Strip, Drop, Rename;
    }
  }

  /** What a reader of one key sees: nothing of an empty payload, an error where there is no JSON
      object, no id where the key is missing or its value counts as empty, and else the value. */
  lemma ReadsExactly(p: Payload, key: string, v: Value)
    ensures p == NoValue || p == EmptyText || p == EmptyBraces ==> Decode(p, key) == Id("")
    ensures p == WhiteSpace || p == PaddedBraces || p == NotJson ==> Decode(p, key) == Unparseable
    ensures p == NotObject ==> Decode(p, key) == NonObject
    ensures Lacks(p, key) ==> Decode(p, key) == Id("")
    ensures Holds(p, key, v) ==>
              Decode(p, key) == Id(match v
                                   case Null => ""
                                   case Str(s) => s
                                   case Other(_, rendered, truthy) => if truthy then rendered else "")
    ensures DecodeHead(p) == Decode(p, "backlog_item_id") && DecodeDeployed(p) == Decode(p, "item_id")
  {
    if p.Encoded? {
      LookupMeans(p, key);
      hide Lookup, Lacks;
    }
  }

  // ---- what a scan counts ----

  /** The first `n` rows on which a test holds. */
  ghost function Where(rows: seq<Row>, n: nat, holds: Payload -> bool): set<int>
    requires n <= |rows|
  {
    set k | 0 <= k < n && holds(rows[k].payload)
  }

  lemma WhereNext(rows: seq<Row>, n: nat, holds: Payload -> bool)
    requires n < |rows|
    ensures |Where(rows, n + 1, holds)| == |Where(rows, n, holds)| + (if holds(rows[n].payload) then 1 else 0)
  {
    assert Where(rows, n + 1, holds) == Where(rows, n, holds) + (if holds(rows[n].payload) then {n} else {});
  }

  function InState(state: RowState): Payload -> bool {
    (p: Payload) => RemapPayload(p).Remapped? && RemapPayload(p).state == state
  }

  function InBucket(bucket: Bucket): Payload -> bool { (p: Payload) => BucketOf(p) == bucket }

  /** The census counts each state as often as rows are in it. */
  lemma {:induction false} CountsStates(rows: seq<Row>, n: nat, state: RowState)
    requires n <= |rows|
    ensures CountState(rows, n, state) == |Where(rows, n, InState(state))|
  {
    hide RemapPayload;
    if n > 0 {
      CountsStates(rows, n - 1, state);
      WhereNext(rows, n - 1, InState(state));
      hide Where;
    }
  }

  /** The reader-resolution bucket of a payload says which of the two readers sees an id. */
  lemma BucketsExactly(p: Payload)
    ensures var head, deployed := DecodeHead(p) != Id(""), DecodeDeployed(p) != Id("");
      && (BucketOf(p) == BothNonempty <==> head && deployed) && (BucketOf(p) == HeadOnly <==> head && !deployed)
      && (BucketOf(p) == DeployedOnly <==> !head && deployed) && (BucketOf(p) == NeitherReader <==> !head && !deployed)
  {
    hide Decode;
  }

  /** ... and each bucket. */
  lemma {:induction false} CountsBuckets(rows: seq<Row>, n: nat, bucket: Bucket)
    requires n <= |rows|
    ensures CountBucket(rows, n, bucket) == |Where(rows, n, InBucket(bucket))|
  {
    hide BucketOf;
    if n > 0 {
      CountsBuckets(rows, n - 1, bucket);
      WhereNext(rows, n - 1, InBucket(bucket));
      hide Where;
    }
  }

  /** The id sets of a report: what the deployed reader alone sees, and what the head reader sees,
      errors included. */
  lemma IdsExactly(rows: seq<Row>, n: nat, id: string)
    requires n <= |rows|
    ensures id in DeployedOnlyIds(rows, n) <==>
              exists k :: 0 <= k < n && DecodeHead(rows[k].payload) == Id("") && DecodeDeployed(rows[k].payload) != Id("")
                          && SeenText(DecodeDeployed(rows[k].payload)) == id
    ensures id in HeadIds(rows, n) <==>
              exists k :: 0 <= k < n && DecodeHead(rows[k].payload) != Id("") && SeenText(DecodeHead(rows[k].payload)) == id
  {
    forall k | 0 <= k < n { BucketsExactly(rows[k].payload); }
    hide BucketOf, Decode;
  }
}
