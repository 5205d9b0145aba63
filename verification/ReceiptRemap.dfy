/** The receipt payload remapper: one stored payload, two readers of it, and the rows of the
    receipt tables. */
module ReceiptRemap {
  import opened IdKeys
  import opened Options
  import opened Text
  import opened JsonValues

  datatype Pair = Pair(key: string, value: Value)

  /** A decoded JSON object in key order, each key once. */
  type Object = o: seq<Pair> | UniqueKeys(o) witness []

  predicate UniqueKeys(o: seq<Pair>) {
    forall j, k :: 0 <= j < k < |o| ==> o[j].key != o[k].key
  }

  /** A stored payload: no value; the empty text; only white space; the text `{}`, alone or
      with white space around it that JSON allows, or with other white space around it; text
      that is not JSON or not an object; or an object otherwise written. */
  datatype Payload =
    | NoValue | EmptyText | WhiteSpace | EmptyBraces | PaddedBraces | NotJson | NotObject
    | Encoded(o: Object)

  datatype RowState = EmptyPayload | ConvertedRow | AlreadyCanonical | EmptyLegacyValue | NoIdKey

  datatype Reason = IsNotJson | IsNotObject | DisagreeingIds

  datatype Remap = Refused(reason: Reason) | Remapped(payload: Payload, state: RowState)

  predicate HasKey(o: seq<Pair>, key: string) {
    exists k :: 0 <= k < |o| && o[k].key == key
  }

  function Lookup(o: seq<Pair>, key: string): (v: Option<Value>)
    ensures v.Some? <==> HasKey(o, key)
    ensures v.Some? ==> Pair(key, v.value) in o
  {
    if o == [] then None
    else if o[0].key == key then Some(o[0].value)
    else
      assert HasKey(o, key) ==> HasKey(o[1..], key) by {
        if HasKey(o, key) {
          var k :| 0 <= k < |o| && o[k].key == key;
          assert o[1..][k - 1].key == key;
        }
      }
      Lookup(o[1..], key)
  }

  /** The loop that drops the legacy key. */
  function Drop(o: seq<Pair>, key: string): seq<Pair> {
    if o == [] then [] else (if o[0].key == key then [] else [o[0]]) + Drop(o[1..], key)
  }

  /** The loop that renames the legacy key where it stands. */
  function Rename(o: seq<Pair>, key: string, to: string): (r: seq<Pair>)
    ensures |r| == |o|
    ensures forall k :: 0 <= k < |o| ==> r[k] == Pair(if o[k].key == key then to else o[k].key, o[k].value)
  {
    if o == [] then []
    else [Pair(if o[0].key == key then to else o[0].key, o[0].value)] + Rename(o[1..], key, to)
  }

  lemma {:induction false} DropMember(o: seq<Pair>, key: string, p: Pair)
    ensures p in Drop(o, key) <==> p in o && p.key != key
  {
    if o != [] {
      assert o == [o[0]] + o[1..];
      DropMember(o[1..], key, p);
    }
  }

  lemma KeysAhead(o: seq<Pair>, p: Pair)
    requires o != [] && UniqueKeys(o) && p in o[1..]
    ensures p.key != o[0].key
  {
    var k :| 0 <= k < |o[1..]| && o[1..][k] == p;
    assert o[k + 1] == p;
  }

  lemma {:induction false} DropShape(o: seq<Pair>, key: string)
    requires UniqueKeys(o)
    ensures UniqueKeys(Drop(o, key)) && !HasKey(Drop(o, key), key)
  {
    if o != [] {
      assert UniqueKeys(o[1..]);
      DropShape(o[1..], key);
      var rest := Drop(o[1..], key);
      forall k | 0 <= k < |rest| ensures rest[k].key != o[0].key {
        DropMember(o[1..], key, rest[k]);
        KeysAhead(o, rest[k]);
      }
    }
  }

  lemma RenameUnique(o: seq<Pair>, key: string, to: string)
    requires UniqueKeys(o) && !HasKey(o, to)
    ensures UniqueKeys(Rename(o, key, to))
  {
  }

  function RemapPayload(p: Payload): Remap {
    match p
    case NoValue => Remapped(p, EmptyPayload)
    case EmptyText => Remapped(p, EmptyPayload)
    case WhiteSpace => Remapped(p, EmptyPayload)
    case EmptyBraces => Remapped(p, EmptyPayload)
    case PaddedBraces => Remapped(p, EmptyPayload)
    case NotJson => Refused(IsNotJson)
    case NotObject => Refused(IsNotObject)
    case Encoded(o) =>
      var canon, legacy := Lookup(o, CANON), Lookup(o, LEGACY);
      if canon.Some? && legacy.Some? then
        if Strip(Rendered(canon.value)) != Strip(Rendered(legacy.value)) then Refused(DisagreeingIds)
        else (DropShape(o, LEGACY); Remapped(Encoded(Drop(o, LEGACY)), ConvertedRow))
      else if canon.Some? then Remapped(p, AlreadyCanonical)
      else if legacy.Some? then
        if Strip(Rendered(legacy.value)) == "" then Remapped(p, EmptyLegacyValue)
        else (RenameUnique(o, LEGACY, CANON); Remapped(Encoded(Rename(o, LEGACY, CANON)), ConvertedRow))
      else Remapped(p, NoIdKey)
  }

  // ---- the two readers ----

  datatype Seen = Unparseable | NonObject | Id(text: string)

  /** `str(value or "")` of the reader's key. */
  function ReadKey(o: seq<Pair>, key: string): string {
    var v := Lookup(o, key);
    if v.Some? && Truthy(v.value) then Rendered(v.value) else ""
  }

  function Decode(p: Payload, key: string): Seen {
    match p
    case NoValue => Id("")
    case EmptyText => Id("")
    case WhiteSpace => Unparseable
    case EmptyBraces => Id("")
    case PaddedBraces => Unparseable
    case NotJson => Unparseable
    case NotObject => NonObject
    case Encoded(o) => Id(ReadKey(o, key))
  }

  function DecodeHead(p: Payload): Seen { Decode(p, CANON) }

  function DecodeDeployed(p: Payload): Seen { Decode(p, LEGACY) }

  // ---- one payload ----

  predicate Converts(p: Payload) {
    RemapPayload(p).Remapped? && RemapPayload(p).state == ConvertedRow
  }

  /** A payload that is not converted is not touched. */
  lemma OthersUntouched(p: Payload)
    requires RemapPayload(p).Remapped? && !Converts(p)
    ensures RemapPayload(p).payload == p
  {
  }

  lemma {:induction false} LookupIn(o: seq<Pair>, p: Pair)
    requires UniqueKeys(o) && p in o
    ensures Lookup(o, p.key) == Some(p.value)
  {
    if o[0] != p {
      assert UniqueKeys(o[1..]) && p in o[1..];
      var k :| 0 <= k < |o[1..]| && o[1..][k] == p;
      assert o[1..][k] == o[k + 1];
      LookupIn(o[1..], p);
    }
  }

  lemma KeysDiffer()
    ensures CANON != LEGACY
  {
    assert |CANON| != |LEGACY|;
  }

  lemma RenameLooks(o: seq<Pair>, key: string, to: string)
    requires UniqueKeys(o) && HasKey(o, key) && !HasKey(o, to) && key != to
    ensures !HasKey(Rename(o, key, to), key)
    ensures Lookup(Rename(o, key, to), to) == Lookup(o, key)
  {
    var r, p := Rename(o, key, to), Pair(key, Lookup(o, key).value);
    var k :| 0 <= k < |o| && o[k] == p;
    RenameUnique(o, key, to);
    assert !HasKey(r, key);
    hide UniqueKeys, HasKey, Lookup;
    assert r[k] == Pair(to, p.value);
    LookupIn(r, Pair(to, p.value));
  }

  lemma RenamedPayload(p: Payload)
    requires Converts(p) && Lookup(p.o, CANON).None?
    ensures HasKey(p.o, LEGACY) && !HasKey(p.o, CANON)
    ensures UniqueKeys(Rename(p.o, LEGACY, CANON)) && RemapPayload(p).payload == Encoded(Rename(p.o, LEGACY, CANON))
  {
    assert HasKey(p.o, LEGACY) && !HasKey(p.o, CANON);
    RenameUnique(p.o, LEGACY, CANON);
    hide HasKey, UniqueKeys, Strip, Rename;
  }

  /** A legacy-only payload keeps its length and the place and value of every key; only the
      name of the legacy key changes, and the head reader then sees what the deployed one did. */
  lemma RenamedInPlace(p: Payload)
    requires Converts(p) && Lookup(p.o, CANON).None?
    ensures var q := RemapPayload(p).payload;
      && q.Encoded? && |q.o| == |p.o|
      && (forall k :: 0 <= k < |p.o| ==>
            q.o[k].value == p.o[k].value && q.o[k].key == (if p.o[k].key == LEGACY then CANON else p.o[k].key))
      && Lookup(q.o, LEGACY).None? && Lookup(q.o, CANON) == Lookup(p.o, LEGACY)
      && DecodeHead(q) == DecodeDeployed(p) && DecodeDeployed(q) == Id("")
  {
    RenamedPayload(p);
    hide HasKey, Strip, Converts, RemapPayload, CANON, LEGACY, UniqueKeys;
    KeysDiffer();
    RenameLooks(p.o, LEGACY, CANON);
    hide Rename, Lookup;
  }

  lemma {:induction false} DropIsSplice(o: seq<Pair>, key: string) returns (k: nat)
    requires UniqueKeys(o) && HasKey(o, key)
    ensures k < |o| && o[k].key == key && Drop(o, key) == o[..k] + o[k + 1..]
  {
    if o[0].key == key {
      k := 0;
      assert !HasKey(o[1..], key);
      DropNothing(o[1..], key);
    } else {
      assert HasKey(o[1..], key) by {
        var m :| 0 <= m < |o| && o[m].key == key;
        assert o[1..][m - 1].key == key;
      }
      hide HasKey;
      var j := DropIsSplice(o[1..], key);
      k := j + 1;
      assert o[..k] == [o[0]] + o[1..][..j] && o[k + 1..] == o[1..][j + 1..];
    }
  }

  lemma {:induction false} DropNothing(o: seq<Pair>, key: string)
    requires !HasKey(o, key)
    ensures Drop(o, key) == o
  {
    if o != [] {
      assert o[0].key != key && forall k :: 0 <= k < |o[1..]| ==> o[1..][k] == o[k + 1];
      DropNothing(o[1..], key);
    }
  }

  /** A payload with both keys loses the one legacy pair; everything else stays in place. */
  lemma DroppedLegacy(p: Payload) returns (k: nat)
    requires Converts(p) && Lookup(p.o, CANON).Some?
    ensures var q := RemapPayload(p).payload;
      && q.Encoded? && k < |p.o| && p.o[k].key == LEGACY && q.o == p.o[..k] + p.o[k + 1..]
      && Lookup(q.o, LEGACY).None? && Lookup(q.o, CANON) == Lookup(p.o, CANON)
      && DecodeHead(q) == DecodeHead(p) && DecodeDeployed(q) == Id("")
  {
    var v := Lookup(p.o, CANON).value;
    KeysDiffer();
    assert HasKey(p.o, LEGACY) && RemapPayload(p).payload == Encoded(Drop(p.o, LEGACY));
    hide HasKey, Strip, Converts, RemapPayload, Drop, CANON, LEGACY;
    DropShape(p.o, LEGACY);
    DropMember(p.o, LEGACY, Pair(CANON, v));
    LookupIn(Drop(p.o, LEGACY), Pair(CANON, v));
    k := DropIsSplice(p.o, LEGACY);
    hide Lookup, UniqueKeys;
  }

  /** A second run converts nothing. */
  lemma SecondRunConvertsNothing(p: Payload)
    requires RemapPayload(p).Remapped?
    ensures RemapPayload(RemapPayload(p).payload).Remapped?
    ensures RemapPayload(RemapPayload(p).payload).payload == RemapPayload(p).payload
    ensures !Converts(RemapPayload(p).payload)
  {
    if Converts(p) {
      if Lookup(p.o, CANON).Some? { var _ := DroppedLegacy(p); } else { RenamedInPlace(p); }
    }
  }

  /** The id the deployed reader resolved is, up to white space, the id the head reader
      resolves after the conversion, unless both keys were there and only one of the two
      values counts as empty. */
  lemma IdKeptExactly(p: Payload)
    requires Converts(p)
    ensures var q, canon, legacy := RemapPayload(p).payload, Lookup(p.o, CANON), Lookup(p.o, LEGACY);
      && DecodeHead(q).Id? && DecodeDeployed(p).Id? && legacy.Some?
      && (Strip(DecodeHead(q).text) == Strip(DecodeDeployed(p).text) <==>
          canon.None? || Truthy(canon.value) == Truthy(legacy.value) || Strip(Rendered(legacy.value)) == "")
  {
    var legacy := Lookup(p.o, LEGACY);
    assert Strip("") == "";
    if Lookup(p.o, CANON).Some? { var _ := DroppedLegacy(p); } else { RenamedInPlace(p); }
  }
}
