/** The LLM busy tracker: counted requests per source, one preemptible idle lease carried in
    the request context, and one idle reservation that drains idle chat. */
module BusyTracker {
  import opened Options
  import opened Ordering
  import opened Text

  const IDLE_CHAT := "idlechat"

  /** A lease or a reservation is a fresh allocation: `id` stands for its address. */
  datatype Lease = Lease(id: nat, source: string)
  datatype Reservation = Reservation(id: nat, source: string)

  /** What the tracker stores. `leaseCancel` is the lease whose context the stored cancel
      function cancels. */
  datatype Tracker = Tracker(
    sources: map<string, int>, lease: Option<Lease>, leaseCancel: Option<nat>, reservation: Option<Reservation>)

  const FRESH := Tracker(map[], None, None, None)

  function SourceName(raw: string, fallback: string, default: string): string {
    if TrimSpace(raw) != "" then TrimSpace(raw) else if TrimSpace(fallback) != "" then TrimSpace(fallback) else default
  }

  /** Whether a request of `source` whose context carries `carried` is admitted. */
  predicate Admits(t: Tracker, carried: Option<Lease>, source: string) {
    source == IDLE_CHAT ==> t.reservation == None && (t.lease == None || carried == t.lease)
  }

  /** An admitted request ends a reservation, and a lease it does not carry, before it counts. */
  function Begun(t: Tracker, carried: Option<Lease>, source: string): Tracker {
    var kept := t.lease == None || carried == t.lease;
    Tracker(
      t.sources[source := (if source in t.sources then t.sources[source] else 0) + 1],
      if kept then t.lease else None,
      if kept then t.leaseCancel else None,
      None)
  }

  function Finished(t: Tracker, source: string): Tracker {
    if source !in t.sources || t.sources[source] <= 1 then t.(sources := t.sources - {source})
    else t.(sources := t.sources[source := t.sources[source] - 1])
  }

  predicate OnlyIdleChat(t: Tracker) {
    forall s | s in t.sources :: t.sources[s] > 0 ==> s == IDLE_CHAT
  }

  /** The reservation a call by `source` gets: the one it already holds, or a new one. */
  function Reserved(t: Tracker, source: string, next: nat): Option<Reservation> {
    if t.lease.Some? then None
    else if t.reservation.Some? then (if t.reservation.value.source == source then t.reservation else None)
    else if OnlyIdleChat(t) then Some(Reservation(next, source))
    else None
  }

  function BusySources(m: map<string, int>): map<string, int> {
    map s | s in m && TrimSpace(s) != "" && m[s] > 0 :: m[s]
  }

  predicate Grants(t: Tracker, source: string, requireReservation: bool) {
    && t.lease == None && BusySources(t.sources) == map[]
    && (if t.reservation.Some? then t.reservation.value.source == source else !requireReservation)
  }

  // ---- the tracker together with what has been handed out ----

  /** One begun request: the source it counts under and the lease its context carried. */
  datatype Token = Token(source: string, carried: Option<Lease>)

  /** `tokens` are the outstanding `done` closures, `leases` and `reservations` everything
      ever granted, `cancels` how often each lease's own cancel has been called. */
  datatype World = World(
    tracker: Tracker, tokens: map<nat, Token>, begun: nat,
    leases: seq<Lease>, reservations: seq<Reservation>, cancels: multiset<nat>)

  const START := World(FRESH, map[], 0, [], [], multiset{})

  datatype Event =
    | Begin(carried: Option<Lease>, source: string)
    | Finish(token: nat)
    | Reserve(source: string)
    | Unreserve(reservation: Reservation)
    | Acquire(source: string, requireReservation: bool)
    | Release(lease: Lease)

  /** A context carries only a granted lease, a `done` is called once, and only what was
      granted can be released. Releases may come late and may be repeated. */
  predicate Enabled(w: World, e: Event) {
    match e
    case Begin(carried, source) => TrimSpace(source) != "" && (carried.Some? ==> carried.value in w.leases)
    case Finish(token) => token in w.tokens
    case Reserve(source) => TrimSpace(source) != ""
    case Unreserve(reservation) => reservation in w.reservations
    case Acquire(source, _) => TrimSpace(source) != ""
    case Release(lease) => lease in w.leases
  }

  function Apply(w: World, e: Event): World
    requires Enabled(w, e)
  {
    var t := w.tracker;
    match e
    case Begin(carried, source) =>
      if !Admits(t, carried, source) then w
      else w.(
        tracker := Begun(t, carried, source),
        tokens := w.tokens[w.begun := Token(source, carried)],
        begun := w.begun + 1,
        cancels := if t.lease.Some? && carried != t.lease && t.leaseCancel.Some?
                   then w.cancels + multiset{t.leaseCancel.value} else w.cancels)
    case Finish(token) =>
      w.(tracker := Finished(t, w.tokens[token].source), tokens := w.tokens - {token})
    case Reserve(source) =>
      var r := Reserved(t, source, |w.reservations|);
      if r.None? || t.reservation.Some? then w
      else w.(tracker := t.(reservation := r), reservations := w.reservations + [r.value])
    case Unreserve(reservation) =>
      if t.reservation == Some(reservation) then w.(tracker := t.(reservation := None)) else w
    case Acquire(source, requireReservation) =>
      if !Grants(t, source, requireReservation) then w
      else
        var lease := Lease(|w.leases|, source);
        w.(tracker := t.(lease := Some(lease), leaseCancel := Some(lease.id), reservation := None),
           leases := w.leases + [lease])
    case Release(lease) =>
      if t.lease == Some(lease)
      then w.(tracker := t.(lease := None, leaseCancel := None), cancels := w.cancels + multiset{lease.id})
      else w
  }

  predicate CanRun(w: World, events: seq<Event>)
    decreases |events|
  {
    events == [] || (Enabled(w, events[0]) && CanRun(Apply(w, events[0]), events[1..]))
  }

  function Run(w: World, events: seq<Event>): World
    requires CanRun(w, events)
    decreases |events|
  {
    if events == [] then w else Run(Apply(w, events[0]), events[1..])
  }

  // ---- what every step keeps ----

  ghost function TokensOf(tokens: map<nat, Token>, source: string): set<nat> {
    set k | k in tokens && tokens[k].source == source
  }

  /** Stored counts are the outstanding requests per source, without zero or blank entries. */
  ghost predicate CountsTokens(w: World) {
    Counted(w.tracker.sources, w.tokens) && forall k | k in w.tokens :: k < w.begun
  }

  ghost predicate LeaseIsolated(w: World) {
    w.tracker.lease.Some? ==> forall k | k in w.tokens :: w.tokens[k].carried == w.tracker.lease
  }

  ghost predicate ReservationDrains(w: World) {
    w.tracker.reservation.Some? ==>
      w.tracker.lease == None && forall k | k in w.tokens :: w.tokens[k].source == IDLE_CHAT
  }

  ghost predicate Identities(w: World) {
    && (forall i | 0 <= i < |w.leases| :: w.leases[i].id == i)
    && (forall i | 0 <= i < |w.reservations| :: w.reservations[i].id == i)
    && (w.tracker.lease.Some? ==>
          w.tracker.lease.value.id < |w.leases| && w.leases[w.tracker.lease.value.id] == w.tracker.lease.value)
    && (w.tracker.reservation.Some? ==>
          w.tracker.reservation.value.id < |w.reservations| && w.reservations[w.tracker.reservation.value.id] == w.tracker.reservation.value)
    && w.tracker.leaseCancel == (if w.tracker.lease.Some? then Some(w.tracker.lease.value.id) else None)
  }

  /** A lease's cancel has been called exactly once if the lease is over, and not before. */
  ghost predicate CancelledOnce(w: World) {
    forall id: nat :: w.cancels[id] == if id < |w.leases| && w.tracker.lease != Some(w.leases[id]) then 1 else 0
  }

  ghost predicate Inv(w: World) {
    CountsTokens(w) && LeaseIsolated(w) && ReservationDrains(w) && Identities(w) && CancelledOnce(w)
  }

  lemma StartInv()
    ensures Inv(START)
  {
  }

  ghost predicate Counted(sources: map<string, int>, tokens: map<nat, Token>) {
    && (forall s | s in sources :: TrimSpace(s) != "" && sources[s] > 0 && sources[s] == |TokensOf(tokens, s)|)
    && (forall k | k in tokens :: tokens[k].source in sources)
  }

  lemma CountsBegun(sources: map<string, int>, tokens: map<nat, Token>, k: nat, token: Token)
    requires Counted(sources, tokens) && k !in tokens && TrimSpace(token.source) != ""
    ensures Counted(sources[token.source := (if token.source in sources then sources[token.source] else 0) + 1], tokens[k := token])
  {
    OneTokenMore(tokens, k, token);
    if token.source !in sources { assert TokensOf(tokens, token.source) == {}; }
    hide TrimSpace, TokensOf;
  }

  lemma OneTokenMore(tokens: map<nat, Token>, k: nat, token: Token)
    requires k !in tokens
    ensures |TokensOf(tokens[k := token], token.source)| == |TokensOf(tokens, token.source)| + 1
    ensures forall s :: s != token.source ==> TokensOf(tokens[k := token], s) == TokensOf(tokens, s)
  {
    assert TokensOf(tokens[k := token], token.source) == TokensOf(tokens, token.source) + {k};
    forall s | s != token.source ensures TokensOf(tokens[k := token], s) == TokensOf(tokens, s) { }
  }

  lemma CountsFinished(t: Tracker, tokens: map<nat, Token>, k: nat)
    requires Counted(t.sources, tokens) && k in tokens
    ensures Counted(Finished(t, tokens[k].source).sources, tokens - {k})
  {
    var source, after, m := tokens[k].source, tokens - {k}, Finished(t, tokens[k].source).sources;
    OneTokenLess(tokens, k);
    forall s | s in m ensures TrimSpace(s) != "" && m[s] > 0 && m[s] == |TokensOf(after, s)| {
      hide TokensOf, TrimSpace;
    }
    forall j | j in after ensures after[j].source in m {
      if after[j].source == source { TwoTokens(tokens, j, k); }
      hide TokensOf, TrimSpace;
    }
    hide Finished, TokensOf, TrimSpace;
  }

  lemma TwoTokens(tokens: map<nat, Token>, j: nat, k: nat)
    requires j in tokens && k in tokens && j != k && tokens[j].source == tokens[k].source
    ensures |TokensOf(tokens, tokens[k].source)| > 1
  {
    assert {j, k} <= TokensOf(tokens, tokens[k].source);
    SubsetSize({j, k}, TokensOf(tokens, tokens[k].source));
  }

  lemma OneTokenLess(tokens: map<nat, Token>, k: nat)
    requires k in tokens
    ensures var source := tokens[k].source;
      k in TokensOf(tokens, source) && |TokensOf(tokens - {k}, source)| == |TokensOf(tokens, source)| - 1
    ensures forall s :: s != tokens[k].source ==> TokensOf(tokens - {k}, s) == TokensOf(tokens, s)
  {
    var source := tokens[k].source;
    assert TokensOf(tokens - {k}, source) == TokensOf(tokens, source) - {k};
    forall s | s != source ensures TokensOf(tokens - {k}, s) == TokensOf(tokens, s) { }
  }

  lemma CountsKept(w: World, e: Event)
    requires CountsTokens(w) && Enabled(w, e)
    ensures CountsTokens(Apply(w, e))
  {
    match e
    case Begin(carried, source) => BeginCounts(w, carried, source);
    case Finish(token) =>
      CountsFinished(w.tracker, w.tokens, token);
      hide Counted, Finished;
    case _ => hide Counted, Finished, Grants, Reserved;
  }

  lemma BeginCounts(w: World, carried: Option<Lease>, source: string)
    requires CountsTokens(w) && Enabled(w, Begin(carried, source))
    ensures CountsTokens(Apply(w, Begin(carried, source)))
  {
    assert w.begun !in w.tokens;
    CountsBegun(w.tracker.sources, w.tokens, w.begun, Token(source, carried));
    hide Counted, Admits, TrimSpace;
  }

  lemma NoTokensWhenIdle(w: World)
    requires CountsTokens(w)
    ensures BusySources(w.tracker.sources) == w.tracker.sources
    ensures w.tracker.sources == map[] <==> w.tokens == map[]
  {
    forall s | s in w.tracker.sources ensures exists k :: k in w.tokens && w.tokens[k].source == s {
      assert TokensOf(w.tokens, s) != {};
      var k :| k in TokensOf(w.tokens, s);
    }
    if w.tokens != map[] {
      var k :| k in w.tokens;
      assert w.tokens[k].source in w.tracker.sources;
    }
    if w.tracker.sources != map[] {
      var s :| s in w.tracker.sources;
    }
  }

  lemma OnlyIdleChatTokens(w: World)
    requires CountsTokens(w) && OnlyIdleChat(w.tracker)
    ensures forall k | k in w.tokens :: w.tokens[k].source == IDLE_CHAT
  {
  }

  /** A lease and a reservation start only where nothing they exclude is outstanding. */
  lemma ExclusionKept(w: World, e: Event)
    requires CountsTokens(w) && LeaseIsolated(w) && ReservationDrains(w) && Enabled(w, e)
    ensures LeaseIsolated(Apply(w, e)) && ReservationDrains(Apply(w, e))
  {
    match e
    case Begin(carried, source) => BeginExcludes(w, carried, source);
    case Reserve(source) => ReserveExcludes(w, source);
    case Acquire(_, _) => NoTokensWhenIdle(w); hide CountsTokens, BusySources;
    case _ => hide CountsTokens, Finished;
  }

  lemma BeginExcludes(w: World, carried: Option<Lease>, source: string)
    requires LeaseIsolated(w) && ReservationDrains(w) && Enabled(w, Begin(carried, source))
    ensures var v := Apply(w, Begin(carried, source)); LeaseIsolated(v) && ReservationDrains(v)
  {
    hide TrimSpace;
  }

  lemma ReserveExcludes(w: World, source: string)
    requires CountsTokens(w) && LeaseIsolated(w) && ReservationDrains(w) && Enabled(w, Reserve(source))
    ensures var v := Apply(w, Reserve(source)); LeaseIsolated(v) && ReservationDrains(v)
  {
    NoTokensWhenIdle(w);
    if OnlyIdleChat(w.tracker) { OnlyIdleChatTokens(w); }
    hide CountsTokens, BusySources, OnlyIdleChat, TrimSpace;
  }

  lemma IdentitiesKept(w: World, e: Event)
    requires Identities(w) && CancelledOnce(w) && Enabled(w, e)
    ensures Identities(Apply(w, e)) && CancelledOnce(Apply(w, e))
  {
    match e
    case Begin(_, _) => LeaseEnds(w, e);
    case Release(_) => LeaseEnds(w, e);
    case Acquire(_, _) => LeaseStarts(w, e);
    case _ => hide BusySources, OnlyIdleChat, TrimSpace, Finished;
  }

  lemma LeaseEnds(w: World, e: Event)
    requires Identities(w) && CancelledOnce(w) && Enabled(w, e) && (e.Begin? || e.Release?)
    ensures Identities(Apply(w, e)) && CancelledOnce(Apply(w, e))
  {
    hide TrimSpace, Admits;
  }

  lemma LeaseStarts(w: World, e: Event)
    requires Identities(w) && CancelledOnce(w) && Enabled(w, e) && e.Acquire?
    ensures Identities(Apply(w, e)) && CancelledOnce(Apply(w, e))
  {
    assert Grants(w.tracker, e.source, e.requireReservation) ==> w.tracker.lease == None;
    hide TrimSpace, Grants;
  }

  lemma StepKeepsInv(w: World, e: Event)
    requires Inv(w) && Enabled(w, e)
    ensures Inv(Apply(w, e))
  {
    CountsKept(w, e);
    ExclusionKept(w, e);
    IdentitiesKept(w, e);
    hide Apply, CountsTokens, LeaseIsolated, ReservationDrains, Identities, CancelledOnce;
  }

  lemma {:induction false} RunKeepsInv(w: World, events: seq<Event>)
    requires Inv(w) && CanRun(w, events)
    ensures Inv(Run(w, events))
    decreases |events|
  {
    if events != [] {
      StepKeepsInv(w, events[0]);
      hide Apply, Inv;
      RunKeepsInv(Apply(w, events[0]), events[1..]);
    }
  }

  // ---- what holds over every run ----

  ghost predicate Reachable(w: World) {
    exists events :: CanRun(START, events) && w == Run(START, events)
  }

  lemma ReachableInv(w: World)
    requires Reachable(w)
    ensures Inv(w)
  {
    var events :| CanRun(START, events) && w == Run(START, events);
    StartInv();
    RunKeepsInv(START, events);
  }

  /** While a lease is held, every outstanding request was begun under that lease's context. */
  lemma LeaseIsolation(w: World, k: nat)
    requires Reachable(w) && w.tracker.lease.Some? && k in w.tokens
    ensures w.tokens[k].carried == w.tracker.lease
  {
    ReachableInv(w);
  }

  /** A foreign idle-chat request is refused without effect; any other foreign request ends
      the lease, calling its cancel for the first and only time, and is then counted. */
  lemma ForeignRequest(w: World, carried: Option<Lease>, source: string)
    requires Reachable(w) && w.tracker.lease.Some? && carried != w.tracker.lease && Enabled(w, Begin(carried, source))
    ensures var w', lease := Apply(w, Begin(carried, source)), w.tracker.lease.value;
            if source == IDLE_CHAT then w' == w
            else && w'.tracker.lease == None && w.cancels[lease.id] == 0 && w'.cancels[lease.id] == 1
                 && w'.tokens == w.tokens[w.begun := Token(source, carried)] && w.begun !in w.tokens
  {
    ReachableInv(w);
    hide Begun;
  }

  /** The reservation is the same one after every event of the run. */
  ghost predicate HeldThroughout(w: World, events: seq<Event>, r: Reservation)
    requires CanRun(w, events)
    decreases |events|
  {
    w.tracker.reservation == Some(r) && (events == [] || HeldThroughout(Apply(w, events[0]), events[1..], r))
  }

  lemma HeldStepDrains(w: World, e: Event, r: Reservation)
    requires Inv(w) && Enabled(w, e) && w.tracker.reservation == Some(r) && Apply(w, e).tracker.reservation == Some(r)
    ensures forall k | k in Apply(w, e).tokens :: k in w.tokens && w.tokens[k] == Apply(w, e).tokens[k]
  {
  }

  lemma {:induction false} HeldRunDrains(w: World, events: seq<Event>, r: Reservation)
    requires Inv(w) && CanRun(w, events) && HeldThroughout(w, events, r)
    ensures var w' := Run(w, events);
            && Inv(w') && w'.tracker.reservation == Some(r)
            && forall k | k in w'.tokens :: k in w.tokens && w.tokens[k] == w'.tokens[k]
    decreases |events|
  {
    if events != [] {
      StepKeepsInv(w, events[0]);
      HeldStepDrains(w, events[0], r);
      hide Apply, Inv;
      HeldRunDrains(Apply(w, events[0]), events[1..], r);
    }
  }

  /** While one reservation is held only idle chat is outstanding and nothing new begins; a
      lease never coexists with it; and once idle chat has drained, the reserved lease is
      granted to the reserving source and to no other. */
  lemma ReservationDrain(w: World, events: seq<Event>, r: Reservation)
    requires Reachable(w) && CanRun(w, events) && HeldThroughout(w, events, r)
    ensures var w' := Run(w, events);
            && (forall k | k in w'.tokens :: k in w.tokens && w.tokens[k] == w'.tokens[k] && w.tokens[k].source == IDLE_CHAT)
            && w'.tracker.lease == None
            && forall source, require' :: Grants(w'.tracker, source, require') <==> w'.tokens == map[] && source == r.source
  {
    ReachableInv(w);
    HeldRunDrains(w, events, r);
    var w' := Run(w, events);
    NoTokensWhenIdle(w');
    assert LeaseIsolated(w') && ReservationDrains(w');
    hide BusySources, CountsTokens;
  }

  predicate Over(w: World, lease: Lease) {
    lease in w.leases && w.tracker.lease != Some(lease)
  }

  predicate Lapsed(w: World, r: Reservation) {
    r in w.reservations && w.tracker.reservation != Some(r)
  }

  lemma StepKeepsOver(w: World, e: Event, lease: Lease, r: Reservation)
    requires Inv(w) && Enabled(w, e)
    ensures Over(w, lease) ==> Over(Apply(w, e), lease)
    ensures Lapsed(w, r) ==> Lapsed(Apply(w, e), r)
  {
    hide BusySources, TrimSpace, CountsTokens;
  }

  /** A lease or reservation that is over never comes back, and releasing it, however late
      and however often, disturbs nothing that has been granted since. */
  lemma {:induction false} LateReleaseIsIdle(w: World, events: seq<Event>, lease: Lease, r: Reservation)
    requires Inv(w) && CanRun(w, events)
    ensures var w' := Run(w, events);
            && (Over(w, lease) ==> Over(w', lease) && w'.cancels[lease.id] == 1 && Apply(w', Release(lease)) == w')
            && (Lapsed(w, r) ==> Lapsed(w', r) && Apply(w', Unreserve(r)) == w')
    decreases |events|
  {
    if events == [] {
      if Over(w, lease) {
        var i :| 0 <= i < |w.leases| && w.leases[i] == lease;
        assert lease.id == i;
      }
    } else {
      StepKeepsInv(w, events[0]);
      StepKeepsOver(w, events[0], lease, r);
      var next := Apply(w, events[0]);
      LateReleaseIsIdle(next, events[1..], lease, r);
      assert Run(w, events) == Run(next, events[1..]);
      hide Inv, Over, Lapsed, Apply, Run;
    }
  }

  /** Over any run a granted lease is either current, its cancel not yet called, or over, its
      cancel called exactly once. */
  lemma LeaseIdentity(w: World, lease: Lease)
    requires Reachable(w) && lease in w.leases
    ensures w.cancels[lease.id] == if w.tracker.lease == Some(lease) then 0 else 1
  {
    ReachableInv(w);
    var i :| 0 <= i < |w.leases| && w.leases[i] == lease;
  }

  // ---- totals ----

  ghost function Sum(m: map<string, int>): int {
    if m == map[] then 0 else var s :| s in m; m[s] + Sum(m - {s})
  }

  lemma {:induction false} SumWithout(m: map<string, int>, s: string)
    requires s in m
    ensures Sum(m) == m[s] + Sum(m - {s})
    decreases |m|
  {
    var first :| first in m && Sum(m) == m[first] + Sum(m - {first});
    if first != s {
      SumWithout(m - {first}, s);
      SumWithout(m - {s}, first);
      assert (m - {first}) - {s} == (m - {s}) - {first};
    }
  }

  lemma MapSplits<K, V>(m: map<K, V>, part: set<K>)
    requires part <= m.Keys
    ensures |m| == |part| + |m - part|
  {
    var rest := m - part;
    assert rest.Keys == m.Keys - part;
    assert |rest| == |rest.Keys| && |m| == |m.Keys|;
  }

  lemma OtherSource(tokens: map<nat, Token>, s: string, other: string)
    requires s != other
    ensures TokensOf(tokens - TokensOf(tokens, s), other) == TokensOf(tokens, other)
  {
  }

  lemma {:induction false} SumCountsTokens(sources: map<string, int>, tokens: map<nat, Token>)
    requires forall s | s in sources :: sources[s] == |TokensOf(tokens, s)|
    requires forall k | k in tokens :: tokens[k].source in sources
    ensures Sum(sources) == |tokens|
    decreases |sources|
  {
    if sources == map[] {
      assert tokens == map[];
    } else {
      var s :| s in sources;
      SumWithout(sources, s);
      var mine := TokensOf(tokens, s);
      MapSplits(tokens, mine);
      var others := tokens - mine;
      assert forall k | k in others :: k in tokens && others[k] == tokens[k] && tokens[k].source != s;
      hide TokensOf, Sum;
      forall s' | s' in sources - {s} ensures (sources - {s})[s'] == |TokensOf(others, s')| {
        OtherSource(tokens, s, s');
      }
      SumCountsTokens(sources - {s}, others);
    }
  }

  /** Idle chat apart, the stored counts add up to the requests that are not idle chat. */
  lemma ExternalSum(w: World)
    requires CountsTokens(w)
    ensures Sum(w.tracker.sources) == |w.tokens|
    ensures Sum(w.tracker.sources - {IDLE_CHAT}) == |w.tokens| - |TokensOf(w.tokens, IDLE_CHAT)|
  {
    SumCountsTokens(w.tracker.sources, w.tokens);
    if IDLE_CHAT in w.tracker.sources {
      SumWithout(w.tracker.sources, IDLE_CHAT);
    } else {
      assert w.tracker.sources - {IDLE_CHAT} == w.tracker.sources;
      assert TokensOf(w.tokens, IDLE_CHAT) == {};
    }
  }
}
