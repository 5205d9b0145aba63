/** What each lock section of the busy tracker decides, in terms of the requests outstanding,
    the lease and the reservation held. `Inv` holds in every reachable state. */
module BusyTrackerMeaning {
  import opened Options
  import opened Text
  import opened BusyTracker

  /** The stored count of a source. */
  function CountOf(w: World, source: string): int {
    if source in w.tracker.sources then w.tracker.sources[source] else 0
  }

  /** A request is refused if and only if it is idle chat and a reservation is held, or a lease
      its context does not carry. A refusal changes nothing. Every other request gets one new
      token, raises the count of its source by one, ends a reservation, and ends a lease its
      context does not carry. */
  lemma BeginsExactly(w: World, carried: Option<Lease>, source: string)
    requires Inv(w) && Enabled(w, Begin(carried, source))
    ensures var v, lease := Apply(w, Begin(carried, source)), w.tracker.lease;
      if source == "idlechat" && (w.tracker.reservation.Some? || (lease.Some? && carried != lease)) then v == w
      else
        && w.begun !in w.tokens && v.tokens == w.tokens[w.begun := Token(source, carried)] && v.begun == w.begun + 1
        && CountOf(v, source) == CountOf(w, source) + 1
        && (forall other | other != source :: CountOf(v, other) == CountOf(w, other))
        && v.tracker.reservation == None && v.tracker.lease == (if carried == lease then lease else None)
        && v.leases == w.leases && v.reservations == w.reservations
  {
    hide TrimSpace;
  }

  /** The holder of a lease can begin any request under it, idle chat included, and keeps it. */
  lemma HolderBegins(w: World, lease: Lease, source: string)
    requires Inv(w) && w.tracker.lease == Some(lease) && TrimSpace(source) != ""
    ensures Enabled(w, Begin(Some(lease), source))
    ensures var v := Apply(w, Begin(Some(lease), source));
      && v.tokens == w.tokens[w.begun := Token(source, Some(lease))] && w.begun !in w.tokens
      && v.tracker.lease == Some(lease) && v.cancels == w.cancels
  {
    assert w.leases[lease.id] == lease;
    HolderIsFree(w, lease);
    BeginsExactly(w, Some(lease), source);
  }

  lemma HolderIsFree(w: World, lease: Lease)
    requires Inv(w) && w.tracker.lease == Some(lease)
    ensures w.tracker.reservation == None
  {
  }

  /** A finished request takes its own token out, lowers the count of its source by one and
      leaves everything else. */
  lemma FinishesExactly(w: World, token: nat)
    requires Inv(w) && Enabled(w, Finish(token))
    ensures var v, source := Apply(w, Finish(token)), w.tokens[token].source;
      && v.tokens == w.tokens - {token} && v.begun == w.begun && v.cancels == w.cancels
      && CountOf(v, source) == CountOf(w, source) - 1 && (source in v.tracker.sources <==> CountOf(w, source) > 1)
      && (forall other | other != source :: CountOf(v, other) == CountOf(w, other))
      && v.tracker.lease == w.tracker.lease && v.tracker.reservation == w.tracker.reservation
      && v.leases == w.leases && v.reservations == w.reservations
  {
    assert w.tokens[token].source in w.tracker.sources;
    hide TrimSpace, TokensOf;
  }

  /** A reservation is made if and only if no lease and no reservation is held and every
      outstanding request is idle chat. */
  lemma ReservesExactly(w: World, source: string)
    requires Inv(w) && Enabled(w, Reserve(source))
    ensures var v, r := Apply(w, Reserve(source)), Reservation(|w.reservations|, source);
      if w.tracker.lease == None && w.tracker.reservation == None && forall k | k in w.tokens :: w.tokens[k].source == "idlechat"
      then v == w.(tracker := w.tracker.(reservation := Some(r)), reservations := w.reservations + [r])
      else v == w
  {
    CountedSources(w);
    hide TrimSpace;
  }

  lemma OnlyIdleChatMeans(w: World)
    requires Inv(w)
    ensures OnlyIdleChat(w.tracker) <==> forall k | k in w.tokens :: w.tokens[k].source == "idlechat"
  {
    CountedSources(w);
    hide TrimSpace;
  }

  lemma CountedSources(w: World)
    requires CountsTokens(w)
    ensures forall s :: s in w.tracker.sources <==> exists k :: k in w.tokens && w.tokens[k].source == s
    ensures forall s | s in w.tracker.sources :: w.tracker.sources[s] > 0
  {
    forall s | s in w.tracker.sources ensures exists k :: k in w.tokens && w.tokens[k].source == s {
      assert TokensOf(w.tokens, s) != {};
      var k :| k in TokensOf(w.tokens, s);
    }
  }

  /** A lease is granted if and only if none is held, no request is outstanding, and the
      reservation held is the caller's, or none is held and none is required. It is a new one,
      and ends the reservation. */
  lemma AcquiresExactly(w: World, source: string, requireReservation: bool)
    requires Inv(w) && Enabled(w, Acquire(source, requireReservation))
    ensures var v, t, lease := Apply(w, Acquire(source, requireReservation)), w.tracker, Lease(|w.leases|, source);
      if t.lease == None && w.tokens == map[]
         && (if t.reservation.Some? then t.reservation.value.source == source else !requireReservation)
      then v.tracker.lease == Some(lease) && v.tracker.reservation == None && v.leases == w.leases + [lease]
           && v.tokens == w.tokens && v.tracker.sources == t.sources && v.cancels == w.cancels && lease !in w.leases
      else v == w
  {
    NoTokensWhenIdle(w);
    hide TrimSpace, BusySources, CountsTokens;
  }

  /** Releasing the lease held ends it with one call of its own cancel; releasing the
      reservation held ends it. Nothing else changes, and releasing another one changes
      nothing. */
  lemma ReleasesExactly(w: World, lease: Lease, r: Reservation)
    requires Inv(w) && Enabled(w, Release(lease)) && Enabled(w, Unreserve(r))
    ensures var v := Apply(w, Release(lease));
      if w.tracker.lease == Some(lease) then
        v == w.(tracker := w.tracker.(lease := None, leaseCancel := None), cancels := w.cancels + multiset{lease.id})
      else v == w
    ensures var v := Apply(w, Unreserve(r));
      if w.tracker.reservation == Some(r) then v == w.(tracker := w.tracker.(reservation := None)) else v == w
  {
  }

  lemma Next(w: World, e: Event) returns (v: World)
    requires Reachable(w) && Enabled(w, e)
    ensures v == Apply(w, e) && Reachable(v)
  {
    var events :| CanRun(START, events) && w == Run(START, events);
    RunAppend(START, events, e);
    v := Apply(w, e);
  }

  lemma {:induction false} RunAppend(w: World, events: seq<Event>, e: Event)
    requires CanRun(w, events) && Enabled(Run(w, events), e)
    ensures CanRun(w, events + [e]) && Run(w, events + [e]) == Apply(Run(w, events), e)
    decreases |events|
  {
    if events == [] {
      assert [e][1..] == [];
    } else {
      assert (events + [e])[1..] == events[1..] + [e];
      hide Apply, Enabled;
      RunAppend(Apply(w, events[0]), events[1..], e);
    }
  }

  /** Idle chat does run: it reserves, acquires the lease once other requests are done, and
      speaks under it. */
  lemma IdleChatSpeaks() returns (w: World)
    ensures Reachable(w) && w.tracker.lease.Some?
    ensures w.tokens == map[0 := Token("idlechat", w.tracker.lease)] && CountOf(w, "idlechat") == 1
  {
    assert CanRun(START, []);
    IdleChatIsNamed();
    w := Next(START, Reserve("idlechat"));
    ReachableInv(START);
    ReservesExactly(START, "idlechat");
    ReachableInv(w);
    var v := Next(w, Acquire("idlechat", true));
    ReachableInv(v);
    AcquiresExactly(w, "idlechat", true);
    hide Apply;
    var lease := v.tracker.lease.value;
    HolderBegins(v, lease, "idlechat");
    BeginsExactly(v, Some(lease), "idlechat");
    w := Next(v, Begin(Some(lease), "idlechat"));
  }

  lemma IdleChatIsNamed()
    ensures TrimSpace("idlechat") != ""
  {
  }
}
