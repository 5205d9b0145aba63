/** The tracker as an object: its methods are the lock sections of the source, each proved
    to be the matching event of module BusyTracker. */
module LLMBusyTracker {
  import opened Options
  import opened Text
  import opened BusyTracker
  import opened BusyTrackerMeaning

  datatype Snapshot = Snapshot(
    active: bool, activeCount: int, sources: map<string, int>,
    external: bool, externalCount: int, externalSources: map<string, int>)

  lemma SumExtends(m: map<string, int>, s: string, n: int)
    requires s !in m
    ensures Sum(m[s := n]) == Sum(m) + n
  {
    SumWithout(m[s := n], s);
    assert m[s := n] - {s} == m;
  }

  /** The source's filtering copy of the counts. */
  method CopyBusySources(m: map<string, int>) returns (out: map<string, int>)
    ensures out == BusySources(m)
  {
    out := map[];
    var rest := m.Keys;
    while rest != {}
      invariant rest <= m.Keys
      invariant out == map s | s in m && s !in rest && TrimSpace(s) != "" && m[s] > 0 :: m[s]
      decreases rest
    {
      var s :| s in rest;
      if !(TrimSpace(s) == "" || m[s] <= 0) { out := out[s := m[s]]; }
      rest := rest - {s};
    }
  }

  lemma SourceNamed(raw: string, fallback: string, default: string)
    requires TrimSpace(default) == default != ""
    ensures TrimSpace(SourceName(raw, fallback, default)) == SourceName(raw, fallback, default) != ""
  {
    TrimIdempotent(IsSpace, raw);
    TrimIdempotent(IsSpace, fallback);
  }

  lemma DefaultsTrimmed()
    ensures TrimSpace("unknown") == "unknown" && TrimSpace("idle_reservation") == "idle_reservation"
    ensures TrimSpace("idle_lease") == "idle_lease" && TrimSpace("") == ""
  {
  }

  /** What a begin changes, field by field. */
  lemma BeginFields(w: World, carried: Option<Lease>, source: string)
    requires Enabled(w, Begin(carried, source))
    ensures var t, v := w.tracker, Apply(w, Begin(carried, source));
      && v.leases == w.leases && v.reservations == w.reservations
      && (if Admits(t, carried, source) then
            v.tracker == Begun(t, carried, source) && v.tokens == w.tokens[w.begun := Token(source, carried)]
            && v.cancels == (if t.lease.Some? && carried != t.lease && t.leaseCancel.Some?
                             then w.cancels + multiset{t.leaseCancel.value} else w.cancels)
          else v.tracker == t && v.cancels == w.cancels && v.tokens == w.tokens)
  {
  }

  class Tracker {
    var sources: map<string, int>
    var idleLease: Option<Lease>
    var idleLeaseCancel: Option<nat>
    var idleReservation: Option<Reservation>

    // allocation of leases and reservations
    var nextLease: nat
    var nextReservation: nat

    // every call of a lease's cancel function, written down where it is called
    ghost var cancelCalls: multiset<nat>

    // the tracker with what its callers hold
    ghost var world: World

    ghost predicate Valid()
      reads this
    {
      && Inv(world) && world.tracker == BusyTracker.Tracker(sources, idleLease, idleLeaseCancel, idleReservation)
      && world.cancels == cancelCalls && nextLease == |world.leases| && nextReservation == |world.reservations|
    }

    constructor ()
      ensures Valid() && world == START
    {
      sources, idleLease, idleLeaseCancel, idleReservation := map[], None, None, None;
      nextLease, nextReservation, cancelCalls, world := 0, 0, multiset{}, START;
      new;
      StartInv();
    }

    method TryBegin(carried: Option<Lease>, contextSource: string, fallbackSource: string)
      returns (ok: bool, source: string, ghost token: nat)
      requires Valid() && (carried.Some? ==> carried.value in world.leases)
      modifies this
      ensures Valid()
      ensures source == (if TrimSpace(contextSource) != "" then TrimSpace(contextSource)
                         else if TrimSpace(fallbackSource) != "" then TrimSpace(fallbackSource) else "unknown")
      ensures Enabled(old(world), Begin(carried, source)) && world == Apply(old(world), Begin(carried, source))
      ensures !ok <==> source == "idlechat" && (old(idleReservation).Some? || (old(idleLease).Some? && carried != old(idleLease)))
      ensures !ok ==> world == old(world)
      ensures ok ==> token !in old(world).tokens && world.tokens == old(world).tokens[token := Token(source, carried)]
    {
      DefaultsTrimmed();
      hide Inv, TrimSpace;
      SourceNamed(contextSource, fallbackSource, "unknown");
      hide Apply;
      source := TrimSpace(contextSource);
      if source == "" { source := TrimSpace(fallbackSource); }
      if source == "" { source := "unknown"; }
      ok, token := BeginLocked(carried, source);
    }

    /** TryBegin while it holds the lock. */
    method BeginLocked(carried: Option<Lease>, source: string) returns (ok: bool, ghost token: nat)
      requires Valid() && Enabled(world, Begin(carried, source))
      modifies this
      ensures Valid() && world == Apply(old(world), Begin(carried, source))
      ensures !ok <==> source == IDLE_CHAT && (old(idleReservation).Some? || (old(idleLease).Some? && carried != old(idleLease)))
      ensures !ok ==> world == old(world)
      ensures ok ==> token !in old(world).tokens && world.tokens == old(world).tokens[token := Token(source, carried)]
    {
      hide Inv, Enabled, Apply, TrimSpace;
      StepKeepsInv(world, Begin(carried, source));
      BeginsExactly(world, carried, source);
      BeginFields(world, carried, source);
      token := world.begun;
      ghost var t := world.tracker;
      world := Apply(world, Begin(carried, source));
      if idleReservation.Some? && source == IDLE_CHAT { return false, token; }
      if idleLease.Some? && carried != idleLease && source == IDLE_CHAT { return false, token; }
      assert Admits(t, carried, source);
      hide Admits;
      EndHolds(carried);
      sources := sources[source := (if source in sources then sources[source] else 0) + 1];
      return true, token;
    }

    /** An admitted request ends the reservation, and a lease it does not carry is cancelled. */
    method EndHolds(carried: Option<Lease>)
      modifies this`idleReservation, this`idleLease, this`idleLeaseCancel, this`cancelCalls
      ensures idleReservation == None
      ensures idleLease == if old(idleLease) == None || carried == old(idleLease) then old(idleLease) else None
      ensures idleLeaseCancel == if old(idleLease) == None || carried == old(idleLease) then old(idleLeaseCancel) else None
      ensures cancelCalls ==
        if old(idleLease).Some? && carried != old(idleLease) && old(idleLeaseCancel).Some?
        then old(cancelCalls) + multiset{old(idleLeaseCancel).value} else old(cancelCalls)
    {
      idleReservation := None;
      if idleLease.Some? && carried != idleLease {
        var cancel := idleLeaseCancel;
        idleLease := None;
        idleLeaseCancel := None;
        if cancel.Some? { cancelCalls := cancelCalls + multiset{cancel.value}; }
      }
    }

    /** The closure TryBegin hands out, called once. */
    method Done(source: string, ghost token: nat)
      requires Valid() && token in world.tokens && world.tokens[token].source == source
      modifies this
      ensures Valid() && world == Apply(old(world), Finish(token))
    {
      hide Inv;
      StepKeepsInv(world, Finish(token));
      world := Apply(world, Finish(token));
      if source !in sources || sources[source] <= 1 {
        sources := sources - {source};
        return;
      }
      sources := sources[source := sources[source] - 1];
    }

    method TryReserveIdleReservation(rawSource: string) returns (reservation: Option<Reservation>)
      requires Valid()
      modifies this
      ensures Valid()
      ensures var source := if TrimSpace(rawSource) != "" then TrimSpace(rawSource) else "idle_reservation";
              && Enabled(old(world), Reserve(source)) && world == Apply(old(world), Reserve(source))
              && (reservation.Some? <==>
                    old(idleLease) == None
                    && if old(idleReservation).Some? then old(idleReservation).value.source == source
                       else forall k | k in old(world).tokens :: old(world).tokens[k].source == "idlechat")
              && (reservation.Some? ==> reservation.value.source == source && idleReservation == reservation)
              && (old(idleReservation).Some? ==> idleReservation == old(idleReservation))
    {
      DefaultsTrimmed();
      hide Inv, TrimSpace;
      SourceNamed(rawSource, "", "idle_reservation");
      var source := TrimSpace(rawSource);
      if source == "" { source := "idle_reservation"; }
      StepKeepsInv(world, Reserve(source));
      OnlyIdleChatMeans(world);
      ghost var before := world.tracker;
      world := Apply(world, Reserve(source));
      if idleLease.Some? { return None; }
      if idleReservation.Some? {
        if idleReservation.value.source != source { return None; }
        return idleReservation;
      }
      var rest := sources.Keys;
      while rest != {}
        invariant rest <= sources.Keys
        invariant forall s | s in sources.Keys - rest :: sources[s] > 0 ==> s == IDLE_CHAT
        decreases rest
      {
        var s :| s in rest;
        if sources[s] > 0 && s != IDLE_CHAT {
          assert !OnlyIdleChat(before);
          return None;
        }
        rest := rest - {s};
      }
      assert OnlyIdleChat(before);
      reservation := Some(Reservation(nextReservation, source));
      nextReservation := nextReservation + 1;
      idleReservation := reservation;
    }

    method ReleaseReservation(reservation: Reservation)
      requires Valid() && reservation in world.reservations
      modifies this
      ensures Valid() && world == Apply(old(world), Unreserve(reservation))
    {
      hide Inv;
      StepKeepsInv(world, Unreserve(reservation));
      world := Apply(world, Unreserve(reservation));
      if idleReservation == Some(reservation) { idleReservation := None; }
    }

    method TryAcquireIdleLease(rawSource: string, requireReservation: bool) returns (lease: Option<Lease>)
      requires Valid()
      modifies this
      ensures Valid()
      ensures var source := if TrimSpace(rawSource) != "" then TrimSpace(rawSource) else "idle_lease";
              && Enabled(old(world), Acquire(source, requireReservation))
              && world == Apply(old(world), Acquire(source, requireReservation))
              && (lease.Some? <==>
                    old(idleLease) == None && old(world).tokens == map[]
                    && if old(idleReservation).Some? then old(idleReservation).value.source == source else !requireReservation)
              && (lease.Some? ==> lease.value.source == source)
      ensures lease.Some? ==> idleLease == lease && lease.value !in old(world).leases
    {
      DefaultsTrimmed();
      hide Inv, TrimSpace, Grants, Apply;
      SourceNamed(rawSource, "", "idle_lease");
      var source := TrimSpace(rawSource);
      if source == "" { source := "idle_lease"; }
      lease := AcquireLocked(source, requireReservation);
    }

    /** tryAcquireIdleLease while it holds the lock. */
    method AcquireLocked(source: string, requireReservation: bool) returns (lease: Option<Lease>)
      requires Valid() && Enabled(world, Acquire(source, requireReservation))
      modifies this
      ensures Valid() && world == Apply(old(world), Acquire(source, requireReservation))
      ensures lease.Some? <==>
                old(idleLease) == None && old(world).tokens == map[]
                && if old(idleReservation).Some? then old(idleReservation).value.source == source else !requireReservation
      ensures lease.Some? ==> idleLease == lease && lease.value.source == source && lease.value !in old(world).leases
    {
      hide Inv, BusySources, Enabled;
      StepKeepsInv(world, Acquire(source, requireReservation));
      AcquiresExactly(world, source, requireReservation);
      NothingOutstanding(world);
      world := Apply(world, Acquire(source, requireReservation));
      if idleLease.Some? { return None; }
      var busySources := CopyBusySources(sources);
      if idleReservation.Some? {
        if idleReservation.value.source != source || |busySources| > 0 { return None; }
        idleReservation := None;
      } else if requireReservation || |busySources| > 0 {
        return None;
      }
      lease := Some(Lease(nextLease, source));
      nextLease := nextLease + 1;
      idleLease := lease;
      idleLeaseCancel := Some(lease.value.id);
    }

    method ReleaseLease(lease: Lease)
      requires Valid() && lease in world.leases
      modifies this
      ensures Valid() && world == Apply(old(world), Release(lease))
    {
      hide Inv;
      StepKeepsInv(world, Release(lease));
      world := Apply(world, Release(lease));
      if idleLease != Some(lease) { return; }
      idleLease := None;
      idleLeaseCancel := None;
      cancelCalls := cancelCalls + multiset{lease.id};
    }

    method TakeSnapshot() returns (snap: Snapshot)
      requires Valid()
      ensures Shows(snap, world)
    {
      hide Inv, BusySources, Shows, CountsTokens;
      NothingIsFiltered(world);
      var all := CopyBusySources(sources);
      if idleLease.Some? {
        var s := idleLease.value.source;
        all := all[s := (if s in all then all[s] else 0) + 1];
      }
      assert all == WithLease(world.tracker.sources, world.tracker.lease);
      hide WithLease, Bump, Sum;
      var activeCount, external, externalCount := CountBusy(all);
      snap := Snapshot(activeCount > 0, activeCount, all, externalCount > 0, externalCount, external);
      CountsAreShown(world, snap);
    }
  }

  lemma NothingOutstanding(w: World)
    requires Inv(w)
    ensures BusySources(w.tracker.sources) == map[] <==> w.tokens == map[]
  {
    NoTokensWhenIdle(w);
  }

  lemma NothingIsFiltered(w: World)
    requires Inv(w)
    ensures CountsTokens(w) && BusySources(w.tracker.sources) == w.tracker.sources
  {
    NoTokensWhenIdle(w);
  }

  /** The counts a snapshot shows are the requests outstanding, plus one for a held lease;
      the external ones leave idle chat out. Nothing is lost in the filtering copies. */
  ghost predicate Shows(snap: Snapshot, w: World) {
    var lease := w.tracker.lease;
    && snap.activeCount == |w.tokens| + (if lease.Some? then 1 else 0)
    && snap.externalCount == |w.tokens| - |TokensOf(w.tokens, IDLE_CHAT)| + (if lease.Some? && lease.value.source != IDLE_CHAT then 1 else 0)
    && snap.active == (snap.activeCount > 0) && snap.external == (snap.externalCount > 0)
    && (forall s :: (if s in snap.sources then snap.sources[s] else 0)
          == |TokensOf(w.tokens, s)| + (if lease.Some? && lease.value.source == s then 1 else 0))
    && snap.externalSources == snap.sources - {IDLE_CHAT}
  }

  lemma CountsAreShown(w: World, snap: Snapshot)
    requires CountsTokens(w) && snap.sources == WithLease(w.tracker.sources, w.tracker.lease)
    requires snap.externalSources == snap.sources - {IDLE_CHAT}
    requires snap.activeCount == Sum(snap.sources) && snap.externalCount == Sum(snap.externalSources)
    requires snap.active == (snap.activeCount > 0) && snap.external == (snap.externalCount > 0)
    ensures Shows(snap, w)
  {
    SumWithLease(w);
    CountPerSource(w);
    hide CountsTokens, TokensOf, WithLease, Sum;
  }

  /** The totalling loop of a snapshot. */
  method CountBusy(all: map<string, int>) returns (activeCount: int, external: map<string, int>, externalCount: int)
    ensures activeCount == Sum(all)
    ensures external == all - {IDLE_CHAT} && externalCount == Sum(external)
  {
    external := map[];
    activeCount, externalCount := 0, 0;
    var rest := all.Keys;
    while rest != {}
      invariant rest <= all.Keys
      invariant activeCount == Sum(all - rest)
      invariant external == (all - rest) - {IDLE_CHAT} && externalCount == Sum(external)
      decreases rest
    {
      var s :| s in rest;
      assert all - (rest - {s}) == (all - rest)[s := all[s]];
      SumExtends(all - rest, s, all[s]);
      activeCount := activeCount + all[s];
      if s != IDLE_CHAT {
        SumExtends(external, s, all[s]);
        external := external[s := all[s]];
        externalCount := externalCount + all[s];
      }
      rest := rest - {s};
    }
    assert all - {} == all;
  }

  lemma CountPerSource(w: World)
    requires CountsTokens(w)
    ensures var all := WithLease(w.tracker.sources, w.tracker.lease);
            forall s :: (if s in all then all[s] else 0)
              == |TokensOf(w.tokens, s)| + (if w.tracker.lease.Some? && w.tracker.lease.value.source == s then 1 else 0)
  {
    forall s | s !in w.tracker.sources ensures TokensOf(w.tokens, s) == {} { }
  }

  function Bump(m: map<string, int>, s: string): map<string, int> {
    m[s := (if s in m then m[s] else 0) + 1]
  }

  function WithLease(m: map<string, int>, lease: Option<Lease>): map<string, int> {
    if lease.None? then m else Bump(m, lease.value.source)
  }

  lemma SumBump(m: map<string, int>, s: string)
    ensures Sum(Bump(m, s)) == Sum(m) + 1
  {
    if s in m {
      SumWithout(m, s);
      SumExtends(m - {s}, s, m[s] + 1);
      assert (m - {s})[s := m[s] + 1] == m[s := m[s] + 1];
    } else {
      SumExtends(m, s, 1);
    }
  }

  lemma BumpWithout(m: map<string, int>, s: string, dropped: string)
    ensures Bump(m, s) - {dropped} == if s == dropped then m - {dropped} else Bump(m - {dropped}, s)
  {
  }

  lemma SumWithLease(w: World)
    requires CountsTokens(w)
    ensures var all := WithLease(w.tracker.sources, w.tracker.lease);
            && Sum(all) == |w.tokens| + (if w.tracker.lease.Some? then 1 else 0)
            && Sum(all - {IDLE_CHAT}) == |w.tokens| - |TokensOf(w.tokens, IDLE_CHAT)|
                 + (if w.tracker.lease.Some? && w.tracker.lease.value.source != IDLE_CHAT then 1 else 0)
  {
    ExternalSum(w);
    hide CountsTokens, Sum, TokensOf, Bump;
    if w.tracker.lease.Some? {
      var m, s := w.tracker.sources, w.tracker.lease.value.source;
      SumBump(m, s);
      BumpWithout(m, s, IDLE_CHAT);
      SumBump(m - {IDLE_CHAT}, s);
    }
  }
}
