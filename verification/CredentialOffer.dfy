/** Revocable credential offers: one index per credential is drawn before the offer is
    created, and a failed offer gives its indices back one by one. */
module CredentialOffer {
  import opened Outcomes
  import opened StatusLists

  type Pair = (string, int)

  type OfferId = nat

  datatype Credential = Credential(isSdJwt: bool, details: Option<Pair>)

  predicate NeedsIndex(c: Credential) {
    c.isSdJwt && c.details.None?
  }

  ghost predicate Out(t: Table, p: Pair) {
    Outstanding(t, p.0, p.1)
  }

  ghost predicate DistinctPairs(pairs: seq<Pair>) {
    forall i, j :: 0 <= i < j < |pairs| ==> pairs[i] != pairs[j]
  }

  /** The outstanding pairs of t' are those of t and, apart from them, the new ones. */
  ghost predicate Grown(t: Table, t': Table, newly: seq<Pair>) {
    && DistinctPairs(newly)
    && (forall p :: p in newly ==> !Out(t, p))
    && (forall p :: Out(t', p) <==> Out(t, p) || p in newly)
  }

  /** How many of the first n credentials need an index. */
  function Needed(creds: seq<Credential>, n: nat): nat
    requires n <= |creds|
  {
    if n == 0 then 0 else Needed(creds, n - 1) + if NeedsIndex(creds[n - 1]) then 1 else 0
  }

  /** The first n credentials that need an index carry the new pairs in order; every other
      credential is as it came. */
  ghost predicate FilledBy(creds: seq<Credential>, filled: seq<Credential>, newly: seq<Pair>, n: nat)
    requires n <= |creds|
  {
    && |filled| == |creds| && |newly| == Needed(creds, n)
    && forall i :: 0 <= i < |creds| ==>
         if i < n && NeedsIndex(creds[i])
         then Needed(creds, i) < |newly| && filled[i] == creds[i].(details := Some(newly[Needed(creds, i)]))
         else filled[i] == creds[i]
  }

  lemma FillNext(creds: seq<Credential>, filled: seq<Credential>, newly: seq<Pair>, n: nat, p: Pair)
    requires n < |creds| && FilledBy(creds, filled, newly, n)
    ensures filled[n] == creds[n]
    ensures !NeedsIndex(creds[n]) ==> FilledBy(creds, filled, newly, n + 1)
    ensures NeedsIndex(creds[n]) ==>
              FilledBy(creds, filled[n := filled[n].(details := Some(p))], newly + [p], n + 1)
  {
    assert filled[n] == creds[n];
  }

  lemma GrownByOne(t0: Table, t1: Table, t2: Table, newly: seq<Pair>, p: Pair)
    requires Grown(t0, t1, newly)
    requires !Out(t1, p) && forall q :: Out(t2, q) <==> Out(t1, q) || q == p
    ensures Grown(t0, t2, newly + [p])
  {
    hide Out;
    assert forall q :: q in newly + [p] <==> q in newly || q == p;
  }

  ghost predicate FreshIds(t: Table, ids: seq<string>) {
    && (forall i :: 0 <= i < |ids| ==> ids[i] !in t)
    && (forall i, j :: 0 <= i < j < |ids| ==> ids[i] != ids[j])
  }

  /** Every SD-JWT credential without an index has been given one of the new pairs, no two the
      same, every new pair is used, and the other credentials are as they came. */
  lemma EachItsOwn(creds: seq<Credential>, filled: seq<Credential>, newly: seq<Pair>)
    requires FilledBy(creds, filled, newly, |creds|) && DistinctPairs(newly)
    ensures |filled| == |creds|
    ensures forall i :: 0 <= i < |creds| ==>
              if creds[i].isSdJwt && creds[i].details == None
              then filled[i].isSdJwt && filled[i].details.Some? && filled[i].details.value in newly
              else filled[i] == creds[i]
    ensures forall i, j :: 0 <= i < j < |creds| && NewlyFilled(creds, i) && NewlyFilled(creds, j) ==>
              filled[i].details != filled[j].details
    ensures forall p :: p in newly ==> exists i :: 0 <= i < |creds| && NewlyFilled(creds, i) && filled[i].details == Some(p)
  {
    forall i, j | 0 <= i < j < |creds| && NewlyFilled(creds, i) && NewlyFilled(creds, j)
      ensures filled[i].details != filled[j].details
    {
      NeededGrows(creds, i, j);
    }
    forall p | p in newly
      ensures exists i :: 0 <= i < |creds| && NewlyFilled(creds, i) && filled[i].details == Some(p)
    {
      var k :| 0 <= k < |newly| && newly[k] == p;
      var i := NeededAt(creds, |creds|, k);
      assert filled[i].details == Some(newly[k]);
    }
  }

  predicate NewlyFilled(creds: seq<Credential>, i: nat)
    requires i < |creds|
  {
    creds[i].isSdJwt && creds[i].details == None
  }

  lemma {:induction false} NeededGrows(creds: seq<Credential>, i: nat, j: nat)
    requires i < j <= |creds| && NeedsIndex(creds[i])
    ensures Needed(creds, i) < Needed(creds, j)
  {
    if i + 1 < j {
      NeededGrows(creds, i, j - 1);
    }
  }

  lemma {:induction false} NeededAt(creds: seq<Credential>, n: nat, k: nat) returns (i: nat)
    requires n <= |creds| && k < Needed(creds, n)
    ensures i < n && NeedsIndex(creds[i]) && Needed(creds, i) == k
  {
    if Needed(creds, n - 1) > k {
      i := NeededAt(creds, n - 1, k);
    } else {
      i := n - 1;
    }
  }

  /** The allocation for credential n is asked for and fails. */
  predicate StopsAt(creds: seq<Credential>, n: nat, orgId: string, orgDid: string, fails: nat -> bool)
    requires n < |creds|
  {
    creds[n].isSdJwt && creds[n].details == None && (fails(n) || orgId == "" || orgDid == "")
  }

  /** The allocation loop. It stops at the first credential whose allocation fails: `fails` says
      which ones the database lets down. */
  method AllocateAll(service: StatusListAllocatorService, orgId: string, orgDid: string, creds: seq<Credential>,
                     freshIds: seq<string>, fails: nat -> bool)
    returns (filled: seq<Credential>, newly: seq<Pair>, failed: bool)
    requires TableOk(service.lists) && |freshIds| == |creds| && FreshIds(service.lists, freshIds)
    modifies service
    ensures TableOk(service.lists) && Grown(old(service.lists), service.lists, newly)
    ensures failed <==> exists n :: 0 <= n < |creds| && StopsAt(creds, n, orgId, orgDid, fails)
    ensures failed ==> exists n :: 0 <= n < |creds| && StopsAt(creds, n, orgId, orgDid, fails) && |newly| == Needed(creds, n)
                                   && forall m :: 0 <= m < n ==> !StopsAt(creds, m, orgId, orgDid, fails)
    ensures !failed ==> FilledBy(creds, filled, newly, |creds|)
  {
    hide FilledBy, Grown, TableOk, Allocates, FreshIds, Needed, DrawnFrom;
    filled, newly, failed := creds, [], false;
    assert FilledBy(creds, filled, newly, 0) && Grown(service.lists, service.lists, newly) by {
      NothingFilled(creds);
      NothingGrown(service.lists);
    }
    assert freshIds[0..] == freshIds;
    var n := 0;
    while n < |creds|
      invariant 0 <= n <= |creds| && !failed
      invariant TableOk(service.lists) && Grown(old(service.lists), service.lists, newly)
      invariant FreshIds(service.lists, freshIds[n..])
      invariant FilledBy(creds, filled, newly, n)
      invariant forall m :: 0 <= m < n ==> !StopsAt(creds, m, orgId, orgDid, fails)
    {
      ghost var before := service.lists;
      FillNext(creds, filled, newly, n, ("", 0));
      FilledLength(creds, filled, newly, n);
      FreshTail(before, before, freshIds[n..]);
      assert freshIds[n..][1..] == freshIds[n + 1..] && freshIds[n..][0] == freshIds[n];
      if NeedsIndex(filled[n]) {
        if fails(n) {
          assert StopsAt(creds, n, orgId, orgDid, fails);
          return filled, newly, true;
        }
        var r := service.Allocate(orgId, orgDid, None, freshIds[n]);
        if r.Err? {
          assert StopsAt(creds, n, orgId, orgDid, fails);
          return filled, newly, true;
        }
        var p: Pair := (r.value.0, r.value.1);
        Allocated(old(service.lists), before, service.lists, newly, orgId, orgDid, r.value.0, r.value.1);
        FreshTail(before, service.lists, freshIds[n..]);
        FillNext(creds, filled, newly, n, p);
        filled := filled[n := filled[n].(details := Some(p))];
        newly := newly + [p];
      }
      n := n + 1;
    }
  }

  lemma NothingFilled(creds: seq<Credential>)
    ensures FilledBy(creds, creds, [], 0)
  {
  }

  lemma NothingGrown(t: Table)
    ensures Grown(t, t, [])
  {
  }

  lemma FilledLength(creds: seq<Credential>, filled: seq<Credential>, newly: seq<Pair>, n: nat)
    requires n <= |creds| && FilledBy(creds, filled, newly, n)
    ensures |filled| == |creds| && |newly| == Needed(creds, n)
  {
  }

  lemma FreshTail(t: Table, t': Table, ids: seq<string>)
    requires ids != [] && FreshIds(t, ids)
    ensures ids[0] !in t
    ensures t'.Keys <= t.Keys + {ids[0]} ==> FreshIds(t', ids[1..])
  {
  }

  lemma Allocated(t0: Table, t1: Table, t2: Table, newly: seq<Pair>, orgId: string, orgDid: string, listId: string, index: nat)
    requires TableOk(t1) && Grown(t0, t1, newly)
    requires Allocates(t1, t2, orgId, orgDid, SizeOf(None), listId, index)
    ensures Grown(t0, t2, newly + [(listId, index as int)])
    ensures t2.Keys == t1.Keys + {listId}
  {
    hide Allocates;
    AllocationRefines(t1, t2, orgId, orgDid, SizeOf(None), listId, index);
    KeysAfter(t1, t2, orgId, orgDid, SizeOf(None), listId, index);
    GrownByOne(t0, t1, t2, newly, (listId, index as int));
  }

  lemma KeysAfter(t: Table, t': Table, orgId: string, issuerDid: string, size: nat, listId: string, index: nat)
    requires Allocates(t, t', orgId, issuerDid, size, listId, index)
    ensures t'.Keys == t.Keys + {listId}
  {
  }

  /** The outstanding pairs of t' are those of t without the released ones. */
  ghost predicate Shrunk(t: Table, t': Table, released: set<Pair>) {
    forall p :: Out(t', p) <==> Out(t, p) && p !in released
  }

  ghost function PairsOf(pairs: seq<Pair>): set<Pair> {
    set p | p in pairs
  }

  /** The rollback loop. A release that fails is logged and skipped; `fails` says which do. */
  method Rollback(service: StatusListAllocatorService, newly: seq<Pair>, fails: nat -> bool) returns (kept: seq<Pair>)
    requires TableOk(service.lists)
    modifies service
    ensures TableOk(service.lists)
    ensures forall p :: p in kept <==> exists n :: 0 <= n < |newly| && fails(n) && newly[n] == p
    ensures PairsOf(kept) <= PairsOf(newly)
    ensures DistinctPairs(newly) ==> Shrunk(old(service.lists), service.lists, PairsOf(newly) - PairsOf(kept))
  {
    hide Midway, Shrunk, PairsOf, DistinctPairs;
    kept := [];
    var n := 0;
    ghost var freed: set<Pair> := {};
    Unstarted(service.lists, newly, fails);
    while n < |newly|
      invariant 0 <= n <= |newly|
      invariant TableOk(service.lists) && Shrunk(old(service.lists), service.lists, freed)
      invariant Midway(newly, n, kept, freed, fails)
    {
      MidwayNext(newly, n, kept, freed, fails);
      if fails(n) {
        kept := kept + [newly[n]];
      } else {
        FreeNext(old(service.lists), service.lists, freed, newly[n]);
        var _ := service.Release(newly[n].0, newly[n].1);
        freed := freed + {newly[n]};
      }
      n := n + 1;
    }
    MidwayEnd(newly, kept, freed, fails);
  }

  /** The first n pairs are the freed and the kept ones, the kept being those that failed. */
  ghost predicate Midway(newly: seq<Pair>, n: nat, kept: seq<Pair>, freed: set<Pair>, fails: nat -> bool)
    requires n <= |newly|
  {
    && PairsOf(newly[..n]) == freed + PairsOf(kept)
    && (DistinctPairs(newly) ==> freed !! PairsOf(kept))
    && forall p :: p in kept <==> exists m :: 0 <= m < n && fails(m) && newly[m] == p
  }

  lemma Unstarted(t: Table, newly: seq<Pair>, fails: nat -> bool)
    ensures Midway(newly, 0, [], {}, fails) && Shrunk(t, t, {})
  {
  }

  lemma MidwayNext(newly: seq<Pair>, n: nat, kept: seq<Pair>, freed: set<Pair>, fails: nat -> bool)
    requires n < |newly| && Midway(newly, n, kept, freed, fails)
    ensures if fails(n) then Midway(newly, n + 1, kept + [newly[n]], freed, fails)
            else Midway(newly, n + 1, kept, freed + {newly[n]}, fails)
  {
    assert PairsOf(newly[..n + 1]) == PairsOf(newly[..n]) + {newly[n]};
    assert DistinctPairs(newly) ==> newly[n] !in PairsOf(newly[..n]);
    assert PairsOf(kept + [newly[n]]) == PairsOf(kept) + {newly[n]};
  }

  lemma FreeNext(t0: Table, t: Table, freed: set<Pair>, p: Pair)
    requires TableOk(t) && Shrunk(t0, t, freed)
    ensures Shrunk(t0, Released(t, p.0, p.1), freed + {p})
  {
    hide Released;
    ReleaseRefines(t, p.0, p.1);
  }

  lemma MidwayEnd(newly: seq<Pair>, kept: seq<Pair>, freed: set<Pair>, fails: nat -> bool)
    requires Midway(newly, |newly|, kept, freed, fails)
    ensures forall p :: p in kept <==> exists n :: 0 <= n < |newly| && fails(n) && newly[n] == p
    ensures PairsOf(kept) <= PairsOf(newly)
    ensures DistinctPairs(newly) ==> freed == PairsOf(newly) - PairsOf(kept)
  {
    assert newly[..|newly|] == newly;
  }

  /** A whole offer with nobody in between: it fails if an allocation fails, or later the agent
      or the saving does. Then every pair it took is free again, except those whose release
      failed; on success it holds exactly what it took. */
  method CreateOffer(service: StatusListAllocatorService, orgId: string, orgDid: string, creds: seq<Credential>,
                     freshIds: seq<string>, fails: nat -> bool, agentFails: bool, releaseFails: nat -> bool)
    returns (filled: seq<Credential>, failed: bool, kept: seq<Pair>)
    requires TableOk(service.lists) && |freshIds| == |creds| && FreshIds(service.lists, freshIds)
    modifies service
    ensures TableOk(service.lists)
    ensures failed <==> agentFails || exists n :: 0 <= n < |creds| && StopsAt(creds, n, orgId, orgDid, fails)
    ensures failed ==> forall p :: Out(service.lists, p) <==> Out(old(service.lists), p) || p in kept
    ensures failed && (forall n :: !releaseFails(n)) ==> kept == []
    ensures !failed ==> exists newly :: FilledBy(creds, filled, newly, |creds|) && Grown(old(service.lists), service.lists, newly)
  {
    ghost var before := service.lists;
    var newly: seq<Pair>;
    filled, newly, failed := AllocateAll(service, orgId, orgDid, creds, freshIds, fails);
    kept := [];
    failed := failed || agentFails;
    if failed {
      ghost var grown := service.lists;
      kept := Rollback(service, newly, releaseFails);
      GrownThenShrunk(before, grown, service.lists, newly, kept);
      if forall n :: !releaseFails(n) {
        assert forall p :: p !in kept;
        NothingKept(kept);
      }
    }
  }

  lemma NothingKept(kept: seq<Pair>)
    ensures kept == [] || kept[0] in kept
  {
  }

  lemma GrownThenShrunk(t0: Table, t1: Table, t2: Table, newly: seq<Pair>, kept: seq<Pair>)
    requires Grown(t0, t1, newly) && PairsOf(kept) <= PairsOf(newly)
    requires Shrunk(t1, t2, PairsOf(newly) - PairsOf(kept))
    ensures forall p :: Out(t2, p) <==> Out(t0, p) || p in kept
  {
    hide Out;
    forall p
      ensures Out(t2, p) <==> Out(t0, p) || p in kept
    {
      assert p in kept <==> p in PairsOf(kept);
      assert p in newly <==> p in PairsOf(newly);
    }
  }

  // ---------------------------------------------------------------------------------
  // Many offers at once

  datatype Phase = Allocating | RollingBack | Accepted

  /** `held` are the pairs the offer drew and has not released; `kept` those whose release failed. */
  datatype Offer = Offer(phase: Phase, newly: seq<Pair>, next: nat, kept: set<Pair>, held: set<Pair>)

  datatype System = System(lists: Table, offers: map<OfferId, Offer>)

  datatype Event =
    | Open(o: OfferId)
    | Draw(o: OfferId, orgId: string, orgDid: string, size: nat, listId: string, index: nat)
    | Accept(o: OfferId)
    | Fail(o: OfferId)
    | GiveBack(o: OfferId, ok: bool)

  predicate InPhase(s: System, o: OfferId, phase: Phase) {
    o in s.offers && s.offers[o].phase == phase
  }

  predicate CanGiveBack(s: System, o: OfferId) {
    InPhase(s, o, RollingBack) && s.offers[o].next < |s.offers[o].newly|
  }

  function AfterGiveBack(s: System, o: OfferId, ok: bool): System
    requires CanGiveBack(s, o)
  {
    var offer := s.offers[o];
    var p := offer.newly[offer.next];
    if ok then
      System(Released(s.lists, p.0, p.1), s.offers[o := offer.(next := offer.next + 1, held := offer.held - {p})])
    else
      s.(offers := s.offers[o := offer.(next := offer.next + 1, kept := offer.kept + {p})])
  }

  ghost predicate Next(s: System, e: Event, s': System) {
    match e
    case Open(o) => o !in s.offers && s' == s.(offers := s.offers[o := Offer(Allocating, [], 0, {}, {})])
    case Draw(o, orgId, orgDid, size, listId, index) =>
      && InPhase(s, o, Allocating) && size > 0
      && Allocates(s.lists, s'.lists, orgId, orgDid, size, listId, index)
      && s'.offers == s.offers[o := s.offers[o].(newly := s.offers[o].newly + [(listId, index)],
                                                 held := s.offers[o].held + {(listId, index)})]
    case Accept(o) => InPhase(s, o, Allocating) && s' == s.(offers := s.offers[o := s.offers[o].(phase := Accepted)])
    case Fail(o) => InPhase(s, o, Allocating) && s' == s.(offers := s.offers[o := s.offers[o].(phase := RollingBack)])
    case GiveBack(o, ok) => CanGiveBack(s, o) && s' == AfterGiveBack(s, o, ok)
  }

  ghost predicate IsRun(states: seq<System>, events: seq<Event>) {
    && |states| == |events| + 1
    && states[0].offers == map[] && TableOk(states[0].lists)
    && forall i :: 0 <= i < |events| ==> Next(states[i], events[i], states[i + 1])
  }

  /** What an offer holds is what it drew, minus the part of its rollback that succeeded. */
  ghost predicate OfferOk(o: Offer) {
    && DistinctPairs(o.newly) && o.next <= |o.newly|
    && (o.phase != RollingBack ==> o.next == 0)
    && o.held == PairsOf(o.newly[o.next..]) + o.kept
    && o.kept <= PairsOf(o.newly[..o.next])
  }

  ghost predicate Holds(s: System, o: OfferId, p: Pair) {
    o in s.offers && p in s.offers[o].held
  }

  ghost predicate Held(s: System, p: Pair) {
    exists o :: Holds(s, o, p)
  }

  /** The outstanding pairs are the initial ones and, apart from them, the held ones, each
      held by exactly one offer. */
  ghost predicate Shared(t0: Table, s: System) {
    && (forall p, o, q :: Holds(s, o, p) && Holds(s, q, p) ==> o == q)
    && (forall p :: Held(s, p) ==> !Out(t0, p))
    && (forall p :: Out(s.lists, p) <==> Out(t0, p) || Held(s, p))
  }

  ghost predicate Inv(t0: Table, s: System) {
    && TableOk(s.lists) && Shared(t0, s)
    && (forall o :: o in s.offers ==> OfferOk(s.offers[o]))
    && (forall o, p :: o in s.offers && p in s.offers[o].newly ==> !Out(t0, p))
  }

  lemma DrawOffer(offer: Offer, p: Pair)
    requires OfferOk(offer) && offer.phase == Allocating && p !in offer.held
    ensures OfferOk(offer.(newly := offer.newly + [p], held := offer.held + {p}))
  {
    assert offer.newly[0..] == offer.newly;
    assert (offer.newly + [p])[0..] == offer.newly + [p];
    assert PairsOf(offer.newly + [p]) == PairsOf(offer.newly) + {p};
    assert p !in offer.newly;
  }

  lemma GiveBackOffer(offer: Offer, ok: bool)
    requires OfferOk(offer) && offer.phase == RollingBack && offer.next < |offer.newly|
    ensures var p := offer.newly[offer.next];
            && p in offer.held
            && OfferOk(if ok then offer.(next := offer.next + 1, held := offer.held - {p})
                       else offer.(next := offer.next + 1, kept := offer.kept + {p}))
  {
    var n := offer.next;
    var p := offer.newly[n];
    assert PairsOf(offer.newly[n..]) == {p} + PairsOf(offer.newly[n + 1..]);
    assert PairsOf(offer.newly[..n + 1]) == PairsOf(offer.newly[..n]) + {p};
    assert p !in PairsOf(offer.newly[n + 1..]) && p !in PairsOf(offer.newly[..n]);
  }

  lemma DrawKeeps(t0: Table, s: System, e: Event, s': System)
    requires Inv(t0, s) && e.Draw? && Next(s, e, s')
    ensures Inv(t0, s')
  {
    hide Out, TableOk, OfferOk, Allocates;
    var p := (e.listId, e.index as int);
    AllocationRefines(s.lists, s'.lists, e.orgId, e.orgDid, e.size, e.listId, e.index);
    OutIs(s.lists, s'.lists, p);
    assert !Held(s, p);
    assert !Holds(s, e.o, p);
    DrawOffer(s.offers[e.o], p);
    forall q, o
      ensures Holds(s', o, q) <==> Holds(s, o, q) || (o == e.o && q == p)
    {
    }
    forall q
      ensures Held(s', q) <==> Held(s, q) || q == p
    {
      if Held(s, q) {
        var o :| Holds(s, o, q);
        assert Holds(s', o, q);
      }
      assert Holds(s', e.o, p);
    }
  }

  lemma OutIs(t: Table, t': Table, p: Pair)
    requires forall l, i :: Outstanding(t', l, i) <==> Outstanding(t, l, i) || (l == p.0 && i == p.1)
    requires !Outstanding(t, p.0, p.1)
    ensures !Out(t, p) && forall q :: Out(t', q) <==> Out(t, q) || q == p
  {
  }

  lemma OutWithout(t: Table, t': Table, p: Pair)
    requires forall l, i :: Outstanding(t', l, i) <==> Outstanding(t, l, i) && !(l == p.0 && i == p.1)
    ensures forall q :: Out(t', q) <==> Out(t, q) && q != p
  {
  }

  lemma GiveBackKeeps(t0: Table, s: System, o: OfferId, ok: bool)
    requires Inv(t0, s) && CanGiveBack(s, o)
    ensures Inv(t0, AfterGiveBack(s, o, ok))
  {
    hide Out, TableOk, OfferOk, Released;
    var s' := AfterGiveBack(s, o, ok);
    var p := s.offers[o].newly[s.offers[o].next];
    GiveBackOffer(s.offers[o], ok);
    assert Holds(s, o, p);
    ReleaseRefines(s.lists, p.0, p.1);
    OutWithout(s.lists, Released(s.lists, p.0, p.1), p);
    forall q, m
      ensures Holds(s', m, q) <==> Holds(s, m, q) && !(ok && m == o && q == p)
    {
    }
    forall q
      ensures Held(s', q) <==> Held(s, q) && !(ok && q == p)
    {
      if Held(s, q) {
        var m :| Holds(s, m, q);
        assert Holds(s', m, q) || (ok && q == p);
      }
    }
  }

  lemma OtherOffers(t0: Table, s: System, e: Event, s': System)
    requires Inv(t0, s) && Next(s, e, s') && (e.Open? || e.Accept? || e.Fail?)
    ensures forall o :: o in s'.offers ==> OfferOk(s'.offers[o])
    ensures forall o, p :: o in s'.offers && p in s'.offers[o].newly ==> !Out(t0, p)
  {
    hide Out, TableOk, Shared;
    forall o | o in s'.offers
      ensures OfferOk(s'.offers[o])
    {
      if e.Open? && o == e.o {
        assert PairsOf([]) == {};
      } else {
        assert OfferOk(s.offers[o]);
      }
    }
  }

  lemma OtherKeeps(t0: Table, s: System, e: Event, s': System)
    requires Inv(t0, s) && Next(s, e, s') && (e.Open? || e.Accept? || e.Fail?)
    ensures Inv(t0, s')
  {
    hide Out, TableOk, OfferOk;
    OtherOffers(t0, s, e, s');
    forall q, m
      ensures Holds(s', m, q) <==> Holds(s, m, q)
    {
    }
    forall q
      ensures Held(s', q) <==> Held(s, q)
    {
      if Held(s, q) {
        var m :| Holds(s, m, q);
        assert Holds(s', m, q);
      }
    }
  }

  lemma {:induction false} RunKeeps(states: seq<System>, events: seq<Event>, n: nat)
    requires IsRun(states, events) && n < |states|
    ensures Inv(states[0].lists, states[n])
  {
    hide Inv;
    if n == 0 {
      StartOk(states[0]);
    } else {
      RunKeeps(states, events, n - 1);
      var e := events[n - 1];
      if e.Draw? {
        DrawKeeps(states[0].lists, states[n - 1], e, states[n]);
      } else if e.GiveBack? {
        GiveBackKeeps(states[0].lists, states[n - 1], e.o, e.ok);
      } else {
        OtherKeeps(states[0].lists, states[n - 1], e, states[n]);
      }
    }
  }

  lemma StartOk(s: System)
    requires s.offers == map[] && TableOk(s.lists)
    ensures Inv(s.lists, s)
  {
  }

  /** However offers interleave, the pairs one offer drew are pairwise distinct and no two
      offers ever hold the same pair; pairs outstanding before the run are never touched. */
  lemma PairsExclusive(states: seq<System>, events: seq<Event>, n: nat, o: OfferId, q: OfferId)
    requires IsRun(states, events) && n < |states| && o in states[n].offers && q in states[n].offers
    ensures DistinctPairs(states[n].offers[o].newly)
    ensures o != q ==> states[n].offers[o].held !! states[n].offers[q].held
    ensures forall p :: Out(states[0].lists, p) ==> Out(states[n].lists, p)
  {
    RunKeeps(states, events, n);
    var s := states[n];
    if o != q {
      forall p | p in s.offers[o].held && p in s.offers[q].held
        ensures false
      {
        assert Holds(s, o, p) && Holds(s, q, p);
      }
    }
  }

  /** A failed offer whose rollback has finished has no net effect: it holds only pairs
      whose release failed, and any other pair it drew is outstanding only if another offer
      has drawn it since. */
  lemma FailedOfferHasNoEffect(states: seq<System>, events: seq<Event>, n: nat, o: OfferId)
    requires IsRun(states, events) && n < |states| && InPhase(states[n], o, RollingBack)
    requires states[n].offers[o].next == |states[n].offers[o].newly|
    ensures states[n].offers[o].held == states[n].offers[o].kept <= PairsOf(states[n].offers[o].newly)
    ensures forall p :: p in states[n].offers[o].newly && p !in states[n].offers[o].kept && Out(states[n].lists, p) ==>
              exists q :: q != o && Holds(states[n], q, p)
  {
    RunKeeps(states, events, n);
    var s, offer := states[n], states[n].offers[o];
    assert OfferOk(offer);
    assert offer.newly[offer.next..] == [] && offer.newly[..offer.next] == offer.newly;
    forall p | p in offer.newly && p !in offer.kept && Out(s.lists, p)
      ensures exists q :: q != o && Holds(s, q, p)
    {
      assert Held(s, p);
      var q :| Holds(s, q, p);
      assert q != o;
    }
  }
}
