/** When base wallets stay within their caps, exactly. From a start state, every run keeps
    every wallet's stored sub-wallets within the largest cap it was ever configured with if and
    only if no two wallets share an endpoint, none is added that does, and no store succeeds
    without its create knowing. */
module WalletLimits {
  import opened WalletCapacity
  import opened WalletRuns

  // ---------------------------------------------------------------------------------
  // Distinct endpoints and heard stores suffice

  lemma {:induction false} HonestRun(s: System, events: seq<Event>)
    requires IsStart(s) && DistinctEndpoints(s.bases) && Legal(s, events, NO_FAULTS)
    ensures var t := Final(s, events, NO_FAULTS); Inv(t) && t.lost == map[]
  {
    hide Inv, After, Enabled, KeepsEndpoints, StoredFresh, DistinctEndpoints;
    if events == [] {
      StartOk(s);
    } else {
      var n := |events| - 1;
      HonestRun(s, events[..n]);
      var t := Final(s, events[..n], NO_FAULTS);
      StepKeeps(t, events[n]);
      NothingLost(t, events[n]);
    }
  }

  lemma NothingLost(t: System, e: Event)
    requires Enabled(t, e) && !LostStore(e)
    ensures After(t, e).lost == t.lost
  {
    hide Claim, Decrement, Available, Newest;
  }

  lemma HonestSlots(s: System, t: System)
    requires IsStart(s) && DistinctEndpoints(s.bases) && Reaches(s, t, NO_FAULTS)
    ensures SlotsKept(t)
  {
    hide Legal, Final, IsStart, DistinctEndpoints, Consistent;
    var events :| Legal(s, events, NO_FAULTS) && Final(s, events, NO_FAULTS) == t;
    HonestRun(s, events);
    forall b | b in t.bases && b in t.highest
      ensures |Stored(t, b)| + |Booked(t, b)| <= t.bases[b].useCount <= t.highest[b]
    {
      assert Within(t, b);
    }
  }

  // ---------------------------------------------------------------------------------
  // A shared endpoint breaks the cap

  lemma {:induction false} SomeNewest(bases: Bases, endpoint: string, ids: set<BaseId>) returns (n: BaseId)
    requires ids <= bases.Keys && ids != {} && forall b :: b in ids ==> bases[b].endpoint == endpoint
    ensures n in ids && forall b :: b in ids ==> bases[b].created <= bases[n].created
    decreases |ids|
  {
    n :| n in ids;
    if ids != {n} {
      var m := SomeNewest(bases, endpoint, ids - {n});
      if bases[m].created > bases[n].created {
        n := m;
      }
    }
  }

  lemma NewestOf(bases: Bases, endpoint: string, a: BaseId) returns (n: BaseId)
    requires a in bases && bases[a].endpoint == endpoint
    ensures Newest(bases, endpoint, n)
  {
    var ids := set b | b in bases && bases[b].endpoint == endpoint;
    assert a in ids;
    n := SomeNewest(bases, endpoint, ids);
  }

  /** The system after the sub-wallet x was deleted and the delete booked on wallet n. */
  function WithoutSub(s: System, n: BaseId, c: CallId, x: SubId): System {
    s.(bases := Decrement(s.bases, n), subs := s.subs - {x}, calls := s.calls[c := Done])
  }

  lemma Delete(s0: System, s: System, n: BaseId, c: CallId, x: SubId, faults: Faults)
    requires Reaches(s0, s, faults) && Idle(s) && c !in s.calls && x in s.subs
    requires Newest(s.bases, s.subs[x].endpoint, n)
    ensures Reaches(s0, WithoutSub(s, n, c, x), faults) && Idle(WithoutSub(s, n, c, x))
  {
    hide Reaches, Available, DistinctEndpoints;
    ReachesNext(s0, s, ReadForDelete(c, x, n), faults);
    var t := After(s, ReadForDelete(c, x, n));
    ReachesNext(s0, t, DeleteRow(c), faults);
    var u := After(t, DeleteRow(c));
    ReachesNext(s0, u, GiveBack(c, true), faults);
    assert After(u, GiveBack(c, true)) == WithoutSub(s, n, c, x);
  }

  /** Puts one sub-wallet on wallet n, having made it the only active one. */
  lemma PlaceOn(s0: System, s: System, n: BaseId, faults: Faults) returns (t: System, x: SubId)
    requires Reaches(s0, s, faults) && Idle(s) && n in s.bases && s.bases[n].useCount >= 0
    ensures Reaches(s0, t, faults) && Idle(t) && Solo(t, n)
    ensures t.bases.Keys == s.bases.Keys && x !in s.subs && t.subs == s.subs[x := Sub(s.bases[n].endpoint, n)]
    ensures forall b :: b in s.bases ==>
              && t.bases[b].endpoint == s.bases[b].endpoint && t.bases[b].created == s.bases[b].created
              && t.bases[b].useCount == s.bases[b].useCount + (if b == n then 1 else 0)
  {
    hide Reaches, Idle;
    var u := MakeSolo(s0, s, n, faults);
    var c := FreshCall(u.calls);
    x := FreshSub(u.subs);
    Create(s0, u, n, c, x, true, faults);
    t := WithSub(u, n, c, x, true);
  }

  lemma SameNewest(bases: Bases, more: Bases, endpoint: string, n: BaseId)
    requires Newest(bases, endpoint, n) && more.Keys == bases.Keys
    requires forall b :: b in bases ==> more[b].endpoint == bases[b].endpoint && more[b].created == bases[b].created
    ensures Newest(more, endpoint, n)
  {
  }

  lemma PlacedCount(s: System, t: System, x: SubId, row: Sub, b: BaseId)
    requires x !in s.subs && t.subs == s.subs[x := row]
    ensures |Stored(t, b)| == |Stored(s, b)| + if row.placedOn == b then 1 else 0
  {
    StoredAdd(s, t, x, row, b);
  }

  /** All calls have ended, and every counter is the number of stored sub-wallets. */
  ghost predicate Balanced(s: System) {
    && Idle(s)
    && (forall b :: b in s.bases ==> s.bases[b].useCount == |Stored(s, b)|)
    && forall x :: x in s.subs ==> s.subs[x].placedOn in s.bases
  }

  lemma StartBalanced(s0: System, faults: Faults)
    requires IsStart(s0)
    ensures Reaches(s0, s0, faults) && Balanced(s0)
  {
    hide Stored;
    ReachesStart(s0, faults);
  }

  lemma Counts(s: System, b: BaseId)
    requires Balanced(s) && b in s.bases
    ensures Idle(s) && s.bases[b].useCount == |Stored(s, b)| >= 0
  {
  }

  /** Deleting a tenant of the older wallet lowers the newer one's counter. */
  lemma SharedOverfills(s0: System, s: System, o: BaseId, n: BaseId, faults: Faults) returns (t: System)
    requires Reaches(s0, s, faults) && Balanced(s)
    requires o in s.bases && n in s.bases && o != n && Newest(s.bases, s.bases[o].endpoint, n)
    ensures Reaches(s0, t, faults) && !CapsKept(t)
  {
    hide Reaches, Idle, Newest, CapsKept, Stored, Solo, Balanced;
    Counts(s, o);
    Counts(s, n);
    var s1, x := PlaceOn(s0, s, o, faults);
    PlacedCount(s, s1, x, s1.subs[x], n);
    var s2, y := PlaceOn(s0, s1, n, faults);
    PlacedCount(s1, s2, y, s2.subs[y], n);
    SameNewest(s.bases, s2.bases, s.bases[o].endpoint, n);
    var c := FreshCall(s2.calls);
    Delete(s0, s2, n, c, x, faults);
    var s3 := WithoutSub(s2, n, c, x);
    StoredRemove(s2, s3, x, n);
    StillSolo(s2, n, c, x);
    t := FillUp(s0, s3, n, faults);
  }

  lemma StillSolo(s: System, n: BaseId, c: CallId, x: SubId)
    requires Solo(s, n) && s.bases[n].useCount > 0
    ensures var t := WithoutSub(s, n, c, x); Solo(t, n) && t.bases[n].useCount == s.bases[n].useCount - 1
  {
  }

  /** Two wallets with one endpoint, whichever is the newer. */
  lemma PairOverfills(s0: System, s: System, one: BaseId, two: BaseId, faults: Faults) returns (t: System)
    requires Reaches(s0, s, faults) && Balanced(s)
    requires one in s.bases && two in s.bases && one != two && s.bases[one].endpoint == s.bases[two].endpoint
    ensures Reaches(s0, t, faults) && !CapsKept(t)
  {
    hide Reaches, CapsKept, Balanced;
    var n := NewestOf(s.bases, s.bases[one].endpoint, one);
    t := SharedOverfills(s0, s, if one == n then two else one, n, faults);
  }

  // ---------------------------------------------------------------------------------
  // A second registration of an endpoint breaks the cap

  lemma Register(s0: System, s: System, id: BaseId, row: Base, faults: Faults) returns (t: System)
    requires Reaches(s0, s, faults) && Balanced(s) && id !in s.bases
    requires row.useCount == 0 && row.maxSubWallets >= 0
    requires !faults.sharedEndpoints ==> forall b :: b in s.bases ==> s.bases[b].endpoint != row.endpoint
    ensures Reaches(s0, t, faults) && Balanced(t) && t.bases == s.bases[id := row]
  {
    hide Reaches, Available, Newest, DistinctEndpoints;
    var e := AddBase(id, row);
    ReachesNext(s0, s, e, faults);
    t := After(s, e);
    forall b | b in t.bases
      ensures t.bases[b].useCount == |Stored(t, b)|
    {
      SameStored(s, t, b);
      if b == id {
        assert Stored(s, b) == {};
      }
    }
  }

  /** A start state without base wallets can get one. */
  lemma SomeBase(s0: System, faults: Faults) returns (s: System, n: BaseId)
    requires IsStart(s0)
    ensures Reaches(s0, s, faults) && Balanced(s) && n in s.bases
  {
    hide Reaches, Balanced, IsStart;
    StartBalanced(s0, faults);
    if s0.bases == map[] {
      n := "b";
      s := Register(s0, s0, n, Base("e", 0, true, 0, 1), faults);
    } else {
      s := s0;
      n :| n in s0.bases;
    }
  }

  lemma SharingBreaksCaps(s0: System, faults: Faults) returns (t: System)
    requires IsStart(s0) && faults.sharedEndpoints
    ensures Reaches(s0, t, faults) && !CapsKept(t)
  {
    hide Reaches, CapsKept, Balanced, IsStart;
    var s, a := SomeBase(s0, faults);
    var id := LongerThan(s.bases.Keys);
    var u := Register(s0, s, id, Base(s.bases[a].endpoint, 0, true, 0, 1), faults);
    t := PairOverfills(s0, u, a, id, faults);
  }

  // ---------------------------------------------------------------------------------
  // A lost store breaks the cap

  /** A stored tenant whose create gave the slot back is not counted. */
  lemma LossBreaksCaps(s0: System, faults: Faults) returns (t: System)
    requires IsStart(s0) && faults.lostStores
    ensures Reaches(s0, t, faults) && !CapsKept(t)
  {
    hide Reaches, Idle, CapsKept, Stored, Balanced, IsStart;
    var s, n := SomeBase(s0, faults);
    Counts(s, n);
    var u := MakeSolo(s0, s, n, faults);
    var c := FreshCall(u.calls);
    var x := FreshSub(u.subs);
    SameStored(s, u, n);
    Create(s0, u, n, c, x, false, faults);
    SubCounted(u, n, c, x, false, n);
    t := FillUp(s0, WithSub(u, n, c, x, false), n, faults);
  }

  // ---------------------------------------------------------------------------------

  lemma SomeRunBreaks(s0: System, faults: Faults) returns (t: System)
    requires IsStart(s0) && !(DistinctEndpoints(s0.bases) && faults == NO_FAULTS)
    ensures Reaches(s0, t, faults) && !CapsKept(t)
  {
    hide Reaches, CapsKept, IsStart, Balanced;
    if faults.lostStores {
      t := LossBreaksCaps(s0, faults);
    } else if faults.sharedEndpoints {
      t := SharingBreaksCaps(s0, faults);
    } else {
      var a, b :| a in s0.bases && b in s0.bases && s0.bases[a].endpoint == s0.bases[b].endpoint && a != b;
      StartBalanced(s0, faults);
      t := PairOverfills(s0, s0, a, b, faults);
    }
  }

  lemma SlotsWithinCaps(t: System)
    requires SlotsKept(t)
    ensures CapsKept(t)
  {
    hide Stored, Booked;
  }

  ghost predicate AlwaysKeepsCaps(s0: System, faults: Faults) {
    forall t :: Reaches(s0, t, faults) ==> CapsKept(t)
  }

  ghost predicate AlwaysKeepsSlots(s0: System, faults: Faults) {
    forall t :: Reaches(s0, t, faults) ==> SlotsKept(t)
  }

  /** Every run keeps every wallet within its caps, and its slots within its counter, exactly
      if the start state's endpoints are distinct and neither fault can occur. */
  lemma CapsKeptIff(s0: System, faults: Faults)
    requires IsStart(s0)
    ensures AlwaysKeepsCaps(s0, faults) <==> DistinctEndpoints(s0.bases) && faults == NO_FAULTS
    ensures AlwaysKeepsSlots(s0, faults) <==> DistinctEndpoints(s0.bases) && faults == NO_FAULTS
  {
    hide Reaches, CapsKept, SlotsKept, IsStart;
    if DistinctEndpoints(s0.bases) && faults == NO_FAULTS {
      forall t | Reaches(s0, t, faults)
        ensures SlotsKept(t) && CapsKept(t)
      {
        HonestSlots(s0, t);
        SlotsWithinCaps(t);
      }
    } else {
      var t := SomeRunBreaks(s0, faults);
      if SlotsKept(t) {
        SlotsWithinCaps(t);
      }
    }
  }
}
