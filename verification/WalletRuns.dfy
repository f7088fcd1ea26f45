/** Runs of creates, deletes and cap edits from a start state, with the faults they may meet,
    and building blocks for such runs. */
module WalletRuns {
  import opened WalletCapacity

  /** A store whose row was written although the create was told otherwise. */
  predicate LostStore(e: Event) {
    e.StoreSub? && e.effect && !e.ok
  }

  /** What may go wrong besides failures that are reported: a sub-wallet row is written but
      reported as failed, and two base wallets are registered for one endpoint at a time. */
  datatype Faults = Faults(lostStores: bool, sharedEndpoints: bool)

  const NO_FAULTS := Faults(false, false)

  ghost predicate Steps(s: System, e: Event, faults: Faults) {
    && Enabled(s, e) && StoredFresh(s, e)
    && (!KeepsEndpoints(s, e) ==> faults.sharedEndpoints) && (LostStore(e) ==> faults.lostStores)
  }

  ghost predicate Legal(s: System, events: seq<Event>, faults: Faults)
    decreases |events|, 0
  {
    events == [] ||
    var n := |events| - 1;
    Legal(s, events[..n], faults) && Steps(Final(s, events[..n], faults), events[n], faults)
  }

  ghost function Final(s: System, events: seq<Event>, faults: Faults): System
    requires Legal(s, events, faults)
    decreases |events|, 1
  {
    if events == [] then s
    else
      var n := |events| - 1;
      After(Final(s, events[..n], faults), events[n])
  }

  ghost predicate Reaches(s: System, t: System, faults: Faults) {
    exists events :: Legal(s, events, faults) && Final(s, events, faults) == t
  }

  /** No wallet has more sub-wallets than the largest cap it was ever configured with. */
  ghost predicate CapsKept(s: System) {
    forall b :: b in s.bases && b in s.highest ==> |Stored(s, b)| <= s.highest[b]
  }

  /** Nor do its sub-wallets and claimed slots exceed its counter. */
  ghost predicate SlotsKept(s: System) {
    forall b :: b in s.bases && b in s.highest ==> |Stored(s, b)| + |Booked(s, b)| <= s.bases[b].useCount <= s.highest[b]
  }

  lemma ReachesStart(s: System, faults: Faults)
    ensures Reaches(s, s, faults)
  {
    assert Legal(s, [], faults) && Final(s, [], faults) == s;
  }

  lemma ReachesNext(s: System, t: System, e: Event, faults: Faults)
    requires Reaches(s, t, faults) && Steps(t, e, faults)
    ensures Reaches(s, After(t, e), faults)
  {
    hide Enabled, KeepsEndpoints, StoredFresh, After;
    var events :| Legal(s, events, faults) && Final(s, events, faults) == t;
    var more := events + [e];
    assert more[..|more| - 1] == events;
    assert Legal(s, more, faults) && Final(s, more, faults) == After(t, e);
  }

  // ---------------------------------------------------------------------------------
  // Building runs. Between the building blocks every call has ended.

  ghost predicate Idle(s: System) {
    && s.highest.Keys == s.bases.Keys
    && forall c :: c in s.calls ==> s.calls[c] == Done
  }

  /** Wallets keep their endpoint, age and counter, and nothing else but caps and activity differs. */
  ghost predicate SameUse(s: System, t: System) {
    && t.subs == s.subs && t.calls == s.calls && t.lost == s.lost
    && t.bases.Keys == s.bases.Keys && t.highest.Keys == s.highest.Keys
    && (forall b :: b in s.bases ==> t.bases[b].endpoint == s.bases[b].endpoint
                                     && t.bases[b].created == s.bases[b].created && t.bases[b].useCount == s.bases[b].useCount)
  }

  lemma SameUseTrans(s: System, t: System, u: System)
    requires SameUse(s, t) && SameUse(t, u)
    ensures SameUse(s, u)
  {
  }

  lemma EditStep(s0: System, s: System, id: BaseId, isActive: bool, cap: int, faults: Faults) returns (t: System)
    requires Reaches(s0, s, faults) && Idle(s) && id in s.bases
    ensures Reaches(s0, t, faults) && Idle(t) && SameUse(s, t)
    ensures t.bases == s.bases[id := s.bases[id].(isActive := isActive, maxSubWallets := cap)]
    ensures t.highest[id] == if s.highest[id] >= cap then s.highest[id] else cap
  {
    hide Reaches, Available, Newest, DistinctEndpoints;
    t := After(s, EditBase(id, isActive, cap));
    ReachesNext(s0, s, EditBase(id, isActive, cap), faults);
  }

  /** All wallets but one are inactive. */
  ghost predicate Solo(s: System, n: BaseId) {
    && n in s.bases && s.bases[n].isActive && n in s.highest && s.bases[n].maxSubWallets == s.highest[n]
    && forall b :: b in s.bases && b != n ==> !s.bases[b].isActive
  }

  lemma {:induction false} Deactivate(s0: System, s: System, ids: set<BaseId>, faults: Faults) returns (t: System)
    requires Reaches(s0, s, faults) && Idle(s) && ids <= s.bases.Keys
    ensures Reaches(s0, t, faults) && Idle(t) && SameUse(s, t)
    ensures forall b :: b in ids ==> !t.bases[b].isActive
    decreases |ids|
  {
    hide Reaches, Idle;
    t := s;
    if ids != {} {
      var id :| id in ids;
      var u := Deactivate(s0, s, ids - {id}, faults);
      t := EditStep(s0, u, id, false, u.bases[id].maxSubWallets, faults);
      SameUseTrans(s, u, t);
    }
  }

  /** Administrators can leave one wallet active with room for at least one more tenant. */
  lemma MakeSolo(s0: System, s: System, n: BaseId, faults: Faults) returns (t: System)
    requires Reaches(s0, s, faults) && Idle(s) && n in s.bases
    ensures Reaches(s0, t, faults) && Idle(t) && SameUse(s, t) && Solo(t, n)
    ensures t.bases[n].useCount < t.highest[n]
  {
    hide Reaches;
    var u := Deactivate(s0, s, s.bases.Keys, faults);
    var enough := if u.highest[n] > u.bases[n].useCount then u.highest[n] else u.bases[n].useCount + 1;
    t := EditStep(s0, u, n, true, enough, faults);
    SameUseTrans(s, u, t);
  }

  lemma FreshCall(calls: map<CallId, Phase>) returns (c: CallId)
    ensures c !in calls
  {
    c := Above(calls.Keys);
  }

  lemma {:induction false} Above(s: set<CallId>) returns (c: CallId)
    ensures forall x :: x in s ==> x < c
    decreases |s|
  {
    c := 0;
    if s != {} {
      var x :| x in s;
      var d := Above(s - {x});
      c := if d > x then d else x + 1;
      assert forall y :: y in s ==> y == x || y in s - {x};
    }
  }

  lemma FreshSub(subs: map<SubId, Sub>) returns (x: SubId)
    ensures x !in subs
  {
    x := LongerThan(subs.Keys);
  }

  lemma {:induction false} LongerThan(s: set<SubId>) returns (x: SubId)
    ensures forall y :: y in s ==> |y| < |x|
    decreases |s|
  {
    x := "x";
    if s != {} {
      var y :| y in s;
      var z := LongerThan(s - {y});
      x := z + y + "x";
      assert forall w :: w in s ==> w == y || w in s - {y};
    }
  }

  /** The system after a create on wallet n took a slot. */
  function WithSlot(s: System, n: BaseId, c: CallId): System
    requires n in s.bases
  {
    s.(bases := AddUse(s.bases, n, 1), calls := s.calls[c := Claimed(n)])
  }

  lemma TakeSlot(s0: System, s: System, n: BaseId, c: CallId, faults: Faults)
    requires Reaches(s0, s, faults) && Idle(s) && Solo(s, n) && s.bases[n].useCount < s.highest[n] && c !in s.calls
    ensures Reaches(s0, WithSlot(s, n, c), faults)
  {
    hide Reaches, Newest, DistinctEndpoints, Idle;
    var read := ReadForCreate(c, n);
    ReachesNext(s0, s, read, faults);
    var t := After(s, read);
    ReachesNext(s0, t, ClaimSlot(c), faults);
    assert After(t, ClaimSlot(c)) == WithSlot(s, n, c);
  }

  /** The system after a create on n stored a sub-wallet x, in a known or an unknown way. */
  function WithSub(s: System, n: BaseId, c: CallId, x: SubId, ok: bool): System
    requires n in s.bases
  {
    s.(bases := if ok then AddUse(s.bases, n, 1) else s.bases,
       subs := s.subs[x := Sub(s.bases[n].endpoint, n)],
       calls := s.calls[c := Done],
       lost := if ok then s.lost else s.lost[n := Lost(s, n) + 1])
  }

  /** A create on the only active wallet. Without the reply it gives its slot back. */
  lemma Create(s0: System, s: System, n: BaseId, c: CallId, x: SubId, ok: bool, faults: Faults)
    requires Reaches(s0, s, faults) && Idle(s) && Solo(s, n) && 0 <= s.bases[n].useCount < s.highest[n]
    requires c !in s.calls && x !in s.subs && (faults.lostStores || ok)
    ensures Reaches(s0, WithSub(s, n, c, x, ok), faults) && Idle(WithSub(s, n, c, x, ok))
  {
    hide Reaches, Solo, Steps, After, Idle;
    assert n in s.bases by { SoloExists(s, n); }
    TakeSlot(s0, s, n, c, faults);
    var t := WithSlot(s, n, c);
    var store := StoreSub(c, x, true, ok);
    StoreSteps(s, n, c, x, ok, faults);
    ReachesNext(s0, t, store, faults);
    StillIdle(s, n, c, x, ok);
    if !ok {
      GiveBackLost(s0, s, n, c, x, faults);
    }
  }

  lemma SoloExists(s: System, n: BaseId)
    requires Solo(s, n)
    ensures n in s.bases
  {
  }

  lemma StillIdle(s: System, n: BaseId, c: CallId, x: SubId, ok: bool)
    requires Idle(s) && n in s.bases
    ensures Idle(WithSub(s, n, c, x, ok))
  {
  }

  lemma StoreSteps(s: System, n: BaseId, c: CallId, x: SubId, ok: bool, faults: Faults)
    requires Idle(s) && n in s.bases && c !in s.calls && x !in s.subs && (faults.lostStores || ok)
    ensures Steps(WithSlot(s, n, c), StoreSub(c, x, true, ok), faults)
    ensures var t := After(WithSlot(s, n, c), StoreSub(c, x, true, ok));
            t == if ok then WithSub(s, n, c, x, true) else AfterStore(WithSlot(s, n, c), c, x, true, false)
  {
    hide Available, Newest, DistinctEndpoints;
  }

  lemma GiveBackLost(s0: System, s: System, n: BaseId, c: CallId, x: SubId, faults: Faults)
    requires n in s.bases && 0 <= s.bases[n].useCount && c !in s.calls && x !in s.subs
    requires Reaches(s0, AfterStore(WithSlot(s, n, c), c, x, true, false), faults)
    ensures Reaches(s0, WithSub(s, n, c, x, false), faults)
  {
    hide Reaches, Newest, Available, DistinctEndpoints;
    var t := AfterStore(WithSlot(s, n, c), c, x, true, false);
    ReachesNext(s0, t, GiveBack(c, true), faults);
    assert After(t, GiveBack(c, true)).bases == s.bases;
    assert After(t, GiveBack(c, true)) == WithSub(s, n, c, x, false);
  }

  lemma SubCounted(s: System, n: BaseId, c: CallId, x: SubId, ok: bool, b: BaseId)
    requires n in s.bases && x !in s.subs
    ensures |Stored(WithSub(s, n, c, x, ok), b)| == |Stored(s, b)| + if b == n then 1 else 0
  {
    StoredAdd(s, WithSub(s, n, c, x, ok), x, Sub(s.bases[n].endpoint, n), b);
  }

  /** Once a wallet has more sub-wallets than its counter says, creates fill it above its cap. */
  lemma {:induction false} FillUp(s0: System, s: System, n: BaseId, faults: Faults) returns (t: System)
    requires Reaches(s0, s, faults) && Idle(s) && Solo(s, n)
    requires 0 <= s.bases[n].useCount < |Stored(s, n)|
    ensures Reaches(s0, t, faults) && !CapsKept(t)
    decreases if s.highest[n] > s.bases[n].useCount then s.highest[n] - s.bases[n].useCount else 0
  {
    hide Reaches, Idle, Stored;
    if s.highest[n] <= s.bases[n].useCount {
      t := s;
    } else {
      var c := FreshCall(s.calls);
      var x := FreshSub(s.subs);
      Create(s0, s, n, c, x, true, faults);
      SubCounted(s, n, c, x, true, n);
      t := FillUp(s0, WithSub(s, n, c, x, true), n, faults);
    }
  }
}
