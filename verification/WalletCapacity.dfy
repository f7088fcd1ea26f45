/** Base-wallet capacity: creates claim a slot before any remote work and give it back on
    failure, deletes give one back after the row is gone, and administrators edit caps,
    all concurrently. Each database statement is one atomic step. */
module WalletCapacity {
  import opened Outcomes

  type BaseId = string
  type SubId = string
  type CallId = nat

  datatype Base = Base(endpoint: string, created: nat, isActive: bool, useCount: int, maxSubWallets: int)

  /** A sub-wallet row stores only the endpoint; `placedOn` records which base made room for it. */
  datatype Sub = Sub(endpoint: string, placedOn: BaseId)

  type Bases = map<BaseId, Base>

  predicate HasRoom(b: Base) {
    b.isActive && b.useCount < b.maxSubWallets
  }

  /** The oldest active base wallet with room, which getAvailableBaseWallet picks. */
  ghost predicate Available(bases: Bases, id: BaseId) {
    && id in bases && HasRoom(bases[id])
    && forall o :: o in bases && HasRoom(bases[o]) ==> bases[id].created <= bases[o].created
  }

  /** The newest base wallet of an endpoint, which deletes are booked on. */
  ghost predicate Newest(bases: Bases, endpoint: string, id: BaseId) {
    && id in bases && bases[id].endpoint == endpoint
    && forall o :: o in bases && bases[o].endpoint == endpoint ==> bases[o].created <= bases[id].created
  }

  function AddUse(bases: Bases, id: BaseId, n: int): Bases {
    if id in bases then bases[id := bases[id].(useCount := bases[id].useCount + n)] else bases
  }

  /** The conditional update behind a claim: the new rows and whether one row matched. */
  function Claim(bases: Bases, id: BaseId, cap: int): (Bases, bool) {
    if id in bases && bases[id].useCount < cap then (AddUse(bases, id, 1), true) else (bases, false)
  }

  /** The conditional update behind a release; it never goes below zero. */
  function Decrement(bases: Bases, id: BaseId): Bases {
    if id in bases && bases[id].useCount > 0 then AddUse(bases, id, -1) else bases
  }

  class CloudWalletRepository {
    var bases: Bases
    var subs: map<SubId, Sub>

    method ClaimBaseWalletCapacity(id: BaseId, cap: int) returns (claimed: bool)
      modifies this`bases
      ensures (bases, claimed) == Claim(old(bases), id, cap)
      ensures claimed <==> id in old(bases) && old(bases)[id].useCount < cap
      ensures claimed ==> bases[id].useCount == old(bases)[id].useCount + 1 <= cap && bases - {id} == old(bases) - {id}
    {
      var count := 0;
      if id in bases && bases[id].useCount < cap {
        bases := bases[id := bases[id].(useCount := bases[id].useCount + 1)];
        count := 1;
      }
      claimed := 1 == count;
    }

    method DecrementBaseWalletUseCount(id: BaseId)
      modifies this`bases
      ensures bases == Decrement(old(bases), id)
      ensures if id in old(bases) && old(bases)[id].useCount > 0
              then bases == old(bases)[id := old(bases)[id].(useCount := old(bases)[id].useCount - 1)]
              else bases == old(bases)
    {
      if id in bases && bases[id].useCount > 0 {
        bases := bases[id := bases[id].(useCount := bases[id].useCount - 1)];
      }
    }

    /** `rows` is the query result: all active base wallets, oldest first. */
    method GetAvailableBaseWallet(rows: seq<BaseId>) returns (found: Option<BaseId>)
      requires forall id :: id in rows <==> id in bases && bases[id].isActive
      requires forall i, j :: 0 <= i < j < |rows| ==> bases[rows[i]].created <= bases[rows[j]].created
      ensures found.Some? ==> Available(bases, found.value)
      ensures found.Some? ==>
                var b := found.value;
                && b in bases && bases[b].isActive && bases[b].useCount < bases[b].maxSubWallets
                && forall o :: o in bases && bases[o].isActive && bases[o].useCount < bases[o].maxSubWallets ==>
                     bases[b].created <= bases[o].created
      ensures found.None? ==> forall id :: id in bases ==> !HasRoom(bases[id])
    {
      var i := 0;
      while i < |rows|
        invariant 0 <= i <= |rows|
        invariant forall j :: 0 <= j < i ==> !HasRoom(bases[rows[j]])
      {
        if bases[rows[i]].useCount < bases[rows[i]].maxSubWallets {
          assert rows[i] in rows;
          return Some(rows[i]);
        }
        i := i + 1;
      }
      found := None;
    }

    /** One create with nobody in between. The cap is the one read with the wallet. Any step
        after the claim may fail: `written` says whether the row was stored, `heard` whether the
        create learned so, and `releaseLost` whether giving the slot back fails. */
    method CreateCloudWallet(rows: seq<BaseId>, newSub: SubId, written: bool, heard: bool, releaseLost: bool) returns (created: bool)
      requires forall id :: id in rows <==> id in bases && bases[id].isActive
      requires forall i, j :: 0 <= i < j < |rows| ==> bases[rows[i]].created <= bases[rows[j]].created
      requires newSub !in subs && (forall id :: id in bases ==> bases[id].useCount >= 0) && (heard ==> written)
      modifies this
      ensures (forall id :: id in old(bases) ==> !HasRoom(old(bases)[id])) ==>
                !created && bases == old(bases) && subs == old(subs)
      ensures (exists id :: id in old(bases) && HasRoom(old(bases)[id])) ==>
                created == heard &&
                exists id :: && Available(old(bases), id)
                             && subs == (if written then old(subs)[newSub := Sub(old(bases)[id].endpoint, id)] else old(subs))
                             && bases == (if heard || releaseLost
                                          then old(bases)[id := old(bases)[id].(useCount := old(bases)[id].useCount + 1)]
                                          else old(bases))
    {
      var capacityClaimed := false;
      var claimedBaseWalletId: Option<BaseId> := None;
      created := false;
      var found := GetAvailableBaseWallet(rows);
      if found.None? {
        return;
      }
      var wallet := bases[found.value];
      var claimed := ClaimBaseWalletCapacity(found.value, wallet.maxSubWallets);
      if !claimed {
        return;
      }
      capacityClaimed, claimedBaseWalletId := true, Some(found.value);
      if written {
        subs := subs[newSub := Sub(wallet.endpoint, found.value)];
        if heard {
          return true;
        }
      }
      if capacityClaimed && claimedBaseWalletId.Some? {
        if !releaseLost {
          DecrementBaseWalletUseCount(claimedBaseWalletId.value);
        }
      }
    }
  }

  // ---------------------------------------------------------------------------------
  // All interleavings

  datatype Phase =
    | Chosen(base: BaseId, cap: int)        // create: a wallet was read as having room
    | Claimed(base: BaseId)                 // create: the slot is taken, remote work under way
    | Releasing(base: BaseId)               // create: failed, the slot is about to be given back
    | Resolved(sub: SubId, base: BaseId)    // delete: the row and its base wallet were read
    | Owing(base: BaseId)                   // delete: the row is gone, the counter not yet lowered
    | Done

  /** `highest` remembers the largest cap each base wallet was ever configured with, `lost`
      the sub-wallets of each that were stored without the create learning it. */
  datatype System = System(bases: Bases, subs: map<SubId, Sub>, calls: map<CallId, Phase>,
                           highest: map<BaseId, int>, lost: map<BaseId, nat>)

  function Lost(s: System, b: BaseId): nat {
    if b in s.lost then s.lost[b] else 0
  }

  /** In a store, `effect` says whether the row was written and `ok` whether the create
      heard of it; a create that did not hear of it gives its slot back. */
  datatype Event =
    | ReadForCreate(c: CallId, found: BaseId)
    | ClaimSlot(c: CallId)
    | Fail(c: CallId)
    | StoreSub(c: CallId, sub: SubId, effect: bool, ok: bool)
    | GiveBack(c: CallId, effect: bool)
    | ReadForDelete(c: CallId, sub: SubId, found: BaseId)
    | DeleteRow(c: CallId)
    | Crash(c: CallId)
    | EditBase(id: BaseId, isActive: bool, maxSubWallets: int)
    | AddBase(id: BaseId, row: Base)

  ghost predicate Enabled(s: System, e: Event) {
    match e
    case ReadForCreate(c, found) => c !in s.calls && Available(s.bases, found)
    case ClaimSlot(c) => c in s.calls && s.calls[c].Chosen?
    case Fail(c) => c in s.calls && s.calls[c].Claimed?
    case StoreSub(c, sub, effect, ok) =>
      c in s.calls && s.calls[c].Claimed? && s.calls[c].base in s.bases && sub !in s.subs && (ok ==> effect)
    case GiveBack(c, _) => c in s.calls && (s.calls[c].Releasing? || s.calls[c].Owing?)
    case ReadForDelete(c, sub, found) => c !in s.calls && sub in s.subs && Newest(s.bases, s.subs[sub].endpoint, found)
    case DeleteRow(c) => c in s.calls && s.calls[c].Resolved?
    case Crash(c) => c in s.calls
    case EditBase(id, _, _) => id in s.bases
    case AddBase(id, row) => id !in s.bases && row.useCount == 0 <= row.maxSubWallets
  }

  function AfterClaim(s: System, c: CallId): System
    requires c in s.calls && s.calls[c].Chosen?
  {
    var (bases, claimed) := Claim(s.bases, s.calls[c].base, s.calls[c].cap);
    s.(bases := bases, calls := s.calls[c := if claimed then Claimed(s.calls[c].base) else Done])
  }

  function AfterGiveBack(s: System, c: CallId, effect: bool): System
    requires c in s.calls && (s.calls[c].Releasing? || s.calls[c].Owing?)
  {
    s.(bases := if effect then Decrement(s.bases, s.calls[c].base) else s.bases, calls := s.calls[c := Done])
  }

  function AfterStore(s: System, c: CallId, sub: SubId, effect: bool, ok: bool): System
    requires c in s.calls && s.calls[c].Claimed? && s.calls[c].base in s.bases
  {
    var base := s.calls[c].base;
    s.(subs := if effect then s.subs[sub := Sub(s.bases[base].endpoint, base)] else s.subs,
       calls := s.calls[c := if ok then Done else Releasing(base)],
       lost := if effect && !ok then s.lost[base := Lost(s, base) + 1] else s.lost)
  }

  /** Deleting a row that another delete has removed fails and lowers nothing. */
  function AfterDelete(s: System, c: CallId): System
    requires c in s.calls && s.calls[c].Resolved?
  {
    var Resolved(sub, base) := s.calls[c];
    if sub in s.subs then s.(subs := s.subs - {sub}, calls := s.calls[c := Owing(base)])
    else s.(calls := s.calls[c := Done])
  }

  function AfterEdit(s: System, id: BaseId, isActive: bool, cap: int): System
    requires id in s.bases
  {
    s.(bases := s.bases[id := s.bases[id].(isActive := isActive, maxSubWallets := cap)],
       highest := s.highest[id := if id in s.highest && s.highest[id] >= cap then s.highest[id] else cap])
  }

  ghost function After(s: System, e: Event): System
    requires Enabled(s, e)
  {
    match e
    case ReadForCreate(c, found) => s.(calls := s.calls[c := Chosen(found, s.bases[found].maxSubWallets)])
    case ClaimSlot(c) => AfterClaim(s, c)
    case Fail(c) => s.(calls := s.calls[c := Releasing(s.calls[c].base)])
    case StoreSub(c, sub, effect, ok) => AfterStore(s, c, sub, effect, ok)
    case GiveBack(c, effect) => AfterGiveBack(s, c, effect)
    case ReadForDelete(c, sub, found) => s.(calls := s.calls[c := Resolved(sub, found)])
    case DeleteRow(c) => AfterDelete(s, c)
    case Crash(c) => s.(calls := s.calls[c := Done])
    case EditBase(id, isActive, cap) => AfterEdit(s, id, isActive, cap)
    case AddBase(id, row) => s.(bases := s.bases[id := row], highest := s.highest[id := row.maxSubWallets])
  }

  ghost predicate DistinctEndpoints(bases: Bases) {
    forall a, b :: a in bases && b in bases && bases[a].endpoint == bases[b].endpoint ==> a == b
  }

  ghost function Stored(s: System, b: BaseId): set<SubId> {
    set x | x in s.subs && s.subs[x].placedOn == b
  }

  predicate HoldsSlot(phase: Phase, b: BaseId) {
    phase == Claimed(b) || phase == Releasing(b) || phase == Owing(b)
  }

  /** Calls that have a slot of b booked: creates in flight, and deletes yet to lower the counter. */
  ghost function Booked(s: System, b: BaseId): set<CallId> {
    set c | c in s.calls && HoldsSlot(s.calls[c], b)
  }

  /** Initially nothing runs and every counter equals its number of stored sub-wallets. */
  ghost predicate IsStart(s: System) {
    && s.calls == map[] && s.lost == map[] && s.highest.Keys == s.bases.Keys
    && (forall b :: b in s.bases ==>
          s.bases[b].useCount == |Stored(s, b)| <= s.bases[b].maxSubWallets == s.highest[b])
    && (forall x :: x in s.subs ==>
          s.subs[x].placedOn in s.bases && s.bases[s.subs[x].placedOn].endpoint == s.subs[x].endpoint)
  }

  ghost predicate IsRun(states: seq<System>, events: seq<Event>) {
    && |states| == |events| + 1
    && IsStart(states[0])
    && forall i :: 0 <= i < |events| ==> Enabled(states[i], events[i]) && states[i + 1] == After(states[i], events[i])
  }

  // ---------------------------------------------------------------------------------
  // The capacity invariant

  ghost predicate Within(s: System, b: BaseId)
    requires b in s.bases && b in s.highest
  {
    |Stored(s, b)| + |Booked(s, b)| <= s.bases[b].useCount + Lost(s, b) && s.bases[b].useCount <= s.highest[b]
  }

  /** Rows remember their base, a chosen cap was configured, and a delete is booked on the
      base its row was placed on. */
  ghost predicate Consistent(s: System) {
    && DistinctEndpoints(s.bases) && s.highest.Keys == s.bases.Keys
    && (forall b :: b in s.bases ==> s.bases[b].maxSubWallets <= s.highest[b])
    && (forall x :: x in s.subs ==>
          s.subs[x].placedOn in s.bases && s.bases[s.subs[x].placedOn].endpoint == s.subs[x].endpoint)
    && (forall c :: c in s.calls ==> CallOk(s, s.calls[c]))
  }

  ghost predicate CallOk(s: System, phase: Phase) {
    match phase
    case Chosen(b, cap) => b in s.bases && b in s.highest && cap <= s.highest[b]
    case Resolved(x, b) => b in s.bases && (x in s.subs ==> s.subs[x].placedOn == b)
    case Done => true
    case _ => phase.base in s.bases
  }

  ghost predicate Inv(s: System) {
    Consistent(s) && forall b :: b in s.bases ==> Within(s, b)
  }

  /** A call that moves from one phase to another changes the bookings of at most two wallets. */
  lemma BookedMove(s: System, s': System, c: CallId, phase: Phase, b: BaseId)
    requires s'.calls == s.calls[c := phase]
    ensures |Booked(s', b)| == |Booked(s, b)| - (if c in s.calls && HoldsSlot(s.calls[c], b) then 1 else 0)
                               + (if HoldsSlot(phase, b) then 1 else 0)
  {
    hide HoldsSlot, Booked;
    BookedAfter(s, s', c, phase, b);
    Replaced(Booked(s, b), c, HoldsSlot(phase, b));
  }

  lemma BookedAfter(s: System, s': System, c: CallId, phase: Phase, b: BaseId)
    requires s'.calls == s.calls[c := phase]
    ensures Booked(s', b) == Booked(s, b) - {c} + if HoldsSlot(phase, b) then {c} else {}
    ensures c in Booked(s, b) <==> c in s.calls && HoldsSlot(s.calls[c], b)
  {
    hide HoldsSlot;
  }

  lemma Replaced(all: set<CallId>, c: CallId, back: bool)
    ensures |all - {c} + (if back then {c} else {})| == |all| - (if c in all then 1 else 0) + (if back then 1 else 0)
  {
    if c !in all {
      assert all - {c} == all;
    }
  }

  /** The steps that touch neither rows nor counters and book nothing new. */
  lemma QuietWithin(s: System, s': System, c: CallId, phase: Phase, b: BaseId)
    requires b in s.bases && b in s.highest && Within(s, b)
    requires s'.calls == s.calls[c := phase] && s'.subs == s.subs && s'.bases == s.bases
    requires s'.highest == s.highest && s'.lost == s.lost
    requires HoldsSlot(phase, b) ==> c in s.calls && HoldsSlot(s.calls[c], b)
    ensures Within(s', b)
  {
    hide HoldsSlot;
    BookedMove(s, s', c, phase, b);
    assert Stored(s', b) == Stored(s, b);
  }

  lemma ClaimWithin(s: System, c: CallId, b: BaseId)
    requires Inv(s) && c in s.calls && s.calls[c].Chosen? && b in s.bases
    ensures b in AfterClaim(s, c).bases && b in AfterClaim(s, c).highest && Within(AfterClaim(s, c), b)
  {
    var s' := AfterClaim(s, c);
    assert Within(s, b) && CallOk(s, s.calls[c]);
    BookedMove(s, s', c, s'.calls[c], b);
    assert Stored(s', b) == Stored(s, b);
  }

  lemma GiveBackWithin(s: System, c: CallId, effect: bool, b: BaseId)
    requires Inv(s) && c in s.calls && (s.calls[c].Releasing? || s.calls[c].Owing?) && b in s.bases
    ensures var s' := AfterGiveBack(s, c, effect); b in s'.bases && b in s'.highest && Within(s', b)
  {
    var s' := AfterGiveBack(s, c, effect);
    assert Within(s, b) && CallOk(s, s.calls[c]);
    BookedMove(s, s', c, Done, b);
    assert Stored(s', b) == Stored(s, b);
  }

  lemma StoredAdd(s: System, s': System, x: SubId, row: Sub, b: BaseId)
    requires x !in s.subs && s'.subs == s.subs[x := row]
    ensures |Stored(s', b)| == |Stored(s, b)| + if row.placedOn == b then 1 else 0
  {
    assert Stored(s', b) == Stored(s, b) + if row.placedOn == b then {x} else {};
  }

  lemma StoredRemove(s: System, s': System, x: SubId, b: BaseId)
    requires x in s.subs && s'.subs == s.subs - {x}
    ensures |Stored(s', b)| == |Stored(s, b)| - if s.subs[x].placedOn == b then 1 else 0
  {
    assert Stored(s', b) == Stored(s, b) - if s.subs[x].placedOn == b then {x} else {};
  }

  lemma StoreWithin(s: System, c: CallId, sub: SubId, effect: bool, ok: bool, b: BaseId)
    requires b in s.bases && b in s.highest && Within(s, b) && Enabled(s, StoreSub(c, sub, effect, ok))
    ensures Within(AfterStore(s, c, sub, effect, ok), b)
  {
    hide Stored, Booked, HoldsSlot;
    var s' := AfterStore(s, c, sub, effect, ok);
    BookedMove(s, s', c, s'.calls[c], b);
    Slots(s.calls[c].base, ok, b);
    if effect {
      StoredAdd(s, s', sub, s'.subs[sub], b);
    } else {
      SameStored(s, s', b);
    }
  }

  lemma Slots(base: BaseId, ok: bool, b: BaseId)
    ensures HoldsSlot(Claimed(base), b) == HoldsSlot(Releasing(base), b) == (base == b) && !HoldsSlot(Done, b)
  {
  }

  lemma DeleteWithin(s: System, c: CallId, b: BaseId)
    requires b in s.bases && b in s.highest && Within(s, b)
    requires c in s.calls && s.calls[c].Resolved? && CallOk(s, s.calls[c])
    ensures Within(AfterDelete(s, c), b)
  {
    hide Stored, Booked;
    var s' := AfterDelete(s, c);
    var sub := s.calls[c].sub;
    BookedMove(s, s', c, s'.calls[c], b);
    if sub in s.subs {
      StoredRemove(s, s', sub, b);
    } else {
      SameStored(s, s', b);
    }
  }

  lemma SameStored(s: System, s': System, b: BaseId)
    requires s'.subs == s.subs
    ensures Stored(s', b) == Stored(s, b)
  {
  }

  lemma EditWithin(s: System, e: Event, b: BaseId)
    requires Inv(s) && Enabled(s, e) && (e.EditBase? || e.AddBase?) && b in After(s, e).bases
    requires e.AddBase? ==> e.id !in s.bases
    ensures b in After(s, e).highest && Within(After(s, e), b)
  {
    hide DistinctEndpoints, Stored, Booked;
    var s' := After(s, e);
    SameStored(s, s', b);
    assert Booked(s', b) == Booked(s, b) by { SameBooked(s, s', b); }
    if b in s.bases {
      assert Within(s, b);
    } else {
      Unused(s, b);
    }
  }

  lemma SameBooked(s: System, s': System, b: BaseId)
    requires s'.calls == s.calls
    ensures Booked(s', b) == Booked(s, b)
  {
  }

  /** Nothing refers to a base wallet that does not exist. */
  lemma Unused(s: System, b: BaseId)
    requires Consistent(s) && b !in s.bases
    ensures Stored(s, b) == {} && Booked(s, b) == {}
  {
    hide DistinctEndpoints;
    assert forall c :: c in s.calls ==> CallOk(s, s.calls[c]);
  }

  lemma WithinKeeps(s: System, e: Event, b: BaseId)
    requires Inv(s) && Enabled(s, e) && b in After(s, e).bases
    ensures b in After(s, e).highest && Within(After(s, e), b)
  {
    hide Within, DistinctEndpoints, CallOk, Newest, AfterClaim, AfterGiveBack, AfterDelete, AfterStore, AfterEdit;
    match e {
      case ClaimSlot(c) => ClaimKeys(s, c); ClaimWithin(s, c, b);
      case GiveBack(c, effect) => GiveBackKeys(s, c, effect); GiveBackWithin(s, c, effect, b);
      case StoreSub(c, sub, effect, ok) => StoreKeys(s, c, sub, effect, ok); StoreWithin(s, c, sub, effect, ok, b);
      case DeleteRow(c) => DeleteKeys(s, c); DeleteWithin(s, c, b);
      case EditBase(id, isActive, cap) => EditWithin(s, e, b);
      case AddBase(id, row) => EditWithin(s, e, b);
      case ReadForCreate(c, found) =>
        QuietWithin(s, After(s, e), c, Chosen(found, s.bases[found].maxSubWallets), b);
      case Fail(c) => QuietWithin(s, After(s, e), c, Releasing(s.calls[c].base), b);
      case ReadForDelete(c, sub, found) => QuietWithin(s, After(s, e), c, Resolved(sub, found), b);
      case Crash(c) => QuietWithin(s, After(s, e), c, Done, b);
    }
  }

  lemma ClaimKeys(s: System, c: CallId)
    requires c in s.calls && s.calls[c].Chosen?
    ensures AfterClaim(s, c).bases.Keys == s.bases.Keys
  {
  }

  lemma GiveBackKeys(s: System, c: CallId, effect: bool)
    requires c in s.calls && (s.calls[c].Releasing? || s.calls[c].Owing?)
    ensures AfterGiveBack(s, c, effect).bases.Keys == s.bases.Keys
  {
  }

  lemma DeleteKeys(s: System, c: CallId)
    requires c in s.calls && s.calls[c].Resolved?
    ensures AfterDelete(s, c).bases == s.bases && AfterDelete(s, c).highest == s.highest
  {
  }

  lemma StoreKeys(s: System, c: CallId, sub: SubId, effect: bool, ok: bool)
    requires c in s.calls && s.calls[c].Claimed? && s.calls[c].base in s.bases
    ensures AfterStore(s, c, sub, effect, ok).bases == s.bases && AfterStore(s, c, sub, effect, ok).highest == s.highest
  {
  }

  /** A new base wallet must not reuse an endpoint. */
  ghost predicate KeepsEndpoints(s: System, e: Event) {
    e.AddBase? ==> forall b :: b in s.bases ==> s.bases[b].endpoint != e.row.endpoint
  }

  /** What consistency needs of a step: one call changes, wallets keep their endpoints and
      their highest cap only grows, rows keep their place. */
  ghost predicate Steady(s: System, s': System) {
    && s'.highest.Keys == s'.bases.Keys && s.bases.Keys <= s'.bases.Keys
    && (forall b :: b in s.bases ==> s'.bases[b].endpoint == s.bases[b].endpoint && b in s.highest && s.highest[b] <= s'.highest[b])
    && (forall b :: b in s'.bases ==> s'.bases[b].maxSubWallets <= s'.highest[b])
    && (forall x :: x in s'.subs ==>
          if x in s.subs then s'.subs[x] == s.subs[x]
          else s'.subs[x].placedOn in s.bases && s.bases[s'.subs[x].placedOn].endpoint == s'.subs[x].endpoint)
  }

  lemma SteadyStep(s: System, e: Event)
    requires Consistent(s) && Enabled(s, e)
    ensures Steady(s, After(s, e))
  {
    hide DistinctEndpoints, Available, Newest;
    if e.StoreSub? {
      SteadyStore(s, e);
    } else if e.EditBase? || e.AddBase? {
      SteadyEdit(s, e);
    } else {
      hide CallOk, Claim;
      if e.ClaimSlot? {
        SteadyClaim(s, e);
      }
    }
  }

  lemma SteadyStore(s: System, e: Event)
    requires Consistent(s) && Enabled(s, e) && e.StoreSub?
    ensures Steady(s, After(s, e))
  {
    hide DistinctEndpoints;
    assert CallOk(s, s.calls[e.c]);
  }

  lemma SteadyClaim(s: System, e: Event)
    requires Consistent(s) && Enabled(s, e) && e.ClaimSlot?
    ensures Steady(s, After(s, e))
  {
    hide DistinctEndpoints;
    assert CallOk(s, s.calls[e.c]);
  }

  lemma SteadyEdit(s: System, e: Event)
    requires Consistent(s) && Enabled(s, e) && (e.EditBase? || e.AddBase?)
    ensures Steady(s, After(s, e))
  {
    hide DistinctEndpoints, CallOk;
  }

  lemma EndpointsKeep(s: System, e: Event)
    requires Consistent(s) && Enabled(s, e) && KeepsEndpoints(s, e)
    ensures DistinctEndpoints(After(s, e).bases)
  {
    hide Available, Newest, CallOk;
    SteadyStep(s, e);
    var s' := After(s, e);
    assert !e.AddBase? ==> s'.bases.Keys == s.bases.Keys;
  }

  lemma OnlyNewSub(s: System, e: Event, x: SubId)
    requires Enabled(s, e) && x in After(s, e).subs && x !in s.subs
    ensures e.StoreSub? && x == e.sub
  {
    hide Claim, Decrement, Available, Newest;
  }

  /** A call other than the one that steps. */
  lemma OtherCall(s: System, e: Event, phase: Phase)
    requires Enabled(s, e) && Steady(s, After(s, e)) && StoredFresh(s, e) && CallOk(s, phase)
    requires phase.Resolved? ==> exists c :: c in s.calls && s.calls[c] == phase
    ensures CallOk(After(s, e), phase)
  {
    hide After, Enabled;
    if phase.Resolved? && phase.sub in After(s, e).subs && phase.sub !in s.subs {
      OnlyNewSub(s, e, phase.sub);
    }
  }

  lemma OwnCall(s: System, e: Event)
    requires Consistent(s) && Enabled(s, e) && Steady(s, After(s, e)) && !e.EditBase? && !e.AddBase?
    ensures e.c in After(s, e).calls && CallOk(After(s, e), After(s, e).calls[e.c])
  {
    hide DistinctEndpoints;
    if e.ReadForDelete? {
      OwnDelete(s, e);
    } else if e.ReadForCreate? {
      OwnCreate(s, e);
    } else {
      hide Newest, Available, Steady;
      assert CallOk(s, s.calls[e.c]);
    }
  }

  lemma OwnCreate(s: System, e: Event)
    requires Consistent(s) && Enabled(s, e) && e.ReadForCreate?
    ensures e.c in After(s, e).calls && CallOk(After(s, e), After(s, e).calls[e.c])
  {
    hide DistinctEndpoints;
  }

  lemma OwnDelete(s: System, e: Event)
    requires Consistent(s) && Enabled(s, e) && e.ReadForDelete?
    ensures e.c in After(s, e).calls && CallOk(After(s, e), After(s, e).calls[e.c])
  {
    hide CallOk, Available;
    assert s.subs[e.sub].placedOn == e.found;
    assert CallOk(After(s, e), Resolved(e.sub, e.found)) by { ResolvedOk(After(s, e), e.sub, e.found); }
  }

  lemma ResolvedOk(s: System, x: SubId, b: BaseId)
    requires b in s.bases && x in s.subs && s.subs[x].placedOn == b
    ensures CallOk(s, Resolved(x, b))
  {
  }

  lemma CallKeeps(s: System, e: Event, c: CallId)
    requires Consistent(s) && Enabled(s, e) && c in After(s, e).calls && Steady(s, After(s, e))
    requires StoredFresh(s, e)
    ensures CallOk(After(s, e), After(s, e).calls[c])
  {
    hide CallOk, Available, Newest, DistinctEndpoints, Steady, AfterClaim, AfterGiveBack, AfterDelete, AfterStore, AfterEdit;
    if !e.EditBase? && !e.AddBase? && c == e.c {
      OwnCall(s, e);
    } else {
      OneCallSteps(s, e, c);
      assert CallOk(s, s.calls[c]);
      OtherCall(s, e, s.calls[c]);
    }
  }

  lemma OneCallSteps(s: System, e: Event, c: CallId)
    requires Enabled(s, e) && c in After(s, e).calls && (e.EditBase? || e.AddBase? || c != e.c)
    ensures c in s.calls && After(s, e).calls[c] == s.calls[c]
  {
  }

  /** Row ids are never reused, so a stored row is not one a delete has already read. */
  ghost predicate StoredFresh(s: System, e: Event) {
    e.StoreSub? ==> forall d :: d in s.calls && s.calls[d].Resolved? ==> s.calls[d].sub != e.sub
  }

  ghost predicate Proper(states: seq<System>, events: seq<Event>) {
    && IsRun(states, events)
    && DistinctEndpoints(states[0].bases)
    && forall i :: 0 <= i < |events| ==> KeepsEndpoints(states[i], events[i]) && StoredFresh(states[i], events[i])
  }

  lemma StepKeeps(s: System, e: Event)
    requires Inv(s) && Enabled(s, e) && KeepsEndpoints(s, e) && StoredFresh(s, e)
    ensures Inv(After(s, e))
  {
    hide Within, After, Enabled, KeepsEndpoints, StoredFresh, DistinctEndpoints, CallOk;
    var s' := After(s, e);
    SteadyStep(s, e);
    EndpointsKeep(s, e);
    forall c | c in s'.calls
      ensures CallOk(s', s'.calls[c])
    {
      CallKeeps(s, e, c);
    }
    forall b | b in s'.bases
      ensures b in s'.highest && Within(s', b)
    {
      WithinKeeps(s, e, b);
    }
  }

  lemma StartOk(s: System)
    requires IsStart(s) && DistinctEndpoints(s.bases)
    ensures Inv(s)
  {
    forall b | b in s.bases
      ensures Within(s, b)
    {
      assert Booked(s, b) == {};
    }
  }

  lemma {:induction false} RunKeeps(states: seq<System>, events: seq<Event>, n: nat)
    requires Proper(states, events) && n < |states|
    ensures Inv(states[n])
  {
    hide Inv, After, Enabled, KeepsEndpoints, StoredFresh, DistinctEndpoints;
    if n == 0 {
      StartOk(states[0]);
    } else {
      RunKeeps(states, events, n - 1);
      StepKeeps(states[n - 1], events[n - 1]);
    }
  }

  /** Whatever creates, failures, deletes, crashes, lost replies, lost decrements and cap
      edits interleave: stored sub-wallets and booked slots exceed the counter by no more than
      the stores nobody heard of, and the counter never exceeds the largest cap configured. */
  lemma NeverOverProvisioned(states: seq<System>, events: seq<Event>, n: nat, b: BaseId)
    requires Proper(states, events) && n < |states| && b in states[n].bases
    ensures b in states[n].highest
    ensures |Stored(states[n], b)| + |Booked(states[n], b)| <= states[n].bases[b].useCount + Lost(states[n], b)
    ensures states[n].bases[b].useCount <= states[n].highest[b]
  {
    RunKeeps(states, events, n);
    assert Within(states[n], b);
  }
}
