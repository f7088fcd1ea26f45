/** The shared offer budget: a Redis hash changed only by three atomic scripts. The class
    runs the scripts in place; the system lets any number of workers, with any configured
    capacities and any clock readings, interleave them with crashes and lost replies. */
module OfferSemaphore {
  import opened Outcomes
  import opened Sets

  type OwnerId = string

  /** An owner's entry. Only reservations carry an expiry; legacy numeric entries never lapse. */
  datatype Slot = Reserved(until: int) | Active(since: int) | Legacy

  /** The hash: its capacity field and its owner fields. A hash without fields is an absent key. */
  datatype Hash = Hash(capacity: Option<int>, owners: map<OwnerId, Slot>)

  const Absent := Hash(None, map[])

  const RESERVATION_MS := 30000

  function Len(h: Hash): nat {
    |h.owners| + if h.capacity.Some? then 1 else 0
  }

  predicate Expired(slot: Slot, ms: int) {
    slot.Reserved? && slot.until <= ms
  }

  function Purge(h: Hash, ms: int): Hash {
    h.(owners := map o | o in h.owners && !Expired(h.owners[o], ms) :: h.owners[o])
  }

  function DropBare(h: Hash): Hash {
    if Len(h) == 1 then Absent else h
  }

  /** The ACQUIRE script: the new hash and the reply. */
  function Acquire(h: Hash, ms: int, capacity: int, owner: OwnerId): (Hash, int) {
    var live := DropBare(Purge(h, ms));
    if live.capacity.Some? && live.capacity.value != capacity then (live, -1)
    else if owner in live.owners then (live, 1)
    else if Len(live) >= capacity + 1 then (live, 0)
    else (Hash(Some(capacity), live.owners[owner := Reserved(ms + RESERVATION_MS)]), 1)
  }

  /** The ACTIVATE script. */
  function Activate(h: Hash, ms: int, owner: OwnerId): (Hash, int) {
    if owner !in h.owners || !h.owners[owner].Reserved? || h.owners[owner].until <= ms then (h, 0)
    else (h.(owners := h.owners[owner := Active(ms)]), 1)
  }

  /** The RELEASE script. */
  function Release(h: Hash, owner: OwnerId): Hash {
    DropBare(h.(owners := h.owners - {owner}))
  }

  class RedisHash {
    var hash: Hash

    method RunAcquire(ms: int, capacity: int, owner: OwnerId) returns (reply: int)
      modifies this
      ensures (hash, reply) == Acquire(old(hash), ms, capacity, owner)
    {
      var entries := hash.owners.Keys;
      while entries != {}
        invariant entries <= old(hash).owners.Keys && hash.capacity == old(hash).capacity
        invariant hash.owners == map o | o in old(hash).owners && (o in entries || !Expired(old(hash).owners[o], ms))
                                   :: old(hash).owners[o]
        decreases entries
      {
        var o :| o in entries;
        entries := entries - {o};
        if Expired(hash.owners[o], ms) {
          hash := hash.(owners := hash.owners - {o});
        }
      }
      assert hash == Purge(old(hash), ms);
      if Len(hash) == 1 {
        hash := Absent;
      }
      if hash.capacity.Some? && hash.capacity.value != capacity {
        return -1;
      }
      if owner in hash.owners {
        return 1;
      }
      if Len(hash) >= capacity + 1 {
        return 0;
      }
      hash := Hash(Some(capacity), hash.owners[owner := Reserved(ms + RESERVATION_MS)]);
      reply := 1;
    }

    method RunActivate(ms: int, owner: OwnerId) returns (reply: int)
      modifies this
      ensures (hash, reply) == Activate(old(hash), ms, owner)
    {
      if owner !in hash.owners || !hash.owners[owner].Reserved? || hash.owners[owner].until <= ms {
        return 0;
      }
      hash := hash.(owners := hash.owners[owner := Active(ms)]);
      reply := 1;
    }

    method RunRelease(owner: OwnerId) returns (reply: int)
      modifies this
      ensures hash == Release(old(hash), owner) && reply == 1
    {
      hash := hash.(owners := hash.owners - {owner});
      if Len(hash) == 1 {
        hash := Absent;
      }
      reply := 1;
    }
  }

  // ---------------------------------------------------------------------------------
  // The hash on its own: what every script keeps, and what a reply means.

  /** Absent, or a capacity with between one and that many owners. */
  ghost predicate HashOk(h: Hash) {
    && (h.capacity.None? <==> h.owners == map[])
    && (h.capacity.Some? ==> 1 <= |h.owners| <= h.capacity.value)
  }

  /** The owners that still hold a slot at a clock reading. */
  ghost function Live(h: Hash, ms: int): set<OwnerId> {
    set o | o in h.owners && !Expired(h.owners[o], ms)
  }

  lemma PurgeSize(h: Hash, ms: int)
    requires HashOk(h)
    ensures Purge(h, ms).owners.Keys == Live(h, ms) <= h.owners.Keys
    ensures |Purge(h, ms).owners| == |Live(h, ms)| <= |h.owners|
    ensures DropBare(Purge(h, ms)) == if Live(h, ms) == {} then Absent else Purge(h, ms)
    ensures HashOk(DropBare(Purge(h, ms)))
  {
    var p := Purge(h, ms);
    assert p.owners.Keys == Live(h, ms);
    assert |p.owners| == |p.owners.Keys|;
    SubsetSize(Live(h, ms), h.owners.Keys);
    assert |h.owners| == |h.owners.Keys|;
    assert Live(h, ms) == {} ==> p.owners == map[];
  }

  /** Every reply of ACQUIRE in terms of the live owners alone. */
  lemma AcquireReplies(h: Hash, ms: int, capacity: int, owner: OwnerId)
    requires HashOk(h) && capacity >= 1
    ensures var reply := Acquire(h, ms, capacity, owner).1;
            && (reply == -1 <==> Live(h, ms) != {} && h.capacity != Some(capacity))
            && (reply == 0 <==> h.capacity == Some(capacity) && owner !in Live(h, ms) && |Live(h, ms)| == capacity)
            && (reply == 1 <==>
                  (Live(h, ms) == {} ||
                   (h.capacity == Some(capacity) && (owner in Live(h, ms) || |Live(h, ms)| < capacity))))
  {
    PurgeSize(h, ms);
  }

  /** After ACQUIRE the hash is well formed and holds the live owners, plus the caller
      exactly when it was admitted: asking twice never takes a second slot. */
  lemma AcquireKeeps(h: Hash, ms: int, capacity: int, owner: OwnerId)
    requires HashOk(h) && capacity >= 1
    ensures var (h', reply) := Acquire(h, ms, capacity, owner);
            && HashOk(h')
            && h'.owners.Keys == Live(h, ms) + (if reply == 1 then {owner} else {})
            && (forall o :: o in Live(h, ms) ==> h'.owners[o] == h.owners[o])
            && (Live(h, ms) != {} ==> h'.capacity == h.capacity)
            && (Live(h, ms) == {} ==> h'.capacity == Some(capacity))
  {
    hide Purge, DropBare, HashOk, Live;
    PurgeSize(h, ms);
    PurgeValues(h, ms);
    var live := DropBare(Purge(h, ms));
    assert live.owners.Keys == Live(h, ms) && (Live(h, ms) != {} ==> live.capacity == h.capacity);
    LiveOk(live, ms);
    if live.capacity.Some? && live.capacity.value != capacity {
    } else if owner in live.owners {
      assert Live(h, ms) + {owner} == Live(h, ms);
    } else if Len(live) >= capacity + 1 {
    } else {
      Admit(live, ms, capacity, owner);
    }
  }

  /** ACQUIRE takes out exactly the reservations that have lapsed; active and legacy entries stay. */
  lemma OnlyLapsedPurged(h: Hash, ms: int, capacity: int, owner: OwnerId)
    requires HashOk(h) && capacity >= 1
    ensures var h' := Acquire(h, ms, capacity, owner).0;
            forall o :: o in h.owners && o != owner ==>
              (o in h'.owners <==> (h.owners[o].Reserved? ==> ms < h.owners[o].until))
              && (o in h'.owners ==> h'.owners[o] == h.owners[o])
  {
    hide Acquire, HashOk;
    AcquireKeeps(h, ms, capacity, owner);
  }

  /** A new reservation is live, and can be activated, for the next thirty seconds by the
      Redis clock and no longer. */
  lemma ReservationLasts(h: Hash, ms: int, capacity: int, owner: OwnerId, later: int)
    requires HashOk(h) && capacity >= 1 && owner !in Live(h, ms) && Acquire(h, ms, capacity, owner).1 == 1
    ensures var h' := Acquire(h, ms, capacity, owner).0;
            && (owner in Live(h', later) <==> later < ms + 30000)
            && (Activate(h', later, owner).1 == 1 <==> later < ms + 30000)
  {
    hide HashOk, Len;
    PurgeSize(h, ms);
  }

  /** A hash without a capacity has no owners. */
  lemma LiveOk(live: Hash, ms: int)
    requires HashOk(live)
    ensures live.owners.Keys == {} <==> live == Absent
    ensures live != Absent ==> live.capacity.Some? && Len(live) == |live.owners| + 1
  {
  }

  lemma Admit(live: Hash, ms: int, capacity: int, owner: OwnerId)
    requires HashOk(live) && owner !in live.owners && (live.capacity.Some? ==> live.capacity.value == capacity)
    requires Len(live) < capacity + 1 && capacity >= 1
    ensures var h' := Hash(Some(capacity), live.owners[owner := Reserved(ms + RESERVATION_MS)]);
            HashOk(h') && h'.owners.Keys == live.owners.Keys + {owner}
  {
    var h' := Hash(Some(capacity), live.owners[owner := Reserved(ms + RESERVATION_MS)]);
    assert h'.owners.Keys == live.owners.Keys + {owner};
    assert |h'.owners| == |h'.owners.Keys| && |live.owners| == |live.owners.Keys|;
  }

  lemma PurgeValues(h: Hash, ms: int)
    ensures forall o :: o in Live(h, ms) ==> o in Purge(h, ms).owners && Purge(h, ms).owners[o] == h.owners[o]
    ensures Purge(h, ms).capacity == h.capacity
  {
  }

  /** Only a live reservation can be activated; it then never lapses, and no other owner and
      no slot is affected. */
  lemma ActivateKeeps(h: Hash, ms: int, owner: OwnerId)
    requires HashOk(h)
    ensures HashOk(Activate(h, ms, owner).0)
    ensures Activate(h, ms, owner).0.owners.Keys == h.owners.Keys
    ensures Activate(h, ms, owner).1 == 1 <==> owner in Live(h, ms) && h.owners[owner].Reserved?
    ensures Activate(h, ms, owner).1 == 1 ==> forall later: int :: owner in Live(Activate(h, ms, owner).0, later)
    ensures forall o :: o in h.owners && o != owner ==> Activate(h, ms, owner).0.owners[o] == h.owners[o]
    ensures Activate(h, ms, owner).1 != 1 ==> Activate(h, ms, owner) == (h, 0)
  {
    var h' := Activate(h, ms, owner).0;
    assert h'.owners.Keys == h.owners.Keys;
    assert |h'.owners| == |h'.owners.Keys| && |h.owners| == |h.owners.Keys|;
  }

  lemma ReleaseKeeps(h: Hash, owner: OwnerId)
    requires HashOk(h)
    ensures HashOk(Release(h, owner))
    ensures Release(h, owner).owners == h.owners - {owner}
    ensures Release(h, owner).owners != map[] ==> Release(h, owner).capacity == h.capacity
  {
    var rest := h.owners - {owner};
    assert rest.Keys == h.owners.Keys - {owner};
    assert |rest| == |rest.Keys| && |h.owners| == |h.owners.Keys|;
    if owner in h.owners {
      assert |rest.Keys| == |h.owners.Keys| - 1;
    } else {
      assert rest == h.owners;
    }
    assert rest.Keys == {} ==> rest == map[];
  }

  /** Once no owner is active and every reservation has lapsed, any worker with any
      capacity is admitted, and it finds the hash as if it had never been used. */
  lemma ClearsItself(h: Hash, ms: int, capacity: int, owner: OwnerId)
    requires HashOk(h) && capacity >= 1
    requires forall o :: o in h.owners ==> h.owners[o].Reserved? && h.owners[o].until <= ms
    ensures Acquire(h, ms, capacity, owner) == Acquire(Absent, ms, capacity, owner)
    ensures Acquire(h, ms, capacity, owner).1 == 1
  {
    PurgeSize(h, ms);
    assert Live(h, ms) == {};
    assert Purge(Absent, ms) == Absent;
  }

  // ---------------------------------------------------------------------------------
  // All interleavings. A call is one acquireAndRun with a fresh owner id.

  datatype Phase =
    | Polling     // asking for a slot
    | Admitted    // heard that ACQUIRE returned 1
    | Activated   // heard that ACTIVATE returned 1
    | Running     // the offer has been dispatched
    | Orphaned    // the worker died after dispatch; the remote operation may still run
    | Cleanup     // in the finally block
    | Gone

  datatype Call = Call(capacity: int, phase: Phase)

  datatype System = System(hash: Hash, calls: map<OwnerId, Call>)

  datatype Event =
    | Begin(o: OwnerId, capacity: int)
    | Poll(o: OwnerId, ms: int, heard: bool)
    | GiveUp(o: OwnerId)
    | Activation(o: OwnerId, ms: int, heard: bool)
    | Dispatch(o: OwnerId)
    | Settle(o: OwnerId)
    | ReleaseAttempt(o: OwnerId, heard: bool)
    | Abandon(o: OwnerId)
    | Crash(o: OwnerId)
    | LateAcquire(o: OwnerId, ms: int)
    | LateActivate(o: OwnerId, ms: int)
    | LateRelease(o: OwnerId)

  predicate InPhase(s: System, o: OwnerId, phases: set<Phase>) {
    o in s.calls && s.calls[o].phase in phases
  }

  ghost predicate Enabled(s: System, e: Event) {
    match e
    case Begin(o, capacity) => o !in s.calls && o !in s.hash.owners && capacity >= 1
    case Poll(o, _, _) => InPhase(s, o, {Polling})
    case GiveUp(o) => InPhase(s, o, {Polling, Admitted, Activated})
    case Activation(o, _, _) => InPhase(s, o, {Admitted})
    case Dispatch(o) => InPhase(s, o, {Activated})
    case Settle(o) => InPhase(s, o, {Running, Orphaned})
    case ReleaseAttempt(o, _) => InPhase(s, o, {Cleanup})
    case Abandon(o) => InPhase(s, o, {Cleanup})
    case Crash(o) => o in s.calls
    case LateAcquire(o, _) => o in s.calls
    case LateActivate(o, _) => o in s.calls
    case LateRelease(o) => InPhase(s, o, {Cleanup, Gone})
  }

  function Move(s: System, o: OwnerId, phase: Phase): System
    requires o in s.calls
  {
    s.(calls := s.calls[o := s.calls[o].(phase := phase)])
  }

  function AfterPoll(s: System, o: OwnerId, ms: int, heard: bool): System
    requires o in s.calls
  {
    var (hash, reply) := Acquire(s.hash, ms, s.calls[o].capacity, o);
    Move(s.(hash := hash), o,
         if !heard || reply == -1 then Cleanup else if reply == 1 then Admitted else Polling)
  }

  function AfterActivation(s: System, o: OwnerId, ms: int, heard: bool): System
    requires o in s.calls
  {
    var (hash, reply) := Activate(s.hash, ms, o);
    Move(s.(hash := hash), o, if heard && reply == 1 then Activated else Cleanup)
  }

  function After(s: System, e: Event): System
    requires Enabled(s, e)
  {
    match e
    case Begin(o, capacity) => s.(calls := s.calls[o := Call(capacity, Polling)])
    case Poll(o, ms, heard) => AfterPoll(s, o, ms, heard)
    case GiveUp(o) => Move(s, o, Cleanup)
    case Activation(o, ms, heard) => AfterActivation(s, o, ms, heard)
    case Dispatch(o) => Move(s, o, Running)
    case Settle(o) => Move(s, o, if s.calls[o].phase == Running then Cleanup else Gone)
    case ReleaseAttempt(o, heard) =>
      Move(s.(hash := Release(s.hash, o)), o, if heard then Gone else Cleanup)
    case Abandon(o) => Move(s, o, Gone)
    case Crash(o) => Move(s, o, if s.calls[o].phase in {Running, Orphaned} then Orphaned else Gone)
    case LateAcquire(o, ms) => s.(hash := Acquire(s.hash, ms, s.calls[o].capacity, o).0)
    case LateActivate(o, ms) => s.(hash := Activate(s.hash, ms, o).0)
    case LateRelease(o) => s.(hash := Release(s.hash, o))
  }

  /** No call has begun; the hash may hold entries that earlier workers have left. */
  ghost predicate IsStart(s: System) {
    HashOk(s.hash) && s.calls == map[]
  }

  ghost predicate IsRun(states: seq<System>, events: seq<Event>) {
    && |states| == |events| + 1
    && IsStart(states[0])
    && forall i :: 0 <= i < |events| ==> Enabled(states[i], events[i]) && states[i + 1] == After(states[i], events[i])
  }

  /** A call moves only by its own events, and not by a late effect of one. */
  lemma OthersLeaveCall(s: System, e: Event, o: OwnerId)
    requires Enabled(s, e) && o in s.calls && (e.o != o || e.LateAcquire? || e.LateActivate? || e.LateRelease?)
    ensures o in After(s, e).calls && After(s, e).calls[o] == s.calls[o]
  {
    hide Acquire, Activate, Release;
  }

  /** Calls whose remote operation may be running. */
  ghost function InFlight(s: System): set<OwnerId> {
    set o | o in s.calls && s.calls[o].phase in {Running, Orphaned}
  }

  /** Every call in the hash was admitted under the capacity the hash stores. */
  ghost predicate OneCapacity(s: System) {
    forall o :: o in s.hash.owners && o in s.calls ==> s.hash.capacity == Some(s.calls[o].capacity)
  }

  /** From its ACTIVATE to its own RELEASE a call keeps an active entry in the hash. */
  ghost predicate Pinned(s: System) {
    forall o :: InPhase(s, o, {Activated, Running, Orphaned}) ==> o in s.hash.owners && s.hash.owners[o].Active?
  }

  ghost predicate PositiveCapacities(s: System) {
    forall o :: o in s.calls ==> s.calls[o].capacity >= 1
  }

  ghost predicate Inv(s: System) {
    HashOk(s.hash) && OneCapacity(s) && Pinned(s) && PositiveCapacities(s)
  }

  lemma AcquireStep(s: System, o: OwnerId, ms: int)
    requires Inv(s) && o in s.calls
    ensures Inv(s.(hash := Acquire(s.hash, ms, s.calls[o].capacity, o).0))
  {
    hide Acquire;
    AcquireKeeps(s.hash, ms, s.calls[o].capacity, o);
    AcquireReplies(s.hash, ms, s.calls[o].capacity, o);
  }

  lemma ActivateStep(s: System, o: OwnerId, ms: int)
    requires Inv(s) && o in s.calls
    ensures Inv(s.(hash := Activate(s.hash, ms, o).0))
    ensures Activate(s.hash, ms, o).1 == 1 ==>
              o in Activate(s.hash, ms, o).0.owners && Activate(s.hash, ms, o).0.owners[o].Active?
  {
    ActivateKeeps(s.hash, ms, o);
  }

  lemma ReleaseStep(s: System, o: OwnerId)
    requires Inv(s) && !InPhase(s, o, {Activated, Running, Orphaned})
    ensures Inv(s.(hash := Release(s.hash, o)))
  {
    hide Release;
    ReleaseKeeps(s.hash, o);
  }

  /** Moving a call to a phase that it may hold with its current entry keeps the invariant. */
  lemma MoveStep(s: System, o: OwnerId, phase: Phase)
    requires Inv(s) && o in s.calls
    requires phase in {Activated, Running, Orphaned} ==> o in s.hash.owners && s.hash.owners[o].Active?
    ensures Inv(Move(s, o, phase))
  {
  }

  lemma StepKeeps(s: System, e: Event)
    requires Inv(s) && Enabled(s, e)
    ensures Inv(After(s, e))
  {
    hide Acquire, Activate, Release, HashOk, OneCapacity, PositiveCapacities;
    match e {
      case Begin(o, capacity) => BeginStep(s, o, capacity);
      case Poll(o, ms, heard) =>
        AcquireStep(s, o, ms);
        var (hash, reply) := Acquire(s.hash, ms, s.calls[o].capacity, o);
        MoveStep(s.(hash := hash), o,
                 if !heard || reply == -1 then Cleanup else if reply == 1 then Admitted else Polling);
      case GiveUp(o) => MoveStep(s, o, Cleanup);
      case Activation(o, ms, heard) =>
        ActivateStep(s, o, ms);
        var (hash, reply) := Activate(s.hash, ms, o);
        MoveStep(s.(hash := hash), o, if heard && reply == 1 then Activated else Cleanup);
      case Dispatch(o) => MoveStep(s, o, Running);
      case Settle(o) => MoveStep(s, o, if s.calls[o].phase == Running then Cleanup else Gone);
      case ReleaseAttempt(o, heard) =>
        ReleaseStep(s, o);
        MoveStep(s.(hash := Release(s.hash, o)), o, if heard then Gone else Cleanup);
      case Abandon(o) => MoveStep(s, o, Gone);
      case Crash(o) => MoveStep(s, o, if s.calls[o].phase in {Running, Orphaned} then Orphaned else Gone);
      case LateAcquire(o, ms) => AcquireStep(s, o, ms);
      case LateActivate(o, ms) => ActivateStep(s, o, ms);
      case LateRelease(o) => ReleaseStep(s, o);
    }
  }

  lemma BeginStep(s: System, o: OwnerId, capacity: int)
    requires Inv(s) && o !in s.calls && o !in s.hash.owners && capacity >= 1
    ensures Inv(s.(calls := s.calls[o := Call(capacity, Polling)]))
  {
  }

  lemma {:induction false} RunKeeps(states: seq<System>, events: seq<Event>, n: nat)
    requires IsRun(states, events) && n < |states|
    ensures Inv(states[n])
  {
    if n > 0 {
      RunKeeps(states, events, n - 1);
      StepKeeps(states[n - 1], events[n - 1]);
    }
  }

  /** The global budget: however workers interleave, crash and lose replies, at most the
      stored capacity of offers is in flight, and every one of them was admitted under it. */
  lemma OffersBounded(states: seq<System>, events: seq<Event>, n: nat)
    requires IsRun(states, events) && n < |states|
    ensures InFlight(states[n]) <= states[n].hash.owners.Keys
    ensures forall o :: o in InFlight(states[n]) ==>
              && states[n].hash.owners[o].Active?
              && states[n].hash.capacity == Some(states[n].calls[o].capacity)
              && |InFlight(states[n])| <= states[n].calls[o].capacity
    ensures HashOk(states[n].hash)
  {
    RunKeeps(states, events, n);
    var s := states[n];
    SubsetSize(InFlight(s), s.hash.owners.Keys);
    assert |s.hash.owners| == |s.hash.owners.Keys|;
  }

  /** ACQUIRE refuses a worker for its configuration only while an owner admitted under
      another capacity, or left from before the run, is live, and keeps it waiting only while
      its own budget is full. */
  lemma RefusalsJustified(states: seq<System>, events: seq<Event>, n: nat)
    requires IsRun(states, events) && n < |events| && events[n].Poll?
    ensures var s, o, ms := states[n], events[n].o, events[n].ms;
            var reply := Acquire(s.hash, ms, s.calls[o].capacity, o).1;
            && (reply == -1 ==>
                  exists p :: p in Live(s.hash, ms) && (p in s.calls ==> s.calls[p].capacity != s.calls[o].capacity))
            && (reply == -1 ==>
                  forall p :: p in Live(s.hash, ms) && p in s.calls ==> s.calls[p].capacity != s.calls[o].capacity)
            && (reply == 0 ==> |Live(s.hash, ms)| == s.calls[o].capacity)
  {
    RunKeeps(states, events, n);
    var s, o, ms := states[n], events[n].o, events[n].ms;
    AcquireReplies(s.hash, ms, s.calls[o].capacity, o);
    if Acquire(s.hash, ms, s.calls[o].capacity, o).1 == -1 {
      var p :| p in Live(s.hash, ms);
      assert p in s.hash.owners;
    }
  }

  // ---------------------------------------------------------------------------------
  // A call from its reservation to the end of its operation

  /** Between steps i and j the call does nothing itself, and whoever purges reads the Redis
      clock before the given time. */
  ghost predicate LeftAlone(events: seq<Event>, i: nat, j: nat, o: OwnerId, before: int)
    requires j <= |events|
  {
    forall k :: i < k < j ==>
      events[k].o != o && (events[k].Poll? || events[k].LateAcquire? ==> events[k].ms < before)
  }

  /** Such a step of another call leaves a reservation that lasts until then. */
  lemma OthersKeepSlot(s: System, e: Event, o: OwnerId, until: int)
    requires Inv(s) && Enabled(s, e) && o in s.hash.owners && s.hash.owners[o] == Reserved(until)
    requires e.o != o && (e.Poll? || e.LateAcquire? ==> e.ms < until)
    ensures o in After(s, e).hash.owners && After(s, e).hash.owners[o] == Reserved(until)
  {
    hide Acquire, Activate, Release, HashOk, OneCapacity, Pinned;
    if e.Poll? || e.LateAcquire? {
      AcquireKeeps(s.hash, e.ms, s.calls[e.o].capacity, e.o);
      assert o in Live(s.hash, e.ms);
    } else if e.Activation? || e.LateActivate? {
      ActivateKeeps(s.hash, e.ms, e.o);
    } else if e.ReleaseAttempt? || e.LateRelease? {
      ReleaseKeeps(s.hash, e.o);
    }
  }

  lemma {:induction false} SlotKept(states: seq<System>, events: seq<Event>, i: nat, j: nat, o: OwnerId, until: int)
    requires IsRun(states, events) && i < j < |states| && LeftAlone(events, i, j, o, until)
    requires o in states[i + 1].calls && o in states[i + 1].hash.owners && states[i + 1].hash.owners[o] == Reserved(until)
    ensures o in states[j].calls && states[j].calls[o] == states[i + 1].calls[o]
    ensures o in states[j].hash.owners && states[j].hash.owners[o] == Reserved(until)
  {
    hide Inv, Enabled, After;
    if i + 1 < j {
      SlotKept(states, events, i, j - 1, o, until);
      RunKeeps(states, events, j - 1);
      OthersKeepSlot(states[j - 1], events[j - 1], o, until);
      OthersLeaveCall(states[j - 1], events[j - 1], o);
    }
  }

  /** A call that was given a slot by step i and activates by step j goes on exactly if the
      clock has moved less than thirty seconds, whatever other workers do in between. */
  lemma GrantedCallActivates(states: seq<System>, events: seq<Event>, i: nat, j: nat, o: OwnerId)
    requires IsRun(states, events) && i < j < |events|
    requires events[i].Poll? && events[i].o == o && o !in Live(states[i].hash, events[i].ms)
    requires InPhase(states[i + 1], o, {Admitted})
    requires events[j].Activation? && events[j].o == o && events[j].heard
    requires LeftAlone(events, i, j, o, events[i].ms + 30000)
    ensures InPhase(states[j + 1], o, {if events[j].ms < events[i].ms + 30000 then Activated else Cleanup})
  {
    hide Acquire, Activate, Live, HashOk;
    var s, ms, capacity := states[i], events[i].ms, states[i].calls[o].capacity;
    RunKeeps(states, events, i);
    ReservationEntry(s.hash, ms, capacity, o);
    SlotKept(states, events, i, j, o, ms + 30000);
    ActivateReserved(states[j].hash, events[j].ms, o, ms + 30000);
  }

  lemma ReservationEntry(h: Hash, ms: int, capacity: int, o: OwnerId)
    requires HashOk(h) && capacity >= 1 && o !in Live(h, ms) && Acquire(h, ms, capacity, o).1 == 1
    ensures var h' := Acquire(h, ms, capacity, o).0; o in h'.owners && h'.owners[o] == Reserved(ms + 30000)
  {
    hide HashOk, Len;
    PurgeSize(h, ms);
  }

  lemma ActivateReserved(h: Hash, ms: int, o: OwnerId, until: int)
    requires o in h.owners && h.owners[o] == Reserved(until)
    ensures Activate(h, ms, o).1 == if ms < until then 1 else 0
  {
  }

  /** From its dispatch until its operation settles a call is in flight and keeps its active
      entry, also when its worker dies. */
  lemma {:induction false} InFlightUntilSettled(states: seq<System>, events: seq<Event>, i: nat, n: nat, o: OwnerId)
    requires IsRun(states, events) && i < n < |states| && events[i] == Dispatch(o)
    requires forall k :: i < k < n ==> events[k] != Settle(o)
    ensures o in InFlight(states[n]) && o in states[n].hash.owners && states[n].hash.owners[o].Active?
  {
    hide Inv, Enabled, After, HashOk;
    RunKeeps(states, events, n);
    if i + 1 < n {
      InFlightUntilSettled(states, events, i, n - 1, o);
      StillInFlight(states[n - 1], events[n - 1], o);
    } else {
      Dispatched(states[i], o);
    }
    assert Pinned(states[n]) by { InvPinned(states[n]); }
    assert InPhase(states[n], o, {Activated, Running, Orphaned});
  }

  lemma InvPinned(s: System)
    requires Inv(s)
    ensures Pinned(s)
  {
  }

  lemma Dispatched(s: System, o: OwnerId)
    requires Enabled(s, Dispatch(o))
    ensures o in InFlight(After(s, Dispatch(o)))
  {
  }

  lemma StillInFlight(s: System, e: Event, o: OwnerId)
    requires Enabled(s, e) && o in InFlight(s) && e != Settle(o)
    ensures o in InFlight(After(s, e))
  {
    hide Acquire, Activate, Release;
    if e.o != o {
      OthersLeaveCall(s, e, o);
    }
  }

  /** A whole undisturbed call: it is given a slot, activates, dispatches, settles and releases,
      and leaves the hash with exactly the owners that were live when it asked. */
  lemma CallAlone(s: System, o: OwnerId, capacity: int, ms: int, later: int) returns (states: seq<System>)
    requires HashOk(s.hash) && o !in s.calls && o !in s.hash.owners && capacity >= 1 && later < ms + 30000
    requires Live(s.hash, ms) == {} || (s.hash.capacity == Some(capacity) && |Live(s.hash, ms)| < capacity)
    ensures var events := [Begin(o, capacity), Poll(o, ms, true), Activation(o, later, true), Dispatch(o), Settle(o), ReleaseAttempt(o, true)];
            && |states| == 7 && states[0] == s
            && forall i :: 0 <= i < 6 ==> Enabled(states[i], events[i]) && states[i + 1] == After(states[i], events[i])
    ensures states[6].calls == s.calls[o := Call(capacity, Gone)]
    ensures states[6].hash.owners.Keys == Live(s.hash, ms)
    ensures forall p :: p in Live(s.hash, ms) ==> states[6].hash.owners[p] == s.hash.owners[p]
    ensures states[6].hash.capacity == if Live(s.hash, ms) == {} then None else Some(capacity)
  {
    hide Acquire, Activate, Release, HashOk, Live, Enabled, After;
    CallHashes(s.hash, o, capacity, ms, later);
    var h1 := Acquire(s.hash, ms, capacity, o).0;
    var h2 := Activate(h1, later, o).0;
    states := [s, Amid(s, o, capacity, s.hash, Polling), Amid(s, o, capacity, h1, Admitted),
               Amid(s, o, capacity, h2, Activated), Amid(s, o, capacity, h2, Running),
               Amid(s, o, capacity, h2, Cleanup), Amid(s, o, capacity, Release(h2, o), Gone)];
    Begins(s, o, capacity);
    Polls(s, o, capacity, s.hash, ms);
    Activates(s, o, capacity, h1, later);
    Finishes(s, o, capacity, h2);
  }

  /** The system while only call o changes it. */
  function Amid(s: System, o: OwnerId, capacity: int, hash: Hash, phase: Phase): System {
    System(hash, s.calls[o := Call(capacity, phase)])
  }

  lemma Begins(s: System, o: OwnerId, capacity: int)
    requires o !in s.calls && o !in s.hash.owners && capacity >= 1
    ensures Enabled(s, Begin(o, capacity)) && After(s, Begin(o, capacity)) == Amid(s, o, capacity, s.hash, Polling)
  {
  }

  lemma Polls(s: System, o: OwnerId, capacity: int, h: Hash, ms: int)
    requires Acquire(h, ms, capacity, o).1 == 1
    ensures var u := Amid(s, o, capacity, h, Polling);
            Enabled(u, Poll(o, ms, true)) &&
            After(u, Poll(o, ms, true)) == Amid(s, o, capacity, Acquire(h, ms, capacity, o).0, Admitted)
  {
    hide Acquire;
    assert s.calls[o := Call(capacity, Polling)][o := Call(capacity, Admitted)] == s.calls[o := Call(capacity, Admitted)];
  }

  lemma Activates(s: System, o: OwnerId, capacity: int, h: Hash, later: int)
    requires Activate(h, later, o).1 == 1
    ensures var u := Amid(s, o, capacity, h, Admitted);
            Enabled(u, Activation(o, later, true)) &&
            After(u, Activation(o, later, true)) == Amid(s, o, capacity, Activate(h, later, o).0, Activated)
  {
    hide Activate;
    assert s.calls[o := Call(capacity, Admitted)][o := Call(capacity, Activated)] == s.calls[o := Call(capacity, Activated)];
  }

  lemma Finishes(s: System, o: OwnerId, capacity: int, h: Hash)
    ensures var u, v, w := Amid(s, o, capacity, h, Activated), Amid(s, o, capacity, h, Running), Amid(s, o, capacity, h, Cleanup);
            && Enabled(u, Dispatch(o)) && After(u, Dispatch(o)) == v
            && Enabled(v, Settle(o)) && After(v, Settle(o)) == w
            && Enabled(w, ReleaseAttempt(o, true))
            && After(w, ReleaseAttempt(o, true)) == Amid(s, o, capacity, Release(h, o), Gone)
  {
    hide Release;
    var c := s.calls;
    assert c[o := Call(capacity, Activated)][o := Call(capacity, Running)] == c[o := Call(capacity, Running)];
    assert c[o := Call(capacity, Running)][o := Call(capacity, Cleanup)] == c[o := Call(capacity, Cleanup)];
    assert c[o := Call(capacity, Cleanup)][o := Call(capacity, Gone)] == c[o := Call(capacity, Gone)];
  }

  lemma CallHashes(h: Hash, o: OwnerId, capacity: int, ms: int, later: int)
    requires HashOk(h) && o !in h.owners && capacity >= 1 && later < ms + 30000
    requires Live(h, ms) == {} || (h.capacity == Some(capacity) && |Live(h, ms)| < capacity)
    ensures var h1 := Acquire(h, ms, capacity, o).0;
            var h2 := Activate(h1, later, o).0;
            var h3 := Release(h2, o);
            && Acquire(h, ms, capacity, o).1 == 1 && Activate(h1, later, o).1 == 1
            && h3.owners.Keys == Live(h, ms)
            && (forall p :: p in Live(h, ms) ==> h3.owners[p] == h.owners[p])
            && h3.capacity == if Live(h, ms) == {} then None else Some(capacity)
  {
    hide Acquire, Activate, Release, HashOk, Live, Len;
    NotLive(h, ms, o);
    AcquireReplies(h, ms, capacity, o);
    AcquireKeeps(h, ms, capacity, o);
    ReservationEntry(h, ms, capacity, o);
    var h1 := Acquire(h, ms, capacity, o).0;
    ActivateReserved(h1, later, o, ms + 30000);
    var h2 := Activate(h1, later, o).0;
    ActivateKeeps(h1, later, o);
    ActivateCapacity(h1, later, o);
    ReleaseKeeps(h2, o);
    EmptiedHash(Release(h2, o));
  }

  lemma ActivateCapacity(h: Hash, ms: int, o: OwnerId)
    ensures Activate(h, ms, o).0.capacity == h.capacity
  {
  }

  lemma NotLive(h: Hash, ms: int, o: OwnerId)
    requires o !in h.owners
    ensures o !in Live(h, ms)
  {
  }

  lemma EmptiedHash(h: Hash)
    requires HashOk(h)
    ensures h.owners == map[] <==> h.capacity == None
  {
  }
}
