/** Every slot of a base wallet is accounted for: as long as no store goes unheard, the counter
    is the number of stored sub-wallets, slots booked, and slots that a crash or a lost
    decrement has leaked. */
module WalletSlots {
  import opened Outcomes
  import opened WalletCapacity

  /** The event drops a booked slot of b without lowering the counter. */
  predicate Leak(s: System, e: Event, b: BaseId) {
    && (e.Crash? || (e.GiveBack? && !e.effect))
    && e.c in s.calls && HoldsSlot(s.calls[e.c], b)
  }

  function Leaks(states: seq<System>, events: seq<Event>, n: nat, b: BaseId): nat
    requires n <= |events| < |states|
  {
    if n == 0 then 0 else Leaks(states, events, n - 1, b) + if Leak(states[n - 1], events[n - 1], b) then 1 else 0
  }

  ghost predicate Exact(s: System, b: BaseId, leaks: nat)
    requires b in s.bases
  {
    s.bases[b].useCount == |Stored(s, b)| + |Booked(s, b)| + leaks
  }

  predicate Unheard(e: Event) {
    e.StoreSub? && e.effect && !e.ok
  }

  function One(b: bool): nat {
    if b then 1 else 0
  }

  lemma QuietExact(s: System, e: Event, b: BaseId, leaks: nat)
    requires b in s.bases && Exact(s, b, leaks) && Enabled(s, e)
    requires e.ReadForCreate? || e.Fail? || e.ReadForDelete? || e.Crash?
    ensures b in After(s, e).bases && Exact(After(s, e), b, leaks + One(Leak(s, e, b)))
  {
    hide Stored, Booked, Available, Newest;
    var s' := After(s, e);
    BookedMove(s, s', e.c, s'.calls[e.c], b);
    SameStored(s, s', b);
  }

  lemma ClaimExact(s: System, e: Event, b: BaseId, leaks: nat)
    requires b in s.bases && Exact(s, b, leaks) && Enabled(s, e) && e.ClaimSlot?
    ensures b in After(s, e).bases && Exact(After(s, e), b, leaks + One(Leak(s, e, b)))
  {
    hide Stored, Booked;
    var s' := After(s, e);
    BookedMove(s, s', e.c, s'.calls[e.c], b);
    SameStored(s, s', b);
  }

  lemma GiveBackExact(s: System, e: Event, b: BaseId, leaks: nat)
    requires b in s.bases && Exact(s, b, leaks) && Enabled(s, e) && e.GiveBack?
    ensures b in After(s, e).bases && Exact(After(s, e), b, leaks + One(Leak(s, e, b)))
  {
    hide Stored, Booked;
    var s' := After(s, e);
    BookedMove(s, s', e.c, Done, b);
    SameStored(s, s', b);
  }

  lemma StoreExact(s: System, e: Event, b: BaseId, leaks: nat)
    requires b in s.bases && Exact(s, b, leaks) && Enabled(s, e) && e.StoreSub? && !Unheard(e)
    ensures b in After(s, e).bases && Exact(After(s, e), b, leaks + One(Leak(s, e, b)))
  {
    hide Stored, Booked;
    var s' := After(s, e);
    BookedMove(s, s', e.c, s'.calls[e.c], b);
    if e.effect {
      StoredAdd(s, s', e.sub, s'.subs[e.sub], b);
    } else {
      SameStored(s, s', b);
    }
  }

  lemma DeleteExact(s: System, e: Event, b: BaseId, leaks: nat)
    requires b in s.bases && Exact(s, b, leaks) && Enabled(s, e) && e.DeleteRow? && CallOk(s, s.calls[e.c])
    ensures b in After(s, e).bases && Exact(After(s, e), b, leaks + One(Leak(s, e, b)))
  {
    hide Stored, Booked;
    var s' := After(s, e);
    BookedMove(s, s', e.c, s'.calls[e.c], b);
    if s.calls[e.c].sub in s.subs {
      StoredRemove(s, s', s.calls[e.c].sub, b);
    } else {
      SameStored(s, s', b);
    }
  }

  lemma EditExact(s: System, e: Event, b: BaseId, leaks: nat)
    requires b in s.bases && Exact(s, b, leaks) && Enabled(s, e) && (e.EditBase? || e.AddBase?)
    ensures b in After(s, e).bases && Exact(After(s, e), b, leaks + One(Leak(s, e, b)))
  {
    hide Stored, Booked;
    SameStored(s, After(s, e), b);
    SameBooked(s, After(s, e), b);
  }

  lemma StepExact(s: System, e: Event, b: BaseId, leaks: nat)
    requires Consistent(s) && b in s.bases && Exact(s, b, leaks) && Enabled(s, e) && !Unheard(e)
    ensures b in After(s, e).bases && Exact(After(s, e), b, leaks + One(Leak(s, e, b)))
  {
    hide After, Exact, Leak, CallOk, DistinctEndpoints, Available, Newest;
    match e {
      case ClaimSlot(_) => ClaimExact(s, e, b, leaks);
      case GiveBack(_, _) => GiveBackExact(s, e, b, leaks);
      case StoreSub(_, _, _, _) => StoreExact(s, e, b, leaks);
      case DeleteRow(_) => DeleteExact(s, e, b, leaks);
      case EditBase(_, _, _) => EditExact(s, e, b, leaks);
      case AddBase(_, _) => EditExact(s, e, b, leaks);
      case _ => QuietExact(s, e, b, leaks);
    }
  }

  /** A wallet that is not there yet has leaked nothing. */
  lemma {:induction false} NoLeaks(states: seq<System>, events: seq<Event>, n: nat, b: BaseId)
    requires Proper(states, events) && n < |states| && b !in states[n].bases
    ensures Leaks(states, events, n, b) == 0
  {
    hide After, Enabled, Inv, KeepsEndpoints, StoredFresh, DistinctEndpoints;
    if n > 0 {
      RunKeeps(states, events, n - 1);
      BasesStay(states[n - 1], events[n - 1]);
      NoLeaks(states, events, n - 1, b);
      NoSlot(states[n - 1], events[n - 1], b);
    }
  }

  lemma BasesStay(s: System, e: Event)
    requires Inv(s) && Enabled(s, e)
    ensures s.bases.Keys <= After(s, e).bases.Keys
  {
    hide Enabled, After, DistinctEndpoints, Within, CallOk;
    SteadyStep(s, e);
  }

  lemma NoSlot(s: System, e: Event, b: BaseId)
    requires Inv(s) && b !in s.bases
    ensures !Leak(s, e, b)
  {
    hide DistinctEndpoints, Within;
    assert Leak(s, e, b) ==> CallOk(s, s.calls[e.c]);
  }

  lemma NewExact(s: System, e: Event, b: BaseId)
    requires Inv(s) && Enabled(s, e) && b !in s.bases && b in After(s, e).bases
    ensures Exact(After(s, e), b, 0)
  {
    hide Within, DistinctEndpoints, Stored, Booked, CallOk, Claim, Decrement;
    Unused(s, b);
    OnlyAdds(s, e, b);
    SameStored(s, After(s, e), b);
    SameBooked(s, After(s, e), b);
  }

  lemma OnlyAdds(s: System, e: Event, b: BaseId)
    requires Enabled(s, e) && b !in s.bases && b in After(s, e).bases
    ensures e.AddBase? && e.id == b
  {
    hide Available, Newest;
  }

  /** Conservation: whatever interleaves, the counter is exactly the stored sub-wallets, the
      booked slots and the leaked ones, as long as every store that wrote its row was heard. */
  lemma {:induction false} SlotsExact(states: seq<System>, events: seq<Event>, n: nat, b: BaseId)
    requires Proper(states, events) && n < |states| && b in states[n].bases
    requires forall i :: 0 <= i < n ==> !Unheard(events[i])
    ensures states[n].bases[b].useCount == |Stored(states[n], b)| + |Booked(states[n], b)| + Leaks(states, events, n, b)
  {
    hide After, Enabled, Inv, KeepsEndpoints, StoredFresh, DistinctEndpoints, Leak, Stored;
    if n == 0 {
      assert Booked(states[0], b) == {};
    } else {
      var s, e := states[n - 1], events[n - 1];
      RunKeeps(states, events, n - 1);
      if b in s.bases {
        SlotsExact(states, events, n - 1, b);
        InvConsistent(s);
        StepExact(s, e, b, Leaks(states, events, n - 1, b));
      } else {
        NoLeaks(states, events, n - 1, b);
        NoSlot(s, e, b);
        NewExact(s, e, b);
      }
    }
  }

  lemma InvConsistent(s: System)
    requires Inv(s)
    ensures Consistent(s)
  {
  }

  /** A create whose wallet nobody has touched since it was read gets its slot. */
  lemma UndisturbedClaim(s: System, c: CallId, found: BaseId)
    requires c !in s.calls && Available(s.bases, found)
    ensures var u := After(s, ReadForCreate(c, found));
            && Enabled(s, ReadForCreate(c, found)) && Enabled(u, ClaimSlot(c))
            && After(u, ClaimSlot(c)).calls[c] == Claimed(found)
            && After(u, ClaimSlot(c)).bases == s.bases[found := s.bases[found].(useCount := s.bases[found].useCount + 1)]
  {
  }
}
