/** Who holds the guard of a row, exactly: a guard exists from the run that took it until that
    run releases it, and the release is skipped only after a dispatch without success. */
module RowGuards {
  import opened Outcomes
  import opened RowIdentity
  import opened BulkRow

  // ---------------------------------------------------------------------------------
  // What a step changes

  /** The stepping run after its step, and where it may have got to. */
  ghost predicate Moves(s: System, e: Event, run: Run)
    requires !e.Enqueue?
  {
    if e.Deliver? then run == Run(e.job, Starting, false, false)
    else
      && e.r in s.runs
      && var was := s.runs[e.r];
         && run.job == was.job
         && run.dispatched == (was.dispatched || e.Offer?)
         && (run.phase.Starting? ==> was.phase.Starting? && !e.TakeGuard?)
         && (InBody(was.phase) && !e.Close? ==> InBody(run.phase) || e.Crash?)
         && (run.phase.Counting? ==> e.Close? || run.phase == was.phase)
         && (run.phase.Ended? ==> was.phase.Counting? || was.phase.Ended?)
         && (e.Offer? ==> was.phase.Issuing?)
  }

  /** A step rewrites one run, and only the two guarded steps touch the guards. */
  lemma StepMoves(s: System, e: Event)
    requires Enabled(s, e) && !e.Enqueue?
    ensures e.r in After(s, e).runs && After(s, e).runs == s.runs[e.r := After(s, e).runs[e.r]]
    ensures Moves(s, e, After(s, e).runs[e.r])
    ensures !e.TakeGuard? && !e.Close? ==> After(s, e).guards == s.guards
  {
    hide After, Moves, Enabled;
    match e {
      case TakeGuard(_, _) => TakeMoves(s, e);
      case Close(_, _, _) => CloseMoves(s, e);
      case Mark(_, _, _) => StoreMoves(s, e);
      case Save(_, _, _) => StoreMoves(s, e);
      case ReadRow(_, _) => ReadMoves(s, e);
      case Count(_, _) => CountMoves(s, e);
      case _ => PlainMoves(s, e);
    }
  }

  lemma PlainMoves(s: System, e: Event)
    requires Enabled(s, e) && (e.Deliver? || e.Offer? || e.Issued? || e.Crash?)
    ensures e.r in After(s, e).runs && After(s, e).runs == s.runs[e.r := After(s, e).runs[e.r]]
    ensures Moves(s, e, After(s, e).runs[e.r]) && After(s, e).guards == s.guards
  {
    hide Queued;
  }

  lemma TakeMoves(s: System, e: Event)
    requires Enabled(s, e) && e.TakeGuard?
    ensures e.r in After(s, e).runs && After(s, e).runs == s.runs[e.r := After(s, e).runs[e.r]]
    ensures Moves(s, e, After(s, e).runs[e.r])
  {
    hide RowKey, ReleaseRow;
  }

  lemma CloseMoves(s: System, e: Event)
    requires Enabled(s, e) && e.Close?
    ensures e.r in After(s, e).runs && After(s, e).runs == s.runs[e.r := After(s, e).runs[e.r]]
    ensures Moves(s, e, After(s, e).runs[e.r])
  {
    hide RowKey, ReleaseRow;
  }

  lemma StoreMoves(s: System, e: Event)
    requires Enabled(s, e) && (e.Mark? || e.Save?)
    ensures e.r in After(s, e).runs && After(s, e).runs == s.runs[e.r := After(s, e).runs[e.r]]
    ensures Moves(s, e, After(s, e).runs[e.r]) && After(s, e).guards == s.guards
  {
    hide DbId, UpdateRow;
  }

  lemma ReadMoves(s: System, e: Event)
    requires Enabled(s, e) && e.ReadRow?
    ensures e.r in After(s, e).runs && After(s, e).runs == s.runs[e.r := After(s, e).runs[e.r]]
    ensures Moves(s, e, After(s, e).runs[e.r]) && After(s, e).guards == s.guards
  {
    hide AfterReadRow;
    var phase := ReadIsMove(s, e.r, e.ok);
  }

  lemma CountMoves(s: System, e: Event)
    requires Enabled(s, e) && e.Count?
    ensures e.r in After(s, e).runs && After(s, e).runs == s.runs[e.r := After(s, e).runs[e.r]]
    ensures Moves(s, e, After(s, e).runs[e.r]) && After(s, e).guards == s.guards
  {
    hide Complete, CompletedRows, Fired, Fold;
  }

  // ---------------------------------------------------------------------------------
  // Over runs: a run holds the guard exactly if it took it and has not freed it

  /** Run r found the row's key unset and set it, whether or not it heard so. */
  ghost predicate TookAt(states: seq<System>, events: seq<Event>, i: nat, r: RunId)
    requires |states| == |events| + 1 && i < |events|
  {
    events[i].TakeGuard? && events[i].r == r && r in states[i].runs && RowKey(states[i].runs[r].job) !in states[i].guards
  }

  /** Run r's finally block reached the RELEASE_ROW script: after success, or with nothing dispatched. */
  ghost predicate FreedAt(states: seq<System>, events: seq<Event>, i: nat, r: RunId)
    requires |states| == |events| + 1 && i < |events|
  {
    && events[i].Close? && events[i].r == r && events[i].effect && r in states[i].runs
    && (states[i].runs[r].phase == Closing(Some(true)) || !states[i].runs[r].dispatched)
  }

  ghost predicate Took(states: seq<System>, events: seq<Event>, n: nat, r: RunId)
    requires |states| == |events| + 1 && n <= |events|
  {
    exists i :: 0 <= i < n && TookAt(states, events, i, r)
  }

  ghost predicate Freed(states: seq<System>, events: seq<Event>, n: nat, r: RunId)
    requires |states| == |events| + 1 && n <= |events|
  {
    exists i :: 0 <= i < n && FreedAt(states, events, i, r)
  }

  /** Guards belong to known runs, and only to the row of their run. */
  ghost predicate Owned(s: System) {
    forall k :: k in s.guards ==> s.guards[k] in s.runs && RowKey(s.runs[s.guards[k]].job) == k
  }

  lemma OwnedStep(s: System, e: Event)
    requires Owned(s) && Enabled(s, e)
    ensures Owned(After(s, e))
    ensures forall r :: r in s.runs ==> r in After(s, e).runs && After(s, e).runs[r].job == s.runs[r].job
  {
    if !e.Enqueue? {
      hide After, Enabled, RowKey, Owned;
      StepMoves(s, e);
      SameJobs(s, e);
      if e.TakeGuard? {
        TakeOwned(s, e);
      } else if e.Close? {
        CloseOwned(s, e);
      } else {
        StillOwned(s, After(s, e));
      }
    }
  }

  lemma SameJobs(s: System, e: Event)
    requires Enabled(s, e) && !e.Enqueue? && e.r in After(s, e).runs && Moves(s, e, After(s, e).runs[e.r])
    requires After(s, e).runs == s.runs[e.r := After(s, e).runs[e.r]]
    ensures forall r :: r in s.runs ==> r in After(s, e).runs && After(s, e).runs[r].job == s.runs[r].job
  {
    hide After, Queued;
  }

  lemma StillOwned(s: System, s': System)
    requires Owned(s) && s'.guards == s.guards
    requires forall r :: r in s.runs ==> r in s'.runs && s'.runs[r].job == s.runs[r].job
    ensures Owned(s')
  {
    hide RowKey;
  }

  lemma TakeOwned(s: System, e: Event)
    requires Owned(s) && Enabled(s, e) && e.TakeGuard?
    ensures Owned(After(s, e))
  {
    hide RowKey;
  }

  lemma CloseOwned(s: System, e: Event)
    requires Owned(s) && Enabled(s, e) && e.Close?
    ensures Owned(After(s, e))
  {
    hide RowKey;
  }

  lemma {:induction false} OwnedRun(states: seq<System>, events: seq<Event>, n: nat)
    requires IsRun(states, events) && n < |states|
    ensures Owned(states[n])
  {
    hide After, Enabled, Owned;
    if n == 0 {
      assert Owned(states[0]) by { NothingOwned(states[0]); }
    } else {
      OwnedRun(states, events, n - 1);
      OwnedStep(states[n - 1], events[n - 1]);
    }
  }

  lemma NothingOwned(s: System)
    requires IsStart(s)
    ensures Owned(s)
  {
  }

  lemma TakeStep(s: System, e: Event, r: RunId)
    requires Owned(s) && Enabled(s, e) && e.TakeGuard? && r in s.runs
    requires e.r == r ==> !HoldsGuard(s, r)
    ensures r in After(s, e).runs && After(s, e).runs[r].job == s.runs[r].job
    ensures HoldsGuard(After(s, e), r) <==> HoldsGuard(s, r) || (e.r == r && RowKey(s.runs[r].job) !in s.guards)
  {
    hide RowKey, Owned;
    OwnedStep(s, e);
  }

  lemma CloseStep(s: System, e: Event, r: RunId)
    requires Owned(s) && Enabled(s, e) && e.Close? && r in s.runs
    ensures r in After(s, e).runs && After(s, e).runs[r].job == s.runs[r].job
    ensures HoldsGuard(After(s, e), r) <==>
              HoldsGuard(s, r) &&
              !(e.r == r && e.effect && (s.runs[r].phase == Closing(Some(true)) || !s.runs[r].dispatched))
  {
    hide RowKey;
  }

  /** A run starts once: its phase never returns to Starting. */
  lemma StartsOnce(s: System, e: Event, r: RunId)
    requires Enabled(s, e) && r in s.runs
    ensures r in After(s, e).runs
    ensures After(s, e).runs[r].phase.Starting? ==> s.runs[r].phase.Starting? && !(e.TakeGuard? && e.r == r)
  {
    if !e.Enqueue? {
      hide After, Queued;
      StepMoves(s, e);
    }
  }

  lemma {:induction false} NotYet(states: seq<System>, events: seq<Event>, n: nat, r: RunId)
    requires IsRun(states, events) && n < |states|
    requires r !in states[n].runs || states[n].runs[r].phase.Starting?
    ensures !Took(states, events, n, r) && !Freed(states, events, n, r)
  {
    hide After, RowKey;
    if n > 0 {
      var s := states[n - 1];
      if r in s.runs {
        StartsOnce(s, events[n - 1], r);
      }
      NotYet(states, events, n - 1, r);
      OneMore(states, events, n, r);
    }
  }

  lemma OneMore(states: seq<System>, events: seq<Event>, n: nat, r: RunId)
    requires |states| == |events| + 1 && 0 < n <= |events|
    ensures Took(states, events, n, r) <==> Took(states, events, n - 1, r) || TookAt(states, events, n - 1, r)
    ensures Freed(states, events, n, r) <==> Freed(states, events, n - 1, r) || FreedAt(states, events, n - 1, r)
  {
    hide TookAt, FreedAt;
  }

  lemma Newcomer(s: System, e: Event, r: RunId)
    requires Owned(s) && Enabled(s, e) && r !in s.runs && r in After(s, e).runs
    ensures e.Deliver? && e.r == r && !HoldsGuard(After(s, e), r)
  {
    if !e.Enqueue? {
      hide After, Queued, RowKey;
      StepMoves(s, e);
    }
  }

  lemma HeldStep(states: seq<System>, events: seq<Event>, n: nat, r: RunId)
    requires IsRun(states, events) && 0 < n < |states| && r in states[n - 1].runs && Owned(states[n - 1])
    requires HoldsGuard(states[n - 1], r) <==> Took(states, events, n - 1, r) && !Freed(states, events, n - 1, r)
    ensures r in states[n].runs
    ensures HoldsGuard(states[n], r) <==>
              (HoldsGuard(states[n - 1], r) || TookAt(states, events, n - 1, r)) && !FreedAt(states, events, n - 1, r)
    ensures TookAt(states, events, n - 1, r) ==> !Freed(states, events, n - 1, r) && !FreedAt(states, events, n - 1, r)
  {
    hide After, RowKey, Took, Freed;
    var s, e := states[n - 1], events[n - 1];
    StartsOnce(s, e, r);
    if e.TakeGuard? {
      if e.r == r {
        NotYet(states, events, n - 1, r);
      }
      TakeStep(s, e, r);
    } else if e.Close? {
      CloseStep(s, e, r);
    } else {
      OtherStep(s, e);
      OwnedStep(s, e);
    }
  }

  lemma OtherStep(s: System, e: Event)
    requires Enabled(s, e) && !e.TakeGuard? && !e.Close?
    ensures After(s, e).guards == s.guards
  {
    if !e.Enqueue? {
      hide After, Enabled;
      StepMoves(s, e);
    }
  }

  /** A run holds the guard of its row exactly from taking it until freeing it. */
  lemma {:induction false} GuardHeld(states: seq<System>, events: seq<Event>, n: nat, r: RunId)
    requires IsRun(states, events) && n < |states| && r in states[n].runs
    ensures HoldsGuard(states[n], r) <==> Took(states, events, n, r) && !Freed(states, events, n, r)
  {
    hide After, RowKey, Took, Freed;
    if n > 0 {
      var s, e := states[n - 1], events[n - 1];
      OwnedRun(states, events, n - 1);
      if r in s.runs {
        GuardHeld(states, events, n - 1, r);
        HeldStep(states, events, n, r);
        OneMore(states, events, n, r);
      } else {
        NotYet(states, events, n - 1, r);
        Newcomer(s, e, r);
        OneMore(states, events, n, r);
      }
    }
  }

  /** Why a run may have left its body with the guard still held. */
  ghost predicate Excuse(states: seq<System>, events: seq<Event>, i: nat, r: RunId)
    requires |states| == |events| + 1 && i < |events|
  {
    && r in states[i].runs
    && (|| events[i] == Crash(r)
        || events[i] == TakeGuard(r, false)
        || (events[i].Close? && events[i].r == r && !events[i].ok)
        || (events[i].Close? && events[i].r == r && states[i].runs[r].dispatched && states[i].runs[r].phase != Closing(Some(true))))
  }

  lemma BodyStep(s: System, e: Event, r: RunId)
    requires Enabled(s, e) && r in s.runs && InBody(s.runs[r].phase) && !e.Close?
    ensures r in After(s, e).runs && (InBody(After(s, e).runs[r].phase) || e == Crash(r))
  {
    if !e.Enqueue? {
      hide After, Queued, InBody;
      StepMoves(s, e);
    }
  }

  lemma OtherCloses(s: System, e: Event, r: RunId)
    requires Enabled(s, e) && r in s.runs && e.Close? && e.r != r
    ensures r in After(s, e).runs && After(s, e).runs[r] == s.runs[r]
  {
    hide RowKey, ReleaseRow;
  }

  lemma OntoGuard(s: System, e: Event, r: RunId)
    requires Enabled(s, e) && e.TakeGuard? && e.r == r && RowKey(s.runs[r].job) !in s.guards
    ensures r in After(s, e).runs && (InBody(After(s, e).runs[r].phase) || e == TakeGuard(r, false))
  {
    hide RowKey;
  }

  /** One step of run r from its body, or onto its guard. */
  lemma LeavesBody(states: seq<System>, events: seq<Event>, n: nat, r: RunId)
    requires IsRun(states, events) && 0 < n < |states| && r in states[n - 1].runs && r in states[n].runs
    requires InBody(states[n - 1].runs[r].phase) || TookAt(states, events, n - 1, r)
    requires !FreedAt(states, events, n - 1, r)
    ensures InBody(states[n].runs[r].phase) || Excuse(states, events, n - 1, r)
  {
    hide RowKey, After, InBody;
    var s, e := states[n - 1], events[n - 1];
    if TookAt(states, events, n - 1, r) {
      OntoGuard(s, e, r);
    } else if !e.Close? {
      BodyStep(s, e, r);
    } else if e.r != r {
      OtherCloses(s, e, r);
    }
  }

  lemma {:induction false} HolderExplained(states: seq<System>, events: seq<Event>, n: nat, r: RunId)
    requires IsRun(states, events) && n < |states| && r in states[n].runs && HoldsGuard(states[n], r)
    ensures InBody(states[n].runs[r].phase) || exists i :: 0 <= i < n && Excuse(states, events, i, r)
  {
    hide After, RowKey, InBody, Excuse;
    if n > 0 {
      OwnedRun(states, events, n - 1);
      if r !in states[n - 1].runs {
        Newcomer(states[n - 1], events[n - 1], r);
        assert false;
      } else {
        GuardHeld(states, events, n - 1, r);
        HeldStep(states, events, n, r);
        if HoldsGuard(states[n - 1], r) {
          HolderExplained(states, events, n - 1, r);
        }
        if InBody(states[n - 1].runs[r].phase) || TookAt(states, events, n - 1, r) {
          LeavesBody(states, events, n, r);
        }
      }
    }
  }

  /** A guard that exists belongs to a run of that row which is in its body, dispatched and
      ended without success, died, or had a guard or release call fail. */
  lemma GuardExplained(states: seq<System>, events: seq<Event>, n: nat, k: Key)
    requires IsRun(states, events) && n < |states| && k in states[n].guards
    ensures var r := states[n].guards[k];
            && r in states[n].runs
            && (var job := states[n].runs[r].job; k == Key(Fold(job.orgId), Fold(job.fileId), Fold(job.rowId)))
            && (InBody(states[n].runs[r].phase) || exists i :: 0 <= i < n && Excuse(states, events, i, r))
  {
    hide InBody, Excuse;
    OwnedRun(states, events, n);
    HolderExplained(states, events, n, states[n].guards[k]);
  }

  // ---------------------------------------------------------------------------------
  // After the finally block

  /** What the result of a run says about its guard. */
  ghost predicate Returned(s: System, r: RunId)
    requires r in s.runs
  {
    && (s.runs[r].phase.Counting? ==> (HoldsGuard(s, r) <==> !s.runs[r].phase.succeeded && s.runs[r].dispatched))
    && (s.runs[r].phase.Ended? ==> (HoldsGuard(s, r) ==> s.runs[r].dispatched))
  }

  lemma ReturnedStep(s: System, e: Event, r: RunId)
    requires GuardInv(s) && Owned(s) && Enabled(s, e) && r in s.runs && Returned(s, r)
    ensures r in After(s, e).runs && Returned(After(s, e), r)
  {
    hide After, RowKey, GuardInv;
    if e.TakeGuard? {
      TakeReturned(s, e, r);
    } else if e.Close? {
      CloseReturned(s, e, r);
    } else {
      RestReturned(s, e, r);
    }
  }

  lemma TakeReturned(s: System, e: Event, r: RunId)
    requires Owned(s) && Enabled(s, e) && e.TakeGuard? && r in s.runs && Returned(s, r)
    ensures r in After(s, e).runs && Returned(After(s, e), r)
  {
    hide RowKey, Owned;
    StepMoves(s, e);
    if e.r != r {
      TakeStep(s, e, r);
    }
  }

  lemma CloseReturned(s: System, e: Event, r: RunId)
    requires GuardInv(s) && Owned(s) && Enabled(s, e) && e.Close? && r in s.runs && Returned(s, r)
    ensures r in After(s, e).runs && Returned(After(s, e), r)
  {
    hide RowKey, OfferRecorded, OneDispatcher;
    assert PhaseOk(s, r);
    CloseStep(s, e, r);
  }

  lemma RestReturned(s: System, e: Event, r: RunId)
    requires Enabled(s, e) && !e.TakeGuard? && !e.Close? && r in s.runs && Returned(s, r)
    ensures r in After(s, e).runs && Returned(After(s, e), r)
  {
    if !e.Enqueue? {
      hide After, Queued, RowKey, Enabled;
      StepMoves(s, e);
    }
  }

  lemma NewReturned(s: System, e: Event, r: RunId)
    requires Owned(s) && Enabled(s, e) && r !in s.runs && r in After(s, e).runs
    ensures Returned(After(s, e), r)
  {
    hide After, Enabled, HoldsGuard;
    Newcomer(s, e, r);
    StepMoves(s, e);
  }

  /** In every run: a run that returned to its caller holds its guard exactly if it dispatched
      and did not succeed. */
  lemma {:induction false} ReturnedRun(states: seq<System>, events: seq<Event>, n: nat, r: RunId)
    requires IsRun(states, events) && n < |states| && r in states[n].runs
    ensures states[n].runs[r].phase.Counting? ==>
              (HoldsGuard(states[n], r) <==> !states[n].runs[r].phase.succeeded && states[n].runs[r].dispatched)
    ensures states[n].runs[r].phase.Ended? ==> (HoldsGuard(states[n], r) ==> states[n].runs[r].dispatched)
  {
    hide After, RowKey, GuardInv;
    if n > 0 {
      if r in states[n - 1].runs {
        ReturnedRun(states, events, n - 1, r);
        GuardRun(states, events, n - 1);
        OwnedRun(states, events, n - 1);
        ReturnedStep(states[n - 1], events[n - 1], r);
      } else {
        OwnedRun(states, events, n - 1);
        NewReturned(states[n - 1], events[n - 1], r);
      }
    }
  }

  lemma {:induction false} RunsStay(states: seq<System>, events: seq<Event>, i: nat, n: nat, r: RunId)
    requires IsRun(states, events) && i <= n < |states| && r in states[i].runs
    ensures r in states[n].runs && states[n].runs[r].job == states[i].runs[r].job
  {
    hide After, Enabled;
    if i < n {
      RunsStay(states, events, i, n - 1, r);
      OwnedRun(states, events, n - 1);
      OwnedStep(states[n - 1], events[n - 1]);
    }
  }

  /** The row can be retried again: once the last run that took its guard has returned
      without dispatching, no guard is left, so the retry check lets the row through. */
  lemma ReturnedRowIsFree(states: seq<System>, events: seq<Event>, i: nat, n: nat, r: RunId)
    requires IsRun(states, events) && i < n < |states| && TookAt(states, events, i, r) && r in states[n].runs
    requires forall j, p :: i < j < n && TookAt(states, events, j, p) ==>
               RowKey(states[j].runs[p].job) != RowKey(states[i].runs[r].job)
    requires states[n].runs[r].phase.Counting? || states[n].runs[r].phase.Ended?
    requires !states[n].runs[r].dispatched
    ensures var job := states[n].runs[r].job; Key(Fold(job.orgId), Fold(job.fileId), Fold(job.rowId)) !in states[n].guards
  {
    hide After, Fold;
    RunsStay(states, events, i, n, r);
    var k := RowKey(states[n].runs[r].job);
    if k in states[n].guards {
      var p := states[n].guards[k];
      OwnedRun(states, events, n);
      GuardHeld(states, events, n, p);
      ReturnedRun(states, events, n, r);
      var j :| 0 <= j < n && TookAt(states, events, j, p);
      RunsStay(states, events, j, n, p);
      HeldBefore(states, events, j, i, n, p);
      assert false;
    }
  }

  lemma HeldBefore(states: seq<System>, events: seq<Event>, j: nat, i: nat, n: nat, p: RunId)
    requires IsRun(states, events) && j < i <= n < |states| && TookAt(states, events, j, p) && !Freed(states, events, n, p)
    ensures p in states[i].runs && states[i].runs[p].job == states[j].runs[p].job && HoldsGuard(states[i], p)
  {
    hide After, TookAt, FreedAt, RowKey;
    assert p in states[j].runs by { TakerKnown(states, events, j, p); }
    RunsStay(states, events, j, i, p);
    GuardHeld(states, events, i, p);
  }

  lemma TakerKnown(states: seq<System>, events: seq<Event>, j: nat, p: RunId)
    requires |states| == |events| + 1 && j < |events| && TookAt(states, events, j, p)
    ensures p in states[j].runs
  {
  }
}
