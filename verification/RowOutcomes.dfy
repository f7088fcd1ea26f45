/** What one undisturbed run of a bulk row does to the store, exactly: whether it dispatches,
    what the row and the guard are afterwards, and that the row is counted. */
module RowOutcomes {
  import opened Outcomes
  import opened RowIdentity
  import opened BulkRow

  /** The course of a run: the row is issued already, or issuing fails before or after the
      offer is dispatched, or it succeeds. */
  datatype Fate = AlreadyIssued | FailsBefore | FailsAfter | Succeeds

  function Opening(r: RunId, job: Job): seq<Event> {
    [Deliver(r, job), TakeGuard(r, true), ReadRow(r, true)]
  }

  function Issuance(r: RunId, fate: Fate): seq<Event> {
    match fate
    case AlreadyIssued => []
    case FailsBefore => [Issued(r, false), Save(r, true, true)]
    case FailsAfter => [Offer(r), Issued(r, false), Save(r, true, true)]
    case Succeeds => [Offer(r), Issued(r, true), Mark(r, true, true), Save(r, true, true)]
  }

  function Closure(r: RunId): seq<Event> {
    [Close(r, true, true), Count(r, true)]
  }

  /** The events happen one after the other and lead from s to t. */
  ghost predicate Leads(s: System, events: seq<Event>, t: System)
    decreases |events|
  {
    if events == [] then s == t
    else Enabled(s, events[0]) && Leads(After(s, events[0]), events[1..], t)
  }

  lemma {:induction false} LeadsOn(s: System, a: seq<Event>, u: System, b: seq<Event>, t: System)
    requires Leads(s, a, u) && Leads(u, b, t)
    ensures Leads(s, a + b, t)
    decreases |a|
  {
    hide Enabled, After;
    if a == [] {
      assert a + b == b;
    } else {
      assert (a + b)[1..] == a[1..] + b && (a + b)[0] == a[0];
      LeadsOn(After(s, a[0]), a[1..], u, b, t);
    }
  }

  lemma OneLeads(s: System, e: Event)
    requires Enabled(s, e)
    ensures Leads(s, [e], After(s, e))
  {
    hide Enabled, After;
    assert [e][1..] == [];
    assert Leads(After(s, e), [], After(s, e));
  }

  /** The system s while only run r changes it. */
  function Amid(s: System, r: RunId, job: Job, guarded: bool, status: bool, isError: bool, phase: Phase, dispatched: bool): System
    requires DbId(job) in s.db
  {
    s.(guards := if guarded then s.guards[RowKey(job) := r] else s.guards,
       db := s.db[DbId(job) := s.db[DbId(job)].(status := status, isError := isError)],
       runs := s.runs[r := Run(job, phase, dispatched, false)])
  }

  lemma Overwrite<K, V>(m: map<K, V>, k: K, x: V, y: V)
    ensures m[k := x][k := y] == m[k := y]
    ensures k in m && m[k] == x ==> m[k := x] == m
  {
  }

  ghost predicate Ready(s: System, r: RunId, job: Job) {
    r !in s.runs && Queued(s.batches, job) && Found(s.db, job) && RowKey(job) !in s.guards
  }

  lemma DeliverAmid(s: System, r: RunId, job: Job)
    requires Ready(s, r, job)
    ensures var row := s.db[DbId(job)];
            Leads(s, [Deliver(r, job)], Amid(s, r, job, false, row.status, row.isError, Starting, false))
  {
    hide RowKey, DbId, Queued;
    var row := s.db[DbId(job)];
    Overwrite(s.db, DbId(job), row, row);
    OneLeads(s, Deliver(r, job));
  }

  lemma TakeAmid(s: System, r: RunId, job: Job, status: bool, isError: bool)
    requires DbId(job) in s.db && RowKey(job) !in s.guards
    ensures Leads(Amid(s, r, job, false, status, isError, Starting, false), [TakeGuard(r, true)],
                  Amid(s, r, job, true, status, isError, Reading, false))
  {
    hide RowKey, DbId;
    var u, v := Amid(s, r, job, false, status, isError, Starting, false), Amid(s, r, job, true, status, isError, Reading, false);
    Overwrite(s.runs, r, u.runs[r], v.runs[r]);
    OneLeads(u, TakeGuard(r, true));
  }

  lemma ReadAmid(s: System, r: RunId, job: Job, status: bool, isError: bool)
    requires Found(s.db, job)
    ensures Leads(Amid(s, r, job, true, status, isError, Reading, false), [ReadRow(r, true)],
                  Amid(s, r, job, true, status, isError, if status then Closing(Some(true)) else Issuing, false))
  {
    hide RowKey, DbId;
    var u := Amid(s, r, job, true, status, isError, Reading, false);
    var v := Amid(s, r, job, true, status, isError, if status then Closing(Some(true)) else Issuing, false);
    Overwrite(s.runs, r, u.runs[r], v.runs[r]);
    OneLeads(u, ReadRow(r, true));
  }

  lemma Opened(s: System, r: RunId, job: Job)
    requires Ready(s, r, job)
    ensures var row := s.db[DbId(job)];
            Leads(s, Opening(r, job), Amid(s, r, job, true, row.status, row.isError,
                                           if row.status then Closing(Some(true)) else Issuing, false))
  {
    hide RowKey, DbId, Queued, Amid, Leads;
    var row := s.db[DbId(job)];
    var s1 := Amid(s, r, job, false, row.status, row.isError, Starting, false);
    var s2 := Amid(s, r, job, true, row.status, row.isError, Reading, false);
    var s3 := Amid(s, r, job, true, row.status, row.isError, if row.status then Closing(Some(true)) else Issuing, false);
    DeliverAmid(s, r, job);
    TakeAmid(s, r, job, row.status, row.isError);
    ReadAmid(s, r, job, row.status, row.isError);
    LeadsOn(s, [Deliver(r, job)], s1, [TakeGuard(r, true)], s2);
    assert [Deliver(r, job)] + [TakeGuard(r, true)] == [Deliver(r, job), TakeGuard(r, true)];
    LeadsOn(s, [Deliver(r, job), TakeGuard(r, true)], s2, [ReadRow(r, true)], s3);
    assert [Deliver(r, job), TakeGuard(r, true)] + [ReadRow(r, true)] == Opening(r, job);
  }

  /** Steps of the stepping run on its own row. */
  lemma OfferAmid(s: System, r: RunId, job: Job, status: bool, isError: bool)
    requires DbId(job) in s.db
    ensures Leads(Amid(s, r, job, true, status, isError, Issuing, false), [Offer(r)],
                  Amid(s, r, job, true, status, isError, Issuing, true))
  {
    hide RowKey, DbId;
    var u, v := Amid(s, r, job, true, status, isError, Issuing, false), Amid(s, r, job, true, status, isError, Issuing, true);
    Overwrite(s.runs, r, u.runs[r], v.runs[r]);
    OneLeads(u, Offer(r));
  }

  lemma IssuedAmid(s: System, r: RunId, job: Job, status: bool, isError: bool, ok: bool, dispatched: bool)
    requires DbId(job) in s.db
    ensures Leads(Amid(s, r, job, true, status, isError, Issuing, dispatched), [Issued(r, ok)],
                  Amid(s, r, job, true, status, isError, if ok then Marking else Saving(true), dispatched))
  {
    hide RowKey, DbId;
    var u := Amid(s, r, job, true, status, isError, Issuing, dispatched);
    var v := Amid(s, r, job, true, status, isError, if ok then Marking else Saving(true), dispatched);
    Overwrite(s.runs, r, u.runs[r], v.runs[r]);
    OneLeads(u, Issued(r, ok));
  }

  lemma MarkAmid(s: System, r: RunId, job: Job, status: bool, isError: bool, dispatched: bool)
    requires DbId(job) in s.db
    ensures Leads(Amid(s, r, job, true, status, isError, Marking, dispatched), [Mark(r, true, true)],
                  Amid(s, r, job, true, true, isError, Saving(false), dispatched))
  {
    hide RowKey, DbId;
    var u := Amid(s, r, job, true, status, isError, Marking, dispatched);
    var v := Amid(s, r, job, true, true, isError, Saving(false), dispatched);
    Overwrite(s.runs, r, u.runs[r], v.runs[r]);
    Overwrite(s.db, DbId(job), u.db[DbId(job)], v.db[DbId(job)]);
    OneLeads(u, Mark(r, true, true));
  }

  lemma SaveAmid(s: System, r: RunId, job: Job, status: bool, isError: bool, failed: bool, dispatched: bool)
    requires DbId(job) in s.db
    ensures Leads(Amid(s, r, job, true, status, isError, Saving(failed), dispatched), [Save(r, true, true)],
                  Amid(s, r, job, true, status, failed, Closing(Some(!failed)), dispatched))
  {
    hide RowKey, DbId;
    var u := Amid(s, r, job, true, status, isError, Saving(failed), dispatched);
    var v := Amid(s, r, job, true, status, failed, Closing(Some(!failed)), dispatched);
    Overwrite(s.runs, r, u.runs[r], v.runs[r]);
    Overwrite(s.db, DbId(job), u.db[DbId(job)], v.db[DbId(job)]);
    OneLeads(u, Save(r, true, true));
  }

  /** The guard is kept only after a dispatch without success. */
  lemma CloseAmid(s: System, r: RunId, job: Job, status: bool, isError: bool, succeeded: bool, dispatched: bool)
    requires DbId(job) in s.db && RowKey(job) !in s.guards
    ensures Leads(Amid(s, r, job, true, status, isError, Closing(Some(succeeded)), dispatched), [Close(r, true, true)],
                  Amid(s, r, job, dispatched && !succeeded, status, isError, Counting(succeeded), dispatched))
  {
    hide RowKey, DbId;
    var u := Amid(s, r, job, true, status, isError, Closing(Some(succeeded)), dispatched);
    var v := Amid(s, r, job, dispatched && !succeeded, status, isError, Counting(succeeded), dispatched);
    Overwrite(s.runs, r, u.runs[r], v.runs[r]);
    assert s.guards[RowKey(job) := r] - {RowKey(job)} == s.guards;
    OneLeads(u, Close(r, true, true));
  }

  /** The system after the whole run, spelled out. */
  ghost function Outcome(s: System, r: RunId, job: Job, fate: Fate): System
    requires Lower(job.rowId) in s.db
  {
    var key := Key(Fold(job.orgId), Fold(job.fileId), Fold(job.rowId));
    var id, x := Lower(job.rowId), Fold(job.rowId);
    var done := if job.batch in s.completed then s.completed[job.batch] else {};
    var fired := if job.batch in s.fired then s.fired[job.batch] else 0;
    System(
      if fate == FailsAfter then s.guards[key := r] else s.guards,
      match fate
      case AlreadyIssued => s.db
      case Succeeds => s.db[id := s.db[id].(status := true, isError := false)]
      case _ => s.db[id := s.db[id].(isError := true)],
      s.runs[r := Run(job, Ended, fate == FailsAfter || fate == Succeeds, true)],
      s.batches,
      s.completed[job.batch := done + {x}],
      s.fired[job.batch := fired + if x !in done && |done| + 1 == job.total then 1 else 0])
  }

  lemma CountAmid(s: System, r: RunId, job: Job, guarded: bool, status: bool, isError: bool, succeeded: bool, dispatched: bool)
    requires DbId(job) in s.db
    ensures var u := Amid(s, r, job, guarded, status, isError, Counting(succeeded), dispatched);
            var (done, reply) := Complete(CompletedRows(s, job.batch), Fold(job.rowId), job.total);
            Leads(u, [Count(r, true)],
                  u.(runs := s.runs[r := Run(job, Ended, dispatched, true)],
                     completed := s.completed[job.batch := done],
                     fired := s.fired[job.batch := Fired(s, job.batch) + if reply == 1 then 1 else 0]))
  {
    hide RowKey, DbId, Complete, Fold;
    var u := Amid(s, r, job, guarded, status, isError, Counting(succeeded), dispatched);
    Overwrite(s.runs, r, u.runs[r], Run(job, Ended, dispatched, true));
    OneLeads(u, Count(r, true));
  }

  lemma Replies(done: set<string>, x: string, total: nat)
    ensures Complete(done, x, total) == (done + {x}, if x !in done && |done| + 1 == total then 1 else 0)
  {
  }

  /** From the open body to the finally block. */
  lemma Handled(s: System, r: RunId, job: Job, fate: Fate, status: bool, isError: bool)
    requires DbId(job) in s.db && fate != AlreadyIssued
    ensures Leads(Amid(s, r, job, true, status, isError, Issuing, false), Issuance(r, fate),
                  Amid(s, r, job, true, status || fate == Succeeds, fate != Succeeds, Closing(Some(fate == Succeeds)), fate != FailsBefore))
  {
    hide Amid, DbId, Leads;
    var a := Amid(s, r, job, true, status, isError, Issuing, false);
    var dispatched, ok := fate != FailsBefore, fate == Succeeds;
    var b := Amid(s, r, job, true, status, isError, Issuing, dispatched);
    var c := Amid(s, r, job, true, status, isError, if ok then Marking else Saving(true), dispatched);
    var d := Amid(s, r, job, true, status || ok, isError, Saving(!ok), dispatched);
    var e := Amid(s, r, job, true, status || ok, !ok, Closing(Some(ok)), dispatched);
    IssuedAmid(s, r, job, status, isError, ok, dispatched);
    SaveAmid(s, r, job, status || ok, isError, !ok, dispatched);
    if ok {
      MarkAmid(s, r, job, status, isError, dispatched);
      LeadsOn(c, [Mark(r, true, true)], d, [Save(r, true, true)], e);
      assert [Mark(r, true, true)] + [Save(r, true, true)] == [Mark(r, true, true), Save(r, true, true)];
    }
    var rest := if ok then [Mark(r, true, true), Save(r, true, true)] else [Save(r, true, true)];
    assert Leads(c, rest, e);
    LeadsOn(b, [Issued(r, ok)], c, rest, e);
    if dispatched {
      OfferAmid(s, r, job, status, isError);
      LeadsOn(a, [Offer(r)], b, [Issued(r, ok)] + rest, e);
      assert [Offer(r)] + ([Issued(r, ok)] + rest) == Issuance(r, fate);
    } else {
      assert [Issued(r, ok)] + rest == Issuance(r, fate);
    }
  }

  /** A run that nothing disturbs dispatches exactly if the row is not issued and the failure,
      if any, comes after the offer; it leaves the guard only after a dispatch without success,
      records the outcome on the row, and is counted once. */
  lemma RowAlone(s: System, r: RunId, job: Job, fate: Fate)
    requires Ready(s, r, job) && (fate == AlreadyIssued <==> s.db[DbId(job)].status)
    ensures Leads(s, Opening(r, job) + Issuance(r, fate) + Closure(r), Outcome(s, r, job, fate))
  {
    hide Amid, Leads, Fold, RowKey, Complete, Issuance, Opening, Queued;
    var row := s.db[DbId(job)];
    var status, isError := row.status || fate == Succeeds, if fate == AlreadyIssued then row.isError else fate != Succeeds;
    var ok, dispatched := fate == Succeeds || fate == AlreadyIssued, fate == FailsAfter || fate == Succeeds;
    var a := Amid(s, r, job, true, row.status, row.isError, if row.status then Closing(Some(true)) else Issuing, false);
    var b := Amid(s, r, job, true, status, isError, Closing(Some(ok)), dispatched);
    Opened(s, r, job);
    if fate == AlreadyIssued {
      NothingToIssue(s, r, job, a);
    } else {
      Handled(s, r, job, fate, row.status, row.isError);
    }
    LeadsOn(s, Opening(r, job), a, Issuance(r, fate), b);
    CloseAmid(s, r, job, status, isError, ok, dispatched);
    var c := Amid(s, r, job, dispatched && !ok, status, isError, Counting(ok), dispatched);
    LeadsOn(s, Opening(r, job) + Issuance(r, fate), b, [Close(r, true, true)], c);
    CountAmid(s, r, job, dispatched && !ok, status, isError, ok, dispatched);
    Replies(CompletedRows(s, job.batch), Fold(job.rowId), job.total);
    assert Outcome(s, r, job, fate) == CountedOutcome(s, r, job, dispatched && !ok, status, isError, ok, dispatched)
      by { SameOutcome(s, r, job, fate); }
    LeadsOn(s, Opening(r, job) + Issuance(r, fate) + [Close(r, true, true)], c, [Count(r, true)], Outcome(s, r, job, fate));
    assert Opening(r, job) + Issuance(r, fate) + [Close(r, true, true)] + [Count(r, true)]
        == Opening(r, job) + Issuance(r, fate) + Closure(r);
  }

  ghost function CountedOutcome(s: System, r: RunId, job: Job, guarded: bool, status: bool, isError: bool, succeeded: bool, dispatched: bool): System
    requires DbId(job) in s.db
  {
    var u := Amid(s, r, job, guarded, status, isError, Counting(succeeded), dispatched);
    var (done, reply) := Complete(CompletedRows(s, job.batch), Fold(job.rowId), job.total);
    u.(runs := s.runs[r := Run(job, Ended, dispatched, true)],
       completed := s.completed[job.batch := done],
       fired := s.fired[job.batch := Fired(s, job.batch) + if reply == 1 then 1 else 0])
  }

  lemma NothingToIssue(s: System, r: RunId, job: Job, a: System)
    ensures Leads(a, Issuance(r, AlreadyIssued), a)
  {
  }

  lemma SameOutcome(s: System, r: RunId, job: Job, fate: Fate)
    requires DbId(job) in s.db && (fate == AlreadyIssued <==> s.db[DbId(job)].status)
    ensures var row := s.db[DbId(job)];
            var status, isError := row.status || fate == Succeeds, if fate == AlreadyIssued then row.isError else fate != Succeeds;
            var ok, dispatched := fate == Succeeds || fate == AlreadyIssued, fate == FailsAfter || fate == Succeeds;
            Outcome(s, r, job, fate) == CountedOutcome(s, r, job, dispatched && !ok, status, isError, ok, dispatched)
  {
    hide Complete, Fold;
    Replies(CompletedRows(s, job.batch), Fold(job.rowId), job.total);
    var row := s.db[DbId(job)];
    Overwrite(s.db, DbId(job), row, row);
  }
}
