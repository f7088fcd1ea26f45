/** Processing of one bulk-issuance row: the guard in Redis, the row's status in the
    database, the offer in between, and the count of completed rows of a batch. Each step
    is one await-free stretch of the program; runs of any workers interleave freely. */
module BulkRow {
  import opened Outcomes
  import opened Sets
  import opened RowIdentity

  type RunId = nat

  type BatchId = string

  datatype Key = Key(orgId: string, fileId: string, rowId: string)

  datatype Job = Job(orgId: string, fileId: string, rowId: string, batch: BatchId, total: nat)

  datatype FileRow = FileRow(orgId: string, fileId: string, status: bool, isError: bool)

  type Table = map<string, FileRow>

  function RowKey(job: Job): Key {
    Key(Fold(job.orgId), Fold(job.fileId), Fold(job.rowId))
  }

  function DbId(job: Job): string {
    Lower(job.rowId)
  }

  /** The row lookup of getFileDataForProcessing: id, file and organisation must all match. */
  predicate Found(db: Table, job: Job) {
    && DbId(job) in db
    && db[DbId(job)].fileId == Lower(job.fileId)
    && db[DbId(job)].orgId == Lower(job.orgId)
  }

  /** The COMPLETE script on a batch's set of completed rows: the new set and the reply. */
  function Complete(done: set<string>, row: string, total: nat): (set<string>, int) {
    var done' := done + {row};
    (done', if row !in done && |done'| == total then 1 else 0)
  }

  /** The RELEASE_ROW script. */
  function ReleaseRow(guards: map<Key, RunId>, key: Key, owner: RunId): map<Key, RunId> {
    if key in guards && guards[key] == owner then guards - {key} else guards
  }

  datatype Phase =
    | Starting
    | Reading                           // the guard is held
    | Issuing                           // the row was read as not yet issued
    | Marking                           // every offer and delivery succeeded
    | Saving(failed: bool)
    | Closing(result: Option<bool>)     // the finally block; None is an exception
    | Counting(succeeded: bool)
    | Ended
    | Threw
    | Dead

  datatype Run = Run(job: Job, phase: Phase, dispatched: bool, counted: bool)

  datatype System = System(
    guards: map<Key, RunId>,
    db: Table,
    runs: map<RunId, Run>,
    batches: map<BatchId, set<string>>,
    completed: map<BatchId, set<string>>,
    fired: map<BatchId, nat>)

  /** In an unreliable call `effect` says whether the store executed it and `ok` whether
      the caller heard of success; success is never heard without the effect. */
  datatype Event =
    | Enqueue(batch: BatchId, rows: set<string>)
    | Deliver(r: RunId, job: Job)
    | TakeGuard(r: RunId, ok: bool)
    | ReadRow(r: RunId, ok: bool)
    | Offer(r: RunId)
    | Issued(r: RunId, ok: bool)
    | Mark(r: RunId, effect: bool, ok: bool)
    | Save(r: RunId, effect: bool, ok: bool)
    | Close(r: RunId, effect: bool, ok: bool)
    | Count(r: RunId, effect: bool)
    | Crash(r: RunId)

  predicate At(s: System, r: RunId, phase: Phase) {
    r in s.runs && s.runs[r].phase == phase
  }

  /** Jobs come from a queued batch, any number of times and in any order. */
  predicate Queued(batches: map<BatchId, set<string>>, job: Job) {
    && job.batch in batches
    && Fold(job.rowId) in batches[job.batch]
    && job.total == |batches[job.batch]|
  }

  predicate Enabled(s: System, e: Event) {
    match e
    case Enqueue(b, rows) => b !in s.batches && rows != {}
    case Deliver(r, job) => r !in s.runs && Queued(s.batches, job)
    case TakeGuard(r, _) => At(s, r, Starting)
    case ReadRow(r, _) => At(s, r, Reading)
    case Offer(r) => At(s, r, Issuing)
    case Issued(r, _) => At(s, r, Issuing)
    case Mark(r, effect, ok) => At(s, r, Marking) && (ok ==> effect)
    case Save(r, effect, ok) => r in s.runs && s.runs[r].phase.Saving? && (ok ==> effect)
    case Close(r, effect, ok) => r in s.runs && s.runs[r].phase.Closing? && (ok ==> effect)
    case Count(r, _) => r in s.runs && s.runs[r].phase.Counting?
    case Crash(r) => r in s.runs
  }

  function Move(s: System, r: RunId, phase: Phase): System
    requires r in s.runs
  {
    s.(runs := s.runs[r := s.runs[r].(phase := phase)])
  }

  function AfterTakeGuard(s: System, r: RunId, ok: bool): System
    requires r in s.runs
  {
    var key := RowKey(s.runs[r].job);
    if key in s.guards then Move(s, r, Threw)
    else Move(s.(guards := s.guards[key := r]), r, if ok then Reading else Threw)
  }

  function AfterReadRow(s: System, r: RunId, ok: bool): System
    requires r in s.runs
  {
    var job := s.runs[r].job;
    if !ok || !Found(s.db, job) then Move(s, r, Closing(None))
    else if s.db[DbId(job)].status then Move(s, r, Closing(Some(true)))
    else Move(s, r, Issuing)
  }

  function UpdateRow(db: Table, id: string, status: bool, isError: bool): Table {
    if id in db then db[id := db[id].(status := status, isError := isError)] else db
  }

  function AfterMark(s: System, r: RunId, effect: bool, ok: bool): System
    requires r in s.runs
  {
    var id := DbId(s.runs[r].job);
    var db := if effect && id in s.db then UpdateRow(s.db, id, true, s.db[id].isError) else s.db;
    Move(s.(db := db), r, Saving(!ok))
  }

  function AfterSave(s: System, r: RunId, effect: bool, ok: bool): System
    requires r in s.runs && s.runs[r].phase.Saving?
  {
    var id := DbId(s.runs[r].job);
    var failed := s.runs[r].phase.failed;
    var db := if effect && id in s.db then UpdateRow(s.db, id, s.db[id].status, failed) else s.db;
    Move(s.(db := db), r, Closing(if ok then Some(!failed) else None))
  }

  /** The guard is released after success, and after a run that never dispatched. */
  function AfterClose(s: System, r: RunId, effect: bool, ok: bool): System
    requires r in s.runs && s.runs[r].phase.Closing?
  {
    var run := s.runs[r];
    var releases := run.phase.result == Some(true) || !run.dispatched;
    var guards := if releases && effect then ReleaseRow(s.guards, RowKey(run.job), r) else s.guards;
    Move(s.(guards := guards), r,
         if run.phase.result.None? || (releases && !ok) then Threw else Counting(run.phase.result.value))
  }

  function CompletedRows(s: System, b: BatchId): set<string> {
    if b in s.completed then s.completed[b] else {}
  }

  function Fired(s: System, b: BatchId): nat {
    if b in s.fired then s.fired[b] else 0
  }

  function AfterCount(s: System, r: RunId, effect: bool): System
    requires r in s.runs
  {
    if !effect then Move(s, r, Threw)
    else
      var run := s.runs[r];
      var b := run.job.batch;
      var (done, reply) := Complete(CompletedRows(s, b), Fold(run.job.rowId), run.job.total);
      s.(runs := s.runs[r := run.(phase := Ended, counted := true)],
         completed := s.completed[b := done],
         fired := s.fired[b := Fired(s, b) + if reply == 1 then 1 else 0])
  }

  function After(s: System, e: Event): System
    requires Enabled(s, e)
  {
    match e
    case Enqueue(b, rows) => s.(batches := s.batches[b := rows])
    case Deliver(r, job) => s.(runs := s.runs[r := Run(job, Starting, false, false)])
    case TakeGuard(r, ok) => AfterTakeGuard(s, r, ok)
    case ReadRow(r, ok) => AfterReadRow(s, r, ok)
    case Offer(r) => s.(runs := s.runs[r := s.runs[r].(dispatched := true)])
    case Issued(r, ok) => Move(s, r, if ok then Marking else Saving(true))
    case Mark(r, effect, ok) => AfterMark(s, r, effect, ok)
    case Save(r, effect, ok) => AfterSave(s, r, effect, ok)
    case Close(r, effect, ok) => AfterClose(s, r, effect, ok)
    case Count(r, effect) => AfterCount(s, r, effect)
    case Crash(r) => Move(s, r, Dead)
  }

  /** Initially nothing runs and nothing is guarded; database ids carry no outer blanks. */
  ghost predicate IsStart(s: System) {
    && s == System(map[], s.db, map[], map[], map[], map[])
    && forall id :: id in s.db ==> Trim(id) == id
  }

  ghost predicate IsRun(states: seq<System>, events: seq<Event>) {
    && |states| == |events| + 1
    && IsStart(states[0])
    && forall i :: 0 <= i < |events| ==> Enabled(states[i], events[i]) && states[i + 1] == After(states[i], events[i])
  }

  // ---------------------------------------------------------------------------------
  // The guard and the status together

  predicate HoldsGuard(s: System, r: RunId)
    requires r in s.runs
  {
    RowKey(s.runs[r].job) in s.guards && s.guards[RowKey(s.runs[r].job)] == r
  }

  predicate InBody(phase: Phase) {
    phase.Reading? || phase.Issuing? || phase.Marking? || phase.Saving? || phase.Closing?
  }

  predicate Status(s: System, r: RunId)
    requires r in s.runs
  {
    Found(s.db, s.runs[r].job) && s.db[DbId(s.runs[r].job)].status
  }

  predicate Persisted(s: System, r: RunId)
    requires r in s.runs
  {
    Found(s.db, s.runs[r].job) && (s.db[DbId(s.runs[r].job)].status || s.db[DbId(s.runs[r].job)].isError)
  }

  /** What the phase of a run says about the guard and the stored row. */
  predicate PhaseOk(s: System, r: RunId)
    requires r in s.runs
  {
    var phase := s.runs[r].phase;
    && (InBody(phase) ==> HoldsGuard(s, r))
    && (phase.Issuing? ==> Found(s.db, s.runs[r].job) && !Status(s, r))
    && (phase.Marking? || phase.Saving? ==> Found(s.db, s.runs[r].job))
    && (phase == Saving(false) || phase == Closing(Some(true)) ==> Status(s, r))
    && ((phase.Closing? && phase.result.Some?) || phase.Counting? || s.runs[r].counted ==> Persisted(s, r))
  }

  /** A run that dispatched an offer still holds its guard, or its row is marked issued. */
  predicate OfferRecorded(s: System, r: RunId)
    requires r in s.runs
  {
    s.runs[r].dispatched ==> Found(s.db, s.runs[r].job) && (HoldsGuard(s, r) || Status(s, r))
  }

  ghost predicate OneDispatcher(s: System) {
    forall p, q ::
      (p in s.runs && q in s.runs && s.runs[p].dispatched && s.runs[q].dispatched
       && DbId(s.runs[p].job) == DbId(s.runs[q].job)) ==> p == q
  }

  ghost predicate GuardInv(s: System) {
    && (forall r :: r in s.runs ==> PhaseOk(s, r) && OfferRecorded(s, r))
    && OneDispatcher(s)
  }

  /** Two runs that found the same row compete for the same guard. */
  lemma SameRowSameKey(db: Table, p: Job, q: Job)
    requires Found(db, p) && Found(db, q) && DbId(p) == DbId(q)
    ensures RowKey(p) == RowKey(q)
  {
    SameIdSameKey(p.rowId, q.rowId);
    SameIdSameKey(p.fileId, q.fileId);
    SameIdSameKey(p.orgId, q.orgId);
  }

  /** A step changes one run; for the others it may add a guard nobody held, drop the
      stepping run's own guard, and touch only the row the stepping run was working on. */
  ghost predicate Quiet(s: System, s': System, r: RunId) {
    && r in s'.runs
    && (forall p :: p in s.runs && p != r ==> p in s'.runs && s'.runs[p] == s.runs[p])
    && (forall p :: p in s'.runs && p != r ==> p in s.runs)
    && (forall k :: k in s.guards && s.guards[k] != r ==> k in s'.guards && s'.guards[k] == s.guards[k])
    && s'.db.Keys == s.db.Keys
    && (forall id :: id in s.db ==>
          && s'.db[id].orgId == s.db[id].orgId && s'.db[id].fileId == s.db[id].fileId
          && (s.db[id].status ==> s'.db[id].status)
          && (s.db[id].status || s.db[id].isError ==> s'.db[id].status || s'.db[id].isError))
  }

  /** Only a run that holds the row's guard marks the row as issued. */
  ghost predicate MarksOwnRow(s: System, s': System, r: RunId) {
    forall id :: id in s.db && id in s'.db && s'.db[id].status && !s.db[id].status ==>
      r in s.runs && Found(s.db, s.runs[r].job) && DbId(s.runs[r].job) == id && HoldsGuard(s, r)
  }

  lemma OthersKeep(s: System, s': System, r: RunId, p: RunId)
    requires GuardInv(s) && Quiet(s, s', r) && MarksOwnRow(s, s', r) && p in s.runs && p != r
    ensures PhaseOk(s', p) && OfferRecorded(s', p)
  {
    hide OneDispatcher, RowKey, DbId;
    if s.runs[p].phase.Issuing? && Status(s', p) {
      SameRowSameKey(s.db, s.runs[p].job, s.runs[r].job);
      assert false;
    }
  }

  lemma Assemble(s: System, s': System, r: RunId)
    requires GuardInv(s) && Quiet(s, s', r) && MarksOwnRow(s, s', r)
    requires PhaseOk(s', r) && OfferRecorded(s', r)
    requires r in s.runs ==> s'.runs[r].dispatched == s.runs[r].dispatched && s'.runs[r].job == s.runs[r].job
    requires r !in s.runs ==> !s'.runs[r].dispatched
    ensures GuardInv(s')
  {
    hide PhaseOk, OfferRecorded, Quiet, MarksOwnRow;
    forall p | p in s'.runs && p != r
      ensures PhaseOk(s', p) && OfferRecorded(s', p)
    {
      QuietRuns(s, s', r, p);
      OthersKeep(s, s', r, p);
    }
    assert OneDispatcher(s') by { QuietDispatchers(s, s', r); }
  }

  lemma QuietRuns(s: System, s': System, r: RunId, p: RunId)
    requires Quiet(s, s', r) && p in s'.runs && p != r
    ensures p in s.runs && s'.runs[p] == s.runs[p]
  {
  }

  lemma QuietDispatchers(s: System, s': System, r: RunId)
    requires Quiet(s, s', r) && OneDispatcher(s)
    requires r in s.runs ==> s'.runs[r].dispatched == s.runs[r].dispatched && s'.runs[r].job == s.runs[r].job
    requires r !in s.runs ==> !s'.runs[r].dispatched
    ensures OneDispatcher(s')
  {
    hide DbId;
  }

  /** The heart of the protocol: a run about to dispatch is the row's first dispatcher. */
  lemma OfferKeeps(s: System, r: RunId)
    requires GuardInv(s) && At(s, r, Issuing)
    ensures GuardInv(s.(runs := s.runs[r := s.runs[r].(dispatched := true)]))
  {
    hide RowKey, DbId;
    var s' := s.(runs := s.runs[r := s.runs[r].(dispatched := true)]);
    assert PhaseOk(s, r);
    forall p | p in s.runs && p != r && s.runs[p].dispatched && DbId(s.runs[p].job) == DbId(s.runs[r].job)
      ensures false
    {
      assert OfferRecorded(s, p);
      SameRowSameKey(s.db, s.runs[p].job, s.runs[r].job);
    }
    forall p | p in s'.runs
      ensures PhaseOk(s', p) && OfferRecorded(s', p)
    {
      assert PhaseOk(s, p) && OfferRecorded(s, p);
    }
  }

  /** All that a step of run r owes the invariant. */
  ghost predicate StepOk(s: System, s': System, r: RunId) {
    && Quiet(s, s', r) && MarksOwnRow(s, s', r)
    && PhaseOk(s', r) && OfferRecorded(s', r)
    && (r in s.runs ==> s'.runs[r].dispatched == s.runs[r].dispatched && s'.runs[r].job == s.runs[r].job)
    && (r !in s.runs ==> !s'.runs[r].dispatched)
  }

  lemma DeliverOk(s: System, r: RunId, job: Job)
    requires r !in s.runs
    ensures StepOk(s, s.(runs := s.runs[r := Run(job, Starting, false, false)]), r)
  {
    hide Found, RowKey;
  }

  lemma TakeGuardQuiet(s: System, r: RunId, ok: bool)
    requires r in s.runs && RowKey(s.runs[r].job) !in s.guards
    ensures Quiet(s, AfterTakeGuard(s, r, ok), r)
  {
    hide RowKey;
  }

  lemma TakeGuardOk(s: System, r: RunId, ok: bool)
    requires At(s, r, Starting) && PhaseOk(s, r) && OfferRecorded(s, r)
    ensures StepOk(s, AfterTakeGuard(s, r, ok), r)
  {
    hide StepOk, PhaseOk, OfferRecorded;
    if RowKey(s.runs[r].job) in s.guards {
      ThrewOk(s, r);
    } else {
      GuardTaken(s, r, ok);
    }
  }

  lemma ThrewOk(s: System, r: RunId)
    requires r in s.runs && PhaseOk(s, r) && OfferRecorded(s, r)
    ensures StepOk(s, Move(s, r, Threw), r)
  {
    hide Found, RowKey, DbId;
  }

  lemma GuardTaken(s: System, r: RunId, ok: bool)
    requires At(s, r, Starting) && PhaseOk(s, r) && OfferRecorded(s, r) && RowKey(s.runs[r].job) !in s.guards
    ensures StepOk(s, AfterTakeGuard(s, r, ok), r)
  {
    hide Found, RowKey, DbId, Persisted, Quiet;
    var s' := AfterTakeGuard(s, r, ok);
    SameRows(s, s', r);
    TakeGuardQuiet(s, r, ok);
  }

  lemma SameRows(s: System, s': System, r: RunId)
    requires r in s.runs && r in s'.runs && s'.runs[r].job == s.runs[r].job && s'.db == s.db
    ensures Persisted(s', r) == Persisted(s, r)
  {
  }

  lemma MoveQuiet(s: System, r: RunId, phase: Phase)
    requires r in s.runs
    ensures Quiet(s, Move(s, r, phase), r) && MarksOwnRow(s, Move(s, r, phase), r)
  {
    hide Found;
  }

  lemma ReadRowOk(s: System, r: RunId, ok: bool)
    requires At(s, r, Reading) && PhaseOk(s, r) && OfferRecorded(s, r)
    ensures StepOk(s, AfterReadRow(s, r, ok), r)
  {
    hide RowKey, DbId, Found, Quiet, MarksOwnRow;
    var phase := ReadIsMove(s, r, ok);
    MoveQuiet(s, r, phase);
  }

  lemma MoveOk(s: System, r: RunId, phase: Phase)
    requires r in s.runs && PhaseOk(s, r) && OfferRecorded(s, r)
    requires phase == Dead || (s.runs[r].phase.Issuing? && (phase == Marking || phase == Saving(true)))
    ensures StepOk(s, Move(s, r, phase), r)
  {
    hide Found, RowKey;
  }

  lemma MarkOk(s: System, r: RunId, effect: bool, ok: bool)
    requires At(s, r, Marking) && PhaseOk(s, r) && OfferRecorded(s, r) && (ok ==> effect)
    ensures StepOk(s, AfterMark(s, r, effect, ok), r)
  {
    hide RowKey, DbId;
  }

  lemma SaveOk(s: System, r: RunId, effect: bool, ok: bool)
    requires r in s.runs && s.runs[r].phase.Saving? && PhaseOk(s, r) && OfferRecorded(s, r) && (ok ==> effect)
    ensures StepOk(s, AfterSave(s, r, effect, ok), r)
  {
    hide RowKey, DbId;
  }

  lemma CloseOk(s: System, r: RunId, effect: bool, ok: bool)
    requires r in s.runs && s.runs[r].phase.Closing? && PhaseOk(s, r) && OfferRecorded(s, r)
    ensures StepOk(s, AfterClose(s, r, effect, ok), r)
  {
    hide RowKey, DbId;
  }

  lemma CountOk(s: System, r: RunId, effect: bool)
    requires r in s.runs && s.runs[r].phase.Counting? && PhaseOk(s, r) && OfferRecorded(s, r)
    ensures StepOk(s, AfterCount(s, r, effect), r)
  {
    hide Found, RowKey, DbId, Complete, CompletedRows, Fired;
  }

  lemma GuardStep(s: System, e: Event)
    requires GuardInv(s) && Enabled(s, e) && !e.Enqueue? && !e.Offer?
    ensures StepOk(s, After(s, e), e.r)
  {
    hide StepOk, OneDispatcher, PhaseOk, OfferRecorded;
    assert e.r in s.runs ==> PhaseOk(s, e.r) && OfferRecorded(s, e.r);
    match e {
      case Deliver(r, job) => DeliverOk(s, r, job);
      case TakeGuard(r, ok) => TakeGuardOk(s, r, ok);
      case ReadRow(r, ok) => ReadRowOk(s, r, ok);
      case Issued(r, ok) => MoveOk(s, r, if ok then Marking else Saving(true));
      case Mark(r, effect, ok) => MarkOk(s, r, effect, ok);
      case Save(r, effect, ok) => SaveOk(s, r, effect, ok);
      case Close(r, effect, ok) => CloseOk(s, r, effect, ok);
      case Count(r, effect) => CountOk(s, r, effect);
      case Crash(r) => MoveOk(s, r, Dead);
    }
  }

  lemma GuardKeeps(s: System, e: Event)
    requires GuardInv(s) && Enabled(s, e)
    ensures GuardInv(After(s, e))
  {
    hide GuardInv, After, PhaseOk, OfferRecorded, Quiet, MarksOwnRow;
    match e {
      case Enqueue(b, rows) => EnqueueKeeps(s, b, rows);
      case Offer(r) => OfferKeeps(s, r); OfferIs(s, r);
      case _ =>
        GuardStep(s, e);
        Assemble(s, After(s, e), e.r);
    }
  }

  lemma OfferIs(s: System, r: RunId)
    requires At(s, r, Issuing)
    ensures After(s, Offer(r)) == s.(runs := s.runs[r := s.runs[r].(dispatched := true)])
  {
  }

  lemma EnqueueKeeps(s: System, b: BatchId, rows: set<string>)
    requires GuardInv(s) && Enabled(s, Enqueue(b, rows))
    ensures GuardInv(After(s, Enqueue(b, rows)))
  {
    var s' := After(s, Enqueue(b, rows));
    assert forall r :: r in s.runs ==> PhaseOk(s, r) && OfferRecorded(s, r);
    assert forall r :: r in s'.runs ==> PhaseOk(s', r) == PhaseOk(s, r) && OfferRecorded(s', r) == OfferRecorded(s, r);
  }

  lemma GuardStart(s: System)
    requires IsStart(s)
    ensures GuardInv(s)
  {
  }

  lemma {:induction false} GuardRun(states: seq<System>, events: seq<Event>, n: nat)
    requires IsRun(states, events) && n < |states|
    ensures GuardInv(states[n])
  {
    hide GuardInv, After, Enabled;
    if n == 0 {
      GuardStart(states[0]);
    } else {
      GuardRun(states, events, n - 1);
      GuardKeeps(states[n - 1], events[n - 1]);
    }
  }

  /** Never replay a dispatched offer: over every interleaving of workers, redeliveries,
      retries, failures and crashes, at most one run of a row dispatches. */
  lemma AtMostOneDispatch(states: seq<System>, events: seq<Event>, n: nat, p: RunId, q: RunId)
    requires IsRun(states, events) && n < |states|
    requires p in states[n].runs && q in states[n].runs
    requires states[n].runs[p].dispatched && states[n].runs[q].dispatched
    requires Lower(states[n].runs[p].job.rowId) == Lower(states[n].runs[q].job.rowId)
    ensures p == q
  {
    GuardRun(states, events, n);
  }

  /** A dispatched row stays accounted for: its dispatcher still holds the guard, so every
      later run is refused, or the row is stored as issued, so every later run skips it. */
  lemma DispatchLeavesTrace(states: seq<System>, events: seq<Event>, n: nat, p: RunId)
    requires IsRun(states, events) && n < |states|
    requires p in states[n].runs && states[n].runs[p].dispatched
    ensures var s, job := states[n], states[n].runs[p].job;
            && Found(s.db, job)
            && ((RowKey(job) in s.guards && s.guards[RowKey(job)] == p) || s.db[DbId(job)].status)
  {
    GuardRun(states, events, n);
    assert OfferRecorded(states[n], p);
  }

  // ---------------------------------------------------------------------------------
  // Batch completion

  /** Completed rows belong to their batch, and the completion has fired iff they are all of it. */
  ghost predicate BatchOk(s: System, b: BatchId)
    requires b in s.batches
  {
    && s.batches[b] != {}
    && CompletedRows(s, b) <= s.batches[b]
    && Fired(s, b) == if CompletedRows(s, b) == s.batches[b] then 1 else 0
  }

  ghost predicate CountInv(s: System) {
    && (forall id :: id in s.db ==> Trim(id) == id)
    && s.completed.Keys <= s.batches.Keys && s.fired.Keys <= s.batches.Keys
    && (forall r :: r in s.runs ==> Queued(s.batches, s.runs[r].job))
    && (forall b :: b in s.batches ==> BatchOk(s, b))
  }

  ghost predicate Counts(run: Run, b: BatchId, x: string) {
    run.counted && run.job.batch == b && Fold(run.job.rowId) == x
  }

  ghost predicate HasCounted(s: System, b: BatchId, x: string) {
    exists r :: r in s.runs && Counts(s.runs[r], b, x)
  }

  /** The completed rows of a batch are exactly the rows of its counted runs. */
  ghost predicate CountedRuns(s: System) {
    forall b, x :: b in s.batches ==> (x in CompletedRows(s, b) <==> HasCounted(s, b, x))
  }

  /** The script answers 1 exactly when the added row was the last one missing. */
  lemma CompleteReplies(done: set<string>, row: string, all: set<string>)
    requires done <= all && row in all
    ensures Complete(done, row, |all|).1 == (if done != all && done + {row} == all then 1 else 0)
    ensures Complete(done, row, |all|).0 == done + {row} <= all
  {
    SubsetSize(done + {row}, all);
    if row in done {
      assert done + {row} == done;
    }
  }

  lemma CountKeeps(s: System, r: RunId)
    requires CountInv(s) && r in s.runs && s.runs[r].phase.Counting?
    ensures CountInv(AfterCount(s, r, true))
  {
    hide Fold, Trim, Complete, BatchOk, Queued;
    var job := s.runs[r].job;
    var s' := AfterCount(s, r, true);
    assert Queued(s.batches, job);
    QueuedBatch(s.batches, job);
    forall b | b in s'.batches
      ensures BatchOk(s', b)
    {
      CountBatch(s, r, b);
    }
  }

  lemma QueuedBatch(batches: map<BatchId, set<string>>, job: Job)
    requires Queued(batches, job)
    ensures job.batch in batches && Fold(job.rowId) in batches[job.batch] && job.total == |batches[job.batch]|
  {
  }

  lemma CountBatch(s: System, r: RunId, b: BatchId)
    requires r in s.runs && Queued(s.batches, s.runs[r].job) && b in s.batches
    requires BatchOk(s, s.runs[r].job.batch) && BatchOk(s, b)
    ensures BatchOk(AfterCount(s, r, true), b)
  {
    hide Fold, Complete;
    var job := s.runs[r].job;
    CompleteReplies(CompletedRows(s, job.batch), Fold(job.rowId), s.batches[job.batch]);
  }

  lemma CountedKeeps(s: System, r: RunId)
    requires CountInv(s) && CountedRuns(s) && r in s.runs && s.runs[r].phase.Counting?
    ensures CountedRuns(AfterCount(s, r, true))
  {
    hide Fold, Trim, Queued, BatchOk;
    var s' := AfterCount(s, r, true);
    var job := s.runs[r].job;
    assert Counts(s'.runs[r], job.batch, Fold(job.rowId));
    forall b, x | b in s'.batches
      ensures x in CompletedRows(s', b) <==> HasCounted(s', b, x)
    {
      if HasCounted(s, b, x) {
        var p :| p in s.runs && Counts(s.runs[p], b, x);
        assert Counts(s'.runs[p], b, x);
      }
    }
  }

  /** Every other event leaves the batches, the counts and the counted runs alone. */
  ghost predicate CountsAlone(s: System, s': System) {
    && s'.completed == s.completed && s'.fired == s.fired && s'.batches == s.batches
    && s'.db.Keys == s.db.Keys
    && (forall r :: r in s.runs ==>
          r in s'.runs && s'.runs[r].job == s.runs[r].job && s'.runs[r].counted == s.runs[r].counted)
    && (forall r :: r in s'.runs && r !in s.runs ==> Queued(s.batches, s'.runs[r].job) && !s'.runs[r].counted)
  }

  /** Such an event rewrites one run, keeping its job and its mark, and no row id. */
  lemma AloneUpdate(s: System, guards: map<Key, RunId>, db: Table, r: RunId, run: Run)
    requires db.Keys == s.db.Keys
    requires r in s.runs ==> run.job == s.runs[r].job && run.counted == s.runs[r].counted
    requires r !in s.runs ==> Queued(s.batches, run.job) && !run.counted
    ensures CountsAlone(s, s.(guards := guards, db := db, runs := s.runs[r := run]))
  {
    hide Queued;
  }

  lemma AloneSave(s: System, r: RunId, effect: bool, ok: bool)
    requires r in s.runs
    ensures CountsAlone(s, AfterMark(s, r, effect, ok))
    ensures s.runs[r].phase.Saving? ==> CountsAlone(s, AfterSave(s, r, effect, ok))
  {
    hide CountsAlone, DbId;
    var s' := AfterMark(s, r, effect, ok);
    AloneUpdate(s, s.guards, s'.db, r, s'.runs[r]);
    if s.runs[r].phase.Saving? {
      var s'' := AfterSave(s, r, effect, ok);
      AloneUpdate(s, s.guards, s''.db, r, s''.runs[r]);
    }
  }

  lemma AloneGuard(s: System, r: RunId, effect: bool, ok: bool)
    requires r in s.runs
    ensures CountsAlone(s, AfterTakeGuard(s, r, ok))
    ensures s.runs[r].phase.Closing? ==> CountsAlone(s, AfterClose(s, r, effect, ok))
  {
    hide CountsAlone, RowKey, ReleaseRow;
    var s' := AfterTakeGuard(s, r, ok);
    AloneUpdate(s, s'.guards, s.db, r, s'.runs[r]);
    if s.runs[r].phase.Closing? {
      var s'' := AfterClose(s, r, effect, ok);
      AloneUpdate(s, s''.guards, s.db, r, s''.runs[r]);
    }
  }

  lemma AloneStep(s: System, e: Event)
    requires Enabled(s, e) && !e.Enqueue? && !(e.Count? && e.effect)
    ensures CountsAlone(s, After(s, e))
  {
    hide CountsAlone, Queued, DbId, Found, AfterMark, AfterSave, AfterTakeGuard, AfterClose;
    if e.TakeGuard? || e.Close? {
      AloneGuard(s, e.r, e.Close? && e.effect, e.ok);
    } else if e.Mark? || e.Save? {
      AloneSave(s, e.r, e.effect, e.ok);
    } else {
      AloneRest(s, e);
    }
  }

  lemma AloneMove(s: System, r: RunId, phase: Phase)
    requires r in s.runs
    ensures CountsAlone(s, Move(s, r, phase))
  {
    hide CountsAlone;
    AloneUpdate(s, s.guards, s.db, r, s.runs[r].(phase := phase));
  }

  lemma ReadIsMove(s: System, r: RunId, ok: bool) returns (phase: Phase)
    requires r in s.runs
    ensures AfterReadRow(s, r, ok) == Move(s, r, phase) && (phase.Closing? || phase.Issuing?)
  {
    hide Found, DbId;
    phase := AfterReadRow(s, r, ok).runs[r].phase;
  }

  lemma AloneRest(s: System, e: Event)
    requires Enabled(s, e) && !e.Enqueue? && !(e.Count? && e.effect)
    requires !e.TakeGuard? && !e.Close? && !e.Mark? && !e.Save?
    ensures CountsAlone(s, After(s, e))
  {
    hide CountsAlone, Queued, AfterReadRow, Move, Complete;
    if e.Deliver? {
      AloneUpdate(s, s.guards, s.db, e.r, Run(e.job, Starting, false, false));
    } else if e.Offer? {
      AloneUpdate(s, s.guards, s.db, e.r, s.runs[e.r].(dispatched := true));
    } else if e.ReadRow? {
      var phase := ReadIsMove(s, e.r, e.ok);
      AloneMove(s, e.r, phase);
    } else if e.Issued? {
      AloneMove(s, e.r, if e.ok then Marking else Saving(true));
    } else {
      AloneMove(s, e.r, if e.Count? then Threw else Dead);
    }
  }

  lemma AloneCounts(s: System, s': System)
    requires CountsAlone(s, s') && CountInv(s)
    ensures CountInv(s')
  {
    hide Fold, Trim, Queued;
    forall b | b in s'.batches
      ensures BatchOk(s', b)
    {
      assert BatchOk(s, b);
    }
  }

  lemma AloneRuns(s: System, s': System)
    requires CountsAlone(s, s') && CountedRuns(s)
    ensures CountedRuns(s')
  {
    hide Fold, Queued;
    forall b, x | b in s'.batches
      ensures x in CompletedRows(s', b) <==> HasCounted(s', b, x)
    {
      if HasCounted(s, b, x) {
        var p :| p in s.runs && Counts(s.runs[p], b, x);
        assert Counts(s'.runs[p], b, x);
      }
      if HasCounted(s', b, x) {
        var p :| p in s'.runs && Counts(s'.runs[p], b, x);
        assert Counts(s.runs[p], b, x);
      }
    }
  }

  lemma EnqueueInv(s: System, b: BatchId, rows: set<string>)
    requires CountInv(s) && b !in s.batches && rows != {}
    ensures CountInv(s.(batches := s.batches[b := rows]))
  {
    hide Fold, Trim;
    var s' := s.(batches := s.batches[b := rows]);
    forall c | c in s'.batches
      ensures BatchOk(s', c)
    {
      if c != b {
        assert BatchOk(s, c);
      }
    }
  }

  lemma EnqueueRuns(s: System, b: BatchId, rows: set<string>)
    requires CountInv(s) && CountedRuns(s) && b !in s.batches
    ensures CountedRuns(s.(batches := s.batches[b := rows]))
  {
    hide Fold, Trim, BatchOk;
    var s' := s.(batches := s.batches[b := rows]);
    forall c, x | c in s'.batches
      ensures x in CompletedRows(s', c) <==> HasCounted(s', c, x)
    {
      if HasCounted(s', c, x) {
        var p :| p in s'.runs && Counts(s'.runs[p], c, x);
        assert Queued(s.batches, s.runs[p].job);
        assert HasCounted(s, c, x);
      } else if c in s.batches {
        assert !HasCounted(s, c, x);
      }
    }
  }

  lemma {:induction false} CountRun(states: seq<System>, events: seq<Event>, n: nat)
    requires IsRun(states, events) && n < |states|
    ensures CountInv(states[n]) && CountedRuns(states[n])
  {
    hide After, Enabled, Trim;
    if n > 0 {
      CountRun(states, events, n - 1);
      CountStep(states[n - 1], events[n - 1]);
    }
  }

  lemma CountStep(s: System, e: Event)
    requires CountInv(s) && CountedRuns(s) && Enabled(s, e)
    ensures CountInv(After(s, e)) && CountedRuns(After(s, e))
  {
    hide CountInv, CountedRuns, AfterCount, CountsAlone;
    if e.Enqueue? {
      EnqueueInv(s, e.batch, e.rows);
      EnqueueRuns(s, e.batch, e.rows);
    } else if e.Count? && e.effect {
      CountKeeps(s, e.r);
      CountedKeeps(s, e.r);
    } else {
      AloneStep(s, e);
      AloneCounts(s, After(s, e));
      AloneRuns(s, After(s, e));
    }
  }

  /** The completion of a batch fires at most once, and has fired exactly when every row
      of the batch has had a run that returned a result; a row that only threw is missing. */
  lemma CompletionFires(states: seq<System>, events: seq<Event>, n: nat, b: BatchId)
    requires IsRun(states, events) && n < |states| && b in states[n].batches
    ensures Fired(states[n], b) <= 1
    ensures Fired(states[n], b) == 1 <==> forall x :: x in states[n].batches[b] ==> HasCounted(states[n], b, x)
  {
    hide Fold, HasCounted;
    CountRun(states, events, n);
    var s := states[n];
    assert BatchOk(s, b);
    if forall x :: x in s.batches[b] ==> HasCounted(s, b, x) {
      assert CompletedRows(s, b) == s.batches[b];
    }
  }

  /** Every row counted as completed has a persisted outcome in the database. */
  lemma CountedRowsPersisted(states: seq<System>, events: seq<Event>, n: nat, b: BatchId, x: string)
    requires IsRun(states, events) && n < |states| && b in states[n].batches && x in CompletedRows(states[n], b)
    ensures x in states[n].db && (states[n].db[x].status || states[n].db[x].isError)
  {
    hide Fold, Lower, Trim, BatchOk;
    CountRun(states, events, n);
    GuardRun(states, events, n);
    var s := states[n];
    assert HasCounted(s, b, x);
    var r :| r in s.runs && Counts(s.runs[r], b, x);
    assert PhaseOk(s, r);
    FoldOfLower(s.runs[r].job.rowId);
  }
}
