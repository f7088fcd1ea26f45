/** The Redis keys behind bulk rows, in place: row guards, completed-row sets, the retry
    check, and the producer that queues a batch. */
module BatchCompletion {
  import opened Outcomes
  import opened Sets
  import opened RowIdentity
  import opened BulkRow

  const RETRY_CHUNK := 2000

  class CoordinationStore {
    var guards: map<Key, RunId>
    var completed: map<string, set<string>>
    var expiring: set<string>

    function Done(key: string): set<string>
      reads this
    {
      if key in completed then completed[key] else {}
    }

    /** SET key owner NX. */
    method TakeGuard(key: Key, owner: RunId) returns (ok: bool)
      modifies this`guards
      ensures ok <==> key !in old(guards)
      ensures guards == if ok then old(guards)[key := owner] else old(guards)
    {
      ok := key !in guards;
      if ok {
        guards := guards[key := owner];
      }
    }

    method RunReleaseRow(key: Key, owner: RunId) returns (deleted: int)
      modifies this`guards
      ensures guards == ReleaseRow(old(guards), key, owner)
      ensures deleted == |old(guards)| - |guards|
    {
      if key in guards && guards[key] == owner {
        assert guards.Keys == (guards - {key}).Keys + {key};
        assert |guards| == |guards.Keys| && |guards - {key}| == |(guards - {key}).Keys|;
        guards := guards - {key};
        return 1;
      }
      deleted := 0;
    }

    method RunComplete(key: string, row: string, total: nat) returns (reply: int)
      modifies this`completed, this`expiring
      ensures (Done(key), reply) == Complete(old(Done(key)), row, total)
      ensures forall k :: k != key ==> Done(k) == old(Done(k))
      ensures expiring == old(expiring) + if |Done(key)| >= total then {key} else {}
    {
      var added := row !in Done(key);
      completed := completed[key := Done(key) + {row}];
      var count := |completed[key]|;
      if count >= total {
        expiring := expiring + {key};
      }
      reply := if added && count == total then 1 else 0;
    }

    /** Completion metadata is checked first; ids are folded into the key and the member. */
    method CompletedRow(batchId: string, rowId: string, total: int) returns (r: Result<bool, string>)
      modifies this`completed, this`expiring
      ensures r.Err? <==> batchId == "" || rowId == "" || !(1 <= total <= MAX_SAFE_INTEGER)
      ensures r.Err? ==> completed == old(completed) && expiring == old(expiring)
      ensures r.Ok? ==> (Done(Fold(batchId)), if r.value then 1 else 0)
                        == Complete(old(Done(Fold(batchId))), Fold(rowId), total)
    {
      if batchId == "" || rowId == "" || total > MAX_SAFE_INTEGER || 1 > total {
        return Err("Invalid issuance batch completion metadata");
      }
      var reply := RunComplete(Fold(batchId), Fold(rowId), total);
      r := Ok(reply == 1);
    }

    /** Refuses a retry iff some row of the request still has a guard; reads in chunks. */
    method AssertRetryable(orgId: string, fileId: string, rowIds: seq<string>) returns (retryable: bool)
      ensures retryable <==> forall i :: 0 <= i < |rowIds| ==> Key(Fold(orgId), Fold(fileId), Fold(rowIds[i])) !in guards
    {
      var offset := 0;
      while offset < |rowIds|
        invariant 0 <= offset
        invariant forall i :: 0 <= i < offset && i < |rowIds| ==> Key(Fold(orgId), Fold(fileId), Fold(rowIds[i])) !in guards
      {
        var end := if offset + RETRY_CHUNK < |rowIds| then offset + RETRY_CHUNK else |rowIds|;
        var i := offset;
        while i < end
          invariant offset <= i <= end
          invariant forall j :: 0 <= j < i ==> Key(Fold(orgId), Fold(fileId), Fold(rowIds[j])) !in guards
        {
          if Key(Fold(orgId), Fold(fileId), Fold(rowIds[i])) in guards {
            return false;
          }
          i := i + 1;
        }
        offset := offset + RETRY_CHUNK;
      }
      retryable := true;
    }
  }

  /** A row that is being processed, or whose outcome is uncertain, cannot be retried. */
  lemma UncertainRowsGuarded(states: seq<System>, events: seq<Event>, n: nat, r: RunId)
    requires IsRun(states, events) && n < |states| && r in states[n].runs
    requires InBody(states[n].runs[r].phase) ||
             (states[n].runs[r].dispatched && !Status(states[n], r))
    ensures var job := states[n].runs[r].job; Key(Fold(job.orgId), Fold(job.fileId), Fold(job.rowId)) in states[n].guards
  {
    GuardRun(states, events, n);
    assert PhaseOk(states[n], r) && OfferRecorded(states[n], r);
  }

  // ---------------------------------------------------------------------------------
  // Any order and repetition of completions, with the expiry of a finished set

  datatype Call = Row(row: string) | Expiry

  /** How often the completion fires; a set can only expire after reaching its total. */
  function Fires(done: set<string>, calls: seq<Call>, total: nat): nat
    decreases calls
  {
    if calls == [] then 0
    else match calls[0]
      case Row(row) =>
        var (done', reply) := Complete(done, row, total);
        (if reply == 1 then 1 else 0) + Fires(done', calls[1..], total)
      case Expiry => Fires(if |done| >= total then {} else done, calls[1..], total)
  }

  function Expiries(calls: seq<Call>): nat {
    if calls == [] then 0 else (if calls[0].Expiry? then 1 else 0) + Expiries(calls[1..])
  }

  ghost function RowsOf(calls: seq<Call>): set<string> {
    set c | c in calls && c.Row? :: c.row
  }

  lemma AddOne(done: set<string>, row: string)
    ensures |done + {row}| == |done| + if row in done then 0 else 1
  {
    if row in done {
      assert done + {row} == done;
    }
  }

  /** At most once per lifetime of the completed set. */
  lemma {:induction false} OncePerLifetime(done: set<string>, calls: seq<Call>, total: nat)
    requires total >= 1
    ensures Fires(done, calls, total) <= Expiries(calls) + if |done| < total then 1 else 0
    decreases calls
  {
    if calls != [] {
      match calls[0] {
        case Row(row) =>
          AddOne(done, row);
          OncePerLifetime(done + {row}, calls[1..], total);
        case Expiry =>
          OncePerLifetime(if |done| >= total then {} else done, calls[1..], total);
      }
    }
  }

  /** Without expiry the completion fires exactly when the distinct rows reach the total. */
  lemma {:induction false} FiresWhenAllDone(done: set<string>, calls: seq<Call>, total: nat)
    requires Expiry !in calls
    ensures Fires(done, calls, total) == if |done| < total <= |done + RowsOf(calls)| then 1 else 0
    decreases calls
  {
    if calls == [] {
      assert done + RowsOf(calls) == done;
    } else {
      hide RowsOf;
      var row := calls[0].row;
      AddOne(done, row);
      FiresWhenAllDone(done + {row}, calls[1..], total);
      FirstRow(done, calls);
      SubsetSize(done + {row}, done + RowsOf(calls));
    }
  }

  lemma FirstRow(done: set<string>, calls: seq<Call>)
    requires calls != [] && calls[0].Row?
    ensures done + {calls[0].row} + RowsOf(calls[1..]) == done + RowsOf(calls)
  {
    assert calls == [calls[0]] + calls[1..];
  }

  /** The set after some calls. */
  function DoneAfter(done: set<string>, calls: seq<Call>, total: nat): set<string>
    decreases calls
  {
    if calls == [] then done
    else match calls[0]
      case Row(row) => DoneAfter(done + {row}, calls[1..], total)
      case Expiry => DoneAfter(if |done| >= total then {} else done, calls[1..], total)
  }

  lemma {:induction false} FiresSplit(done: set<string>, a: seq<Call>, b: seq<Call>, total: nat)
    ensures Fires(done, a + b, total) == Fires(done, a, total) + Fires(DoneAfter(done, a, total), b, total)
    ensures DoneAfter(done, a + b, total) == DoneAfter(DoneAfter(done, a, total), b, total)
    decreases a
  {
    if a == [] {
      assert a + b == b;
    } else {
      assert (a + b)[1..] == a[1..] + b;
      match a[0] {
        case Row(row) => FiresSplit(done + {row}, a[1..], b, total);
        case Expiry => FiresSplit(if |done| >= total then {} else done, a[1..], b, total);
      }
    }
  }

  /** The rows completed in each lifetime of the set: a lifetime ends at the first expiry
      after its distinct rows have reached the total. */
  function Lifetimes(calls: seq<Call>, total: nat): (r: seq<set<string>>)
    ensures r != []
  {
    if calls == [] then [{}]
    else
      var n := |calls| - 1;
      var before := Lifetimes(calls[..n], total);
      var last := before[|before| - 1];
      match calls[n]
      case Row(row) => before[|before| - 1 := last + {row}]
      case Expiry => if |last| >= total then before + [{}] else before
  }

  function Full(lives: seq<set<string>>, total: nat): nat {
    if lives == [] then 0
    else Full(lives[..|lives| - 1], total) + if |lives[|lives| - 1]| >= total then 1 else 0
  }

  lemma LastCall(done: set<string>, c: Call, total: nat)
    ensures Fires(done, [c], total) == if c.Row? && c.row !in done && |done| + 1 == total then 1 else 0
    ensures DoneAfter(done, [c], total) == if c.Row? then done + {c.row} else if |done| >= total then {} else done
  {
    assert [c][1..] == [];
    if c.Row? {
      AddOne(done, c.row);
    }
  }

  /** The completion fires exactly once in every lifetime that reaches the total. */
  lemma {:induction false} FiresPerLifetime(calls: seq<Call>, total: nat)
    requires total >= 1
    ensures var lives := Lifetimes(calls, total);
            && Fires({}, calls, total) == Full(lives, total)
            && DoneAfter({}, calls, total) == lives[|lives| - 1]
            && forall i :: 0 <= i < |lives| - 1 ==> |lives[i]| >= total
  {
    hide Fires, DoneAfter, Lifetimes, Full;
    if calls == [] {
      NoLifetime(total);
    } else {
      var n := |calls| - 1;
      assert calls == calls[..n] + [calls[n]];
      FiresPerLifetime(calls[..n], total);
      var before := Lifetimes(calls[..n], total);
      FiresSplit({}, calls[..n], [calls[n]], total);
      LastCall(before[|before| - 1], calls[n], total);
      FullStep(before, calls[n], total);
      NextLifetimes(calls, total);
    }
  }

  lemma NoLifetime(total: nat)
    requires total >= 1
    ensures Lifetimes([], total) == [{}] && Full([{}], total) == 0 && Fires({}, [], total) == 0 && DoneAfter({}, [], total) == {}
  {
    assert Full([{}][..0], total) == 0;
  }

  function NextLives(before: seq<set<string>>, c: Call, total: nat): seq<set<string>>
    requires before != []
  {
    var last := before[|before| - 1];
    if c.Row? then before[|before| - 1 := last + {c.row}] else if |last| >= total then before + [{}] else before
  }

  lemma NextLifetimes(calls: seq<Call>, total: nat)
    requires calls != []
    ensures var n := |calls| - 1; Lifetimes(calls, total) == NextLives(Lifetimes(calls[..n], total), calls[n], total)
  {
  }

  lemma FullStep(before: seq<set<string>>, c: Call, total: nat)
    requires before != [] && total >= 1
    ensures var last := before[|before| - 1];
            var lives := NextLives(before, c, total);
            Full(lives, total) == Full(before, total) + if c.Row? && c.row !in last && |last| + 1 == total then 1 else 0
  {
    var k := |before| - 1;
    var last := before[k];
    if c.Row? {
      AddOne(last, c.row);
      assert before[k := last + {c.row}][..k] == before[..k];
    } else {
      assert (before + [{}])[..k + 1] == before;
    }
  }

  /** One expiry: the completion fires a second time exactly if the rows before it, and again
      the rows after it, are at least as many as the total. */
  lemma FiresAgainIff(a: seq<Call>, b: seq<Call>, total: nat)
    requires total >= 1 && Expiry !in a && Expiry !in b
    ensures Fires({}, a + [Expiry] + b, total) == 2 <==> |RowsOf(a)| >= total && |RowsOf(b)| >= total
  {
    hide Fires, RowsOf;
    FiresSplit({}, a + [Expiry], b, total);
    FiresSplit({}, a, [Expiry], total);
    FiresWhenAllDone({}, a, total);
    DoneWithoutExpiry({}, a, total);
    assert {} + RowsOf(a) == RowsOf(a);
    LastCall(RowsOf(a), Expiry, total);
    if |RowsOf(a)| >= total {
      FiresWhenAllDone({}, b, total);
      assert {} + RowsOf(b) == RowsOf(b);
    } else {
      FiresWhenAllDone(RowsOf(a), b, total);
    }
  }

  lemma {:induction false} DoneWithoutExpiry(done: set<string>, calls: seq<Call>, total: nat)
    requires Expiry !in calls
    ensures DoneAfter(done, calls, total) == done + RowsOf(calls)
    decreases calls
  {
    if calls == [] {
      assert done + RowsOf(calls) == done;
    } else {
      DoneWithoutExpiry(done + {calls[0].row}, calls[1..], total);
      FirstRow(done, calls);
    }
  }

  /** In particular a batch of one row completes again when the row is redelivered after expiry. */
  lemma ExpiredBatchFiresAgain(row: string)
    ensures Fires({}, [Row(row), Expiry, Row(row)], 1) == 2
  {
    var one := [Row(row)];
    FiresAgainIff(one, one, 1);
    assert one + [Expiry] + one == [Row(row), Expiry, Row(row)];
    assert RowsOf(one) == {row} by { assert Row(row) in one; }
  }

  // ---------------------------------------------------------------------------------
  // The producer

  datatype QueuedJob = QueuedJob(rowId: string, jobId: string, totalJobs: nat)

  function JobsOf(rows: seq<string>, jobId: string): seq<QueuedJob> {
    seq(|rows|, i requires 0 <= i < |rows| => QueuedJob(rows[i], jobId, |rows|))
  }

  /** Queues the rows in batches with a pause between batches. Adding batch b to the queue
      fails if fails(b), which ends the producer with the earlier batches already queued. */
  method ProcessInBatches(rows: seq<string>, jobId: string, batchSize: nat, fails: nat -> bool)
    returns (queued: seq<QueuedJob>, pauses: nat, finished: bool)
    requires batchSize > 0
    ensures queued <= JobsOf(rows, jobId)
    ensures finished ==> queued == JobsOf(rows, jobId)
    ensures !finished ==> |queued| < |rows| && |queued| == pauses * batchSize && fails(pauses)
    ensures !finished ==> forall b :: 0 <= b < pauses ==> !fails(b)
    ensures finished && rows != [] ==> forall b :: 0 <= b <= pauses ==> !fails(b)
    ensures finished ==> (rows == [] ==> pauses == 0) && (rows != [] ==> pauses * batchSize < |rows| <= (pauses + 1) * batchSize)
  {
    queued, pauses, finished := [], 0, true;
    var i := 0;
    var batchIndex := 0;
    while i < |rows|
      invariant i == batchIndex * batchSize
      invariant queued == JobsOf(rows, jobId)[..if i < |rows| then i else |rows|]
      invariant i < |rows| ==> pauses == batchIndex
      invariant i >= |rows| ==> if rows == [] then pauses == 0 else batchIndex >= 1 && pauses == batchIndex - 1
      invariant i >= |rows| && rows != [] ==> (batchIndex - 1) * batchSize < |rows|
      invariant forall b :: 0 <= b < batchIndex ==> !fails(b)
      decreases |rows| - i
    {
      var end := if i + batchSize < |rows| then i + batchSize else |rows|;
      var jobs := seq(end - i, j requires 0 <= j < end - i => QueuedJob(rows[i + j], jobId, |rows|));
      assert jobs == JobsOf(rows, jobId)[i..end];
      if fails(batchIndex) {
        return queued, pauses, false;
      }
      queued := queued + jobs;
      batchIndex := batchIndex + 1;
      if batchIndex * batchSize < |rows| {
        pauses := pauses + 1;
      }
      i := i + batchSize;
    }
  }

  ghost function FoldedRows(rows: seq<string>): set<string> {
    set i | 0 <= i < |rows| :: Fold(rows[i])
  }

  ghost predicate Distinct(rows: seq<string>) {
    forall i, j :: 0 <= i < j < |rows| ==> Fold(rows[i]) != Fold(rows[j])
  }

  lemma {:induction false} DistinctCount(rows: seq<string>)
    requires Distinct(rows)
    ensures |FoldedRows(rows)| == |rows|
  {
    if rows != [] {
      var n := |rows| - 1;
      DistinctCount(rows[..n]);
      assert FoldedRows(rows) == FoldedRows(rows[..n]) + {Fold(rows[n])};
      assert Fold(rows[n]) !in FoldedRows(rows[..n]);
    }
  }

  /** Every queued job names a row of its batch, each row has exactly one job, and the
      total it carries is the number of distinct rows that completion waits for. */
  lemma JobsMatchBatch(rows: seq<string>, jobId: BatchId, orgId: string, fileId: string)
    requires Distinct(rows)
    ensures forall i :: 0 <= i < |rows| ==>
              var q := JobsOf(rows, jobId)[i];
              Queued(map[jobId := FoldedRows(rows)], Job(orgId, fileId, q.rowId, q.jobId, q.totalJobs))
    ensures forall i, j :: 0 <= i < j < |rows| ==> Fold(JobsOf(rows, jobId)[i].rowId) != Fold(JobsOf(rows, jobId)[j].rowId)
  {
    DistinctCount(rows);
    forall i | 0 <= i < |rows|
      ensures Fold(rows[i]) in FoldedRows(rows)
    {
    }
  }
}
