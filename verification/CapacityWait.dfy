/** Waiting for an offer slot: the polling loop around the Redis scripts, and the deadlines
    that decide when an offer may still start. Clock readings are arbitrary but never run
    backwards, and a sleep lasts at least as long as it was asked to. */
module CapacityWait {
  import opened Outcomes
  import Semaphore = OfferSemaphore

  const ADMISSION_MS := 10000
  const INTERACTIVE_QUEUE_MS := 1000.0
  const LONGEST_DELAY := 50
  const RELEASE_ATTEMPTS := 3

  class Clock {
    var now: real

    method Read() returns (t: real)
      modifies this
      ensures old(now) <= now == t
    {
      var step: real :| step >= 0.0;
      now := now + step;
      t := now;
    }

    method Sleep(delay: real)
      requires delay >= 1.0
      modifies this
      ensures now >= old(now) + delay
    {
      var late: real :| late >= 0.0;
      now := now + delay + late;
    }
  }

  /** What one waiting call did, in order. Replies are those of the Redis scripts. A call to
      Redis that failed may have taken effect (`landed`) without the reply being heard; so may
      the attempts to free the slot. */
  datatype Action =
    | Asked(slot: int)
    | AskFailed(landed: bool)
    | Slept(delay: real)
    | Activated(reply: int)
    | ActivateFailed(landed: bool)
    | Started(at: real)
    | Freed(attempts: nat, landings: nat, released: bool)

  predicate IsPoll(a: Action) {
    a.Asked? || a.AskFailed?
  }

  datatype Ending = Finished | WaitExceeded | Inconsistent | ReservationLost | RedisFailed

  function DelayAt(poll: nat): nat {
    if poll == 0 then 1 else if DelayAt(poll - 1) * 2 < LONGEST_DELAY then DelayAt(poll - 1) * 2 else LONGEST_DELAY
  }

  /** The time the first `polls` pauses take when none is cut short by the deadline. */
  function Backoff(polls: nat): nat {
    if polls == 0 then 0 else Backoff(polls - 1) + DelayAt(polls - 1)
  }

  /** Every poll costs at least a millisecond, and from the seventh on fifty of them. */
  lemma {:induction false} BackoffGrows(polls: nat)
    ensures Backoff(polls) >= polls
    ensures polls >= 6 ==> DelayAt(polls) == 50 && Backoff(polls) == 63 + 50 * (polls - 6)
    ensures 1 <= DelayAt(polls) <= 50
  {
    if polls > 0 {
      BackoffGrows(polls - 1);
    }
    if polls == 6 {
      assert DelayAt(1) == 2 && DelayAt(2) == 4;
      assert DelayAt(3) == 8 && DelayAt(4) == 16;
      assert DelayAt(5) == 32;
      assert Backoff(2) == 3 && Backoff(4) == 15;
    }
  }

  function Polls(log: seq<Action>): nat {
    if log == [] then 0 else (if IsPoll(log[0]) then 1 else 0) + Polls(log[1..])
  }

  lemma {:induction false} PollsAppend(log: seq<Action>, a: Action)
    ensures Polls(log + [a]) == Polls(log) + if IsPoll(a) then 1 else 0
  {
    if log != [] {
      PollsAppend(log[1..], a);
      assert (log + [a])[1..] == log[1..] + [a];
    } else {
      assert (log + [a])[1..] == [];
    }
  }

  /** The phase of the call, in the terms of the shared semaphore, after one more action. An
      offer may only start before the deadline; Running is left at once, with the operation. */
  function NextPhase(phase: Semaphore.Phase, a: Action, deadline: real): Option<Semaphore.Phase> {
    match a
    case Asked(slot) =>
      if phase.Polling? then Some(if slot == 1 then Semaphore.Admitted else if slot == -1 then Semaphore.Cleanup else Semaphore.Polling)
      else None
    case AskFailed(_) => if phase.Polling? then Some(Semaphore.Cleanup) else None
    case Slept(_) => if phase.Polling? then Some(phase) else None
    case Activated(reply) =>
      if phase.Admitted? then Some(if reply == 1 then Semaphore.Activated else Semaphore.Cleanup) else None
    case ActivateFailed(_) => if phase.Admitted? then Some(Semaphore.Cleanup) else None
    case Started(at) => if phase.Activated? && at < deadline then Some(Semaphore.Cleanup) else None
    case Freed(attempts, landed, released) =>
      if phase in {Semaphore.Polling, Semaphore.Admitted, Semaphore.Activated, Semaphore.Cleanup}
         && landed + (if released then 1 else 0) <= attempts
      then Some(Semaphore.Gone)
      else None
  }

  /** The phase a log leads to, if its actions follow each other legally. */
  function PhaseAfter(log: seq<Action>, deadline: real): Option<Semaphore.Phase> {
    if log == [] then Some(Semaphore.Polling)
    else
      var n := |log| - 1;
      match PhaseAfter(log[..n], deadline)
      case Some(phase) => NextPhase(phase, log[n], deadline)
      case None => None
  }

  lemma Append(log: seq<Action>, a: Action, deadline: real)
    requires PhaseAfter(log, deadline).Some?
    ensures PhaseAfter(log + [a], deadline) == NextPhase(PhaseAfter(log, deadline).value, a, deadline)
    ensures Polls(log + [a]) == Polls(log) + if IsPoll(a) then 1 else 0
  {
    assert (log + [a])[..|log|] == log;
    PollsAppend(log, a);
  }

  /** No offer starts without a fresh activation of a granted slot, or at a reading that has
      reached the deadline. */
  ghost predicate StartsProperly(log: seq<Action>, deadline: real) {
    forall i :: 0 <= i < |log| && log[i].Started? ==>
      i >= 2 && log[i - 1] == Activated(1) && log[i - 2] == Asked(1) && log[i].at < deadline
  }

  ghost predicate NoneFreed(log: seq<Action>) {
    forall i :: 0 <= i < |log| ==> !log[i].Freed?
  }

  ghost predicate HasStarted(log: seq<Action>) {
    exists i :: 0 <= i < |log| && log[i].Started?
  }

  /** How a log ends in each phase. */
  ghost predicate EndsIn(log: seq<Action>, phase: Semaphore.Phase) {
    && (phase.Admitted? ==> log != [] && log[|log| - 1] == Asked(1))
    && (phase.Activated? ==> |log| >= 2 && log[|log| - 1] == Activated(1) && log[|log| - 2] == Asked(1))
    && (phase.Gone? <==> log != [] && log[|log| - 1].Freed?)
    && (!phase.Gone? ==> NoneFreed(log))
    && (phase.Gone? ==> log != [] && NoneFreed(log[..|log| - 1]))
    && (phase in {Semaphore.Polling, Semaphore.Admitted, Semaphore.Activated} ==> !HasStarted(log))
  }

  lemma EndStep(log: seq<Action>, phase: Semaphore.Phase, a: Action, deadline: real)
    requires EndsIn(log, phase) && StartsProperly(log, deadline) && NextPhase(phase, a, deadline).Some?
    ensures EndsIn(log + [a], NextPhase(phase, a, deadline).value) && StartsProperly(log + [a], deadline)
  {
    hide NoneFreed, HasStarted, StartsProperly;
    assert (log + [a])[..|log|] == log;
    StartedMore(log, a);
    FreedMore(log, a);
    if a.Started? {
      ProperStart(log, a, deadline);
    } else {
      ProperOther(log, a, deadline);
    }
  }

  lemma FreedMore(log: seq<Action>, a: Action)
    ensures NoneFreed(log) && !a.Freed? ==> NoneFreed(log + [a])
  {
  }

  lemma ProperStart(log: seq<Action>, a: Action, deadline: real)
    requires StartsProperly(log, deadline) && a.Started? && a.at < deadline
    requires |log| >= 2 && log[|log| - 1] == Activated(1) && log[|log| - 2] == Asked(1)
    ensures StartsProperly(log + [a], deadline)
  {
  }

  lemma ProperOther(log: seq<Action>, a: Action, deadline: real)
    requires StartsProperly(log, deadline) && !a.Started?
    ensures StartsProperly(log + [a], deadline)
  {
  }

  /** What the phases say about a legal log: the shape of its end, and proper starts. */
  lemma {:induction false} LogShape(log: seq<Action>, deadline: real)
    requires PhaseAfter(log, deadline).Some?
    ensures EndsIn(log, PhaseAfter(log, deadline).value) && StartsProperly(log, deadline)
  {
    hide EndsIn, StartsProperly, NextPhase;
    if log == [] {
      EmptyShape(deadline);
    } else {
      var n := |log| - 1;
      LogShape(log[..n], deadline);
      EndStep(log[..n], PhaseAfter(log[..n], deadline).value, log[n], deadline);
      assert log[..n] + [log[n]] == log;
    }
  }

  lemma EmptyShape(deadline: real)
    ensures EndsIn([], Semaphore.Polling) && StartsProperly([], deadline)
  {
  }

  function Min(x: real, y: real): real {
    if x <= y then x else y
  }

  function Max(x: real, y: real): real {
    if x >= y then x else y
  }

  /** How Redis answers a call: with a reply, or not at all, having run the script or not. */
  datatype Answer = Reply(value: int) | Lost(landed: bool)

  predicate IsRetry(a: Answer) {
    a.Reply? && a.value != 1 && a.value != -1
  }

  function AskedOf(a: Answer): Action {
    match a
    case Reply(value) => Asked(value)
    case Lost(landed) => AskFailed(landed)
  }

  /** How a wait ends with a poll that is not repeated. */
  function EndOf(a: Answer): Ending {
    match a
    case Reply(value) => if value == 1 then Finished else Inconsistent
    case Lost(_) => RedisFailed
  }

  /** The first n polls and the pauses after them, but for the last one's if it ended the wait. */
  ghost predicate PollLog(log: seq<Action>, answers: nat -> Answer, n: nat, ended: bool) {
    && |log| == (if ended then 2 * n - 1 else 2 * n)
    && (forall k :: 0 <= k < n ==> log[2 * k] == AskedOf(answers(k)))
    && (forall k :: 0 <= k < n && 2 * k + 1 < |log| ==>
          log[2 * k + 1].Slept? && 1.0 <= log[2 * k + 1].delay <= DelayAt(k) as real)
  }

  /** Polls ACQUIRE until a slot is granted, the deadline passes or the call is refused. The
      k-th poll is answered by answers(k). */
  method WaitForSlot(clock: Clock, deadline: real, answers: nat -> Answer) returns (log: seq<Action>, end: Ending)
    modifies clock
    ensures PhaseAfter(log, deadline) == Some(if end == Finished then Semaphore.Admitted
                                              else if end == WaitExceeded then Semaphore.Polling else Semaphore.Cleanup)
    ensures var n := Polls(log);
            && PollLog(log, answers, n, end != WaitExceeded)
            && (end == WaitExceeded ==> clock.now >= deadline && forall k :: 0 <= k < n ==> IsRetry(answers(k)))
            && (end != WaitExceeded ==>
                  n > 0 && (forall k :: 0 <= k < n - 1 ==> IsRetry(answers(k))) && !IsRetry(answers(n - 1))
                  && end == EndOf(answers(n - 1)))
    ensures Polls(log) > 0 ==> Backoff(Polls(log) - 1) as real < deadline - old(clock.now)
    ensures old(clock.now) <= clock.now
  {
    hide PhaseAfter, Polls, Backoff, DelayAt, PollLog;
    log := [];
    FirstPhase(deadline);
    var retryDelay, polls := 1, 0;
    assert PollLog(log, answers, 0, false) by { NoPolls(answers); }
    while true
      invariant PhaseAfter(log, deadline) == Some(Semaphore.Polling)
      invariant Polls(log) == polls && retryDelay == DelayAt(polls)
      invariant PollLog(log, answers, polls, false)
      invariant forall k :: 0 <= k < polls ==> IsRetry(answers(k))
      invariant old(clock.now) <= clock.now
      invariant clock.now >= deadline || clock.now - old(clock.now) >= Backoff(polls) as real
      invariant polls > 0 ==> Backoff(polls - 1) as real < deadline - old(clock.now)
      decreases if clock.now < deadline then (deadline - clock.now).Floor + 1 else 0
    {
      BackoffGrows(polls);
      NextDelay(polls);
      var before := clock.Read();
      if before >= deadline {
        return log, WaitExceeded;
      }
      var answer := answers(polls);
      Append(log, AskedOf(answer), deadline);
      MorePolls(log, answers, polls);
      log := log + [AskedOf(answer)];
      match answer {
        case Lost(_) => return log, RedisFailed;
        case Reply(result) =>
          if -1 == result {
            return log, Inconsistent;
          }
          if 1 == result {
            return log, Finished;
          }
      }
      var now := clock.Read();
      var delay := Min(retryDelay as real, Max(1.0, deadline - now));
      clock.Sleep(delay);
      Append(log, Slept(delay), deadline);
      MorePauses(log, answers, polls, delay);
      log := log + [Slept(delay)];
      retryDelay := if retryDelay * 2 < LONGEST_DELAY then retryDelay * 2 else LONGEST_DELAY;
      polls := polls + 1;
    }
  }

  lemma NoPolls(answers: nat -> Answer)
    ensures PollLog([], answers, 0, false)
  {
  }

  lemma MorePolls(log: seq<Action>, answers: nat -> Answer, n: nat)
    requires PollLog(log, answers, n, false)
    ensures PollLog(log + [AskedOf(answers(n))], answers, n + 1, true)
  {
    hide DelayAt, AskedOf;
  }

  lemma MorePauses(log: seq<Action>, answers: nat -> Answer, n: nat, delay: real)
    requires PollLog(log, answers, n + 1, true) && 1.0 <= delay <= DelayAt(n) as real
    ensures PollLog(log + [Slept(delay)], answers, n + 1, false)
  {
    hide DelayAt, AskedOf;
  }

  lemma FirstPhase(deadline: real)
    ensures PhaseAfter([], deadline) == Some(Semaphore.Polling) && Polls([]) == 0 && DelayAt(0) == 1 && Backoff(0) == 0
  {
  }

  lemma NextDelay(rounds: nat)
    ensures DelayAt(rounds + 1) == if DelayAt(rounds) * 2 < LONGEST_DELAY then DelayAt(rounds) * 2 else LONGEST_DELAY
    ensures Backoff(rounds + 1) == Backoff(rounds) + DelayAt(rounds)
  {
  }

  /** How Redis answers an attempt to release: heard, or failed, having run the script or not. */
  datatype Attempt = Heard | Failed(landed: bool)

  /** How many of the first n attempts failed and landed all the same. */
  function Landings(outcomes: nat -> Attempt, n: nat): (r: nat)
    ensures r <= n
  {
    if n == 0 then 0 else Landings(outcomes, n - 1) + if outcomes(n - 1) == Failed(true) then 1 else 0
  }

  /** Retries the release until it is heard of, three times at most; the owner-checked script
      may repeat. */
  method ReleasePermit(clock: Clock, outcomes: nat -> Attempt) returns (attempts: nat, landed: nat, released: bool)
    modifies clock
    ensures 1 <= attempts <= 3
    ensures forall k :: 0 <= k < attempts - 1 ==> outcomes(k).Failed?
    ensures released <==> outcomes(attempts - 1).Heard?
    ensures !released ==> attempts == 3
    ensures landed == Landings(outcomes, attempts)
    ensures landed + (if released then 1 else 0) <= attempts
    ensures old(clock.now) <= clock.now
  {
    attempts, landed, released := 0, 0, false;
    while !released && attempts < RELEASE_ATTEMPTS
      invariant attempts <= RELEASE_ATTEMPTS && (released ==> attempts >= 1)
      invariant forall k :: 0 <= k < attempts - 1 ==> outcomes(k).Failed?
      invariant attempts > 0 ==> (released <==> outcomes(attempts - 1).Heard?)
      invariant landed == Landings(outcomes, attempts) && landed + (if released then 1 else 0) <= attempts
      invariant old(clock.now) <= clock.now
      decreases RELEASE_ATTEMPTS - attempts, !released
    {
      attempts := attempts + 1;
      match outcomes(attempts - 1) {
        case Heard => released := true;
        case Failed(hit) =>
          landed := landed + if hit then 1 else 0;
          if attempts < RELEASE_ATTEMPTS {
            clock.Sleep(25.0 * attempts as real);
          }
      }
    }
  }

  /** How a call ends that does not run out of time. */
  function EndOfCall(poll: Answer, activation: Answer): Ending {
    if EndOf(poll) != Finished then EndOf(poll)
    else match activation
      case Reply(value) => if value == 1 then Finished else ReservationLost
      case Lost(_) => RedisFailed
  }

  /** One offer: wait for a slot, activate it, run the operation, and release exactly once
      at the very end whatever happened before. */
  method AcquireAndRun(clock: Clock, deadline: real, answers: nat -> Answer, activation: Answer, outcomes: nat -> Attempt)
    returns (log: seq<Action>, end: Ending)
    modifies clock
    ensures PhaseAfter(log, deadline) == Some(Semaphore.Gone)
    ensures log != [] && log[|log| - 1].Freed? && NoneFreed(log[..|log| - 1])
    ensures StartsProperly(log, deadline)
    ensures Polls(log) > 0 ==> Backoff(Polls(log) - 1) as real < deadline - old(clock.now)
    ensures end == WaitExceeded ==> clock.now >= deadline
    ensures end != WaitExceeded ==> Polls(log) > 0 && !IsRetry(answers(Polls(log) - 1))
                                    && end == EndOfCall(answers(Polls(log) - 1), activation)
    ensures end == Finished <==> HasStarted(log)
  {
    hide PhaseAfter, Polls, Backoff, EndsIn, StartsProperly, NoneFreed, HasStarted, PollLog;
    log, end := WaitForSlot(clock, deadline, answers);
    LogShape(log, deadline);
    NotStarted(log, PhaseAfter(log, deadline).value);
    if end == Inconsistent || end == RedisFailed {
      assert IsPoll(log[|log| - 1]) by { LastPoll(log, answers, Polls(log)); }
      NeverStarted(log, deadline);
    }
    if end == Finished {
      log, end := RunAdmitted(clock, deadline, log, activation);
    }
    var attempts, landed, released := ReleasePermit(clock, outcomes);
    Append(log, Freed(attempts, landed, released), deadline);
    StartedMore(log, Freed(attempts, landed, released));
    log := log + [Freed(attempts, landed, released)];
    LogShape(log, deadline);
    LastFreed(log);
  }

  lemma LastPoll(log: seq<Action>, answers: nat -> Answer, n: nat)
    requires PollLog(log, answers, n, true) && n > 0
    ensures log != [] && IsPoll(log[|log| - 1])
  {
    assert log[2 * (n - 1)] == AskedOf(answers(n - 1));
  }

  /** The part of a call after its slot was granted. */
  method RunAdmitted(clock: Clock, deadline: real, granted: seq<Action>, activation: Answer) returns (log: seq<Action>, end: Ending)
    requires PhaseAfter(granted, deadline) == Some(Semaphore.Admitted) && !HasStarted(granted)
    modifies clock
    ensures PhaseAfter(log, deadline).Some?
    ensures PhaseAfter(log, deadline).value in {Semaphore.Admitted, Semaphore.Activated, Semaphore.Cleanup}
    ensures Polls(log) == Polls(granted)
    ensures end == WaitExceeded ==> clock.now >= deadline
    ensures end != WaitExceeded ==> end == match activation
                                           case Reply(value) => if value == 1 then Finished else ReservationLost
                                           case Lost(_) => RedisFailed
    ensures end == Finished <==> HasStarted(log)
    ensures old(clock.now) <= clock.now
  {
    hide PhaseAfter, Polls, HasStarted;
    log, end := granted, WaitExceeded;
    var now := clock.Read();
    if now >= deadline {
      return;
    }
    match activation {
      case Lost(landed) =>
        Append(log, ActivateFailed(landed), deadline);
        StartedMore(log, ActivateFailed(landed));
        return log + [ActivateFailed(landed)], RedisFailed;
      case Reply(reply) =>
        Append(log, Activated(reply), deadline);
        StartedMore(log, Activated(reply));
        log := log + [Activated(reply)];
        if 1 != reply {
          return log, ReservationLost;
        }
    }
    now := clock.Read();
    if now >= deadline {
      return;
    }
    Append(log, Started(now), deadline);
    StartedMore(log, Started(now));
    log, end := log + [Started(now)], Finished;
  }

  lemma NotStarted(log: seq<Action>, phase: Semaphore.Phase)
    requires EndsIn(log, phase)
    ensures phase in {Semaphore.Polling, Semaphore.Admitted} ==> !HasStarted(log)
  {
  }

  /** A refused call has not started either: its last action was a poll. */
  lemma NeverStarted(log: seq<Action>, deadline: real)
    requires log != [] && IsPoll(log[|log| - 1]) && PhaseAfter(log, deadline).Some?
    ensures !HasStarted(log)
  {
    var n := |log| - 1;
    LogShape(log[..n], deadline);
    assert log == log[..n] + [log[n]];
    StartedMore(log[..n], log[n]);
  }

  lemma StartedMore(log: seq<Action>, a: Action)
    ensures HasStarted(log + [a]) <==> HasStarted(log) || a.Started?
  {
    var more := log + [a];
    if HasStarted(log) {
      var i :| 0 <= i < |log| && log[i].Started?;
      assert more[i].Started?;
    }
    if a.Started? {
      assert more[|log|].Started?;
    }
  }

  lemma LastFreed(log: seq<Action>)
    requires EndsIn(log, Semaphore.Gone)
    ensures log != [] && log[|log| - 1].Freed? && NoneFreed(log[..|log| - 1])
  {
  }

  // ---------------------------------------------------------------------------------
  // Every action of such a log is a legal step of the call in the shared machine

  /** The events of the shared machine behind one action of the call with owner o. */
  function EventsOf(phase: Semaphore.Phase, a: Action, o: Semaphore.OwnerId, ms: int): seq<Semaphore.Event> {
    match a
    case Asked(_) => [Semaphore.Poll(o, ms, true)]
    case AskFailed(landed) => [if landed then Semaphore.Poll(o, ms, false) else Semaphore.GiveUp(o)]
    case Slept(_) => []
    case Activated(_) => [Semaphore.Activation(o, ms, true)]
    case ActivateFailed(landed) => [if landed then Semaphore.Activation(o, ms, false) else Semaphore.GiveUp(o)]
    case Started(_) => [Semaphore.Dispatch(o), Semaphore.Settle(o)]
    case Freed(attempts, landed, released) =>
      (if phase.Cleanup? then [] else [Semaphore.GiveUp(o)])
      + Unheard(o, landed)
      + [if released then Semaphore.ReleaseAttempt(o, true) else Semaphore.Abandon(o)]
  }

  function Unheard(o: Semaphore.OwnerId, n: nat): seq<Semaphore.Event> {
    if n == 0 then [] else Unheard(o, n - 1) + [Semaphore.ReleaseAttempt(o, false)]
  }

  ghost predicate Path(s: Semaphore.System, events: seq<Semaphore.Event>, t: Semaphore.System)
    decreases |events|
  {
    if events == [] then s == t
    else
      var n := |events| - 1;
      exists u :: Path(s, events[..n], u) && Semaphore.Enabled(u, events[n]) && t == Semaphore.After(u, events[n])
  }

  lemma PathNext(s: Semaphore.System, events: seq<Semaphore.Event>, u: Semaphore.System, e: Semaphore.Event)
    requires Path(s, events, u) && Semaphore.Enabled(u, e)
    ensures Path(s, events + [e], Semaphore.After(u, e))
  {
    hide Semaphore.Enabled, Semaphore.After;
    var more := events + [e];
    assert more[..|more| - 1] == events;
  }

  lemma PathStart(s: Semaphore.System)
    ensures Path(s, [], s)
  {
  }

  /** The scripts answer in this state what the action says they answered. */
  ghost predicate Answers(s: Semaphore.System, a: Action, o: Semaphore.OwnerId, ms: int)
    requires o in s.calls
  {
    && (a.Asked? ==> Semaphore.Acquire(s.hash, ms, s.calls[o].capacity, o).1 == a.slot)
    && (a.Activated? ==> Semaphore.Activate(s.hash, ms, o).1 == a.reply)
  }

  lemma ReleasePath(s: Semaphore.System, o: Semaphore.OwnerId, n: nat) returns (t: Semaphore.System)
    requires Semaphore.InPhase(s, o, {Semaphore.Cleanup})
    ensures Path(s, Unheard(o, n), t) && Semaphore.InPhase(t, o, {Semaphore.Cleanup})
  {
    hide Path, Semaphore.Release;
    t := s;
    PathStart(s);
    if n > 0 {
      var u := ReleasePath(s, o, n - 1);
      PathNext(s, Unheard(o, n - 1), u, Semaphore.ReleaseAttempt(o, false));
      t := Semaphore.After(u, Semaphore.ReleaseAttempt(o, false));
    }
  }

  lemma {:induction false} PathConcat(s: Semaphore.System, a: seq<Semaphore.Event>, u: Semaphore.System,
                                      b: seq<Semaphore.Event>, t: Semaphore.System)
    requires Path(s, a, u) && Path(u, b, t)
    ensures Path(s, a + b, t)
    decreases |b|
  {
    hide Semaphore.Enabled, Semaphore.After;
    if b == [] {
      assert a + b == a;
    } else {
      var n := |b| - 1;
      var v :| Path(u, b[..n], v) && Semaphore.Enabled(v, b[n]) && t == Semaphore.After(v, b[n]);
      PathConcat(s, a, u, b[..n], v);
      assert (a + b)[..|a + b| - 1] == a + b[..n];
    }
  }

  lemma FreedPath(s: Semaphore.System, phase: Semaphore.Phase, o: Semaphore.OwnerId,
                  attempts: nat, landed: nat, released: bool, ms: int) returns (t: Semaphore.System)
    requires o in s.calls && s.calls[o].phase == phase
    requires phase in {Semaphore.Polling, Semaphore.Admitted, Semaphore.Activated, Semaphore.Cleanup}
    ensures Path(s, EventsOf(phase, Freed(attempts, landed, released), o, ms), t) && Semaphore.InPhase(t, o, {Semaphore.Gone})
  {
    hide Path, Semaphore.Release, Unheard;
    var up := if phase.Cleanup? then [] else [Semaphore.GiveUp(o)];
    var u := if phase.Cleanup? then s else Semaphore.After(s, Semaphore.GiveUp(o));
    PathStart(s);
    if !phase.Cleanup? {
      PathNext(s, [], s, Semaphore.GiveUp(o));
      assert [] + [Semaphore.GiveUp(o)] == up;
    }
    var v := ReleasePath(u, o, landed);
    PathConcat(s, up, u, Unheard(o, landed), v);
    var last := if released then Semaphore.ReleaseAttempt(o, true) else Semaphore.Abandon(o);
    PathNext(s, up + Unheard(o, landed), v, last);
    t := Semaphore.After(v, last);
  }

  lemma OneEventPath(s: Semaphore.System, e: Semaphore.Event)
    requires Semaphore.Enabled(s, e)
    ensures Path(s, [e], Semaphore.After(s, e))
  {
    hide Path, Semaphore.Enabled, Semaphore.After;
    PathStart(s);
    PathNext(s, [], s, e);
    assert [] + [e] == [e];
  }

  /** Wherever the call has got to in the shared machine, the next action of its log is a
      legal path there and leads to the phase the log says, if the scripts answer as logged. */
  lemma ActionIsPath(s: Semaphore.System, a: Action, o: Semaphore.OwnerId, ms: int, deadline: real) returns (t: Semaphore.System)
    requires o in s.calls && NextPhase(s.calls[o].phase, a, deadline).Some? && Answers(s, a, o, ms)
    ensures Path(s, EventsOf(s.calls[o].phase, a, o, ms), t)
    ensures Semaphore.InPhase(t, o, {NextPhase(s.calls[o].phase, a, deadline).value})
  {
    hide Path, Semaphore.Acquire, Semaphore.Activate;
    var phase := s.calls[o].phase;
    PathStart(s);
    if a.Slept? {
      t := s;
    } else if a.Started? {
      t := StartedPath(s, o);
    } else if a.Freed? {
      t := FreedPath(s, phase, o, a.attempts, a.landings, a.released, ms);
    } else {
      var e := EventsOf(phase, a, o, ms)[0];
      OneEventPath(s, e);
      t := Semaphore.After(s, e);
    }
  }

  lemma StartedPath(s: Semaphore.System, o: Semaphore.OwnerId) returns (t: Semaphore.System)
    requires Semaphore.InPhase(s, o, {Semaphore.Activated})
    ensures Path(s, [Semaphore.Dispatch(o), Semaphore.Settle(o)], t) && Semaphore.InPhase(t, o, {Semaphore.Cleanup})
  {
    hide Path;
    PathStart(s);
    PathNext(s, [], s, Semaphore.Dispatch(o));
    var u := Semaphore.After(s, Semaphore.Dispatch(o));
    assert [] + [Semaphore.Dispatch(o)] == [Semaphore.Dispatch(o)];
    PathNext(s, [Semaphore.Dispatch(o)], u, Semaphore.Settle(o));
    assert [Semaphore.Dispatch(o)] + [Semaphore.Settle(o)] == [Semaphore.Dispatch(o), Semaphore.Settle(o)];
    t := Semaphore.After(u, Semaphore.Settle(o));
  }

  /** The number of polls is bounded by the milliseconds left, and for long waits by one
      poll for every fifty of them. */
  lemma PollsBounded(polls: nat, left: real)
    requires polls > 0 && Backoff(polls - 1) as real < left
    ensures (polls - 1) as real < left
    ensures polls >= 7 ==> (63 + 50 * (polls - 7)) as real < left
  {
    BackoffGrows(polls - 1);
  }

  // ---------------------------------------------------------------------------------
  // Request deadlines

  /** The gateway's deadline header: absent, a positive integer, or anything else. */
  datatype Header = Absent | Millis(value: int) | Malformed

  predicate IsSafe(value: int) {
    -MAX_SAFE_INTEGER <= value <= MAX_SAFE_INTEGER
  }

  function IssuanceDeadline(header: Header, now: int): (r: Result<int, string>)
    ensures r.Ok? <==> header.Absent? || (header.Millis? && IsSafe(header.value) && header.value > now)
    ensures r.Ok? ==> now < r.value <= now + 10000 && (header.Millis? ==> r.value <= header.value)
    ensures r.Ok? ==> r.value == now + 10000 || header == Millis(r.value)
  {
    match header
    case Absent => Ok(now + ADMISSION_MS)
    case Malformed => Err("Issuance admission expired or invalid; no offer was dispatched")
    case Millis(value) =>
      if !IsSafe(value) || value <= now then Err("Issuance admission expired or invalid; no offer was dispatched")
      else Ok(if value < now + ADMISSION_MS then value else now + ADMISSION_MS)
  }

  datatype Request = Request(deadline: real, dispatched: bool)

  datatype Offer = Offer(entered: real, wait: real, deadline: real)

  function OfferWait(isBulk: bool, waitMs: real): real {
    if isBulk then waitMs else Min(waitMs, INTERACTIVE_QUEUE_MS)
  }

  /** An offer that enters while its request is undispatched inherits the request deadline. */
  function EnterOffer(request: Option<Request>, isBulk: bool, waitMs: real, now: real): Offer {
    var wait := OfferWait(isBulk, waitMs);
    Offer(now, wait,
          if request.Some? && !request.value.dispatched then Min(now + wait, request.value.deadline) else now + wait)
  }

  datatype Start = Start(offer: nat, at: real)

  datatype System = System(request: Option<Request>, offers: map<nat, Offer>, starts: seq<Start>)

  datatype Event =
    | Enter(offer: nat, isBulk: bool, waitMs: real, now: real)
    | Dispatch(offer: nat, at: real)

  /** An offer is dispatched once, before its deadline: see StartIsDispatch. */
  ghost predicate Enabled(s: System, e: Event) {
    match e
    case Enter(o, _, _, _) => o !in s.offers
    case Dispatch(o, at) => o in s.offers && at < s.offers[o].deadline
                            && forall i :: 0 <= i < |s.starts| ==> s.starts[i].offer != o
  }

  function After(s: System, e: Event): System
    requires Enabled(s, e)
  {
    match e
    case Enter(o, isBulk, waitMs, now) => s.(offers := s.offers[o := EnterOffer(s.request, isBulk, waitMs, now)])
    case Dispatch(o, at) =>
      s.(request := if s.request.Some? then Some(s.request.value.(dispatched := true)) else None,
         starts := s.starts + [Start(o, at)])
  }

  /** The start in a legal log of an offer that has not been dispatched is a legal dispatch. */
  lemma StartIsDispatch(s: System, o: nat, log: seq<Action>, i: nat)
    requires o in s.offers && PhaseAfter(log, s.offers[o].deadline).Some? && i < |log| && log[i].Started?
    requires forall k :: 0 <= k < |s.starts| ==> s.starts[k].offer != o
    ensures Enabled(s, Dispatch(o, log[i].at))
  {
    hide PhaseAfter, EndsIn;
    LogShape(log, s.offers[o].deadline);
  }

  ghost predicate IsRun(request: Option<Request>, states: seq<System>, events: seq<Event>) {
    && (request.Some? ==> !request.value.dispatched)
    && |states| == |events| + 1
    && states[0] == System(request, map[], [])
    && forall i :: 0 <= i < |events| ==> Enabled(states[i], events[i]) && states[i + 1] == After(states[i], events[i])
  }

  ghost predicate Inv(request: Option<Request>, s: System) {
    && (request.None? <==> s.request.None?)
    && (forall o :: o in s.offers ==> s.offers[o].deadline <= s.offers[o].entered + s.offers[o].wait)
    && (forall i :: 0 <= i < |s.starts| ==>
          s.starts[i].offer in s.offers && s.starts[i].at < s.offers[s.starts[i].offer].deadline)
    && (request.Some? ==>
          && s.request.value == Request(request.value.deadline, s.starts != [])
          && (s.starts == [] ==> forall o :: o in s.offers ==> s.offers[o].deadline <= request.value.deadline)
          && (s.starts != [] ==> s.starts[0].at < request.value.deadline))
  }

  lemma StepKeeps(request: Option<Request>, s: System, e: Event)
    requires Inv(request, s) && Enabled(s, e)
    ensures Inv(request, After(s, e))
  {
  }

  lemma {:induction false} RunKeeps(request: Option<Request>, states: seq<System>, events: seq<Event>, n: nat)
    requires IsRun(request, states, events) && n < |states|
    ensures Inv(request, states[n])
  {
    if n > 0 {
      RunKeeps(request, states, events, n - 1);
      StepKeeps(request, states[n - 1], events[n - 1]);
    }
  }

  /** A request's first dispatch comes before its gateway deadline; every dispatch comes
      within its own wait. */
  lemma DispatchDeadlines(request: Option<Request>, states: seq<System>, events: seq<Event>, n: nat, i: nat)
    requires IsRun(request, states, events) && n < |states| && i < |states[n].starts|
    ensures var start := states[n].starts[i];
            && start.offer in states[n].offers
            && start.at < states[n].offers[start.offer].entered + states[n].offers[start.offer].wait
    ensures request.Some? ==> states[n].starts[0].at < request.value.deadline
  {
    RunKeeps(request, states, events, n);
  }

  /** An offer keeps the deadline it entered with. */
  lemma {:induction false} OfferStays(request: Option<Request>, states: seq<System>, events: seq<Event>, i: nat, n: nat)
    requires IsRun(request, states, events) && i < n < |states| && events[i].Enter?
    ensures var Enter(o, isBulk, waitMs, now) := events[i];
            o in states[n].offers && states[n].offers[o] == EnterOffer(states[i].request, isBulk, waitMs, now)
  {
    hide EnterOffer;
    if i + 1 < n {
      OfferStays(request, states, events, i, n - 1);
    }
  }

  /** When an offer may start, by the event that entered it: an interactive one within a
      second, any one within the configured wait, and before the request's deadline if the
      request had not dispatched yet. It can then start at every such reading. */
  lemma StartsInTime(request: Option<Request>, states: seq<System>, events: seq<Event>, i: nat, n: nat)
    requires IsRun(request, states, events) && i < n < |states| && events[i].Enter?
    ensures var Enter(o, isBulk, waitMs, now) := events[i];
            && (forall k :: 0 <= k < |states[n].starts| && states[n].starts[k].offer == o ==>
                  InTime(states[n].starts[k].at, isBulk, waitMs, now, request, states[i].starts == []))
            && ((forall k :: 0 <= k < |states[n].starts| ==> states[n].starts[k].offer != o) ==>
                  forall at: real :: Enabled(states[n], Dispatch(o, at)) <==>
                                     InTime(at, isBulk, waitMs, now, request, states[i].starts == []))
  {
    RunKeeps(request, states, events, i);
    RunKeeps(request, states, events, n);
    OfferStays(request, states, events, i, n);
  }

  predicate InTime(at: real, isBulk: bool, waitMs: real, now: real, request: Option<Request>, first: bool) {
    && at < now + waitMs
    && (!isBulk ==> at < now + 1000.0)
    && (request.Some? && first ==> at < request.value.deadline)
  }

  /** An admitted request goes on: a later offer may start after the gateway deadline. */
  lemma LaterOffersOutliveDeadline(gateway: real)
    returns (states: seq<System>, events: seq<Event>)
    ensures IsRun(Some(Request(gateway, false)), states, events) && states != []
    ensures var starts := states[|states| - 1].starts; |starts| == 2 && starts[1].at >= gateway
  {
    var request := Some(Request(gateway, false));
    events := [Enter(0, false, 2.0, gateway - 1.0), Dispatch(0, gateway - 0.5),
               Enter(1, false, 2.0, gateway + 1.0), Dispatch(1, gateway + 1.5)];
    var s0 := System(request, map[], []);
    var s1 := After(s0, events[0]);
    var s2 := After(s1, events[1]);
    var s3 := After(s2, events[2]);
    var s4 := After(s3, events[3]);
    states := [s0, s1, s2, s3, s4];
  }
}
