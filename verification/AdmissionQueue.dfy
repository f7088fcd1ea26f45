/** The in-process admission queue in front of row and offer work: a permit counter and
    an ordered set of waiters with deadlines. The class is the queue as the program runs
    it; the system below it plays every order of arrivals, finishes and timers. */
module AdmissionQueue {
  import opened Outcomes

  datatype Waiter = Waiter(ticket: nat, deadline: real)

  datatype Admission = TimedOut | Permit | Full | Queued

  datatype Line = Line(active: int, pending: seq<Waiter>)

  datatype Limits = Limits(capacity: nat, maxPending: nat)

  function Arrive(c: Limits, q: Line, ticket: nat, deadline: real, now: real): (Line, Admission) {
    if now >= deadline then (q, TimedOut)
    else if q.active < c.capacity then (q.(active := q.active + 1), Permit)
    else if |q.pending| >= c.maxPending then (q, Full)
    else (q.(pending := q.pending + [Waiter(ticket, deadline)]), Queued)
  }

  /** The first waiter from position i on that is unexpired at its own clock reading. */
  function FirstLive(pending: seq<Waiter>, clock: seq<real>, i: nat): (k: nat)
    requires i <= |pending| <= |clock|
    ensures i <= k <= |pending|
    ensures forall j :: i <= j < k ==> clock[j] >= pending[j].deadline
    ensures k < |pending| ==> clock[k] < pending[k].deadline
    decreases |pending| - i
  {
    if i == |pending| || clock[i] < pending[i].deadline then i else FirstLive(pending, clock, i + 1)
  }

  /** The line after a permit came back: handed to waiter k, or dropped when k is past the end. */
  function HandOver(q: Line, k: nat): Line
    requires k <= |q.pending|
  {
    if k < |q.pending| then Line(q.active, q.pending[k + 1..]) else Line(q.active - 1, [])
  }

  function Tickets(pending: seq<Waiter>): seq<nat> {
    seq(|pending|, i requires 0 <= i < |pending| => pending[i].ticket)
  }

  ghost predicate Pending(q: Line, ticket: nat) {
    ticket in Tickets(q.pending)
  }

  /** The position of a ticket in the line from position i on, or the end of the line. */
  function Position(pending: seq<Waiter>, ticket: nat, i: nat): (k: nat)
    requires i <= |pending|
    ensures i <= k <= |pending|
    ensures forall j :: i <= j < k ==> pending[j].ticket != ticket
    ensures k < |pending| ==> pending[k].ticket == ticket
    decreases |pending| - i
  {
    if i == |pending| || pending[i].ticket == ticket then i else Position(pending, ticket, i + 1)
  }

  /** The line without a ticket; a ticket that is not in it changes nothing. */
  function Without(pending: seq<Waiter>, ticket: nat): seq<Waiter> {
    var k := Position(pending, ticket, 0);
    if k < |pending| then pending[..k] + pending[k + 1..] else pending
  }

  ghost predicate Ordered(pending: seq<Waiter>) {
    forall i, j :: 0 <= i < j < |pending| ==> pending[i].ticket < pending[j].ticket
  }

  class IssuanceAdmissionQueue {
    const limits: Limits
    var active: int
    var pending: seq<Waiter>

    function View(): Line
      reads this
    {
      Line(active, pending)
    }

    constructor (capacity: nat, maxPending: nat)
      ensures limits == Limits(capacity, maxPending) && View() == Line(0, [])
    {
      limits := Limits(capacity, maxPending);
      active, pending := 0, [];
    }

    method Acquire(ticket: nat, deadline: real, now: real) returns (answer: Admission)
      modifies this
      ensures (View(), answer) == Arrive(limits, old(View()), ticket, deadline, now)
    {
      if now >= deadline {
        return TimedOut;
      }
      if active < limits.capacity {
        active := active + 1;
        return Permit;
      }
      if |pending| >= limits.maxPending {
        return Full;
      }
      pending := pending + [Waiter(ticket, deadline)];
      answer := Queued;
    }

    /** A waiter's timer: takes it out of the line if it is still there. */
    method Expire(ticket: nat) returns (rejected: bool)
      modifies this
      ensures rejected <==> old(Pending(View(), ticket))
      ensures View() == old(Line(active, Without(pending, ticket)))
    {
      var i := 0;
      while i < |pending| && pending[i].ticket != ticket
        invariant 0 <= i <= |pending|
        invariant Position(pending, ticket, 0) == Position(pending, ticket, i)
      {
        i := i + 1;
      }
      rejected := i < |pending|;
      assert rejected ==> Tickets(pending)[i] == ticket;
      if rejected {
        pending := pending[..i] + pending[i + 1..];
      }
    }

    /** Gives a permit back. The j-th waiter looked at is compared with clock reading j. */
    method Release(clock: seq<real>) returns (expired: seq<nat>, resumed: Option<nat>)
      requires |pending| <= |clock|
      modifies this
      ensures var k := FirstLive(old(pending), clock, 0);
              && View() == HandOver(old(View()), k)
              && expired == Tickets(old(pending)[..k])
              && resumed == if k < |old(pending)| then Some(old(pending)[k].ticket) else None
    {
      var i := 0;
      expired := [];
      while |pending| > 0
        invariant 0 <= i <= |old(pending)| && pending == old(pending)[i..] && active == old(active)
        invariant FirstLive(old(pending), clock, 0) == FirstLive(old(pending), clock, i)
        invariant expired == Tickets(old(pending)[..i])
        decreases |pending|
      {
        var waiter := pending[0];
        pending := pending[1..];
        if clock[i] >= waiter.deadline {
          expired := expired + [waiter.ticket];
          i := i + 1;
        } else {
          return expired, Some(waiter.ticket);
        }
      }
      active := active - 1;
      resumed := None;
    }
  }

  // ---------------------------------------------------------------------------------
  // Every order of events. A ticket numbers each arrival. A granted ticket is Holding
  // until its caller resumes after the await, then Running until its work settles.

  datatype Status = Waiting | Holding | Running | Rejected | Done

  datatype System = System(
    line: Line,
    next: nat,
    status: map<nat, Status>,
    deadlines: map<nat, real>,
    settles: map<nat, nat>,
    grants: seq<nat>)

  datatype Event =
    | Arrival(deadline: real, now: real)
    | Resume(ticket: nat, now: real, clock: seq<real>)
    | Finish(ticket: nat, clock: seq<real>)
    | Timer(ticket: nat)

  const Start := System(Line(0, []), 0, map[], map[], map[], [])

  ghost predicate Enabled(s: System, e: Event) {
    match e
    case Arrival(_, _) => true
    case Resume(t, _, clock) =>
      t in s.status && t in s.deadlines && s.status[t] == Holding && |s.line.pending| <= |clock|
    case Finish(t, clock) => t in s.status && s.status[t] == Running && |s.line.pending| <= |clock|
    case Timer(t) => Pending(s.line, t)
  }

  function StatusAfter(answer: Admission): Status {
    match answer
    case Permit => Holding
    case Queued => Waiting
    case _ => Rejected
  }

  function AfterArrival(c: Limits, s: System, deadline: real, now: real): System {
    var (line, answer) := Arrive(c, s.line, s.next, deadline, now);
    System(line, s.next + 1,
           s.status[s.next := StatusAfter(answer)],
           s.deadlines[s.next := deadline],
           s.settles[s.next := if answer == Queued then 0 else 1],
           if answer == Permit then s.grants + [s.next] else s.grants)
  }

  /** Ticket t gives its permit back: the expired head of the line is rejected and the
      first live waiter, if any, becomes the new holder. */
  ghost function AfterGiveBack(s: System, t: nat, clock: seq<real>): System
    requires |s.line.pending| <= |clock|
  {
    var pending := s.line.pending;
    var k := FirstLive(pending, clock, 0);
    s.(line := HandOver(s.line, k),
       status := map x | x in s.status ::
         if x == t then Done
         else if x in Tickets(pending[..k]) then Rejected
         else if k < |pending| && pending[k].ticket == x then Holding
         else s.status[x],
       settles := map x | x in s.settles ::
         if x in Tickets(pending[..k]) || (k < |pending| && pending[k].ticket == x) then s.settles[x] + 1
         else s.settles[x],
       grants := if k < |pending| then s.grants + [pending[k].ticket] else s.grants)
  }

  function AfterTimer(s: System, t: nat): System {
    s.(line := s.line.(pending := Without(s.line.pending, t)),
       status := s.status[t := Rejected],
       settles := s.settles[t := (if t in s.settles then s.settles[t] else 0) + 1])
  }

  ghost function After(c: Limits, s: System, e: Event): System
    requires Enabled(s, e)
  {
    match e
    case Arrival(deadline, now) => AfterArrival(c, s, deadline, now)
    case Resume(t, now, clock) =>
      if now >= s.deadlines[t] then AfterGiveBack(s, t, clock) else s.(status := s.status[t := Running])
    case Finish(t, clock) => AfterGiveBack(s, t, clock)
    case Timer(t) => AfterTimer(s, t)
  }

  ghost predicate IsRun(c: Limits, states: seq<System>, events: seq<Event>) {
    && |states| == |events| + 1
    && states[0] == Start
    && forall i :: 0 <= i < |events| ==> Enabled(states[i], events[i]) && states[i + 1] == After(c, states[i], events[i])
  }

  predicate HasPermit(st: Status) {
    st == Holding || st == Running
  }

  ghost function Holders(s: System): set<nat> {
    set t | t in s.status && HasPermit(s.status[t])
  }

  /** The counter counts the permit holders, and nobody waits while a permit is free. */
  ghost predicate Counted(c: Limits, s: System) {
    && s.line.active == |Holders(s)| <= c.capacity
    && |s.line.pending| <= c.maxPending
    && (s.line.pending != [] ==> s.line.active == c.capacity)
  }

  /** The line holds exactly the waiting tickets, in arrival order. */
  ghost predicate InLine(s: System) {
    && Ordered(s.line.pending)
    && (forall t :: t in s.status <==> 0 <= t < s.next)
    && s.deadlines.Keys == s.status.Keys
    && (forall i :: 0 <= i < |s.line.pending| ==>
          var t := s.line.pending[i].ticket; t in s.status && s.status[t] == Waiting)
    && (forall t :: t in s.status && s.status[t] == Waiting ==> Pending(s.line, t))
  }

  /** A waiting promise is unsettled; every other promise was settled exactly once. */
  ghost predicate SettledOnce(s: System) {
    && s.settles.Keys == s.status.Keys
    && forall t :: t in s.status ==> s.settles[t] == if s.status[t] == Waiting then 0 else 1
  }

  ghost predicate Increasing(grants: seq<nat>) {
    forall i, j :: 0 <= i < j < |grants| ==> grants[i] < grants[j]
  }

  predicate WasGranted(st: Status) {
    HasPermit(st) || st == Done
  }

  /** The log holds exactly the tickets that were granted a permit. */
  ghost predicate LogComplete(s: System) {
    && (forall g :: g in s.grants ==> g in s.status && WasGranted(s.status[g]))
    && (forall t :: t in s.status && WasGranted(s.status[t]) ==> t in s.grants)
  }

  /** Everyone in line arrived after everyone who was granted a permit. */
  ghost predicate LineIsLater(s: System) {
    forall g, i :: g in s.grants && 0 <= i < |s.line.pending| ==> g < s.line.pending[i].ticket
  }

  ghost predicate GrantedInOrder(s: System) {
    Increasing(s.grants) && LogComplete(s) && LineIsLater(s)
  }

  ghost predicate Inv(c: Limits, s: System) {
    Counted(c, s) && InLine(s) && SettledOnce(s) && GrantedInOrder(s)
  }

  lemma ArrivalCounts(c: Limits, s: System, deadline: real, now: real)
    requires Counted(c, s) && s.next !in s.status
    ensures Counted(c, AfterArrival(c, s, deadline, now))
  {
    var s' := AfterArrival(c, s, deadline, now);
    var (line, answer) := Arrive(c, s.line, s.next, deadline, now);
    assert Holders(s') == if answer == Permit then Holders(s) + {s.next} else Holders(s);
    assert s.next !in Holders(s);
  }

  lemma NextIsNew(s: System)
    requires InLine(s)
    ensures s.next !in s.status
  {
  }

  lemma ArrivalSettles(c: Limits, s: System, deadline: real, now: real)
    requires SettledOnce(s)
    ensures SettledOnce(AfterArrival(c, s, deadline, now))
  {
  }

  lemma ArrivalLine(c: Limits, s: System, deadline: real, now: real)
    requires InLine(s)
    ensures InLine(AfterArrival(c, s, deadline, now))
  {
    var s' := AfterArrival(c, s, deadline, now);
    var (line, answer) := Arrive(c, s.line, s.next, deadline, now);
    if answer == Queued {
      assert Tickets(line.pending) == Tickets(s.line.pending) + [s.next];
      assert forall x :: x in Tickets(line.pending) <==> x in Tickets(s.line.pending) || x == s.next;
    } else {
      assert line.pending == s.line.pending;
    }
  }

  lemma Grow(grants: seq<nat>, w: nat)
    requires Increasing(grants) && forall g :: g in grants ==> g < w
    ensures Increasing(grants + [w])
    ensures forall g :: g in grants + [w] <==> g in grants || g == w
  {
    assert forall i :: 0 <= i < |grants| ==> grants[i] in grants;
  }

  lemma ArrivalLog(c: Limits, s: System, deadline: real, now: real)
    requires LogComplete(s) && s.next !in s.status
    ensures LogComplete(AfterArrival(c, s, deadline, now))
  {
    var answer := Arrive(c, s.line, s.next, deadline, now).1;
    assert answer == Permit ==> forall g :: g in s.grants + [s.next] <==> g in s.grants || g == s.next;
  }

  lemma ArrivalOrder(c: Limits, s: System, deadline: real, now: real)
    requires Counted(c, s) && InLine(s) && GrantedInOrder(s)
    ensures GrantedInOrder(AfterArrival(c, s, deadline, now))
  {
    hide Ordered, Tickets, Increasing, Holders, Pending;
    Grow(s.grants, s.next);
    ArrivalLog(c, s, deadline, now);
  }

  /** The tickets ahead of position k are waiting and differ from the one at k. */
  lemma Ahead(s: System, k: nat)
    requires InLine(s) && k <= |s.line.pending|
    ensures forall x :: x in Tickets(s.line.pending[..k]) ==> x in s.status && s.status[x] == Waiting
    ensures k < |s.line.pending| ==>
              var w := s.line.pending[k].ticket;
              w !in Tickets(s.line.pending[..k]) && w in s.status && s.status[w] == Waiting
  {
    forall x | x in Tickets(s.line.pending[..k])
      ensures x in s.status && s.status[x] == Waiting
    {
      var i :| 0 <= i < k && Tickets(s.line.pending[..k])[i] == x;
      assert s.line.pending[i].ticket == x;
    }
  }

  /** Cutting the line behind position k leaves exactly the tickets not among the first k + 1. */
  lemma Behind(pending: seq<Waiter>, k: nat)
    requires k < |pending|
    ensures forall x :: x in Tickets(pending) <==>
              x in Tickets(pending[..k]) || x == pending[k].ticket || x in Tickets(pending[k + 1..])
  {
    assert Tickets(pending) == Tickets(pending[..k]) + [pending[k].ticket] + Tickets(pending[k + 1..]);
  }

  lemma GiveBackRest(s: System, t: nat, clock: seq<real>, i: nat)
    requires InLine(s) && t in s.status && HasPermit(s.status[t]) && |s.line.pending| <= |clock|
    requires FirstLive(s.line.pending, clock, 0) < i < |s.line.pending|
    ensures var x := s.line.pending[i].ticket;
            x in s.status && AfterGiveBack(s, t, clock).status[x] == Waiting
  {
    var k := FirstLive(s.line.pending, clock, 0);
    assert s.line.pending[i].ticket !in Tickets(s.line.pending[..k]);
  }

  lemma WholeLine(pending: seq<Waiter>, x: nat)
    ensures x in Tickets(pending) <==> x in Tickets(pending[..|pending|])
  {
    assert pending[..|pending|] == pending;
  }

  lemma GiveBackWaiting(s: System, t: nat, clock: seq<real>, x: nat)
    requires InLine(s) && t in s.status && HasPermit(s.status[t]) && |s.line.pending| <= |clock|
    requires x in s.status && AfterGiveBack(s, t, clock).status[x] == Waiting
    ensures Pending(AfterGiveBack(s, t, clock).line, x)
  {
    hide Tickets, Ordered;
    var pending := s.line.pending;
    var k := FirstLive(pending, clock, 0);
    if k < |pending| {
      Behind(pending, k);
    } else if x in Tickets(pending[..k]) {
      assert false;
    } else {
      WholeLine(pending, x);
    }
  }

  lemma GiveBackLine(s: System, t: nat, clock: seq<real>)
    requires InLine(s) && t in s.status && HasPermit(s.status[t]) && |s.line.pending| <= |clock|
    ensures InLine(AfterGiveBack(s, t, clock))
  {
    hide Tickets, Pending;
    var s' := AfterGiveBack(s, t, clock);
    var k := FirstLive(s.line.pending, clock, 0);
    forall i | 0 <= i < |s'.line.pending|
      ensures var x := s'.line.pending[i].ticket; x in s'.status && s'.status[x] == Waiting
    {
      GiveBackRest(s, t, clock, k + 1 + i);
    }
    forall x | x in s'.status && s'.status[x] == Waiting
      ensures Pending(s'.line, x)
    {
      GiveBackWaiting(s, t, clock, x);
    }
  }

  lemma GiveBackHolders(s: System, t: nat, clock: seq<real>)
    requires InLine(s) && t in s.status && HasPermit(s.status[t]) && |s.line.pending| <= |clock|
    ensures var k := FirstLive(s.line.pending, clock, 0);
            Holders(AfterGiveBack(s, t, clock)) ==
              Holders(s) - {t} + if k < |s.line.pending| then {s.line.pending[k].ticket} else {}
  {
    hide InLine, Tickets, FirstLive;
    Ahead(s, FirstLive(s.line.pending, clock, 0));
  }

  lemma GiveBackCount(c: Limits, s: System, t: nat, clock: seq<real>)
    requires Counted(c, s) && InLine(s) && t in s.status && HasPermit(s.status[t]) && |s.line.pending| <= |clock|
    ensures Counted(c, AfterGiveBack(s, t, clock))
  {
    hide InLine, Tickets;
    var k := FirstLive(s.line.pending, clock, 0);
    Ahead(s, k);
    GiveBackHolders(s, t, clock);
    assert t in Holders(s);
    if k < |s.line.pending| {
      assert s.line.pending[k].ticket !in Holders(s);
    }
  }

  lemma GiveBackSettles(s: System, t: nat, clock: seq<real>)
    requires SettledOnce(s) && InLine(s) && t in s.status && HasPermit(s.status[t]) && |s.line.pending| <= |clock|
    ensures SettledOnce(AfterGiveBack(s, t, clock))
  {
    hide InLine, Tickets;
    Ahead(s, FirstLive(s.line.pending, clock, 0));
  }

  lemma GiveBackLog(s: System, t: nat, clock: seq<real>)
    requires InLine(s) && LogComplete(s)
    requires t in s.status && HasPermit(s.status[t]) && |s.line.pending| <= |clock|
    ensures LogComplete(AfterGiveBack(s, t, clock))
  {
    hide Tickets, InLine;
    Ahead(s, FirstLive(s.line.pending, clock, 0));
  }

  lemma GiveBackOrder(s: System, t: nat, clock: seq<real>)
    requires InLine(s) && GrantedInOrder(s)
    requires t in s.status && HasPermit(s.status[t]) && |s.line.pending| <= |clock|
    ensures GrantedInOrder(AfterGiveBack(s, t, clock))
  {
    hide Tickets, Increasing, LogComplete;
    GiveBackLog(s, t, clock);
    var s' := AfterGiveBack(s, t, clock);
    var pending := s.line.pending;
    var k := FirstLive(pending, clock, 0);
    if k < |pending| {
      Grow(s.grants, pending[k].ticket);
      assert forall i :: 0 <= i < |s'.line.pending| ==> s'.line.pending[i] == pending[k + 1 + i];
    }
  }

  lemma WithoutAt(pending: seq<Waiter>, t: nat)
    ensures var k, rest := Position(pending, t, 0), Without(pending, t);
            forall i :: 0 <= i < |rest| ==> rest[i] == pending[if i < k then i else i + 1]
  {
  }

  /** Taking one ticket out leaves the others in their order. */
  lemma WithoutOne(pending: seq<Waiter>, t: nat)
    requires Ordered(pending) && t in Tickets(pending)
    ensures Ordered(Without(pending, t))
    ensures forall x :: x in Tickets(Without(pending, t)) <==> x in Tickets(pending) && x != t
    ensures |Without(pending, t)| < |pending|
  {
    hide Without;
    var k := Position(pending, t, 0);
    var i := InPending(pending, t);
    WithoutAt(pending, t);
    WithoutTickets(pending, t, k);
  }

  lemma WithoutTickets(pending: seq<Waiter>, t: nat, k: nat)
    requires Ordered(pending) && k == Position(pending, t, 0) < |pending|
    ensures forall x :: x in Tickets(Without(pending, t)) <==> x in Tickets(pending) && x != t
    ensures |Without(pending, t)| < |pending|
  {
    var head, tail := Tickets(pending[..k]), Tickets(pending[k + 1..]);
    assert Tickets(pending[..k] + pending[k + 1..]) == head + tail;
    Behind(pending, k);
    assert t !in head && t !in tail;
  }

  lemma Lookup(pending: seq<Waiter>, i: nat)
    requires i < |pending|
    ensures pending[i].ticket in Tickets(pending)
  {
    assert Tickets(pending)[i] == pending[i].ticket;
  }

  lemma WaitingInLine(s: System, x: nat)
    requires InLine(s) && x in Tickets(s.line.pending)
    ensures x in s.status && s.status[x] == Waiting
  {
    var i :| 0 <= i < |s.line.pending| && Tickets(s.line.pending)[i] == x;
    assert s.line.pending[i].ticket == x;
  }

  lemma TimerLine(s: System, t: nat)
    requires InLine(s) && Pending(s.line, t)
    ensures InLine(AfterTimer(s, t))
  {
    hide Tickets, Ordered, Without;
    var s' := AfterTimer(s, t);
    WithoutOne(s.line.pending, t);
    WaitingInLine(s, t);
    forall i | 0 <= i < |s'.line.pending|
      ensures var x := s'.line.pending[i].ticket; x in s'.status && s'.status[x] == Waiting
    {
      Lookup(s'.line.pending, i);
      WaitingInLine(s, s'.line.pending[i].ticket);
    }
  }

  lemma TimerRest(c: Limits, s: System, t: nat)
    requires Inv(c, s) && Pending(s.line, t)
    ensures Counted(c, AfterTimer(s, t)) && SettledOnce(AfterTimer(s, t)) && LogComplete(AfterTimer(s, t))
  {
    hide Tickets, InLine, Without, LineIsLater;
    assert Ordered(s.line.pending) by { InLineOrdered(s); }
    WithoutOne(s.line.pending, t);
    WaitingInLine(s, t);
    assert s.line.pending != [] by { NotEmpty(s.line.pending, t); }
    assert Holders(AfterTimer(s, t)) == Holders(s);
  }

  lemma NotEmpty(pending: seq<Waiter>, t: nat)
    requires t in Tickets(pending)
    ensures pending != []
  {
  }

  lemma InLineOrdered(s: System)
    requires InLine(s)
    ensures Ordered(s.line.pending)
  {
  }

  lemma TimerOrder(s: System, t: nat)
    requires GrantedInOrder(s) && LogComplete(AfterTimer(s, t))
    ensures GrantedInOrder(AfterTimer(s, t))
  {
    var pending := s.line.pending;
    var k := Position(pending, t, 0);
    var rest := Without(pending, t);
    assert forall i :: 0 <= i < |rest| ==> rest[i] == pending[if i < k then i else i + 1];
  }

  lemma GiveBackKeeps(c: Limits, s: System, t: nat, clock: seq<real>)
    requires Inv(c, s) && t in s.status && HasPermit(s.status[t]) && |s.line.pending| <= |clock|
    ensures Inv(c, AfterGiveBack(s, t, clock))
  {
    hide InLine, Counted, SettledOnce, GrantedInOrder, AfterGiveBack;
    GiveBackLine(s, t, clock);
    GiveBackCount(c, s, t, clock);
    GiveBackSettles(s, t, clock);
    GiveBackOrder(s, t, clock);
  }

  lemma StartsWork(c: Limits, s: System, t: nat)
    requires Inv(c, s) && t in s.status && s.status[t] == Holding
    ensures Inv(c, s.(status := s.status[t := Running]))
  {
    var s' := s.(status := s.status[t := Running]);
    assert Counted(c, s') && SettledOnce(s') by {
      hide InLine, GrantedInOrder;
      assert Holders(s') == Holders(s);
    }
    assert InLine(s') by { hide Counted, SettledOnce, GrantedInOrder, Ordered; }
    assert GrantedInOrder(s') by { hide Counted, SettledOnce, InLine, Increasing; }
  }

  /** Every event keeps the whole invariant. */
  lemma StepKeeps(c: Limits, s: System, e: Event)
    requires Inv(c, s) && Enabled(s, e)
    ensures Inv(c, After(c, s, e))
  {
    hide InLine, Counted, SettledOnce, GrantedInOrder, AfterGiveBack, AfterArrival, AfterTimer;
    match e {
      case Arrival(deadline, now) =>
        assert s.next !in s.status by { NextIsNew(s); }
        ArrivalCounts(c, s, deadline, now);
        ArrivalLine(c, s, deadline, now);
        ArrivalOrder(c, s, deadline, now);
        ArrivalSettles(c, s, deadline, now);
      case Timer(t) =>
        TimerLine(s, t);
        TimerRest(c, s, t);
        TimerOrder(s, t);
      case Finish(t, clock) => GiveBackKeeps(c, s, t, clock);
      case Resume(t, now, clock) =>
        if now >= s.deadlines[t] {
          GiveBackKeeps(c, s, t, clock);
        } else {
          StartsWork(c, s, t);
        }
    }
  }

  lemma {:induction false} RunKeeps(c: Limits, states: seq<System>, events: seq<Event>, n: nat)
    requires IsRun(c, states, events) && n < |states|
    ensures Inv(c, states[n])
  {
    if n > 0 {
      RunKeeps(c, states, events, n - 1);
      StepKeeps(c, states[n - 1], events[n - 1]);
    }
  }

  /** In every run: permits in use never exceed the capacity, the waiting list never
      exceeds its limit, nobody waits beside a free permit, and no promise settles twice. */
  lemma PermitsBounded(c: Limits, states: seq<System>, events: seq<Event>, n: nat)
    requires IsRun(c, states, events) && n < |states|
    ensures 0 <= states[n].line.active == |Holders(states[n])| <= c.capacity
    ensures |states[n].line.pending| <= c.maxPending
    ensures states[n].line.pending != [] ==> states[n].line.active == c.capacity
    ensures forall t :: t in states[n].settles ==> states[n].settles[t] <= 1
    ensures forall t :: t in states[n].settles && states[n].settles[t] == 0 ==> Pending(states[n].line, t)
  {
    RunKeeps(c, states, events, n);
  }

  /** First come, first served: once b holds a permit, every earlier arrival a has either
      been granted a permit before b or been rejected. */
  lemma NoOvertaking(c: Limits, states: seq<System>, events: seq<Event>, n: nat, i: nat, a: nat)
    requires IsRun(c, states, events) && n < |states| && i < |states[n].grants|
    requires a < states[n].grants[i]
    ensures a in states[n].status
    ensures states[n].status[a] == Rejected || exists j :: 0 <= j < i && states[n].grants[j] == a
  {
    RunKeeps(c, states, events, n);
    Overtaken(c, states[n], i, a);
  }

  lemma Overtaken(c: Limits, s: System, i: nat, a: nat)
    requires Inv(c, s) && i < |s.grants| && a < s.grants[i]
    ensures a in s.status
    ensures s.status[a] == Rejected || exists j :: 0 <= j < i && s.grants[j] == a
  {
    hide Tickets, Ordered, Counted, SettledOnce;
    assert s.grants[i] in s.grants;
    if s.status[a] == Waiting {
      var p := InPending(s.line.pending, a);
      assert false;
    } else if s.status[a] != Rejected {
      assert a in s.grants;
      var j :| 0 <= j < |s.grants| && s.grants[j] == a;
    }
  }

  lemma InPending(pending: seq<Waiter>, a: nat) returns (p: nat)
    requires a in Tickets(pending)
    ensures p < |pending| && pending[p].ticket == a
  {
    p :| 0 <= p < |pending| && Tickets(pending)[p] == a;
  }

  /** A newcomer is granted a permit on arrival only when nobody is waiting. */
  lemma NoBarging(c: Limits, states: seq<System>, events: seq<Event>, n: nat)
    requires IsRun(c, states, events) && n < |events| && events[n].Arrival?
    requires states[n + 1].grants != states[n].grants
    ensures states[n].line.pending == []
  {
    RunKeeps(c, states, events, n);
  }

  /** When all admitted work has ended, the queue is empty and every permit is back. */
  lemma DrainsWhenIdle(c: Limits, states: seq<System>, events: seq<Event>, n: nat)
    requires c.capacity > 0 && IsRun(c, states, events) && n < |states|
    requires forall t :: t in states[n].status ==> !HasPermit(states[n].status[t])
    ensures states[n].line == Line(0, [])
  {
    RunKeeps(c, states, events, n);
    assert Holders(states[n]) == {};
  }

  // ---------------------------------------------------------------------------------
  // Reasons

  /** Each waiter carries the deadline its ticket arrived with. */
  ghost predicate OwnDeadlines(s: System) {
    forall w :: w in s.line.pending ==> w.ticket in s.deadlines && s.deadlines[w.ticket] == w.deadline
  }

  lemma DeadlinesKeep(c: Limits, s: System, e: Event)
    requires Inv(c, s) && OwnDeadlines(s) && Enabled(s, e)
    ensures OwnDeadlines(After(c, s, e))
  {
    hide Inv, Counted, SettledOnce, GrantedInOrder, Tickets;
    var s' := After(c, s, e);
    if e.Arrival? {
      assert forall w :: w in s'.line.pending ==> w in s.line.pending || w == Waiter(s.next, e.deadline);
      assert s.next !in s.deadlines by { NextUnknown(c, s); }
    } else if e.Timer? {
      FewerWaiters(s.line.pending, e.ticket);
    }
  }

  lemma NextUnknown(c: Limits, s: System)
    requires Inv(c, s)
    ensures s.next !in s.deadlines
  {
    NextIsNew(s);
  }

  lemma FewerWaiters(pending: seq<Waiter>, t: nat)
    ensures forall w :: w in Without(pending, t) ==> w in pending
  {
  }

  lemma {:induction false} DeadlinesRun(c: Limits, states: seq<System>, events: seq<Event>, n: nat)
    requires IsRun(c, states, events) && n < |states|
    ensures OwnDeadlines(states[n])
  {
    hide Inv, OwnDeadlines;
    if n == 0 {
      assert OwnDeadlines(Start) by { NoWaiters(); }
    } else {
      DeadlinesRun(c, states, events, n - 1);
      RunKeeps(c, states, events, n - 1);
      DeadlinesKeep(c, states[n - 1], events[n - 1]);
    }
  }

  lemma NoWaiters()
    ensures OwnDeadlines(Start)
  {
  }

  /** The clock readings at which a permit given back meets the waiters, in their order. */
  ghost function Readings(s: System, e: Event): Option<seq<real>>
    requires Enabled(s, e)
  {
    match e
    case Finish(_, clock) => Some(clock)
    case Resume(t, now, clock) => if now >= s.deadlines[t] then Some(clock) else None
    case _ => None
  }

  /** When a permit is given back: a waiter that it rejects had reached the deadline it
      arrived with, and the waiter that inherits it had not. */
  lemma RejectedOnTime(c: Limits, states: seq<System>, events: seq<Event>, n: nat, x: nat)
    requires IsRun(c, states, events) && n < |events| && Readings(states[n], events[n]).Some?
    requires x in states[n].status && states[n].status[x] == Waiting
    ensures var s, s', clock := states[n], states[n + 1], Readings(states[n], events[n]).value;
            exists p :: 0 <= p < |s.line.pending| <= |clock| && s.line.pending[p].ticket == x && x in s.deadlines && x in s'.status
                        && (s'.status[x] == Rejected ==> clock[p] >= s.deadlines[x])
                        && (s'.status[x] == Holding ==> clock[p] < s.deadlines[x])
  {
    hide Counted, SettledOnce, GrantedInOrder;
    RunKeeps(c, states, events, n);
    DeadlinesRun(c, states, events, n);
    var s := states[n];
    var clock := Readings(s, events[n]).value;
    var p := InPending(s.line.pending, x);
    assert s.line.pending[p] in s.line.pending;
    var t := events[n].ticket;
    assert states[n + 1] == AfterGiveBack(s, t, clock);
    GiveBackReason(s, t, clock, p);
  }

  lemma GiveBackReason(s: System, t: nat, clock: seq<real>, p: nat)
    requires InLine(s) && |s.line.pending| <= |clock| && p < |s.line.pending|
    requires t in s.status && s.status[t] != Waiting
    ensures var x := s.line.pending[p].ticket;
            var after := AfterGiveBack(s, t, clock).status;
            x in after && (after[x] == Rejected ==> clock[p] >= s.line.pending[p].deadline)
            && (after[x] == Holding ==> clock[p] < s.line.pending[p].deadline)
  {
    var pending := s.line.pending;
    var k := FirstLive(pending, clock, 0);
    var x := pending[p].ticket;
    if x in Tickets(pending[..k]) {
      var q := InPending(pending[..k], x);
      assert pending[q].ticket == x;
    }
  }

  // ---------------------------------------------------------------------------------
  // Every answer by its own condition

  /** An arrival in a run is timed out, given a permit, queued or refused, each exactly under
      its own condition; permits in use are counted by their holders. */
  lemma ArrivalAnswered(c: Limits, states: seq<System>, events: seq<Event>, n: nat)
    requires IsRun(c, states, events) && n < |events| && events[n].Arrival?
    ensures var s, s', Arrival(deadline, now) := states[n], states[n + 1], events[n];
            var t, busy := s.next, |Holders(s)| >= c.capacity;
            && t !in s.status && t in s'.status
            && (s'.status[t] == Holding <==> now < deadline && !busy)
            && (s'.status[t] == Waiting <==> now < deadline && busy && |s.line.pending| < c.maxPending)
            && (s'.status[t] == Rejected <==> now >= deadline || (busy && |s.line.pending| >= c.maxPending))
            && Tickets(s'.line.pending) == Tickets(s.line.pending) + (if s'.status[t] == Waiting then [t] else [])
  {
    hide Counted, InLine, SettledOnce, GrantedInOrder, Holders, Tickets;
    RunKeeps(c, states, events, n);
    ActiveIs(c, states[n]);
    Joined(states[n].line.pending, Waiter(states[n].next, events[n].deadline));
    assert Tickets(states[n].line.pending) + [] == Tickets(states[n].line.pending);
  }

  lemma ActiveIs(c: Limits, s: System)
    requires Inv(c, s)
    ensures s.line.active == |Holders(s)| && s.next !in s.status
  {
    NextIsNew(s);
  }

  lemma Joined(pending: seq<Waiter>, w: Waiter)
    ensures Tickets(pending + [w]) == Tickets(pending) + [w.ticket]
  {
  }

  /** A holder resumes to work exactly if its deadline has not come; otherwise, and when its
      work ends, it is done and its permit goes to the first waiter whose deadline has not
      come, or back. Its place in the count is then that waiter's or nobody's. */
  lemma PermitPassed(c: Limits, states: seq<System>, events: seq<Event>, n: nat)
    requires IsRun(c, states, events) && n < |events| && (events[n].Resume? || events[n].Finish?)
    ensures var s, s', e := states[n], states[n + 1], events[n];
            var pending := s.line.pending;
            && e.ticket in s'.status && e.ticket in s.deadlines && e.ticket !in Tickets(pending)
            && (e.Resume? && e.now < s.deadlines[e.ticket] ==>
                  s'.status == s.status[e.ticket := Running] && s'.line == s.line)
            && (e.Finish? || e.now >= s.deadlines[e.ticket] ==>
                  && s'.status[e.ticket] == Done
                  && (exists k :: 0 <= k <= |pending| <= |e.clock| && PassedTo(s, s', e.clock, k)))
  {
    hide Counted, SettledOnce, GrantedInOrder;
    RunKeeps(c, states, events, n);
    var s, e := states[n], events[n];
    HolderNotWaiting(c, s, e.ticket);
    if e.Finish? || e.now >= s.deadlines[e.ticket] {
      GaveBack(s, e.ticket, e.clock);
    }
  }

  /** The k waiters ahead were rejected at their deadlines, and the next one, if any, has the permit. */
  ghost predicate PassedTo(s: System, s': System, clock: seq<real>, k: nat)
    requires k <= |s.line.pending| <= |clock|
  {
    var pending := s.line.pending;
    && (forall j :: 0 <= j < k ==> clock[j] >= pending[j].deadline && pending[j].ticket in s'.status && s'.status[pending[j].ticket] == Rejected)
    && (k < |pending| ==>
          clock[k] < pending[k].deadline && pending[k].ticket in s'.status && s'.status[pending[k].ticket] == Holding
          && s'.line == Line(s.line.active, pending[k + 1..]))
    && (k == |pending| ==> s'.line == Line(s.line.active - 1, []))
  }

  lemma HolderNotWaiting(c: Limits, s: System, t: nat)
    requires Inv(c, s) && t in s.status && HasPermit(s.status[t])
    ensures t in s.deadlines && t !in Tickets(s.line.pending)
  {
    if t in Tickets(s.line.pending) {
      WaitingInLine(s, t);
    }
  }

  lemma GaveBack(s: System, t: nat, clock: seq<real>)
    requires InLine(s) && t in s.status && HasPermit(s.status[t]) && |s.line.pending| <= |clock| && t !in Tickets(s.line.pending)
    ensures var s', k := AfterGiveBack(s, t, clock), FirstLive(s.line.pending, clock, 0);
            t in s'.status && s'.status[t] == Done && PassedTo(s, s', clock, k)
  {
    hide Tickets, InLine;
    var pending := s.line.pending;
    var k := FirstLive(pending, clock, 0);
    forall j | 0 <= j < k
      ensures var x := pending[j].ticket;
              x in AfterGiveBack(s, t, clock).status && AfterGiveBack(s, t, clock).status[x] == Rejected
    {
      AheadRejected(s, t, clock, j);
    }
    if k < |pending| {
      Lookup(pending, k);
      Ahead(s, k);
    }
  }

  lemma AheadRejected(s: System, t: nat, clock: seq<real>, j: nat)
    requires InLine(s) && t in s.status && |s.line.pending| <= |clock| && t !in Tickets(s.line.pending)
    requires j < FirstLive(s.line.pending, clock, 0)
    ensures var x := s.line.pending[j].ticket;
            x in AfterGiveBack(s, t, clock).status && AfterGiveBack(s, t, clock).status[x] == Rejected
  {
    hide InLine, Tickets;
    var pending := s.line.pending;
    var k := FirstLive(pending, clock, 0);
    Ahead(s, k);
    Lookup(pending[..k], j);
    Lookup(pending, j);
    assert pending[..k][j] == pending[j];
  }
}
