/**
  Online scans and offline records from any number of devices, interleaved statement by statement.
  Every scan is a task that reads and writes the tables one statement at a time; a crashed request is
  a task that is never advanced again.  The records of a batch are separate tasks, which allows every
  order the batch loop allows and more.
 */
module CheckinInterleaving {
  import opened Wrappers
  import opened Sums
  import opened Venue
  import opened Sync

  /** The next statement of a task: the look for an earlier log row, the read of the ticket with the
      checks on it, the conditional update, the insert into the log. */
  datatype Phase = Start | ToFetch | ToUpdate | ToLog(status: CheckinStatus) | Finished
  datatype Task = Task(scan: Scan, eventId: Option<string>, phase: Phase)
  datatype System = System(venue: Venue, tasks: map<nat, Task>)
  datatype Move =
    | Begin(n: nat, scan: Scan, eventId: Option<string>)
    | Advance(n: nat)
    | Office(tickets: map<string, Ticket>)   // tickets are issued, or move to another gate

  function LookUp(v: Venue, t: Task): Task {
    if t.eventId.Some? && FindLog(v.logs, t.scan.device, t.eventId.value).Some? then t.(phase := Finished)
    else t.(phase := ToFetch)
  }

  function Fetch(c: Secrets, v: Venue, t: Task): Task {
    var j := Judge(c, v.tickets, t.scan);
    t.(phase := if j.Passes? then ToUpdate else ToLog(RefusalStatus(j)))
  }

  /** What an update of no row means, online and offline. */
  function Late(t: Task): CheckinStatus {
    if t.eventId.Some? then RejectedConflict else AlreadyCheckedIn
  }

  predicate Takes(v: Venue, t: Task) {
    t.scan.ticketId in v.tickets && v.tickets[t.scan.ticketId].status.Issued?
  }

  function Step(c: Secrets, s: System, m: Move): System {
    match m
    case Begin(n, scan, eventId) => s.(tasks := s.tasks[n := Task(scan, eventId, Start)])
    case Office(tickets) => s.(venue := s.venue.(tickets := tickets))
    case Advance(n) =>
      if n !in s.tasks then s
      else
        var t := s.tasks[n];
        match t.phase
        case Start => s.(tasks := s.tasks[n := LookUp(s.venue, t)])
        case ToFetch => s.(tasks := s.tasks[n := Fetch(c, s.venue, t)])
        case ToUpdate =>
          System(s.venue.(tickets := CheckIn(s.venue.tickets, t.scan.ticketId)),
                 s.tasks[n := t.(phase := ToLog(if Takes(s.venue, t) then Success else Late(t)))])
        case ToLog(status) =>
          var row := LogOf(t.scan, t.eventId, status);
          System(if CanLog(s.venue, row) then Logged(s.venue, row) else s.venue, s.tasks[n := t.(phase := Finished)])
        case Finished => s
  }

  predicate Legal(s: System, m: Move) {
    match m
    case Begin(n, _, _) => n !in s.tasks
    case Advance(_) => true
    case Office(tickets) =>
      && (forall id :: id in s.venue.tickets ==> id in tickets && tickets[id].status == s.venue.tickets[id].status)
      && (forall id :: id in tickets && id !in s.venue.tickets ==> tickets[id].status.Issued?)
  }

  // ------------------------------------------------------------------ safety

  function OwedWeight(id: string): (nat, Task) -> int {
    (n: nat, t: Task) => if t.scan.ticketId == id && t.phase == ToLog(Success) then 1 else 0
  }

  /** SUCCESS rows of a ticket, and tasks that took it and have yet to write theirs. */
  ghost function Tally(s: System, id: string): int {
    CountIf(s.venue.logs, LoggedAs(id, Success)) + Sum(s.tasks, OwedWeight(id))
  }

  function In(v: Venue, id: string): int {
    if id in v.tickets && v.tickets[id].status.CheckedIn? then 1 else 0
  }

  predicate UniqueKeys(logs: seq<LogRow>) {
    forall i, j :: 0 <= i < j < |logs| && logs[i].eventId.Some? ==>
             logs[i].device != logs[j].device || logs[i].eventId != logs[j].eventId
  }

  ghost predicate Safe(s: System) {
    && (forall id :: Tally(s, id) <= In(s.venue, id))
    && UniqueKeys(s.venue.logs)
    && (forall row :: row in s.venue.logs ==> row.ticketId in s.venue.tickets)
  }

  /** One task and one log row at most change in a step. */
  lemma TallyMoves(s: System, n: nat, t: Task, venue: Venue, more: seq<LogRow>, id: string)
    requires venue.logs == s.venue.logs + more && |more| <= 1
    ensures var s' := System(venue, s.tasks[n := t]);
            Tally(s', id) - Tally(s, id) ==
              (if more != [] && LoggedAs(id, Success)(more[0]) then 1 else 0)
              + OwedWeight(id)(n, t) - (if n in s.tasks then OwedWeight(id)(n, s.tasks[n]) else 0)
  {
    SumWrite(s.tasks, OwedWeight(id), s.tasks[n := t], OwedWeight(id), n);
    CountAppend(s.venue.logs, more, LoggedAs(id, Success));
    assert more != [] ==> more[1..] == [];
  }

  lemma {:induction false} NotFoundMeansNone(logs: seq<LogRow>, device: string, eventId: string)
    requires FindLog(logs, device, eventId).None?
    ensures forall row :: row in logs ==> !KeyOf(row, device, eventId)
  {
    if logs != [] {
      NotFoundMeansNone(logs[1..], device, eventId);
    }
  }

  lemma LoggingKeepsKeys(v: Venue, row: LogRow)
    requires UniqueKeys(v.logs) && CanLog(v, row)
    ensures UniqueKeys(v.logs + [row])
  {
    if row.eventId.Some? {
      NotFoundMeansNone(v.logs, row.device, row.eventId.value);
      assert forall i :: 0 <= i < |v.logs| ==> !KeyOf(v.logs[i], row.device, row.eventId.value);
    }
  }

  /** How the tally of a ticket moves in one step, against the ticket itself. */
  lemma StepTally(c: Secrets, s: System, m: Move, id: string)
    requires Legal(s, m)
    ensures var s' := Step(c, s, m);
            && In(s.venue, id) <= In(s'.venue, id)
            && Tally(s', id) - Tally(s, id) == In(s'.venue, id) - In(s.venue, id) - (if Drops(s, m, id) then 1 else 0)
  {
    match m
    case Office(_) =>
    case Begin(n, scan, eventId) => TallyMoves(s, n, Task(scan, eventId, Start), s.venue, [], id);
                                    assert s.venue.logs + [] == s.venue.logs;
    case Advance(n) =>
      if n in s.tasks && !s.tasks[n].phase.Finished? {
        var t := s.tasks[n];
        var s' := Step(c, s, m);
        var row := if t.phase.ToLog? then [LogOf(t.scan, t.eventId, t.phase.status)] else [];
        var more := if t.phase.ToLog? && CanLog(s.venue, row[0]) then row else [];
        assert s'.venue.logs == s.venue.logs + more;
        TallyMoves(s, n, s'.tasks[n], s'.venue, more, id);
      }
  }

  /** A task whose SUCCESS row the log refuses: another delivery of its event wrote its row first. */
  predicate Drops(s: System, m: Move, id: string) {
    && m.Advance? && m.n in s.tasks && s.tasks[m.n].phase == ToLog(Success) && s.tasks[m.n].scan.ticketId == id
    && !CanLog(s.venue, LogOf(s.tasks[m.n].scan, s.tasks[m.n].eventId, Success))
  }

  lemma StepIsSafe(c: Secrets, s: System, m: Move)
    requires Safe(s) && Legal(s, m)
    ensures Safe(Step(c, s, m)) && Later(s.venue, Step(c, s, m).venue)
  {
    var s' := Step(c, s, m);
    forall id
      ensures Tally(s', id) <= In(s'.venue, id)
    {
      StepTally(c, s, m, id);
    }
    if m.Advance? && m.n in s.tasks && s.tasks[m.n].phase.ToLog? {
      var t := s.tasks[m.n];
      var row := LogOf(t.scan, t.eventId, t.phase.status);
      if CanLog(s.venue, row) {
        LoggingKeepsKeys(s.venue, row);
      }
    }
  }

  function Run(c: Secrets, s: System, moves: seq<Move>): System
    decreases |moves|
  {
    if moves == [] then s else Run(c, Step(c, s, moves[0]), moves[1..])
  }

  predicate LegalRun(c: Secrets, s: System, moves: seq<Move>)
    decreases |moves|
  {
    moves == [] || (Legal(s, moves[0]) && LegalRun(c, Step(c, s, moves[0]), moves[1..]))
  }

  /**
    Under every interleaving: at most one SUCCESS row per ticket, only for a ticket that is CHECKED_IN;
    CHECKED_IN is never left; one row per device and event.
   */
  lemma {:induction false} EveryInterleavingIsSafe(c: Secrets, s: System, moves: seq<Move>)
    requires Safe(s) && LegalRun(c, s, moves)
    ensures var s' := Run(c, s, moves);
            && Safe(s') && Later(s.venue, s'.venue)
            && forall id :: CountIf(s'.venue.logs, LoggedAs(id, Success)) <= In(s'.venue, id) <= 1
    decreases |moves|
  {
    if moves == [] {
      forall id
        ensures CountIf(s.venue.logs, LoggedAs(id, Success)) <= In(s.venue, id) <= 1
      {
        SumNonNegative(s.tasks, OwedWeight(id));
        assert Tally(s, id) <= In(s.venue, id);
      }
    } else {
      StepIsSafe(c, s, moves[0]);
      EveryInterleavingIsSafe(c, Step(c, s, moves[0]), moves[1..]);
    }
  }

  // ------------------------------------------------------------------ when the log tells the whole story

  /** How many SUCCESS rows of a ticket the log refuses in a run. */
  function Refused(c: Secrets, s: System, moves: seq<Move>, id: string): nat
    decreases |moves|
  {
    if moves == [] then 0
    else (if Drops(s, moves[0], id) then 1 else 0) + Refused(c, Step(c, s, moves[0]), moves[1..], id)
  }

  predicate NothingRefused(c: Secrets, s: System, moves: seq<Move>)
    decreases |moves|
  {
    moves == [] ||
    ((moves[0].Advance? && moves[0].n in s.tasks ==> !Drops(s, moves[0], s.tasks[moves[0].n].scan.ticketId))
     && NothingRefused(c, Step(c, s, moves[0]), moves[1..]))
  }

  /** A ticket is in without its SUCCESS row, written or owed, exactly as often as the log refused one. */
  lemma {:induction false} RunTally(c: Secrets, s: System, moves: seq<Move>, id: string)
    requires LegalRun(c, s, moves)
    ensures var s' := Run(c, s, moves);
            In(s'.venue, id) - Tally(s', id) == In(s.venue, id) - Tally(s, id) + Refused(c, s, moves, id)
    decreases |moves|
  {
    if moves != [] {
      StepTally(c, s, moves[0], id);
      RunTally(c, Step(c, s, moves[0]), moves[1..], id);
    }
  }

  ghost predicate NoneRefused(c: Secrets, s: System, moves: seq<Move>) {
    forall id :: Refused(c, s, moves, id) == 0
  }

  lemma {:induction false} RefusedIff(c: Secrets, s: System, moves: seq<Move>)
    ensures NothingRefused(c, s, moves) <==> NoneRefused(c, s, moves)
    decreases |moves|
  {
    if moves != [] {
      var m, rest := moves[0], moves[1..];
      var s1 := Step(c, s, m);
      RefusedIff(c, s1, rest);
      if NothingRefused(c, s, moves) {
        forall id
          ensures Refused(c, s, moves, id) == 0
        {
          assert Refused(c, s1, rest, id) == 0;
        }
      } else if NothingRefused(c, s1, rest) {
        assert Refused(c, s, moves, s.tasks[m.n].scan.ticketId) > 0;
      } else {
        var id :| Refused(c, s1, rest, id) != 0;
        assert Refused(c, s, moves, id) > 0;
      }
    }
  }

  /** SUCCESS rows, written or owed, and tickets that are in correspond one to one. */
  ghost predicate Accounted(s: System) {
    forall id :: Tally(s, id) == In(s.venue, id)
  }

  /** From such a state they still do after a run if and only if the log refused no SUCCESS row in it. */
  lemma AccountedIff(c: Secrets, s: System, moves: seq<Move>)
    requires Accounted(s) && LegalRun(c, s, moves)
    ensures Accounted(Run(c, s, moves)) <==> NothingRefused(c, s, moves)
  {
    var s' := Run(c, s, moves);
    RefusedIff(c, s, moves);
    forall id
      ensures In(s'.venue, id) - Tally(s', id) == Refused(c, s, moves, id)
    {
      assert Tally(s, id) == In(s.venue, id);
      RunTally(c, s, moves, id);
    }
    if Accounted(s') {
      forall id
        ensures Refused(c, s, moves, id) == 0
      {
        assert Tally(s', id) == In(s'.venue, id);
      }
    }
    if NoneRefused(c, s, moves) {
      forall id
        ensures Tally(s', id) == In(s'.venue, id)
      {
        assert Refused(c, s, moves, id) == 0;
      }
    }
  }

  // ------------------------------------------------------------------ retries that wait for their turn

  predicate SameEvent(a: Task, b: Task) {
    a.eventId.Some? && a.eventId == b.eventId && a.scan.device == b.scan.device
  }

  /** An event may be delivered any number of times, each delivery after the ones before have ended. */
  predicate InTurn(s: System, m: Move) {
    m.Begin? ==>
      forall n :: n in s.tasks && SameEvent(s.tasks[n], Task(m.scan, m.eventId, Start)) ==> s.tasks[n].phase.Finished?
  }

  predicate InTurnRun(c: Secrets, s: System, moves: seq<Move>)
    decreases |moves|
  {
    moves == [] || (InTurn(s, moves[0]) && InTurnRun(c, Step(c, s, moves[0]), moves[1..]))
  }

  /** A task that looked its event up and did not find it still would not. */
  predicate Unlogged(v: Venue, t: Task) {
    t.eventId.Some? && (t.phase.ToFetch? || t.phase.ToUpdate? || t.phase.ToLog?) ==>
      FindLog(v.logs, t.scan.device, t.eventId.value).None?
  }

  predicate Waits(s: System, k: nat, n: nat)
    requires k in s.tasks && n in s.tasks
  {
    k == n || !SameEvent(s.tasks[k], s.tasks[n]) || s.tasks[k].phase.Finished? || s.tasks[n].phase.Finished?
  }

  predicate HasTicket(v: Venue, t: Task) {
    t.phase.ToUpdate? || t.phase == ToLog(Success) ==> t.scan.ticketId in v.tickets
  }

  ghost predicate Orderly(s: System) {
    && (forall k, n :: k in s.tasks && n in s.tasks ==> Waits(s, k, n))
    && (forall n :: n in s.tasks ==> Unlogged(s.venue, s.tasks[n]) && HasTicket(s.venue, s.tasks[n]))
  }

  lemma OrderlyDropsNothing(s: System, m: Move, id: string)
    requires Orderly(s)
    ensures !Drops(s, m, id)
  {
    if m.Advance? && m.n in s.tasks {
      assert Unlogged(s.venue, s.tasks[m.n]) && HasTicket(s.venue, s.tasks[m.n]);
    }
  }

  /** Another task's row has another key. */
  lemma OthersStayUnlogged(c: Secrets, s: System, m: Move, k: nat)
    requires Orderly(s) && m.Advance? && m.n in s.tasks && k in s.tasks && k != m.n
    ensures Unlogged(Step(c, s, m).venue, s.tasks[k])
  {
    var t, other := s.tasks[m.n], s.tasks[k];
    assert Waits(s, k, m.n) && Unlogged(s.venue, other);
    if t.phase.ToLog? && other.eventId.Some? {
      FindInExtended(s.venue.logs, [LogOf(t.scan, t.eventId, t.phase.status)], other.scan.device, other.eventId.value);
    }
  }

  lemma StepIsOrderly(c: Secrets, s: System, m: Move)
    requires Orderly(s) && Legal(s, m) && InTurn(s, m)
    ensures Orderly(Step(c, s, m))
  {
    var s' := Step(c, s, m);
    forall n | n in s'.tasks
      ensures Unlogged(s'.venue, s'.tasks[n]) && HasTicket(s'.venue, s'.tasks[n])
    {
      if n in s.tasks {
        assert Unlogged(s.venue, s.tasks[n]) && HasTicket(s.venue, s.tasks[n]);
        if m.Advance? && m.n in s.tasks && n != m.n {
          OthersStayUnlogged(c, s, m, n);
        }
      }
    }
    forall k, n | k in s'.tasks && n in s'.tasks
      ensures Waits(s', k, n)
    {
      assert k in s.tasks && n in s.tasks ==> Waits(s, k, n);
    }
  }

  lemma {:induction false} InTurnDropsNothing(c: Secrets, s: System, moves: seq<Move>)
    requires Orderly(s) && LegalRun(c, s, moves) && InTurnRun(c, s, moves)
    ensures NothingRefused(c, s, moves)
    decreases |moves|
  {
    if moves != [] {
      if moves[0].Advance? && moves[0].n in s.tasks {
        OrderlyDropsNothing(s, moves[0], s.tasks[moves[0].n].scan.ticketId);
      }
      StepIsOrderly(c, s, moves[0]);
      InTurnDropsNothing(c, Step(c, s, moves[0]), moves[1..]);
    }
  }

  /** Nobody inside, nothing logged, nothing under way. */
  predicate Opening(s: System) {
    s.venue.logs == [] && s.tasks == map[] && forall id :: id in s.venue.tickets ==>
      !s.venue.tickets[id].status.CheckedIn?
  }

  lemma OpeningIsSafe(s: System)
    requires Opening(s)
    ensures Safe(s) && Accounted(s) && Orderly(s)
  {
  }

  predicate AllEnded(s: System) {
    forall n :: n in s.tasks ==> s.tasks[n].phase.Finished?
  }

  ghost predicate LogTells(s: System) {
    forall id :: CountIf(s.venue.logs, LoggedAs(id, Success)) == In(s.venue, id)
  }

  /** When every request has ended, the log says who is in exactly when it refused no SUCCESS row. */
  lemma LogTellsIff(c: Secrets, s: System, moves: seq<Move>)
    requires Opening(s) && LegalRun(c, s, moves) && AllEnded(Run(c, s, moves))
    ensures LogTells(Run(c, s, moves)) <==> NothingRefused(c, s, moves)
  {
    var s' := Run(c, s, moves);
    OpeningIsSafe(s);
    AccountedIff(c, s, moves);
    forall id
      ensures Tally(s', id) == CountIf(s'.venue.logs, LoggedAs(id, Success))
    {
      SumZero(s'.tasks, OwedWeight(id));
    }
  }

  /** Retries that wait for the delivery before them never make it refuse one, however many there are. */
  lemma LogTellsWhoIsIn(c: Secrets, s: System, moves: seq<Move>)
    requires Opening(s) && LegalRun(c, s, moves) && InTurnRun(c, s, moves) && AllEnded(Run(c, s, moves))
    ensures LogTells(Run(c, s, moves))
  {
    OpeningIsSafe(s);
    InTurnDropsNothing(c, s, moves);
    LogTellsIff(c, s, moves);
  }

  // ------------------------------------------------------------------ the service calls are runs

  lemma TwoMoves(c: Secrets, s: System, moves: seq<Move>, k: nat)
    requires k + 1 < |moves|
    ensures Run(c, s, moves[k..]) == Run(c, Step(c, Step(c, s, moves[k]), moves[k + 1]), moves[k + 2..])
  {
    assert moves[k..][1..] == moves[k + 1..] && moves[k + 1..][1..] == moves[k + 2..];
  }

  /** One task from beginning to end with nothing in between; a step of a finished task does nothing. */
  function Alone(n: nat, scan: Scan, eventId: Option<string>): seq<Move> {
    [Begin(n, scan, eventId), Advance(n), Advance(n), Advance(n), Advance(n)]
  }

  function Statement(c: Secrets, s: System, n: nat): System {
    Step(c, s, Advance(n))
  }

  lemma AloneUnfolds(c: Secrets, s: System, n: nat, scan: Scan, eventId: Option<string>)
    ensures Run(c, s, Alone(n, scan, eventId)) ==
            Statement(c, Statement(c, Statement(c,
              Statement(c, s.(tasks := s.tasks[n := Task(scan, eventId, Start)]), n), n), n), n)
  {
    var moves := Alone(n, scan, eventId);
    assert moves[0..] == moves && moves[4..][1..] == [];
    TwoMoves(c, s, moves, 0);
    TwoMoves(c, Step(c, Step(c, s, moves[0]), moves[1]), moves, 2);
  }

  lemma AloneIsVerify(c: Secrets, s: System, n: nat, scan: Scan)
    ensures Run(c, s, Alone(n, scan, None)).venue == Verify(c, s.venue, scan).0
  {
    AloneUnfolds(c, s, n, scan, None);
  }

  lemma AloneIsSyncRecord(c: Secrets, s: System, n: nat, r: Record)
    ensures Run(c, s, Alone(n, r.scan, Some(r.eventId))).venue == SyncRecord(c, s.venue, r).0
  {
    AloneUnfolds(c, s, n, r.scan, Some(r.eventId));
  }

  // ------------------------------------------------------------------ one event delivered twice at once

  /** Both deliveries find no row; the one that loses the update logs first. */
  function TwiceAtOnce(scan: Scan, e: string): seq<Move> {
    [Begin(0, scan, Some(e)), Begin(1, scan, Some(e)), Advance(0), Advance(1), Advance(0), Advance(1),
     Advance(0), Advance(1), Advance(1), Advance(0)]
  }

  lemma {:induction false} AdvancingIsLegal(c: Secrets, s: System, moves: seq<Move>)
    requires forall i :: 0 <= i < |moves| ==> moves[i].Advance?
    ensures LegalRun(c, s, moves)
    decreases |moves|
  {
    if moves != [] {
      AdvancingIsLegal(c, Step(c, s, moves[0]), moves[1..]);
    }
  }

  /** Two tasks for one event. */
  function Both(v: Venue, scan: Scan, e: string, first: Phase, second: Phase): System {
    System(v, map[0 := Task(scan, Some(e), first), 1 := Task(scan, Some(e), second)])
  }

  lemma BothRead(c: Secrets, v: Venue, scan: Scan, e: string)
    requires v.logs == [] && Judge(c, v.tickets, scan).Passes?
    ensures Step(c, Step(c, Both(v, scan, e, Start, Start), Advance(0)), Advance(1)) ==
              Both(v, scan, e, ToFetch, ToFetch)
    ensures Step(c, Step(c, Both(v, scan, e, ToFetch, ToFetch), Advance(0)), Advance(1)) ==
              Both(v, scan, e, ToUpdate, ToUpdate)
  {
  }

  lemma OneUpdates(c: Secrets, v: Venue, scan: Scan, e: string)
    requires scan.ticketId in v.tickets && v.tickets[scan.ticketId].status.Issued?
    ensures Step(c, Step(c, Both(v, scan, e, ToUpdate, ToUpdate), Advance(0)), Advance(1))
            == Both(v.(tickets := CheckIn(v.tickets, scan.ticketId)), scan, e, ToLog(Success), ToLog(RejectedConflict))
  {
  }

  lemma LoserLogs(c: Secrets, v: Venue, scan: Scan, e: string)
    requires scan.ticketId in v.tickets && v.logs == []
    ensures Step(c, Step(c, Both(v, scan, e, ToLog(Success), ToLog(RejectedConflict)), Advance(1)), Advance(0))
            == Both(Logged(v, LogOf(scan, Some(e), RejectedConflict)), scan, e, Finished, Finished)
  {
  }

  lemma TwiceIsLegal(c: Secrets, s: System, scan: Scan, e: string)
    requires s.tasks == map[]
    ensures LegalRun(c, s, TwiceAtOnce(scan, e))
  {
    var moves := TwiceAtOnce(scan, e);
    var s1 := Step(c, s, moves[0]);
    AdvancingIsLegal(c, Step(c, s1, moves[1]), moves[2..]);
    assert moves[1..][1..] == moves[2..];
    assert LegalRun(c, s1, moves[1..]);
  }

  /**
    A record retried while its first delivery is still being handled: the holder is let in, yet the
    only row of the event says REJECTED_CONFLICT and no SUCCESS row is ever written.
   */
  lemma TwiceAtOnceLosesTheSuccess(c: Secrets, s: System, scan: Scan, e: string)
    requires Opening(s) && Judge(c, s.venue.tickets, scan).Passes? && s.venue.tickets[scan.ticketId].status.Issued?
    ensures var after := s.venue.(tickets := CheckIn(s.venue.tickets, scan.ticketId));
            Run(c, s, TwiceAtOnce(scan, e)) == Both(Logged(after, LogOf(scan, Some(e), RejectedConflict)), scan, e,
              Finished, Finished)
    ensures LegalRun(c, s, TwiceAtOnce(scan, e))
  {
    var moves := TwiceAtOnce(scan, e);
    var v := s.venue;
    var after := v.(tickets := CheckIn(v.tickets, scan.ticketId));
    TwiceIsLegal(c, s, scan, e);
    assert moves[0..] == moves && moves[10..] == [];
    TwoMoves(c, s, moves, 0);
    BothRead(c, v, scan, e);
    TwoMoves(c, Both(v, scan, e, Start, Start), moves, 2);
    TwoMoves(c, Both(v, scan, e, ToFetch, ToFetch), moves, 4);
    OneUpdates(c, v, scan, e);
    TwoMoves(c, Both(v, scan, e, ToUpdate, ToUpdate), moves, 6);
    LoserLogs(c, after, scan, e);
    TwoMoves(c, Both(after, scan, e, ToLog(Success), ToLog(RejectedConflict)), moves, 8);
  }
}
