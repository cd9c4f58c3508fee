/** Whole runs of a venue: issuing, gate administration and check-in in any order. */
module VenueRuns {
  import opened Wrappers
  import opened Venue
  import opened Sync
  import opened Gates
  import opened GateMoves

  datatype Step =
    | WorkerIssues(concert: string, listings: seq<seq<string>>, plans: seq<Plan>)
    | WebhookIssues(concert: string, names: seq<string>, plans: seq<Plan>)
    | Creates(gid: string, concert: string, name: string)
    | Renames(gid: string, newName: Option<string>)
    | Removes(gid: string, others: seq<string>)
    | Rebalances(concert: string, order: seq<string>, names: seq<string>)
    | Scans(scan: Scan)
    | Syncs(records: seq<Record>)

  function Apply(c: Secrets, v: Venue, step: Step): Venue {
    match step
    case WorkerIssues(concert, listings, plans) =>
      if |listings| == |plans| then v.(tickets := IssueEach(c, v.tickets, concert, listings, plans)) else v
    case WebhookIssues(concert, names, plans) => v.(tickets := IssueOrder(c, v.tickets, concert, names, plans))
    case Creates(gid, concert, name) => CreateGate(v, gid, concert, name).0
    case Renames(gid, name) => RenameGate(c, v, gid, name).0
    case Removes(gid, others) => RemoveGate(c, v, gid, others).0
    case Rebalances(_, order, names) => if names == [] then v else v.(tickets := Rebalance(c, v.tickets, order, names))
    case Scans(scan) => Verify(c, v, scan).0
    case Syncs(records) => SyncAll(c, v, records).0
  }

  function After(c: Secrets, v: Venue, steps: seq<Step>): Venue
    decreases |steps|
  {
    if steps == [] then v else After(c, Apply(c, v, steps[0]), steps[1..])
  }

  lemma {:induction false} SyncKeepsSigned(c: Secrets, v: Venue, records: seq<Record>)
    requires Signed(c, v.tickets)
    ensures Signed(c, SyncAll(c, v, records).0.tickets)
    decreases |records|
  {
    if records != [] {
      var v1 := SyncRecord(c, v, records[0]).0;
      assert forall id :: id in v1.tickets ==> SignedTicket(c, id, v.tickets[id]);
      SyncKeepsSigned(c, v1, records[1..]);
    }
  }

  lemma MoveSigns(c: Secrets, tickets: map<string, Ticket>, from: string, to: string)
    requires Signed(c, tickets)
    ensures Signed(c, MoveGate(c, tickets, from, to))
  {
    var after := MoveGate(c, tickets, from, to);
    forall id | id in after
      ensures SignedTicket(c, id, after[id])
    {
      assert SignedTicket(c, id, tickets[id]);
    }
  }

  lemma StepSigns(c: Secrets, v: Venue, step: Step)
    requires Signed(c, v.tickets)
    ensures Signed(c, Apply(c, v, step).tickets)
  {
    match step
    case WorkerIssues(concert, listings, plans) =>
      if |listings| == |plans| { IssueEachSigns(c, v.tickets, concert, listings, plans); }
    case WebhookIssues(concert, names, plans) => IssueAtSigns(c, v.tickets, concert,
                LeastLoaded(v.tickets, concert, names), plans);
    case Creates(_, _, _) =>
    case Renames(gid, name) => if gid in v.gates &&
                name.Some? { MoveSigns(c, v.tickets, v.gates[gid].name, name.value); }
    case Removes(gid, others) => if gid in v.gates &&
                others != [] { MoveSigns(c, v.tickets, v.gates[gid].name, others[0]); }
    case Rebalances(_, order, names) => if names != [] { AssignSigns(c, v.tickets, order, RoundRobin(names, |order|),
                |order|); }
    case Scans(scan) => assert forall id :: id in v.tickets ==> SignedTicket(c, id, v.tickets[id]);
    case Syncs(records) => SyncKeepsSigned(c, v, records);
  }

  lemma {:induction false} RunSigns(c: Secrets, v: Venue, steps: seq<Step>)
    requires Signed(c, v.tickets)
    ensures Signed(c, After(c, v, steps).tickets)
    decreases |steps|
  {
    if steps != [] {
      StepSigns(c, v, steps[0]);
      RunSigns(c, Apply(c, v, steps[0]), steps[1..]);
    }
  }

  /** No run ever gives two gates of a concert one name. */
  lemma {:induction false} NamesStayUnique(c: Secrets, v: Venue, steps: seq<Step>)
    requires UniqueNames(v.gates)
    ensures UniqueNames(After(c, v, steps).gates)
    decreases |steps|
  {
    if steps != [] {
      if steps[0].Syncs? {
        SyncKeepsGates(c, v, steps[0].records);
      }
      NamesStayUnique(c, Apply(c, v, steps[0]), steps[1..]);
    }
  }

  lemma {:induction false} SyncKeepsGates(c: Secrets, v: Venue, records: seq<Record>)
    ensures SyncAll(c, v, records).0.gates == v.gates
    decreases |records|
  {
    if records != [] {
      SyncKeepsGates(c, SyncRecord(c, v, records[0]).0, records[1..]);
    }
  }

  /** The device is set to no gate, or to the ticket's, or the ticket has none. */
  predicate GateFits(t: Ticket, gate: Option<string>) {
    Filled(gate) && Filled(t.gate) ==> gate == t.gate
  }

  /** In every reachable state a known ticket passes exactly when its token hashes right and the gate fits. */
  lemma PassesIff(c: Secrets, v: Venue, steps: seq<Step>, scan: Scan)
    requires Signed(c, v.tickets) && scan.ticketId in After(c, v, steps).tickets
    ensures var tickets := After(c, v, steps).tickets;
            var t := tickets[scan.ticketId];
            Judge(c, tickets, scan).Passes? <==> c.hash(scan.token) == c.hash(t.rawToken) && GateFits(t, scan.gate)
  {
    RunSigns(c, v, steps);
    var tickets := After(c, v, steps).tickets;
    assert SignedTicket(c, scan.ticketId, tickets[scan.ticketId]);
  }

  // ------------------------------------------------------------------ what a scan is answered and logged as

  /** The stored signature, if there is one, or the stored hash does not fit. */
  predicate Forged(c: Secrets, id: string, t: Ticket, token: string) {
    || (t.signature.Some? && t.signature.value !in ["", c.sign(id + ":" + t.tokenHash + ":" + OrEmpty(t.gate))])
    || c.hash(token) != t.tokenHash
  }

  /** An online scan of an existing ticket: the gate decides first, then signature and token, then the status. */
  lemma ScanAnswers(c: Secrets, v: Venue, scan: Scan)
    requires scan.ticketId in v.tickets
    ensures var t := v.tickets[scan.ticketId];
            var (v', out) := Verify(c, v, scan);
            && (out == Refused(GateMismatch) <==> !GateFits(t, scan.gate))
            && (out == Refused(InvalidTicket) <==> GateFits(t, scan.gate) && Forged(c, scan.ticketId, t, scan.token))
            && (out == Admitted <==>
                  GateFits(t, scan.gate) && !Forged(c, scan.ticketId, t, scan.token) && t.status == Issued)
            && (out == Refused(AlreadyCheckedIn) <==>
                  GateFits(t, scan.gate) && !Forged(c, scan.ticketId, t, scan.token) && t.status != Issued)
            && v'.tickets == (if out == Admitted then v.tickets[scan.ticketId := t.(status := CheckedIn)]
                              else v.tickets)
            && v'.gates == v.gates
            && v'.logs == v.logs + [LogRow(scan.ticketId, scan.device, scan.gate, None,
                                           if out.Refused? then out.status else Success, false)]
  {
  }

  /** A record whose event is new gets the same verdicts, but a ticket that is not ISSUED any more is a conflict. */
  lemma RecordAnswers(c: Secrets, v: Venue, r: Record)
    requires r.scan.ticketId in v.tickets
    requires forall row :: row in v.logs ==> row.device != r.scan.device || row.eventId != Some(r.eventId)
    ensures var t := v.tickets[r.scan.ticketId];
            var (v', out) := SyncRecord(c, v, r);
            && out.Some?
            && (out.value.status == GateMismatch <==> !GateFits(t, r.scan.gate))
            && (out.value.status == InvalidTicket <==>
                  GateFits(t, r.scan.gate) && Forged(c, r.scan.ticketId, t, r.scan.token))
            && (out.value.status == Success <==>
                  GateFits(t, r.scan.gate) && !Forged(c, r.scan.ticketId, t, r.scan.token) && t.status == Issued)
            && (out.value.status == RejectedConflict <==>
                  GateFits(t, r.scan.gate) && !Forged(c, r.scan.ticketId, t, r.scan.token) && t.status != Issued)
            && out.value.success == (out.value.status == Success)
            && out.value.conflict == (out.value.status == RejectedConflict)
            && v'.tickets == (if out.value.success then v.tickets[r.scan.ticketId := t.(status := CheckedIn)]
                              else v.tickets)
            && v'.gates == v.gates
            && v'.logs == v.logs + [LogRow(r.scan.ticketId, r.scan.device, r.scan.gate, Some(r.eventId),
                                           out.value.status, out.value.conflict)]
  {
    NewEventIsUnlogged(v.logs, r.scan.device, r.eventId);
  }

  lemma {:induction false} NewEventIsUnlogged(logs: seq<LogRow>, device: string, eventId: string)
    requires forall row :: row in logs ==> row.device != device || row.eventId != Some(eventId)
    ensures FindLog(logs, device, eventId).None?
  {
    if logs != [] {
      NewEventIsUnlogged(logs[1..], device, eventId);
    }
  }

  // ------------------------------------------------------------------ who counts at a gate

  /** Checking in moves no load: tickets that are in still count at their gate. */
  lemma CheckinKeepsLoads(c: Secrets, v: Venue, step: Step, concert: string, name: string)
    requires step.Scans? || step.Syncs?
    ensures Load(Apply(c, v, step).tickets, concert, name) == Load(v.tickets, concert, name)
  {
    if step.Syncs? {
      SyncKeepsWhoCounts(c, v, step.records, concert, name);
    } else {
      assert AtGate(Apply(c, v, step).tickets, concert, name) == AtGate(v.tickets, concert, name);
    }
  }

  lemma {:induction false} SyncKeepsWhoCounts(c: Secrets, v: Venue, records: seq<Record>, concert: string, name: string)
    ensures AtGate(SyncAll(c, v, records).0.tickets, concert, name) == AtGate(v.tickets, concert, name)
    decreases |records|
  {
    if records != [] {
      var v1 := SyncRecord(c, v, records[0]).0;
      assert AtGate(v1.tickets, concert, name) == AtGate(v.tickets, concert, name);
      SyncKeepsWhoCounts(c, v1, records[1..], concert, name);
    }
  }

  /** A ticket that is cancelled or refunded leaves its gate's load. */
  lemma EndedTicketsLeave(tickets: map<string, Ticket>, id: string, status: TicketStatus)
    requires id in tickets && Filled(tickets[id].gate) && tickets[id].status in {Issued, CheckedIn}
    requires status in {TicketStatus.Cancelled, TicketStatus.Refunded}
    ensures var t := tickets[id];
            Load(tickets[id := t.(status := status)], t.concert, t.gate.value) + 1 ==
              Load(tickets, t.concert, t.gate.value)
  {
    var t := tickets[id];
    var after := AtGate(tickets[id := t.(status := status)], t.concert, t.gate.value);
    assert AtGate(tickets, t.concert, t.gate.value) == after + {id};
  }

  // ------------------------------------------------------------------ the ticket's own code

  /**
    After any run, an ISSUED ticket shown with its own token at its current gate is let in the first
    time and refused as already checked in the second time; each scan leaves one row in the log.
   */
  lemma OwnTicketGetsInOnce(c: Secrets, v: Venue, steps: seq<Step>, id: string, device: string)
    requires Signed(c, v.tickets)
    requires var s := After(c, v, steps); id in s.tickets && s.tickets[id].status.Issued?
    ensures var s := After(c, v, steps);
            var scan := Scan(id, s.tickets[id].rawToken, device, s.tickets[id].gate);
            var (s1, first) := Verify(c, s, scan);
            var (s2, second) := Verify(c, s1, scan);
            && first == Admitted && second == Refused(AlreadyCheckedIn)
            && s1.tickets == s.tickets[id := s.tickets[id].(status := CheckedIn)] && s2.tickets == s1.tickets
            && s2.logs == s.logs + [LogOf(scan, None, Success), LogOf(scan, None, AlreadyCheckedIn)]
  {
    RunSigns(c, v, steps);
    var s := After(c, v, steps);
    var scan := Scan(id, s.tickets[id].rawToken, device, s.tickets[id].gate);
    PassesIff(c, v, steps, scan);
    var s1 := Verify(c, s, scan).0;
    assert SameButStatus(s.tickets, s1.tickets);
    JudgeIgnoresStatus(c, s.tickets, s1.tickets, scan);
  }
}
