/** The check-in service, statement by statement, over the tables it writes. */
module CheckinService {
  import opened Wrappers
  import opened Sums
  import opened Venue

  /** The rows of gates, tickets and check-in logs; the constraints of the log hold between statements. */
  class VenueTables {
    var gates: map<string, Gate>
    var tickets: map<string, Ticket>
    var logs: seq<LogRow>

    function View(): Venue
      reads this
    {
      Venue(gates, tickets, logs)
    }

    /** `checkinLog.create`: refused when it breaks a constraint. */
    method InsertLog(row: LogRow) returns (ok: bool)
      modifies this`logs
      ensures ok == CanLog(old(View()), row)
      ensures View() == if ok then Logged(old(View()), row) else old(View())
    {
      var existing := None;
      if row.eventId.Some? {
        existing := FindUnique(row.device, row.eventId.value);
      }
      ok := row.ticketId in tickets && existing.None?;
      if ok {
        logs := logs + [row];
      }
    }

    /** `checkinLog.findUnique` by device and event. */
    method FindUnique(device: string, eventId: string) returns (found: Option<LogRow>)
      ensures found == FindLog(logs, device, eventId)
      ensures found.Some? ==> found.value in logs && KeyOf(found.value, device, eventId)
      ensures found.None? ==> forall row :: row in logs ==> !KeyOf(row, device, eventId)
    {
      for i := 0 to |logs|
        invariant forall j :: 0 <= j < i ==> !KeyOf(logs[j], device, eventId)
        invariant FindLog(logs[i..], device, eventId) == FindLog(logs, device, eventId)
      {
        assert logs[i..][1..] == logs[i + 1..];
        if KeyOf(logs[i], device, eventId) {
          return Some(logs[i]);
        }
      }
      return None;
    }

    /** `ticket.updateMany` where id and status ISSUED. */
    method UpdateIssued(id: string) returns (count: nat)
      modifies this`tickets
      ensures tickets == CheckIn(old(tickets), id)
      ensures count == if id in old(tickets) && old(tickets)[id].status.Issued? then 1 else 0
    {
      if id in tickets && tickets[id].status.Issued? {
        tickets := tickets[id := tickets[id].(status := CheckedIn)];
        return 1;
      }
      return 0;
    }
  }

  class CheckinService {
    const db: VenueTables
    const secrets: Secrets

    constructor (db: VenueTables, secrets: Secrets)
      ensures this.db == db && this.secrets == secrets
    {
      this.db, this.secrets := db, secrets;
    }

    method VerifyAndCheckin(scan: Scan) returns (out: VerifyOutcome)
      modifies db
      ensures (db.View(), out) == Verify(secrets, old(db.View()), scan)
    {
      var tokenHash := secrets.hash(scan.token);
      if scan.ticketId !in db.tickets {
        var ok := db.InsertLog(LogOf(scan, None, InvalidTicket));
        return if ok then Refused(InvalidTicket) else LogRejected;
      }
      var ticket := db.tickets[scan.ticketId];
      if Filled(scan.gate) && Filled(ticket.gate) && scan.gate != ticket.gate {
        var _ := db.InsertLog(LogOf(scan, None, GateMismatch));
        return Refused(GateMismatch);
      }
      if Filled(ticket.signature) {
        var expected := Signature(secrets, scan.ticketId, ticket.tokenHash, OrEmpty(ticket.gate));
        if expected != ticket.signature.value {
          var _ := db.InsertLog(LogOf(scan, None, InvalidTicket));
          return Refused(InvalidTicket);
        }
      }
      if ticket.tokenHash != tokenHash {
        var _ := db.InsertLog(LogOf(scan, None, InvalidTicket));
        return Refused(InvalidTicket);
      }
      var count := db.UpdateIssued(scan.ticketId);
      if count == 0 {
        var _ := db.InsertLog(LogOf(scan, None, AlreadyCheckedIn));
        return Refused(AlreadyCheckedIn);
      }
      var _ := db.InsertLog(LogOf(scan, None, Success));
      return Admitted;
    }

    method ProcessSyncRecord(r: Record) returns (res: Option<SyncResult>)
      modifies db
      ensures (db.View(), res) == SyncRecord(secrets, old(db.View()), r)
    {
      var scan := r.scan;
      var tokenHash := secrets.hash(scan.token);
      var existing := db.FindUnique(scan.device, r.eventId);
      if existing.Some? {
        return Some(SyncResult(scan.ticketId, r.eventId, true, existing.value.status, existing.value.conflict));
      }
      if scan.ticketId !in db.tickets {
        res := Reject(r, InvalidTicket);
        return;
      }
      var ticket := db.tickets[scan.ticketId];
      if Filled(scan.gate) && Filled(ticket.gate) && scan.gate != ticket.gate {
        res := Reject(r, GateMismatch);
        return;
      }
      if Filled(ticket.signature) {
        var expected := Signature(secrets, scan.ticketId, ticket.tokenHash, OrEmpty(ticket.gate));
        if expected != ticket.signature.value {
          res := Reject(r, InvalidTicket);
          return;
        }
      }
      if ticket.tokenHash != tokenHash {
        res := Reject(r, InvalidTicket);
        return;
      }
      var count := db.UpdateIssued(scan.ticketId);
      if count == 0 {
        res := Reject(r, RejectedConflict);
        return;
      }
      var _ := db.InsertLog(LogOf(scan, Some(r.eventId), Success));
      return Some(SyncResult(scan.ticketId, r.eventId, true, Success, false));
    }

    /** Logs a record that is turned away and answers it; a refused log row is an error. */
    method Reject(r: Record, status: CheckinStatus) returns (res: Option<SyncResult>)
      requires !status.Success?
      modifies db`logs
      ensures var row := LogOf(r.scan, Some(r.eventId), status);
              && db.View() == (if CanLog(old(db.View()), row) then Logged(old(db.View()), row) else old(db.View()))
              && res == if CanLog(old(db.View()), row)
                        then Some(SyncResult(r.scan.ticketId, r.eventId, false, status, status.RejectedConflict?))
                          else None
    {
      var ok := db.InsertLog(LogOf(r.scan, Some(r.eventId), status));
      return if ok then Some(SyncResult(r.scan.ticketId, r.eventId, false, status, status.RejectedConflict?)) else None;
    }

    method SyncCheckin(records: seq<Record>) returns (out: Option<SyncResponse>)
      modifies db
      ensures db.View() == SyncAll(secrets, old(db.View()), records).0
      ensures out.None? <==> SyncAll(secrets, old(db.View()), records).1.None?
      ensures out.Some? ==> SyncAll(secrets, old(db.View()), records).1 == Some(out.value.results)
      ensures out.Some? ==>
                var res := out.value;
                && res.total == |records| == |res.results| == res.success + res.failed + res.conflicts
                && res.success == CountIf(res.results, CountsAsSuccess)
                && res.failed == CountIf(res.results, CountsAsFailed)
                && res.conflicts == CountIf(res.results, CountsAsConflict)
    {
      var results, success, failed, conflicts := [], 0, 0, 0;
      assert records[0..] == records;
      PrependNothing(SyncAll(secrets, db.View(), records).1);
      for i := 0 to |records|
        invariant |results| == i == success + failed + conflicts
        invariant success == CountIf(results, CountsAsSuccess)
        invariant failed == CountIf(results, CountsAsFailed)
        invariant conflicts == CountIf(results, CountsAsConflict)
        invariant SyncAll(secrets, db.View(), records[i..]).0 == SyncAll(secrets, old(db.View()), records).0
        invariant SyncAll(secrets, old(db.View()), records).1 ==
                  Prepend(results, SyncAll(secrets, db.View(), records[i..]).1)
      {
        assert records[i..][1..] == records[i + 1..];
        ghost var rest := SyncAll(secrets, db.View(), records[i..]).1;
        var res := ProcessSyncRecord(records[i]);
        if res.None? {
          return None;
        }
        ghost var rest' := SyncAll(secrets, db.View(), records[i + 1..]).1;
        assert rest == Prepend([res.value], rest');
        PrependStep(results, res.value, rest');
        results := results + [res.value];
        if res.value.success && !res.value.conflict { success := success + 1; }
        else if res.value.conflict { conflicts := conflicts + 1; }
        else { failed := failed + 1; }
      }
      assert results + [] == results && records[|records|..] == [];
      return Some(SyncResponse(|records|, success, failed, conflicts, results));
    }
  }

  function Prepend(done: seq<SyncResult>, rest: Option<seq<SyncResult>>): Option<seq<SyncResult>> {
    if rest.None? then None else Some(done + rest.value)
  }

  lemma PrependNothing(rest: Option<seq<SyncResult>>)
    ensures Prepend([], rest) == rest
  {
    if rest.Some? {
      assert [] + rest.value == rest.value;
    }
  }

  lemma PrependStep(done: seq<SyncResult>, next: SyncResult, rest: Option<seq<SyncResult>>)
    ensures Prepend(done, Prepend([next], rest)) == Prepend(done + [next], rest)
    ensures CountIf(done + [next], CountsAsSuccess) ==
              CountIf(done, CountsAsSuccess) + (if CountsAsSuccess(next) then 1 else 0)
    ensures CountIf(done + [next], CountsAsFailed) ==
              CountIf(done, CountsAsFailed) + (if CountsAsFailed(next) then 1 else 0)
    ensures CountIf(done + [next], CountsAsConflict) ==
              CountIf(done, CountsAsConflict) + (if CountsAsConflict(next) then 1 else 0)
  {
    if rest.Some? {
      assert done + ([next] + rest.value) == done + [next] + rest.value;
    }
    assert [next][1..] == [];
    CountAppend(done, [next], CountsAsSuccess);
    CountAppend(done, [next], CountsAsFailed);
    CountAppend(done, [next], CountsAsConflict);
  }
}
