/**
  Gates, tickets and the check-in log, and the effect on them of a scan and of a batch of offline
  scans.  SHA-256 and HMAC are parameters: nothing is assumed about them.
 */
module Venue {
  import opened Wrappers

  datatype Secrets = Secrets(hash: string -> string, sign: string -> string)

  datatype TicketStatus = Issued | CheckedIn | Cancelled | Refunded
  datatype Ticket = Ticket(concert: string, gate: Option<string>, rawToken: string, tokenHash: string,
                           signature: Option<string>, status: TicketStatus)
  datatype Gate = Gate(concert: string, name: string)
  datatype CheckinStatus = Success | AlreadyCheckedIn | InvalidTicket | GateMismatch | RejectedConflict
  datatype LogRow = LogRow(ticketId: string, device: string, gate: Option<string>, eventId: Option<string>,
                           status: CheckinStatus, conflict: bool)
  datatype Venue = Venue(gates: map<string, Gate>, tickets: map<string, Ticket>, logs: seq<LogRow>)

  /** One scan as the device sends it; offline scans carry the id of their event. */
  datatype Scan = Scan(ticketId: string, token: string, device: string, gate: Option<string>)
  datatype Record = Record(scan: Scan, eventId: string)

  // ------------------------------------------------------------------ signatures

  /** JavaScript's truth of a nullable string. */
  predicate Filled(s: Option<string>) {
    s.Some? && s.value != ""
  }

  function OrEmpty(s: Option<string>): string {
    if s.Some? then s.value else ""
  }

  function Signature(c: Secrets, id: string, tokenHash: string, gate: string): string {
    c.sign(id + ":" + tokenHash + ":" + gate)
  }

  predicate SignedTicket(c: Secrets, id: string, t: Ticket) {
    t.signature == Some(Signature(c, id, t.tokenHash, OrEmpty(t.gate))) && t.tokenHash == c.hash(t.rawToken)
  }

  ghost predicate Signed(c: Secrets, tickets: map<string, Ticket>) {
    forall id :: id in tickets ==> SignedTicket(c, id, tickets[id])
  }

  // ------------------------------------------------------------------ judging a scan

  datatype Judgement = Unknown | WrongGate | BadSignature | BadToken | Passes

  function Judge(c: Secrets, tickets: map<string, Ticket>, scan: Scan): Judgement {
    if scan.ticketId !in tickets then Unknown
    else
      var t := tickets[scan.ticketId];
      if Filled(scan.gate) && Filled(t.gate) && scan.gate != t.gate then WrongGate
      else if Filled(t.signature) && t.signature.value != Signature(c, scan.ticketId, t.tokenHash,
                OrEmpty(t.gate)) then BadSignature
      else if t.tokenHash != c.hash(scan.token) then BadToken
      else Passes
  }

  /** What is logged for a scan that is turned away. */
  function RefusalStatus(j: Judgement): CheckinStatus {
    if j.WrongGate? then GateMismatch else InvalidTicket
  }

  /** The conditional update: an ISSUED ticket becomes CHECKED_IN, any other stays as it is. */
  function CheckIn(tickets: map<string, Ticket>, id: string): map<string, Ticket> {
    if id in tickets && tickets[id].status.Issued? then tickets[id := tickets[id].(status := CheckedIn)] else tickets
  }

  // ------------------------------------------------------------------ the log

  predicate KeyOf(row: LogRow, device: string, eventId: string) {
    row.device == device && row.eventId == Some(eventId)
  }

  function FindLog(logs: seq<LogRow>, device: string, eventId: string): Option<LogRow> {
    if logs == [] then None
    else if KeyOf(logs[0], device, eventId) then Some(logs[0])
    else FindLog(logs[1..], device, eventId)
  }

  function LogOf(scan: Scan, eventId: Option<string>, status: CheckinStatus): LogRow {
    LogRow(scan.ticketId, scan.device, scan.gate, eventId, status, status.RejectedConflict?)
  }

  /** The two constraints on the log: its ticket exists, and (deviceId, offlineEventId) is new. */
  predicate CanLog(v: Venue, row: LogRow) {
    row.ticketId in v.tickets && (row.eventId.Some? ==> FindLog(v.logs, row.device, row.eventId.value).None?)
  }

  function Logged(v: Venue, row: LogRow): Venue {
    v.(logs := v.logs + [row])
  }

  // ------------------------------------------------------------------ verifyAndCheckin

  datatype VerifyOutcome = Admitted | Refused(status: CheckinStatus) | LogRejected

  /** An online scan.  For an unknown ticket the log row itself is refused, and that error is what surfaces. */
  function Verify(c: Secrets, v: Venue, scan: Scan): (Venue, VerifyOutcome) {
    match Judge(c, v.tickets, scan)
    case Unknown => (v, LogRejected)
    case Passes =>
      if v.tickets[scan.ticketId].status.Issued? then
        (Logged(v.(tickets := CheckIn(v.tickets, scan.ticketId)), LogOf(scan, None, Success)), Admitted)
      else (Logged(v, LogOf(scan, None, AlreadyCheckedIn)), Refused(AlreadyCheckedIn))
    case j => (Logged(v, LogOf(scan, None, RefusalStatus(j))), Refused(RefusalStatus(j)))
  }

  // ------------------------------------------------------------------ syncCheckin

  datatype SyncResult = SyncResult(ticketId: string, eventId: string, success: bool, status: CheckinStatus,
    conflict: bool)
  datatype SyncResponse = SyncResponse(total: nat, success: nat, failed: nat, conflicts: nat, results: seq<SyncResult>)

  /** What a new record is logged as. */
  function FreshStatus(c: Secrets, tickets: map<string, Ticket>, scan: Scan): CheckinStatus {
    var j := Judge(c, tickets, scan);
    if !j.Passes? then RefusalStatus(j)
    else if tickets[scan.ticketId].status.Issued? then Success
    else RejectedConflict
  }

  /** One offline record.  None is an error that ends the whole request. */
  function SyncRecord(c: Secrets, v: Venue, r: Record): (Venue, Option<SyncResult>) {
    var found := FindLog(v.logs, r.scan.device, r.eventId);
    if found.Some? then
      (v, Some(SyncResult(r.scan.ticketId, r.eventId, true, found.value.status, found.value.conflict)))
    else if r.scan.ticketId !in v.tickets then (v, None)
    else
      var status := FreshStatus(c, v.tickets, r.scan);
      var tickets := if Judge(c, v.tickets, r.scan).Passes? then CheckIn(v.tickets, r.scan.ticketId) else v.tickets;
      (Logged(v.(tickets := tickets), LogOf(r.scan, Some(r.eventId), status)),
       Some(SyncResult(r.scan.ticketId, r.eventId, status.Success?, status, status.RejectedConflict?)))
  }

  /** A batch, record by record: an error keeps what the records before it did and returns no results. */
  function SyncAll(c: Secrets, v: Venue, records: seq<Record>): (Venue, Option<seq<SyncResult>>)
    decreases |records|
  {
    if records == [] then (v, Some([]))
    else
      var first := SyncRecord(c, v, records[0]);
      if first.1.None? then (first.0, None)
      else
        var rest := SyncAll(c, first.0, records[1..]);
        (rest.0, if rest.1.None? then None else Some([first.1.value] + rest.1.value))
  }

  predicate CountsAsSuccess(r: SyncResult) {
    r.success && !r.conflict
  }

  predicate CountsAsFailed(r: SyncResult) {
    !r.success && !r.conflict
  }

  predicate CountsAsConflict(r: SyncResult) {
    r.conflict
  }
}
