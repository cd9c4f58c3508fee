/**
  The check-in device: its queue of offline scans, its guard against scanning a ticket twice, and what
  a sync round does to both.  A round can be lost on the way there or on the way back.
 */
module OfflineQueue {
  import opened Wrappers
  import opened Venue
  import opened Sync
  import opened QrPayload

  datatype Queued = Queued(record: Record, synced: bool)
  /** `queue` is keyed by event, `scanned` maps a ticket to the event that queued it. */
  datatype Device = Device(id: string, queue: map<string, Queued>, scanned: map<string, string>)
  datatype Network = Offline | RequestLost | ResponseLost | Delivered
  datatype ScanResult = BadFormat | Online(outcome: VerifyOutcome) | AlreadyScanned | QueuedOffline

  // ------------------------------------------------------------------ scanning

  /** The offline path of handleScan. */
  function ScanOffline(d: Device, p: Payload, gate: string, eventId: string): (Device, ScanResult) {
    if p.ticketId in d.scanned then (d, AlreadyScanned)
    else
      (d.(queue := d.queue[eventId := Queued(Record(Scan(p.ticketId, p.token, d.id, Some(gate)), eventId), false)],
          scanned := d.scanned[p.ticketId := eventId]), QueuedOffline)
  }

  /** What an online scan sends: an empty gate setting is left out. */
  function OnlineScan(d: Device, p: Payload, gate: string): Scan {
    Scan(p.ticketId, p.token, d.id, if gate == "" then None else Some(gate))
  }

  /** A lost answer falls through to the offline path, whether or not the server handled the scan. */
  function HandleScan(c: Secrets, d: Device, v: Venue, raw: string, gate: string, net: Network,
                      eventId: string): (Device, Venue, ScanResult) {
    match ParseScanned(raw)
    case None => (d, v, BadFormat)
    case Some(p) =>
      var (d', offline) := ScanOffline(d, p, gate, eventId);
      var (v', outcome) := Verify(c, v, OnlineScan(d, p, gate));
      match net
      case Delivered => (d, v', Online(outcome))
      case ResponseLost => (d', v', offline)
      case _ => (d', v, offline)
  }

  // ------------------------------------------------------------------ syncing

  /** The unsynced records, once each, in some order. */
  predicate Lists(queue: map<string, Queued>, unsynced: seq<Record>) {
    && (forall i :: 0 <= i < |unsynced| ==>
          unsynced[i].eventId in queue && queue[unsynced[i].eventId] == Queued(unsynced[i], false))
    && (forall i, j :: 0 <= i < j < |unsynced| ==> unsynced[i].eventId != unsynced[j].eventId)
    && (forall e :: e in queue && !queue[e].synced ==> queue[e].record in unsynced)
  }

  /** Every record carries its own key and this device. */
  predicate WellKeyed(d: Device) {
    forall e :: e in d.queue ==> d.queue[e].record.eventId == e && d.queue[e].record.scan.device == d.id
  }

  function Acknowledged(results: seq<SyncResult>): set<string> {
    set res | res in results && (res.success || res.status.AlreadyCheckedIn?) :: res.eventId
  }

  function MarkSynced(queue: map<string, Queued>, events: set<string>): map<string, Queued> {
    map e | e in queue :: if e in events then queue[e].(synced := true) else queue[e]
  }

  /** Tickets whose record has just been rejected because someone else is in. */
  function Rejected(unsynced: seq<Record>, results: seq<SyncResult>): set<string> {
    set r, res | r in unsynced && res in results && res.conflict && !res.success && res.eventId ==
      r.eventId :: r.scan.ticketId
  }

  function Absorb(d: Device, unsynced: seq<Record>, results: seq<SyncResult>): Device {
    d.(queue := MarkSynced(d.queue, Acknowledged(results)), scanned := d.scanned - Rejected(unsynced, results))
  }

  /** triggerSync: one request with everything unsynced. */
  function SyncRound(c: Secrets, d: Device, v: Venue, unsynced: seq<Record>, net: Network): (Device, Venue) {
    if unsynced == [] || net.Offline? || net.RequestLost? then (d, v)
    else
      var (v', results) := SyncAll(c, v, unsynced);
      if net.ResponseLost? || results.None? then (d, v')
      else (Absorb(d, unsynced, results.value), v')
  }

  // ------------------------------------------------------------------ convergence

  /** Nothing leaves the queue or becomes unsynced; new scans may join. */
  predicate Ahead(d: Device, d': Device) {
    forall e :: e in d.queue ==>
        e in d'.queue && d'.queue[e].record == d.queue[e].record && (d.queue[e].synced ==> d'.queue[e].synced)
  }

  predicate AllAnswerable(v: Venue, records: seq<Record>) {
    forall r :: r in records ==> IsLogged(v, r) || r.scan.ticketId in v.tickets
  }

  /** On a device, no record of a batch repeats another, so a request is answered exactly when each record can be. */
  lemma DeviceBatchAnswered(c: Secrets, d: Device, v: Venue, unsynced: seq<Record>)
    requires WellKeyed(d) && Lists(d.queue, unsynced)
    ensures SyncAll(c, v, unsynced).1.Some? <==> AllAnswerable(v, unsynced)
  {
    AnsweredIff(c, v, unsynced);
    if AllAnswerable(v, unsynced) {
      forall i | 0 <= i < |unsynced|
        ensures Answerable(v, unsynced, i)
      {
        assert unsynced[i] in unsynced;
      }
    } else {
      var r :| r in unsynced && !(IsLogged(v, r) || r.scan.ticketId in v.tickets);
      var i :| 0 <= i < |unsynced| && unsynced[i] == r;
      assert !Answerable(v, unsynced, i);
    }
  }

  lemma {:induction false} AllAreLogged(c: Secrets, v: Venue, records: seq<Record>)
    requires SyncAll(c, v, records).1.Some?
    ensures forall r :: r in records ==> IsLogged(SyncAll(c, v, records).0, r)
    decreases |records|
  {
    if records != [] {
      var v1 := SyncRecord(c, v, records[0]).0;
      AnsweredIsLogged(c, v, records[0]);
      SyncAllIsLater(c, v1, records[1..]);
      FoundLater(v1, SyncAll(c, v, records).0, records[0]);
      AllAreLogged(c, v1, records[1..]);
    }
  }

  lemma {:induction false} AnswersInOrder(c: Secrets, v: Venue, records: seq<Record>)
    requires SyncAll(c, v, records).1.Some?
    ensures var results := SyncAll(c, v, records).1.value;
            && |results| == |records|
            && forall i :: 0 <= i < |records| ==>
                 && results[i].eventId == records[i].eventId && results[i].ticketId == records[i].scan.ticketId
                 && (IsLogged(v, records[i]) ==> results[i].success)
    decreases |records|
  {
    if records != [] {
      var v1 := SyncRecord(c, v, records[0]).0;
      AnsweredIsLogged(c, v, records[0]);
      AnswersInOrder(c, v1, records[1..]);
      forall i | 0 < i < |records| && IsLogged(v, records[i])
        ensures IsLogged(v1, records[i])
      {
        FoundLater(v, v1, records[i]);
      }
    }
  }

  /** An answered round marks every record that the log already had. */
  lemma LoggedGetsMarked(c: Secrets, d: Device, v: Venue, unsynced: seq<Record>, e: string)
    requires WellKeyed(d) && Lists(d.queue, unsynced) && AllAnswerable(v, unsynced)
    requires e in d.queue && (d.queue[e].synced || IsLogged(v, d.queue[e].record))
    ensures SyncRound(c, d, v, unsynced, Delivered).0.queue[e].synced
  {
    if !d.queue[e].synced {
      DeviceBatchAnswered(c, d, v, unsynced);
      AnswersInOrder(c, v, unsynced);
      var results := SyncAll(c, v, unsynced).1.value;
      var i :| 0 <= i < |unsynced| && unsynced[i] == d.queue[e].record;
      assert results[i] in results && results[i].eventId == e;
      assert e in Acknowledged(results);
    }
  }

  lemma RoundIsAhead(c: Secrets, d: Device, v: Venue, unsynced: seq<Record>, net: Network)
    ensures Ahead(d, SyncRound(c, d, v, unsynced, net).0) && Later(v, SyncRound(c, d, v, unsynced, net).1)
  {
    SyncAllIsLater(c, v, unsynced);
  }

  /**
    Two rounds reach the server and the second is answered: every record that was queued before the
    first is synced, whatever its status and even if the first answer was lost; in between the device
    may scan on and the server may do anything.
   */
  lemma TwoRoundsConverge(c: Secrets, d: Device, v: Venue, batch1: seq<Record>, net1: Network,
                          d2: Device, v2: Venue, batch2: seq<Record>)
    requires WellKeyed(d) && Lists(d.queue, batch1) && AllAnswerable(v, batch1)
    requires net1.ResponseLost? || net1.Delivered?
    requires var (d1, v1) := SyncRound(c, d, v, batch1, net1); Ahead(d1, d2) && Later(v1, v2)
    requires WellKeyed(d2) && Lists(d2.queue, batch2) && AllAnswerable(v2, batch2)
    ensures var d3 := SyncRound(c, d2, v2, batch2, Delivered).0;
            forall e :: e in d.queue ==> e in d3.queue && d3.queue[e] == Queued(d.queue[e].record, true)
  {
    var (d1, v1) := SyncRound(c, d, v, batch1, net1);
    DeviceBatchAnswered(c, d, v, batch1);
    AllAreLogged(c, v, batch1);
    RoundIsAhead(c, d, v, batch1, net1);
    RoundIsAhead(c, d2, v2, batch2, Delivered);
    forall e | e in d.queue
      ensures SyncRound(c, d2, v2, batch2, Delivered).0.queue[e].synced
    {
      if !d.queue[e].synced {
        FoundLater(v1, v2, d.queue[e].record);
      }
      LoggedGetsMarked(c, d2, v2, batch2, e);
    }
  }

  // ------------------------------------------------------------------ one unknown ticket blocks the queue

  lemma {:induction false} OnlyKnownGetLogged(c: Secrets, v: Venue, records: seq<Record>, q: Record)
    requires forall r :: r in records && SameKey(r, q) ==> r.scan.ticketId !in v.tickets
    ensures IsLogged(SyncAll(c, v, records).0, q) ==> IsLogged(v, q)
    ensures SyncAll(c, v, records).0.tickets.Keys == v.tickets.Keys
    decreases |records|
  {
    if records != [] && SyncRecord(c, v, records[0]).1.Some? {
      assert records[0] in records;
      LoggedAfter(c, v, records[0], q);
      var v1 := SyncRecord(c, v, records[0]).0;
      if !IsLogged(v, q) {
        OnlyKnownGetLogged(c, v1, records[1..], q);
      } else {
        OnlyKnownGetLoggedKeys(c, v1, records[1..]);
      }
    }
  }

  lemma {:induction false} OnlyKnownGetLoggedKeys(c: Secrets, v: Venue, records: seq<Record>)
    ensures SyncAll(c, v, records).0.tickets.Keys == v.tickets.Keys
    decreases |records|
  {
    if records != [] && SyncRecord(c, v, records[0]).1.Some? {
      OnlyKnownGetLoggedKeys(c, SyncRecord(c, v, records[0]).0, records[1..]);
    }
  }

  /** A record that can not be answered: its round changes nothing on the device and leaves it so on the server. */
  lemma UnknownTicketBlocks(c: Secrets, d: Device, v: Venue, unsynced: seq<Record>, net: Network)
    requires WellKeyed(d) && Lists(d.queue, unsynced) && !AllAnswerable(v, unsynced)
    ensures var (d', v') := SyncRound(c, d, v, unsynced, net);
            d' == d && !AllAnswerable(v', unsynced)
  {
    DeviceBatchAnswered(c, d, v, unsynced);
    var q :| q in unsynced && !IsLogged(v, q) && q.scan.ticketId !in v.tickets;
    forall r | r in unsynced && SameKey(r, q)
      ensures r == q
    {
    }
    OnlyKnownGetLogged(c, v, unsynced, q);
  }

  /** Any number of rounds, each answered or lost. */
  function Rounds(c: Secrets, d: Device, v: Venue, batches: seq<seq<Record>>, nets: seq<Network>): (Device, Venue)
    requires |batches| == |nets|
    decreases |nets|
  {
    if nets == [] then (d, v)
    else
      var (d1, v1) := SyncRound(c, d, v, batches[0], nets[0]);
      Rounds(c, d1, v1, batches[1..], nets[1..])
  }

  /** Each batch lists what is unsynced when it is sent. */
  predicate Listed(c: Secrets, d: Device, v: Venue, batches: seq<seq<Record>>, nets: seq<Network>)
    requires |batches| == |nets|
    decreases |nets|
  {
    nets == [] ||
    (Lists(d.queue, batches[0])
     && var (d1, v1) := SyncRound(c, d, v, batches[0], nets[0]); Listed(c, d1, v1, batches[1..], nets[1..]))
  }

  lemma AnswerableInAnyOrder(d: Device, v: Venue, a: seq<Record>, b: seq<Record>)
    requires WellKeyed(d) && Lists(d.queue, a) && Lists(d.queue, b)
    ensures AllAnswerable(v, a) <==> AllAnswerable(v, b)
  {
    assert forall r :: r in a ==> r in b;
    assert forall r :: r in b ==> r in a;
  }

  /** However often it is retried, a queue that holds a scan of an unknown ticket never marks anything. */
  lemma {:induction false} BlockedForever(c: Secrets, d: Device, v: Venue, unsynced: seq<Record>,
                                          batches: seq<seq<Record>>, nets: seq<Network>)
    requires WellKeyed(d) && Lists(d.queue, unsynced) && !AllAnswerable(v, unsynced)
    requires |batches| == |nets| && Listed(c, d, v, batches, nets)
    ensures Rounds(c, d, v, batches, nets).0 == d
    decreases |nets|
  {
    if nets != [] {
      AnswerableInAnyOrder(d, v, unsynced, batches[0]);
      UnknownTicketBlocks(c, d, v, batches[0], nets[0]);
      var (d1, v1) := SyncRound(c, d, v, batches[0], nets[0]);
      BlockedForever(c, d1, v1, batches[0], batches[1..], nets[1..]);
    }
  }

  /**
    The exact condition: two answered rounds empty the queue if and only if each of its tickets is known, or
    logged before.
   */
  lemma ConvergesIff(c: Secrets, d: Device, v: Venue, batch1: seq<Record>, net1: Network, batch2: seq<Record>)
    requires WellKeyed(d) && Lists(d.queue, batch1) && (net1.ResponseLost? || net1.Delivered?)
    requires var (d1, v1) := SyncRound(c, d, v, batch1, net1); Lists(d1.queue, batch2)
    ensures var (d1, v1) := SyncRound(c, d, v, batch1, net1);
            var d2 := SyncRound(c, d1, v1, batch2, Delivered).0;
            (forall e :: e in d2.queue ==> d2.queue[e].synced) <==> AllAnswerable(v, batch1)
  {
    var (d1, v1) := SyncRound(c, d, v, batch1, net1);
    RoundIsAhead(c, d, v, batch1, net1);
    if AllAnswerable(v, batch1) {
      forall r | r in batch2
        ensures r in batch1
      {
        assert d1.queue[r.eventId] == Queued(r, false);
        assert d.queue[r.eventId] == Queued(r, false);
      }
      DeviceBatchAnswered(c, d, v, batch1);
      AllAreLogged(c, v, batch1);
      assert AllAnswerable(v1, batch2);
      TwoRoundsConverge(c, d, v, batch1, net1, d1, v1, batch2);
    } else {
      UnknownTicketBlocks(c, d, v, batch1, net1);
      AnswerableInAnyOrder(d, v1, batch1, batch2);
      UnknownTicketBlocks(c, d, v1, batch2, Delivered);
      var r :| r in batch1 && !IsLogged(v, r) && r.scan.ticketId !in v.tickets;
      assert !d.queue[r.eventId].synced;
    }
  }

  // ------------------------------------------------------------------ the guard

  /**
    A rejected ticket leaves the guard only when the first answer arrives: after a lost answer the retry
    reports the rejection as a success, and the ticket stays barred on this device.
   */
  lemma LostAnswerKeepsTheGuard(c: Secrets, d: Device, v: Venue, unsynced: seq<Record>)
    requires WellKeyed(d) && Lists(d.queue, unsynced) && unsynced != [] && AllAnswerable(v, unsynced)
    ensures var results := SyncAll(c, v, unsynced).1;
            var answered := SyncRound(c, d, v, unsynced, Delivered).0;
            var (d1, v1) := SyncRound(c, d, v, unsynced, ResponseLost);
            var retried := SyncRound(c, d1, v1, unsynced, Delivered).0;
            && results.Some?
            && answered.scanned == d.scanned - Rejected(unsynced, results.value)
            && retried.scanned == d.scanned
            && (forall e :: e in retried.queue ==> retried.queue[e].synced)
  {
    DeviceBatchAnswered(c, d, v, unsynced);
    var (d1, v1) := SyncRound(c, d, v, unsynced, ResponseLost);
    ReplayChangesNothing(c, v, unsynced, v1);
    var again := SyncAll(c, v1, unsynced).1.value;
    assert forall res :: res in again ==> res.success;
    assert Rejected(unsynced, again) == {};
    ConvergesIff(c, d, v, unsynced, ResponseLost, unsynced);
  }

  /** What a device and its server go through: scans, sync rounds, and whatever others do to the server. */
  datatype Event =
    | Scanned(raw: string, gate: string, net: Network, eventId: string)
    | Synced(unsynced: seq<Record>, net: Network)
    | ServerMoves(venue: Venue)

  function Happens(c: Secrets, d: Device, v: Venue, e: Event): (Device, Venue) {
    match e
    case Scanned(raw, gate, net, eventId) => var (d', v', _) := HandleScan(c, d, v, raw, gate, net, eventId); (d', v')
    case Synced(unsynced, net) => SyncRound(c, d, v, unsynced, net)
    case ServerMoves(venue) => (d, venue)
  }

  /** Event ids are new UUIDs. */
  predicate NewEvents(c: Secrets, d: Device, v: Venue, events: seq<Event>)
    decreases |events|
  {
    events == [] ||
    ((events[0].Scanned? ==> events[0].eventId !in d.queue)
     && var (d', v') := Happens(c, d, v, events[0]); NewEvents(c, d', v', events[1..]))
  }

  function AfterEvents(c: Secrets, d: Device, v: Venue, events: seq<Event>): Device
    decreases |events|
  {
    if events == [] then d else var (d', v') := Happens(c, d, v, events[0]); AfterEvents(c, d', v', events[1..])
  }

  /** An answered round reports the ticket, which the guard has, as taken by someone else. */
  predicate ClearsGuard(c: Secrets, d: Device, v: Venue, e: Event, ticketId: string) {
    && e.Synced? && e.net.Delivered? && e.unsynced != [] && ticketId in d.scanned
    && SyncAll(c, v, e.unsynced).1.Some? && ticketId in Rejected(e.unsynced, SyncAll(c, v, e.unsynced).1.value)
  }

  function Clearings(c: Secrets, d: Device, v: Venue, events: seq<Event>, ticketId: string): nat
    decreases |events|
  {
    if events == [] then 0
    else
      var (d', v') := Happens(c, d, v, events[0]);
      (if ClearsGuard(c, d, v, events[0], ticketId) then 1 else 0) + Clearings(c, d', v', events[1..], ticketId)
  }

  function EntriesOf(d: Device, ticketId: string): set<string> {
    set e | e in d.queue && d.queue[e].record.scan.ticketId == ticketId
  }

  function Guarded(d: Device, ticketId: string): nat {
    if ticketId in d.scanned then 1 else 0
  }

  lemma ScanCounts(d: Device, p: Payload, gate: string, eventId: string, ticketId: string)
    requires eventId !in d.queue
    ensures var d' := ScanOffline(d, p, gate, eventId).0;
            |EntriesOf(d', ticketId)| - Guarded(d', ticketId) == |EntriesOf(d, ticketId)| - Guarded(d, ticketId)
  {
    var d' := ScanOffline(d, p, gate, eventId).0;
    if p.ticketId in d.scanned || p.ticketId != ticketId {
      assert EntriesOf(d', ticketId) == EntriesOf(d, ticketId);
    } else {
      assert EntriesOf(d', ticketId) == EntriesOf(d, ticketId) + {eventId};
    }
  }

  lemma RoundCounts(c: Secrets, d: Device, v: Venue, unsynced: seq<Record>, net: Network, ticketId: string)
    ensures var d' := SyncRound(c, d, v, unsynced, net).0;
            |EntriesOf(d', ticketId)| - Guarded(d', ticketId) ==
            |EntriesOf(d, ticketId)| - Guarded(d, ticketId) +
              if ClearsGuard(c, d, v, Synced(unsynced, net), ticketId) then 1 else 0
  {
    assert EntriesOf(SyncRound(c, d, v, unsynced, net).0, ticketId) == EntriesOf(d, ticketId);
  }

  lemma EventCounts(c: Secrets, d: Device, v: Venue, e: Event, ticketId: string)
    requires e.Scanned? ==> e.eventId !in d.queue
    ensures var d' := Happens(c, d, v, e).0;
            |EntriesOf(d', ticketId)| - Guarded(d', ticketId) ==
            |EntriesOf(d, ticketId)| - Guarded(d, ticketId) + if ClearsGuard(c, d, v, e, ticketId) then 1 else 0
  {
    match e
    case Scanned(raw, gate, _, eventId) =>
      if ParseScanned(raw).Some? {
        ScanCounts(d, ParseScanned(raw).value, gate, eventId, ticketId);
      }
    case Synced(unsynced, net) => RoundCounts(c, d, v, unsynced, net, ticketId);
    case ServerMoves(_) =>
  }

  /**
    Over any run of scans, sync rounds and server changes: a ticket has been queued exactly once for
    each time a conflict cleared it from the guard, and once more if the guard has it now.
   */
  lemma {:induction false} GuardAdmitsOnce(c: Secrets, d: Device, v: Venue, events: seq<Event>, ticketId: string)
    requires NewEvents(c, d, v, events)
    ensures var d' := AfterEvents(c, d, v, events);
            |EntriesOf(d', ticketId)| - Guarded(d', ticketId) ==
            |EntriesOf(d, ticketId)| - Guarded(d, ticketId) + Clearings(c, d, v, events, ticketId)
    decreases |events|
  {
    if events != [] {
      EventCounts(c, d, v, events[0], ticketId);
      var (d', v') := Happens(c, d, v, events[0]);
      GuardAdmitsOnce(c, d', v', events[1..], ticketId);
    }
  }

  /** So a new device queues a ticket at most once more than conflicts cleared it. */
  lemma QueuedOncePerClearing(c: Secrets, id: string, v: Venue, events: seq<Event>, ticketId: string)
    requires NewEvents(c, Device(id, map[], map[]), v, events)
    ensures var d := Device(id, map[], map[]);
            |EntriesOf(AfterEvents(c, d, v, events), ticketId)| <= 1 + Clearings(c, d, v, events, ticketId)
  {
    GuardAdmitsOnce(c, Device(id, map[], map[]), v, events, ticketId);
    assert EntriesOf(Device(id, map[], map[]), ticketId) == {};
  }

  /** The record that an offline scan of this device queues. */
  function RecordOf(d: Device, p: Payload, gate: string, eventId: string): Record {
    Record(Scan(p.ticketId, p.token, d.id, Some(gate)), eventId)
  }

  /**
    An online scan that lets the holder in but whose answer is lost is queued as well, and its sync is
    rejected as a conflict with itself: the guard forgets the ticket and the record waits for a second round.
   */
  lemma LostScanConflictsWithItself(c: Secrets, d: Device, v: Venue, raw: string, gate: string, eventId: string)
    requires ParseScanned(raw).Some? && forall e :: e in d.queue ==> d.queue[e].synced
    requires var p := ParseScanned(raw).value;
             && p.ticketId !in d.scanned && eventId !in d.queue && FindLog(v.logs, d.id, eventId).None?
             && Judge(c, v.tickets, OnlineScan(d, p, gate)).Passes? && v.tickets[p.ticketId].status.Issued?
    ensures var p := ParseScanned(raw).value;
            var (d1, v1, shown) := HandleScan(c, d, v, raw, gate, ResponseLost, eventId);
            var batch := [RecordOf(d, p, gate, eventId)];
            var (d2, v2) := SyncRound(c, d1, v1, batch, Delivered);
            && shown == QueuedOffline && Lists(d1.queue, batch)
            && v1.tickets[p.ticketId].status.CheckedIn?
            && v2.tickets == v1.tickets && v2.logs == v1.logs + [LogOf(batch[0].scan, Some(eventId), RejectedConflict)]
            && d2.scanned == d.scanned && d2.queue == d1.queue
  {
    var p := ParseScanned(raw).value;
    var (d1, v1, shown) := HandleScan(c, d, v, raw, gate, ResponseLost, eventId);
    var r := RecordOf(d, p, gate, eventId);
    assert d1.queue == d.queue[eventId := Queued(r, false)];
    ListsTheNewOne(d, d1, r);
    var row := LogOf(OnlineScan(d, p, gate), None, Success);
    assert v1.logs == v.logs + [row];
    FindInExtended(v.logs, [row], d.id, eventId);
    assert SameButStatus(v.tickets, v1.tickets);
    JudgeIgnoresStatus(c, v.tickets, v1.tickets, OnlineScan(d, p, gate));
    SyncOfOne(c, d1, v1, r);
    assert d.scanned[p.ticketId := eventId] - {p.ticketId} == d.scanned;
  }

  lemma ListsTheNewOne(d: Device, d1: Device, r: Record)
    requires d1.queue == d.queue[r.eventId := Queued(r, false)] && forall e :: e in d.queue ==> d.queue[e].synced
    ensures Lists(d1.queue, [r])
  {
  }

  /** One new record of a ticket that someone already used. */
  lemma SyncOfOne(c: Secrets, d: Device, v: Venue, r: Record)
    requires !IsLogged(v, r) && Judge(c, v.tickets, r.scan).Passes? && !v.tickets[r.scan.ticketId].status.Issued?
    ensures var (d', v') := SyncRound(c, d, v, [r], Delivered);
            && d' == d.(scanned := d.scanned - {r.scan.ticketId})
            && v' == Logged(v, LogOf(r.scan, Some(r.eventId), RejectedConflict))
  {
    var v1 := SyncRecord(c, v, r).0;
    var res := SyncResult(r.scan.ticketId, r.eventId, false, RejectedConflict, true);
    assert [r][1..] == [];
    assert SyncRecord(c, v, r).1 == Some(res) && [res] + [] == [res];
    assert SyncAll(c, v1, [r][1..]) == (v1, Some([]));
    assert SyncAll(c, v, [r]) == (v1, Some([res]));
    assert Acknowledged([res]) == {};
    assert Rejected([r], [res]) == {r.scan.ticketId} by {
      assert res in [res] && r in [r];
    }
    assert MarkSynced(d.queue, {}) == d.queue;
  }
}
