/** A ticket's QR code from the page that shows it, through the scanning device, to the check-in log. */
module TicketCodes {
  import opened Wrappers
  import opened Venue
  import opened Sync
  import opened QrPayload
  import opened OfflineQueue
  import opened VenueRuns

  /** What the shop puts in the code of a ticket; one without a gate gets an empty last field. */
  function CodeOf(id: string, t: Ticket): string {
    Build(Payload(id, t.rawToken, OrEmpty(t.gate)))
  }

  /** Ticket ids and tokens are UUIDs: without colons and white space. */
  predicate Readable(id: string, t: Ticket) {
    Plain(id) && Plain(t.rawToken) && !IsSpace(id[0])
  }

  /** A code as it comes from the camera, with white space around it. */
  ghost predicate ShownAs(raw: string, code: string) {
    exists a, b :: AllSpace(a) && AllSpace(b) && raw == a + code + b
  }

  lemma ReadIff(id: string, t: Ticket, raw: string)
    requires Readable(id, t) && ShownAs(raw, CodeOf(id, t))
    ensures var read := ParseScanned(raw);
            && (read.Some? <==> !AllSpace(OrEmpty(t.gate)))
            && (read.Some? ==> read.value.ticketId == id && read.value.token == t.rawToken)
  {
    var a, b :| AllSpace(a) && AllSpace(b) && raw == a + CodeOf(id, t) + b;
    CodeIsReadIff(a, Payload(id, t.rawToken, OrEmpty(t.gate)), b);
  }

  /** The gate's name is more than white space, and the device is set to it or to no gate. */
  predicate Opens(t: Ticket, setting: string) {
    t.gate.Some? && !AllSpace(t.gate.value) && setting in ["", t.gate.value]
  }

  /**
    After any run of the venue an ISSUED ticket's own code, shown while the network is up, lets its holder in if and
    only if the ticket has a gate whose name is more than white space and the device is not set to another one.
   */
  lemma OwnCodeGetsInIff(c: Secrets, v: Venue, steps: seq<Step>, id: string, d: Device, raw: string, setting: string,
                         eventId: string)
    requires Signed(c, v.tickets)
    requires var s := After(c, v, steps);
             && id in s.tickets && s.tickets[id].status.Issued?
             && Readable(id, s.tickets[id]) && ShownAs(raw, CodeOf(id, s.tickets[id]))
    ensures var s := After(c, v, steps);
            var t := s.tickets[id];
            var (d', s', shown) := HandleScan(c, d, s, raw, setting, Delivered, eventId);
            && d' == d
            && (shown == Online(Admitted) <==> Opens(t, setting))
            && (shown == BadFormat <==> AllSpace(OrEmpty(t.gate)))
            && (shown !in {Online(Admitted), BadFormat} ==> shown == Online(Refused(GateMismatch)))
            && s'.tickets == (if shown == Online(Admitted) then s.tickets[id := t.(status := CheckedIn)] else s.tickets)
  {
    var s := After(c, v, steps);
    var t := s.tickets[id];
    ReadIff(id, t, raw);
    if ParseScanned(raw).Some? {
      var scan := Scan(id, t.rawToken, d.id, if setting == "" then None else Some(setting));
      PassesIff(c, v, steps, scan);
      ScanAnswers(c, s, scan);
      RunSigns(c, v, steps);
      assert SignedTicket(c, id, t) && t.gate.value != "";
      var shown := HandleScan(c, d, s, raw, setting, Delivered, eventId);
      assert shown.2 == Online(Verify(c, s, scan).1) && shown.1 == Verify(c, s, scan).0;
    }
  }

  /**
    The same code while the network is down: it is queued once, and the next answered round checks the
    ticket in, logs it for this device, gate and event, and leaves nothing to sync.
   */
  lemma OwnCodeGetsInLater(c: Secrets, v: Venue, steps: seq<Step>, id: string, d: Device, raw: string, gate: string,
                           net: Network, eventId: string)
    requires Signed(c, v.tickets)
    requires var s := After(c, v, steps);
             && id in s.tickets && s.tickets[id].status.Issued?
             && Readable(id, s.tickets[id]) && ShownAs(raw, CodeOf(id, s.tickets[id]))
             && s.tickets[id].gate == Some(gate) && !AllSpace(gate)
             && FindLog(s.logs, d.id, eventId).None?
    requires (net.Offline? || net.RequestLost?) && id !in d.scanned && forall e :: e in d.queue ==> d.queue[e].synced
    ensures var s := After(c, v, steps);
            var t := s.tickets[id];
            var (d1, s1, shown) := HandleScan(c, d, s, raw, gate, net, eventId);
            var batch := [Record(Scan(id, t.rawToken, d.id, Some(gate)), eventId)];
            var (d2, s2) := SyncRound(c, d1, s1, batch, Delivered);
            && shown == QueuedOffline && s1 == s && Lists(d1.queue, batch)
            && HandleScan(c, d1, s1, raw, gate, net, eventId) == (d1, s1, AlreadyScanned)
            && s2.tickets == s.tickets[id := t.(status := CheckedIn)]
            && s2.logs == s.logs + [LogRow(id, d.id, Some(gate), Some(eventId), Success, false)]
            && (forall e :: e in d2.queue ==> d2.queue[e].synced) && id in d2.scanned
  {
    var s := After(c, v, steps);
    var t := s.tickets[id];
    ReadIff(id, t, raw);
    var r := Record(Scan(id, t.rawToken, d.id, Some(gate)), eventId);
    var d1 := HandleScan(c, d, s, raw, gate, net, eventId).0;
    assert d1.queue == d.queue[eventId := Queued(r, false)];
    ListsTheNewOne(d, d1, r);
    PassesIff(c, v, steps, r.scan);
    SyncOfNewOne(c, d1, s, r);
  }

  /** One new record of an ISSUED ticket. */
  lemma SyncOfNewOne(c: Secrets, d: Device, v: Venue, r: Record)
    requires !IsLogged(v, r) && Judge(c, v.tickets, r.scan).Passes? && v.tickets[r.scan.ticketId].status.Issued?
    ensures var (d', v') := SyncRound(c, d, v, [r], Delivered);
            && d' == d.(queue := MarkSynced(d.queue, {r.eventId}))
            && v'.tickets == v.tickets[r.scan.ticketId := v.tickets[r.scan.ticketId].(status := CheckedIn)]
            && v'.logs == v.logs + [LogOf(r.scan, Some(r.eventId), Success)]
  {
    var v1 := SyncRecord(c, v, r).0;
    var res := SyncResult(r.scan.ticketId, r.eventId, true, Success, false);
    assert [r][1..] == [];
    assert SyncRecord(c, v, r).1 == Some(res) && [res] + [] == [res];
    assert SyncAll(c, v1, [r][1..]) == (v1, Some([]));
    assert SyncAll(c, v, [r]) == (v1, Some([res]));
    assert Acknowledged([res]) == {r.eventId} by {
      assert res in [res];
    }
    assert Rejected([r], [res]) == {};
    assert d.scanned - {} == d.scanned;
  }
}
