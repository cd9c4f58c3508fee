/** The check-in hook of the scanning device and its two IndexedDB stores. */
module OfflineCheckin {
  import opened Wrappers
  import opened Venue
  import opened QrPayload
  import opened OfflineQueue
  import opened CheckinService

  function EventSet(events: seq<string>): set<string> {
    set e | e in events
  }

  class DeviceStores {
    const deviceId: string
    var queue: map<string, Queued>
    var scanned: map<string, string>

    function View(): Device
      reads this
    {
      Device(deviceId, queue, scanned)
    }

    method SaveCheckinLog(record: Record)
      modifies this`queue
      ensures queue == old(queue)[record.eventId := Queued(record, false)]
    {
      queue := queue[record.eventId := Queued(record, false)];
    }

    /** The unsynced records, in the order the cursor meets them. */
    method GetUnsynced() returns (unsynced: seq<Record>)
      requires WellKeyed(View())
      ensures Lists(queue, unsynced)
    {
      unsynced := [];
      var rest := queue.Keys;
      while rest != {}
        invariant rest <= queue.Keys
        invariant forall i :: 0 <= i < |unsynced| ==>
                    && unsynced[i].eventId in queue && unsynced[i].eventId !in rest
                    && queue[unsynced[i].eventId] == Queued(unsynced[i], false)
        invariant forall i, j :: 0 <= i < j < |unsynced| ==> unsynced[i].eventId != unsynced[j].eventId
        invariant forall e :: e in queue && e !in rest && !queue[e].synced ==> queue[e].record in unsynced
      {
        var e :| e in rest;
        rest := rest - {e};
        if !queue[e].synced {
          unsynced := unsynced + [queue[e].record];
        }
      }
    }

    /** Sets the flag record by record; an event that is not in the store is skipped. */
    method MarkSyncedEvents(events: seq<string>)
      modifies this`queue
      ensures queue == MarkSynced(old(queue), EventSet(events))
    {
      for i := 0 to |events|
        invariant queue == MarkSynced(old(queue), EventSet(events[..i]))
      {
        assert EventSet(events[..i + 1]) == EventSet(events[..i]) + {events[i]};
        if events[i] in queue {
          queue := queue[events[i] := queue[events[i]].(synced := true)];
        }
      }
      assert events[..|events|] == events;
    }

    method MarkTicketScanned(ticketId: string, eventId: string)
      modifies this`scanned
      ensures scanned == old(scanned)[ticketId := eventId]
    {
      scanned := scanned[ticketId := eventId];
    }

    method ClearScannedTicket(ticketId: string)
      modifies this`scanned
      ensures scanned == old(scanned) - {ticketId}
    {
      scanned := scanned - {ticketId};
    }
  }

  class CheckinHook {
    const stores: DeviceStores
    const server: CheckinService
    var isSyncing: bool

    constructor (stores: DeviceStores, server: CheckinService)
      ensures this.stores == stores && this.server == server && !isSyncing
    {
      this.stores, this.server, isSyncing := stores, server, false;
    }

    /** Sends what is unsynced; what it sent is returned. */
    method TriggerSync(net: Network) returns (unsynced: seq<Record>)
      requires WellKeyed(stores.View())
      modifies this, stores, server.db
      ensures isSyncing == old(isSyncing)
      ensures WellKeyed(stores.View())
      ensures old(isSyncing) ==> stores.View() == old(stores.View()) && server.db.View() == old(server.db.View())
      ensures !old(isSyncing) ==>
                && Lists(old(stores.View()).queue, unsynced)
                && (stores.View(), server.db.View()) ==
                   SyncRound(server.secrets, old(stores.View()), old(server.db.View()), unsynced, net)
    {
      if isSyncing { return []; }
      isSyncing := true;
      unsynced := stores.GetUnsynced();
      if |unsynced| != 0 && !net.Offline? && !net.RequestLost? {
        var response := server.SyncCheckin(unsynced);
        if response.Some? && net.Delivered? {
          AbsorbResponse(unsynced, response.value.results);
        }
      }
      isSyncing := false;
    }

    method AbsorbResponse(unsynced: seq<Record>, results: seq<SyncResult>)
      requires WellKeyed(stores.View())
      requires forall i, j :: 0 <= i < j < |unsynced| ==> unsynced[i].eventId != unsynced[j].eventId
      modifies stores
      ensures stores.View() == Absorb(old(stores.View()), unsynced, results)
      ensures WellKeyed(stores.View())
    {
      var syncedIds := [];
      for i := 0 to |results|
        invariant stores.View() == old(stores.View())
        invariant EventSet(syncedIds) == Acknowledged(results[..i])
      {
        assert results[..i + 1] == results[..i] + [results[i]];
        AcknowledgedSnoc(results[..i], results[i]);
        if results[i].success || results[i].status.AlreadyCheckedIn? {
          syncedIds := syncedIds + [results[i].eventId];
        }
      }
      assert results[..|results|] == results;
      if |syncedIds| > 0 {
        stores.MarkSyncedEvents(syncedIds);
      }
      ghost var d := old(stores.View());
      assert MarkSynced(d.queue, {}) == d.queue && (syncedIds == [] ==> EventSet(syncedIds) == {});
      assert stores.View() == d.(queue := MarkSynced(d.queue, Acknowledged(results)));
      ClearConflicts(unsynced, results);
    }

    /** For every fresh conflict the sent record is looked up by its event and its ticket leaves the guard. */
    method ClearConflicts(unsynced: seq<Record>, results: seq<SyncResult>)
      requires forall i, j :: 0 <= i < j < |unsynced| ==> unsynced[i].eventId != unsynced[j].eventId
      modifies stores`scanned
      ensures stores.scanned == old(stores.scanned) - Rejected(unsynced, results)
    {
      for i := 0 to |results|
        invariant stores.scanned == old(stores.scanned) - Rejected(unsynced, results[..i])
      {
        var res := results[i];
        assert results[..i + 1] == results[..i] + [res];
        RejectedSnoc(unsynced, results[..i], res);
        if res.conflict && !res.success {
          var matched := Find(unsynced, res.eventId);
          if matched.Some? {
            assert Rejected(unsynced, [res]) == {matched.value.scan.ticketId};
            stores.ClearScannedTicket(matched.value.scan.ticketId);
          } else {
            assert Rejected(unsynced, [res]) == {};
          }
        } else {
          assert Rejected(unsynced, [res]) == {};
        }
      }
      assert results[..|results|] == results;
    }

    method Find(unsynced: seq<Record>, eventId: string) returns (matched: Option<Record>)
      ensures matched.Some? ==> matched.value in unsynced && matched.value.eventId == eventId
      ensures matched.None? ==> forall r :: r in unsynced ==> r.eventId != eventId
    {
      for i := 0 to |unsynced|
        invariant forall j :: 0 <= j < i ==> unsynced[j].eventId != eventId
      {
        if unsynced[i].eventId == eventId { return Some(unsynced[i]); }
      }
      return None;
    }

    /** `eventId` is a new UUID. */
    method OnScan(raw: string, gate: string, net: Network, eventId: string) returns (out: ScanResult)
      requires WellKeyed(stores.View())
      modifies stores, server.db
      ensures (stores.View(), server.db.View(), out) ==
              HandleScan(server.secrets, old(stores.View()), old(server.db.View()), raw, gate, net, eventId)
      ensures WellKeyed(stores.View())
    {
      var parsed := ParseScanned(raw);
      if parsed.None? { return BadFormat; }
      var p := parsed.value;
      if net.Delivered? || net.ResponseLost? {
        var outcome := server.VerifyAndCheckin(OnlineScan(stores.View(), p, gate));
        if net.Delivered? { return Online(outcome); }
      }
      if p.ticketId in stores.scanned { return AlreadyScanned; }
      stores.SaveCheckinLog(Record(Scan(p.ticketId, p.token, stores.deviceId, Some(gate)), eventId));
      stores.MarkTicketScanned(p.ticketId, eventId);
      return QueuedOffline;
    }
  }

  lemma AcknowledgedSnoc(results: seq<SyncResult>, res: SyncResult)
    ensures Acknowledged(results + [res]) ==
            Acknowledged(results) + if res.success || res.status.AlreadyCheckedIn? then {res.eventId} else {}
  {
    var all := results + [res];
    forall e | e in Acknowledged(results)
      ensures e in Acknowledged(all)
    {
      var r :| r in results && (r.success || r.status.AlreadyCheckedIn?) && r.eventId == e;
      assert r in all;
    }
    assert res in all;
  }

  lemma RejectedSnoc(unsynced: seq<Record>, results: seq<SyncResult>, res: SyncResult)
    ensures Rejected(unsynced, results + [res]) == Rejected(unsynced, results) + Rejected(unsynced, [res])
  {
    var all := results + [res];
    forall t | t in Rejected(unsynced, results) + Rejected(unsynced, [res])
      ensures t in Rejected(unsynced, all)
    {
      var r, q :| r in unsynced && q in all && q.conflict && !q.success && q.eventId == r.eventId && r.scan.ticketId ==
            t;
    }
    forall t | t in Rejected(unsynced, all)
      ensures t in Rejected(unsynced, results) + Rejected(unsynced, [res])
    {
      var r, q :| r in unsynced && q in all && q.conflict && !q.success && q.eventId == r.eventId && r.scan.ticketId ==
            t;
      assert q in results || q in [res];
    }
  }
}
