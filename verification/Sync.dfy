/** What a batch of offline scans does: replays, totals, and independence of order and of batching. */
module Sync {
  import opened Wrappers
  import opened Sums
  import opened Venue

  // ------------------------------------------------------------------ growth

  /** The log only gains rows, no ticket goes, and CHECKED_IN is never left. */
  ghost predicate Later(v: Venue, v': Venue) {
    && v.logs <= v'.logs
    && forall id :: id in v.tickets ==>
        id in v'.tickets && (v.tickets[id].status.CheckedIn? ==> v'.tickets[id].status.CheckedIn?)
  }

  /** The first row with a key stays the first. */
  lemma {:induction false} FindInExtended(logs: seq<LogRow>, more: seq<LogRow>, device: string, eventId: string)
    ensures FindLog(logs + more, device, eventId) ==
            if FindLog(logs, device, eventId).Some? then FindLog(logs, device, eventId)
                 else FindLog(more, device, eventId)
  {
    if logs == [] {
      assert logs + more == more;
    } else {
      assert (logs + more)[1..] == logs[1..] + more;
      FindInExtended(logs[1..], more, device, eventId);
    }
  }

  lemma FoundLater(v: Venue, v': Venue, r: Record)
    requires v.logs <= v'.logs && FindLog(v.logs, r.scan.device, r.eventId).Some?
    ensures FindLog(v'.logs, r.scan.device, r.eventId) == FindLog(v.logs, r.scan.device, r.eventId)
  {
    assert v'.logs == v.logs + v'.logs[|v.logs|..];
    FindInExtended(v.logs, v'.logs[|v.logs|..], r.scan.device, r.eventId);
  }

  lemma {:induction false} SyncAllIsLater(c: Secrets, v: Venue, records: seq<Record>)
    ensures Later(v, SyncAll(c, v, records).0)
    decreases |records|
  {
    if records != [] && SyncRecord(c, v, records[0]).1.Some? {
      SyncAllIsLater(c, SyncRecord(c, v, records[0]).0, records[1..]);
    }
  }

  // ------------------------------------------------------------------ replays

  predicate IsLogged(v: Venue, r: Record) {
    FindLog(v.logs, r.scan.device, r.eventId).Some?
  }

  /** A record that was answered is in the log, with the status and conflict flag of the answer. */
  lemma AnsweredIsLogged(c: Secrets, v: Venue, r: Record)
    requires SyncRecord(c, v, r).1.Some?
    ensures var (v', res) := SyncRecord(c, v, r);
            && IsLogged(v', r)
            && var row := FindLog(v'.logs, r.scan.device, r.eventId).value;
               row.status == res.value.status && row.conflict == res.value.conflict
    ensures SyncRecord(c, v, r).1.value.ticketId == r.scan.ticketId && SyncRecord(c, v, r).1.value.eventId == r.eventId
  {
    if !IsLogged(v, r) {
      var status := FreshStatus(c, v.tickets, r.scan);
      FindInExtended(v.logs, [LogOf(r.scan, Some(r.eventId), status)], r.scan.device, r.eventId);
    }
  }

  lemma ReplayOfOne(c: Secrets, v: Venue, r: Record, later: Venue)
    requires SyncRecord(c, v, r).1.Some? && Later(SyncRecord(c, v, r).0, later)
    ensures SyncRecord(c, later, r) == (later, Some(SyncRecord(c, v, r).1.value.(success := true)))
  {
    AnsweredIsLogged(c, v, r);
    FoundLater(SyncRecord(c, v, r).0, later, r);
  }

  /**
    The same batch again, at any later time and under whatever has happened since: no ticket and no log
    row changes, and every record is answered with its first status and conflict flag, now as a success.
   */
  lemma {:induction false} ReplayChangesNothing(c: Secrets, v: Venue, records: seq<Record>, later: Venue)
    requires SyncAll(c, v, records).1.Some? && Later(SyncAll(c, v, records).0, later)
    ensures var first := SyncAll(c, v, records).1.value;
            var (after, again) := SyncAll(c, later, records);
            && after == later && again.Some? && |first| == |records| == |again.value|
            && forall i :: 0 <= i < |records| ==> again.value[i] == first[i].(success := true)
    decreases |records|
  {
    if records != [] {
      var v1 := SyncRecord(c, v, records[0]).0;
      SyncAllIsLater(c, v1, records[1..]);
      ReplayOfOne(c, v, records[0], later);
      ReplayChangesNothing(c, v1, records[1..], later);
    }
  }

  /** Every answer counts once. */
  lemma {:induction false} TotalsAddUp(results: seq<SyncResult>)
    ensures CountIf(results, CountsAsSuccess) + CountIf(results, CountsAsFailed) +
              CountIf(results, CountsAsConflict) == |results|
  {
    if results != [] {
      TotalsAddUp(results[1..]);
    }
  }

  /** On a replay what had failed is counted as a success; conflicts stay conflicts. */
  lemma {:induction false} TotalsOfReplay(first: seq<SyncResult>, again: seq<SyncResult>)
    requires |first| == |again| && forall i :: 0 <= i < |first| ==> again[i] == first[i].(success := true)
    ensures CountIf(again, CountsAsConflict) == CountIf(first, CountsAsConflict)
    ensures CountIf(again, CountsAsFailed) == 0
    ensures CountIf(again, CountsAsSuccess) == CountIf(first, CountsAsSuccess) + CountIf(first, CountsAsFailed)
  {
    if first != [] {
      TotalsOfReplay(first[1..], again[1..]);
    }
  }

  // ------------------------------------------------------------------ a fresh batch in closed form

  predicate SameKey(a: Record, b: Record) {
    a.scan.device == b.scan.device && a.eventId == b.eventId
  }

  /** Records of existing tickets, with keys that are new and all different. */
  predicate FreshBatch(v: Venue, records: seq<Record>) {
    && (forall i, j :: 0 <= i < j < |records| ==> !SameKey(records[i], records[j]))
    && (forall r :: r in records ==> r.scan.ticketId in v.tickets && !IsLogged(v, r))
  }

  predicate Valid(c: Secrets, tickets: map<string, Ticket>, r: Record) {
    Judge(c, tickets, r.scan).Passes?
  }

  function Elements(records: seq<Record>): set<Record> {
    set r | r in records
  }

  /** The ISSUED tickets that some record presents validly. */
  function Winners(c: Secrets, tickets: map<string, Ticket>, batch: set<Record>): set<string> {
    set r | r in batch && Valid(c, tickets, r) && tickets[r.scan.ticketId].status.Issued? :: r.scan.ticketId
  }

  function InvalidOnes(c: Secrets, tickets: map<string, Ticket>, batch: set<Record>): set<Record> {
    set r | r in batch && !Valid(c, tickets, r)
  }

  function CheckInAll(tickets: map<string, Ticket>, ids: set<string>): map<string, Ticket> {
    map id | id in tickets :: if id in ids then tickets[id].(status := CheckedIn) else tickets[id]
  }

  /** Tables that differ in ticket statuses only. */
  ghost predicate SameButStatus(a: map<string, Ticket>, b: map<string, Ticket>) {
    a.Keys == b.Keys && forall id :: id in a ==> b[id] == a[id].(status := b[id].status)
  }

  lemma JudgeIgnoresStatus(c: Secrets, a: map<string, Ticket>, b: map<string, Ticket>, scan: Scan)
    requires SameButStatus(a, b)
    ensures Judge(c, a, scan) == Judge(c, b, scan)
  {
  }

  /** Handling the first record leaves a fresh batch, and takes its own ticket out of what can still be won. */
  lemma FirstOfBatch(c: Secrets, v: Venue, records: seq<Record>)
    requires records != [] && FreshBatch(v, records)
    ensures var v1 := SyncRecord(c, v, records[0]).0;
            && FreshBatch(v1, records[1..]) && SameButStatus(v.tickets, v1.tickets)
            && v1.tickets == CheckInAll(v.tickets, Winners(c, v.tickets, {records[0]}))
  {
    var r := records[0];
    var v1 := SyncRecord(c, v, r).0;
    var row := LogOf(r.scan, Some(r.eventId), FreshStatus(c, v.tickets, r.scan));
    assert r in records;
    forall q | q in records[1..]
      ensures q.scan.ticketId in v1.tickets && !IsLogged(v1, q)
    {
      assert !SameKey(r, q);
      FindInExtended(v.logs, [row], q.scan.device, q.eventId);
    }
    assert Winners(c, v.tickets, {r}) == if Valid(c, v.tickets, r) &&
             v.tickets[r.scan.ticketId].status.Issued? then {r.scan.ticketId} else {};
  }

  lemma WinnersSplit(c: Secrets, tickets: map<string, Ticket>, r: Record, rest: set<Record>)
    ensures var after := CheckInAll(tickets, Winners(c, tickets, {r}));
            && Winners(c, tickets, {r}) !! Winners(c, after, rest)
            && Winners(c, tickets, {r} + rest) == Winners(c, tickets, {r}) + Winners(c, after, rest)
            && CheckInAll(after, Winners(c, after, rest)) == CheckInAll(tickets, Winners(c, tickets, {r} + rest))
            && InvalidOnes(c, after, rest) == InvalidOnes(c, tickets, rest)
  {
    var after := CheckInAll(tickets, Winners(c, tickets, {r}));
    forall q: Record
      ensures Valid(c, after, q) == Valid(c, tickets, q)
    {
      JudgeIgnoresStatus(c, tickets, after, q.scan);
    }
    var whole, first, others := Winners(c, tickets, {r} + rest), Winners(c, tickets, {r}), Winners(c, after, rest);
    forall id | id in whole
      ensures id in first + others
    {
      var q :| q in {r} + rest && Valid(c, tickets, q) && tickets[q.scan.ticketId].status.Issued? && q.scan.ticketId ==
            id;
      if id !in first {
        assert q in rest && after[id] == tickets[id];
      }
    }
  }

  /** The first record's own ticket, if it wins one. */
  lemma WinnersOfOne(c: Secrets, v: Venue, r: Record)
    requires !IsLogged(v, r) && r.scan.ticketId in v.tickets
    ensures var res := SyncRecord(c, v, r).1;
            var winners := Winners(c, v.tickets, {r});
            && res.Some?
            && winners == (if res.value.status.Success? then {r.scan.ticketId} else {})
            && InvalidOnes(c, v.tickets, {r}) == (if CountsAsFailed(res.value) then {r} else {})
            && CountsAsSuccess(res.value) == res.value.status.Success?
  {
  }

  lemma ElementsSplit(c: Secrets, v: Venue, records: seq<Record>)
    requires records != [] && FreshBatch(v, records)
    ensures Elements(records) == {records[0]} + Elements(records[1..]) && records[0] !in Elements(records[1..])
    ensures forall tickets :: InvalidOnes(c, tickets, Elements(records)) ==
                              InvalidOnes(c, tickets, {records[0]}) + InvalidOnes(c, tickets, Elements(records[1..]))
  {
    forall j | 0 < j < |records|
      ensures records[j] != records[0]
    {
      assert !SameKey(records[0], records[j]);
    }
  }

  /** The sizes in the closed form grow with the first record by what it counts. */
  lemma BatchStep(c: Secrets, v: Venue, records: seq<Record>)
    requires records != [] && FreshBatch(v, records)
    ensures var (v1, res) := SyncRecord(c, v, records[0]);
            var all, rest := Elements(records), Elements(records[1..]);
            && res.Some?
            && |all| == 1 + |rest|
            && |Winners(c, v.tickets, all)| == (if CountsAsSuccess(res.value) then 1 else 0) +
                 |Winners(c, v1.tickets, rest)|
            && |InvalidOnes(c, v.tickets, all)| ==
                 (if CountsAsFailed(res.value) then 1 else 0) + |InvalidOnes(c, v1.tickets, rest)|
            && CheckInAll(v1.tickets, Winners(c, v1.tickets, rest)) == CheckInAll(v.tickets, Winners(c, v.tickets, all))
  {
    var r, rest := records[0], Elements(records[1..]);
    assert r in records;
    FirstOfBatch(c, v, records);
    ElementsSplit(c, v, records);
    WinnersSplit(c, v.tickets, r, rest);
    WinnersOfOne(c, v, r);
  }

  /**
    A fresh batch in closed form: exactly the ISSUED tickets with a valid record are checked in, each
    counts one success, each invalid record one failure, and all other valid records are conflicts.
   */
  lemma {:induction false} FreshBatchDoes(c: Secrets, v: Venue, records: seq<Record>)
    requires FreshBatch(v, records)
    ensures var (v', res) := SyncAll(c, v, records);
            var winners := Winners(c, v.tickets, Elements(records));
            && res.Some? && |res.value| == |records| == |Elements(records)|
            && v'.tickets == CheckInAll(v.tickets, winners)
            && CountIf(res.value, CountsAsSuccess) == |winners|
            && CountIf(res.value, CountsAsFailed) == |InvalidOnes(c, v.tickets, Elements(records))|
    decreases |records|
  {
    if records == [] {
      assert CheckInAll(v.tickets, {}) == v.tickets;
    } else {
      FirstOfBatch(c, v, records);
      BatchStep(c, v, records);
      FreshBatchDoes(c, SyncRecord(c, v, records[0]).0, records[1..]);
    }
  }

  // ------------------------------------------------------------------ log rows per ticket

  function LoggedAs(id: string, status: CheckinStatus): LogRow -> bool {
    (row: LogRow) => row.ticketId == id && row.status == status
  }

  function ValidFor(c: Secrets, tickets: map<string, Ticket>, id: string): Record -> bool {
    (r: Record) => r.scan.ticketId == id && Valid(c, tickets, r)
  }

  lemma {:induction false} CountSame<T>(s: seq<T>, p: T -> bool, q: T -> bool)
    requires forall x :: x in s ==> p(x) == q(x)
    ensures CountIf(s, p) == CountIf(s, q)
  {
    if s != [] {
      CountSame(s[1..], p, q);
    }
  }

  /** The first record's row, and what it leaves of the batch. */
  lemma FirstLogs(c: Secrets, v: Venue, records: seq<Record>, id: string)
    requires records != [] && FreshBatch(v, records)
    ensures var (v1, res) := SyncRecord(c, v, records[0]);
            var mine := records[0].scan.ticketId == id;
            && res.Some?
            && CountIf(v1.logs, LoggedAs(id, Success)) ==
                 CountIf(v.logs, LoggedAs(id, Success)) + (if mine && res.value.status.Success? then 1 else 0)
            && CountIf(v1.logs, LoggedAs(id, RejectedConflict)) ==
               CountIf(v.logs, LoggedAs(id, RejectedConflict)) +
                 (if mine && res.value.status.RejectedConflict? then 1 else 0)
            && (Valid(c, v.tickets, records[0]) <==> res.value.status.Success? || res.value.status.RejectedConflict?)
  {
    var r := records[0];
    assert r in records;
    var row := LogOf(r.scan, Some(r.eventId), FreshStatus(c, v.tickets, r.scan));
    CountAppend(v.logs, [row], LoggedAs(id, Success));
    CountAppend(v.logs, [row], LoggedAs(id, RejectedConflict));
    assert [row][1..] == [];
  }

  lemma RestValidFor(c: Secrets, v: Venue, records: seq<Record>, id: string)
    requires records != [] && FreshBatch(v, records)
    ensures var v1 := SyncRecord(c, v, records[0]).0;
            CountIf(records[1..], ValidFor(c, v1.tickets, id)) == CountIf(records[1..], ValidFor(c, v.tickets, id))
  {
    FirstOfBatch(c, v, records);
    var v1 := SyncRecord(c, v, records[0]).0;
    forall q: Record
      ensures ValidFor(c, v1.tickets, id)(q) == ValidFor(c, v.tickets, id)(q)
    {
      JudgeIgnoresStatus(c, v.tickets, v1.tickets, q.scan);
    }
    CountSame(records[1..], ValidFor(c, v1.tickets, id), ValidFor(c, v.tickets, id));
  }

  /** Of the first record's ticket and the winners of the rest, none twice. */
  lemma WinnersStep(c: Secrets, v: Venue, records: seq<Record>, id: string)
    requires records != [] && FreshBatch(v, records)
    ensures var (v1, res) := SyncRecord(c, v, records[0]);
            var first := records[0].scan.ticketId == id && res.Some? && res.value.status.Success?;
            var later := id in Winners(c, v1.tickets, Elements(records[1..]));
            (id in Winners(c, v.tickets, Elements(records)) <==> first || later) && !(first && later)
  {
    var r := records[0];
    assert r in records;
    FirstOfBatch(c, v, records);
    ElementsSplit(c, v, records);
    WinnersSplit(c, v.tickets, r, Elements(records[1..]));
    WinnersOfOne(c, v, r);
  }

  /** Every winner gains one SUCCESS row, and each other valid record of a ticket a REJECTED_CONFLICT row. */
  lemma {:induction false} FreshBatchLogs(c: Secrets, v: Venue, records: seq<Record>, id: string)
    requires FreshBatch(v, records)
    ensures var v' := SyncAll(c, v, records).0;
            var won := if id in Winners(c, v.tickets, Elements(records)) then 1 else 0;
            && CountIf(v'.logs, LoggedAs(id, Success)) == CountIf(v.logs, LoggedAs(id, Success)) + won
            && CountIf(v'.logs, LoggedAs(id, RejectedConflict)) ==
               CountIf(v.logs, LoggedAs(id, RejectedConflict)) + CountIf(records, ValidFor(c, v.tickets, id)) - won
    decreases |records|
  {
    if records != [] {
      FirstOfBatch(c, v, records);
      FirstLogs(c, v, records, id);
      RestValidFor(c, v, records, id);
      WinnersStep(c, v, records, id);
      FreshBatchLogs(c, SyncRecord(c, v, records[0]).0, records[1..], id);
    }
  }

  // ------------------------------------------------------------------ several requests

  /** Requests one after another; one that ends in an error answers nothing. */
  function SyncBatches(c: Secrets, v: Venue, batches: seq<seq<Record>>): (Venue, seq<SyncResult>)
    decreases |batches|
  {
    if batches == [] then (v, [])
    else
      var (v1, res) := SyncAll(c, v, batches[0]);
      var (v2, more) := SyncBatches(c, v1, batches[1..]);
      (v2, (if res.Some? then res.value else []) + more)
  }

  function Flatten(batches: seq<seq<Record>>): seq<Record> {
    if batches == [] then [] else batches[0] + Flatten(batches[1..])
  }

  lemma {:induction false} SyncAllConcat(c: Secrets, v: Venue, a: seq<Record>, b: seq<Record>)
    requires SyncAll(c, v, a).1.Some?
    ensures var (v1, first) := SyncAll(c, v, a);
            var (v2, second) := SyncAll(c, v1, b);
            SyncAll(c, v, a + b) == (v2, if second.Some? then Some(first.value + second.value) else None)
    decreases |a|
  {
    if a == [] {
      assert a + b == b;
      var second := SyncAll(c, v, b).1;
      assert second.Some? ==> [] + second.value == second.value;
    } else {
      assert (a + b)[1..] == a[1..] + b;
      var v1 := SyncRecord(c, v, a[0]).0;
      SyncAllConcat(c, v1, a[1..], b);
      var first := SyncAll(c, v1, a[1..]);
      var second := SyncAll(c, first.0, b).1;
      if second.Some? {
        var one := [SyncRecord(c, v, a[0]).1.value];
        assert one + (first.1.value + second.value) == (one + first.1.value) + second.value;
      }
    }
  }

  lemma {:induction false} SyncAllPrefix(c: Secrets, v: Venue, a: seq<Record>, b: seq<Record>)
    requires SyncAll(c, v, a + b).1.Some?
    ensures SyncAll(c, v, a).1.Some?
    decreases |a|
  {
    if a != [] {
      assert (a + b)[1..] == a[1..] + b;
      SyncAllPrefix(c, SyncRecord(c, v, a[0]).0, a[1..], b);
    }
  }

  /** Cutting a list into requests changes nothing, as long as the whole list goes through. */
  lemma {:induction false} BatchingIsInvisible(c: Secrets, v: Venue, batches: seq<seq<Record>>)
    requires SyncAll(c, v, Flatten(batches)).1.Some?
    ensures var (v', res) := SyncBatches(c, v, batches);
            SyncAll(c, v, Flatten(batches)) == (v', Some(res))
    decreases |batches|
  {
    if batches != [] {
      var a, b := batches[0], Flatten(batches[1..]);
      SyncAllPrefix(c, v, a, b);
      SyncAllConcat(c, v, a, b);
      BatchingIsInvisible(c, SyncAll(c, v, a).0, batches[1..]);
    }
  }

  /** The same records in any order and cut into any requests: the same tickets and the same totals. */
  lemma OrderAndBatchingDoNotMatter(c: Secrets, v: Venue, xs: seq<seq<Record>>, ys: seq<seq<Record>>)
    requires FreshBatch(v, Flatten(xs)) && FreshBatch(v, Flatten(ys))
    requires Elements(Flatten(xs)) == Elements(Flatten(ys))
    ensures var (vx, rx) := SyncBatches(c, v, xs);
            var (vy, ry) := SyncBatches(c, v, ys);
            && vx.tickets == vy.tickets
            && CountIf(rx, CountsAsSuccess) == CountIf(ry, CountsAsSuccess)
            && CountIf(rx, CountsAsFailed) == CountIf(ry, CountsAsFailed)
            && CountIf(rx, CountsAsConflict) == CountIf(ry, CountsAsConflict)
  {
    FreshBatchDoes(c, v, Flatten(xs));
    FreshBatchDoes(c, v, Flatten(ys));
    BatchingIsInvisible(c, v, xs);
    BatchingIsInvisible(c, v, ys);
    TotalsAddUp(SyncBatches(c, v, xs).1);
    TotalsAddUp(SyncBatches(c, v, ys).1);
  }

  // ------------------------------------------------------------------ unknown tickets

  lemma LoggedAfter(c: Secrets, v: Venue, r: Record, q: Record)
    requires SyncRecord(c, v, r).1.Some?
    ensures IsLogged(SyncRecord(c, v, r).0, q) <==> IsLogged(v, q) || SameKey(r, q)
  {
    AnsweredIsLogged(c, v, r);
    if !IsLogged(v, r) {
      var row := LogOf(r.scan, Some(r.eventId), FreshStatus(c, v.tickets, r.scan));
      FindInExtended(v.logs, [row], q.scan.device, q.eventId);
    }
  }

  /** Record i is in the log already, repeats an earlier one of its batch, or names an existing ticket. */
  predicate Answerable(v: Venue, records: seq<Record>, i: nat)
    requires i < |records|
  {
    || IsLogged(v, records[i]) || records[i].scan.ticketId in v.tickets
    || exists j :: 0 <= j < i && SameKey(records[j], records[i])
  }

  /** A request is answered exactly when each of its records can be: one unknown ticket fails it whole. */
  lemma {:induction false} AnsweredIff(c: Secrets, v: Venue, records: seq<Record>)
    ensures SyncAll(c, v, records).1.Some? <==> forall i :: 0 <= i < |records| ==> Answerable(v, records, i)
    decreases |records|
  {
    if records != [] {
      var (v1, res) := SyncRecord(c, v, records[0]);
      if res.None? {
        assert !Answerable(v, records, 0);
      } else {
        AnsweredIff(c, v1, records[1..]);
        assert Answerable(v, records, 0);
        forall i | 0 < i < |records|
          ensures Answerable(v, records, i) <==> Answerable(v1, records[1..], i - 1)
        {
          LoggedAfter(c, v, records[0], records[i]);
          AnswerableShift(v, v1, records, i);
        }
        forall i | 0 <= i < |records[1..]| && forall k :: 0 <= k < |records| ==> Answerable(v, records, k)
          ensures Answerable(v1, records[1..], i)
        {
          assert Answerable(v, records, i + 1);
        }
      }
    }
  }

  lemma AnswerableShift(v: Venue, v1: Venue, records: seq<Record>, i: nat)
    requires 0 < i < |records| && v1.tickets.Keys == v.tickets.Keys
    requires IsLogged(v1, records[i]) <==> IsLogged(v, records[i]) || SameKey(records[0], records[i])
    ensures Answerable(v, records, i) <==> Answerable(v1, records[1..], i - 1)
  {
    if j :| 0 <= j < i && SameKey(records[j], records[i]) {
      if j > 0 {
        assert SameKey(records[1..][j - 1], records[i]);
      }
    }
    if j :| 0 <= j < i - 1 && SameKey(records[1..][j], records[i]) {
      assert SameKey(records[j + 1], records[i]);
    }
  }
}
