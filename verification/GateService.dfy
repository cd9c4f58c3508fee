/** Issuing with a gate, and the gate service, statement by statement. */
module GateService {
  import opened Wrappers
  import opened Venue
  import opened Gates
  import opened GateMoves
  import opened CheckinService

  class TicketIssuer {
    const db: VenueTables
    const secrets: Secrets

    constructor (db: VenueTables, secrets: Secrets)
      ensures this.db == db && this.secrets == secrets
    {
      this.db, this.secrets := db, secrets;
    }

    /** `names` is what the gate query returned. */
    method FindLeastLoadedGate(concert: string, names: seq<string>) returns (name: string)
      ensures name == LeastLoaded(db.tickets, concert, names)
    {
      if |names| == 0 { return ""; }
      var leastLoaded, minCount := names[0], Load(db.tickets, concert, names[0]);
      ghost var loads := Loads(db.tickets, concert, names);
      ghost var least := 0;
      for i := 0 to |names|
        invariant least < |names| && leastLoaded == names[least] && minCount == loads[least]
        invariant forall j :: 0 <= j < i ==> minCount <= loads[j]
        invariant forall j :: 0 <= j < least ==> minCount < loads[j]
        invariant i == 0 ==> least == 0
        invariant least <= i
      {
        var count := Load(db.tickets, concert, names[i]);
        if count < minCount {
          minCount, leastLoaded := count, names[i];
          least := i;
        }
      }
      OneFirstLeast(loads, least, LeastIndex(loads));
      return leastLoaded;
    }

    method CreateTicket(concert: string, name: string, p: Plan)
      modifies db`tickets
      ensures db.tickets == old(db.tickets)[p.id := NewTicket(secrets, concert, name, p)]
    {
      var tokenHash := secrets.hash(p.rawToken);
      var signature := secrets.sign(p.id + ":" + tokenHash + ":" + name);
      db.tickets := db.tickets[p.id := Ticket(concert, if name == "" then None else Some(name), p.rawToken, tokenHash,
                                              Some(signature), Issued)];
    }

    /** The worker's inner loop; `listings` are what its gate queries return, ticket by ticket. */
    method IssueEachTicket(concert: string, listings: seq<seq<string>>, plans: seq<Plan>)
      requires |listings| == |plans|
      modifies db`tickets
      ensures db.tickets == IssueEach(secrets, old(db.tickets), concert, listings, plans)
    {
      assert plans[0..] == plans && listings[0..] == listings;
      for i := 0 to |plans|
        invariant IssueEach(secrets, db.tickets, concert, listings[i..], plans[i..]) ==
                  IssueEach(secrets, old(db.tickets), concert, listings, plans)
      {
        assert plans[i..][1..] == plans[i + 1..] && listings[i..][1..] == listings[i + 1..];
        var name := FindLeastLoadedGate(concert, listings[i]);
        CreateTicket(concert, name, plans[i]);
      }
    }

    /** The success webhook: the gate is chosen before the transaction. */
    method IssueWholeOrder(concert: string, names: seq<string>, plans: seq<Plan>)
      modifies db`tickets
      ensures db.tickets == IssueOrder(secrets, old(db.tickets), concert, names, plans)
    {
      var name := FindLeastLoadedGate(concert, names);
      assert plans[0..] == plans;
      for i := 0 to |plans|
        invariant IssueAt(secrets, db.tickets, concert, name, plans[i..]) ==
                    IssueAt(secrets, old(db.tickets), concert, name, plans)
      {
        assert plans[i..][1..] == plans[i + 1..];
        CreateTicket(concert, name, plans[i]);
      }
    }
  }

  lemma OneFirstLeast(loads: seq<nat>, i: nat, j: nat)
    requires FirstLeast(loads, i) && FirstLeast(loads, j)
    ensures i == j
  {
    assert loads[i] <= loads[j] && loads[j] <= loads[i];
  }

  class GateService {
    const db: VenueTables
    const secrets: Secrets

    constructor (db: VenueTables, secrets: Secrets)
      ensures this.db == db && this.secrets == secrets
    {
      this.db, this.secrets := db, secrets;
    }

    method Update(gid: string, name: Option<string>) returns (out: GateOutcome)
      modifies db
      ensures (db.View(), out) == RenameGate(secrets, old(db.View()), gid, name)
    {
      if gid !in db.gates { return NotFound; }
      var gate := db.gates[gid];
      if name.Some? && name.value != gate.name {
        // an empty name skips the look-up, and the unique index refuses it instead
        if NameTaken(db.gates, gate.concert, name.value) { return Conflict; }
      }
      if name.Some? {
        db.gates := db.gates[gid := Gate(gate.concert, name.value)];
      }
      if Filled(name) && name.value != gate.name {
        MoveTickets(gate.name, name.value);
      }
      return Done;
    }

    /** The ids are read first; then each ticket is rewritten and signed anew. */
    method MoveTickets(from: string, to: string)
      modifies db`tickets
      ensures db.tickets == MoveGate(secrets, old(db.tickets), from, to)
    {
      var targets := set id | id in db.tickets && db.tickets[id].gate == Some(from);
      var rest := targets;
      ghost var before := db.tickets;
      while rest != {}
        invariant rest <= targets <= before.Keys && db.tickets.Keys == before.Keys
        invariant forall id :: id in before ==>
                    db.tickets[id] == if id in targets && id !in rest then Regated(secrets, id, before[id], to)
                      else before[id]
      {
        var id :| id in rest;
        var t := db.tickets[id];
        var signature := secrets.sign(id + ":" + t.tokenHash + ":" + to);
        db.tickets := db.tickets[id := t.(gate := Some(to), signature := Some(signature))];
        rest := rest - {id};
      }
    }

    /** `others` is what the query for the concert's other gates returned. */
    method Remove(gid: string, others: seq<string>) returns (out: GateOutcome)
      modifies db
      ensures (db.View(), out) == RemoveGate(secrets, old(db.View()), gid, others)
    {
      if gid !in db.gates { return NotFound; }
      var name := db.gates[gid].name;
      NoneOrSome(db.tickets, name);
      var ticketCount := |set id | id in db.tickets && db.tickets[id].gate == Some(name)|;
      if ticketCount > 0 {
        if |others| == 0 { return BadRequest; }
        MoveTickets(name, others[0]);
      }
      db.gates := db.gates - {gid};
      return Done;
    }

    /** `order` and `names` are what the two queries returned; the first loop plans, the second writes. */
    method RebalanceConcert(concert: string, order: seq<string>, names: seq<string>) returns (total: nat, ok: bool)
      requires ListsIssued(db.tickets, concert, order)
      modifies db`tickets
      ensures ok <==> names != []
      ensures ok ==> db.tickets == Rebalance(secrets, old(db.tickets), order, names)
                     && total == TotalUpdated(old(db.tickets), order, RoundRobin(names, |order|), |order|)
      ensures !ok ==> db.tickets == old(db.tickets) && total == 0
    {
      if |names| == 0 { return 0, false; }
      if |order| == 0 { return 0, true; }
      ghost var tickets := db.tickets;
      ghost var goal := RoundRobin(names, |order|);
      var updates: seq<(string, string)> := [];
      for i := 0 to |order|
        invariant |updates| == TotalUpdated(tickets, order, goal, i)
        invariant ApplyAll(secrets, tickets, updates) == Assign(secrets, tickets, order, goal, i)
        invariant forall u :: u in updates ==> u.0 in tickets
        invariant db.tickets == tickets
      {
        var name := names[i % |names|];
        assert name == goal[i];
        AssignSends(secrets, tickets, order, goal, i);
        if db.tickets[order[i]].gate != Some(name) {
          ApplyAllSnoc(secrets, tickets, updates, (order[i], name));
          updates := updates + [(order[i], name)];
        }
      }
      for k := 0 to |updates|
        invariant db.tickets == ApplyAll(secrets, tickets, updates[..k])
        invariant db.tickets.Keys == tickets.Keys
      {
        assert updates[..k + 1] == updates[..k] + [updates[k]] && updates[k] in updates;
        ApplyAllSnoc(secrets, tickets, updates[..k], updates[k]);
        var (id, name) := updates[k];
        var t := db.tickets[id];
        var signature := secrets.sign(id + ":" + t.tokenHash + ":" + name);
        db.tickets := db.tickets[id := t.(gate := Some(name), signature := Some(signature))];
      }
      assert updates[..|updates|] == updates;
      return |updates|, true;
    }
  }

  lemma NoneOrSome(tickets: map<string, Ticket>, name: string)
    ensures |set id | id in tickets && tickets[id].gate == Some(name)| > 0 <==>
            !(forall id :: id in tickets ==> tickets[id].gate != Some(name))
  {
    var here := set id | id in tickets && tickets[id].gate == Some(name);
    assert forall id :: id in tickets && tickets[id].gate == Some(name) ==> id in here;
    if |here| > 0 {
      var id :| id in here;
    }
  }

  /** A planned list of writes, applied in order. */
  function ApplyAll(c: Secrets, tickets: map<string, Ticket>, updates: seq<(string, string)>): map<string, Ticket> {
    if updates == [] then tickets
    else
      var before := ApplyAll(c, tickets, updates[..|updates| - 1]);
      var (id, name) := updates[|updates| - 1];
      if id in before then before[id := Regated(c, id, before[id], name)] else before
  }

  lemma ApplyAllSnoc(c: Secrets, tickets: map<string, Ticket>, updates: seq<(string, string)>, u: (string, string))
    ensures var before := ApplyAll(c, tickets, updates);
            ApplyAll(c, tickets, updates + [u]) ==
              if u.0 in before then before[u.0 := Regated(c, u.0, before[u.0], u.1)] else before
  {
    assert (updates + [u])[..|updates|] == updates;
  }
}
