/** What rename, removal and rebalance do to tickets already issued. */
module GateMoves {
  import opened Wrappers
  import opened Venue
  import opened Gates
  import opened GateBalance

  // ------------------------------------------------------------------ signatures stay valid

  lemma {:induction false} IssueAtSigns(c: Secrets, tickets: map<string, Ticket>, concert: string, name: string,
                                        plans: seq<Plan>)
    requires Signed(c, tickets)
    ensures Signed(c, IssueAt(c, tickets, concert, name, plans))
    decreases |plans|
  {
    if plans != [] {
      IssueAtSigns(c, tickets[plans[0].id := NewTicket(c, concert, name, plans[0])], concert, name, plans[1..]);
    }
  }

  lemma {:induction false} IssueEachSigns(c: Secrets, tickets: map<string, Ticket>, concert: string,
                                          listings: seq<seq<string>>, plans: seq<Plan>)
    requires |listings| == |plans| && Signed(c, tickets)
    ensures Signed(c, IssueEach(c, tickets, concert, listings, plans))
    decreases |plans|
  {
    if plans != [] {
      var t := NewTicket(c, concert, LeastLoaded(tickets, concert, listings[0]), plans[0]);
      IssueEachSigns(c, tickets[plans[0].id := t], concert, listings[1..], plans[1..]);
    }
  }

  lemma {:induction false} AssignSigns(c: Secrets, tickets: map<string, Ticket>, order: seq<string>, goal: seq<string>,
                                       n: nat)
    requires n <= |order| == |goal| && Signed(c, tickets)
    ensures Signed(c, Assign(c, tickets, order, goal, n))
  {
    if n > 0 {
      AssignSigns(c, tickets, order, goal, n - 1);
    }
  }

  // ------------------------------------------------------------------ rename and removal

  /** The tickets of the old name join those of the new one, concert by concert; none is left behind. */
  lemma MoveMergesGates(c: Secrets, tickets: map<string, Ticket>, from: string, to: string, concert: string)
    requires from != to
    ensures var after := MoveGate(c, tickets, from, to);
            && Load(after, concert, from) == 0
            && Load(after, concert, to) == Load(tickets, concert, from) + Load(tickets, concert, to)
            && forall other :: other != from && other != to ==>
                 Load(after, concert, other) == Load(tickets, concert, other)
  {
    var after := MoveGate(c, tickets, from, to);
    assert AtGate(after, concert, from) == {};
    assert AtGate(after, concert, to) == AtGate(tickets, concert, from) + AtGate(tickets, concert, to);
    forall other | other != from && other != to
      ensures Load(after, concert, other) == Load(tickets, concert, other)
    {
      assert AtGate(after, concert, other) == AtGate(tickets, concert, other);
    }
  }

  /** Renaming back restores every ticket, signature included, exactly when no ticket had the new name before. */
  lemma RenameBackIff(c: Secrets, tickets: map<string, Ticket>, from: string, to: string)
    requires Signed(c, tickets) && from != to
    ensures MoveGate(c, MoveGate(c, tickets, from, to), to, from) == tickets
            <==> forall id :: id in tickets ==> tickets[id].gate != Some(to)
  {
    var back := MoveGate(c, MoveGate(c, tickets, from, to), to, from);
    if forall id :: id in tickets ==> tickets[id].gate != Some(to) {
      forall id | id in tickets
        ensures back[id] == tickets[id]
      {
        assert SignedTicket(c, id, tickets[id]);
      }
    } else {
      var id :| id in tickets && tickets[id].gate == Some(to);
      assert back[id].gate == Some(from);
    }
  }

  /** No two gates of a concert share a name. */
  predicate UniqueNames(gates: map<string, Gate>) {
    forall g, h :: g in gates && h in gates && gates[g] == gates[h] ==> g == h
  }

  predicate HasTicketsAt(tickets: map<string, Ticket>, name: string) {
    exists id :: id in tickets && tickets[id].gate == Some(name)
  }

  /** Exactly the tickets at one gate went to another; nothing but gate and signature changed. */
  predicate Moved(tickets: map<string, Ticket>, after: map<string, Ticket>, from: string, to: string) {
    after.Keys == tickets.Keys && forall id :: id in tickets ==>
        && SameButGate(tickets[id], after[id])
        && after[id].gate == (if tickets[id].gate == Some(from) then Some(to) else tickets[id].gate)
  }

  /** A rename fails exactly on a missing gate or a name its concert has already; else it keeps names unique. */
  lemma RenameOutcome(c: Secrets, v: Venue, gid: string, name: Option<string>)
    requires UniqueNames(v.gates)
    ensures var (v', out) := RenameGate(c, v, gid, name);
            && (out == NotFound <==> gid !in v.gates)
            && (out == Conflict <==> gid in v.gates && name.Some? && exists g ::
                g in v.gates && g != gid && v.gates[g] == Gate(v.gates[gid].concert, name.value))
            && (out != Done ==> v' == v)
            && UniqueNames(v'.gates) && v'.gates.Keys == v.gates.Keys && v'.tickets.Keys == v.tickets.Keys
            && (out == Done && Filled(name) && name.value != v.gates[gid].name ==>
                  && v'.gates == v.gates[gid := Gate(v.gates[gid].concert, name.value)]
                  && !HasTicketsAt(v'.tickets, v.gates[gid].name)
                  && Moved(v.tickets, v'.tickets, v.gates[gid].name, name.value))
            && (out == Done && !(Filled(name) && name.value != v.gates[gid].name) ==> v'.tickets == v.tickets)
  {
  }

  /** A gate is created exactly when no other of its concert has the name, and then nothing else changes. */
  lemma CreationOutcome(v: Venue, gid: string, concert: string, name: string)
    requires gid !in v.gates
    ensures var (v', out) := CreateGate(v, gid, concert, name);
            && (out == Done <==> forall g :: g in v.gates && v.gates[g].concert == concert ==> v.gates[g].name != name)
            && (out != Done ==> out == Conflict && v' == v)
            && (out == Done ==> v' == v.(gates := v.gates[gid := v'.gates[gid]])
                                && v'.gates[gid].concert == concert && v'.gates[gid].name == name)
  {
  }

  /** The names of the other gates of a gate's concert. */
  ghost predicate ListsOthers(gates: map<string, Gate>, gid: string, others: seq<string>)
    requires gid in gates
  {
    forall name :: name in others <==> exists g :: g in gates && g != gid && gates[g] == Gate(gates[gid].concert, name)
  }

  /**
    A removal is refused exactly for the last gate of a concert while tickets carry its name; else none does
    afterwards.
   */
  lemma RemovalOutcome(c: Secrets, v: Venue, gid: string, others: seq<string>)
    requires UniqueNames(v.gates) && gid in v.gates && ListsOthers(v.gates, gid, others)
    ensures var (v', out) := RemoveGate(c, v, gid, others);
            var name := v.gates[gid].name;
            && (out == BadRequest <==> HasTicketsAt(v.tickets, name) && others == [])
            && (out == BadRequest ==> v' == v)
            && (out != BadRequest ==> v'.gates == v.gates - {gid} && !HasTicketsAt(v'.tickets, name))
            && (HasTicketsAt(v.tickets, name) && others != [] ==> Moved(v.tickets, v'.tickets, name, others[0]))
            && (!HasTicketsAt(v.tickets, name) ==> v'.tickets == v.tickets)
            && UniqueNames(v'.gates) && v'.tickets.Keys == v.tickets.Keys
  {
    if others != [] {
      assert others[0] in others;
    }
  }

  // ------------------------------------------------------------------ rebalance

  /** Everything but the gate and its signature. */
  predicate SameButGate(a: Ticket, b: Ticket) {
    b == a.(gate := b.gate, signature := b.signature)
  }

  /** What becomes of one ticket of the list. */
  function Sent(c: Secrets, id: string, t: Ticket, gate: string): Ticket {
    if t.gate == Some(gate) then t else Regated(c, id, t, gate)
  }

  predicate Known(tickets: map<string, Ticket>, order: seq<string>) {
    Distinct(order) && forall i :: 0 <= i < |order| ==> order[i] in tickets
  }

  lemma NextIsNew(order: seq<string>, n: nat)
    requires n < |order| && Distinct(order)
    ensures order[n] !in order[..n] && order[..n + 1] == order[..n] + [order[n]]
  {
  }

  /** After n tickets: those n are where they were sent, the others are as before. */
  predicate SentUpTo(c: Secrets, tickets: map<string, Ticket>, after: map<string, Ticket>, order: seq<string>,
                     goal: seq<string>, n: nat)
    requires n <= |order| == |goal| && Known(tickets, order)
  {
    && after.Keys == tickets.Keys
    && (forall i :: 0 <= i < n ==> after[order[i]] == Sent(c, order[i], tickets[order[i]], goal[i]))
    && (forall id :: id in tickets && id !in order[..n] ==> after[id] == tickets[id])
  }

  lemma SendNext(c: Secrets, tickets: map<string, Ticket>, before: map<string, Ticket>, order: seq<string>,
                 goal: seq<string>, n: nat)
    requires n < |order| == |goal| && Known(tickets, order) && SentUpTo(c, tickets, before, order, goal, n)
    ensures order[n] in before && before[order[n]] == tickets[order[n]]
    ensures SentUpTo(c, tickets, before[order[n] := Sent(c, order[n], tickets[order[n]], goal[n])], order, goal, n + 1)
  {
    NextIsNew(order, n);
    assert order[n] in tickets;
  }

  lemma AssignNext(c: Secrets, tickets: map<string, Ticket>, order: seq<string>, goal: seq<string>, n: nat)
    requires n < |order| == |goal| && order[n] in tickets
    requires var before := Assign(c, tickets, order, goal, n);
            order[n] in before && before[order[n]] == tickets[order[n]]
    ensures Assign(c, tickets, order, goal, n + 1) ==
            Assign(c, tickets, order, goal, n)[order[n] := Sent(c, order[n], tickets[order[n]], goal[n])]
  {
  }

  lemma {:induction false} AssignSends(c: Secrets, tickets: map<string, Ticket>, order: seq<string>, goal: seq<string>,
                                       n: nat)
    requires n <= |order| == |goal| && Known(tickets, order)
    ensures SentUpTo(c, tickets, Assign(c, tickets, order, goal, n), order, goal, n)
  {
    if n > 0 {
      AssignSends(c, tickets, order, goal, n - 1);
      SendNext(c, tickets, Assign(c, tickets, order, goal, n - 1), order, goal, n - 1);
      AssignNext(c, tickets, order, goal, n - 1);
    }
  }

  /** The i-th ticket ends at gate i mod g; no other ticket moves; only gates and their signatures change. */
  lemma RebalanceIsRoundRobin(c: Secrets, tickets: map<string, Ticket>, concert: string, order: seq<string>,
                              names: seq<string>)
    requires names != [] && ListsIssued(tickets, concert, order)
    ensures var after := Rebalance(c, tickets, order, names);
            && after.Keys == tickets.Keys
            && (forall i :: 0 <= i < |order| ==> after[order[i]].gate == Some(names[i % |names|]))
            && (forall id :: id in tickets && id !in order ==> after[id] == tickets[id])
            && (forall id :: id in tickets ==> SameButGate(tickets[id], after[id]))
            && ListsIssued(after, concert, order)
  {
    var after := Rebalance(c, tickets, order, names);
    var goal := RoundRobin(names, |order|);
    AssignSends(c, tickets, order, goal, |order|);
    assert order[..|order|] == order;
    forall id | id in tickets
      ensures SameButGate(tickets[id], after[id])
    {
      if id in order {
        var i :| 0 <= i < |order| && order[i] == id;
        assert after[order[i]] == Sent(c, order[i], tickets[order[i]], goal[i]);
      }
    }
  }

  /** How many of the first n positions fall on slot j of g. */
  function Slots(n: nat, g: nat, j: nat): nat
    requires j < g
  {
    n / g + if j < n % g then 1 else 0
  }

  function SlotMembers(order: seq<string>, g: nat, j: nat, n: nat): set<string>
    requires n <= |order| && j < g
  {
    set i | 0 <= i < n && i % g == j :: order[i]
  }

  lemma SlotsGrow(n: nat, g: nat, j: nat)
    requires j < g
    ensures Slots(n + 1, g, j) == Slots(n, g, j) + if n % g == j then 1 else 0
  {
    var q, r := n / g, n % g;
    assert n == q * g + r;
    if r + 1 < g {
      QuotientIs(n + 1, g, q);
    } else {
      assert (q + 1) * g == q * g + g;
      QuotientIs(n + 1, g, q + 1);
    }
  }

  lemma SlotMembersGrow(order: seq<string>, g: nat, j: nat, n: nat)
    requires n < |order| && j < g && Distinct(order)
    ensures |SlotMembers(order, g, j, n + 1)| == |SlotMembers(order, g, j, n)| + if n % g == j then 1 else 0
  {
    var before := SlotMembers(order, g, j, n);
    assert order[n] !in before;
    assert SlotMembers(order, g, j, n + 1) == before + if n % g == j then {order[n]} else {};
  }

  lemma {:induction false} SlotSizes(order: seq<string>, g: nat, j: nat, n: nat)
    requires n <= |order| && j < g && Distinct(order)
    ensures |SlotMembers(order, g, j, n)| == Slots(n, g, j)
  {
    if n == 0 {
      QuotientIs(0, g, 0);
      assert SlotMembers(order, g, j, 0) == {};
    } else {
      SlotSizes(order, g, j, n - 1);
      SlotsGrow(n - 1, g, j);
      SlotMembersGrow(order, g, j, n - 1);
    }
  }

  /** ISSUED tickets of a concert at a gate. */
  function IssuedAt(tickets: map<string, Ticket>, concert: string, name: string): set<string> {
    set id | id in tickets && tickets[id].concert == concert && tickets[id].status.Issued? && tickets[id].gate ==
      Some(name)
  }

  lemma IssuedAtIsSlot(c: Secrets, tickets: map<string, Ticket>, concert: string, order: seq<string>,
                       names: seq<string>, j: nat)
    requires Distinct(names) && j < |names| && ListsIssued(tickets, concert, order)
    ensures IssuedAt(Rebalance(c, tickets, order, names), concert, names[j]) == SlotMembers(order, |names|, j, |order|)
  {
    var after := Rebalance(c, tickets, order, names);
    RebalanceIsRoundRobin(c, tickets, concert, order, names);
    forall id | id in IssuedAt(after, concert, names[j])
      ensures id in SlotMembers(order, |names|, j, |order|)
    {
      assert id in order;
      var i :| 0 <= i < |order| && order[i] == id;
      assert names[i % |names|] == names[j];
      assert i % |names| == j;
    }
    forall id | id in SlotMembers(order, |names|, j, |order|)
      ensures id in IssuedAt(after, concert, names[j])
    {
      var i :| 0 <= i < |order| && i % |names| == j && order[i] == id;
      assert order[i] in order;
    }
  }

  /** Exactly how many ISSUED tickets each gate has afterwards; any two gates differ by at most one. */
  lemma RebalanceIsEven(c: Secrets, tickets: map<string, Ticket>, concert: string, order: seq<string>,
                        names: seq<string>, i: nat, j: nat)
    requires Distinct(names) && i < |names| && j < |names| && ListsIssued(tickets, concert, order)
    ensures var after := Rebalance(c, tickets, order, names);
            && |IssuedAt(after, concert, names[i])| == Slots(|order|, |names|, i)
            && |IssuedAt(after, concert, names[i])| <= |IssuedAt(after, concert, names[j])| + 1
  {
    IssuedAtIsSlot(c, tickets, concert, order, names, i);
    IssuedAtIsSlot(c, tickets, concert, order, names, j);
    SlotSizes(order, |names|, i, |order|);
    SlotSizes(order, |names|, j, |order|);
  }

  function Changed(a: map<string, Ticket>, b: map<string, Ticket>): set<string> {
    set id | id in a && id in b && a[id].gate != b[id].gate
  }

  lemma ChangedGrows(tickets: map<string, Ticket>, before: map<string, Ticket>, id: string, t: Ticket)
    requires id in tickets && id in before && before[id] == tickets[id]
    ensures |Changed(tickets, before[id := t])| ==
              |Changed(tickets, before)| + if t.gate != tickets[id].gate then 1 else 0
  {
    assert Changed(tickets, before[id := t]) == Changed(tickets, before) + if t.gate != tickets[id].gate then {id}
             else {};
  }

  lemma ChangedNext(c: Secrets, tickets: map<string, Ticket>, order: seq<string>, goal: seq<string>, n: nat)
    requires n < |order| == |goal| && Known(tickets, order)
    ensures |Changed(tickets, Assign(c, tickets, order, goal, n + 1))| ==
            |Changed(tickets, Assign(c, tickets, order, goal, n))| +
              if Misplaced(tickets, order[n], goal[n]) then 1 else 0
  {
    var before, id := Assign(c, tickets, order, goal, n), order[n];
    AssignSends(c, tickets, order, goal, n);
    SendNext(c, tickets, before, order, goal, n);
    AssignNext(c, tickets, order, goal, n);
    ChangedGrows(tickets, before, id, Sent(c, id, tickets[id], goal[n]));
  }

  lemma {:induction false} UpdatedIsChanged(c: Secrets, tickets: map<string, Ticket>, order: seq<string>,
                                            goal: seq<string>, n: nat)
    requires n <= |order| == |goal| && Known(tickets, order)
    ensures |Changed(tickets, Assign(c, tickets, order, goal, n))| == TotalUpdated(tickets, order, goal, n)
  {
    if n == 0 {
      assert Changed(tickets, tickets) == {};
    } else {
      UpdatedIsChanged(c, tickets, order, goal, n - 1);
      ChangedNext(c, tickets, order, goal, n - 1);
    }
  }

  /** The reported total is the number of tickets whose gate changed. */
  lemma TotalIsChanged(c: Secrets, tickets: map<string, Ticket>, concert: string, order: seq<string>,
                       names: seq<string>)
    requires names != [] && ListsIssued(tickets, concert, order)
    ensures |Changed(tickets, Rebalance(c, tickets, order, names))| ==
              TotalUpdated(tickets, order, RoundRobin(names, |order|), |order|)
  {
    UpdatedIsChanged(c, tickets, order, RoundRobin(names, |order|), |order|);
  }

  lemma {:induction false} NothingMisplaced(c: Secrets, tickets: map<string, Ticket>, order: seq<string>,
                                            goal: seq<string>, n: nat)
    requires n <= |order| == |goal| && forall i :: 0 <= i < n ==> !Misplaced(tickets, order[i], goal[i])
    ensures TotalUpdated(tickets, order, goal, n) == 0 && Assign(c, tickets, order, goal, n) == tickets
  {
    if n > 0 {
      NothingMisplaced(c, tickets, order, goal, n - 1);
    }
  }

  /** A second run over the same list updates nothing. */
  lemma SecondRunIsIdle(c: Secrets, tickets: map<string, Ticket>, concert: string, order: seq<string>,
                        names: seq<string>)
    requires names != [] && ListsIssued(tickets, concert, order)
    ensures var after := Rebalance(c, tickets, order, names);
            Rebalance(c, after, order, names) == after &&
              TotalUpdated(after, order, RoundRobin(names, |order|), |order|) == 0
  {
    RebalanceIsRoundRobin(c, tickets, concert, order, names);
    NothingMisplaced(c, Rebalance(c, tickets, order, names), order, RoundRobin(names, |order|), |order|);
  }
}
