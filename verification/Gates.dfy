/** How tickets get, keep and change their gate: least-loaded choice, rename, removal and rebalance. */
module Gates {
  import opened Wrappers
  import opened Venue

  // ------------------------------------------------------------------ the least loaded gate

  predicate CountsAt(t: Ticket, concert: string, name: string) {
    t.concert == concert && (t.status.Issued? || t.status.CheckedIn?) && t.gate == Some(name)
  }

  function AtGate(tickets: map<string, Ticket>, concert: string, name: string): set<string> {
    set id | id in tickets && CountsAt(tickets[id], concert, name)
  }

  function Load(tickets: map<string, Ticket>, concert: string, name: string): nat {
    |AtGate(tickets, concert, name)|
  }

  function Loads(tickets: map<string, Ticket>, concert: string, names: seq<string>): (loads: seq<nat>)
    ensures |loads| == |names| && forall i :: 0 <= i < |names| ==> loads[i] == Load(tickets, concert, names[i])
  {
    if names == [] then [] else [Load(tickets, concert, names[0])] + Loads(tickets, concert, names[1..])
  }

  predicate FirstLeast(loads: seq<nat>, i: nat) {
    && i < |loads|
    && (forall j :: 0 <= j < |loads| ==> loads[i] <= loads[j])
    && (forall j :: 0 <= j < i ==> loads[i] < loads[j])
  }

  /** The index of the smallest load; of equals, the first. */
  function LeastIndex(loads: seq<nat>): (i: nat)
    requires loads != []
    ensures FirstLeast(loads, i)
  {
    if |loads| == 1 then 0
    else
      var i := LeastIndex(loads[..|loads| - 1]);
      if loads[|loads| - 1] < loads[i] then |loads| - 1 else i
  }

  /** The empty name stands for a concert without gates. */
  function LeastLoaded(tickets: map<string, Ticket>, concert: string, names: seq<string>): string {
    if names == [] then "" else names[LeastIndex(Loads(tickets, concert, names))]
  }

  // ------------------------------------------------------------------ issuing

  /** The id and the raw token made for one ticket. */
  datatype Plan = Plan(id: string, rawToken: string)

  function NewTicket(c: Secrets, concert: string, name: string, p: Plan): Ticket {
    var tokenHash := c.hash(p.rawToken);
    Ticket(concert, if name == "" then None else Some(name), p.rawToken, tokenHash,
           Some(Signature(c, p.id, tokenHash, name)), Issued)
  }

  /** The worker asks for the gates, and looks for the least loaded, before each ticket. */
  function IssueEach(c: Secrets, tickets: map<string, Ticket>, concert: string, listings: seq<seq<string>>,
                     plans: seq<Plan>)
    : map<string, Ticket>
    requires |listings| == |plans|
    decreases |plans|
  {
    if plans == [] then tickets
    else
      var t := NewTicket(c, concert, LeastLoaded(tickets, concert, listings[0]), plans[0]);
      IssueEach(c, tickets[plans[0].id := t], concert, listings[1..], plans[1..])
  }

  /** The webhook puts a whole order at one gate. */
  function IssueAt(c: Secrets, tickets: map<string, Ticket>, concert: string, name: string,
                   plans: seq<Plan>): map<string, Ticket>
    decreases |plans|
  {
    if plans == [] then tickets
    else IssueAt(c, tickets[plans[0].id := NewTicket(c, concert, name, plans[0])], concert, name, plans[1..])
  }

  function IssueOrder(c: Secrets, tickets: map<string, Ticket>, concert: string, names: seq<string>,
                      plans: seq<Plan>): map<string, Ticket> {
    IssueAt(c, tickets, concert, LeastLoaded(tickets, concert, names), plans)
  }

  /** What a query for the concert's gates returns: each name once, in an order the code leaves open. */
  ghost predicate ListsGates(names: seq<string>, gates: set<string>) {
    Distinct(names) && forall name :: name in names <==> name in gates
  }

  ghost predicate AllList(listings: seq<seq<string>>, gates: set<string>) {
    forall names :: names in listings ==> ListsGates(names, gates)
  }

  predicate FreshPlans(tickets: map<string, Ticket>, plans: seq<Plan>) {
    && (forall i :: 0 <= i < |plans| ==> plans[i].id !in tickets)
    && (forall i, j :: 0 <= i < j < |plans| ==> plans[i].id != plans[j].id)
  }

  // ------------------------------------------------------------------ moving tickets

  /** A ticket at another gate, signed anew; its token stays. */
  function Regated(c: Secrets, id: string, t: Ticket, name: string): Ticket {
    t.(gate := Some(name), signature := Some(Signature(c, id, t.tokenHash, name)))
  }

  /** Every ticket at a gate of this name, of whatever concert. */
  function MoveGate(c: Secrets, tickets: map<string, Ticket>, from: string, to: string): map<string, Ticket> {
    map id | id in tickets :: if tickets[id].gate == Some(from) then Regated(c, id, tickets[id], to) else tickets[id]
  }

  datatype GateOutcome = Done | NotFound | Conflict | BadRequest

  predicate NameTaken(gates: map<string, Gate>, concert: string, name: string) {
    exists g :: g in gates && gates[g] == Gate(concert, name)
  }

  function CreateGate(v: Venue, gid: string, concert: string, name: string): (Venue, GateOutcome) {
    if NameTaken(v.gates, concert, name) || gid in v.gates then (v, Conflict)
    else (v.(gates := v.gates[gid := Gate(concert, name)]), Done)
  }

  /** update: an absent or empty new name moves no ticket, though an empty one is stored. */
  function RenameGate(c: Secrets, v: Venue, gid: string, name: Option<string>): (Venue, GateOutcome) {
    if gid !in v.gates then (v, NotFound)
    else
      var gate := v.gates[gid];
      var renames := Filled(name) && name.value != gate.name;
      if name.Some? && name.value != gate.name && NameTaken(v.gates, gate.concert, name.value) then (v, Conflict)
      else
        (Venue(if name.Some? then v.gates[gid := Gate(gate.concert, name.value)] else v.gates,
               if renames then MoveGate(c, v.tickets, gate.name, name.value) else v.tickets, v.logs), Done)
  }

  /** remove: `others` are the names of the concert's other gates in name order. */
  function RemoveGate(c: Secrets, v: Venue, gid: string, others: seq<string>): (Venue, GateOutcome) {
    if gid !in v.gates then (v, NotFound)
    else
      var name := v.gates[gid].name;
      if forall id :: id in v.tickets ==> v.tickets[id].gate != Some(name) then (v.(gates := v.gates - {gid}), Done)
      else if others == [] then (v, BadRequest)
      else (Venue(v.gates - {gid}, MoveGate(c, v.tickets, name, others[0]), v.logs), Done)
  }

  // ------------------------------------------------------------------ rebalance

  /** Round robin: the gate for each of n tickets. */
  function RoundRobin(names: seq<string>, n: nat): (goal: seq<string>)
    requires names != []
    ensures |goal| == n && forall i :: 0 <= i < n ==> goal[i] == names[i % |names|]
  {
    if n == 0 then [] else RoundRobin(names, n - 1) + [names[(n - 1) % |names|]]
  }

  predicate Distinct(order: seq<string>) {
    forall i, j :: 0 <= i < j < |order| ==> order[i] != order[j]
  }

  /** The concert's ISSUED tickets, once each, in some order. */
  predicate ListsIssued(tickets: map<string, Ticket>, concert: string, order: seq<string>) {
    && (forall i :: 0 <= i < |order| ==> order[i] in tickets)
    && Distinct(order)
    && (forall id :: id in tickets ==> (id in order <==> tickets[id].concert == concert && tickets[id].status.Issued?))
  }

  predicate Misplaced(tickets: map<string, Ticket>, id: string, gate: string) {
    id in tickets && tickets[id].gate != Some(gate)
  }

  /** The tickets after the first n of the list went to their gates; those already there are not written. */
  function Assign(c: Secrets, tickets: map<string, Ticket>, order: seq<string>, goal: seq<string>,
                  n: nat): map<string, Ticket>
    requires n <= |order| == |goal|
  {
    if n == 0 then tickets
    else
      var before, id := Assign(c, tickets, order, goal, n - 1), order[n - 1];
      if Misplaced(tickets, id, goal[n - 1]) && id in before
           then before[id := Regated(c, id, before[id], goal[n - 1])] else before
  }

  function TotalUpdated(tickets: map<string, Ticket>, order: seq<string>, goal: seq<string>, n: nat): nat
    requires n <= |order| == |goal|
  {
    if n == 0 then 0
    else TotalUpdated(tickets, order, goal, n - 1) + if Misplaced(tickets, order[n - 1], goal[n - 1]) then 1 else 0
  }

  function Rebalance(c: Secrets, tickets: map<string, Ticket>, order: seq<string>,
                     names: seq<string>): map<string, Ticket>
    requires names != []
  {
    Assign(c, tickets, order, RoundRobin(names, |order|), |order|)
  }
}
