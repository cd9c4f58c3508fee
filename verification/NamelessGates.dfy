/** What a gate renamed to the empty string does to the tickets issued afterwards. */
module NamelessGates {
  import opened Wrappers
  import opened Sums
  import opened Venue
  import opened Gates
  import opened GateBalance

  function NamesOf(gates: map<string, Gate>, concert: string): set<string> {
    set g | g in gates && gates[g].concert == concert :: gates[g].name
  }

  /** The rename that stores the empty name goes through unless its concert has one already, and moves no ticket. */
  lemma RenamedToNothing(c: Secrets, v: Venue, gid: string)
    requires gid in v.gates && v.gates[gid].name != ""
    ensures var (v', out) := RenameGate(c, v, gid, Some(""));
            var concert := v.gates[gid].concert;
            && (out == Done <==> "" !in NamesOf(v.gates, concert))
            && "" in NamesOf(v'.gates, concert) && v'.tickets == v.tickets
  {
    var concert := v.gates[gid].concert;
    var v' := RenameGate(c, v, gid, Some("")).0;
    if "" in NamesOf(v.gates, concert) {
      var g :| g in v.gates && v.gates[g].concert == concert && v.gates[g].name == "";
      assert v.gates[g] == Gate(concert, "");
    } else {
      assert gid in v'.gates && v'.gates[gid] == Gate(concert, "");
    }
  }

  /** The gate chosen for each ticket. */
  function Chosen(c: Secrets, tickets: map<string, Ticket>, concert: string, listings: seq<seq<string>>,
                  plans: seq<Plan>): (names: seq<string>)
    requires |listings| == |plans|
    ensures |names| == |plans|
    decreases |plans|
  {
    if plans == [] then []
    else
      var name := LeastLoaded(tickets, concert, listings[0]);
      [name] + Chosen(c, tickets[plans[0].id := NewTicket(c, concert, name, plans[0])], concert, listings[1..],
        plans[1..])
  }

  lemma {:induction false} LaterKeep(c: Secrets, tickets: map<string, Ticket>, concert: string,
                                     listings: seq<seq<string>>, plans: seq<Plan>, id: string)
    requires |listings| == |plans| && id in tickets && forall i :: 0 <= i < |plans| ==> plans[i].id != id
    ensures var after := IssueEach(c, tickets, concert, listings, plans); id in after && after[id] == tickets[id]
    decreases |plans|
  {
    if plans != [] {
      var t := NewTicket(c, concert, LeastLoaded(tickets, concert, listings[0]), plans[0]);
      LaterKeep(c, tickets[plans[0].id := t], concert, listings[1..], plans[1..], id);
    }
  }

  /** Every ticket ends with its own token and the gate chosen for it, or with none if that was the nameless one. */
  lemma {:induction false} TicketsGetChosen(c: Secrets, tickets: map<string, Ticket>, concert: string,
                                            listings: seq<seq<string>>,
                                            plans: seq<Plan>, i: nat)
    requires |listings| == |plans| && FreshPlans(tickets, plans) && i < |plans|
    ensures var after := IssueEach(c, tickets, concert, listings, plans);
            var name := Chosen(c, tickets, concert, listings, plans)[i];
            && plans[i].id in after && after[plans[i].id].gate == (if name == "" then None else Some(name))
            && after[plans[i].id].rawToken == plans[i].rawToken && after[plans[i].id].concert == concert
            && after[plans[i].id].status.Issued?
    decreases |plans|
  {
    var t := NewTicket(c, concert, LeastLoaded(tickets, concert, listings[0]), plans[0]);
    var first := tickets[plans[0].id := t];
    if i == 0 {
      LaterKeep(c, first, concert, listings[1..], plans[1..], plans[0].id);
    } else {
      FreshRest(tickets, plans, t);
      TicketsGetChosen(c, first, concert, listings[1..], plans[1..], i - 1);
    }
  }

  /** The webhook's tickets all end with their own tokens at the one gate it chose; no other ticket changes. */
  lemma {:induction false} OrderGetsOneGate(c: Secrets, tickets: map<string, Ticket>, concert: string, name: string,
                                            plans: seq<Plan>)
    requires FreshPlans(tickets, plans)
    ensures var after := IssueAt(c, tickets, concert, name, plans);
            && (forall id :: id in tickets ==> id in after && after[id] == tickets[id])
            && forall i :: 0 <= i < |plans| ==>
                 && plans[i].id in after && after[plans[i].id].gate == (if name == "" then None else Some(name))
                 && after[plans[i].id].rawToken == plans[i].rawToken && after[plans[i].id].concert == concert
                 && after[plans[i].id].status.Issued?
    decreases |plans|
  {
    if plans != [] {
      var t := NewTicket(c, concert, name, plans[0]);
      FreshRest(tickets, plans, t);
      OrderGetsOneGate(c, tickets[plans[0].id := t], concert, name, plans[1..]);
    }
  }

  predicate Named(name: string) {
    name != ""
  }

  // ------------------------------------------------------------------ how many still get a named gate

  function Short(limit: nat, load: nat): nat {
    if load > limit then 0 else limit + 1 - load
  }

  /** What the named gates are short of having more tickets than the nameless one. */
  function Deficit(tickets: map<string, Ticket>, concert: string, all: seq<string>, limit: nat): nat {
    if all == [] then 0
    else (if Named(all[0]) then Short(limit, Load(tickets, concert, all[0])) else 0) +
           Deficit(tickets, concert, all[1..], limit)
  }

  lemma {:induction false} DeficitSame(a: map<string, Ticket>, b: map<string, Ticket>, concert: string,
                                       all: seq<string>, limit: nat)
    requires forall g :: g in all ==> Load(a, concert, g) == Load(b, concert, g)
    ensures Deficit(a, concert, all, limit) == Deficit(b, concert, all, limit)
  {
    if all != [] {
      assert all[0] in all;
      DeficitSame(a, b, concert, all[1..], limit);
    }
  }

  lemma {:induction false} DeficitShrinks(a: map<string, Ticket>, b: map<string, Ticket>, concert: string,
                                          all: seq<string>, name: string, limit: nat)
    requires Distinct(all) && name in all && Named(name) && Load(a, concert, name) <= limit
    requires forall g :: g in all ==> Load(b, concert, g) == Load(a, concert, g) + if g == name then 1 else 0
    ensures Deficit(b, concert, all, limit) + 1 == Deficit(a, concert, all, limit)
  {
    assert all[0] in all;
    if all[0] == name {
      forall g | g in all[1..]
        ensures Load(a, concert, g) == Load(b, concert, g)
      {
        var i :| 0 <= i < |all[1..]| && all[1..][i] == g;
        assert all[i + 1] != all[0];
      }
      DeficitSame(a, b, concert, all[1..], limit);
    } else {
      DeficitShrinks(a, b, concert, all[1..], name, limit);
    }
  }

  /** One more ticket: at the nameless gate nothing moves, at a named one the deficit shrinks by one. */
  lemma IssueShrinks(c: Secrets, tickets: map<string, Ticket>, concert: string, names: seq<string>, gates: set<string>,
                     all: seq<string>, p: Plan)
    requires ListsGates(names, gates) && ListsGates(all, gates) && "" in gates && p.id !in tickets
    ensures var name := LeastLoaded(tickets, concert, names);
            var after := tickets[p.id := NewTicket(c, concert, name, p)];
            && Load(after, concert, "") == Load(tickets, concert, "")
            && Deficit(tickets, concert, all, Load(tickets, concert, ""))
               == Deficit(after, concert, all, Load(tickets, concert, "")) + if Named(name) then 1 else 0
  {
    var name := LeastLoaded(tickets, concert, names);
    var after := tickets[p.id := NewTicket(c, concert, name, p)];
    ChosenIsLeast(tickets, concert, names, gates);
    forall g
      ensures Load(after, concert, g) == Load(tickets, concert, g) + if g == name && g != "" then 1 else 0
    {
      IssueMovesLoad(c, tickets, concert, name, p, g);
    }
    if Named(name) {
      DeficitShrinks(tickets, after, concert, all, name, Load(tickets, concert, ""));
    } else {
      DeficitSame(tickets, after, concert, all, Load(tickets, concert, ""));
    }
  }

  /** With a nameless gate, however many tickets are issued, no more than the deficit get a named gate. */
  lemma {:induction false} FewGetNamed(c: Secrets, tickets: map<string, Ticket>, concert: string,
                                       listings: seq<seq<string>>,
                                       plans: seq<Plan>, gates: set<string>, all: seq<string>)
    requires |listings| == |plans| && AllList(listings, gates) && ListsGates(all, gates) && "" in gates
    requires FreshPlans(tickets, plans)
    ensures CountIf(Chosen(c, tickets, concert, listings, plans), Named) <= Deficit(tickets, concert, all,
              Load(tickets, concert, ""))
    decreases |plans|
  {
    if plans != [] {
      assert listings[0] in listings;
      var name := LeastLoaded(tickets, concert, listings[0]);
      IssueShrinks(c, tickets, concert, listings[0], gates, all, plans[0]);
      FreshRest(tickets, plans, NewTicket(c, concert, name, plans[0]));
      FewGetNamed(c, tickets[plans[0].id := NewTicket(c, concert, name, plans[0])], concert, listings[1..], plans[1..],
        gates, all);
    }
  }

  // ------------------------------------------------------------------ exactly when all get one

  ghost predicate Ready(tickets: map<string, Ticket>, listings: seq<seq<string>>, plans: seq<Plan>,
                        gates: set<string>) {
    |listings| == |plans| && AllList(listings, gates) && FreshPlans(tickets, plans)
  }

  /** Whatever the worker issues gets a named gate. */
  ghost predicate AllGetNamed(c: Secrets, tickets: map<string, Ticket>, concert: string, gates: set<string>) {
    forall listings, plans :: Ready(tickets, listings, plans, gates) ==>
      forall name :: name in Chosen(c, tickets, concert, listings, plans) ==> Named(name)
  }

  lemma {:induction false} NamedGatesSuffice(c: Secrets, tickets: map<string, Ticket>, concert: string,
                                             listings: seq<seq<string>>,
                                             plans: seq<Plan>, gates: set<string>)
    requires Ready(tickets, listings, plans, gates) && gates != {} && "" !in gates
    ensures forall name :: name in Chosen(c, tickets, concert, listings, plans) ==> Named(name)
    decreases |plans|
  {
    if plans != [] {
      assert listings[0] in listings;
      var name := LeastLoaded(tickets, concert, listings[0]);
      ChosenIsLeast(tickets, concert, listings[0], gates);
      FreshRest(tickets, plans, NewTicket(c, concert, name, plans[0]));
      NamedGatesSuffice(c, tickets[plans[0].id := NewTicket(c, concert, name, plans[0])], concert, listings[1..],
        plans[1..], gates);
    }
  }

  function Long(n: nat): (s: string)
    ensures |s| == n
  {
    if n == 0 then "" else "x" + Long(n - 1)
  }

  lemma {:induction false} LongerThanAll(ids: set<string>) returns (n: nat)
    ensures forall id :: id in ids ==> |id| < n
    decreases ids
  {
    if ids == {} {
      n := 0;
    } else {
      var id :| id in ids;
      n := LongerThanAll(ids - {id});
      n := if n <= |id| then |id| + 1 else n;
    }
  }

  /** There are always n new ids. */
  lemma PlansExist(tickets: map<string, Ticket>, n: nat) returns (plans: seq<Plan>)
    ensures |plans| == n && FreshPlans(tickets, plans)
  {
    var longest := LongerThanAll(tickets.Keys);
    plans := [];
    for i := 0 to n
      invariant |plans| == i
      invariant forall j :: 0 <= j < i ==> |plans[j].id| == longest + j
    {
      plans := plans + [Plan(Long(longest + i), "")];
    }
  }

  lemma {:induction false} ListingExists(gates: set<string>) returns (all: seq<string>)
    ensures ListsGates(all, gates)
    decreases gates
  {
    if gates == {} {
      all := [];
    } else {
      var g :| g in gates;
      var rest := ListingExists(gates - {g});
      all := [g] + rest;
      assert forall i :: 0 <= i < |rest| ==> rest[i] in rest;
    }
  }

  lemma {:induction false} CountBelow<T>(s: seq<T>, p: T -> bool)
    requires CountIf(s, p) < |s|
    ensures exists x :: x in s && !p(x)
  {
    if p(s[0]) {
      CountBelow(s[1..], p);
    }
  }

  /** An order long enough has a ticket without a gate. */
  lemma SomeoneGetsNone(c: Secrets, tickets: map<string, Ticket>, concert: string, gates: set<string>)
    requires gates == {} || "" in gates
    ensures !AllGetNamed(c, tickets, concert, gates)
  {
    if gates == {} {
      var plans := PlansExist(tickets, 1);
      var listings: seq<seq<string>> := [[]];
      var chosen := Chosen(c, tickets, concert, listings, plans);
      assert Ready(tickets, listings, plans, gates);
      assert chosen[0] == "" && chosen[0] in chosen;
    } else {
      var all := ListingExists(gates);
      var n := Deficit(tickets, concert, all, Load(tickets, concert, "")) + 1;
      var plans := PlansExist(tickets, n);
      var listings := Same(all, n);
      assert Ready(tickets, listings, plans, gates);
      FewGetNamed(c, tickets, concert, listings, plans, gates, all);
      CountBelow(Chosen(c, tickets, concert, listings, plans), Named);
    }
  }

  function Same(all: seq<string>, n: nat): (listings: seq<seq<string>>)
    ensures |listings| == n && forall names :: names in listings ==> names == all
  {
    if n == 0 then [] else [all] + Same(all, n - 1)
  }

  /** Every ticket of every order gets a named gate if and only if there are gates and all of them have names. */
  lemma AllGetNamedIff(c: Secrets, tickets: map<string, Ticket>, concert: string, gates: set<string>)
    ensures AllGetNamed(c, tickets, concert, gates) <==> gates != {} && "" !in gates
  {
    if gates == {} || "" in gates {
      SomeoneGetsNone(c, tickets, concert, gates);
    } else {
      forall listings, plans | Ready(tickets, listings, plans, gates)
        ensures forall name :: name in Chosen(c, tickets, concert, listings, plans) ==> Named(name)
      {
        NamedGatesSuffice(c, tickets, concert, listings, plans, gates);
      }
    }
  }
}
