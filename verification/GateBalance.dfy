/** How evenly tickets spread over the gates of a concert. */
module GateBalance {
  import opened Venue
  import opened Gates

  function Max(a: nat, b: nat): nat { if a < b then b else a }

  /** No two gates differ by more than k tickets. */
  predicate GapAtMost(tickets: map<string, Ticket>, concert: string, gates: set<string>, k: nat) {
    forall g, h :: g in gates && h in gates ==> Load(tickets, concert, g) <= Load(tickets, concert, h) + k
  }

  // ------------------------------------------------------------------ issuing

  /** The chosen gate is one of the concert's, and none has fewer tickets. */
  lemma ChosenIsLeast(tickets: map<string, Ticket>, concert: string, names: seq<string>, gates: set<string>)
    requires ListsGates(names, gates) && gates != {}
    ensures LeastLoaded(tickets, concert, names) in gates
    ensures forall g :: g in gates ==> Load(tickets, concert, LeastLoaded(tickets, concert, names)) <= Load(tickets,
              concert, g)
  {
    var some :| some in gates;
    assert some in names;
    var loads := Loads(tickets, concert, names);
    var least := LeastIndex(loads);
    assert names[least] in names;
    forall g | g in gates
      ensures loads[least] <= Load(tickets, concert, g)
    {
      assert g in names;
      var i :| 0 <= i < |names| && names[i] == g;
      assert loads[least] <= loads[i];
    }
  }

  lemma AddMovesLoad(tickets: map<string, Ticket>, id: string, t: Ticket, concert: string, name: string)
    requires id !in tickets
    ensures Load(tickets[id := t], concert, name) ==
              Load(tickets, concert, name) + if CountsAt(t, concert, name) then 1 else 0
  {
    var before, after := AtGate(tickets, concert, name), AtGate(tickets[id := t], concert, name);
    if CountsAt(t, concert, name) {
      assert after == before + {id};
    } else {
      assert after == before;
    }
  }

  lemma IssueMovesLoad(c: Secrets, tickets: map<string, Ticket>, concert: string, name: string, p: Plan, other: string)
    requires p.id !in tickets
    ensures Load(tickets[p.id := NewTicket(c, concert, name, p)], concert, other) ==
            Load(tickets, concert, other) + if other == name && name != "" then 1 else 0
  {
    var t := NewTicket(c, concert, name, p);
    assert CountsAt(t, concert, other) <==> other == name && name != "";
    AddMovesLoad(tickets, p.id, t, concert, other);
  }

  lemma {:induction false} IssueAtMovesLoad(c: Secrets, tickets: map<string, Ticket>, concert: string, name: string,
                                            plans: seq<Plan>, other: string)
    requires FreshPlans(tickets, plans)
    ensures Load(IssueAt(c, tickets, concert, name, plans), concert, other) ==
            Load(tickets, concert, other) + if other == name && name != "" then |plans| else 0
    decreases |plans|
  {
    if plans != [] {
      IssueMovesLoad(c, tickets, concert, name, plans[0], other);
      IssueAtMovesLoad(c, tickets[plans[0].id := NewTicket(c, concert, name, plans[0])], concert, name, plans[1..],
        other);
    }
  }

  /** A whole order at the least loaded gate: the gap grows no further than the size of the order. */
  lemma OrderKeepsGap(c: Secrets, tickets: map<string, Ticket>, concert: string, names: seq<string>, plans: seq<Plan>,
                      gates: set<string>, k: nat)
    requires ListsGates(names, gates) && "" !in gates && FreshPlans(tickets, plans)
    requires GapAtMost(tickets, concert, gates, k)
    ensures GapAtMost(IssueOrder(c, tickets, concert, names, plans), concert, gates, Max(k, |plans|))
  {
    if gates != {} {
      var least := LeastLoaded(tickets, concert, names);
      var after := IssueOrder(c, tickets, concert, names, plans);
      ChosenIsLeast(tickets, concert, names, gates);
      forall g, h | g in gates && h in gates
        ensures Load(after, concert, g) <= Load(after, concert, h) + Max(k, |plans|)
      {
        IssueAtMovesLoad(c, tickets, concert, least, plans, g);
        IssueAtMovesLoad(c, tickets, concert, least, plans, h);
      }
    }
  }

  lemma IssueOneIsOrderOfOne(c: Secrets, tickets: map<string, Ticket>, concert: string, names: seq<string>, p: Plan)
    ensures IssueOrder(c, tickets, concert, names, [p]) ==
            tickets[p.id := NewTicket(c, concert, LeastLoaded(tickets, concert, names), p)]
  {
    var name := LeastLoaded(tickets, concert, names);
    var after := tickets[p.id := NewTicket(c, concert, name, p)];
    assert IssueAt(c, tickets, concert, name, [p]) == IssueAt(c, after, concert, name, []) by { assert [p][1..] == []; }
  }

  /** The worker's choice ticket by ticket: no gap above one arises. */
  lemma {:induction false} EachKeepsGap(c: Secrets, tickets: map<string, Ticket>, concert: string,
                                        listings: seq<seq<string>>,
                                        plans: seq<Plan>, gates: set<string>, k: nat)
    requires |listings| == |plans| && AllList(listings, gates) && "" !in gates
    requires FreshPlans(tickets, plans) && GapAtMost(tickets, concert, gates, k)
    ensures GapAtMost(IssueEach(c, tickets, concert, listings, plans), concert, gates, Max(k, 1))
    decreases |plans|
  {
    if plans != [] {
      assert listings[0] in listings;
      OrderKeepsGap(c, tickets, concert, listings[0], [plans[0]], gates, k);
      IssueOneIsOrderOfOne(c, tickets, concert, listings[0], plans[0]);
      EachKeepsGap(c, IssueOrder(c, tickets, concert, listings[0], [plans[0]]), concert, listings[1..], plans[1..],
        gates, Max(k, 1));
    }
  }

  /** Any run of orders, each issued by the worker or by the webhook. */
  datatype Issue =
    | ByWorker(plans: seq<Plan>, listings: seq<seq<string>>)
    | ByWebhook(plans: seq<Plan>, names: seq<string>)

  ghost predicate Issuable(tickets: map<string, Ticket>, e: Issue, gates: set<string>) {
    && FreshPlans(tickets, e.plans)
    && match e
       case ByWorker(plans, listings) => |listings| == |plans| && AllList(listings, gates)
       case ByWebhook(_, names) => ListsGates(names, gates)
  }

  function IssueOne(c: Secrets, tickets: map<string, Ticket>, concert: string, e: Issue): map<string, Ticket> {
    match e
    case ByWorker(plans, listings) => if |listings| ==
                |plans| then IssueEach(c, tickets, concert, listings, plans) else tickets
    case ByWebhook(plans, names) => IssueOrder(c, tickets, concert, names, plans)
  }

  function IssueAll(c: Secrets, tickets: map<string, Ticket>, concert: string, run: seq<Issue>): map<string, Ticket>
    decreases |run|
  {
    if run == [] then tickets else IssueAll(c, IssueOne(c, tickets, concert, run[0]), concert, run[1..])
  }

  ghost predicate IssuableRun(c: Secrets, tickets: map<string, Ticket>, concert: string, run: seq<Issue>,
                              gates: set<string>)
    decreases |run|
  {
    run == [] ||
    (Issuable(tickets, run[0], gates) && IssuableRun(c, IssueOne(c, tickets, concert, run[0]), concert, run[1..],
      gates))
  }

  lemma OneKeepsGap(c: Secrets, tickets: map<string, Ticket>, concert: string, e: Issue, gates: set<string>, k: nat)
    requires Issuable(tickets, e, gates) && "" !in gates && GapAtMost(tickets, concert, gates, k)
    requires k >= 1 && (e.ByWebhook? ==> |e.plans| <= k)
    ensures GapAtMost(IssueOne(c, tickets, concert, e), concert, gates, k)
  {
    match e
    case ByWorker(plans, listings) => EachKeepsGap(c, tickets, concert, listings, plans, gates, k);
    case ByWebhook(plans, names) => OrderKeepsGap(c, tickets, concert, names, plans, gates, k);
  }

  /** With webhook orders of at most q tickets the gap never exceeds the larger of q, one and what it was. */
  lemma {:induction false} RunKeepsGap(c: Secrets, tickets: map<string, Ticket>, concert: string, run: seq<Issue>,
                                       gates: set<string>, q: nat, k: nat)
    requires IssuableRun(c, tickets, concert, run, gates) && "" !in gates && GapAtMost(tickets, concert, gates, k)
    requires k >= 1 && k >= q && forall e :: e in run && e.ByWebhook? ==> |e.plans| <= q
    ensures GapAtMost(IssueAll(c, tickets, concert, run), concert, gates, k)
    decreases |run|
  {
    if run != [] {
      assert run[0] in run;
      OneKeepsGap(c, tickets, concert, run[0], gates, k);
      RunKeepsGap(c, IssueOne(c, tickets, concert, run[0]), concert, run[1..], gates, q, k);
    }
  }

  // ------------------------------------------------------------------ floor and ceiling

  function Total(loads: seq<nat>): nat {
    if loads == [] then 0 else loads[0] + Total(loads[1..])
  }

  /** How many loads are above lo. */
  function Highs(loads: seq<nat>, lo: nat): (n: nat)
    ensures n <= |loads|
  {
    if loads == [] then 0 else (if loads[0] > lo then 1 else 0) + Highs(loads[1..], lo)
  }

  lemma {:induction false} TotalIs(loads: seq<nat>, lo: nat)
    requires forall i :: 0 <= i < |loads| ==> lo <= loads[i] <= lo + 1
    ensures Total(loads) == lo * |loads| + Highs(loads, lo)
  {
    if loads != [] {
      TotalIs(loads[1..], lo);
      assert lo * |loads| == lo + lo * |loads[1..]|;
    }
  }

  lemma {:induction false} HighsSees(loads: seq<nat>, lo: nat, i: nat)
    requires i < |loads|
    ensures if loads[i] > lo then Highs(loads, lo) > 0 else Highs(loads, lo) < |loads|
  {
    if i > 0 {
      HighsSees(loads[1..], lo, i - 1);
    }
  }

  lemma TimesIsMonotone(a: nat, b: nat, g: nat)
    requires a <= b
    ensures a * g <= b * g
  {
  }

  lemma QuotientIs(n: nat, g: nat, q: nat)
    requires g > 0 && q * g <= n < (q + 1) * g
    ensures n / g == q && n % g == n - q * g
  {
    var d := n / g;
    assert d * g <= n < (d + 1) * g;
    if d < q { TimesIsMonotone(d + 1, q, g); }
    if d > q { TimesIsMonotone(q + 1, d, g); }
  }

  predicate FloorOrCeiling(load: nat, n: nat, g: nat)
    requires g > 0
  {
    load == n / g || (load == n / g + 1 && n % g != 0)
  }

  lemma SplitIsFloorOrCeiling(lo: nat, high: nat, n: nat, g: nat, load: nat)
    requires n == lo * g + high && high < g
    requires load == lo || (load == lo + 1 && high > 0)
    ensures FloorOrCeiling(load, n, g)
  {
    assert (lo + 1) * g == lo * g + g;
    QuotientIs(n, g, lo);
  }

  /** Loads that differ by at most one are the floor or the ceiling of the mean. */
  lemma EvenSplit(loads: seq<nat>, i: nat, n: nat, g: nat)
    requires i < |loads| == g && Total(loads) == n
    requires forall a, b :: 0 <= a < |loads| && 0 <= b < |loads| ==> loads[a] <= loads[b] + 1
    ensures FloorOrCeiling(loads[i], n, g)
  {
    var least := LeastIndex(loads);
    var lo := loads[least];
    TotalIs(loads, lo);
    HighsSees(loads, lo, least);
    HighsSees(loads, lo, i);
    SplitIsFloorOrCeiling(lo, Highs(loads, lo), n, g, loads[i]);
  }

  lemma {:induction false} TotalGrows(a: seq<nat>, b: seq<nat>, k: nat, more: nat)
    requires |a| == |b| && k < |a| && b[k] == a[k] + more && forall i :: 0 <= i < |a| && i != k ==> a[i] == b[i]
    ensures Total(b) == Total(a) + more
  {
    if k == 0 {
      assert a[1..] == b[1..];
    } else {
      TotalGrows(a[1..], b[1..], k - 1, more);
    }
  }

  /** One more ticket at one of the gates is one more in all, in whatever order they are added up. */
  lemma OneCounts(c: Secrets, tickets: map<string, Ticket>, concert: string, all: seq<string>, name: string, p: Plan)
    requires Distinct(all) && name in all && name != "" && p.id !in tickets
    ensures Total(Loads(tickets[p.id := NewTicket(c, concert, name, p)], concert, all)) ==
              Total(Loads(tickets, concert, all)) + 1
  {
    var before := Loads(tickets, concert, all);
    var after := Loads(tickets[p.id := NewTicket(c, concert, name, p)], concert, all);
    var k :| 0 <= k < |all| && all[k] == name;
    forall i | 0 <= i < |all|
      ensures after[i] == before[i] + if i == k then 1 else 0
    {
      IssueMovesLoad(c, tickets, concert, name, p, all[i]);
    }
    TotalGrows(before, after, k, 1);
  }

  lemma FreshRest(tickets: map<string, Ticket>, plans: seq<Plan>, t: Ticket)
    requires plans != [] && FreshPlans(tickets, plans)
    ensures FreshPlans(tickets[plans[0].id := t], plans[1..])
  {
  }

  /** Each ticket the worker issues is at one of the gates. */
  lemma {:induction false} EachCounts(c: Secrets, tickets: map<string, Ticket>, concert: string,
                                      listings: seq<seq<string>>,
                                      plans: seq<Plan>, gates: set<string>, all: seq<string>)
    requires |listings| == |plans| && AllList(listings, gates) && ListsGates(all, gates) && "" !in gates && gates != {}
    requires FreshPlans(tickets, plans)
    ensures Total(Loads(IssueEach(c, tickets, concert, listings, plans), concert, all)) ==
              Total(Loads(tickets, concert, all)) + |plans|
    decreases |plans|
  {
    if plans != [] {
      assert listings[0] in listings;
      var name := LeastLoaded(tickets, concert, listings[0]);
      ChosenIsLeast(tickets, concert, listings[0], gates);
      assert name in all && name != "";
      OneCounts(c, tickets, concert, all, name, plans[0]);
      var after := tickets[plans[0].id := NewTicket(c, concert, name, plans[0])];
      FreshRest(tickets, plans, after[plans[0].id]);
      EachCounts(c, after, concert, listings[1..], plans[1..], gates, all);
    }
  }

  lemma {:induction false} TotalOfZeros(loads: seq<nat>)
    requires forall i :: 0 <= i < |loads| ==> loads[i] == 0
    ensures Total(loads) == 0
  {
    if loads != [] {
      TotalOfZeros(loads[1..]);
    }
  }

  predicate AllEmpty(tickets: map<string, Ticket>, concert: string, gates: set<string>) {
    forall g :: g in gates ==> Load(tickets, concert, g) == 0
  }

  lemma EmptyHasNoGap(tickets: map<string, Ticket>, concert: string, gates: set<string>, all: seq<string>)
    requires AllEmpty(tickets, concert, gates) && ListsGates(all, gates)
    ensures GapAtMost(tickets, concert, gates, 0) && Total(Loads(tickets, concert, all)) == 0
  {
    assert forall i :: 0 <= i < |all| ==> all[i] in all;
    TotalOfZeros(Loads(tickets, concert, all));
  }

  lemma WorkerKeepsClose(c: Secrets, tickets: map<string, Ticket>, concert: string, listings: seq<seq<string>>,
                         plans: seq<Plan>,
                         gates: set<string>, all: seq<string>)
    requires |listings| == |plans| && AllList(listings, gates) && ListsGates(all, gates) && "" !in gates && gates != {}
    requires FreshPlans(tickets, plans) && AllEmpty(tickets, concert, gates)
    ensures var after := IssueEach(c, tickets, concert, listings, plans);
            Total(Loads(after, concert, all)) == |plans| && GapAtMost(after, concert, gates, 1)
  {
    EmptyHasNoGap(tickets, concert, gates, all);
    EachKeepsGap(c, tickets, concert, listings, plans, gates, 0);
    EachCounts(c, tickets, concert, listings, plans, gates, all);
  }

  /** From empty gates, n tickets put the floor or the ceiling of n / g at each of the g gates. */
  lemma WorkerSpreadsEvenly(c: Secrets, tickets: map<string, Ticket>, concert: string, listings: seq<seq<string>>,
                            plans: seq<Plan>,
                            gates: set<string>, all: seq<string>, i: nat)
    requires |listings| == |plans| && AllList(listings, gates) && ListsGates(all, gates) && "" !in gates
    requires i < |all| && FreshPlans(tickets, plans) && AllEmpty(tickets, concert, gates)
    ensures FloorOrCeiling(Load(IssueEach(c, tickets, concert, listings, plans), concert, all[i]), |plans|, |all|)
  {
    assert all[i] in gates by { assert all[i] in all; }
    WorkerKeepsClose(c, tickets, concert, listings, plans, gates, all);
    CloseSplitsEvenly(IssueEach(c, tickets, concert, listings, plans), concert, gates, all, |plans|, i);
  }

  lemma CloseSplitsEvenly(tickets: map<string, Ticket>, concert: string, gates: set<string>, all: seq<string>, n: nat,
                          i: nat)
    requires ListsGates(all, gates) && i < |all| && GapAtMost(tickets, concert, gates, 1)
    requires Total(Loads(tickets, concert, all)) == n
    ensures FloorOrCeiling(Load(tickets, concert, all[i]), n, |all|)
  {
    assert forall j :: 0 <= j < |all| ==> all[j] in all;
    EvenSplit(Loads(tickets, concert, all), i, n, |all|);
  }
}
