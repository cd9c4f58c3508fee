/**
  How the tasks relate to the service calls and to the scripts, and a run in which a cancel and a
  success webhook of one order race and the shop sells twice what it has.
 */
module OrderRace {
  import opened Ledger
  import opened StoresSteps
  import opened Interleaving
  import opened OrderTasks

  // ------------------------------------------------------------------ runs of one task

  lemma {:induction false} RunAppend(s: System, a: seq<Move>, b: seq<Move>)
    ensures Run(s, a + b) == Run(Run(s, a), b)
    ensures LegalRun(s, a + b) <==> LegalRun(s, a) && LegalRun(Run(s, a), b)
    decreases |a|
  {
    if a == [] {
      assert a + b == b;
    } else {
      assert (a + b)[1..] == a[1..] + b;
      RunAppend(Step(s, a[0]), a[1..], b);
    }
  }

  function Advances(n: nat, k: nat): seq<Move> {
    if k == 0 then [] else [Advance(n, true)] + Advances(n, k - 1)
  }

  /** k statements of task n, one after the other. */
  function Steps(s: Stores, t: Task, k: nat): (Stores, Task)
    decreases k
  {
    if k == 0 then (s, t) else var (s', t') := Next(s, t, true); Steps(s', t', k - 1)
  }

  lemma {:induction false} AdvancesAreSteps(s: System, n: nat, k: nat)
    requires n in s.tasks
    ensures var (stores, t) := Steps(s.stores, s.tasks[n], k); Run(s, Advances(n, k)) == System(stores, s.tasks[n := t])
    ensures LegalRun(s, Advances(n, k))
    decreases k
  {
    if k == 0 {
      assert s.tasks[n := s.tasks[n]] == s.tasks;
    } else {
      var moves := Advances(n, k);
      assert moves[1..] == Advances(n, k - 1);
      AdvancesAreSteps(Step(s, moves[0]), n, k - 1);
      assert s.tasks[n := Step(s, moves[0]).tasks[n]][n := Steps(s.stores, s.tasks[n], k).1] ==
               s.tasks[n := Steps(s.stores, s.tasks[n], k).1];
    }
  }

  // ------------------------------------------------------------------ a task run alone is the service call

  predicate OneItem(db: Database, oid: Id) {
    oid in db.orders ==> |db.orders[oid].items| == 1
  }

  lemma ReleaseIsAll(r: Redis, oid: Id, user: Id, it: Item)
    ensures ReleaseAll(r, oid, user, [it]) == Release(r, oid, user, it)
  {
    assert it in [it];
  }

  lemma MissingCounterDropsNothing(counters: map<UserKey, Counter>, user: Id, it: Item)
    requires (user, it.typeId) !in counters
    ensures DropCounters(counters, user, [it]) == counters
  {
    forall k | k in counters
      ensures k.0 == user ==> QtyOf([it], k.1) == 0
    {
      OneItemQty(it, k.1);
    }
  }

  lemma FinishedStays(s: Stores, t: Task, k: nat)
    requires t.phase.Finished?
    ensures Steps(s, t, k) == (s, t)
  {
  }

  function Reading(o: Order, oid: Id, job: Job, phase: Phase): Task
    requires |o.items| == 1
  {
    NewTask(oid, o.user, o.items[0], job).(phase := phase)
  }

  lemma CancelReleases(s: Stores, oid: Id, user: Id, it: Item)
    requires oid in s.db.orders && |s.db.orders[oid].items| == 1
    requires s.db.orders[oid].user == user && s.db.orders[oid].status.PendingPayment?
    ensures var o := s.db.orders[oid];
            Steps(s, NewTask(oid, user, it, Cancel), 2) ==
            (s.(redis := Release(s.redis, oid, user, o.items[0])), Reading(o, oid, Cancel, ToDrop(true, true, false)))
  {
  }

  /** The counter statement and the status write of a cancel whose type statement is done. */
  lemma CancelCounts(s: Stores, t: Task)
    requires t.job.Cancel? && t.oid in s.db.orders && t.phase == ToDrop(false, true, false)
    ensures var dropped := s.db.(counters := DropCounters(s.db.counters, t.user, [t.it]));
            Steps(s, t, 2).0 ==
            s.(db := if (t.user, t.it.typeId) in s.db.counters then SetStatus(dropped, t.oid, Cancelled) else dropped)
  {
    if (t.user, t.it.typeId) !in s.db.counters {
      MissingCounterDropsNothing(s.db.counters, t.user, t.it);
    }
  }

  lemma CancelDrops(s: Stores, t: Task)
    requires t.job.Cancel? && t.oid in s.db.orders && t.phase == ToDrop(true, true, false)
    ensures var dropped := s.db.(types := DropTypes(s.db.types, [t.it]),
              counters := DropCounters(s.db.counters, t.user, [t.it]));
            Steps(s, t, 3).0 ==
            s.(db := if (t.user, t.it.typeId) in s.db.counters then SetStatus(dropped, t.oid, Cancelled) else dropped)
  {
    var t1 := t.(tookTypes := true, phase := ToDrop(false, true, false));
    var s1 := s.(db := s.db.(types := DropTypes(s.db.types, [t.it])));
    assert Next(s, t, true) == (s1, t1);
    CancelCounts(s1, t1);
  }

  lemma {:induction false} StepsAdd(s: Stores, t: Task, j: nat, k: nat)
    ensures var (s', t') := Steps(s, t, j); Steps(s, t, j + k) == Steps(s', t', k)
    decreases j
  {
    if j > 0 {
      var (s1, t1) := Next(s, t, true);
      StepsAdd(s1, t1, j - 1, k);
      assert Steps(s, t, j) == Steps(s1, t1, j - 1) && Steps(s, t, j + k) == Steps(s1, t1, j - 1 + k);
    }
  }

  lemma CancelAlone(s: Stores, oid: Id, user: Id, it: Item)
    requires OneItem(s.db, oid)
    ensures Steps(s, NewTask(oid, user, it, Cancel), 5).0 == CancelOrder(s, oid, user).0
  {
    var t := NewTask(oid, user, it, Cancel);
    if oid in s.db.orders && s.db.orders[oid].user == user && s.db.orders[oid].status.PendingPayment? {
      var o := s.db.orders[oid];
      StepsAdd(s, t, 2, 3);
      CancelReleases(s, oid, user, it);
      CancelDrops(Steps(s, t, 2).0, Steps(s, t, 2).1);
      assert o.items == [o.items[0]];
      ReleaseIsAll(s.redis, oid, user, o.items[0]);
    } else {
      StepsAdd(s, t, 1, 4);
      FinishedStays(s, t.(phase := Finished), 4);
    }
  }

  lemma PayAlone(s: Stores, oid: Id, user: Id, it: Item)
    requires oid in s.db.orders && |s.db.orders[oid].items| == 1 && s.db.orders[oid].status.PendingPayment?
    ensures Steps(s, NewTask(oid, user, it, Pay), 3).0 == PayAndIssue(s, oid)
  {
    assert s.db.orders[oid].items == [s.db.orders[oid].items[0]];
  }

  lemma CloseAlone(s: Stores, oid: Id, user: Id, it: Item, status: OrderStatus)
    requires oid in s.db.orders && |s.db.orders[oid].items| == 1 && s.db.orders[oid].status.PendingPayment?
    ensures Steps(s, NewTask(oid, user, it, Close(status)), 3).0 == CloseUnpaid(s, oid, status)
  {
    var o := s.db.orders[oid];
    assert o.items == [o.items[0]];
    ReleaseIsAll(s.redis, oid, o.user, o.items[0]);
  }

  lemma IssueAlone(s: Stores, oid: Id, user: Id, it: Item)
    requires OneItem(s.db, oid)
    ensures Steps(s, NewTask(oid, user, it, Issue), 3).0 == IssueTickets(s, oid).0
  {
    var t := NewTask(oid, user, it, Issue);
    if oid in s.db.orders && s.db.orders[oid].status.Paid? {
      var o := s.db.orders[oid];
      assert o.items == [o.items[0]];
      assert Next(s, t, true) == (s, Reading(o, oid, Issue, ToCheck));
    } else {
      FinishedStays(s, t.(phase := Finished), 2);
    }
  }

  // ------------------------------------------------------------------ a run's scripts

  /** The script that a step sends, if it sends one. */
  function ScriptOf(s: System, m: Move): seq<Script> {
    if !m.Advance? || m.n !in s.tasks then []
    else
      var t := s.tasks[m.n];
      match t.phase
      case Start => if t.job.Create? && m.ok then [ReserveCall(t.oid, t.user, t.it,
                  MaxPerUser(s.stores.db, t.it.typeId))] else []
      case ToRelease => [ReleaseCall(t.oid, t.user, t.it)]
      case ToDelete => [PaidDelete(t.oid)]
      case _ => []
  }

  function Scripts(s: System, moves: seq<Move>): seq<Script>
    decreases |moves|
  {
    if moves == [] then [] else ScriptOf(s, moves[0]) + Scripts(Step(s, moves[0]), moves[1..])
  }

  lemma StepSends(s: System, m: Move)
    requires !m.RedisMoves?
    ensures Step(s, m).stores.redis == ExecAll(s.stores.redis, ScriptOf(s, m))
  {
    var sent := ScriptOf(s, m);
    assert sent != [] ==> sent[1..] == [];
  }

  lemma {:induction false} ExecAppend(r: Redis, a: seq<Script>, b: seq<Script>)
    ensures ExecAll(r, a + b) == ExecAll(ExecAll(r, a), b)
    decreases |a|
  {
    if a == [] {
      assert a + b == b;
    } else {
      assert (a + b)[1..] == a[1..] + b;
      ExecAppend(Exec(r, a[0]), a[1..], b);
    }
  }

  /** What tasks do to Redis is a trace of scripts, so everything proved of traces holds of their runs. */
  lemma {:induction false} RunSendsScripts(s: System, moves: seq<Move>)
    requires forall i :: 0 <= i < |moves| ==> !moves[i].RedisMoves?
    ensures Run(s, moves).stores.redis == ExecAll(s.stores.redis, Scripts(s, moves))
    decreases |moves|
  {
    if moves != [] {
      StepSends(s, moves[0]);
      RunSendsScripts(Step(s, moves[0]), moves[1..]);
      ExecAppend(s.stores.redis, ScriptOf(s, moves[0]), Scripts(Step(s, moves[0]), moves[1..]));
    }
  }

  // ------------------------------------------------------------------ a cancel and a success webhook race

  /**
    Both read the order as pending; the cancel releases and subtracts, the webhook sells, the cancel writes
    its status.
   */
  function RaceMoves(n: nat, k: nat, oid: Id, user: Id, it: Item): seq<Move> {
    [Begin(n, oid, user, it, Cancel)] + Advances(n, 1) + ([Begin(k, oid, user, it, Pay)] + Advances(k, 1))
    + Advances(n, 3) + Advances(k, 2) + Advances(n, 1)
  }

  /** What the race leaves: the units back in Redis, subtracted twice, and sold once. */
  function Raced(s: Stores, oid: Id, user: Id, it: Item): Stores
    requires oid in s.db.orders
  {
    var r := Release(s.redis, oid, user, it);
    Stores(r.(holds := r.holds - {oid}),
           Database(SellTypes(DropTypes(s.db.types, [it]), [it]),
                    UpsertSold(DropCounters(s.db.counters, user, [it]), user, [it]),
                    s.db.orders[oid := s.db.orders[oid].(status := Cancelled)],
                    s.db.tickets + TicketsOf(oid, user, [it])))
  }

  lemma BeginThen(s: System, n: nat, oid: Id, user: Id, it: Item, job: Job, k: nat)
    requires n !in s.tasks
    ensures var (stores, t) := Steps(s.stores, NewTask(oid, user, it, job), k);
            Run(s, [Begin(n, oid, user, it, job)] + Advances(n, k)) == System(stores, s.tasks[n := t])
  {
    var begin := [Begin(n, oid, user, it, job)];
    var s1 := Step(s, begin[0]);
    RunAppend(s, begin, Advances(n, k));
    assert begin[1..] == [];
    AdvancesAreSteps(s1, n, k);
    assert s1.tasks[n := Steps(s1.stores, s1.tasks[n], k).1] == s.tasks[n := Steps(s1.stores, s1.tasks[n], k).1];
  }

  lemma BeginIsLegal(s: System, n: nat, oid: Id, user: Id, it: Item, job: Job, k: nat)
    requires Legal(s, Begin(n, oid, user, it, job))
    ensures LegalRun(s, [Begin(n, oid, user, it, job)] + Advances(n, k))
  {
    var begin := [Begin(n, oid, user, it, job)];
    RunAppend(s, begin, Advances(n, k));
    assert begin[1..] == [];
    AdvancesAreSteps(Step(s, begin[0]), n, k);
  }

  /** The order a race is about. */
  predicate Racing(s: Stores, oid: Id, user: Id, it: Item) {
    && oid in s.db.orders && s.db.orders[oid].items == [it] && s.db.orders[oid].user == user
    && s.db.orders[oid].status.PendingPayment? && (user, it.typeId) in s.db.counters
  }

  lemma RaceReads(s: Stores, oid: Id, user: Id, it: Item)
    requires Racing(s, oid, user, it)
    ensures Steps(s, NewTask(oid, user, it, Cancel), 1) == (s, NewTask(oid, user, it, Cancel).(phase := ToRelease))
    ensures Steps(s, NewTask(oid, user, it, Pay), 1) == (s, NewTask(oid, user, it, Pay).(phase := ToTransact))
  {
  }

  lemma RaceCancels(s: Stores, oid: Id, user: Id, it: Item)
    requires Racing(s, oid, user, it)
    ensures var t := NewTask(oid, user, it, Cancel);
            Steps(s, t.(phase := ToRelease), 3) ==
            (Stores(Release(s.redis, oid, user, it),
                    s.db.(types := DropTypes(s.db.types, [it]), counters := DropCounters(s.db.counters, user, [it]))),
             t.(phase := ToWrite(false), tookTypes := true, tookCounter := true))
  {
    var t := NewTask(oid, user, it, Cancel);
    var s1 := s.(redis := Release(s.redis, oid, user, it));
    assert Next(s, t.(phase := ToRelease), true) == (s1, t.(phase := ToDrop(true, true, false)));
    RaceDrops(s1, t);
  }

  lemma RaceDrops(s: Stores, t: Task)
    requires t.job.Cancel? && (t.user, t.it.typeId) in s.db.counters
    ensures Steps(s, t.(phase := ToDrop(true, true, false)), 2) ==
            (s.(db := s.db.(types := DropTypes(s.db.types, [t.it]),
                            counters := DropCounters(s.db.counters, t.user, [t.it]))),
             t.(phase := ToWrite(false), tookTypes := true, tookCounter := true))
  {
    var s1 := s.(db := s.db.(types := DropTypes(s.db.types, [t.it])));
    var t1 := t.(tookTypes := true, phase := ToDrop(false, true, false));
    assert Next(s, t.(phase := ToDrop(true, true, false)), true) == (s1, t1);
    assert Next(s1, t1, true) == (s1.(db := s1.db.(counters := DropCounters(s1.db.counters, t.user, [t.it]))),
                                  t1.(phase := ToWrite(false), tookCounter := true));
  }

  lemma RacePays(s: Stores, oid: Id, user: Id, it: Item)
    requires Racing(s, oid, user, it)
    ensures Steps(s, NewTask(oid, user, it, Pay).(phase := ToTransact), 2).0 == PayAndIssue(s, oid)
  {
  }

  function Started(s: System, n: nat, k: nat, oid: Id, user: Id, it: Item): System {
    s.(tasks := s.tasks[n := NewTask(oid, user, it, Cancel).(phase := ToRelease)][k := NewTask(oid, user, it,
      Pay).(phase := ToTransact)])
  }

  lemma RaceStarts(s: System, n: nat, k: nat, oid: Id, user: Id, it: Item)
    requires Racing(s.stores, oid, user, it) && n !in s.tasks && k !in s.tasks && n != k
    ensures var a := [Begin(n, oid, user, it, Cancel)] + Advances(n, 1);
            var b := [Begin(k, oid, user, it, Pay)] + Advances(k, 1);
            Run(s, a + b) == Started(s, n, k, oid, user, it) && LegalRun(s, a + b)
  {
    var a := [Begin(n, oid, user, it, Cancel)] + Advances(n, 1);
    var b := [Begin(k, oid, user, it, Pay)] + Advances(k, 1);
    RaceReads(s.stores, oid, user, it);
    BeginThen(s, n, oid, user, it, Cancel, 1);
    BeginIsLegal(s, n, oid, user, it, Cancel, 1);
    BeginThen(Run(s, a), k, oid, user, it, Pay, 1);
    BeginIsLegal(Run(s, a), k, oid, user, it, Pay, 1);
    RunAppend(s, a, b);
  }

  lemma CancelThenPay(s: System, n: nat, k: nat, oid: Id, user: Id, it: Item)
    requires Racing(s.stores, oid, user, it) && n in s.tasks && k in s.tasks && n != k
    requires s.tasks[n] == NewTask(oid, user, it, Cancel).(phase := ToRelease)
    requires s.tasks[k] == NewTask(oid, user, it, Pay).(phase := ToTransact)
    ensures var s' := Run(s, Advances(n, 3) + Advances(k, 2));
            var t := NewTask(oid, user, it, Cancel);
            var dropped := Stores(Release(s.stores.redis, oid, user, it),
                                  s.stores.db.(types := DropTypes(s.stores.db.types, [it]),
                                               counters := DropCounters(s.stores.db.counters, user, [it])));
            && s'.stores == PayAndIssue(dropped, oid) && s'.tasks.Keys == s.tasks.Keys
            && s'.tasks[n] == t.(phase := ToWrite(false), tookTypes := true, tookCounter := true)
    ensures LegalRun(s, Advances(n, 3) + Advances(k, 2))
  {
    RaceCancels(s.stores, oid, user, it);
    AdvancesAreSteps(s, n, 3);
    var s1 := Run(s, Advances(n, 3));
    RacePays(s1.stores, oid, user, it);
    AdvancesAreSteps(s1, k, 2);
    RunAppend(s, Advances(n, 3), Advances(k, 2));
  }

  lemma LastWrite(s: System, n: nat)
    requires n in s.tasks && s.tasks[n].job.Cancel? && s.tasks[n].phase == ToWrite(false)
    requires s.tasks[n].oid in s.stores.db.orders
    ensures Run(s, Advances(n, 1)).stores == s.stores.(db := SetStatus(s.stores.db, s.tasks[n].oid, Cancelled))
    ensures Run(s, Advances(n, 1)).tasks.Keys == s.tasks.Keys && LegalRun(s, Advances(n, 1))
  {
    AdvancesAreSteps(s, n, 1);
    assert Steps(s.stores, s.tasks[n], 1) == Next(s.stores, s.tasks[n], true);
  }

  lemma RaceEnds(s: System, n: nat, k: nat, oid: Id, user: Id, it: Item)
    requires Racing(s.stores, oid, user, it) && n !in s.tasks && k !in s.tasks && n != k
    ensures var s' := Run(s, RaceMoves(n, k, oid, user, it));
            s'.stores == Raced(s.stores, oid, user, it) && s'.tasks.Keys == s.tasks.Keys + {n, k}
    ensures LegalRun(s, RaceMoves(n, k, oid, user, it))
  {
    var a := [Begin(n, oid, user, it, Cancel)] + Advances(n, 1) + ([Begin(k, oid, user, it, Pay)] + Advances(k, 1));
    var b := Advances(n, 3) + Advances(k, 2);
    var s1 := Started(s, n, k, oid, user, it);
    RaceStarts(s, n, k, oid, user, it);
    CancelThenPay(s1, n, k, oid, user, it);
    LastWrite(Run(s1, b), n);
    RunAppend(s, a, b);
    RunAppend(s, a + b, Advances(n, 1));
    assert RaceMoves(n, k, oid, user, it) == a + b + Advances(n, 1);
    RacedIs(s.stores, oid, user, it);
  }

  lemma RacedIs(s: Stores, oid: Id, user: Id, it: Item)
    requires Racing(s, oid, user, it)
    ensures var dropped := Stores(Release(s.redis, oid, user, it),
                                  s.db.(types := DropTypes(s.db.types, [it]),
                                    counters := DropCounters(s.db.counters, user, [it])));
            var paid := PayAndIssue(dropped, oid);
            paid.(db := SetStatus(paid.db, oid, Cancelled)) == Raced(s, oid, user, it)
  {
  }

  // ------------------------------------------------------------------ the shop sells twice what it has

  lemma PlaceAlone(s: Stores, oid: Id, user: Id, it: Item)
    requires oid !in s.db.orders && HasRoom(s.db.types, [it])
    requires Accepts(s.redis, oid, user, it, MaxPerUser(s.db, it.typeId))
    ensures Steps(s, NewTask(oid, user, it, Create), 4).0 == PlaceOne(s, oid, Order(user, [it], PendingPayment, 0, 0))
  {
    var t, row := NewTask(oid, user, it, Create), Order(user, [it], PendingPayment, 0, 0);
    var s1 := s.(redis := Reserve(s.redis, oid, user, it));
    var s2 := s1.(db := s1.db.(orders := s1.db.orders[oid := row]));
    assert Next(s, t, true) == (s1, t.(phase := ToInsert));
    assert Next(s1, t.(phase := ToInsert), true) == (s2, t.(phase := ToCount));
    assert Counts(s2.db, t.(phase := ToCount), true);
    PlaceLast(s2, t);
  }

  lemma PlaceLast(s: Stores, t: Task)
    requires Counts(s.db, t.(phase := ToCount), true)
    ensures Steps(s, t.(phase := ToCount), 2).0 ==
            s.(db := s.db.(types := AddTypes(s.db.types, [t.it]),
              counters := UpsertReserved(s.db.counters, t.user, [t.it])))
  {
  }

  const VIP := Uuid(2)
  const BOB := Uuid(4)
  const ALICE := Uuid(1)
  const FIRST := Uuid(5)
  const SECOND := Uuid(6)

  /** One type with q tickets, on sale, its stock key seeded. */
  function Shop(q: Quantity): System {
    System(Stores(Redis(map[VIP := q], map[], map[]),
      Database(map[VIP := TypeRow(q, 0, 0, q, 100, true)], map[], map[], [])), map[])
  }

  function PlaceMoves(n: nat, oid: Id, user: Id, q: Quantity): seq<Move> {
    [Begin(n, oid, user, Item(VIP, q), Create)] + Advances(n, 4)
  }

  function PayMoves(n: nat, oid: Id, user: Id, q: Quantity): seq<Move> {
    [Begin(n, oid, user, Item(VIP, q), Pay)] + Advances(n, 3)
  }

  /** One order is placed, cancelled and paid for at once; then another is placed and paid for. */
  function FirstMoves(q: Quantity): seq<Move> {
    PlaceMoves(0, FIRST, ALICE, q) + RaceMoves(1, 2, FIRST, ALICE, Item(VIP, q))
  }

  function Overselling(q: Quantity): seq<Move> {
    FirstMoves(q) + PlaceMoves(3, SECOND, BOB, q) + PayMoves(4, SECOND, BOB, q)
  }

  function FirstPlaced(q: Quantity): Stores {
    PlaceOne(Shop(q).stores, FIRST, Order(ALICE, [Item(VIP, q)], PendingPayment, 0, 0))
  }

  function AfterRace(q: Quantity): Stores {
    Raced(FirstPlaced(q), FIRST, ALICE, Item(VIP, q))
  }

  function SecondPlaced(q: Quantity): Stores {
    PlaceOne(AfterRace(q), SECOND, Order(BOB, [Item(VIP, q)], PendingPayment, 0, 0))
  }

  lemma RowAfterRace(q: Quantity)
    ensures VIP in AfterRace(q).db.types && AfterRace(q).db.types[VIP] == TypeRow(q, q, 0 - q, q, 100, true)
    ensures VIP in SecondPlaced(q).db.types && SecondPlaced(q).db.types[VIP] == TypeRow(q, q, 0, q, 100, true)
  {
    OneItemQty(Item(VIP, q), VIP);
  }

  lemma FirstIsPlaced(q: Quantity)
    ensures Racing(FirstPlaced(q), FIRST, ALICE, Item(VIP, q))
    ensures Accepts(Shop(q).stores.redis, FIRST, ALICE, Item(VIP, q), q)
    ensures HasRoom(Shop(q).stores.db.types, [Item(VIP, q)])
  {
    OneItemQty(Item(VIP, q), VIP);
    assert [Item(VIP, q)][1..] == [];
    assert UpsertReserved(map[], ALICE, [Item(VIP, q)]) == map[(ALICE, VIP) := Counter(0, q)];
  }

  lemma SecondIsPlaced(q: Quantity)
    ensures Accepts(AfterRace(q).redis, SECOND, BOB, Item(VIP, q), q) && HasRoom(AfterRace(q).db.types, [Item(VIP, q)])
    ensures SECOND !in AfterRace(q).db.orders
  {
    RowAfterRace(q);
    OneItemQty(Item(VIP, q), VIP);
  }

  lemma SecondIsPaid(q: Quantity)
    ensures SECOND in SecondPlaced(q).db.orders
    ensures SecondPlaced(q).db.orders[SECOND] == Order(BOB, [Item(VIP, q)], PendingPayment, 0, 0)
    ensures var types := PayAndIssue(SecondPlaced(q), SECOND).db.types;
            VIP in types && types[VIP] == TypeRow(q, 2 * q, 0 - q, q, 100, true)
  {
    RowAfterRace(q);
    OneItemQty(Item(VIP, q), VIP);
  }

  predicate Only(s: System, oid: Id) {
    forall k :: k in s.tasks ==> s.tasks[k].oid == oid
  }

  lemma OidStays(s: Stores, t: Task, ok: bool)
    ensures Next(s, t, ok).1.oid == t.oid
  {
  }

  lemma {:induction false} StaysOnly(s: System, moves: seq<Move>, oid: Id)
    requires Only(s, oid) && forall m :: m in moves && m.Begin? ==> m.oid == oid
    ensures Only(Run(s, moves), oid)
    decreases |moves|
  {
    if moves != [] {
      assert moves[0] in moves;
      if moves[0].Advance? && moves[0].n in s.tasks {
        OidStays(s.stores, s.tasks[moves[0].n], moves[0].ok);
      }
      StaysOnly(Step(s, moves[0]), moves[1..], oid);
    }
  }

  lemma {:induction false} OnlyAdvances(n: nat, k: nat)
    ensures forall m :: m in Advances(n, k) ==> m.Advance?
  {
    if k > 0 {
      OnlyAdvances(n, k - 1);
    }
  }

  lemma RaceIsOnly(n: nat, k: nat, oid: Id, user: Id, it: Item)
    ensures forall m :: m in RaceMoves(n, k, oid, user, it) && m.Begin? ==> m.oid == oid
  {
    OnlyAdvances(n, 1);
    OnlyAdvances(k, 1);
    OnlyAdvances(n, 3);
    OnlyAdvances(k, 2);
  }

  lemma FirstIsOnly(q: Quantity)
    ensures Only(Run(Shop(q), FirstMoves(q)), FIRST)
  {
    OnlyAdvances(0, 4);
    RaceIsOnly(1, 2, FIRST, ALICE, Item(VIP, q));
    StaysOnly(Shop(q), FirstMoves(q), FIRST);
  }

  lemma FirstHalf(q: Quantity)
    ensures var s2 := Run(Shop(q), FirstMoves(q));
            LegalRun(Shop(q), FirstMoves(q)) && s2.stores == AfterRace(q) && s2.tasks.Keys == {0, 1, 2}
  {
    RunFirst(q);
    RaceEnds(Run(Shop(q), PlaceMoves(0, FIRST, ALICE, q)), 1, 2, FIRST, ALICE, Item(VIP, q));
    RunAppend(Shop(q), PlaceMoves(0, FIRST, ALICE, q), RaceMoves(1, 2, FIRST, ALICE, Item(VIP, q)));
  }

  /**
    A run of the modelled calls alone, without any lapse, flush or seed: Redis accepts both orders, the
    inventory guard lets both through, and a type with q tickets ends with twice that many sold.
   */
  lemma CancelAgainstWebhookOversells(q: Quantity)
    ensures LegalRun(Shop(q), Overselling(q))
    ensures var types := Run(Shop(q), Overselling(q)).stores.db.types;
            VIP in types && types[VIP].totalQty == q && types[VIP].soldQty == 2 * q
  {
    FirstHalf(q);
    FirstIsOnly(q);
    var s2 := Run(Shop(q), FirstMoves(q));
    RunSecond(s2, q);
    RunPaid(Run(s2, PlaceMoves(3, SECOND, BOB, q)), q);
    RunAppend(Shop(q), FirstMoves(q), PlaceMoves(3, SECOND, BOB, q));
    RunAppend(Shop(q), FirstMoves(q) + PlaceMoves(3, SECOND, BOB, q), PayMoves(4, SECOND, BOB, q));
  }

  lemma RunFirst(q: Quantity)
    ensures var a := PlaceMoves(0, FIRST, ALICE, q);
            && LegalRun(Shop(q), a) && Run(Shop(q), a).stores == FirstPlaced(q) && Run(Shop(q), a).tasks.Keys == {0}
    ensures Racing(FirstPlaced(q), FIRST, ALICE, Item(VIP, q))
  {
    FirstIsPlaced(q);
    PlaceAlone(Shop(q).stores, FIRST, ALICE, Item(VIP, q));
    BeginThen(Shop(q), 0, FIRST, ALICE, Item(VIP, q), Create, 4);
    BeginIsLegal(Shop(q), 0, FIRST, ALICE, Item(VIP, q), Create, 4);
  }

  lemma RunSecond(s: System, q: Quantity)
    requires s.stores == AfterRace(q) && s.tasks.Keys == {0, 1, 2}
    requires Only(s, FIRST)
    ensures var c := PlaceMoves(3, SECOND, BOB, q);
            LegalRun(s, c) && Run(s, c).stores == SecondPlaced(q) && Run(s, c).tasks.Keys == {0, 1, 2, 3}
  {
    SecondIsPlaced(q);
    RowAfterRace(q);
    PlaceAlone(s.stores, SECOND, BOB, Item(VIP, q));
    BeginThen(s, 3, SECOND, BOB, Item(VIP, q), Create, 4);
    BeginIsLegal(s, 3, SECOND, BOB, Item(VIP, q), Create, 4);
  }

  lemma RunPaid(s: System, q: Quantity)
    requires s.stores == SecondPlaced(q) && 4 !in s.tasks
    ensures var d := PayMoves(4, SECOND, BOB, q);
            LegalRun(s, d) && Run(s, d).stores == PayAndIssue(SecondPlaced(q), SECOND)
    ensures var types := PayAndIssue(SecondPlaced(q), SECOND).db.types;
            VIP in types && types[VIP] == TypeRow(q, 2 * q, 0 - q, q, 100, true)
  {
    SecondIsPaid(q);
    PayAlone(s.stores, SECOND, BOB, Item(VIP, q));
    BeginThen(s, 4, SECOND, BOB, Item(VIP, q), Pay, 3);
    BeginIsLegal(s, 4, SECOND, BOB, Item(VIP, q), Pay, 3);
  }
}
