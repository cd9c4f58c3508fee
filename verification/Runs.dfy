/** Whole runs of the ledger: any number of service calls, key lapses and Redis flushes, in any order. */
module Runs {
  import opened Wrappers
  import opened Sums
  import opened Ledger
  import opened Books
  import opened BooksSteps
  import opened StoresSteps
  import opened Lifecycle

  datatype Step =
    | Create(oid: Id, user: Id, items: seq<Item>, expiresAt: int, faults: Faults)
    | Cancel(oid: Id, user: Id)
    | Expire(oid: Id, now: int)
    | Hook(oid: Id, signed: bool, amount: int, result: WebhookResult)
    | Verify(oid: Id, now: int, verdict: Verdict)
    | Issue(oid: Id)
    | NewType(t: Id, totalQty: Quantity, maxPerUser: Quantity, price: int)
    | Resize(t: Id, change: TypeChange)
    | KeyLapses(oid: Id)
    | RedisFlushed

  function Apply(s: Stores, step: Step): Stores {
    match step
    case Create(oid, user, items, expiresAt, f) => CreateOrder(s, oid, user, items, expiresAt, f).0
    case Cancel(oid, user) => CancelOrder(s, oid, user).0
    case Expire(oid, now) => ExpireOrder(s, oid, now).0
    case Hook(oid, signed, amount, result) => Webhook(s, oid, signed, amount, result).0
    case Verify(oid, now, verdict) => CronVerify(s, oid, now, verdict).0
    case Issue(oid) => IssueTickets(s, oid).0
    case NewType(t, totalQty, maxPerUser, price) => CreateType(s, t, totalQty, maxPerUser, price).0
    case Resize(t, change) => ResizeType(s, t, change).0
    case KeyLapses(oid) => Lapse(s, oid)
    case RedisFlushed => Flush(s)
  }

  /** Order ids are random and so new, and no admin lowers a per-user limit below what a user has. */
  ghost predicate Legal(s: Stores, step: Step) {
    && (step.Create? ==> Fresh(s, step.oid))
    && (step.Resize? && step.t in s.db.types && step.change.maxPerUser.Some? ==>
          LimitFits(s.db, step.t, step.change.maxPerUser.value))
  }

  predicate StrandsOrder(s: Stores, step: Step) {
    step.Create? && Strands(s, step.oid, step.user, step.items, step.faults)
  }

  /** The step closes an order that was awaiting payment. */
  predicate Closes(s: Stores, step: Step) {
    match step
    case Cancel(oid, user) => oid in s.db.orders && s.db.orders[oid].status.PendingPayment? && s.db.orders[oid].user ==
                user
    case Expire(oid, now) => oid in s.db.orders && s.db.orders[oid].status.PendingPayment? &&
                s.db.orders[oid].expiresAt <= now
    case Hook(oid, signed, amount, result) =>
      signed && oid in s.db.orders && s.db.orders[oid].amount ==
        amount && s.db.orders[oid].status.PendingPayment? && result.Failure?
    case Verify(oid, now, verdict) =>
      oid in s.db.orders && s.db.orders[oid].status.PendingPayment? && s.db.orders[oid].expiresAt < now &&
        !verdict.VerifiedPaid?
    case _ => false
  }

  /** The step loses units between the stores: a leaked reservation, or a release whose key is gone. */
  predicate Loses(s: Stores, step: Step) {
    (step.Create? && Leaks(s, step.oid, step.user, step.items)) || (Closes(s, step) && LosesOnClose(s, step.oid))
  }

  // ------------------------------------------------------------------ one step

  lemma FailureHookKeeps(s: Stores, oid: Id, amount: int)
    requires Inv(s) && oid in s.db.orders && s.db.orders[oid].amount == amount
    requires s.db.orders[oid].status.PendingPayment?
    ensures var s' := Webhook(s, oid, true, amount, Failure).0;
            Inv(s') && (Tight(s) ==> (Tight(s') <==> !LosesOnClose(s, oid)))
  {
    ClosingIsClosing(s, oid, PaymentFailed);
  }

  lemma HookKeeps(s: Stores, oid: Id, signed: bool, amount: int, result: WebhookResult)
    requires Inv(s)
    ensures var step := Hook(oid, signed, amount, result);
            Inv(Apply(s, step)) && (Tight(s) ==> (Tight(Apply(s, step)) <==> !Loses(s, step)))
  {
    var step := Hook(oid, signed, amount, result);
    if signed && oid in s.db.orders && s.db.orders[oid].amount == amount && s.db.orders[oid].status.PendingPayment? {
      match result
      case Failure => FailureHookKeeps(s, oid, amount);
      case Timeout =>
      case Success => PayingKeeps(s, oid);
    } else {
      assert Apply(s, step) == s && !Closes(s, step);
    }
  }

  lemma VerifyKeeps(s: Stores, oid: Id, now: int, verdict: Verdict)
    requires Inv(s)
    ensures var step := Verify(oid, now, verdict);
            Inv(Apply(s, step)) && (Tight(s) ==> (Tight(Apply(s, step)) <==> !Loses(s, step)))
  {
    if oid in s.db.orders && s.db.orders[oid].status.PendingPayment? && s.db.orders[oid].expiresAt < now {
      ClosingIsClosing(s, oid, if verdict.VerifiedFailed? then PaymentFailed else Expired);
      MarkingKeeps(s, oid);
    }
  }

  lemma ReleasedKeeps(s: Stores, step: Step)
    requires Inv(s) && (step.Cancel? || step.Expire?)
    ensures Inv(Apply(s, step)) && (Tight(s) ==> (Tight(Apply(s, step)) <==> !Loses(s, step)))
  {
    var oid := step.oid;
    if oid in s.db.orders && s.db.orders[oid].status.PendingPayment? {
      ClosingIsClosing(s, oid, if step.Cancel? then Cancelled else Expired);
    }
  }

  lemma IssueKeeps(s: Stores, oid: Id)
    requires Inv(s)
    ensures Inv(Apply(s, Issue(oid))) && (Tight(s) ==> Tight(Apply(s, Issue(oid))))
  {
    if oid in s.db.orders && s.db.orders[oid].status.Paid? {
      HasTicketsIsCount(s.db.tickets, oid);
      if !HasTickets(s.db.tickets, oid) {
        IssuingKeeps(s, oid);
      }
    }
  }

  /**
    One step, exactly: it keeps the books if and only if it strands no order, and then it keeps every
    present key exact if and only if it loses nothing between the stores.
   */
  lemma StepKeeps(s: Stores, step: Step)
    requires Inv(s) && Legal(s, step)
    ensures Inv(Apply(s, step)) <==> !StrandsOrder(s, step)
    ensures Tight(s) && !StrandsOrder(s, step) ==> (Tight(Apply(s, step)) <==> !Loses(s, step))
  {
    match step
    case Create(oid, user, items, expiresAt, f) => CreateOrderKeeps(s, oid, user, items, expiresAt, f);
    case Cancel(oid, user) => ReleasedKeeps(s, step);
    case Expire(oid, now) => ReleasedKeeps(s, step);
    case Hook(oid, signed, amount, result) => HookKeeps(s, oid, signed, amount, result);
    case Verify(oid, now, verdict) => VerifyKeeps(s, oid, now, verdict);
    case Issue(oid) => IssueKeeps(s, oid);
    case NewType(t, totalQty, maxPerUser, price) => CreateTypeKeeps(s, t, totalQty, maxPerUser, price);
    case Resize(t, change) => ResizeTypeKeeps(s, t, change);
    case KeyLapses(oid) => LapseKeeps(s, oid);
    case RedisFlushed => FlushKeeps(s);
  }

  // ------------------------------------------------------------------ whole runs

  function After(s: Stores, steps: seq<Step>): Stores
    decreases |steps|
  {
    if steps == [] then s else After(Apply(s, steps[0]), steps[1..])
  }

  /** Every step of the run is legal where it is taken, and none strands an order. */
  ghost predicate CleanRun(s: Stores, steps: seq<Step>)
    decreases |steps|
  {
    steps == [] || (Legal(s, steps[0]) && !StrandsOrder(s, steps[0]) && CleanRun(Apply(s, steps[0]), steps[1..]))
  }

  predicate LosslessRun(s: Stores, steps: seq<Step>)
    decreases |steps|
  {
    steps == [] || (!Loses(s, steps[0]) && LosslessRun(Apply(s, steps[0]), steps[1..]))
  }

  /** Nothing sold yet, nothing in Redis. */
  predicate Initial(s: Stores) {
    && s.redis == Redis(map[], map[], map[])
    && s.db.counters == map[] && s.db.orders == map[] && s.db.tickets == []
    && forall t :: t in s.db.types ==>
         var row := s.db.types[t]; row.soldQty == 0 && row.reservedQty == 0 && row.totalQty >= 0 && row.maxPerUser >= 0
  }

  lemma InitialIsTight(s: Stores)
    requires Initial(s)
    ensures Inv(s) && Tight(s)
  {
    forall who, t
      ensures HeldTotal(s.db, who, t) == 0
    {
      SumZero(s.db.orders, HeldWeight(s.db.tickets, who, t));
    }
  }

  lemma {:induction false} RunKeeps(s: Stores, steps: seq<Step>)
    requires Inv(s) && CleanRun(s, steps)
    ensures Inv(After(s, steps))
    ensures Tight(s) && LosslessRun(s, steps) ==> Tight(After(s, steps))
    decreases |steps|
  {
    if steps != [] {
      StepKeeps(s, steps[0]);
      RunKeeps(Apply(s, steps[0]), steps[1..]);
    }
  }

  /** After any clean run from an empty shop, spelled out. */
  lemma ShopIsNeverOversold(s0: Stores, steps: seq<Step>)
    requires Initial(s0) && CleanRun(s0, steps)
    ensures var s := After(s0, steps);
            && (forall t :: t in s.db.types ==>
                  && s.db.types[t].soldQty == SoldTotal(s.db, None, t)
                  && s.db.types[t].reservedQty == HeldTotal(s.db, None, t)
                  && 0 <= s.db.types[t].soldQty <= s.db.types[t].soldQty +
                       s.db.types[t].reservedQty <= s.db.types[t].totalQty)
            && (forall u, t :: t in s.db.types ==> 0 <= Used(s.db.counters, u, t) <= s.db.types[t].maxPerUser)
            && (forall t :: t in s.redis.stock ==> t in s.db.types && s.redis.stock[t] <= Available(s.db.types[t]))
            && (forall k :: k in s.redis.limit ==> s.redis.limit[k] >= Used(s.db.counters, k.0, k.1))
            && (forall oid :: oid in s.db.orders ==>
                  CountIf(s.db.tickets, OfOrder(oid)) == 0 ||
                  (s.db.orders[oid].status.Paid? && CountIf(s.db.tickets, OfOrder(oid)) ==
                    TotalQty(s.db.orders[oid].items)))
  {
    InitialIsTight(s0);
    RunKeeps(s0, steps);
    var s := After(s0, steps);
    forall t | t in s.db.types
      ensures 0 <= HeldTotal(s.db, None, t) && TypeRowOk(s.db.types[t])
    {
      SumNonNegative(s.db.orders, HeldWeight(s.db.tickets, None, t));
    }
    forall u, t | t in s.db.types
      ensures 0 <= Used(s.db.counters, u, t) <= s.db.types[t].maxPerUser
    {
      UsedIsNotNegative(s.db, u, t);
      assert UserOk(s.db, u, t);
    }
    forall t | t in s.redis.stock
      ensures t in s.db.types && s.redis.stock[t] <= Available(s.db.types[t])
    {
      assert StockGap(s, t) >= 0;
    }
    forall k | k in s.redis.limit
      ensures s.redis.limit[k] >= Used(s.db.counters, k.0, k.1)
    {
      assert LimitGap(s, k.0, k.1) >= 0;
    }
    forall oid | oid in s.db.orders
      ensures OrderRowOk(s.db, oid)
    {
    }
  }

  // ------------------------------------------------------------------ replays

  /** A second delivery of a webhook, or a second run of an issue job, changes nothing. */
  lemma ReplaysChangeNothing(s: Stores, oid: Id, amount: int, r1: WebhookResult, r2: WebhookResult)
    requires Inv(s)
    ensures Apply(Apply(s, Issue(oid)), Issue(oid)) == Apply(s, Issue(oid))
    ensures !r1.Timeout? ==>
              Apply(Apply(s, Hook(oid, true, amount, r1)), Hook(oid, true, amount, r2)) ==
                Apply(s, Hook(oid, true, amount, r1))
    ensures r1.Success? && oid in s.db.orders
            && s.db.orders[oid].status.PendingPayment? && s.db.orders[oid].amount == amount ==>
              var s1 := Apply(s, Hook(oid, true, amount, r1)); Apply(s1, Issue(oid)) == s1
  {
    if oid in s.db.orders && s.db.orders[oid].items != [] {
      var o := s.db.orders[oid];
      var more := TicketsOf(oid, o.user, o.items);
      TicketRowsOf(oid, o.user, o.items);
      assert more[0] in more && more[0] in s.db.tickets + more;
    }
  }

  // ------------------------------------------------------------------ what a stranded order costs

  /**
    The gateway fails once and the customer cancels the row that could not be deleted: the quantity
    leaves reservedQty twice, so the type then looks emptier than it is by that much.
   */
  lemma StrandedThenCancelled(s: Stores, oid: Id, user: Id, it: Item, expiresAt: int)
    requires Inv(s) && Fresh(s, oid) && Strands(s, oid, user, [it], Faults(true, true, false))
    ensures var s1 := GatewayDown(s, oid, user, it, expiresAt);
            var s2 := Apply(s1, Cancel(oid, user));
            && oid in s1.db.orders && s1.db.orders[oid].status.PendingPayment?
            && s2.db.types == DropTypes(s.db.types, [it])
            && HeldTotal(s2.db, None, it.typeId) == HeldTotal(s.db, None, it.typeId)
            && Available(s2.db.types[it.typeId]) == Available(s.db.types[it.typeId]) + it.qty
  {
    var s1 := GatewayDown(s, oid, user, it, expiresAt);
    CreateOneKeeps(s, oid, user, [it], expiresAt, Faults(true, true, false));
    CountersKeptByFailedCreate(s, oid, user, it, expiresAt);
    CancelAfter(s, s1, oid, user, it);
  }

  function GatewayDown(s: Stores, oid: Id, user: Id, it: Item, expiresAt: int): Stores {
    Apply(s, Create(oid, user, [it], expiresAt, Faults(true, true, false)))
  }

  /** Cancelling the pending row that was added to otherwise unchanged orders, tickets and types. */
  lemma CancelAfter(s: Stores, s1: Stores, oid: Id, user: Id, it: Item)
    requires oid !in s.db.orders && it.typeId in s.db.types && HasCounters(s1.db.counters, user, [it])
    requires oid in s1.db.orders && s1.db.orders == s.db.orders[oid := s1.db.orders[oid]]
    requires s1.db.types == s.db.types && s1.db.tickets == s.db.tickets
    requires var o := s1.db.orders[oid]; o.status.PendingPayment? && o.user == user && o.items == [it]
    ensures var s2 := Apply(s1, Cancel(oid, user));
            && s2.db.types == DropTypes(s.db.types, [it])
            && HeldTotal(s2.db, None, it.typeId) == HeldTotal(s.db, None, it.typeId)
            && Available(s2.db.types[it.typeId]) == Available(s.db.types[it.typeId]) + it.qty
  {
    var s2 := Apply(s1, Cancel(oid, user));
    OneItemQty(it, it.typeId);
    assert s2.db.tickets == s.db.tickets + [];
    assert s2.db.orders == s.db.orders[oid := s2.db.orders[oid]];
    HeldTotalMoves(s.db, s2.db, oid, [], None, it.typeId);
  }

  /** A gateway failure leaves the counter row it created. */
  lemma CountersKeptByFailedCreate(s: Stores, oid: Id, user: Id, it: Item, expiresAt: int)
    requires Inv(s) && Fresh(s, oid) && Strands(s, oid, user, [it], Faults(true, true, false))
    ensures HasCounters(GatewayDown(s, oid, user, it, expiresAt).db.counters, user, [it])
    ensures it.typeId in s.db.types
  {
    GrantFirst(s, oid, user, [it]);
    assert [it][1..] == [];
    assert UpsertReserved(s.db.counters, user, [it]).Keys == s.db.counters.Keys + {(user, it.typeId)};
  }

  // ------------------------------------------------------------------ what a late release and a leak cost

  const NO_FAULTS := Faults(true, true, true)

  /** A shop where nothing has happened yet, with q tickets of one type. */
  predicate ShopOf(s: Stores, t: Id, q: Quantity) {
    s == Stores(Redis(map[], map[], map[]), Database(map[t := TypeRow(q, 0, 0, q, 100, true)], map[], map[], []))
  }

  function Ordering(oid: Id, user: Id, t: Id, q: Quantity): Step {
    Create(oid, user, [Item(t, q)], 0, NO_FAULTS)
  }

  lemma AllIsGranted(s: Stores, oid: Id, user: Id, t: Id, q: Quantity)
    requires ShopOf(s, t, q)
    ensures Initial(s) && ValidItems(s.db.types, [Item(t, q)])
    ensures FirstAccepted(SeedAll(s, user, [Item(t, q)]).redis, s.db.types, oid, user, [Item(t, q)]) == 0
    ensures SeedAll(s, user, [Item(t, q)]) == SeedOne(s, user, t)
  {
    assert [Item(t, q)][1..] == [];
  }

  /** With q tickets in the shop, one failed and then cancelled order makes it look as if there were twice as many. */
  lemma LooksLikeTwice(s: Stores, oid: Id, user: Id, t: Id, q: Quantity)
    requires ShopOf(s, t, q)
    ensures var s2 := Apply(GatewayDown(s, oid, user, Item(t, q), 0), Cancel(oid, user));
            t in s2.db.types && s2.db.types[t].totalQty == q && Available(s2.db.types[t]) == q + q
  {
    AllIsGranted(s, oid, user, t, q);
    InitialIsTight(s);
    StrandedThenCancelled(s, oid, user, Item(t, q), 0);
  }

  /** All of it is ordered: the order is pending, past its hold at time 1, and its key lives. */
  lemma AllIsOrdered(s: Stores, oid: Id, user: Id, t: Id, q: Quantity)
    requires ShopOf(s, t, q)
    ensures var s1 := Apply(s, Ordering(oid, user, t, q));
            && Inv(s1) && Tight(s1) && oid in s1.redis.holds && s1.redis.holds[oid] == Hold(oid, user, t, q)
            && oid in s1.db.orders && s1.db.orders[oid].status.PendingPayment? && s1.db.orders[oid].expiresAt == 0
  {
    AllIsGranted(s, oid, user, t, q);
    InitialIsTight(s);
    CreateOrderKeeps(s, oid, user, [Item(t, q)], 0, NO_FAULTS);
    CreateOneKeeps(s, oid, user, [Item(t, q)], 0, NO_FAULTS);
  }

  lemma VerifyMarks(s: Stores, oid: Id, now: int)
    requires oid in s.db.orders && s.db.orders[oid].status.PendingPayment? && s.db.orders[oid].expiresAt < now
    ensures Apply(s, Verify(oid, now, VerifiedPaid)) == Stores(s.redis, MarkedPaid(s.db, oid))
  {
  }

  /**
    A shop whose tickets are all ordered by one createOrder: the cron marks the order paid while its key
    lives, and a release that comes after offers every one of them again.
   */
  lemma PaidTicketsAreOfferedAgain(s: Stores, oid: Id, user: Id, t: Id, q: Quantity)
    requires ShopOf(s, t, q)
    ensures var paid := Apply(Apply(s, Ordering(oid, user, t, q)), Verify(oid, 1, VerifiedPaid));
            && oid in paid.db.orders && paid.db.orders[oid].status.Paid?
            && var s' := CloseIfPending(paid, oid, Expired);
               && s'.db == paid.db && t in s'.db.types && t in s'.redis.stock
               && s'.redis.stock[t] == Available(s'.db.types[t]) + q
  {
    var s1 := Apply(s, Ordering(oid, user, t, q));
    AllIsOrdered(s, oid, user, t, q);
    VerifyMarks(s1, oid, 1);
    MarkedThenReleased(s1, oid, Expired);
  }

  /** A shop with q tickets of each of two types. */
  predicate ShopOfTwo(s: Stores, a: Id, b: Id, q: Quantity) {
    && a != b
    && s == Stores(Redis(map[], map[], map[]),
                   Database(map[a := TypeRow(q, 0, 0, q, 100, true), b := TypeRow(q, 0, 0, q, 100, true)],
                            map[], map[], []))
  }

  /** The first type is sold out: its stock key is down to zero, and the second has no keys yet. */
  predicate FirstSoldOut(s: Stores, a: Id, b: Id, q: Quantity, oid: Id, user: Id) {
    && a in s.db.types && b in s.db.types && s.db.types[a].onSale && s.db.types[b] == TypeRow(q, 0, 0, q, 100, true)
    && s.redis.stock == map[a := 0] && s.redis.limit == map[(user, a) := q] && s.redis.holds.Keys == {oid}
    && s.db.counters.Keys == {(user, a)}
  }

  lemma PlacedSellsOut(s: Stores, a: Id, b: Id, q: Quantity, oid: Id, user: Id)
    requires ShopOfTwo(s, a, b, q)
    ensures var row := Order(user, [Item(a, q)], PendingPayment, Amount(s.db.types, [Item(a, q)]), 0);
            FirstSoldOut(PlaceOne(SeedOne(s, user, a), oid, row), a, b, q, oid, user)
  {
    OneItemQty(Item(a, q), b);
    assert [Item(a, q)][1..] == [];
    assert UpsertReserved(s.db.counters, user, [Item(a, q)]) == map[(user, a) := Counter(0, q)];
  }

  lemma OrderingSellsOut(s: Stores, a: Id, b: Id, q: Quantity, oid: Id, user: Id)
    requires ShopOfTwo(s, a, b, q)
    ensures FirstSoldOut(Apply(s, Ordering(oid, user, a, q)), a, b, q, oid, user)
  {
    var it := Item(a, q);
    assert [it][1..] == [];
    assert SeedAll(s, user, [it]) == SeedOne(s, user, a);
    InitialIsTight(s);
    CreateOneKeeps(s, oid, user, [it], 0, NO_FAULTS);
    PlacedSellsOut(s, a, b, q, oid, user);
  }

  lemma SecondIsAccepted(s: Stores, a: Id, b: Id, q: Quantity, oid: Id, user: Id, other: Id, newOid: Id)
    requires FirstSoldOut(s, a, b, q, oid, user) && a != b && user != other && oid != newOid
    ensures var items := [Item(a, q), Item(b, q)];
            var seeded := SeedAll(s, other, items);
            && ValidItems(s.db.types, items) && seeded.redis.stock == map[a := 0, b := q]
            && FirstAccepted(seeded.redis, s.db.types, newOid, other, items) == 1
  {
    var items := [Item(a, q), Item(b, q)];
    var rest := [Item(b, q)];
    assert items[1..] == rest && rest[1..] == [];
    var first := SeedOne(s, other, a);
    assert SeedAll(first, other, rest) == SeedAll(SeedOne(first, other, b), other, []);
    assert SeedAll(s, other, items) == SeedOne(first, other, b);
  }

  /**
    Someone else's order of both types is refused, leaves no row, and takes the second type out of stock;
    when its key has lapsed nothing is left to bring it back.
   */
  lemma RefusedOrderTakesSecondType(s0: Stores, a: Id, b: Id, q: Quantity, oid: Id, user: Id, other: Id, newOid: Id)
    requires ShopOfTwo(s0, a, b, q) && user != other && oid != newOid
    ensures var s, items := Apply(s0, Ordering(oid, user, a, q)), [Item(a, q), Item(b, q)];
            var (refused, out) := CreateOrder(s, newOid, other, items, 0, NO_FAULTS);
            var lapsed := Apply(refused, KeyLapses(newOid));
            && Leaks(s, newOid, other, items) && out == Refused && lapsed.db == s.db
            && newOid !in lapsed.redis.holds && b in lapsed.redis.stock && lapsed.redis.stock[b] == 0
            && b in lapsed.db.types && Available(lapsed.db.types[b]) == q
  {
    var s, items := Apply(s0, Ordering(oid, user, a, q)), [Item(a, q), Item(b, q)];
    OrderingSellsOut(s0, a, b, q, oid, user);
    SecondIsAccepted(s, a, b, q, oid, user, other, newOid);
    LeakTakes(s, newOid, other, items);
  }

  /** What a leak does to the keys and the rows. */
  lemma LeakTakes(s: Stores, oid: Id, user: Id, items: seq<Item>)
    requires Leaks(s, oid, user, items)
    ensures var seeded := SeedAll(s, user, items);
            var k := FirstAccepted(seeded.redis, s.db.types, oid, user, items);
            CreateOrder(s, oid, user, items, 0, NO_FAULTS) ==
            (Stores(Reserve(seeded.redis, oid, user, items[k]), s.db), Refused)
  {
    SeedAllAdds(s, user, items);
  }
}
