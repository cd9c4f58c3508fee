/** The services, statement by statement, each proved to do to the two stores what the ledger says. */
module Services {
  import opened Ledger
  import opened Tables

  class OrderService {
    const redis: RedisService
    const prisma: PrismaService

    constructor (redis: RedisService, prisma: PrismaService)
      ensures this.redis == redis && this.prisma == prisma
    {
      this.redis, this.prisma := redis, prisma;
    }

    function View(): Stores
      reads redis, prisma
    {
      Stores(redis.View(), prisma.View())
    }

    method EnsureRedisStock(t: Id)
      modifies redis
      ensures redis.holds == old(redis.holds) && redis.limit == old(redis.limit)
      ensures redis.stock == if t in old(redis.stock) || t !in prisma.types then old(redis.stock)
                             else old(redis.stock)[t := Max(0, Available(prisma.types[t]))]
    {
      if t in redis.stock || t !in prisma.types { return; }
      redis.SetStockNx(t, Max(0, Available(prisma.types[t])));
    }

    method EnsureRedisUserLimit(user: Id, t: Id)
      modifies redis
      ensures redis.holds == old(redis.holds) && redis.stock == old(redis.stock)
      ensures redis.limit == if (user, t) in old(redis.limit) then old(redis.limit)
                             else old(redis.limit)[(user, t) := Used(prisma.counters, user, t)]
    {
      if (user, t) in redis.limit { return; }
      var counter := if (user, t) in prisma.counters then prisma.counters[(user, t)] else Counter(0, 0);
      redis.SetLimitNx(user, t, counter.paidQty + counter.reservedQty);
    }

    method SeedKeys(user: Id, items: seq<Item>)
      modifies redis
      ensures View() == SeedAll(old(View()), user, items)
    {
      assert items[0..] == items;
      for i := 0 to |items|
        invariant SeedAll(View(), user, items[i..]) == SeedAll(old(View()), user, items)
      {
        ghost var before := View();
        EnsureRedisStock(items[i].typeId);
        EnsureRedisUserLimit(user, items[i].typeId);
        assert View() == SeedOne(before, user, items[i].typeId);
        assert items[i..][1..] == items[i + 1..];
      }
    }

    /** Calls the reserve script once per item, all with the same reservation key. */
    method ReserveItems(oid: Id, user: Id, items: seq<Item>) returns (results: seq<bool>)
      requires ValidItems(prisma.types, items)
      modifies redis
      ensures |results| == |items|
      ensures var k := FirstAccepted(old(redis.View()), prisma.types, oid, user, items);
              && (forall j :: 0 <= j < |items| ==> results[j] == (j == k))
              && redis.View() == if k < |items| then Reserve(old(redis.View()), oid, user, items[k])
                   else old(redis.View())
    {
      results := [];
      ghost var r := redis.View();
      ghost var k := FirstAccepted(r, prisma.types, oid, user, items);
      for i := 0 to |items|
        invariant |results| == i
        invariant forall j :: 0 <= j < i ==> results[j] == (j == k)
        invariant redis.View() == if k < i then Reserve(r, oid, user, items[k]) else r
      {
        var ok := redis.ReserveTicket(oid, user, items[i], prisma.types[items[i].typeId].maxPerUser);
        results := results + [ok];
      }
    }

    method Total(items: seq<Item>) returns (total: int)
      requires ValidItems(prisma.types, items)
      ensures total == Amount(prisma.types, items)
    {
      total := 0;
      assert items[0..] == items;
      for i := 0 to |items|
        invariant total + Amount(prisma.types, items[i..]) == Amount(prisma.types, items)
      {
        assert items[i] in items && items[i..][1..] == items[i + 1..];
        total := total + prisma.types[items[i].typeId].price * items[i].qty;
      }
    }

    method CreateOrder(oid: Id, user: Id, items: seq<Item>, expiresAt: int, faults: Faults) returns (out: CreateOutcome)
      requires prisma.Valid()
      modifies redis, prisma
      ensures prisma.Valid()
      ensures (View(), out) == Ledger.CreateOrder(old(View()), oid, user, items, expiresAt, faults)
    {
      // Step 1: validate every ticket type
      for i := 0 to |items|
        invariant View() == old(View())
        invariant forall j :: 0 <= j < i ==> items[j].typeId in prisma.types && prisma.types[items[j].typeId].onSale
      {
        if items[i].typeId !in prisma.types || !prisma.types[items[i].typeId].onSale {
          assert items[i] in items;
          return InvalidItems;
        }
      }

      // Steps 2 to 4: seed the keys, then reserve every item
      SeedKeys(user, items);
      ghost var seeded := View();
      var results := ReserveItems(oid, user, items);
      ghost var k := FirstAccepted(seeded.redis, prisma.types, oid, user, items);
      var failedIndex := 0;
      while failedIndex < |results| && results[failedIndex]
        invariant failedIndex <= |results| && (failedIndex == 0 || (failedIndex == 1 && k == 0))
      {
        failedIndex := failedIndex + 1;
      }
      if failedIndex < |results| {
        RollBack(oid, user, items, failedIndex, seeded.redis);
        return Refused;
      }
      assert |items| <= 1;

      // Step 5: the order row, then the inventory transaction, then the gateway
      out := PlaceReserved(oid, user, items, expiresAt, faults, seeded);
    }

    /** The reverse loop over the items before the first refused one. */
    method RollBack(oid: Id, user: Id, items: seq<Item>, failedIndex: nat, ghost seeded: Redis)
      requires ValidItems(prisma.types, items) && failedIndex < |items|
      requires var k := FirstAccepted(seeded, prisma.types, oid, user, items);
               && failedIndex == (if k == 0 then 1 else 0)
               && redis.View() == if k < |items| then Reserve(seeded, oid, user, items[k]) else seeded
      modifies redis
      ensures var k := FirstAccepted(seeded, prisma.types, oid, user, items);
              redis.View() == if k == 0 then Release(Reserve(seeded, oid, user, items[0]), oid, user, items[0])
                              else if k < |items| then Reserve(seeded, oid, user, items[k]) else seeded
    {
      ghost var before := redis.View();
      var i := failedIndex - 1;
      while i >= 0
        invariant -1 <= i < failedIndex
        invariant redis.View() == if i == failedIndex - 1 then before else Release(before, oid, user, items[0])
      {
        var _ := redis.ReleaseReservation(oid, user, items[i]);
        i := i - 1;
      }
    }

    method PlaceReserved(oid: Id, user: Id, items: seq<Item>, expiresAt: int, faults: Faults, ghost s: Stores)
      returns (out: CreateOutcome)
      requires prisma.Valid() && |items| <= 1 && ValidItems(prisma.types, items)
      requires s.db == prisma.View()
      requires redis.View() == if items == [] then s.redis else Reserve(s.redis, oid, user, items[0])
      modifies redis, prisma
      ensures prisma.Valid()
      ensures redis.View() == PlaceOrder(s, oid, user, items, expiresAt, faults).0.redis
      ensures prisma.View() == PlaceOrder(s, oid, user, items, expiresAt, faults).0.db
      ensures out == PlaceOrder(s, oid, user, items, expiresAt, faults).1
    {
      var total := Total(items);
      if !faults.insertOk || oid in prisma.orders {
        redis.ReleaseItems(oid, user, items);
        return InsertFailed;
      }
      prisma.orders := prisma.orders[oid := Order(user, items, PendingPayment, total, expiresAt)];
      var counted := prisma.ReserveInventory(user, items, faults.inventoryOk);
      if !counted {
        DropPlacement(oid, user, items);
        return InventoryFailed;
      }
      if !faults.gatewayOk {
        UndoPlacement(oid, user, items);
        return GatewayFailed;
      }
      return Created;
    }

    /** The rollback after a full inventory; a failure of the delete is swallowed. */
    method DropPlacement(oid: Id, user: Id, items: seq<Item>)
      requires prisma.Valid()
      modifies redis, prisma`orders
      ensures prisma.Valid()
      ensures redis.View() == ReleaseAll(old(redis.View()), oid, user, items)
      ensures prisma.orders == Ledger.DeleteOrder(old(prisma.orders), oid)
    {
      redis.ReleaseItems(oid, user, items);
      var _ := prisma.DeleteOrder(oid);
    }

    /** The rollback after a gateway failure; when the delete fails, that failure replaces the gateway's. */
    method UndoPlacement(oid: Id, user: Id, items: seq<Item>)
      requires forall it :: it in items ==> it.typeId in prisma.types
      requires prisma.Valid()
      modifies redis, prisma
      ensures prisma.Valid()
      ensures redis.View() == ReleaseAll(old(redis.View()), oid, user, items)
      ensures prisma.types == DropTypes(old(prisma.types), items)
      ensures prisma.counters == DropCounters(old(prisma.counters), user, items)
      ensures prisma.orders == Ledger.DeleteOrder(old(prisma.orders), oid) && prisma.tickets == old(prisma.tickets)
    {
      redis.ReleaseItems(oid, user, items);
      prisma.DecrementTypes(items);
      var _ := prisma.DecrementCounters(user, items);
      var _ := prisma.DeleteOrder(oid);
    }

    method CancelOrder(oid: Id, user: Id) returns (out: Outcome)
      requires prisma.Valid()
      modifies redis, prisma
      ensures prisma.Valid()
      ensures (View(), out) == Ledger.CancelOrder(old(View()), oid, user)
    {
      if oid !in prisma.orders { return NotFound; }
      var o := prisma.orders[oid];
      if o.user != user { return Forbidden; }
      if !o.status.PendingPayment? { return BadRequest; }
      redis.ReleaseItems(oid, user, o.items);
      prisma.DecrementTypes(o.items);
      var ok := prisma.DecrementCounters(user, o.items);
      if !ok { return Failed; }
      prisma.orders := prisma.orders[oid := o.(status := Cancelled)];
      return Done;
    }

    method ExpireOrder(oid: Id, now: int) returns (out: Outcome)
      requires prisma.Valid()
      modifies redis, prisma
      ensures prisma.Valid()
      ensures (View(), out) == Ledger.ExpireOrder(old(View()), oid, now)
    {
      if oid !in prisma.orders { return NotFound; }
      var o := prisma.orders[oid];
      if !o.status.PendingPayment? { return Ignored; }
      if o.expiresAt > now { return Ignored; }
      redis.ReleaseItems(oid, o.user, o.items);
      var ok := prisma.DecrementCounters(o.user, o.items);
      if !ok { return Failed; }
      prisma.DecrementTypes(o.items);
      prisma.orders := prisma.orders[oid := o.(status := Expired)];
      return Done;
    }
  }

  class PaymentService {
    const redis: RedisService
    const prisma: PrismaService

    constructor (redis: RedisService, prisma: PrismaService)
      ensures this.redis == redis && this.prisma == prisma
    {
      this.redis, this.prisma := redis, prisma;
    }

    function View(): Stores
      reads redis, prisma
    {
      Stores(redis.View(), prisma.View())
    }

    method HandleMockWebhook(oid: Id, signed: bool, amount: int, result: WebhookResult) returns (out: Outcome)
      requires prisma.Valid()
      modifies redis, prisma
      ensures prisma.Valid()
      ensures (View(), out) == Webhook(old(View()), oid, signed, amount, result)
    {
      if !signed { return BadRequest; }
      if oid !in prisma.orders { return NotFound; }
      var o := prisma.orders[oid];
      if o.amount != amount { return BadRequest; }
      if o.status.Paid? { return Ignored; }
      if o.status.Expired? { return Ignored; }   // recorded as a late payment
      if !o.status.PendingPayment? { return Ignored; }
      match result
      case Failure => HandlePaymentFailed(oid); return Done;
      case Timeout => return Done;               // only the payment transaction is recorded
      case Success => HandlePaymentSuccess(oid); return Done;
    }

    method HandlePaymentFailed(oid: Id)
      requires prisma.Valid() && oid in prisma.orders && prisma.orders[oid].status.PendingPayment?
      modifies redis, prisma
      ensures prisma.Valid()
      ensures View() == CloseUnpaid(old(View()), oid, PaymentFailed)
    {
      var o := prisma.orders[oid];
      prisma.orders := prisma.orders[oid := o.(status := PaymentFailed)];
      prisma.DecrementGuarded(o.user, o.items);
      redis.ReleaseItems(oid, o.user, o.items);
      SameKeys(old(prisma.types), old(prisma.counters), o.user, o.items);
    }

    /** Every ticket is planned before the transaction. */
    method PlanTickets(oid: Id, user: Id, items: seq<Item>) returns (plans: seq<TicketRow>)
      ensures plans == TicketsOf(oid, user, items)
    {
      plans := [];
      assert items[0..] == items;
      for i := 0 to |items|
        invariant plans + TicketsOf(oid, user, items[i..]) == TicketsOf(oid, user, items)
      {
        TicketsStep(oid, user, items, i, plans);
        plans := PlanItem(oid, user, items[i], plans);
      }
    }

    method PlanItem(oid: Id, user: Id, it: Item, before: seq<TicketRow>) returns (plans: seq<TicketRow>)
      ensures plans == before + TicketsOfItem(oid, user, it)
    {
      plans := before;
      for n := 0 to it.qty
        invariant plans == before + seq(n, _ => TicketRow(oid, it.typeId, user))
      {
        plans := plans + [TicketRow(oid, it.typeId, user)];
      }
    }

    method HandlePaymentSuccess(oid: Id)
      requires prisma.Valid() && oid in prisma.orders
      modifies redis, prisma
      ensures prisma.Valid()
      ensures View() == PayAndIssue(old(View()), oid)
    {
      var o := prisma.orders[oid];
      var items := o.items;
      var plans := PlanTickets(oid, o.user, items);
      // one transaction
      prisma.orders := prisma.orders[oid := o.(status := Paid)];
      prisma.InsertPlans(plans);
      prisma.SellTypes(items);
      prisma.SellCounters(o.user, items);
      redis.DeleteReservation(oid);
    }
  }

  /** Guarded updates rewrite rows but add and remove none. */
  lemma {:induction false} SameKeys(types: map<Id, TypeRow>, counters: map<UserKey, Counter>, user: Id,
                                    items: seq<Item>)
    ensures DropTypesGuarded(types, items).Keys == types.Keys
    ensures DropCountersGuarded(counters, user, items).Keys == counters.Keys
    decreases |items|
  {
    if items != [] {
      var it, k := items[0], (user, items[0].typeId);
      var types' := if it.typeId in types && types[it.typeId].reservedQty >= it.qty
                    then types[it.typeId := types[it.typeId].(reservedQty := types[it.typeId].reservedQty -
                      it.qty)] else types;
      var counters' := if k in counters && counters[k].reservedQty >= it.qty
                       then counters[k := Counter(counters[k].paidQty, counters[k].reservedQty - it.qty)] else counters;
      SameKeys(types', counters', user, items[1..]);
    }
  }

  /** The cron run, order by order; a row does not go while it has items. */
  function CronAll(s: Stores, stuck: seq<Id>, verdicts: seq<Verdict>): Stores
    requires |verdicts| == |stuck|
    decreases |stuck|
  {
    if stuck == [] then s
    else CronAll(if stuck[0] in s.db.orders then CronHandle(s, stuck[0], verdicts[0]) else s, stuck[1..], verdicts[1..])
  }

  class PaymentCronService {
    const redis: RedisService
    const prisma: PrismaService

    constructor (redis: RedisService, prisma: PrismaService)
      ensures this.redis == redis && this.prisma == prisma
    {
      this.redis, this.prisma := redis, prisma;
    }

    function View(): Stores
      reads redis, prisma
    {
      Stores(redis.View(), prisma.View())
    }

    /** `stuck` is what the query returned, at most fifty orders; each may have moved by the time its turn comes. */
    method VerifyStuckPendingPayments(stuck: seq<Id>, verdicts: seq<Verdict>)
      requires prisma.Valid() && |verdicts| == |stuck| <= 50
      requires forall oid :: oid in stuck ==> oid in prisma.orders
      modifies redis, prisma
      ensures prisma.Valid()
      ensures View() == CronAll(old(View()), stuck, verdicts)
    {
      assert stuck[0..] == stuck && verdicts[0..] == verdicts;
      for i := 0 to |stuck|
        invariant prisma.Valid()
        invariant forall oid :: oid in stuck ==> oid in prisma.orders
        invariant CronAll(View(), stuck[i..], verdicts[i..]) == CronAll(old(View()), stuck, verdicts)
      {
        assert stuck[i..][1..] == stuck[i + 1..] && verdicts[i..][1..] == verdicts[i + 1..];
        match verdicts[i]
        case VerifiedPaid => MarkOrderPaid(stuck[i]);
        case VerifiedFailed => ExpireOrderAndReleaseInventory(stuck[i], PaymentFailed);
        case StillPending => ExpireOrderAndReleaseInventory(stuck[i], Expired);
      }
    }

    method MarkOrderPaid(oid: Id)
      requires prisma.Valid() && oid in prisma.orders
      modifies prisma
      ensures prisma.Valid() && prisma.orders.Keys == old(prisma.orders).Keys
      ensures View() == CronHandle(old(View()), oid, VerifiedPaid)
    {
      if !prisma.orders[oid].status.PendingPayment? { return; }
      prisma.orders := prisma.orders[oid := prisma.orders[oid].(status := Paid)];
    }

    method ExpireOrderAndReleaseInventory(oid: Id, status: OrderStatus)
      requires prisma.Valid() && oid in prisma.orders
      modifies redis, prisma
      ensures prisma.Valid() && prisma.orders.Keys == old(prisma.orders).Keys
      ensures View() == CloseIfPending(old(View()), oid, status)
    {
      var o := prisma.orders[oid];
      if o.status.PendingPayment? {
        prisma.orders := prisma.orders[oid := o.(status := status)];
        prisma.DecrementGuarded(o.user, o.items);
        SameKeys(old(prisma.types), old(prisma.counters), o.user, o.items);
      }
      redis.ReleaseItems(oid, o.user, o.items);
    }
  }

  class TicketIssueProcessor {
    const redis: RedisService
    const prisma: PrismaService

    constructor (redis: RedisService, prisma: PrismaService)
      ensures this.redis == redis && this.prisma == prisma
    {
      this.redis, this.prisma := redis, prisma;
    }

    function View(): Stores
      reads redis, prisma
    {
      Stores(redis.View(), prisma.View())
    }

    method Process(oid: Id) returns (out: Outcome)
      requires prisma.Valid()
      modifies prisma
      ensures prisma.Valid()
      ensures (View(), out) == IssueTickets(old(View()), oid)
    {
      if oid !in prisma.orders { return Failed; }
      var o := prisma.orders[oid];
      if !o.status.Paid? { return Ignored; }
      var items := o.items;
      if |items| == 0 { return Failed; }
      if HasTickets(prisma.tickets, oid) { return Ignored; }
      IssueItems(oid, o.user, items);
      return Done;
    }

    /** The worker's transaction: per item, the two counters and then its tickets. */
    method IssueItems(oid: Id, user: Id, items: seq<Item>)
      requires forall it :: it in items ==> it.typeId in prisma.types
      modifies prisma`types, prisma`counters, prisma`tickets
      ensures prisma.types == SellTypes(old(prisma.types), items)
      ensures prisma.counters == UpsertSold(old(prisma.counters), user, items)
      ensures prisma.tickets == old(prisma.tickets) + TicketsOf(oid, user, items)
    {
      assert items[0..] == items && prisma.types == SellTypes(prisma.types, items[..0]);
      for i := 0 to |items|
        invariant prisma.types == SellTypes(old(prisma.types), items[..i])
        invariant UpsertSold(prisma.counters, user, items[i..]) == UpsertSold(old(prisma.counters), user, items)
        invariant prisma.tickets + TicketsOf(oid, user, items[i..]) == old(prisma.tickets) + TicketsOf(oid, user, items)
      {
        assert items[i] in items && items[i..][1..] == items[i + 1..];
        IssueNext(oid, user, items, i, old(prisma.types));
      }
      assert items[..|items|] == items;
    }

    method IssueNext(oid: Id, user: Id, items: seq<Item>, i: nat, ghost types0: map<Id, TypeRow>)
      requires i < |items| && items[i].typeId in types0 && prisma.types == SellTypes(types0, items[..i])
      modifies prisma`types, prisma`counters, prisma`tickets
      ensures prisma.types == SellTypes(types0, items[..i + 1])
      ensures UpsertSold(prisma.counters, user, items[i + 1..]) == UpsertSold(old(prisma.counters), user, items[i..])
      ensures prisma.tickets + TicketsOf(oid, user, items[i + 1..]) ==
                old(prisma.tickets) + TicketsOf(oid, user, items[i..])
    {
      SellTypesSnoc(types0, items, i);
      TicketsStep(oid, user, items, i, prisma.tickets);
      assert items[i..][1..] == items[i + 1..];
      prisma.SellTypeRow(items[i]);
      prisma.SellCounterRow(user, items[i]);
      prisma.InsertTickets(oid, user, items[i]);
    }
  }

  class TicketTypeService {
    const redis: RedisService
    const prisma: PrismaService

    constructor (redis: RedisService, prisma: PrismaService)
      ensures this.redis == redis && this.prisma == prisma
    {
      this.redis, this.prisma := redis, prisma;
    }

    function View(): Stores
      reads redis, prisma
    {
      Stores(redis.View(), prisma.View())
    }

    method Create(t: Id, totalQty: Quantity, maxPerUser: Quantity, price: int) returns (out: Outcome)
      requires prisma.Valid()
      modifies redis, prisma
      ensures prisma.Valid()
      ensures (View(), out) == CreateType(old(View()), t, totalQty, maxPerUser, price)
    {
      if t in prisma.types { return BadRequest; }
      prisma.types := prisma.types[t := TypeRow(totalQty, 0, 0, maxPerUser, price, true)];
      redis.SeedStock(t, totalQty);
      return Done;
    }

    method Update(t: Id, change: TypeChange) returns (out: Outcome)
      requires prisma.Valid()
      modifies redis, prisma
      ensures prisma.Valid()
      ensures (View(), out) == ResizeType(old(View()), t, change)
    {
      if t !in prisma.types { return NotFound; }
      var existing := prisma.types[t];
      if change.totalQty.Some? && change.totalQty.value < existing.soldQty + existing.reservedQty { return BadRequest; }
      var row := existing;
      if change.totalQty.Some? { row := row.(totalQty := change.totalQty.value); }
      if change.maxPerUser.Some? { row := row.(maxPerUser := change.maxPerUser.value); }
      if change.price.Some? { row := row.(price := change.price.value); }
      if change.onSale.Some? { row := row.(onSale := change.onSale.value); }
      prisma.types := prisma.types[t := row];
      var available := row.totalQty - row.soldQty - row.reservedQty;
      if change.totalQty.Some? {
        redis.SeedStock(t, available);
      }
      if available == 0 && row.onSale {
        prisma.types := prisma.types[t := row.(onSale := false)];
      }
      assert prisma.types == old(prisma.types)[t := row.(onSale := row.onSale && available != 0)];
      return Done;
    }
  }
}
