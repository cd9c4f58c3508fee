/**
  What a customer, the payment provider and an admin get from each call on orders and ticket types, in
  terms of rows, keys and answers alone.
 */
module OrderCalls {
  import opened Wrappers
  import opened Sums
  import opened Ledger
  import opened Books
  import opened BooksSteps
  import opened StoresSteps
  import opened Lifecycle

  // ------------------------------------------------------------------ the amount

  lemma AmountOfOne(types: map<Id, TypeRow>, it: Item)
    requires it.typeId in types
    ensures Amount(types, [it]) == types[it.typeId].price * it.qty
  {
    assert [it][1..] == [];
  }

  lemma {:induction false} AmountAdds(types: map<Id, TypeRow>, a: seq<Item>, b: seq<Item>)
    ensures Amount(types, a + b) == Amount(types, a) + Amount(types, b)
  {
    if a == [] {
      assert a + b == b;
    } else {
      assert (a + b)[1..] == a[1..] + b;
      AmountAdds(types, a[1..], b);
    }
  }

  // ------------------------------------------------------------------ createOrder

  /** Only an unknown type, or one not on sale, makes an order invalid. */
  lemma InvalidIff(s: Stores, oid: Id, user: Id, items: seq<Item>, expiresAt: int, f: Faults)
    ensures var (s', out) := CreateOrder(s, oid, user, items, expiresAt, f);
            && (out.InvalidItems? <==>
                  exists it :: it in items && (it.typeId in s.db.types ==> !s.db.types[it.typeId].onSale))
            && (out.InvalidItems? ==> s' == s)
  {
  }

  /** Stock and limit, as a reader of the keys or of their seeds sees them, have room for the item. */
  predicate HasBoth(s: Stores, user: Id, it: Item)
    requires it.typeId in s.db.types
  {
    && it.qty <= StockOrSeed(s, it.typeId)
    && LimitOrSeed(s, user, it.typeId) + it.qty <= s.db.types[it.typeId].maxPerUser
  }

  lemma AcceptedIff(s: Stores, oid: Id, user: Id, it: Item)
    requires ValidItems(s.db.types, [it]) && oid !in s.redis.holds
    ensures it.typeId in s.db.types
    ensures FirstAccepted(SeedAll(s, user, [it]).redis, s.db.types, oid, user, [it]) == 0 <==> HasBoth(s, user, it)
  {
    assert it in [it] && [it][1..] == [];
    assert SeedAll(s, user, [it]) == SeedOne(s, user, it.typeId);
  }

  /** The answer to an order of one type: who is refused, at which point it can fail, and that nothing else does. */
  lemma SingleOrderAnswers(s: Stores, oid: Id, user: Id, it: Item, expiresAt: int, f: Faults)
    requires Inv(s) && Fresh(s, oid) && it.typeId in s.db.types && s.db.types[it.typeId].onSale
    ensures var out := CreateOrder(s, oid, user, [it], expiresAt, f).1;
            && (out.Refused? <==> !HasBoth(s, user, it))
            && (out.InsertFailed? <==> HasBoth(s, user, it) && !f.insertOk)
            && (out.InventoryFailed? <==> HasBoth(s, user, it) && f.insertOk && !f.inventoryOk)
            && (out.GatewayFailed? <==> HasBoth(s, user, it) && f.insertOk && f.inventoryOk && !f.gatewayOk)
            && (out.Created? <==> HasBoth(s, user, it) && f.insertOk && f.inventoryOk && f.gatewayOk)
  {
    AcceptedIff(s, oid, user, it);
    if HasBoth(s, user, it) {
      GrantFirst(s, oid, user, [it]);
    }
  }

  /** With exact keys: while calls succeed, an order is placed exactly when the books have room for it. */
  lemma WhatIsLeftCanBeOrdered(s: Stores, oid: Id, user: Id, it: Item, expiresAt: int)
    requires Inv(s) && Tight(s) && Fresh(s, oid) && it.typeId in s.db.types && s.db.types[it.typeId].onSale
    ensures var row := s.db.types[it.typeId];
            CreateOrder(s, oid, user, [it], expiresAt, Faults(true, true, true)).1.Created? <==>
            && row.soldQty + row.reservedQty + it.qty <= row.totalQty
            && PaidAt(s.db.counters, user, it.typeId) + ReservedAt(s.db.counters, user, it.typeId) + it.qty <=
                 row.maxPerUser
  {
    SingleOrderAnswers(s, oid, user, it, expiresAt, Faults(true, true, true));
    assert TypeRowOk(s.db.types[it.typeId]);
    assert it.typeId in s.redis.stock ==> StockGap(s, it.typeId) == 0;
    assert (user, it.typeId) in s.redis.limit ==> LimitGap(s, user, it.typeId) == 0;
  }

  /** What a created order of one type leaves: its row at the asked price, its key, and its units counted. */
  lemma CreatedOrderIs(s: Stores, oid: Id, user: Id, it: Item, expiresAt: int, f: Faults)
    requires CreateOrder(s, oid, user, [it], expiresAt, f).1.Created?
    ensures var s' := CreateOrder(s, oid, user, [it], expiresAt, f).0;
            && it.typeId in s.db.types
            && s'.db.orders == s.db.orders[oid := s'.db.orders[oid]]
            && s'.db.orders[oid].user == user && s'.db.orders[oid].items == [it]
            && s'.db.orders[oid].status == PendingPayment && s'.db.orders[oid].expiresAt == expiresAt
            && s'.db.orders[oid].amount == s.db.types[it.typeId].price * it.qty
            && s'.db.tickets == s.db.tickets
            && s'.redis.holds == s.redis.holds[oid := Hold(oid, user, it.typeId, it.qty)]
            && s'.db.types.Keys == s.db.types.Keys
            && (forall t :: t in s.db.types ==> s'.db.types[t] == s.db.types[t].(reservedQty :=
                  s.db.types[t].reservedQty + if t == it.typeId then it.qty else 0))
  {
    assert it in [it] && [it][1..] == [];
    AmountOfOne(s.db.types, it);
    SeedAllAdds(s, user, [it]);
    forall t
      ensures QtyOf([it], t) == if t == it.typeId then it.qty else 0
    {
      OneItemQty(it, t);
    }
  }

  /** And what its readers then see in both keys. */
  lemma CreatedOrderTakes(s: Stores, oid: Id, user: Id, it: Item, expiresAt: int, f: Faults, t: Id, u: Id)
    requires CreateOrder(s, oid, user, [it], expiresAt, f).1.Created? && t in s.db.types
    ensures var s' := CreateOrder(s, oid, user, [it], expiresAt, f).0;
            && t in s'.db.types
            && StockOrSeed(s', t) == StockOrSeed(s, t) - (if t == it.typeId then it.qty else 0)
            && LimitOrSeed(s', u, t) == LimitOrSeed(s, u, t) + (if t == it.typeId && u == user then it.qty else 0)
  {
    assert it in [it] && [it][1..] == [];
    var s1 := SeedAll(s, user, [it]);
    assert s1 == SeedAll(SeedOne(s, user, it.typeId), user, [it][1..]);
    assert s1 == SeedOne(s, user, it.typeId);
    OneItemQty(it, t);
    UpsertReservedAt(s.db.counters, user, [it], u, t);
  }

  // ------------------------------------------------------------------ how an order ends

  /** The order got this status, its key is gone and its units are free again; nothing else changed. */
  ghost predicate Ended(s: Stores, s': Stores, oid: Id, status: OrderStatus)
    requires oid in s.db.orders
  {
    var o := s.db.orders[oid];
    && s'.db.orders == s.db.orders[oid := o.(status := status)] && s'.db.tickets == s.db.tickets
    && s'.db.types.Keys == s.db.types.Keys
    && (forall t :: t in s.db.types ==>
          s'.db.types[t] == s.db.types[t].(reservedQty := s.db.types[t].reservedQty - QtyOf(o.items, t)))
    && (forall u, t :: PaidAt(s'.db.counters, u, t) == PaidAt(s.db.counters, u, t))
    && (forall u, t :: ReservedAt(s'.db.counters, u, t) ==
          ReservedAt(s.db.counters, u, t) - if u == o.user then QtyOf(o.items, t) else 0)
    && s'.redis.holds == s.redis.holds - {oid}
    && (forall t :: ReadStock(s'.redis, t) ==
          ReadStock(s.redis, t) + if oid in s.redis.holds then QtyOf(o.items, t) else 0)
    && (forall u, t :: ReadLimit(s'.redis, u, t) ==
          ReadLimit(s.redis, u, t) - if oid in s.redis.holds && u == o.user then QtyOf(o.items, t) else 0)
  }

  lemma ClosingEnds(s: Stores, oid: Id, status: OrderStatus)
    requires Inv(s) && oid in s.db.orders && s.db.orders[oid].status.PendingPayment?
    requires !status.PendingPayment? && !status.Paid?
    ensures CloseUnpaid(s, oid, status) == CloseOne(s, oid, status)
    ensures Ended(s, CloseOne(s, oid, status), oid, status)
  {
    var o := s.db.orders[oid];
    ClosingIsClosing(s, oid, status);
    CloseRedis(s, oid);
    forall u, t
      ensures PaidAt(DropCounters(s.db.counters, o.user, o.items), u, t) == PaidAt(s.db.counters, u, t)
      ensures ReservedAt(DropCounters(s.db.counters, o.user, o.items), u, t) ==
              ReservedAt(s.db.counters, u, t) - if u == o.user then QtyOf(o.items, t) else 0
    {
      DropCountersAt(s.db.counters, o.user, o.items, u, t);
    }
  }

  /** The order is paid, each unit of it is a ticket of its user and type, and its key is gone. */
  ghost predicate PaidFor(s: Stores, s': Stores, oid: Id)
    requires oid in s.db.orders
  {
    var o := s.db.orders[oid];
    && s'.db.orders == s.db.orders[oid := o.(status := Paid)]
    && s'.redis == s.redis.(holds := s.redis.holds - {oid})
    && TicketsFor(s, s', oid)
  }

  /** Tickets were appended for exactly the units of the order, and counted as sold instead of reserved. */
  ghost predicate TicketsFor(s: Stores, s': Stores, oid: Id)
    requires oid in s.db.orders
  {
    var o := s.db.orders[oid];
    && s.db.tickets <= s'.db.tickets
    && (forall row :: row in s'.db.tickets[|s.db.tickets|..] ==> row.orderId == oid && row.user == o.user)
    && |s'.db.tickets| == |s.db.tickets| + TotalQty(o.items)
    && (forall t :: SoldTotal(s'.db, None, t) == SoldTotal(s.db, None, t) + QtyOf(o.items, t))
    && s'.db.types.Keys == s.db.types.Keys
    && (forall t :: t in s.db.types ==> s'.db.types[t] == s.db.types[t].(
          soldQty := s.db.types[t].soldQty + QtyOf(o.items, t),
          reservedQty := s.db.types[t].reservedQty - QtyOf(o.items, t)))
  }

  lemma {:induction false} AllTicketsOf(oid: Id, user: Id, items: seq<Item>)
    ensures |TicketsOf(oid, user, items)| == TotalQty(items)
    ensures forall row :: row in TicketsOf(oid, user, items) ==> row.orderId == oid && row.user == user
  {
    if items != [] {
      AllTicketsOf(oid, user, items[1..]);
    }
  }

  lemma IssuingGives(s: Stores, s': Stores, oid: Id)
    requires oid in s.db.orders
    requires var o := s.db.orders[oid];
             && s'.db.tickets == s.db.tickets + TicketsOf(oid, o.user, o.items)
             && s'.db.types == SellTypes(s.db.types, o.items)
    ensures TicketsFor(s, s', oid)
  {
    var o := s.db.orders[oid];
    var more := TicketsOf(oid, o.user, o.items);
    AllTicketsOf(oid, o.user, o.items);
    assert s'.db.tickets[|s.db.tickets|..] == more;
    forall t
      ensures SoldTotal(s'.db, None, t) == SoldTotal(s.db, None, t) + QtyOf(o.items, t)
    {
      CountAppend(s.db.tickets, more, OfType(None, t));
      TicketCounts(oid, o.user, o.items, None, t);
    }
  }

  /** Two lists of items together hold what each holds; one item holds its quantity. */
  lemma {:induction false} QuantitiesAdd(a: seq<Item>, b: seq<Item>, it: Item, t: Id)
    ensures TotalQty(a + b) == TotalQty(a) + TotalQty(b) && TotalQty([it]) == it.qty
    ensures QtyOf(a + b, t) == QtyOf(a, t) + QtyOf(b, t) && QtyOf([it], t) == if t == it.typeId then it.qty else 0
  {
    assert [it][1..] == [];
    if a == [] {
      assert a + b == b;
    } else {
      assert (a + b)[1..] == a[1..] + b;
      QuantitiesAdd(a[1..], b, it, t);
    }
  }

  // ------------------------------------------------------------------ cancel and expire

  lemma CancelAnswers(s: Stores, oid: Id, user: Id)
    requires Inv(s)
    ensures var (s', out) := CancelOrder(s, oid, user);
            && (out.NotFound? <==> oid !in s.db.orders)
            && (out.Forbidden? <==> oid in s.db.orders && s.db.orders[oid].user != user)
            && (out.BadRequest? <==>
                  oid in s.db.orders && s.db.orders[oid].user == user && s.db.orders[oid].status != PendingPayment)
            && (out.Done? <==>
                  oid in s.db.orders && s.db.orders[oid].user == user && s.db.orders[oid].status == PendingPayment)
            && (if out.Done? then Ended(s, s', oid, Cancelled) else s' == s)
  {
    if oid in s.db.orders && s.db.orders[oid].status.PendingPayment? {
      ClosingEnds(s, oid, Cancelled);
      CancelAndExpireClose(s, oid, user, 0);
    }
  }

  lemma ExpireAnswers(s: Stores, oid: Id, now: int)
    requires Inv(s)
    ensures var (s', out) := ExpireOrder(s, oid, now);
            && (out.NotFound? <==> oid !in s.db.orders)
            && (out.Ignored? <==>
                  oid in s.db.orders && (s.db.orders[oid].status != PendingPayment || now < s.db.orders[oid].expiresAt))
            && (out.Done? <==>
                  oid in s.db.orders && s.db.orders[oid].status == PendingPayment && s.db.orders[oid].expiresAt <= now)
            && (if out.Done? then Ended(s, s', oid, Expired) else s' == s)
  {
    if oid in s.db.orders && s.db.orders[oid].status.PendingPayment? {
      ClosingEnds(s, oid, Expired);
      CancelAndExpireClose(s, oid, s.db.orders[oid].user, now);
    }
  }

  // ------------------------------------------------------------------ webhooks

  /**
    A webhook acts only if it is signed, its order exists, the amount is the order's and payment is
    pending; each reason to refuse has its own answer.  Without such a webhook nothing changes.
   */
  lemma WebhookActsIff(s: Stores, oid: Id, signed: bool, amount: int, result: WebhookResult)
    ensures var (s', out) := Webhook(s, oid, signed, amount, result);
            && (out.Done? <==> signed && oid in s.db.orders && s.db.orders[oid].amount == amount &&
                               s.db.orders[oid].status == PendingPayment)
            && (s' != s ==> out.Done? && result != Timeout)
            && (out.NotFound? <==> signed && oid !in s.db.orders)
            && (out.BadRequest? <==> !signed || (oid in s.db.orders && s.db.orders[oid].amount != amount))
            && (out.Ignored? <==> signed && oid in s.db.orders && s.db.orders[oid].amount == amount &&
                                  s.db.orders[oid].status != PendingPayment)
  {
  }

  /** And what one does that acts. */
  lemma WebhookDoes(s: Stores, oid: Id, signed: bool, amount: int, result: WebhookResult)
    requires Inv(s) && Webhook(s, oid, signed, amount, result).1.Done?
    ensures var s' := Webhook(s, oid, signed, amount, result).0;
            && oid in s.db.orders
            && (result.Success? ==> PaidFor(s, s', oid))
            && (result.Failure? ==> Ended(s, s', oid, PaymentFailed))
            && (result.Timeout? ==> s' == s)
  {
    WebhookActsIff(s, oid, signed, amount, result);
    ClosingEnds(s, oid, PaymentFailed);
    if result.Success? {
      IssuingGives(s, Webhook(s, oid, signed, amount, result).0, oid);
    }
  }

  /** From order to tickets: only a signed webhook of the full price pays, and it pays for every unit. */
  lemma TicketsCostTheirPrice(s: Stores, oid: Id, user: Id, it: Item, expiresAt: int, f: Faults, signed: bool,
                              amount: int)
    requires Inv(s) && Fresh(s, oid) && CreateOrder(s, oid, user, [it], expiresAt, f).1.Created?
    ensures it.typeId in s.db.types
    ensures var s1 := CreateOrder(s, oid, user, [it], expiresAt, f).0;
            var (s2, out) := Webhook(s1, oid, signed, amount, Success);
            && (out.Done? <==> signed && amount == s.db.types[it.typeId].price * it.qty)
            && CountIf(s2.db.tickets, OfOrder(oid)) == if out.Done? then it.qty else 0
  {
    var s1 := CreateOrder(s, oid, user, [it], expiresAt, f).0;
    CreatedOrderIs(s, oid, user, it, expiresAt, f);
    WebhookActsIff(s1, oid, signed, amount, Success);
    NoTicketsFor(s.db, oid);
    TicketCounts(oid, user, [it], None, it.typeId);
    CountAppend(s1.db.tickets, TicketsOf(oid, user, [it]), OfOrder(oid));
    QuantitiesAdd([], [], it, it.typeId);
  }

  // ------------------------------------------------------------------ the issue worker

  lemma IssueAnswers(s: Stores, oid: Id)
    ensures var (s', out) := IssueTickets(s, oid);
            && (out.Done? <==>
                  && oid in s.db.orders && s.db.orders[oid].status == Paid && s.db.orders[oid].items != []
                  && forall row :: row in s.db.tickets ==> row.orderId != oid)
            && (out.Failed? <==>
                  oid in s.db.orders ==> s.db.orders[oid].status == Paid && s.db.orders[oid].items == [])
            && (out.Ignored? <==> !out.Done? && !out.Failed?)
            && (out.Done? ==> s'.redis == s.redis && s'.db.orders == s.db.orders && TicketsFor(s, s', oid))
            && (!out.Done? ==> s' == s)
  {
    var (s', out) := IssueTickets(s, oid);
    if out.Done? {
      IssuingGives(s, s', oid);
    }
  }

  // ------------------------------------------------------------------ ticket types

  /** A new type: while calls succeed, its first order is placed exactly when it stays within both its limits. */
  lemma NewTypeSells(s: Stores, totalQty: Quantity, maxPerUser: Quantity, price: int, oid: Id, user: Id, it: Item,
                     expiresAt: int)
    requires Inv(s) && Tight(s) && Fresh(s, oid) && it.typeId !in s.db.types
    ensures var (s1, out) := CreateType(s, it.typeId, totalQty, maxPerUser, price);
            var (s2, placed) := CreateOrder(s1, oid, user, [it], expiresAt, Faults(true, true, true));
            && out.Done? && it.typeId in s1.db.types
            && s1.db == s.db.(types := s.db.types[it.typeId := s1.db.types[it.typeId]])
            && s1.redis == s.redis.(stock := s.redis.stock[it.typeId := totalQty])
            && (placed.Created? <==> it.qty <= totalQty && it.qty <= maxPerUser)
            && (placed.Created? ==> oid in s2.db.orders && s2.db.orders[oid].amount == price * it.qty)
  {
    var t := it.typeId;
    var (s1, out) := CreateType(s, t, totalQty, maxPerUser, price);
    CreateTypeKeeps(s, t, totalQty, maxPerUser, price);
    NothingUsed(s.db, user, t);
    WhatIsLeftCanBeOrdered(s1, oid, user, it, expiresAt);
    if CreateOrder(s1, oid, user, [it], expiresAt, Faults(true, true, true)).1.Created? {
      CreatedOrderIs(s1, oid, user, it, expiresAt, Faults(true, true, true));
    }
  }

  /** Of a type that does not exist nobody has or holds anything. */
  lemma NothingUsed(db: Database, user: Id, t: Id)
    requires Exact(db) && RowsOk(db) && t !in db.types
    ensures PaidAt(db.counters, user, t) == 0 && ReservedAt(db.counters, user, t) == 0
  {
    CountUniform(db.tickets, OfType(Some(user), t), false);
    forall j | j in db.orders
      ensures QtyOf(db.orders[j].items, t) == 0
    {
      assert OrderRowOk(db, j);
      if QtyOf(db.orders[j].items, t) > 0 {
        QtyOfAsked(db.orders[j].items, t);
      }
    }
    SumZero(db.orders, HeldWeight(db.tickets, Some(user), t));
  }

  /** An update: what it refuses, that it writes what it is given and keeps the rest, and when it reseeds. */
  lemma UpdateAnswers(s: Stores, t: Id, c: TypeChange)
    ensures var (s', out) := ResizeType(s, t, c);
            && (out.NotFound? <==> t !in s.db.types)
            && (out.BadRequest? <==>
                  t in s.db.types && c.totalQty.Some? &&
                  c.totalQty.value < s.db.types[t].soldQty + s.db.types[t].reservedQty)
            && (out.Done? <==> !out.NotFound? && !out.BadRequest?)
            && (!out.Done? ==> s' == s)
            && (out.Done? ==>
                  && s'.db == s.db.(types := s.db.types[t := s'.db.types[t]])
                  && s'.redis.limit == s.redis.limit && s'.redis.holds == s.redis.holds
                  && Wrote(s.db.types[t], s'.db.types[t], c)
                  && (c.totalQty.None? ==> s'.redis.stock == s.redis.stock)
                  && (c.totalQty.Some? ==> s'.redis.stock == s.redis.stock[t := Available(s'.db.types[t])]))
  {
  }

  predicate Wrote(row: TypeRow, row': TypeRow, c: TypeChange) {
    && c.totalQty in {None, Some(row'.totalQty)} && (c.totalQty.None? ==> row'.totalQty == row.totalQty)
    && c.maxPerUser in {None, Some(row'.maxPerUser)} && (c.maxPerUser.None? ==> row'.maxPerUser == row.maxPerUser)
    && c.price in {None, Some(row'.price)} && (c.price.None? ==> row'.price == row.price)
    && row'.soldQty == row.soldQty && row'.reservedQty == row.reservedQty
    && (row'.onSale <==> (c.onSale == Some(true) || (c.onSale.None? && row.onSale)) &&
                         row'.totalQty != row'.soldQty + row'.reservedQty)
  }
}
