/**
  The order lifecycle as a whole: what each service call does to the books, and what therefore
  holds after every run of calls, lapses and flushes.
 */
module Lifecycle {
  import opened Wrappers
  import opened Sums
  import opened Ledger
  import opened Books
  import opened BooksSteps
  import opened StoresSteps

  // ------------------------------------------------------------------ createOrder

  /** createOrder inserts its order and then fails: the row has items, so it cannot be deleted again. */
  predicate Strands(s: Stores, oid: Id, user: Id, items: seq<Item>, f: Faults) {
    && ValidItems(s.db.types, items) && |items| == 1
    && FirstAccepted(SeedAll(s, user, items).redis, s.db.types, oid, user, items) == 0
    && f.insertOk && !(f.inventoryOk && f.gatewayOk)
  }

  /** Redis refuses the first item and accepts a later one, which the rollback then does not reach. */
  predicate Leaks(s: Stores, oid: Id, user: Id, items: seq<Item>) {
    && ValidItems(s.db.types, items)
    && 0 < FirstAccepted(SeedAll(s, user, items).redis, s.db.types, oid, user, items) < |items|
  }

  predicate Fresh(s: Stores, oid: Id) {
    oid !in s.db.orders && oid !in s.redis.holds
  }

  /** Redis grants the first item of a list: everything later steps rely on. */
  lemma GrantFirst(s: Stores, oid: Id, user: Id, items: seq<Item>)
    requires Inv(s) && ValidItems(s.db.types, items) && items != []
    requires FirstAccepted(SeedAll(s, user, items).redis, s.db.types, oid, user, items) == 0
    ensures var s1 := SeedAll(s, user, items);
            && Inv(s1) && s1.db == s.db && s1.redis.holds == s.redis.holds && oid !in s.redis.holds
            && items[0].typeId in s1.db.types && items[0].typeId in s1.redis.stock &&
                 (user, items[0].typeId) in s1.redis.limit
            && s1.redis.limit[(user, items[0].typeId)] >= 0
            && Granted(s.db, user, [items[0]]) && HasRoom(s.db.types, [items[0]])
            && Release(Reserve(s1.redis, oid, user, items[0]), oid, user, items[0]) == s1.redis
  {
    var s1 := SeedAll(s, user, items);
    SeedAllKeeps(s, user, items);
    SeedAllAdds(s, user, items);
    assert items[0] in items;
    AcceptedIsGranted(s1, oid, user, items[0]);
    UsedIsNotNegative(s1.db, user, items[0].typeId);
    assert LimitGap(s1, user, items[0].typeId) >= 0;
    ReserveThenRelease(s1, oid, user, items[0]);
  }

  lemma AddThenDrop(types: map<Id, TypeRow>, items: seq<Item>)
    ensures DropTypes(AddTypes(types, items), items) == types
  {
  }

  /** Undoing an unfinished createOrder leaves the pending row behind, with nothing counted for it. */
  lemma StrandedBooks(db: Database, db': Database, oid: Id, row: Order)
    requires Exact(db) && RowsOk(db) && oid !in db.orders && row.status.PendingPayment? && |row.items| == 1
    requires db'.orders == db.orders[oid := row] && db'.tickets == db.tickets && db'.types == db.types
    requires row.items[0].typeId in db.types
    ensures !Exact(db')
  {
    var t := row.items[0].typeId;
    assert db'.tickets == db.tickets + [];
    HeldTotalMoves(db, db', oid, [], None, t);
    OneItemQty(row.items[0], t);
    assert row.items == [row.items[0]];
  }

  lemma CreateOneKeeps(s: Stores, oid: Id, user: Id, items: seq<Item>, expiresAt: int, f: Faults)
    requires Inv(s) && Fresh(s, oid) && ValidItems(s.db.types, items) && |items| == 1
    requires FirstAccepted(SeedAll(s, user, items).redis, s.db.types, oid, user, items) == 0
    ensures var s1 := SeedAll(s, user, items);
            var (s', out) := CreateOrder(s, oid, user, items, expiresAt, f);
            var row := Order(user, items, PendingPayment, Amount(s.db.types, items), expiresAt);
            && (out.Created? <==> f == Faults(true, true, true))
            && (out.Created? ==> s' == PlaceOne(s1, oid, row))
            && (!f.insertOk ==> s' == s1)
            && (out != Created && f.insertOk ==>
                  s'.redis == s1.redis && s'.db.types == s.db.types && s'.db.tickets == s.db.tickets
                  && s'.db.orders == s.db.orders[oid := row])
  {
    var s1 := SeedAll(s, user, items);
    GrantFirst(s, oid, user, items);
    assert items == [items[0]];
    ReserveThenRelease(s1, oid, user, items[0]);
    AddThenDrop(s.db.types, items);
    assert forall it :: it in items ==> it.typeId in s.db.types;
  }

  /** An order without items touches no key and no counter; a failure removes its row again. */
  lemma CreateNoneKeeps(s: Stores, oid: Id, user: Id, expiresAt: int, f: Faults)
    requires Inv(s) && Fresh(s, oid)
    ensures var (s', out) := CreateOrder(s, oid, user, [], expiresAt, f);
            var row := Order(user, [], PendingPayment, 0, expiresAt);
            && (out.Created? <==> f == Faults(true, true, true))
            && (out.Created? ==> s' == Stores(s.redis, Placed(s.db, oid, row)))
            && (!out.Created? ==> s' == s)
  {
    assert AddTypes(s.db.types, []) == s.db.types;
    assert DropTypes(s.db.types, []) == s.db.types;
    assert DropCounters(s.db.counters, user, []) == s.db.counters;
    assert s.db.orders[oid := Order(user, [], PendingPayment, 0, expiresAt)] - {oid} == s.db.orders;
  }

  /** Placing a row without items keeps both stores related. */
  lemma PlacedNoneKeeps(s: Stores, oid: Id, row: Order)
    requires Inv(s) && Fresh(s, oid) && row.items == [] && row.status.PendingPayment?
    ensures var s' := Stores(s.redis, Placed(s.db, oid, row)); Inv(s') && (Tight(s) ==> Tight(s'))
  {
    var s' := Stores(s.redis, Placed(s.db, oid, row));
    PlacedKeeps(s.db, oid, row);
    forall j | j in s'.redis.holds
      ensures HoldOk(s', j)
    {
      assert HoldOk(s, j);
    }
    forall k | k in s'.redis.limit
      ensures LimitGap(s', k.0, k.1) == LimitGap(s, k.0, k.1) && LimitGap(s, k.0, k.1) >= 0
    {
      UpsertReservedAt(s.db.counters, row.user, [], k.0, k.1);
    }
  }

  /** A leaked reservation: the keys move, and no order row follows. */
  lemma LeakKeeps(s: Stores, oid: Id, user: Id, it: Item)
    requires Inv(s) && Fresh(s, oid) && it.typeId in s.redis.stock && (user, it.typeId) in s.redis.limit
    ensures var s' := s.(redis := Reserve(s.redis, oid, user, it)); Inv(s') && !Tight(s')
  {
    var s' := s.(redis := Reserve(s.redis, oid, user, it));
    assert it.typeId in s'.redis.stock && StockGap(s, it.typeId) >= 0 && StockGap(s', it.typeId) > 0;
    forall j | j in s'.redis.holds
      ensures HoldOk(s', j)
    {
      if j != oid {
        assert HoldOk(s, j);
      }
    }
    forall k | k in s'.redis.limit
      ensures LimitGap(s', k.0, k.1) >= 0
    {
      assert LimitGap(s, k.0, k.1) >= 0;
    }
  }

  /** One item that Redis grants. */
  lemma CreateSingleKeeps(s: Stores, oid: Id, user: Id, items: seq<Item>, expiresAt: int, f: Faults)
    requires Inv(s) && Fresh(s, oid) && ValidItems(s.db.types, items) && |items| == 1
    requires FirstAccepted(SeedAll(s, user, items).redis, s.db.types, oid, user, items) == 0
    ensures var s' := CreateOrder(s, oid, user, items, expiresAt, f).0;
            && (Inv(s') <==> !f.insertOk || (f.inventoryOk && f.gatewayOk))
            && (Tight(s) && Inv(s') ==> Tight(s'))
  {
    var s', s1 := CreateOrder(s, oid, user, items, expiresAt, f).0, SeedAll(s, user, items);
    var row := Order(user, items, PendingPayment, Amount(s.db.types, items), expiresAt);
    SeedAllKeeps(s, user, items);
    CreateOneKeeps(s, oid, user, items, expiresAt, f);
    GrantFirst(s, oid, user, items);
    assert items == [items[0]];
    if f == Faults(true, true, true) {
      PlacedKeeps(s.db, oid, row);
      PlaceOneKeeps(s1, oid, row, items[0]);
    } else if f.insertOk {
      StrandedBooks(s.db, s'.db, oid, row);
    }
  }

  /**
    createOrder keeps the books exactly when it does not strand an order, and keeps the keys exact
    exactly when, besides, it does not leak a reservation.
   */
  lemma CreateOrderKeeps(s: Stores, oid: Id, user: Id, items: seq<Item>, expiresAt: int, f: Faults)
    requires Inv(s) && Fresh(s, oid)
    ensures var s' := CreateOrder(s, oid, user, items, expiresAt, f).0;
            && (Inv(s') <==> !Strands(s, oid, user, items, f))
            && (Tight(s) && !Strands(s, oid, user, items, f) ==> (Tight(s') <==> !Leaks(s, oid, user, items)))
  {
    var s' := CreateOrder(s, oid, user, items, expiresAt, f).0;
    if ValidItems(s.db.types, items) {
      var s1 := SeedAll(s, user, items);
      SeedAllKeeps(s, user, items);
      SeedAllAdds(s, user, items);
      var k := FirstAccepted(s1.redis, s.db.types, oid, user, items);
      if items == [] {
        CreateNoneKeeps(s, oid, user, expiresAt, f);
        PlacedNoneKeeps(s, oid, Order(user, [], PendingPayment, 0, expiresAt));
      } else if k == 0 && |items| == 1 {
        CreateSingleKeeps(s, oid, user, items, expiresAt, f);
      } else if k == 0 {
        GrantFirst(s, oid, user, items);
      } else if k < |items| {
        LeakKeeps(s1, oid, user, items[k]);
      }
    }
  }

  // ------------------------------------------------------------------ a refused createOrder

  function StockOrSeed(s: Stores, t: Id): int
    requires t in s.db.types
  {
    if t in s.redis.stock then s.redis.stock[t] else Max(0, Available(s.db.types[t]))
  }

  function LimitOrSeed(s: Stores, u: Id, t: Id): int {
    if (u, t) in s.redis.limit then s.redis.limit[(u, t)] else Used(s.db.counters, u, t)
  }

  /** The same to every reader: an absent key reads as its seed, an absent counter row as zero. */
  ghost predicate SameToReaders(s: Stores, s': Stores) {
    && s'.redis.holds == s.redis.holds
    && s'.db.orders == s.db.orders && s'.db.tickets == s.db.tickets && s'.db.types == s.db.types
    && (forall t :: t in s.db.types ==> StockOrSeed(s', t) == StockOrSeed(s, t))
    && (forall u, t :: LimitOrSeed(s', u, t) == LimitOrSeed(s, u, t))
    && (forall u, t :: PaidAt(s'.db.counters, u, t) == PaidAt(s.db.counters, u, t))
    && (forall u, t :: ReservedAt(s'.db.counters, u, t) == ReservedAt(s.db.counters, u, t))
  }

  lemma {:induction false} SeedingIsInvisible(s: Stores, user: Id, items: seq<Item>)
    ensures SameToReaders(s, SeedAll(s, user, items))
    decreases |items|
  {
    if items != [] {
      SeedingIsInvisible(SeedOne(s, user, items[0].typeId), user, items[1..]);
    }
  }

  /** No list of two or more items is ever ordered: the second meets the first one's reservation key. */
  lemma ManyItemsAreRefused(s: Stores, oid: Id, user: Id, items: seq<Item>, expiresAt: int, f: Faults)
    requires |items| >= 2
    ensures CreateOrder(s, oid, user, items, expiresAt, f).1 in {InvalidItems, Refused}
    ensures CreateOrder(s, oid, user, items, expiresAt, f).0.db == s.db
  {
    if ValidItems(s.db.types, items) {
      SeedAllAdds(s, user, items);
    }
  }

  /** A createOrder that fails restores every reader's view exactly when it neither strands nor leaks. */
  lemma FailedCreateRestores(s: Stores, oid: Id, user: Id, items: seq<Item>, expiresAt: int, f: Faults)
    requires Inv(s) && Fresh(s, oid)
    requires !CreateOrder(s, oid, user, items, expiresAt, f).1.Created?
    ensures SameToReaders(s, CreateOrder(s, oid, user, items, expiresAt, f).0) <==>
            !Strands(s, oid, user, items, f) && !Leaks(s, oid, user, items)
  {
    if ValidItems(s.db.types, items) {
      var s1 := SeedAll(s, user, items);
      SeedAllKeeps(s, user, items);
      SeedAllAdds(s, user, items);
      SeedingIsInvisible(s, user, items);
      var k := FirstAccepted(s1.redis, s.db.types, oid, user, items);
      if items == [] {
        CreateNoneKeeps(s, oid, user, expiresAt, f);
      } else if k == 0 && |items| == 1 {
        CreateOneKeeps(s, oid, user, items, expiresAt, f);
      } else if k == 0 {
        GrantFirst(s, oid, user, items);
      }
    }
  }

  // ------------------------------------------------------------------ the calls that end an order

  lemma ClosingIsClosing(s: Stores, oid: Id, status: OrderStatus)
    requires Inv(s) && oid in s.db.orders && s.db.orders[oid].status.PendingPayment?
    requires !status.PendingPayment? && !status.Paid?
    ensures HasCounters(s.db.counters, s.db.orders[oid].user, s.db.orders[oid].items)
    ensures CloseUnpaid(s, oid, status) == CloseOne(s, oid, status)
    ensures Inv(CloseOne(s, oid, status))
    ensures Tight(s) ==> (Tight(CloseOne(s, oid, status)) <==> !LosesOnClose(s, oid))
  {
    HoldingIsCovered(s.db, oid);
    GuardsPass(s.db, s.db.orders[oid].user, s.db.orders[oid].items);
    ClosedKeeps(s.db, oid, status);
    CloseOneKeeps(s, oid, status);
    if Tight(s) {
      CloseOneTight(s, oid, status);
    }
  }

  /**
    A release that comes after its order has moved on: with exact keys it does no harm exactly when the
    reservation key is gone; otherwise Redis offers the units of a paid order again.
   */
  lemma LateReleaseIff(s: Stores, oid: Id, status: OrderStatus)
    requires Inv(s) && Tight(s) && oid in s.db.orders && !s.db.orders[oid].status.PendingPayment?
    ensures Inv(CloseIfPending(s, oid, status)) <==> oid !in s.redis.holds
  {
    var s' := CloseIfPending(s, oid, status);
    if oid in s.redis.holds {
      var h := s.redis.holds[oid];
      assert HoldOk(s, oid);
      assert Item(h.typeId, h.qty) in s.db.orders[oid].items;
      assert h.typeId in s'.redis.stock && StockGap(s, h.typeId) == 0 && StockGap(s', h.typeId) < 0;
    }
  }

  /** An order marked paid while its key lives, and then released: the stock key exceeds what is left by its units. */
  lemma MarkedThenReleased(s: Stores, oid: Id, status: OrderStatus)
    requires Inv(s) && Tight(s) && oid in s.db.orders && s.db.orders[oid].status.PendingPayment? && oid in s.redis.holds
    ensures var paid := Stores(s.redis, MarkedPaid(s.db, oid));
            var s' := CloseIfPending(paid, oid, status);
            var h := s.redis.holds[oid];
            && !Inv(s') && s'.db == paid.db
            && h.typeId in s'.redis.stock && h.typeId in s'.db.types && StockGap(s', h.typeId) == -h.qty
  {
    var paid := Stores(s.redis, MarkedPaid(s.db, oid));
    var h := s.redis.holds[oid];
    MarkingKeeps(s, oid);
    LateReleaseIff(paid, oid, status);
    assert HoldOk(paid, oid);
    assert Item(h.typeId, h.qty) in paid.db.orders[oid].items;
    assert h.typeId in paid.redis.stock && StockGap(paid, h.typeId) == 0;
  }

  /** cancelOrder and expireOrder of a pending order are that closing. */
  lemma CancelAndExpireClose(s: Stores, oid: Id, user: Id, now: int)
    requires Inv(s) && oid in s.db.orders && s.db.orders[oid].status.PendingPayment?
    ensures s.db.orders[oid].user == user ==> CancelOrder(s, oid, user) == (CloseOne(s, oid, Cancelled), Done)
    ensures s.db.orders[oid].expiresAt <= now ==> ExpireOrder(s, oid, now) == (CloseOne(s, oid, Expired), Done)
  {
    ClosingIsClosing(s, oid, Cancelled);
  }

  /** Issuing tickets of a paid order that has none. */
  lemma IssuingKeeps(s: Stores, oid: Id)
    requires Inv(s) && oid in s.db.orders && s.db.orders[oid].status.Paid?
    requires CountIf(s.db.tickets, OfOrder(oid)) == 0
    ensures var s' := Stores(s.redis, Issued(s.db, oid)); Inv(s') && (Tight(s) ==> Tight(s'))
  {
    HoldingIsCovered(s.db, oid);
    CoveredHasCounters(s.db, s.db.orders[oid].user, s.db.orders[oid].items);
    IssuedKeeps(s.db, oid);
    IssuedSameGaps(s, oid);
    SameGapsKeeps(s, Stores(s.redis, Issued(s.db, oid)));
  }

  lemma MarkingKeeps(s: Stores, oid: Id)
    requires Inv(s) && oid in s.db.orders && s.db.orders[oid].status.PendingPayment?
    ensures var s' := Stores(s.redis, MarkedPaid(s.db, oid));
            && Inv(s') && (Tight(s) ==> Tight(s')) && CountIf(s.db.tickets, OfOrder(oid)) == 0
  {
    MarkedPaidKeeps(s.db, oid);
    SameGapsKeeps(s, Stores(s.redis, MarkedPaid(s.db, oid)));
  }

  /** The webhook's one transaction is the cron's marking followed by the worker's issue, less the key. */
  lemma PayAndIssueIsBoth(s: Stores, oid: Id)
    requires oid in s.db.orders
    ensures PayAndIssue(s, oid) == Lapse(Stores(s.redis, Issued(MarkedPaid(s.db, oid), oid)), oid)
  {
  }

  lemma LapseKeeps(s: Stores, oid: Id)
    requires Inv(s)
    ensures Inv(Lapse(s, oid)) && (Tight(s) ==> Tight(Lapse(s, oid)))
  {
    SameGapsKeeps(s, Lapse(s, oid));
  }

  lemma PayingKeeps(s: Stores, oid: Id)
    requires Inv(s) && oid in s.db.orders && s.db.orders[oid].status.PendingPayment?
    ensures Inv(PayAndIssue(s, oid)) && (Tight(s) ==> Tight(PayAndIssue(s, oid)))
  {
    MarkingKeeps(s, oid);
    IssuingKeeps(Stores(s.redis, MarkedPaid(s.db, oid)), oid);
    PayAndIssueIsBoth(s, oid);
    LapseKeeps(Stores(s.redis, Issued(MarkedPaid(s.db, oid), oid)), oid);
  }

  // ------------------------------------------------------------------ ticket types and flushes

  lemma ReseedKeeps(s: Stores, db': Database, t: Id)
    requires Inv(s) && DbOk(db') && t in db'.types
    requires db' == s.db.(types := s.db.types[t := db'.types[t]])
    requires t in s.db.types ==>
            s.db.types[t].soldQty == db'.types[t].soldQty && s.db.types[t].reservedQty == db'.types[t].reservedQty
    ensures var s' := Stores(s.redis.(stock := s.redis.stock[t := Max(0, Available(db'.types[t]))]), db');
            Inv(s') && (Tight(s) ==> Tight(s'))
  {
    var s' := Stores(s.redis.(stock := s.redis.stock[t := Max(0, Available(db'.types[t]))]), db');
    assert TypeRowOk(db'.types[t]);
    forall j | j in s'.redis.holds
      ensures HoldOk(s', j)
    {
      assert HoldOk(s, j);
    }
    forall x | x in s'.redis.stock
      ensures x in s'.db.types && StockGap(s', x) >= 0 && (Tight(s) ==> StockGap(s', x) == 0)
    {
      if x != t {
        assert x in s.redis.stock && StockGap(s, x) >= 0;
      }
    }
    forall k | k in s'.redis.limit
      ensures LimitGap(s', k.0, k.1) == LimitGap(s, k.0, k.1) && LimitGap(s, k.0, k.1) >= 0
    {
    }
  }

  lemma CreateTypeKeeps(s: Stores, t: Id, totalQty: Quantity, maxPerUser: Quantity, price: int)
    requires Inv(s)
    ensures var s' := CreateType(s, t, totalQty, maxPerUser, price).0; Inv(s') && (Tight(s) ==> Tight(s'))
  {
    if t !in s.db.types {
      var row := TypeRow(totalQty, 0, 0, maxPerUser, price, true);
      NewTypeKeeps(s.db, t, row);
      ReseedKeeps(s, s.db.(types := s.db.types[t := row]), t);
    }
  }

  /** An update keeps the books exactly when no user is above the limit it sets; the keys stay as exact as they were. */
  lemma ResizeTypeKeeps(s: Stores, t: Id, c: TypeChange)
    requires Inv(s)
    ensures var (s', out) := ResizeType(s, t, c);
            && (Inv(s') <==> (out.Done? && c.maxPerUser.Some? ==> LimitFits(s.db, t, c.maxPerUser.value)))
            && (Inv(s') && Tight(s) ==> Tight(s'))
  {
    var (s', out) := ResizeType(s, t, c);
    if out.Done? {
      var row := s'.db.types[t];
      assert TypeRowOk(s.db.types[t]);
      forall u | c.maxPerUser.None?
        ensures Used(s.db.counters, u, t) <= row.maxPerUser
      {
        assert UserOk(s.db, u, t);
      }
      if LimitFits(s.db, t, row.maxPerUser) {
        ResizedTypeKeeps(s.db, t, row);
        if c.totalQty.Some? {
          ReseedKeeps(s, s'.db, t);
        } else {
          SameGapsKeeps(s, s');
        }
      } else {
        var u :| Used(s.db.counters, u, t) > row.maxPerUser;
        assert !UserOk(s'.db, u, t) && !Within(s'.db);
      }
    }
  }

  lemma FlushKeeps(s: Stores)
    requires Inv(s)
    ensures Inv(Flush(s)) && Tight(Flush(s))
  {
  }
}
