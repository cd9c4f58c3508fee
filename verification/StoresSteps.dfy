/** How Redis and Postgres stay related under the moves that the service calls are made of. */
module StoresSteps {
  import opened Wrappers
  import opened Sums
  import opened Ledger
  import opened Books
  import opened BooksSteps

  /** Every present key is exact: no unit has been lost between the stores. */
  ghost predicate Tight(s: Stores) {
    && (forall t :: t in s.redis.stock && t in s.db.types ==> StockGap(s, t) == 0)
    && (forall k :: k in s.redis.limit ==> LimitGap(s, k.0, k.1) == 0)
  }

  ghost predicate RedisOk(s: Stores) {
    HoldsOk(s) && Conservative(s)
  }

  lemma UsedIsNotNegative(db: Database, u: Id, t: Id)
    requires Exact(db)
    ensures Used(db.counters, u, t) >= 0
  {
    SumNonNegative(db.orders, HeldWeight(db.tickets, Some(u), t));
    assert ReservedAt(db.counters, u, t) == HeldTotal(db, Some(u), t);
    assert PaidAt(db.counters, u, t) == SoldTotal(db, Some(u), t);
  }

  // ------------------------------------------------------------------ lazy seeding

  lemma SeedOneKeeps(s: Stores, user: Id, t: Id)
    requires RedisOk(s) && Within(s.db)
    ensures RedisOk(SeedOne(s, user, t))
    ensures Tight(s) ==> Tight(SeedOne(s, user, t))
  {
    var s' := SeedOne(s, user, t);
    forall oid | oid in s'.redis.holds
      ensures HoldOk(s', oid)
    {
      assert HoldOk(s, oid);
    }
    forall x | x in s'.redis.stock
      ensures x in s'.db.types && StockGap(s', x) >= 0 && (Tight(s) ==> StockGap(s', x) == 0)
    {
      if x !in s.redis.stock {
        assert TypeRowOk(s.db.types[x]);
      } else {
        assert StockGap(s, x) >= 0;
      }
    }
    forall k | k in s'.redis.limit
      ensures LimitGap(s', k.0, k.1) >= 0 && (Tight(s) ==> LimitGap(s', k.0, k.1) == 0)
    {
      if k in s.redis.limit {
        assert LimitGap(s, k.0, k.1) >= 0;
      }
    }
  }

  lemma {:induction false} SeedAllKeeps(s: Stores, user: Id, items: seq<Item>)
    requires RedisOk(s) && Within(s.db)
    ensures var s' := SeedAll(s, user, items); RedisOk(s') && s'.db == s.db && s'.redis.holds == s.redis.holds
    ensures Tight(s) ==> Tight(SeedAll(s, user, items))
    decreases |items|
  {
    if items != [] {
      SeedOneKeeps(s, user, items[0].typeId);
      SeedAllKeeps(SeedOne(s, user, items[0].typeId), user, items[1..]);
    }
  }

  /** Seeding only adds keys, and adds those of the items asked for. */
  lemma {:induction false} SeedAllAdds(s: Stores, user: Id, items: seq<Item>)
    ensures var s' := SeedAll(s, user, items);
            && s'.db == s.db
            && s.redis.stock.Keys <= s'.redis.stock.Keys && s.redis.limit.Keys <= s'.redis.limit.Keys
            && (forall it :: it in items ==> (user, it.typeId) in s'.redis.limit)
            && (forall it :: it in items && it.typeId in s.db.types ==> it.typeId in s'.redis.stock)
    decreases |items|
  {
    if items != [] {
      SeedAllAdds(SeedOne(s, user, items[0].typeId), user, items[1..]);
      forall it | it in items
        ensures it == items[0] || it in items[1..]
      {
      }
    }
  }

  // ------------------------------------------------------------------ one order is placed

  /** One accepted reservation together with the order row that it belongs to. */
  function PlaceOne(s: Stores, oid: Id, row: Order): Stores
    requires |row.items| == 1
  {
    Stores(Reserve(s.redis, oid, row.user, row.items[0]), Placed(s.db, oid, row))
  }

  lemma OneItemQty(it: Item, t: Id)
    ensures QtyOf([it], t) == if it.typeId == t then it.qty else 0
  {
    assert [it][1..] == [];
  }

  lemma PlaceOneGaps(s: Stores, oid: Id, row: Order, it: Item)
    requires row.items == [it] && it.typeId in s.db.types
    requires it.typeId in s.redis.stock && (row.user, it.typeId) in s.redis.limit
    ensures var s' := PlaceOne(s, oid, row);
            && s'.redis.stock.Keys == s.redis.stock.Keys && s'.redis.limit.Keys == s.redis.limit.Keys
            && s'.db.types.Keys == s.db.types.Keys
            && (forall t :: t in s.db.types ==> StockGap(s', t) == StockGap(s, t))
            && (forall u, t :: LimitGap(s', u, t) == LimitGap(s, u, t))
  {
    var s' := PlaceOne(s, oid, row);
    forall t | t in s.db.types
      ensures StockGap(s', t) == StockGap(s, t)
    {
      OneItemQty(it, t);
    }
    forall u, t
      ensures LimitGap(s', u, t) == LimitGap(s, u, t)
    {
      OneItemQty(it, t);
      UpsertReservedAt(s.db.counters, row.user, [it], u, t);
    }
  }

  lemma PlaceOneKeeps(s: Stores, oid: Id, row: Order, it: Item)
    requires RedisOk(s) && row.items == [it] && it.typeId in s.db.types
    requires oid !in s.db.orders && oid !in s.redis.holds
    requires it.typeId in s.redis.stock && (row.user, it.typeId) in s.redis.limit
    ensures RedisOk(PlaceOne(s, oid, row))
    ensures Tight(s) ==> Tight(PlaceOne(s, oid, row))
  {
    var s' := PlaceOne(s, oid, row);
    PlaceOneGaps(s, oid, row, it);
    forall j | j in s'.redis.holds
      ensures HoldOk(s', j)
    {
      if j != oid {
        assert HoldOk(s, j);
      }
    }
  }

  /** What Redis accepts, Postgres has room for: the inventory guard never rejects it. */
  lemma {:induction false} AcceptedIsGranted(s: Stores, oid: Id, user: Id, it: Item)
    requires Conservative(s) && it.typeId in s.db.types && (user, it.typeId) in s.redis.limit
    requires Accepts(s.redis, oid, user, it, s.db.types[it.typeId].maxPerUser)
    ensures Granted(s.db, user, [it]) && HasRoom(s.db.types, [it])
  {
    assert it.typeId in s.redis.stock;
    assert StockGap(s, it.typeId) >= 0;
    assert LimitGap(s, user, it.typeId) >= 0;
    forall t
      ensures QtyOf([it], t) == if it.typeId == t then it.qty else 0
    {
      OneItemQty(it, t);
    }
  }

  /** Releasing what was just reserved gives back the keys as they were. */
  lemma ReserveThenRelease(s: Stores, oid: Id, user: Id, it: Item)
    requires oid !in s.redis.holds && it.typeId in s.redis.stock && (user, it.typeId) in s.redis.limit
    requires s.redis.limit[(user, it.typeId)] >= 0
    ensures ReleaseAll(Reserve(s.redis, oid, user, it), oid, user, [it]) == s.redis
    ensures Release(Reserve(s.redis, oid, user, it), oid, user, it) == s.redis
  {
    var r := Reserve(s.redis, oid, user, it);
    assert it in [it] && Releases(r, oid, user, it);
    assert r.holds - {oid} == s.redis.holds;
  }

  // ------------------------------------------------------------------ a pending order is closed

  /** What cancel, expire, the FAILED webhook and the cron verifier come to. */
  function CloseOne(s: Stores, oid: Id, status: OrderStatus): Stores
    requires oid in s.db.orders
  {
    Stores(ReleaseAll(s.redis, oid, s.db.orders[oid].user, s.db.orders[oid].items), Closed(s.db, oid, status))
  }

  lemma HeldIsTheOrder(s: Stores, oid: Id)
    requires HoldsOk(s) && Conservative(s) && Exact(s.db) && RowsOk(s.db)
    requires oid in s.db.orders && s.db.orders[oid].status.PendingPayment? && oid in s.redis.holds
    ensures var o, h := s.db.orders[oid], s.redis.holds[oid];
            var it := Item(h.typeId, h.qty);
            && o.items == [it] && Releases(s.redis, oid, o.user, it)
            && it.typeId in s.redis.stock && (o.user, it.typeId) in s.redis.limit
            && ReadLimit(s.redis, o.user, it.typeId) >= it.qty
            && forall t :: QtyOf(o.items, t) == if it.typeId == t then it.qty else 0
  {
    var o, h := s.db.orders[oid], s.redis.holds[oid];
    assert HoldOk(s, oid);
    var it := Item(h.typeId, h.qty);
    forall t
      ensures QtyOf([it], t) == if it.typeId == t then it.qty else 0
    {
      OneItemQty(it, t);
    }
    HoldingIsCovered(s.db, oid);
    assert PaidAt(s.db.counters, o.user, it.typeId) == SoldTotal(s.db, Some(o.user), it.typeId);
    assert LimitGap(s, o.user, it.typeId) >= 0;
  }

  /** A present key always matches its order, so closing the order consumes it. */
  lemma CloseRedis(s: Stores, oid: Id)
    requires HoldsOk(s) && Conservative(s) && Exact(s.db) && RowsOk(s.db)
    requires oid in s.db.orders && s.db.orders[oid].status.PendingPayment?
    ensures var o := s.db.orders[oid];
            var r := ReleaseAll(s.redis, oid, o.user, o.items);
            && r.holds == s.redis.holds - {oid}
            && r.stock.Keys == s.redis.stock.Keys && r.limit.Keys == s.redis.limit.Keys
            && (forall t :: ReadStock(r, t) == ReadStock(s.redis, t) +
                 if oid in s.redis.holds then QtyOf(o.items, t) else 0)
            && (forall u, t :: ReadLimit(r, u, t) ==
                  ReadLimit(s.redis, u, t) - if oid in s.redis.holds && u == o.user then QtyOf(o.items, t) else 0)
  {
    var o := s.db.orders[oid];
    if oid in s.redis.holds {
      HeldIsTheOrder(s, oid);
      ReleaseOne(s.redis, oid, o.user, o.items[0]);
    } else {
      assert s.redis.holds - {oid} == s.redis.holds;
    }
  }

  /** Releasing the one item of a key, which the limit key covers. */
  lemma ReleaseOne(r: Redis, oid: Id, user: Id, it: Item)
    requires Releases(r, oid, user, it)
    requires it.typeId in r.stock && (user, it.typeId) in r.limit && ReadLimit(r, user, it.typeId) >= it.qty
    ensures var r' := ReleaseAll(r, oid, user, [it]);
            && r'.holds == r.holds - {oid}
            && r'.stock.Keys == r.stock.Keys && r'.limit.Keys == r.limit.Keys
            && (forall t :: ReadStock(r', t) == ReadStock(r, t) + if it.typeId == t then it.qty else 0)
            && (forall u, t :: ReadLimit(r', u, t) == ReadLimit(r, u, t) - if u == user && it.typeId ==
                 t then it.qty else 0)
  {
    assert it in [it];
  }

  /**
    Closing frees inventory in Postgres, and in Redis only if the key is still there: the gap grows by the
    difference.
   */
  lemma CloseOneGaps(s: Stores, oid: Id, status: OrderStatus)
    requires HoldsOk(s) && Conservative(s) && Exact(s.db) && RowsOk(s.db)
    requires oid in s.db.orders && s.db.orders[oid].status.PendingPayment?
    ensures var s' := CloseOne(s, oid, status);
            var o := s.db.orders[oid];
            && (forall t :: t in s.db.types ==>
                  StockGap(s', t) == StockGap(s, t) + if oid in s.redis.holds then 0 else QtyOf(o.items, t))
            && (forall u, t :: LimitGap(s', u, t) ==
                  LimitGap(s, u, t) + if oid !in s.redis.holds && u == o.user then QtyOf(o.items, t) else 0)
  {
    var s' := CloseOne(s, oid, status);
    var o := s.db.orders[oid];
    CloseRedis(s, oid);
    HoldingIsCovered(s.db, oid);
    CoveredHasCounters(s.db, o.user, o.items);
    forall u, t
      ensures LimitGap(s', u, t) == LimitGap(s, u, t) + if oid !in s.redis.holds && u ==
                o.user then QtyOf(o.items, t) else 0
    {
      DropCountersAt(s.db.counters, o.user, o.items, u, t);
    }
  }

  lemma CloseOneKeeps(s: Stores, oid: Id, status: OrderStatus)
    requires RedisOk(s) && Exact(s.db) && RowsOk(s.db)
    requires oid in s.db.orders && s.db.orders[oid].status.PendingPayment?
    ensures RedisOk(CloseOne(s, oid, status))
  {
    var s' := CloseOne(s, oid, status);
    CloseRedis(s, oid);
    CloseOneGaps(s, oid, status);
    forall j | j in s'.redis.holds
      ensures HoldOk(s', j)
    {
      assert HoldOk(s, j);
    }
    forall t | t in s'.redis.stock
      ensures t in s'.db.types && StockGap(s', t) >= 0
    {
      assert t in s.redis.stock;
    }
    forall k | k in s'.redis.limit
      ensures LimitGap(s', k.0, k.1) >= 0
    {
      assert k in s.redis.limit && LimitGap(s, k.0, k.1) >= 0;
    }
  }

  /** The units of this order that Postgres frees cannot come back to a key that is present in Redis. */
  predicate LosesOnClose(s: Stores, oid: Id)
    requires oid in s.db.orders
  {
    oid !in s.redis.holds &&
    exists it :: it in s.db.orders[oid].items && (it.typeId in s.redis.stock ||
      (s.db.orders[oid].user, it.typeId) in s.redis.limit)
  }

  lemma CloseOneTight(s: Stores, oid: Id, status: OrderStatus)
    requires RedisOk(s) && Exact(s.db) && RowsOk(s.db) && Tight(s)
    requires oid in s.db.orders && s.db.orders[oid].status.PendingPayment?
    ensures Tight(CloseOne(s, oid, status)) <==> !LosesOnClose(s, oid)
  {
    var s' := CloseOne(s, oid, status);
    var o := s.db.orders[oid];
    CloseRedis(s, oid);
    CloseOneGaps(s, oid, status);
    if LosesOnClose(s, oid) {
      var it :| it in o.items && (it.typeId in s.redis.stock || (o.user, it.typeId) in s.redis.limit);
      QtyOfMember(o.items, it);
      if it.typeId in s.redis.stock {
        assert StockGap(s', it.typeId) > 0;
      } else {
        assert LimitGap(s', (o.user, it.typeId).0, (o.user, it.typeId).1) > 0;
      }
    } else {
      forall t | t in s'.redis.stock && t in s'.db.types
        ensures StockGap(s', t) == 0
      {
        if oid !in s.redis.holds && QtyOf(o.items, t) > 0 {
          QtyOfAsked(o.items, t);
        }
      }
      forall k | k in s'.redis.limit
        ensures LimitGap(s', k.0, k.1) == 0
      {
        assert LimitGap(s, k.0, k.1) == 0;
        if oid !in s.redis.holds && k.0 == o.user && QtyOf(o.items, k.1) > 0 {
          QtyOfAsked(o.items, k.1);
        }
      }
    }
  }

  // ------------------------------------------------------------------ moves that keep every gap

  /** Postgres moves units from reserved to sold, and at most a reservation key goes. */
  ghost predicate SameGaps(s: Stores, s': Stores) {
    && s'.redis.stock == s.redis.stock && s'.redis.limit == s.redis.limit
    && (forall oid :: oid in s'.redis.holds ==> oid in s.redis.holds && s'.redis.holds[oid] == s.redis.holds[oid])
    && s'.db.types.Keys == s.db.types.Keys && s'.db.orders.Keys == s.db.orders.Keys
    && (forall oid :: oid in s.db.orders ==>
          s'.db.orders[oid].user == s.db.orders[oid].user && s'.db.orders[oid].items == s.db.orders[oid].items)
    && (forall t :: t in s.db.types ==> Available(s'.db.types[t]) == Available(s.db.types[t]))
    && (forall u, t :: Used(s'.db.counters, u, t) == Used(s.db.counters, u, t))
  }

  lemma SameGapsKeeps(s: Stores, s': Stores)
    requires RedisOk(s) && SameGaps(s, s')
    ensures RedisOk(s')
    ensures Tight(s) ==> Tight(s')
  {
    forall oid | oid in s'.redis.holds
      ensures HoldOk(s', oid)
    {
      assert HoldOk(s, oid);
    }
    forall t | t in s'.redis.stock
      ensures t in s'.db.types && StockGap(s', t) == StockGap(s, t) && StockGap(s, t) >= 0
    {
    }
    forall k | k in s'.redis.limit
      ensures LimitGap(s', k.0, k.1) == LimitGap(s, k.0, k.1) && LimitGap(s, k.0, k.1) >= 0
    {
    }
  }

  lemma IssuedSameGaps(s: Stores, oid: Id)
    requires oid in s.db.orders && HasCounters(s.db.counters, s.db.orders[oid].user, s.db.orders[oid].items)
    ensures SameGaps(s, Stores(s.redis, Issued(s.db, oid)))
  {
    var o := s.db.orders[oid];
    var s' := Stores(s.redis, Issued(s.db, oid));
    forall u, t
      ensures Used(s'.db.counters, u, t) == Used(s.db.counters, u, t)
    {
      UpsertSoldAt(s.db.counters, o.user, o.items, u, t);
    }
  }
}
