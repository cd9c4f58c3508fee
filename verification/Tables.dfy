/** The stores as the services see them: Redis keys and Postgres tables that calls change in place. */
module Tables {
  import opened Ledger

  // ------------------------------------------------------------------ quantities of growing prefixes

  lemma {:induction false} QtyOfSnoc(items: seq<Item>, i: nat, t: Id)
    requires i < |items|
    ensures QtyOf(items[..i + 1], t) == QtyOf(items[..i], t) + if items[i].typeId == t then items[i].qty else 0
  {
    if i == 0 {
      assert items[..1][1..] == [] && items[..0] == [];
    } else {
      assert items[..i + 1][1..] == items[1..][..i] && items[..i][1..] == items[1..][..i - 1];
      QtyOfSnoc(items[1..], i - 1, t);
    }
  }

  lemma {:induction false} QtyOfPrefix(items: seq<Item>, i: nat, t: Id)
    requires i <= |items|
    ensures QtyOf(items[..i], t) <= QtyOf(items, t)
    decreases |items| - i
  {
    if i == |items| {
      assert items[..i] == items;
    } else {
      QtyOfSnoc(items, i, t);
      QtyOfPrefix(items, i + 1, t);
    }
  }

  /** Issuing the next item of a list, after `done`. */
  lemma TicketsStep(oid: Id, user: Id, items: seq<Item>, i: nat, done: seq<TicketRow>)
    requires i < |items|
    ensures done + TicketsOf(oid, user, items[i..]) ==
              done + TicketsOfItem(oid, user, items[i]) + TicketsOf(oid, user, items[i + 1..])
  {
    assert items[i..][1..] == items[i + 1..];
  }

  lemma SellTypesSnoc(types: map<Id, TypeRow>, items: seq<Item>, i: nat)
    requires i < |items| && items[i].typeId in types
    ensures var before := Ledger.SellTypes(types, items[..i]);
            var row := before[items[i].typeId];
            Ledger.SellTypes(types, items[..i + 1]) ==
            before[items[i].typeId := row.(soldQty := row.soldQty +
              items[i].qty, reservedQty := row.reservedQty - items[i].qty)]
  {
    forall t
      ensures QtyOf(items[..i + 1], t) == QtyOf(items[..i], t) + if items[i].typeId == t then items[i].qty else 0
    {
      QtyOfSnoc(items, i, t);
    }
  }

  lemma HasRoomSnoc(types: map<Id, TypeRow>, items: seq<Item>, i: nat)
    requires i < |items|
    ensures HasRoom(types, items[..i + 1]) <==>
            && HasRoom(types, items[..i]) && items[i].typeId in types
            && types[items[i].typeId].reservedQty + QtyOf(items[..i], items[i].typeId) +
                 types[items[i].typeId].soldQty + items[i].qty
               <= types[items[i].typeId].totalQty
  {
    assert items[..i + 1] == items[..i] + [items[i]];
    assert items[i] in items[..i + 1];
    forall t
      ensures QtyOf(items[..i + 1], t) == QtyOf(items[..i], t) + if items[i].typeId == t then items[i].qty else 0
    {
      QtyOfSnoc(items, i, t);
    }
    forall it | it in items[..i]
      ensures it in items[..i + 1]
    {
    }
  }

  lemma RoomForAllIsRoomForSome(types: map<Id, TypeRow>, items: seq<Item>, i: nat)
    requires i <= |items| && HasRoom(types, items)
    ensures HasRoom(types, items[..i])
  {
    forall it | it in items[..i]
      ensures it in items
    {
    }
    forall t
      ensures QtyOf(items[..i], t) <= QtyOf(items, t)
    {
      QtyOfPrefix(items, i, t);
    }
  }

  /** Releasing one more item of an order. */
  lemma ReleaseAllSnoc(r: Redis, oid: Id, user: Id, items: seq<Item>, i: nat)
    requires i < |items|
    ensures Release(ReleaseAll(r, oid, user, items[..i]), oid, user, items[i]) ==
              ReleaseAll(r, oid, user, items[..i + 1])
  {
    assert items[..i + 1] == items[..i] + [items[i]];
    assert items[i] in items[..i + 1];
    if oid in r.holds && exists it :: it in items[..i] && Releases(r, oid, user, it) {
      var it :| it in items[..i] && Releases(r, oid, user, it);
      assert it in items[..i + 1];
    }
  }

  // ------------------------------------------------------------------ Redis

  class RedisService {
    var stock: map<Id, int>
    var limit: map<UserKey, int>
    var holds: map<Id, Hold>

    function View(): Redis
      reads this
    {
      Redis(stock, limit, holds)
    }

    constructor ()
      ensures View() == Redis(map[], map[], map[])
    {
      stock, limit, holds := map[], map[], map[];
    }

    /** One atomic script: three checks, then three writes. */
    method ReserveTicket(oid: Id, user: Id, it: Item, maxPerUser: int) returns (ok: bool)
      modifies this
      ensures ok == Accepts(old(View()), oid, user, it, maxPerUser)
      ensures View() == if ok then Reserve(old(View()), oid, user, it) else old(View())
    {
      var currentStock := if it.typeId in stock then stock[it.typeId] else 0;
      var userQty := if (user, it.typeId) in limit then limit[(user, it.typeId)] else 0;
      if currentStock < it.qty { return false; }
      if userQty + it.qty > maxPerUser { return false; }
      if oid in holds { return false; }
      stock := stock[it.typeId := currentStock - it.qty];
      limit := limit[(user, it.typeId) := userQty + it.qty];
      holds := holds[oid := Hold(oid, user, it.typeId, it.qty)];
      return true;
    }

    /** One atomic script: the key must exist and match; the limit never goes below zero. */
    method ReleaseReservation(oid: Id, user: Id, it: Item) returns (ok: bool)
      modifies this
      ensures ok == Releases(old(View()), oid, user, it)
      ensures View() == Release(old(View()), oid, user, it)
    {
      if oid !in holds { return false; }
      var h := holds[oid];
      if h.orderId != oid || h.user != user || h.typeId != it.typeId || h.qty != it.qty { return false; }
      stock := stock[it.typeId := (if it.typeId in stock then stock[it.typeId] else 0) + h.qty];
      var userQty := (if (user, it.typeId) in limit then limit[(user, it.typeId)] else 0) - h.qty;
      limit := limit[(user, it.typeId) := if userQty < 0 then 0 else userQty];
      holds := holds - {oid};
      return true;
    }

    method ReleaseItems(oid: Id, user: Id, items: seq<Item>)
      modifies this
      ensures View() == ReleaseAll(old(View()), oid, user, items)
    {
      for i := 0 to |items|
        invariant View() == ReleaseAll(old(View()), oid, user, items[..i])
      {
        ReleaseAllSnoc(old(View()), oid, user, items, i);
        var _ := ReleaseReservation(oid, user, items[i]);
      }
      assert items[..|items|] == items;
    }

    method SeedStock(t: Id, available: int)
      modifies this
      ensures View() == old(View()).(stock := old(View()).stock[t := Max(0, available)])
    {
      stock := stock[t := Max(0, available)];
    }

    method SetStockNx(t: Id, value: int)
      modifies this
      ensures View() == if t in old(stock) then old(View()) else old(View()).(stock := old(stock)[t := value])
    {
      if t !in stock { stock := stock[t := value]; }
    }

    method SetLimitNx(user: Id, t: Id, value: int)
      modifies this
      ensures View() == if (user, t) in old(limit) then old(View())
                else old(View()).(limit := old(limit)[(user, t) := value])
    {
      if (user, t) !in limit { limit := limit[(user, t) := value]; }
    }

    method DeleteReservation(oid: Id)
      modifies this
      ensures View() == old(View()).(holds := old(holds) - {oid})
    {
      holds := holds - {oid};
    }
  }

  // ------------------------------------------------------------------ Postgres

  class PrismaService {
    var types: map<Id, TypeRow>
    var counters: map<UserKey, Counter>
    var orders: map<Id, Order>
    var tickets: seq<TicketRow>

    function View(): Database
      reads this
    {
      Database(types, counters, orders, tickets)
    }

    /** OrderItem.ticketTypeId is a foreign key. */
    predicate Valid()
      reads this
    {
      forall oid, it :: oid in orders && it in orders[oid].items ==> it.typeId in types
    }

    constructor ()
      ensures Valid() && View() == Database(map[], map[], map[], [])
    {
      types, counters, orders, tickets := map[], map[], map[], [];
    }

    method DecrementTypes(items: seq<Item>)
      requires forall it :: it in items ==> it.typeId in types
      modifies this`types
      ensures types == DropTypes(old(types), items)
    {
      assert types == DropTypes(types, items[..0]);
      for i := 0 to |items|
        invariant types == DropTypes(old(types), items[..i])
      {
        var t := items[i].typeId;
        assert items[i] in items;
        forall x { QtyOfSnoc(items, i, x); }
        types := types[t := types[t].(reservedQty := types[t].reservedQty - items[i].qty)];
      }
      assert items[..|items|] == items;
    }

    /** `update` raises when a row is missing; the updates beside it have been sent already. */
    method DecrementCounters(user: Id, items: seq<Item>) returns (ok: bool)
      modifies this`counters
      ensures ok == HasCounters(old(counters), user, items)
      ensures counters == DropCounters(old(counters), user, items)
    {
      ok := true;
      assert counters == DropCounters(counters, user, items[..0]);
      for i := 0 to |items|
        invariant counters == DropCounters(old(counters), user, items[..i])
        invariant ok == HasCounters(old(counters), user, items[..i])
      {
        var k := (user, items[i].typeId);
        forall x { QtyOfSnoc(items, i, x); }
        assert items[..i + 1] == items[..i] + [items[i]];
        if k in counters {
          counters := counters[k := Counter(counters[k].paidQty, counters[k].reservedQty - items[i].qty)];
        } else {
          ok := false;
        }
      }
      assert items[..|items|] == items;
    }

    /** `updateMany ... where reservedQty >= quantity`, a type row and a counter row for each item. */
    method DecrementGuarded(user: Id, items: seq<Item>)
      modifies this`types, this`counters
      ensures types == DropTypesGuarded(old(types), items)
      ensures counters == DropCountersGuarded(old(counters), user, items)
    {
      assert items[0..] == items;
      for i := 0 to |items|
        invariant DropTypesGuarded(types, items[i..]) == DropTypesGuarded(old(types), items)
        invariant DropCountersGuarded(counters, user, items[i..]) == DropCountersGuarded(old(counters), user, items)
      {
        var it := items[i];
        assert items[i..][1..] == items[i + 1..];
        if it.typeId in types && types[it.typeId].reservedQty >= it.qty {
          types := types[it.typeId := types[it.typeId].(reservedQty := types[it.typeId].reservedQty - it.qty)];
        }
        var k := (user, it.typeId);
        if k in counters && counters[k].reservedQty >= it.qty {
          counters := counters[k := Counter(counters[k].paidQty, counters[k].reservedQty - it.qty)];
        }
      }
    }

    /** The inventory transaction of createOrder; the first type without room rolls it back. */
    method ReserveInventory(user: Id, items: seq<Item>, reachable: bool) returns (ok: bool)
      modifies this`types, this`counters
      ensures ok == (reachable && HasRoom(old(types), items))
      ensures types == if ok then AddTypes(old(types), items) else old(types)
      ensures counters == if ok then UpsertReserved(old(counters), user, items) else old(counters)
    {
      if !reachable { return false; }
      var types0, counters0 := types, counters;
      assert items[0..] == items && types == AddTypes(types, items[..0]);
      for i := 0 to |items|
        invariant HasRoom(types0, items[..i]) && types == AddTypes(types0, items[..i])
        invariant UpsertReserved(counters, user, items[i..]) == UpsertReserved(counters0, user, items)
      {
        var it := items[i];
        HasRoomSnoc(types0, items, i);
        if it.typeId !in types || types[it.typeId].reservedQty + types[it.typeId].soldQty +
             it.qty > types[it.typeId].totalQty {
          if HasRoom(types0, items) {
            RoomForAllIsRoomForSome(types0, items, i + 1);
          }
          types, counters := types0, counters0;
          return false;
        }
        assert items[i..][1..] == items[i + 1..];
        ReserveTypeRow(items, i, types0);
        ReserveCounterRow(user, it);
      }
      assert items[..|items|] == items;
      return true;
    }

    /** One type row: more units reserved, on top of those of the items before. */
    method ReserveTypeRow(items: seq<Item>, i: nat, ghost types0: map<Id, TypeRow>)
      requires i < |items| && items[i].typeId in types && types == AddTypes(types0, items[..i])
      modifies this`types
      ensures types == AddTypes(types0, items[..i + 1])
    {
      var it := items[i];
      forall x { QtyOfSnoc(items, i, x); }
      types := types[it.typeId := types[it.typeId].(reservedQty := types[it.typeId].reservedQty + it.qty)];
    }

    /** One counter row: upserted as reserved. */
    method ReserveCounterRow(user: Id, it: Item)
      modifies this`counters
      ensures var k := (user, it.typeId);
              counters == old(counters)[k := if k in old(counters)
                                             then Counter(old(counters)[k].paidQty, old(counters)[k].reservedQty +
                                               it.qty)
                                             else Counter(0, it.qty)]
    {
      var k := (user, it.typeId);
      counters := counters[k := if k in counters then Counter(counters[k].paidQty, counters[k].reservedQty + it.qty)
                                else Counter(0, it.qty)];
    }

    /** One type row: reserved units become sold. */
    method SellTypeRow(it: Item)
      requires it.typeId in types
      modifies this`types
      ensures var row := old(types)[it.typeId];
              types == old(types)[it.typeId := row.(soldQty := row.soldQty + it.qty,
                                                    reservedQty := row.reservedQty - it.qty)]
    {
      var row := types[it.typeId];
      types := types[it.typeId := row.(soldQty := row.soldQty + it.qty, reservedQty := row.reservedQty - it.qty)];
    }

    /** One counter row: upserted as paid. */
    method SellCounterRow(user: Id, it: Item)
      modifies this`counters
      ensures var k := (user, it.typeId);
              counters == old(counters)[k := if k in old(counters)
                                             then Counter(old(counters)[k].paidQty +
                                               it.qty, old(counters)[k].reservedQty - it.qty)
                                             else Counter(it.qty, 0)]
    {
      var k := (user, it.typeId);
      if k in counters {
        counters := counters[k := Counter(counters[k].paidQty + it.qty, counters[k].reservedQty - it.qty)];
      } else {
        counters := counters[k := Counter(it.qty, 0)];
      }
    }

    method SellTypes(items: seq<Item>)
      requires forall it :: it in items ==> it.typeId in types
      modifies this`types
      ensures types == Ledger.SellTypes(old(types), items)
    {
      assert types == Ledger.SellTypes(types, items[..0]);
      for i := 0 to |items|
        invariant types == Ledger.SellTypes(old(types), items[..i])
      {
        assert items[i] in items;
        SellTypesSnoc(old(types), items, i);
        SellTypeRow(items[i]);
      }
      assert items[..|items|] == items;
    }

    method SellCounters(user: Id, items: seq<Item>)
      modifies this`counters
      ensures counters == UpsertSold(old(counters), user, items)
    {
      assert items[0..] == items;
      for i := 0 to |items|
        invariant UpsertSold(counters, user, items[i..]) == UpsertSold(old(counters), user, items)
      {
        assert items[i..][1..] == items[i + 1..];
        SellCounterRow(user, items[i]);
      }
    }

    method InsertPlans(plans: seq<TicketRow>)
      modifies this`tickets
      ensures tickets == old(tickets) + plans
    {
      for i := 0 to |plans|
        invariant tickets == old(tickets) + plans[..i]
      {
        tickets := tickets + [plans[i]];
      }
      assert plans[..|plans|] == plans;
    }

    /** The tickets of one item. */
    method InsertTickets(oid: Id, user: Id, it: Item)
      modifies this`tickets
      ensures tickets == old(tickets) + TicketsOfItem(oid, user, it)
    {
      var i := 0;
      while i < it.qty
        invariant 0 <= i <= it.qty
        invariant tickets == old(tickets) + seq(i, _ => TicketRow(oid, it.typeId, user))
      {
        tickets := tickets + [TicketRow(oid, it.typeId, user)];
        i := i + 1;
      }
    }

    /** OrderItem rows hold on to their order: the delete raises unless there are none. */
    method DeleteOrder(oid: Id) returns (ok: bool)
      modifies this`orders
      ensures orders == Ledger.DeleteOrder(old(orders), oid)
      ensures ok == (oid in old(orders) && old(orders)[oid].items == [])
    {
      ok := oid in orders && orders[oid].items == [];
      if ok { orders := orders - {oid}; }
    }
  }
}
