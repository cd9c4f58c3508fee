/** The Postgres side of the books under the row changes that the service calls share. */
module BooksSteps {
  import opened Wrappers
  import opened Sums
  import opened Ledger
  import opened Books

  ghost predicate DbOk(db: Database) {
    Exact(db) && RowsOk(db) && Within(db)
  }

  // ------------------------------------------------------------------ quantities of item lists

  lemma {:induction false} QtyOfMember(items: seq<Item>, it: Item)
    requires it in items
    ensures QtyOf(items, it.typeId) >= it.qty
  {
    if items[0] != it {
      QtyOfMember(items[1..], it);
    }
  }

  lemma {:induction false} QtyOfAsked(items: seq<Item>, t: Id)
    requires QtyOf(items, t) > 0
    ensures exists it :: it in items && it.typeId == t
  {
    if items[0].typeId != t {
      QtyOfAsked(items[1..], t);
    }
  }

  /** Tickets issued for a list of items, counted by order and by type. */
  lemma {:induction false} TicketCounts(oid: Id, user: Id, items: seq<Item>, who: Option<Id>, t: Id)
    ensures var more := TicketsOf(oid, user, items);
            && CountIf(more, OfOrder(oid)) == TotalQty(items)
            && CountIf(more, OfType(who, t)) == if who.None? || who.value == user then QtyOf(items, t) else 0
  {
    if items != [] {
      var first := TicketsOfItem(oid, user, items[0]);
      var rest := TicketsOf(oid, user, items[1..]);
      CountAppend(first, rest, OfOrder(oid));
      CountAppend(first, rest, OfType(who, t));
      CountUniform(first, OfOrder(oid), true);
      CountUniform(first, OfType(who, t), items[0].typeId == t && (who.None? || who.value == user));
      TicketCounts(oid, user, items[1..], who, t);
    }
  }

  lemma {:induction false} TicketRowsOf(oid: Id, user: Id, items: seq<Item>)
    ensures forall row :: row in TicketsOf(oid, user, items) ==>
              row.orderId == oid && exists it :: it in items && it.typeId == row.typeId
  {
    if items != [] {
      TicketRowsOf(oid, user, items[1..]);
      assert items[0] in items;
    }
  }

  // ------------------------------------------------------------------ guarded and unguarded updates agree

  /** The counters hold at least what the items ask. */
  ghost predicate Covered(db: Database, user: Id, items: seq<Item>) {
    && (forall it :: it in items ==> it.typeId in db.types)
    && (forall t :: t in db.types ==> db.types[t].reservedQty >= QtyOf(items, t))
    && (forall t :: ReservedAt(db.counters, user, t) >= QtyOf(items, t))
  }

  lemma CoveredHasCounters(db: Database, user: Id, items: seq<Item>)
    requires Covered(db, user, items)
    ensures HasCounters(db.counters, user, items)
  {
    forall it | it in items
      ensures (user, it.typeId) in db.counters
    {
      QtyOfMember(items, it);
      assert ReservedAt(db.counters, user, it.typeId) > 0;
    }
  }

  lemma {:induction false} TypeGuardsPass(types: map<Id, TypeRow>, items: seq<Item>)
    requires forall it :: it in items ==> it.typeId in types
    requires forall t :: t in types ==> types[t].reservedQty >= QtyOf(items, t)
    ensures DropTypesGuarded(types, items) == DropTypes(types, items)
    decreases |items|
  {
    if items != [] {
      var it := items[0];
      assert it in items;
      var first := types[it.typeId := types[it.typeId].(reservedQty := types[it.typeId].reservedQty - it.qty)];
      TypeGuardsPass(first, items[1..]);
      assert DropTypes(first, items[1..]) == DropTypes(types, items);
    }
  }

  lemma {:induction false} CounterGuardsPass(counters: map<UserKey, Counter>, user: Id, items: seq<Item>)
    requires HasCounters(counters, user, items)
    requires forall k :: k in counters && k.0 == user ==> counters[k].reservedQty >= QtyOf(items, k.1)
    ensures DropCountersGuarded(counters, user, items) == DropCounters(counters, user, items)
    decreases |items|
  {
    if items != [] {
      var k, q := (user, items[0].typeId), items[0].qty;
      assert items[0] in items;
      var first := counters[k := Counter(counters[k].paidQty, counters[k].reservedQty - q)];
      CounterGuardsPass(first, user, items[1..]);
      assert DropCounters(first, user, items[1..]) == DropCounters(counters, user, items);
    }
  }

  lemma GuardsPass(db: Database, user: Id, items: seq<Item>)
    requires Covered(db, user, items)
    ensures HasCounters(db.counters, user, items)
    ensures DropTypesGuarded(db.types, items) == DropTypes(db.types, items)
    ensures DropCountersGuarded(db.counters, user, items) == DropCounters(db.counters, user, items)
  {
    CoveredHasCounters(db, user, items);
    TypeGuardsPass(db.types, items);
    forall k | k in db.counters && k.0 == user
      ensures db.counters[k].reservedQty >= QtyOf(items, k.1)
    {
      assert ReservedAt(db.counters, user, k.1) >= QtyOf(items, k.1);
    }
    CounterGuardsPass(db.counters, user, items);
  }

  /** Selling to rows that all exist moves each one from reserved to paid. */
  lemma {:induction false} UpsertSoldAt(counters: map<UserKey, Counter>, user: Id, items: seq<Item>, u: Id, t: Id)
    requires HasCounters(counters, user, items)
    ensures PaidAt(UpsertSold(counters, user, items), u, t) ==
              PaidAt(counters, u, t) + (if u == user then QtyOf(items, t) else 0)
    ensures ReservedAt(UpsertSold(counters, user, items), u, t) ==
              ReservedAt(counters, u, t) - (if u == user then QtyOf(items, t) else 0)
    decreases |items|
  {
    if items != [] {
      var k, q := (user, items[0].typeId), items[0].qty;
      assert items[0] in items;
      UpsertSoldAt(counters[k := Counter(counters[k].paidQty + q, counters[k].reservedQty - q)], user, items[1..], u,
        t);
    }
  }

  lemma {:induction false} UpsertReservedAt(counters: map<UserKey, Counter>, user: Id, items: seq<Item>, u: Id, t: Id)
    ensures PaidAt(UpsertReserved(counters, user, items), u, t) == PaidAt(counters, u, t)
    ensures ReservedAt(UpsertReserved(counters, user, items), u, t) ==
              ReservedAt(counters, u, t) + (if u == user then QtyOf(items, t) else 0)
    decreases |items|
  {
    if items != [] {
      var k, q := (user, items[0].typeId), items[0].qty;
      UpsertReservedAt(counters[k := Counter(PaidAt(counters, user, k.1), ReservedAt(counters, user, k.1) + q)], user,
        items[1..], u, t);
    }
  }

  lemma DropCountersAt(counters: map<UserKey, Counter>, user: Id, items: seq<Item>, u: Id, t: Id)
    requires HasCounters(counters, user, items)
    ensures PaidAt(DropCounters(counters, user, items), u, t) == PaidAt(counters, u, t)
    ensures ReservedAt(DropCounters(counters, user, items), u, t) ==
              ReservedAt(counters, u, t) - (if u == user then QtyOf(items, t) else 0)
  {
    if QtyOf(items, t) > 0 {
      QtyOfAsked(items, t);
    }
  }

  // ------------------------------------------------------------------ row shapes

  lemma RowsMove(db: Database, db': Database, oid: Id, more: seq<TicketRow>)
    requires RowsOk(db) && OneOrder(db, db', oid, more) && db'.types.Keys == db.types.Keys
    requires OrderRowOk(db', oid)
    requires forall row :: row in more ==> row.typeId in db.types
    ensures RowsOk(db')
  {
    forall j | j in db'.orders && j != oid
      ensures OrderRowOk(db', j)
    {
      assert OrderRowOk(db, j);
      CountOthers(db.tickets, more, j);
    }
  }

  lemma NoTicketsFor(db: Database, oid: Id)
    requires RowsOk(db) && oid !in db.orders
    ensures CountIf(db.tickets, OfOrder(oid)) == 0
  {
    CountUniform(db.tickets, OfOrder(oid), false);
  }

  lemma {:induction false} CountMember(tickets: seq<TicketRow>, oid: Id, row: TicketRow)
    requires row in tickets && row.orderId == oid
    ensures CountIf(tickets, OfOrder(oid)) > 0
  {
    if tickets[0] != row {
      CountMember(tickets[1..], oid, row);
    }
  }

  lemma HasTicketsIsCount(tickets: seq<TicketRow>, oid: Id)
    ensures HasTickets(tickets, oid) <==> CountIf(tickets, OfOrder(oid)) > 0
  {
    if CountIf(tickets, OfOrder(oid)) > 0 {
      CountPositive(tickets, OfOrder(oid));
    } else if HasTickets(tickets, oid) {
      var row :| row in tickets && row.orderId == oid;
      CountMember(tickets, oid, row);
    }
  }

  // ------------------------------------------------------------------ a pending order is added

  function Placed(db: Database, oid: Id, row: Order): Database {
    db.(orders := db.orders[oid := row], types := AddTypes(db.types, row.items),
        counters := UpsertReserved(db.counters, row.user, row.items))
  }

  lemma PlacedFollows(db: Database, oid: Id, row: Order)
    requires oid !in db.orders && row.status.PendingPayment?
    ensures CountersFollow(db, Placed(db, oid, row), oid, [])
  {
    var db' := Placed(db, oid, row);
    forall u, t
      ensures PaidAt(db'.counters, u, t) == PaidAt(db.counters, u, t)
      ensures ReservedAt(db'.counters, u, t) == ReservedAt(db.counters, u, t) + HeldRow(db', oid, Some(u), t)
    {
      UpsertReservedAt(db.counters, row.user, row.items, u, t);
    }
  }

  /** What Redis granted: room in every type asked for, and under the user's limit. */
  ghost predicate Granted(db: Database, user: Id, items: seq<Item>) {
    && (forall it :: it in items ==> it.typeId in db.types)
    && (forall t :: t in db.types && QtyOf(items, t) > 0 ==>
          && Available(db.types[t]) >= QtyOf(items, t)
          && Used(db.counters, user, t) + QtyOf(items, t) <= db.types[t].maxPerUser)
  }

  lemma PlacedWithin(db: Database, oid: Id, row: Order)
    requires Within(db) && Granted(db, row.user, row.items)
    ensures Within(Placed(db, oid, row))
  {
    var db' := Placed(db, oid, row);
    forall t | t in db'.types
      ensures TypeRowOk(db'.types[t])
    {
      assert TypeRowOk(db.types[t]);
    }
    forall u, t
      ensures UserOk(db', u, t)
    {
      assert UserOk(db, u, t);
      UpsertReservedAt(db.counters, row.user, row.items, u, t);
    }
  }

  lemma PlacedKeeps(db: Database, oid: Id, row: Order)
    requires DbOk(db) && oid !in db.orders && row.status.PendingPayment? && |row.items| <= 1
    requires Granted(db, row.user, row.items)
    ensures DbOk(Placed(db, oid, row))
  {
    var db' := Placed(db, oid, row);
    NoTicketsFor(db, oid);
    assert db'.tickets == db.tickets + [];
    PlacedFollows(db, oid, row);
    ExactMoves(db, db', oid, []);
    assert row.items != [] ==> row.items[0] in row.items;
    assert OrderRowOk(db', oid);
    RowsMove(db, db', oid, []);
    PlacedWithin(db, oid, row);
  }

  // ------------------------------------------------------------------ a pending order is closed

  function Closed(db: Database, oid: Id, status: OrderStatus): Database
    requires oid in db.orders
  {
    var o := db.orders[oid];
    db.(orders := db.orders[oid := o.(status := status)], types := DropTypes(db.types, o.items),
        counters := DropCounters(db.counters, o.user, o.items))
  }

  /** Exact counters cover an order that holds inventory: the guarded decrements never skip. */
  lemma HoldingIsCovered(db: Database, oid: Id)
    requires Exact(db) && RowsOk(db) && oid in db.orders && Holding(db.tickets, oid, db.orders[oid])
    ensures Covered(db, db.orders[oid].user, db.orders[oid].items)
  {
    var o := db.orders[oid];
    assert OrderRowOk(db, oid);
    forall t
      ensures HeldTotal(db, None, t) >= QtyOf(o.items, t) && HeldTotal(db, Some(o.user), t) >= QtyOf(o.items, t)
    {
      SumCovers(db.orders, HeldWeight(db.tickets, None, t), oid);
      SumCovers(db.orders, HeldWeight(db.tickets, Some(o.user), t), oid);
    }
  }

  lemma ClosedFollows(db: Database, oid: Id, status: OrderStatus)
    requires oid in db.orders && db.orders[oid].status.PendingPayment?
    requires !status.PendingPayment? && !status.Paid?
    requires HasCounters(db.counters, db.orders[oid].user, db.orders[oid].items)
    ensures CountersFollow(db, Closed(db, oid, status), oid, [])
  {
    var o := db.orders[oid];
    var db' := Closed(db, oid, status);
    forall u, t
      ensures PaidAt(db'.counters, u, t) == PaidAt(db.counters, u, t)
      ensures ReservedAt(db'.counters, u, t) == ReservedAt(db.counters, u, t) - HeldRow(db, oid, Some(u), t)
    {
      DropCountersAt(db.counters, o.user, o.items, u, t);
    }
  }

  lemma ClosedWithin(db: Database, oid: Id, status: OrderStatus)
    requires Within(db) && oid in db.orders
    requires HasCounters(db.counters, db.orders[oid].user, db.orders[oid].items)
    ensures Within(Closed(db, oid, status))
  {
    var o := db.orders[oid];
    var db' := Closed(db, oid, status);
    forall t | t in db'.types
      ensures TypeRowOk(db'.types[t])
    {
      assert TypeRowOk(db.types[t]);
    }
    forall u, t
      ensures UserOk(db', u, t)
    {
      assert UserOk(db, u, t);
      DropCountersAt(db.counters, o.user, o.items, u, t);
    }
  }

  lemma ClosedKeeps(db: Database, oid: Id, status: OrderStatus)
    requires DbOk(db) && oid in db.orders && db.orders[oid].status.PendingPayment?
    requires !status.PendingPayment? && !status.Paid?
    ensures DbOk(Closed(db, oid, status))
  {
    var o := db.orders[oid];
    var db' := Closed(db, oid, status);
    HoldingIsCovered(db, oid);
    CoveredHasCounters(db, o.user, o.items);
    assert db'.tickets == db.tickets + [];
    ClosedFollows(db, oid, status);
    ExactMoves(db, db', oid, []);
    assert OrderRowOk(db, oid);
    assert OrderRowOk(db', oid);
    RowsMove(db, db', oid, []);
    ClosedWithin(db, oid, status);
  }

  // ------------------------------------------------------------------ an order is paid, or issued, or both

  function MarkedPaid(db: Database, oid: Id): Database
    requires oid in db.orders
  {
    db.(orders := db.orders[oid := db.orders[oid].(status := Paid)])
  }

  lemma MarkedPaidBooks(db: Database, oid: Id)
    requires Exact(db) && RowsOk(db) && oid in db.orders && db.orders[oid].status.PendingPayment?
    ensures Exact(MarkedPaid(db, oid)) && RowsOk(MarkedPaid(db, oid))
    ensures CountIf(db.tickets, OfOrder(oid)) == 0
  {
    var db' := MarkedPaid(db, oid);
    assert OrderRowOk(db, oid);
    assert db'.tickets == db.tickets + [];
    assert CountersFollow(db, db', oid, []);
    ExactMoves(db, db', oid, []);
    assert OrderRowOk(db', oid);
    RowsMove(db, db', oid, []);
  }

  lemma MarkedPaidKeeps(db: Database, oid: Id)
    requires DbOk(db) && oid in db.orders && db.orders[oid].status.PendingPayment?
    ensures DbOk(MarkedPaid(db, oid))
    ensures CountIf(db.tickets, OfOrder(oid)) == 0
  {
    MarkedPaidBooks(db, oid);
    forall u, t
      ensures UserOk(MarkedPaid(db, oid), u, t)
    {
      assert UserOk(db, u, t);
    }
  }

  function Issued(db: Database, oid: Id): Database
    requires oid in db.orders
  {
    var o := db.orders[oid];
    Database(SellTypes(db.types, o.items), UpsertSold(db.counters, o.user, o.items),
             db.orders, db.tickets + TicketsOf(oid, o.user, o.items))
  }

  lemma IssuedFollows(db: Database, oid: Id)
    requires oid in db.orders && db.orders[oid].status.Paid? && CountIf(db.tickets, OfOrder(oid)) == 0
    requires HasCounters(db.counters, db.orders[oid].user, db.orders[oid].items)
    ensures var o := db.orders[oid];
            CountersFollow(db, Issued(db, oid), oid, TicketsOf(oid, o.user, o.items))
  {
    var o := db.orders[oid];
    var db' := Issued(db, oid);
    var more := TicketsOf(oid, o.user, o.items);
    CountAppend(db.tickets, more, OfOrder(oid));
    forall who: Option<Id>, t
      ensures CountIf(more, OfType(who, t)) == if who.None? || who.value == o.user then QtyOf(o.items, t) else 0
      ensures HeldRow(db', oid, who, t) == 0
    {
      TicketCounts(oid, o.user, o.items, who, t);
    }
    forall u, t
      ensures PaidAt(db'.counters, u, t) == PaidAt(db.counters, u, t) + CountIf(more, OfType(Some(u), t))
      ensures ReservedAt(db'.counters, u, t) == ReservedAt(db.counters, u, t) - HeldRow(db, oid, Some(u), t)
    {
      UpsertSoldAt(db.counters, o.user, o.items, u, t);
    }
  }

  lemma IssuedWithin(db: Database, oid: Id)
    requires Within(db) && oid in db.orders
    requires HasCounters(db.counters, db.orders[oid].user, db.orders[oid].items)
    ensures Within(Issued(db, oid))
  {
    var o := db.orders[oid];
    var db' := Issued(db, oid);
    forall t | t in db'.types
      ensures TypeRowOk(db'.types[t])
    {
      assert TypeRowOk(db.types[t]);
    }
    forall u, t
      ensures UserOk(db', u, t)
    {
      assert UserOk(db, u, t);
      UpsertSoldAt(db.counters, o.user, o.items, u, t);
    }
  }

  lemma IssuedKeeps(db: Database, oid: Id)
    requires DbOk(db) && oid in db.orders && db.orders[oid].status.Paid?
    requires CountIf(db.tickets, OfOrder(oid)) == 0
    ensures DbOk(Issued(db, oid))
  {
    var o := db.orders[oid];
    var db' := Issued(db, oid);
    var more := TicketsOf(oid, o.user, o.items);
    assert OrderRowOk(db, oid);
    HoldingIsCovered(db, oid);
    CoveredHasCounters(db, o.user, o.items);
    TicketRowsOf(oid, o.user, o.items);
    assert db'.orders == db.orders[oid := db'.orders[oid]];
    IssuedFollows(db, oid);
    ExactMoves(db, db', oid, more);
    TicketCounts(oid, o.user, o.items, None, oid);
    CountAppend(db.tickets, more, OfOrder(oid));
    assert OrderRowOk(db', oid);
    RowsMove(db, db', oid, more);
    IssuedWithin(db, oid);
  }

  // ------------------------------------------------------------------ ticket types

  lemma NoFoldForUnknownType(db: Database, t: Id, who: Option<Id>)
    requires RowsOk(db) && t !in db.types
    ensures HeldTotal(db, who, t) == 0 && SoldTotal(db, who, t) == 0
  {
    forall oid | oid in db.orders
      ensures Held(db.tickets, oid, db.orders[oid], who, t) == 0
    {
      assert OrderRowOk(db, oid);
      if QtyOf(db.orders[oid].items, t) > 0 {
        QtyOfAsked(db.orders[oid].items, t);
      }
    }
    SumZero(db.orders, HeldWeight(db.tickets, who, t));
    CountUniform(db.tickets, OfType(who, t), false);
  }

  /** Folds and row shapes do not look at the limits of a ticket type. */
  lemma TypesGrow(db: Database, db': Database)
    requires Exact(db) && RowsOk(db) && db' == db.(types := db'.types) && db.types.Keys <= db'.types.Keys
    requires forall t :: t in db'.types ==>
               && db'.types[t].reservedQty == (if t in db.types then db.types[t].reservedQty
                    else HeldTotal(db, None, t))
               && db'.types[t].soldQty == (if t in db.types then db.types[t].soldQty else SoldTotal(db, None, t))
    ensures Exact(db') && RowsOk(db')
  {
    forall oid | oid in db'.orders
      ensures OrderRowOk(db', oid)
    {
      assert OrderRowOk(db, oid);
    }
    forall who, t
      ensures HeldTotal(db', who, t) == HeldTotal(db, who, t)
    {
    }
  }

  lemma NewTypeKeeps(db: Database, t: Id, row: TypeRow)
    requires DbOk(db) && t !in db.types
    requires row.soldQty == 0 && row.reservedQty == 0 && row.totalQty > 0 && row.maxPerUser > 0
    ensures DbOk(db.(types := db.types[t := row]))
  {
    var db' := db.(types := db.types[t := row]);
    NoFoldForUnknownType(db, t, None);
    TypesGrow(db, db');
    forall u, x
      ensures UserOk(db', u, x)
    {
      assert UserOk(db, u, x);
      if x == t {
        NoFoldForUnknownType(db, t, Some(u));
      }
    }
  }

  /** No user has, or awaits payment for, more of a type than a limit allows. */
  ghost predicate LimitFits(db: Database, t: Id, limit: int) {
    forall u :: Used(db.counters, u, t) <= limit
  }

  lemma ResizedTypeKeeps(db: Database, t: Id, row: TypeRow)
    requires DbOk(db) && t in db.types && TypeRowOk(row)
    requires row.soldQty == db.types[t].soldQty && row.reservedQty == db.types[t].reservedQty
    requires LimitFits(db, t, row.maxPerUser)
    ensures DbOk(db.(types := db.types[t := row]))
  {
    var db' := db.(types := db.types[t := row]);
    TypesGrow(db, db');
    forall u, x
      ensures UserOk(db', u, x)
    {
      assert UserOk(db, u, x);
    }
  }
}
