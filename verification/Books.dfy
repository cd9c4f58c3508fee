/**
  What every service call keeps: the Postgres counters are exact folds over orders and tickets, and
  the Redis keys never promise more than Postgres has.
 */
module Books {
  import opened Wrappers
  import opened Sums
  import opened Ledger

  // ------------------------------------------------------------------ the folds

  function OfOrder(oid: Id): TicketRow -> bool {
    (row: TicketRow) => row.orderId == oid
  }

  /** Tickets of type t, of everyone (None) or of one user. */
  function OfType(who: Option<Id>, t: Id): TicketRow -> bool {
    (row: TicketRow) => row.typeId == t && (who.None? || who.value == row.user)
  }

  /** An order holds inventory while it awaits payment, and while it is paid but not yet issued. */
  predicate Holding(tickets: seq<TicketRow>, oid: Id, o: Order) {
    o.status.PendingPayment? || (o.status.Paid? && CountIf(tickets, OfOrder(oid)) == 0)
  }

  function Held(tickets: seq<TicketRow>, oid: Id, o: Order, who: Option<Id>, t: Id): nat {
    if (who.None? || who.value == o.user) && Holding(tickets, oid, o) then QtyOf(o.items, t) else 0
  }

  function HeldWeight(tickets: seq<TicketRow>, who: Option<Id>, t: Id): (Id, Order) -> int {
    (oid: Id, o: Order) => Held(tickets, oid, o, who, t)
  }

  ghost function HeldTotal(db: Database, who: Option<Id>, t: Id): int {
    Sum(db.orders, HeldWeight(db.tickets, who, t))
  }

  function SoldTotal(db: Database, who: Option<Id>, t: Id): nat {
    CountIf(db.tickets, OfType(who, t))
  }

  // ------------------------------------------------------------------ the invariants

  /** The counters of ticket types and users are exact folds over the orders and tickets. */
  ghost predicate Exact(db: Database) {
    && (forall t :: t in db.types ==>
          db.types[t].reservedQty == HeldTotal(db, None, t) && db.types[t].soldQty == SoldTotal(db, None, t))
    && (forall u, t :: PaidAt(db.counters, u, t) == SoldTotal(db, Some(u), t))
    && (forall u, t :: ReservedAt(db.counters, u, t) == HeldTotal(db, Some(u), t))
  }

  predicate OrderRowOk(db: Database, oid: Id)
    requires oid in db.orders
  {
    var o := db.orders[oid];
    && |o.items| <= 1
    && (forall it :: it in o.items ==> it.typeId in db.types)
    && (CountIf(db.tickets, OfOrder(oid)) == 0
        || (o.status.Paid? && CountIf(db.tickets, OfOrder(oid)) == TotalQty(o.items)))
  }

  ghost predicate RowsOk(db: Database) {
    && (forall oid :: oid in db.orders ==> OrderRowOk(db, oid))
    && (forall row :: row in db.tickets ==> row.orderId in db.orders && row.typeId in db.types)
  }

  predicate TypeRowOk(row: TypeRow) {
    row.soldQty + row.reservedQty <= row.totalQty
  }

  predicate UserOk(db: Database, u: Id, t: Id) {
    t in db.types ==> Used(db.counters, u, t) <= db.types[t].maxPerUser
  }

  /** No ticket type is oversold and no user is above the limit. */
  ghost predicate Within(db: Database) {
    && (forall t :: t in db.types ==> TypeRowOk(db.types[t]))
    && (forall u, t :: UserOk(db, u, t))
  }

  /** A reservation key agrees with its order, and its stock and limit keys are present. */
  predicate HoldOk(s: Stores, oid: Id)
    requires oid in s.redis.holds
  {
    var h := s.redis.holds[oid];
    && h.orderId == oid && 0 < h.qty
    && h.typeId in s.redis.stock && (h.user, h.typeId) in s.redis.limit
    && (oid in s.db.orders ==> s.db.orders[oid].user == h.user && s.db.orders[oid].items == [Item(h.typeId, h.qty)])
  }

  ghost predicate HoldsOk(s: Stores) {
    forall oid :: oid in s.redis.holds ==> HoldOk(s, oid)
  }

  /** What Postgres has left beyond the stock key; the limit key's excess over the counter row. */
  function StockGap(s: Stores, t: Id): int
    requires t in s.db.types
  {
    Available(s.db.types[t]) - ReadStock(s.redis, t)
  }

  function LimitGap(s: Stores, u: Id, t: Id): int {
    ReadLimit(s.redis, u, t) - Used(s.db.counters, u, t)
  }

  /** A present stock key is at most what is left; a present limit key is at least what is used. */
  ghost predicate Conservative(s: Stores) {
    && (forall t :: t in s.redis.stock ==> t in s.db.types && StockGap(s, t) >= 0)
    && (forall k :: k in s.redis.limit ==> LimitGap(s, k.0, k.1) >= 0)
  }

  ghost predicate Inv(s: Stores) {
    Exact(s.db) && RowsOk(s.db) && Within(s.db) && HoldsOk(s) && Conservative(s)
  }

  // ------------------------------------------------------------------ how the folds move

  lemma {:induction false} CountOthers(tickets: seq<TicketRow>, more: seq<TicketRow>, oid: Id)
    requires forall row :: row in more ==> row.orderId != oid
    ensures CountIf(tickets + more, OfOrder(oid)) == CountIf(tickets, OfOrder(oid))
  {
    CountAppend(tickets, more, OfOrder(oid));
    CountUniform(more, OfOrder(oid), false);
  }

  function HeldRow(db: Database, oid: Id, who: Option<Id>, t: Id): nat {
    if oid in db.orders then Held(db.tickets, oid, db.orders[oid], who, t) else 0
  }

  /** db' differs from db in one order row and in tickets appended for that order. */
  ghost predicate OneOrder(db: Database, db': Database, oid: Id, more: seq<TicketRow>) {
    && oid in db'.orders && db'.orders == db.orders[oid := db'.orders[oid]]
    && db'.tickets == db.tickets + more
    && (forall row :: row in more ==> row.orderId == oid)
  }

  lemma HeldTotalMoves(db: Database, db': Database, oid: Id, more: seq<TicketRow>, who: Option<Id>, t: Id)
    requires OneOrder(db, db', oid, more)
    ensures HeldTotal(db', who, t) - HeldTotal(db, who, t) == HeldRow(db', oid, who, t) - HeldRow(db, oid, who, t)
  {
    forall j | j in db.orders && j != oid
      ensures HeldWeight(db.tickets, who, t)(j, db.orders[j]) == HeldWeight(db'.tickets, who, t)(j, db.orders[j])
    {
      CountOthers(db.tickets, more, j);
    }
    SumWrite(db.orders, HeldWeight(db.tickets, who, t), db'.orders, HeldWeight(db'.tickets, who, t), oid);
  }

  /** The counters moved by exactly what the order row and its new tickets say. */
  ghost predicate CountersFollow(db: Database, db': Database, oid: Id, more: seq<TicketRow>) {
    && db'.types.Keys == db.types.Keys
    && (forall t :: t in db.types ==>
          && db'.types[t].reservedQty - db.types[t].reservedQty ==
               HeldRow(db', oid, None, t) - HeldRow(db, oid, None, t)
          && db'.types[t].soldQty - db.types[t].soldQty == CountIf(more, OfType(None, t)))
    && (forall u, t :: PaidAt(db'.counters, u, t) == PaidAt(db.counters, u, t) + CountIf(more, OfType(Some(u), t)))
    && (forall u, t :: ReservedAt(db'.counters, u, t) ==
          ReservedAt(db.counters, u, t) + HeldRow(db', oid, Some(u), t) - HeldRow(db, oid, Some(u), t))
  }

  lemma ExactMoves(db: Database, db': Database, oid: Id, more: seq<TicketRow>)
    requires Exact(db) && OneOrder(db, db', oid, more) && CountersFollow(db, db', oid, more)
    ensures Exact(db')
  {
    forall t | t in db'.types
      ensures db'.types[t].reservedQty == HeldTotal(db', None, t) && db'.types[t].soldQty == SoldTotal(db', None, t)
    {
      HeldTotalMoves(db, db', oid, more, None, t);
      CountAppend(db.tickets, more, OfType(None, t));
    }
    forall u, t
      ensures PaidAt(db'.counters, u, t) == SoldTotal(db', Some(u), t)
      ensures ReservedAt(db'.counters, u, t) == HeldTotal(db', Some(u), t)
    {
      HeldTotalMoves(db, db', oid, more, Some(u), t);
      CountAppend(db.tickets, more, OfType(Some(u), t));
    }
  }
}
