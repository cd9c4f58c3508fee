/**
  Concurrent requests at the grain of what is atomic: one Lua script at a time in Redis, one
  statement or transaction at a time in Postgres.  A trace is any interleaving of the calls of any
  number of requests; a request that crashes just has no more entries.
 */
module Interleaving {
  import opened Sums
  import opened Ledger
  import opened BooksSteps

  // ------------------------------------------------------------------ Redis scripts

  datatype Script =
    | ReserveCall(oid: Id, user: Id, it: Item, maxPerUser: int)
    | ReleaseCall(oid: Id, user: Id, it: Item)
    | PaidDelete(oid: Id)
    | KeyExpiry(oid: Id)

  function Exec(r: Redis, c: Script): Redis {
    match c
    case ReserveCall(oid, user, it, maxPerUser) => if Accepts(r, oid, user, it, maxPerUser)
                then Reserve(r, oid, user, it) else r
    case ReleaseCall(oid, user, it) => Release(r, oid, user, it)
    case PaidDelete(oid) => r.(holds := r.holds - {oid})
    case KeyExpiry(oid) => r.(holds := r.holds - {oid})
  }

  function ExecAll(r: Redis, trace: seq<Script>): Redis
    decreases |trace|
  {
    if trace == [] then r else ExecAll(Exec(r, trace[0]), trace[1..])
  }

  /** Units of one order, or of one ticket type, inside live reservation keys. */
  function LiveOf(r: Redis, oid: Id): int {
    if oid in r.holds then r.holds[oid].qty else 0
  }

  function TypeWeight(t: Id): (Id, Hold) -> int {
    (oid: Id, h: Hold) => if h.typeId == t then h.qty else 0
  }

  ghost function LiveUnits(r: Redis, t: Id): int {
    Sum(r.holds, TypeWeight(t))
  }

  /** What one script grants to, returns from, or drops of an order. */
  function GrantedBy(r: Redis, c: Script, oid: Id): int {
    if c.ReserveCall? && c.oid == oid && Accepts(r, oid, c.user, c.it, c.maxPerUser) then c.it.qty else 0
  }

  function ReturnedBy(r: Redis, c: Script, oid: Id): int {
    if c.ReleaseCall? && c.oid == oid && Releases(r, oid, c.user, c.it) then c.it.qty else 0
  }

  function DroppedBy(r: Redis, c: Script, oid: Id): int {
    if (c.PaidDelete? || c.KeyExpiry?) && c.oid == oid then LiveOf(r, oid) else 0
  }

  function GrantedTotal(r: Redis, trace: seq<Script>, oid: Id): int
    decreases |trace|
  {
    if trace == [] then 0 else GrantedBy(r, trace[0], oid) + GrantedTotal(Exec(r, trace[0]), trace[1..], oid)
  }

  function ReturnedTotal(r: Redis, trace: seq<Script>, oid: Id): int
    decreases |trace|
  {
    if trace == [] then 0 else ReturnedBy(r, trace[0], oid) + ReturnedTotal(Exec(r, trace[0]), trace[1..], oid)
  }

  function DroppedTotal(r: Redis, trace: seq<Script>, oid: Id): int
    decreases |trace|
  {
    if trace == [] then 0 else DroppedBy(r, trace[0], oid) + DroppedTotal(Exec(r, trace[0]), trace[1..], oid)
  }

  /** Of one ticket type: the units that leave with a key deleted by payment or by its lifetime. */
  function DroppedUnits(r: Redis, trace: seq<Script>, t: Id): int
    decreases |trace|
  {
    if trace == [] then 0
    else
      (var c := trace[0];
       if (c.PaidDelete? || c.KeyExpiry?) && c.oid in r.holds && r.holds[c.oid].typeId ==
            t then r.holds[c.oid].qty else 0)
      + DroppedUnits(Exec(r, trace[0]), trace[1..], t)
  }

  predicate HoldsPositive(r: Redis) {
    forall oid :: oid in r.holds ==> 0 < r.holds[oid].qty
  }

  /**
    Every unit granted to an order is, at any later time, in exactly one place: still in its key,
    returned to stock, or gone with a deleted or lapsed key.
   */
  lemma {:induction false} EachUnitIsSomewhere(r: Redis, trace: seq<Script>, oid: Id)
    ensures ReturnedTotal(r, trace, oid) + DroppedTotal(r, trace, oid) + LiveOf(ExecAll(r, trace), oid)
            == LiveOf(r, oid) + GrantedTotal(r, trace, oid)
    decreases |trace|
  {
    if trace != [] {
      EachUnitIsSomewhere(Exec(r, trace[0]), trace[1..], oid);
    }
  }

  lemma {:induction false} HoldsStayPositive(r: Redis, trace: seq<Script>, oid: Id)
    requires HoldsPositive(r)
    ensures HoldsPositive(ExecAll(r, trace))
    ensures DroppedTotal(r, trace, oid) >= 0
    decreases |trace|
  {
    if trace != [] {
      HoldsStayPositive(Exec(r, trace[0]), trace[1..], oid);
    }
  }

  /**
    However many cancels, expiries, FAILED webhooks and cron releases run for an order, no more comes
    back to stock than was ever granted to it.
   */
  lemma {:induction false} UnitsReturnAtMostOnce(trace: seq<Script>, oid: Id)
    ensures var r := Redis(map[], map[], map[]);
            ReturnedTotal(r, trace, oid) + DroppedTotal(r, trace, oid) <= GrantedTotal(r, trace, oid)
  {
    var r := Redis(map[], map[], map[]);
    EachUnitIsSomewhere(r, trace, oid);
    HoldsStayPositive(r, trace, oid);
  }

  /** And nothing comes back once its key is gone, by payment, by its lifetime or by an earlier release. */
  lemma {:induction false} NothingReturnsWithoutKey(r: Redis, trace: seq<Script>, oid: Id)
    requires oid !in r.holds && forall c :: c in trace && c.ReserveCall? ==> c.oid != oid
    ensures ReturnedTotal(r, trace, oid) == 0
    decreases |trace|
  {
    if trace != [] {
      assert trace[0] in trace;
      NothingReturnsWithoutKey(Exec(r, trace[0]), trace[1..], oid);
    }
  }

  lemma ExecConserves(r: Redis, c: Script, t: Id)
    ensures ReadStock(Exec(r, c), t) + LiveUnits(Exec(r, c), t) + DroppedUnits(r, [c], t) ==
              ReadStock(r, t) + LiveUnits(r, t)
  {
    var r' := Exec(r, c);
    assert [c][1..] == [];
    if r'.holds.Keys != r.holds.Keys {
      if c.oid in r.holds {
        SumAt(r.holds, TypeWeight(t), c.oid);
        assert r'.holds == r.holds - {c.oid};
      } else {
        SumAt(r'.holds, TypeWeight(t), c.oid);
        assert r'.holds - {c.oid} == r.holds;
      }
    } else {
      assert r'.holds == r.holds;
    }
  }

  /** Stock and live reservations together are constant, except for keys that payment or lifetime removes. */
  lemma {:induction false} StockIsConserved(r: Redis, trace: seq<Script>, t: Id)
    ensures ReadStock(ExecAll(r, trace), t) + LiveUnits(ExecAll(r, trace), t) + DroppedUnits(r, trace, t)
            == ReadStock(r, t) + LiveUnits(r, t)
    decreases |trace|
  {
    if trace != [] {
      ExecConserves(r, trace[0], t);
      assert [trace[0]][1..] == [];
      StockIsConserved(Exec(r, trace[0]), trace[1..], t);
    }
  }

  lemma {:induction false} DroppedIsNotNegative(r: Redis, trace: seq<Script>, t: Id)
    requires HoldsPositive(r)
    ensures DroppedUnits(r, trace, t) >= 0
    decreases |trace|
  {
    if trace != [] {
      assert HoldsPositive(Exec(r, trace[0]));
      DroppedIsNotNegative(Exec(r, trace[0]), trace[1..], t);
    }
  }

  /** So no trace of scripts raises stock and live reservations taken together. */
  lemma StockNeverRises(r: Redis, trace: seq<Script>, t: Id)
    requires HoldsPositive(r)
    ensures ReadStock(ExecAll(r, trace), t) + LiveUnits(ExecAll(r, trace), t) <= ReadStock(r, t) + LiveUnits(r, t)
  {
    StockIsConserved(r, trace, t);
    DroppedIsNotNegative(r, trace, t);
  }

  // ------------------------------------------------------------------ Postgres statements

  /** One statement or transaction on the ticket type rows, as the services send them. */
  datatype Statement =
    | ReserveTx(items: seq<Item>)
    | Decrement(t: Id, qty: Quantity)
    | DecrementWhereCovered(t: Id, qty: Quantity)
    | SellTx(items: seq<Item>)

  function ExecSql(types: map<Id, TypeRow>, c: Statement): map<Id, TypeRow> {
    match c
    case ReserveTx(items) => if HasRoom(types, items) then AddTypes(types, items) else types
    case Decrement(t, qty) => if t in types then types[t := types[t].(reservedQty := types[t].reservedQty - qty)]
                else types
    case DecrementWhereCovered(t, qty) =>
      if t in types && types[t].reservedQty >= qty
           then types[t := types[t].(reservedQty := types[t].reservedQty - qty)] else types
    case SellTx(items) => SellTypes(types, items)
  }

  function ExecSqlAll(types: map<Id, TypeRow>, trace: seq<Statement>): map<Id, TypeRow>
    decreases |trace|
  {
    if trace == [] then types else ExecSqlAll(ExecSql(types, trace[0]), trace[1..])
  }

  predicate Capped(types: map<Id, TypeRow>) {
    forall t :: t in types ==> types[t].soldQty + types[t].reservedQty <= types[t].totalQty
  }

  /** Under every interleaving, with crashes anywhere: no type ever promises more than it has. */
  lemma {:induction false} CapSurvivesInterleaving(types: map<Id, TypeRow>, trace: seq<Statement>)
    requires Capped(types)
    ensures Capped(ExecSqlAll(types, trace))
    decreases |trace|
  {
    if trace != [] {
      var c := trace[0];
      var types' := ExecSql(types, c);
      forall t | t in types'
        ensures types'[t].soldQty + types'[t].reservedQty <= types'[t].totalQty
      {
        if c.ReserveTx? && QtyOf(c.items, t) > 0 {
          QtyOfAsked(c.items, t);
        }
      }
      CapSurvivesInterleaving(types', trace[1..]);
    }
  }
}
