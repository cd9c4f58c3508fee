/**
  The two stores behind an order: the Redis keys (stock, per-user limit, one reservation per order)
  and the Postgres rows (ticket types, per-user counters, orders, tickets), and the effect of every
  service call on them.  A service call is one function here; the services module holds the
  statement-by-statement methods that are proved to compute these functions.
 */
module Ledger {
  import opened Wrappers

  /** A UUID: identifiers are only ever compared. */
  datatype Id = Uuid(value: nat)
  type UserKey = (Id, Id)
  /** The order DTO only lets quantities of at least one through. */
  type Quantity = n: int | 0 < n witness 1

  datatype Item = Item(typeId: Id, qty: Quantity)
  datatype OrderStatus = PendingPayment | Paid | Expired | Cancelled | PaymentFailed | Refunded
  datatype Order = Order(user: Id, items: seq<Item>, status: OrderStatus, amount: int, expiresAt: int)
  datatype TypeRow = TypeRow(totalQty: int, soldQty: int, reservedQty: int, maxPerUser: int, price: int, onSale: bool)
  datatype Counter = Counter(paidQty: int, reservedQty: int)
  datatype TicketRow = TicketRow(orderId: Id, typeId: Id, user: Id)
  datatype Hold = Hold(orderId: Id, user: Id, typeId: Id, qty: int)

  datatype Redis = Redis(stock: map<Id, int>, limit: map<UserKey, int>, holds: map<Id, Hold>)
  datatype Database = Database(types: map<Id, TypeRow>, counters: map<UserKey, Counter>,
                               orders: map<Id, Order>, tickets: seq<TicketRow>)
  datatype Stores = Stores(redis: Redis, db: Database)

  datatype CreateOutcome = Created | InvalidItems | Refused | InsertFailed | InventoryFailed | GatewayFailed
  /** Which of the calls that can fail for outside reasons succeed. */
  datatype Faults = Faults(insertOk: bool, inventoryOk: bool, gatewayOk: bool)
  datatype Outcome = Done | Ignored | NotFound | Forbidden | BadRequest | Failed
  datatype WebhookResult = Success | Failure | Timeout
  datatype Verdict = VerifiedPaid | VerifiedFailed | StillPending

  function Max(a: int, b: int): int { if a < b then b else a }

  // ------------------------------------------------------------------ reads

  function Available(row: TypeRow): int {
    row.totalQty - row.soldQty - row.reservedQty
  }

  /** The scripts read a missing key as zero. */
  function ReadStock(r: Redis, t: Id): int {
    if t in r.stock then r.stock[t] else 0
  }

  function ReadLimit(r: Redis, user: Id, t: Id): int {
    if (user, t) in r.limit then r.limit[(user, t)] else 0
  }

  /** A counter row that does not exist yet counts as zero. */
  function PaidAt(counters: map<UserKey, Counter>, user: Id, t: Id): int {
    if (user, t) in counters then counters[(user, t)].paidQty else 0
  }

  function ReservedAt(counters: map<UserKey, Counter>, user: Id, t: Id): int {
    if (user, t) in counters then counters[(user, t)].reservedQty else 0
  }

  function Used(counters: map<UserKey, Counter>, user: Id, t: Id): int {
    PaidAt(counters, user, t) + ReservedAt(counters, user, t)
  }

  // ------------------------------------------------------------------ the two Lua scripts

  /** Script steps 3, 4 and 5 of reserve-ticket. */
  predicate Accepts(r: Redis, oid: Id, user: Id, it: Item, maxPerUser: int) {
    && it.qty <= ReadStock(r, it.typeId)
    && ReadLimit(r, user, it.typeId) + it.qty <= maxPerUser
    && oid !in r.holds
  }

  function Reserve(r: Redis, oid: Id, user: Id, it: Item): Redis {
    Redis(r.stock[it.typeId := ReadStock(r, it.typeId) - it.qty],
          r.limit[(user, it.typeId) := ReadLimit(r, user, it.typeId) + it.qty],
          r.holds[oid := Hold(oid, user, it.typeId, it.qty)])
  }

  /** The checks of release-reservation: the key exists and carries these very values. */
  predicate Releases(r: Redis, oid: Id, user: Id, it: Item) {
    oid in r.holds && r.holds[oid] == Hold(oid, user, it.typeId, it.qty)
  }

  function Release(r: Redis, oid: Id, user: Id, it: Item): Redis {
    if Releases(r, oid, user, it) then
      Redis(r.stock[it.typeId := ReadStock(r, it.typeId) + it.qty],
            r.limit[(user, it.typeId) := Max(0, ReadLimit(r, user, it.typeId) - it.qty)],
            r.holds - {oid})
    else r
  }

  /**
    Releasing every item of an order: they share one key, so at most the one item written in it
    comes back, and only once.
   */
  function ReleaseAll(r: Redis, oid: Id, user: Id, items: seq<Item>): Redis {
    if oid in r.holds && exists it :: it in items && Releases(r, oid, user, it) then
      var h := r.holds[oid];
      Redis(r.stock[h.typeId := ReadStock(r, h.typeId) + h.qty],
            r.limit[(user, h.typeId) := Max(0, ReadLimit(r, user, h.typeId) - h.qty)],
            r.holds - {oid})
    else r
  }

  // ------------------------------------------------------------------ row updates

  /** How much of ticket type t a list of items asks for. */
  function QtyOf(items: seq<Item>, t: Id): nat {
    if items == [] then 0 else (if items[0].typeId == t then items[0].qty else 0) + QtyOf(items[1..], t)
  }

  function TotalQty(items: seq<Item>): nat {
    if items == [] then 0 else items[0].qty + TotalQty(items[1..])
  }

  /** reservedQty goes up, goes down, or turns into soldQty, by what is asked of each type. */
  function AddTypes(types: map<Id, TypeRow>, items: seq<Item>): map<Id, TypeRow> {
    map t | t in types :: types[t].(reservedQty := types[t].reservedQty + QtyOf(items, t))
  }

  function DropTypes(types: map<Id, TypeRow>, items: seq<Item>): map<Id, TypeRow> {
    map t | t in types :: types[t].(reservedQty := types[t].reservedQty - QtyOf(items, t))
  }

  function SellTypes(types: map<Id, TypeRow>, items: seq<Item>): map<Id, TypeRow> {
    map t | t in types ::
      types[t].(soldQty := types[t].soldQty + QtyOf(items, t), reservedQty := types[t].reservedQty - QtyOf(items, t))
  }

  /** The counters of one user go down likewise, where they exist. */
  function DropCounters(counters: map<UserKey, Counter>, user: Id, items: seq<Item>): map<UserKey, Counter> {
    map k | k in counters ::
      if k.0 == user then Counter(counters[k].paidQty, counters[k].reservedQty - QtyOf(items, k.1)) else counters[k]
  }

  predicate HasCounters(counters: map<UserKey, Counter>, user: Id, items: seq<Item>) {
    forall it :: it in items ==> (user, it.typeId) in counters
  }

  /** `updateMany` where reservedQty covers the quantity: item by item, skipping a row that does not. */
  function DropTypesGuarded(types: map<Id, TypeRow>, items: seq<Item>): map<Id, TypeRow> {
    if items == [] then types
    else
      var it := items[0];
      if it.typeId in types && types[it.typeId].reservedQty >= it.qty then
        DropTypesGuarded(types[it.typeId := types[it.typeId].(reservedQty := types[it.typeId].reservedQty - it.qty)],
          items[1..])
      else DropTypesGuarded(types, items[1..])
  }

  function DropCountersGuarded(counters: map<UserKey, Counter>, user: Id, items: seq<Item>): map<UserKey, Counter> {
    if items == [] then counters
    else
      var k, q := (user, items[0].typeId), items[0].qty;
      if k in counters && counters[k].reservedQty >= q then
        DropCountersGuarded(counters[k := Counter(counters[k].paidQty, counters[k].reservedQty - q)], user, items[1..])
      else DropCountersGuarded(counters, user, items[1..])
  }

  /** An upsert per item: of a reservation, starting a missing row from zero. */
  function UpsertReserved(counters: map<UserKey, Counter>, user: Id, items: seq<Item>): map<UserKey, Counter>
    decreases |items|
  {
    if items == [] then counters
    else
      var k, q := (user, items[0].typeId), items[0].qty;
      UpsertReserved(counters[k := if k in counters then Counter(counters[k].paidQty, counters[k].reservedQty + q)
                                   else Counter(0, q)], user, items[1..])
  }

  /** And of a sale: an existing row moves from reserved to paid, a missing one is created with nothing reserved. */
  function UpsertSold(counters: map<UserKey, Counter>, user: Id, items: seq<Item>): map<UserKey, Counter>
    decreases |items|
  {
    if items == [] then counters
    else
      var k, q := (user, items[0].typeId), items[0].qty;
      UpsertSold(counters[k := if k in counters then Counter(counters[k].paidQty + q, counters[k].reservedQty - q)
                               else Counter(q, 0)], user, items[1..])
  }

  /** One ticket for each unit of an item. */
  function TicketsOfItem(oid: Id, user: Id, it: Item): seq<TicketRow> {
    seq(it.qty, _ => TicketRow(oid, it.typeId, user))
  }

  function TicketsOf(oid: Id, user: Id, items: seq<Item>): seq<TicketRow> {
    if items == [] then [] else TicketsOfItem(oid, user, items[0]) + TicketsOf(oid, user, items[1..])
  }

  /** The inventory transaction of createOrder commits when every type has room for all that is asked of it. */
  predicate HasRoom(types: map<Id, TypeRow>, items: seq<Item>) {
    forall it :: it in items ==>
      && it.typeId in types
      && types[it.typeId].reservedQty + types[it.typeId].soldQty + QtyOf(items, it.typeId) <= types[it.typeId].totalQty
  }

  // ------------------------------------------------------------------ createOrder

  predicate ValidItems(types: map<Id, TypeRow>, items: seq<Item>) {
    forall it :: it in items ==> it.typeId in types && types[it.typeId].onSale
  }

  /** ensureRedisStock and ensureRedisUserLimit: SET NX with what Postgres says, the stock never below zero. */
  function SeedOne(s: Stores, user: Id, t: Id): Stores {
    var stock := if t in s.redis.stock || t !in s.db.types then s.redis.stock
                 else s.redis.stock[t := Max(0, Available(s.db.types[t]))];
    var limit := if (user, t) in s.redis.limit then s.redis.limit
                 else s.redis.limit[(user, t) := Used(s.db.counters, user, t)];
    Stores(Redis(stock, limit, s.redis.holds), s.db)
  }

  function SeedAll(s: Stores, user: Id, items: seq<Item>): Stores
    decreases |items|
  {
    if items == [] then s else SeedAll(SeedOne(s, user, items[0].typeId), user, items[1..])
  }

  /** The first item Redis would reserve, or the length of the list when it would refuse them all. */
  function FirstAccepted(r: Redis, types: map<Id, TypeRow>, oid: Id, user: Id, items: seq<Item>): (k: nat)
    requires ValidItems(types, items)
    ensures k <= |items|
    ensures k < |items| ==> Accepts(r, oid, user, items[k], types[items[k].typeId].maxPerUser)
    ensures forall j :: 0 <= j < k ==> !Accepts(r, oid, user, items[j], types[items[j].typeId].maxPerUser)
  {
    if items == [] then 0
    else if Accepts(r, oid, user, items[0], types[items[0].typeId].maxPerUser) then 0
    else 1 + FirstAccepted(r, types, oid, user, items[1..])
  }

  function Amount(types: map<Id, TypeRow>, items: seq<Item>): int {
    if items == [] then 0
    else (if items[0].typeId in types then types[items[0].typeId].price * items[0].qty else 0) +
           Amount(types, items[1..])
  }

  /** OrderItem rows refer to their order with ON DELETE RESTRICT, so only an order without items can go. */
  function DeleteOrder(orders: map<Id, Order>, oid: Id): map<Id, Order> {
    if oid in orders && orders[oid].items == [] then orders - {oid} else orders
  }

  function CreateOrder(s: Stores, oid: Id, user: Id, items: seq<Item>, expiresAt: int,
                       f: Faults): (Stores, CreateOutcome) {
    if !ValidItems(s.db.types, items) then (s, InvalidItems)
    else
      var seeded := SeedAll(s, user, items);
      var k := FirstAccepted(seeded.redis, s.db.types, oid, user, items);
      if items == [] || (k == 0 && |items| == 1) then
        PlaceOrder(seeded, oid, user, items, expiresAt, f)
      else if 0 < k < |items| then
        (seeded.(redis := Reserve(seeded.redis, oid, user, items[k])), Refused)
      else if k == 0 then
        (seeded.(redis := Release(Reserve(seeded.redis, oid, user, items[0]), oid, user, items[0])), Refused)
      else (seeded, Refused)
  }

  /** createOrder from the point where at most one item asked for, and got, its reservation. */
  function PlaceOrder(s: Stores, oid: Id, user: Id, items: seq<Item>, expiresAt: int,
                      f: Faults): (Stores, CreateOutcome)
    requires |items| <= 1
  {
    var reserved := if items == [] then s.redis else Reserve(s.redis, oid, user, items[0]);
    var released := ReleaseAll(reserved, oid, user, items);
    if !f.insertOk || oid in s.db.orders then (s.(redis := released), InsertFailed)
    else
      var row := Order(user, items, PendingPayment, Amount(s.db.types, items), expiresAt);
      var inserted := s.db.(orders := s.db.orders[oid := row]);
      if !f.inventoryOk || !HasRoom(s.db.types, items) then
        (Stores(released, inserted.(orders := DeleteOrder(inserted.orders, oid))), InventoryFailed)
      else
        var counted := inserted.(types := AddTypes(s.db.types, items),
              counters := UpsertReserved(s.db.counters, user, items));
        if f.gatewayOk then (Stores(reserved, counted), Created)
        else
          (Stores(released, counted.(types := DropTypes(counted.types, items),
                                     counters := DropCounters(counted.counters, user, items),
                                     orders := DeleteOrder(counted.orders, oid))),
           GatewayFailed)
  }

  // ------------------------------------------------------------------ the other order services

  function CancelOrder(s: Stores, oid: Id, user: Id): (Stores, Outcome) {
    if oid !in s.db.orders then (s, NotFound)
    else
      var o := s.db.orders[oid];
      if o.user != user then (s, Forbidden)
      else if !o.status.PendingPayment? then (s, BadRequest)
      else
        var redis := ReleaseAll(s.redis, oid, user, o.items);
        var db := s.db.(types := DropTypes(s.db.types, o.items),
              counters := DropCounters(s.db.counters, user, o.items));
        if HasCounters(s.db.counters, user, o.items) then
          (Stores(redis, db.(orders := db.orders[oid := o.(status := Cancelled)])), Done)
        else (Stores(redis, db), Failed)
  }

  function ExpireOrder(s: Stores, oid: Id, now: int): (Stores, Outcome) {
    if oid !in s.db.orders then (s, NotFound)
    else
      var o := s.db.orders[oid];
      if !o.status.PendingPayment? || o.expiresAt > now then (s, Ignored)
      else
        var redis := ReleaseAll(s.redis, oid, o.user, o.items);
        var db := s.db.(counters := DropCounters(s.db.counters, o.user, o.items));
        if HasCounters(s.db.counters, o.user, o.items) then
          (Stores(redis, db.(types := DropTypes(s.db.types, o.items),
                             orders := s.db.orders[oid := o.(status := Expired)])), Done)
        else (Stores(redis, db), Failed)
  }

  /** The transaction shared by the FAILED webhook and the cron verifier, then the Redis release. */
  function CloseUnpaid(s: Stores, oid: Id, status: OrderStatus): Stores
    requires oid in s.db.orders
  {
    var o := s.db.orders[oid];
    Stores(ReleaseAll(s.redis, oid, o.user, o.items),
           s.db.(types := DropTypesGuarded(s.db.types, o.items),
                 counters := DropCountersGuarded(s.db.counters, o.user, o.items),
                 orders := s.db.orders[oid := o.(status := status)]))
  }

  /** handlePaymentSuccess: the order is paid and its tickets exist at once; the reservation key goes. */
  function PayAndIssue(s: Stores, oid: Id): Stores
    requires oid in s.db.orders
  {
    var o := s.db.orders[oid];
    Stores(s.redis.(holds := s.redis.holds - {oid}),
           Database(SellTypes(s.db.types, o.items), UpsertSold(s.db.counters, o.user, o.items),
                    s.db.orders[oid := o.(status := Paid)], s.db.tickets + TicketsOf(oid, o.user, o.items)))
  }

  function Webhook(s: Stores, oid: Id, signed: bool, amount: int, result: WebhookResult): (Stores, Outcome) {
    if !signed then (s, BadRequest)
    else if oid !in s.db.orders then (s, NotFound)
    else if s.db.orders[oid].amount != amount then (s, BadRequest)
    else if !s.db.orders[oid].status.PendingPayment? then (s, Ignored)
    else
      match result
      case Failure => (CloseUnpaid(s, oid, PaymentFailed), Done)
      case Timeout => (s, Done)
      case Success => (PayAndIssue(s, oid), Done)
  }

  /** The cron release: its transaction skips an order that moved, but the Redis release runs all the same. */
  function CloseIfPending(s: Stores, oid: Id, status: OrderStatus): Stores
    requires oid in s.db.orders
  {
    var o := s.db.orders[oid];
    if o.status.PendingPayment? then CloseUnpaid(s, oid, status)
    else s.(redis := ReleaseAll(s.redis, oid, o.user, o.items))
  }

  /** What the cron run does with one order that its query returned. */
  function CronHandle(s: Stores, oid: Id, verdict: Verdict): Stores
    requires oid in s.db.orders
  {
    match verdict
    case VerifiedPaid =>
      if s.db.orders[oid].status.PendingPayment? then
        s.(db := s.db.(orders := s.db.orders[oid := s.db.orders[oid].(status := Paid)]))
      else s
    case VerifiedFailed => CloseIfPending(s, oid, PaymentFailed)
    case StillPending => CloseIfPending(s, oid, Expired)
  }

  /** The query and the handling of one order, with nothing in between. */
  function CronVerify(s: Stores, oid: Id, now: int, verdict: Verdict): (Stores, Outcome) {
    if oid !in s.db.orders || !s.db.orders[oid].status.PendingPayment? ||
         s.db.orders[oid].expiresAt >= now then (s, Ignored)
    else (CronHandle(s, oid, verdict), Done)
  }

  predicate HasTickets(tickets: seq<TicketRow>, oid: Id) {
    exists row :: row in tickets && row.orderId == oid
  }

  /** The ticket-issue worker: a paid order with no tickets yet gets them. */
  function IssueTickets(s: Stores, oid: Id): (Stores, Outcome) {
    if oid !in s.db.orders then (s, Failed)
    else
      var o := s.db.orders[oid];
      if !o.status.Paid? then (s, Ignored)
      else if o.items == [] then (s, Failed)
      else if HasTickets(s.db.tickets, oid) then (s, Ignored)
      else
        (s.(db := s.db.(types := SellTypes(s.db.types, o.items),
                        counters := UpsertSold(s.db.counters, o.user, o.items),
                        tickets := s.db.tickets + TicketsOf(oid, o.user, o.items))), Done)
  }

  function CreateType(s: Stores, t: Id, totalQty: Quantity, maxPerUser: Quantity, price: int): (Stores, Outcome) {
    if t in s.db.types then (s, BadRequest)
    else
      (Stores(s.redis.(stock := s.redis.stock[t := totalQty]),
              s.db.(types := s.db.types[t := TypeRow(totalQty, 0, 0, maxPerUser, price, true)])), Done)
  }

  /** The fields of an update; the ones left out stay as they are. */
  datatype TypeChange = TypeChange(totalQty: Option<Quantity>, maxPerUser: Option<Quantity>, price: Option<int>,
    onSale: Option<bool>)

  function Changed(row: TypeRow, c: TypeChange): TypeRow {
    row.(totalQty := if c.totalQty.Some? then c.totalQty.value else row.totalQty,
         maxPerUser := if c.maxPerUser.Some? then c.maxPerUser.value else row.maxPerUser,
         price := if c.price.Some? then c.price.value else row.price,
         onSale := if c.onSale.Some? then c.onSale.value else row.onSale)
  }

  /** update: the check on a new totalQty, the write, the reseed after one, and the automatic SOLD_OUT. */
  function ResizeType(s: Stores, t: Id, c: TypeChange): (Stores, Outcome) {
    if t !in s.db.types then (s, NotFound)
    else
      var row := s.db.types[t];
      if c.totalQty.Some? && c.totalQty.value < row.soldQty + row.reservedQty then (s, BadRequest)
      else
        var changed := Changed(row, c);
        var left := Available(changed);
        (Stores(if c.totalQty.Some? then s.redis.(stock := s.redis.stock[t := Max(0, left)]) else s.redis,
                s.db.(types := s.db.types[t := changed.(onSale := changed.onSale && left != 0)])), Done)
  }

  /** A reservation key reaches its time to live. */
  function Lapse(s: Stores, oid: Id): Stores {
    s.(redis := s.redis.(holds := s.redis.holds - {oid}))
  }

  function Flush(s: Stores): Stores {
    s.(redis := Redis(map[], map[], map[]))
  }
}
