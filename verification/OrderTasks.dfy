/**
  Requests and jobs on orders, interleaved statement by statement over both stores.  Every call is a
  task that runs one script, one statement or one transaction at a time; a crashed call is a task that
  is never advanced again.  Orders have one item: Redis refuses every longer list before a row exists.
 */
module OrderTasks {
  import opened Wrappers
  import opened Sums
  import opened Ledger
  import opened Books

  /** The calls: createOrder, cancelOrder, expireOrder, the success webhook, the FAILED webhook and the
      cron release with the status they write, the cron marking, the ticket-issue job. */
  datatype Job = Create | Cancel | Expire | Pay | Close(status: OrderStatus) | Mark | Issue

  /** The next thing a task does. */
  datatype Phase =
    | Start                                            // the reserve script, or the read of the order
    | ToInsert | ToCount | ToCharge                    // createOrder: row, inventory transaction, gateway
    | ToCheck                                          // the issue job: are there tickets already
    | ToTransact                                       // one transaction
    | ToRelease | ToDelete                             // the scripts and commands on the reservation key
    | ToDrop(types: bool, counters: bool, failed: bool)   // the unguarded decrements still to send
    | ToWrite(failed: bool)                            // the last statement: a status, or the delete of the row
    | Finished

  /** `tookTypes` and `tookCounter`: this task has subtracted the order's units from that row. */
  datatype Task = Task(oid: Id, user: Id, it: Item, job: Job, phase: Phase,
                       counted: bool, tookTypes: bool, tookCounter: bool)
  datatype System = System(stores: Stores, tasks: map<nat, Task>)
  datatype Move =
    | Begin(n: nat, oid: Id, user: Id, it: Item, job: Job)
    | Advance(n: nat, ok: bool)      // ok: how the outside turns out, or which of two statements comes first
    | RedisMoves(redis: Redis)       // lapses, flushes, seeds: anything at all happens to the keys

  function NewTask(oid: Id, user: Id, it: Item, job: Job): Task {
    Task(oid, user, it, job, Start, false, false, false)
  }

  // ------------------------------------------------------------------ the statements

  /** The read that every call but createOrder begins with; `ok` stands for signature, amount and clock. */
  function Read(db: Database, t: Task, ok: bool): Task {
    if !ok || t.oid !in db.orders || |db.orders[t.oid].items| != 1 then t.(phase := Finished)
    else
      var o := db.orders[t.oid];
      var seen := t.(user := o.user, it := o.items[0]);
      if t.job.Cancel? && o.user != t.user then t.(phase := Finished)
      else if t.job.Issue? then if o.status.Paid? then seen.(phase := ToCheck) else t.(phase := Finished)
      else if !o.status.PendingPayment? then t.(phase := Finished)
      else if t.job.Cancel? || t.job.Expire? then seen.(phase := ToRelease)
      else seen.(phase := ToTransact)
  }

  /** The inserted row; amount and expiry only ever meet `ok`. */
  function Row(t: Task): Order {
    Order(t.user, [t.it], PendingPayment, 0, 0)
  }

  /** The decrement that is sent next: cancelOrder and the rollback send both at once, expireOrder the counter first. */
  predicate DropsTypes(t: Task, ok: bool) {
    t.phase.ToDrop? && t.phase.types && (!t.phase.counters || (ok && !t.job.Expire?))
  }

  predicate DropsCounter(t: Task, ok: bool) {
    t.phase.ToDrop? && t.phase.counters && !DropsTypes(t, ok)
  }

  function AfterDrop(types: bool, counters: bool, failed: bool): Phase {
    if types || counters then ToDrop(types, counters, failed) else ToWrite(failed)
  }

  function Drop(db: Database, t: Task, ok: bool): (Database, Task) {
    if DropsTypes(t, ok) then
      (db.(types := DropTypes(db.types, [t.it])),
       t.(tookTypes := true, phase := AfterDrop(false, t.phase.counters, t.phase.failed)))
    else if DropsCounter(t, ok) then
      if (t.user, t.it.typeId) in db.counters then
        (db.(counters := DropCounters(db.counters, t.user, [t.it])),
         t.(tookCounter := true, phase := AfterDrop(t.phase.types, false, t.phase.failed)))
      else if t.job.Expire? then (db, t.(phase := ToWrite(true)))
      else (db, t.(phase := AfterDrop(t.phase.types, false, true)))
    else (db, t)
  }

  /** The status cancelOrder and expireOrder end with; the rollback's delete of a row with an item is refused. */
  function Write(db: Database, t: Task): Database {
    if t.phase == ToWrite(false) && t.oid in db.orders && (t.job.Cancel? || t.job.Expire?) then
      db.(orders := db.orders[t.oid := db.orders[t.oid].(status := if t.job.Cancel? then Cancelled else Expired)])
    else db
  }

  /** Is there a row to subtract from, and, for a guarded update, enough in it? */
  predicate Moves(db: Database, t: Task, who: Option<Id>) {
    match who
    case None => t.it.typeId in db.types && (t.job.Close? ==> db.types[t.it.typeId].reservedQty >= t.it.qty)
    case Some(u) =>
      u == t.user && (u, t.it.typeId) in db.counters
      && (t.job.Close? ==> db.counters[(u, t.it.typeId)].reservedQty >= t.it.qty)
  }

  function Sell(db: Database, t: Task): Database {
    db.(types := SellTypes(db.types, [t.it]), counters := UpsertSold(db.counters, t.user, [t.it]),
        tickets := db.tickets + TicketsOf(t.oid, t.user, [t.it]))
  }

  function SetStatus(db: Database, oid: Id, status: OrderStatus): Database
    requires oid in db.orders
  {
    db.(orders := db.orders[oid := db.orders[oid].(status := status)])
  }

  /** Only the unpaid and the marking transaction look at the status again. */
  function Transact(db: Database, t: Task): (Database, Task) {
    var took := t.(tookTypes := Moves(db, t, None), tookCounter := Moves(db, t, Some(t.user)));
    if t.oid !in db.orders then (db, t.(phase := Finished))
    else
      match t.job
      case Pay => (SetStatus(Sell(db, t), t.oid, Paid), took.(phase := ToDelete))
      case Issue => (Sell(db, t), took.(phase := Finished))
      case Mark =>
        (if db.orders[t.oid].status.PendingPayment? then SetStatus(db, t.oid, Paid) else db, t.(phase := Finished))
      case Close(status) =>
        if db.orders[t.oid].status.PendingPayment? then
          (SetStatus(db, t.oid, status).(types := DropTypesGuarded(db.types, [t.it]),
                                         counters := DropCountersGuarded(db.counters, t.user, [t.it])),
           took.(phase := ToRelease))
        else (db, t.(phase := ToRelease))
      case _ => (db, t)
  }

  /** After the release script. */
  function AfterRelease(db: Database, t: Task): Task {
    match t.job
    case Close(_) => t.(phase := Finished)
    case Create =>
      if t.oid !in db.orders then t.(phase := Finished)
      else if t.counted then t.(phase := ToDrop(true, true, false))
      else t.(phase := ToWrite(false))
    case _ => t.(phase := ToDrop(true, true, false))
  }

  function MaxPerUser(db: Database, t: Id): int {
    if t in db.types then db.types[t].maxPerUser else 0
  }

  predicate Counts(db: Database, t: Task, ok: bool) {
    t.phase.ToCount? && ok && HasRoom(db.types, [t.it])
  }

  /** One step of a task: what becomes of the stores and of the task. */
  function Next(s: Stores, t: Task, ok: bool): (Stores, Task) {
    match t.phase
    case Start =>
      if !t.job.Create? then (s, Read(s.db, t, ok))
      else if ok && Accepts(s.redis, t.oid, t.user, t.it, MaxPerUser(s.db, t.it.typeId)) then
        (s.(redis := Reserve(s.redis, t.oid, t.user, t.it)), t.(phase := ToInsert))
      else (s, t.(phase := Finished))
    case ToInsert =>
      if ok && t.oid !in s.db.orders then
        (s.(db := s.db.(orders := s.db.orders[t.oid := Row(t)])), t.(phase := ToCount))
      else (s, t.(phase := ToRelease))
    case ToCount =>
      if Counts(s.db, t, ok) then
        (s.(db := s.db.(types := AddTypes(s.db.types, [t.it]),
          counters := UpsertReserved(s.db.counters, t.user, [t.it]))),
         t.(phase := ToCharge, counted := true))
      else (s, t.(phase := ToRelease))
    case ToCharge => (s, t.(phase := if ok then Finished else ToRelease))
    case ToCheck => (s, t.(phase := if HasTickets(s.db.tickets, t.oid) then Finished else ToTransact))
    case ToTransact => var (db, t') := Transact(s.db, t); (s.(db := db), t')
    case ToRelease => (s.(redis := Release(s.redis, t.oid, t.user, t.it)), AfterRelease(s.db, t))
    case ToDelete => (s.(redis := s.redis.(holds := s.redis.holds - {t.oid})), t.(phase := Finished))
    case ToDrop(_, _, _) => var (db, t') := Drop(s.db, t, ok); (s.(db := db), t')
    case ToWrite(_) => (s.(db := Write(s.db, t)), t.(phase := Finished))
    case Finished => (s, t)
  }

  function Step(s: System, m: Move): System {
    match m
    case Begin(n, oid, user, it, job) => s.(tasks := s.tasks[n := NewTask(oid, user, it, job)])
    case RedisMoves(redis) => s.(stores := s.stores.(redis := redis))
    case Advance(n, ok) =>
      if n !in s.tasks then s
      else
        var (stores, t) := Next(s.stores, s.tasks[n], ok);
        System(stores, s.tasks[n := t])
  }

  /** Task numbers are new, an order id is created once, and a createOrder has validated its ticket type. */
  predicate Legal(s: System, m: Move) {
    match m
    case Begin(n, oid, user, it, job) =>
      && n !in s.tasks
      && (job.Create? ==> it.typeId in s.stores.db.types && oid !in s.stores.db.orders
                          && forall k :: k in s.tasks && s.tasks[k].job.Create? ==> s.tasks[k].oid != oid)
      && (job.Close? ==> !job.status.PendingPayment? && !job.status.Paid?)
    case Advance(_, _) => true
    case RedisMoves(_) => true
  }

  function Run(s: System, moves: seq<Move>): System
    decreases |moves|
  {
    if moves == [] then s else Run(Step(s, moves[0]), moves[1..])
  }

  predicate LegalRun(s: System, moves: seq<Move>)
    decreases |moves|
  {
    moves == [] || (Legal(s, moves[0]) && LegalRun(Step(s, moves[0]), moves[1..]))
  }

  // ------------------------------------------------------------------ whose units an order still holds

  /** A task under way keeps its order's units out of the row: it has yet to count them, or has taken them out. */
  predicate Withholds(t: Task, who: Option<Id>) {
    && !t.phase.Finished?
    && ((t.job.Create? && !t.counted) || (if who.None? then t.tookTypes else t.tookCounter))
  }

  predicate Withheld(tasks: map<nat, Task>, oid: Id, who: Option<Id>) {
    exists n :: n in tasks && tasks[n].oid == oid && Withholds(tasks[n], who)
  }

  predicate WithheldByOthers(tasks: map<nat, Task>, n: nat, oid: Id, who: Option<Id>) {
    exists k :: k in tasks && k != n && tasks[k].oid == oid && Withholds(tasks[k], who)
  }

  predicate Holds(db: Database, oid: Id) {
    oid in db.orders && Holding(db.tickets, oid, db.orders[oid])
  }

  /** The order holds its units and no other task keeps them out: task n may count or take them. */
  predicate Free(s: System, n: nat, who: Option<Id>)
    requires n in s.tasks
  {
    Holds(s.stores.db, s.tasks[n].oid) && !WithheldByOthers(s.tasks, n, s.tasks[n].oid, who)
  }

  function Live(s: System, oid: Id, o: Order, who: Option<Id>, t: Id): nat {
    if (who.None? || who.value == o.user) && Holding(s.stores.db.tickets, oid, o) && !Withheld(s.tasks, oid, who)
    then QtyOf(o.items, t) else 0
  }

  function LiveWeight(s: System, who: Option<Id>, t: Id): (Id, Order) -> int {
    (oid: Id, o: Order) => Live(s, oid, o, who, t)
  }

  /** What the orders hold, less what tasks under way keep out. */
  ghost function LiveTotal(s: System, who: Option<Id>, t: Id): int {
    Sum(s.stores.db.orders, LiveWeight(s, who, t))
  }

  function Reserved(db: Database, who: Option<Id>, t: Id): int {
    match who
    case None => if t in db.types then db.types[t].reservedQty else 0
    case Some(u) => ReservedAt(db.counters, u, t)
  }

  /** How far the counter of a type, or of a user for a type, is from the orders. */
  ghost function Gap(s: System, who: Option<Id>, t: Id): int {
    LiveTotal(s, who, t) - Reserved(s.stores.db, who, t)
  }

  ghost predicate AllExact(s: System) {
    forall who, t :: Gap(s, who, t) == 0
  }
}
