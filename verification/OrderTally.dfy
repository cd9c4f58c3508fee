/** The exact account of every counter under every interleaving of order tasks. */
module OrderTally {
  import opened Wrappers
  import opened Sums
  import opened Ledger
  import opened Books
  import opened BooksSteps
  import opened StoresSteps
  import opened OrderTasks

  // ------------------------------------------------------------------ the shape of tasks

  predicate Matches(db: Database, t: Task) {
    t.oid in db.orders && db.orders[t.oid].user == t.user && db.orders[t.oid].items == [t.it] && t.it.typeId in db.types
  }

  predicate Untaken(t: Task) {
    !t.tookTypes && !t.tookCounter
  }

  /** What a task in the middle of its decrements has taken so far. */
  predicate DropOk(t: Task) {
    match t.phase
    case ToDrop(types, counters, failed) =>
      && t.tookTypes == !types && (types || counters)
      && (t.tookCounter ==> !counters) && (!counters && !failed ==> t.tookCounter)
    case ToWrite(failed) => !failed && !t.job.Create? ==> t.tookTypes && t.tookCounter
    case _ => true
  }

  predicate CreateOk(db: Database, t: Task) {
    && t.it.typeId in db.types && DropOk(t)
    && match t.phase
       case Start => t.oid !in db.orders && !t.counted && Untaken(t)
       case ToInsert => t.oid !in db.orders && !t.counted && Untaken(t)
       case ToCount => Matches(db, t) && !t.counted && Untaken(t)
       case ToCharge => Matches(db, t) && t.counted && Untaken(t)
       case ToRelease => (t.oid in db.orders ==> Matches(db, t)) && Untaken(t)
       case ToDrop(_, _, _) => Matches(db, t) && t.counted
       case ToWrite(_) => Matches(db, t)
       case Finished => true
       case _ => false
  }

  predicate CloserOk(db: Database, t: Task) {
    && DropOk(t)
    && match t.phase
       case Start => Untaken(t)
       case ToRelease => Matches(db, t) && (t.job.Cancel? || t.job.Expire? || t.job.Close?) &&
                   (!t.job.Close? ==> Untaken(t))
       case ToCheck => Matches(db, t) && t.job.Issue? && Untaken(t)
       case ToTransact => Matches(db, t) && !t.job.Cancel? && !t.job.Expire? && Untaken(t)
       case ToDelete => Matches(db, t) && t.job.Pay?
       case ToDrop(_, _, _) => Matches(db, t) && (t.job.Cancel? || t.job.Expire?)
       case ToWrite(_) => Matches(db, t) && (t.job.Cancel? || t.job.Expire?)
       case Finished => true
       case _ => false
  }

  /** What can not change back: an order does not become pending again, nor take up units again. */
  predicate PastOk(db: Database, t: Task) {
    && (t.job.Issue? && (t.phase.ToCheck? || t.phase.ToTransact?) ==>
         t.oid in db.orders && !db.orders[t.oid].status.PendingPayment?)
    && (t.job.Close? || t.job.Pay? || t.job.Issue? ==> Untaken(t) || (t.oid in db.orders && !Holds(db, t.oid)))
    && (t.job.Close? ==> !t.job.status.PendingPayment? && !t.job.status.Paid?)
  }

  predicate TaskOk(db: Database, t: Task) {
    && (if t.job.Create? then CreateOk(db, t) else CloserOk(db, t))
    && PastOk(db, t)
  }

  predicate OrderOk(db: Database, oid: Id) {
    && (oid in db.orders ==> |db.orders[oid].items| == 1 && db.orders[oid].items[0].typeId in db.types)
    && (oid !in db.orders || db.orders[oid].status.PendingPayment? ==> CountIf(db.tickets, OfOrder(oid)) == 0)
  }

  predicate SoldOk(row: TypeRow, sold: nat) {
    row.soldQty == sold && row.soldQty + row.reservedQty <= row.totalQty
  }

  /** Orders have one item and no tickets while pending; soldQty is exact and the cap holds. */
  ghost predicate OrdersOk(db: Database) {
    && (forall oid :: OrderOk(db, oid))
    && (forall t :: t in db.types ==> SoldOk(db.types[t], SoldTotal(db, None, t)))
  }

  predicate OneCreate(tasks: map<nat, Task>) {
    forall m, n :: m in tasks && n in tasks && m != n && tasks[m].job.Create? && tasks[n].job.Create? ==>
             tasks[m].oid != tasks[n].oid
  }

  ghost predicate Wf(s: System) {
    && OrdersOk(s.stores.db) && OneCreate(s.tasks)
    && forall n :: n in s.tasks ==> TaskOk(s.stores.db, s.tasks[n])
  }

  // ------------------------------------------------------------------ the shape is kept

  /** How one step may change the database: one order, tickets of that order, quantities in rows. */
  ghost predicate OrderMoves(db: Database, db': Database, oid: Id) {
    && db'.types.Keys == db.types.Keys
    && (db'.orders == db.orders || (oid in db'.orders && db'.orders == db.orders[oid := db'.orders[oid]]))
    && (oid in db.orders ==>
          && oid in db'.orders
          && db'.orders[oid].user == db.orders[oid].user && db'.orders[oid].items == db.orders[oid].items
          && (!db.orders[oid].status.PendingPayment? ==> !db'.orders[oid].status.PendingPayment?)
          && (!Holds(db, oid) ==> !Holds(db', oid)))
    && db.tickets <= db'.tickets && forall row :: row in db'.tickets[|db.tickets|..] ==> row.orderId == oid
  }

  lemma HoldsElsewhere(db: Database, db': Database, oid: Id, j: Id)
    requires OrderMoves(db, db', oid) && j != oid
    ensures Holds(db', j) == Holds(db, j) && (j in db'.orders <==> j in db.orders)
    ensures j in db.orders ==> db'.orders[j] == db.orders[j]
  {
    assert db'.tickets == db.tickets + db'.tickets[|db.tickets|..];
    CountOthers(db.tickets, db'.tickets[|db.tickets|..], j);
  }

  /** Another task is as well off after the step, unless it was to create this very order. */
  lemma OtherTaskOk(db: Database, db': Database, oid: Id, t: Task)
    requires OrderMoves(db, db', oid) && TaskOk(db, t)
    requires t.oid == oid && t.job.Create? ==> (oid in db'.orders <==> oid in db.orders)
    ensures TaskOk(db', t)
  {
    if t.oid != oid {
      HoldsElsewhere(db, db', oid, t.oid);
    }
  }

  lemma SoldIsDead(db: Database, t: Task)
    requires Matches(db, t)
    ensures var tickets := db.tickets + TicketsOf(t.oid, t.user, [t.it]); CountIf(tickets, OfOrder(t.oid)) > 0
    ensures forall row :: row in TicketsOf(t.oid, t.user, [t.it]) ==> row.orderId == t.oid
  {
    TicketCounts(t.oid, t.user, [t.it], None, t.it.typeId);
    TicketRowsOf(t.oid, t.user, [t.it]);
    CountAppend(db.tickets, TicketsOf(t.oid, t.user, [t.it]), OfOrder(t.oid));
    assert [t.it][1..] == [];
  }

  lemma TransactMoves(db: Database, t: Task)
    requires TaskOk(db, t) && t.phase.ToTransact?
    ensures var (db', t') := Transact(db, t); OrderMoves(db, db', t.oid) && TaskOk(db', t') && t'.oid == t.oid
  {
    SoldIsDead(db, t);
    SameKeysGuarded(db.types, t.it);
    var db' := Transact(db, t).0;
    if t.job.Pay? || t.job.Issue? {
      assert db'.tickets[|db.tickets|..] == TicketsOf(t.oid, t.user, [t.it]);
    }
  }

  lemma SameKeysGuarded(types: map<Id, TypeRow>, it: Item)
    ensures DropTypesGuarded(types, [it]).Keys == types.Keys
  {
    assert [it][1..] == [];
  }

  lemma DropMoves(db: Database, t: Task, ok: bool)
    requires TaskOk(db, t) && t.phase.ToDrop?
    ensures var (db', t') := Drop(db, t, ok); OrderMoves(db, db', t.oid) && t'.oid == t.oid && t'.job == t.job
  {
  }

  lemma CreateMoves(s: Stores, t: Task, ok: bool)
    requires TaskOk(s.db, t) && (t.phase.ToInsert? || t.phase.ToCount?)
    ensures var (s', t') := Next(s, t, ok); OrderMoves(s.db, s'.db, t.oid) && t'.oid == t.oid && t'.job == t.job
  {
  }

  /** One step keeps the shape of its own task. */
  lemma NextMoves(s: Stores, t: Task, ok: bool)
    requires TaskOk(s.db, t)
    ensures var (s', t') := Next(s, t, ok); OrderMoves(s.db, s'.db, t.oid) && t'.oid == t.oid && t'.job == t.job
  {
    if t.phase.ToTransact? {
      TransactMoves(s.db, t);
    } else if t.phase.ToDrop? {
      DropMoves(s.db, t, ok);
    } else if t.phase.ToInsert? || t.phase.ToCount? {
      CreateMoves(s, t, ok);
    }
  }

  lemma DropKeepsShape(db: Database, t: Task, ok: bool)
    requires TaskOk(db, t) && t.phase.ToDrop?
    ensures TaskOk(Drop(db, t, ok).0, Drop(db, t, ok).1)
  {
  }

  lemma NextCreateOk(s: Stores, t: Task, ok: bool)
    requires TaskOk(s.db, t) && t.job.Create?
    ensures TaskOk(Next(s, t, ok).0.db, Next(s, t, ok).1)
  {
    if t.phase.ToDrop? {
      DropKeepsShape(s.db, t, ok);
    }
  }

  lemma NextCloserOk(s: Stores, t: Task, ok: bool)
    requires TaskOk(s.db, t) && OrdersOk(s.db) && !t.job.Create?
    ensures TaskOk(Next(s, t, ok).0.db, Next(s, t, ok).1)
  {
    if t.phase.ToDrop? {
      DropKeepsShape(s.db, t, ok);
    } else if t.phase.ToTransact? {
      TransactMoves(s.db, t);
    } else if t.phase.Start? {
      assert OrderOk(s.db, t.oid);
      assert t.oid in s.db.orders && |s.db.orders[t.oid].items| == 1 ==>
               s.db.orders[t.oid].items == [s.db.orders[t.oid].items[0]];
    }
  }

  lemma NextOk(s: Stores, t: Task, ok: bool)
    requires TaskOk(s.db, t) && OrdersOk(s.db)
    ensures TaskOk(Next(s, t, ok).0.db, Next(s, t, ok).1)
  {
    if t.job.Create? {
      NextCreateOk(s, t, ok);
    } else {
      NextCloserOk(s, t, ok);
    }
  }

  lemma NextOrderOk(s: Stores, t: Task, ok: bool, oid: Id)
    requires TaskOk(s.db, t) && OrderOk(s.db, oid) && OrderOk(s.db, t.oid)
    ensures OrderOk(Next(s, t, ok).0.db, oid)
  {
    NextMoves(s, t, ok);
    if oid != t.oid {
      HoldsElsewhere(s.db, Next(s, t, ok).0.db, t.oid, oid);
      var db' := Next(s, t, ok).0.db;
      assert db'.tickets == s.db.tickets + db'.tickets[|s.db.tickets|..];
      CountOthers(s.db.tickets, db'.tickets[|s.db.tickets|..], oid);
    }
  }

  lemma SellSold(db: Database, t: Task, ty: Id)
    requires Matches(db, t) && ty in db.types && SoldOk(db.types[ty], SoldTotal(db, None, ty))
    ensures SoldOk(Sell(db, t).types[ty], SoldTotal(Sell(db, t), None, ty))
  {
    TicketCounts(t.oid, t.user, [t.it], None, ty);
    CountAppend(db.tickets, TicketsOf(t.oid, t.user, [t.it]), OfType(None, ty));
  }

  lemma GuardedRow(types: map<Id, TypeRow>, it: Item)
    ensures DropTypesGuarded(types, [it]) ==
            if it.typeId in types && types[it.typeId].reservedQty >= it.qty
            then types[it.typeId := types[it.typeId].(reservedQty := types[it.typeId].reservedQty - it.qty)] else types
  {
    var rest := [it][1..];
    assert rest == [];
  }

  lemma NextSold(s: Stores, t: Task, ok: bool, ty: Id)
    requires TaskOk(s.db, t) && ty in s.db.types && SoldOk(s.db.types[ty], SoldTotal(s.db, None, ty))
    ensures var db' := Next(s, t, ok).0.db; ty in db'.types && SoldOk(db'.types[ty], SoldTotal(db', None, ty))
  {
    NextMoves(s, t, ok);
    OneItemQty(t.it, ty);
    if t.phase.ToTransact? {
      if t.job.Close? {
        GuardedRow(s.db.types, t.it);
      } else {
        SellSold(s.db, t, ty);
      }
    }
  }

  lemma NextOrders(s: Stores, t: Task, ok: bool)
    requires TaskOk(s.db, t) && OrdersOk(s.db)
    ensures OrdersOk(Next(s, t, ok).0.db)
    ensures t.oid in s.db.orders || !t.job.Create? ==> (t.oid in Next(s, t, ok).0.db.orders <==> t.oid in s.db.orders)
  {
    NextMoves(s, t, ok);
    var db' := Next(s, t, ok).0.db;
    forall oid
      ensures OrderOk(db', oid)
    {
      NextOrderOk(s, t, ok, oid);
    }
    forall ty | ty in db'.types
      ensures SoldOk(db'.types[ty], SoldTotal(db', None, ty))
    {
      NextSold(s, t, ok, ty);
    }
  }

  lemma StepIsWf(s: System, m: Move)
    requires Wf(s) && Legal(s, m)
    ensures Wf(Step(s, m))
  {
    var s' := Step(s, m);
    if m.Advance? && m.n in s.tasks {
      var t := s.tasks[m.n];
      NextMoves(s.stores, t, m.ok);
      NextOrders(s.stores, t, m.ok);
      NextOk(s.stores, t, m.ok);
      forall k | k in s'.tasks
        ensures TaskOk(s'.stores.db, s'.tasks[k])
      {
        if k != m.n {
          OtherTaskOk(s.stores.db, s'.stores.db, t.oid, s.tasks[k]);
        }
      }
    }
  }

  // ------------------------------------------------------------------ live units

  lemma WithheldAfter(tasks: map<nat, Task>, n: nat, t: Task, who: Option<Id>)
    requires n in tasks && tasks[n].oid == t.oid
    ensures Withheld(tasks, t.oid, who) <==> Withholds(tasks[n], who) || WithheldByOthers(tasks, n, t.oid, who)
    ensures Withheld(tasks[n := t], t.oid, who) <==> Withholds(t, who) || WithheldByOthers(tasks, n, t.oid, who)
    ensures forall oid :: oid != t.oid ==> (Withheld(tasks[n := t], oid, who) <==> Withheld(tasks, oid, who))
    ensures WithheldByOthers(tasks[n := t], n, t.oid, who) <==> WithheldByOthers(tasks, n, t.oid, who)
  {
    var after := tasks[n := t];
    if k :| k in after && k != n && after[k].oid == t.oid && Withholds(after[k], who) {
      assert k in tasks && tasks[k].oid == t.oid && Withholds(tasks[k], who);
    }
    if Withheld(tasks, t.oid, who) {
      var k :| k in tasks && tasks[k].oid == t.oid && Withholds(tasks[k], who);
    }
    if Withheld(after, t.oid, who) {
      var k :| k in after && after[k].oid == t.oid && Withholds(after[k], who);
    }
    if Withholds(t, who) {
      assert n in after && after[n].oid == t.oid && Withholds(after[n], who);
    }
    if k :| k in tasks && k != n && tasks[k].oid == t.oid && Withholds(tasks[k], who) {
      assert k in after && after[k].oid == t.oid && Withholds(after[k], who);
    }
    forall oid | oid != t.oid
      ensures Withheld(after, oid, who) <==> Withheld(tasks, oid, who)
    {
      if k :| k in tasks && tasks[k].oid == oid && Withholds(tasks[k], who) {
        assert k in after && after[k].oid == oid && Withholds(after[k], who);
      }
      if k :| k in after && after[k].oid == oid && Withholds(after[k], who) {
        assert k in tasks && tasks[k].oid == oid && Withholds(tasks[k], who);
      }
    }
  }

  function LiveRow(s: System, oid: Id, who: Option<Id>, t: Id): nat {
    if oid in s.stores.db.orders then Live(s, oid, s.stores.db.orders[oid], who, t) else 0
  }

  /** Only the order of the task that moves can change what it holds. */
  lemma LiveTotalMoves(s: System, m: Move, who: Option<Id>, t: Id)
    requires Wf(s) && m.Advance? && m.n in s.tasks
    ensures var s' := Step(s, m); var oid := s.tasks[m.n].oid;
            LiveTotal(s', who, t) - LiveTotal(s, who, t) == LiveRow(s', oid, who, t) - LiveRow(s, oid, who, t)
  {
    var s', task := Step(s, m), s.tasks[m.n];
    var oid := task.oid;
    NextMoves(s.stores, task, m.ok);
    WithheldAfter(s.tasks, m.n, s'.tasks[m.n], who);
    forall j | j in s.stores.db.orders && j != oid
      ensures LiveWeight(s, who, t)(j, s.stores.db.orders[j]) == LiveWeight(s', who, t)(j, s.stores.db.orders[j])
    {
      HoldsElsewhere(s.stores.db, s'.stores.db, oid, j);
    }
    if oid in s'.stores.db.orders {
      SumWrite(s.stores.db.orders, LiveWeight(s, who, t), s'.stores.db.orders, LiveWeight(s', who, t), oid);
    } else {
      SumCongruent(s.stores.db.orders, LiveWeight(s, who, t), LiveWeight(s', who, t));
    }
  }

  /** The row of the moving task's order, read through that task. */
  lemma LiveRowIs(s: System, n: nat, who: Option<Id>, t: Id)
    requires n in s.tasks
    requires s.tasks[n].oid in s.stores.db.orders ==> Matches(s.stores.db, s.tasks[n])
    ensures LiveRow(s, s.tasks[n].oid, who, t) ==
            if (who.None? || who.value == s.tasks[n].user) && s.tasks[n].it.typeId == t
               && Free(s, n, who) && !Withholds(s.tasks[n], who) then s.tasks[n].it.qty else 0
  {
    WithheldAfter(s.tasks, n, s.tasks[n], who);
    assert s.tasks[n := s.tasks[n]] == s.tasks;
    OneItemQty(s.tasks[n].it, t);
  }

  // ------------------------------------------------------------------ the tally

  /** The units of a task in the row of a type (None) or of a user for a type. */
  function Units(t: Task, who: Option<Id>, ty: Id): nat {
    if (who.None? || who.value == t.user) && t.it.typeId == ty then t.it.qty else 0
  }

  /** Does this step subtract the order's units from the row? */
  predicate Takes(db: Database, t: Task, who: Option<Id>, ok: bool) {
    match t.phase
    case ToDrop(_, _, _) => if who.None? then DropsTypes(t, ok) else DropsCounter(t, ok) && Moves(db, t, who)
    case ToTransact => TransactsOn(db, t) && Moves(db, t, who)
    case _ => false
  }

  /** A transaction that ends the order's hold. */
  predicate TransactsOn(db: Database, t: Task) {
    && t.phase.ToTransact? && t.oid in db.orders
    && (t.job.Pay? || t.job.Issue? || (t.job.Close? && db.orders[t.oid].status.PendingPayment?))
  }

  /** The last step of a call that leaves its order as it was: a rollback, or an error after a decrement. */
  predicate GivesUp(t: Task) {
    t.phase.ToWrite? && (t.job.Create? || t.phase.failed)
  }

  /**
    What one step adds to the gap between the orders and a row.  Counting an order that is free, or
    taking one that is free, adds nothing.  Taking units that are not there, or giving up after taking
    them, adds them; counting units that were taken before gives them back; and so does a guarded
    update that skips.
   */
  function Excess(s: System, m: Move, who: Option<Id>, ty: Id): int {
    if !m.Advance? || m.n !in s.tasks then 0
    else
      var t := s.tasks[m.n];
      var q := Units(t, who, ty);
      var free := if Free(s, m.n, who) then q else 0;
      var moved := if Takes(s.stores.db, t, who, m.ok) then q else 0;
      match t.phase
      case ToCount => if Counts(s.stores.db, t, m.ok) then free - q else 0
      case ToDrop(_, _, _) => if moved == 0 then 0 else moved - free
      case ToTransact => if TransactsOn(s.stores.db, t) then moved - free else 0
      case ToWrite(_) => if GivesUp(t) && Withholds(t, who) then free else 0
      case _ => 0
  }

  /** The gap moves by what the order's row, read through its task, and the counter do. */
  lemma GapMoves(s: System, m: Move, who: Option<Id>, ty: Id)
    requires Wf(s) && m.Advance? && m.n in s.tasks && !s.tasks[m.n].phase.Start? && !s.tasks[m.n].phase.Finished?
    ensures var s', t := Step(s, m), s.tasks[m.n];
            var q := Units(t, who, ty);
            Gap(s', who, ty) - Gap(s, who, ty) ==
              (if Holds(s'.stores.db, t.oid) && !WithheldByOthers(s.tasks, m.n, t.oid, who) &&
                !Withholds(s'.tasks[m.n], who) then q else 0)
              - (if Free(s, m.n, who) && !Withholds(t, who) then q else 0)
              - (Reserved(s'.stores.db, who, ty) - Reserved(s.stores.db, who, ty))
  {
    var s', t := Step(s, m), s.tasks[m.n];
    LiveTotalMoves(s, m, who, ty);
    NextMoves(s.stores, t, m.ok);
    WithheldAfter(s.tasks, m.n, s'.tasks[m.n], who);
    SameOwner(s.stores, t, m.ok);
    LiveRowIs(s, m.n, who, ty);
    LiveRowIs(s', m.n, who, ty);
  }

  lemma SameOwner(s: Stores, t: Task, ok: bool)
    requires TaskOk(s.db, t) && !t.phase.Start? && !t.phase.Finished?
    ensures var (s', t') := Next(s, t, ok);
            && t'.user == t.user && t'.it == t.it && (t.oid in s.db.orders ==> Matches(s.db, t))
            && (t.oid in s'.db.orders ==> Matches(s'.db, t'))
  {
    NextMoves(s, t, ok);
  }

  lemma CountTally(s: System, m: Move, who: Option<Id>, ty: Id)
    requires Wf(s) && m.Advance? && m.n in s.tasks && s.tasks[m.n].phase.ToCount?
    ensures Gap(Step(s, m), who, ty) == Gap(s, who, ty) + Excess(s, m, who, ty)
  {
    var t := s.tasks[m.n];
    GapMoves(s, m, who, ty);
    OneItemQty(t.it, ty);
    if who.Some? {
      UpsertReservedAt(s.stores.db.counters, t.user, [t.it], who.value, ty);
    }
  }

  lemma DropReserves(db: Database, t: Task, who: Option<Id>, ty: Id, ok: bool)
    requires TaskOk(db, t) && t.phase.ToDrop?
    ensures Reserved(Drop(db, t, ok).0, who, ty) ==
            Reserved(db, who, ty) - if Takes(db, t, who, ok) then Units(t, who, ty) else 0
    ensures Takes(db, t, who, ok) ==> !Withholds(t, who) && Withholds(Drop(db, t, ok).1, who)
    ensures !Takes(db, t, who, ok) && (who.None? || who.value == t.user) ==>
              (Withholds(t, who) <==> Withholds(Drop(db, t, ok).1, who))
  {
    OneItemQty(t.it, ty);
  }

  lemma DropTally(s: System, m: Move, who: Option<Id>, ty: Id)
    requires Wf(s) && m.Advance? && m.n in s.tasks && s.tasks[m.n].phase.ToDrop?
    ensures Gap(Step(s, m), who, ty) == Gap(s, who, ty) + Excess(s, m, who, ty)
  {
    var t := s.tasks[m.n];
    GapMoves(s, m, who, ty);
    DropReserves(s.stores.db, t, who, ty, m.ok);
    assert Holds(Step(s, m).stores.db, t.oid) == Holds(s.stores.db, t.oid);
  }

  lemma WriteTally(s: System, m: Move, who: Option<Id>, ty: Id)
    requires Wf(s) && m.Advance? && m.n in s.tasks && s.tasks[m.n].phase.ToWrite?
    ensures Gap(Step(s, m), who, ty) == Gap(s, who, ty) + Excess(s, m, who, ty)
  {
    GapMoves(s, m, who, ty);
  }

  lemma SellMoves(db: Database, t: Task, who: Option<Id>, ty: Id)
    requires Matches(db, t) && !t.job.Close?
    ensures Reserved(Sell(db, t), who, ty) == Reserved(db, who, ty) - if Moves(db, t, who) then Units(t, who, ty) else 0
  {
    OneItemQty(t.it, ty);
    if who.Some? {
      if (t.user, t.it.typeId) in db.counters {
        UpsertSoldAt(db.counters, t.user, [t.it], who.value, ty);
      } else {
        assert [t.it][1..] == [];
        assert UpsertSold(db.counters, t.user, [t.it]) == db.counters[(t.user, t.it.typeId) := Counter(t.it.qty, 0)];
      }
    }
  }

  lemma GuardedMoves(db: Database, t: Task, who: Option<Id>, ty: Id)
    requires Matches(db, t) && t.job.Close?
    ensures var db' := db.(types := DropTypesGuarded(db.types, [t.it]),
              counters := DropCountersGuarded(db.counters, t.user, [t.it]));
            Reserved(db', who, ty) == Reserved(db, who, ty) - if Moves(db, t, who) then Units(t, who, ty) else 0
  {
    assert [t.it][1..] == [];
  }

  lemma SellTally(s: System, m: Move, who: Option<Id>, ty: Id)
    requires Wf(s) && m.Advance? && m.n in s.tasks && s.tasks[m.n].phase.ToTransact?
    requires s.tasks[m.n].job.Pay? || s.tasks[m.n].job.Issue?
    ensures Gap(Step(s, m), who, ty) == Gap(s, who, ty) + Excess(s, m, who, ty)
  {
    var t := s.tasks[m.n];
    GapMoves(s, m, who, ty);
    SoldIsDead(s.stores.db, t);
    assert !Holds(Step(s, m).stores.db, t.oid);
    SellMoves(s.stores.db, t, who, ty);
    assert Reserved(Step(s, m).stores.db, who, ty) == Reserved(Sell(s.stores.db, t), who, ty);
  }

  lemma CloseTally(s: System, m: Move, who: Option<Id>, ty: Id)
    requires Wf(s) && m.Advance? && m.n in s.tasks && s.tasks[m.n].phase.ToTransact? && s.tasks[m.n].job.Close?
    ensures Gap(Step(s, m), who, ty) == Gap(s, who, ty) + Excess(s, m, who, ty)
  {
    var t := s.tasks[m.n];
    GapMoves(s, m, who, ty);
    GuardedMoves(s.stores.db, t, who, ty);
  }

  lemma TransactTally(s: System, m: Move, who: Option<Id>, ty: Id)
    requires Wf(s) && m.Advance? && m.n in s.tasks && s.tasks[m.n].phase.ToTransact?
    ensures Gap(Step(s, m), who, ty) == Gap(s, who, ty) + Excess(s, m, who, ty)
  {
    var t := s.tasks[m.n];
    if t.job.Pay? || t.job.Issue? {
      SellTally(s, m, who, ty);
    } else if t.job.Close? {
      CloseTally(s, m, who, ty);
    } else {
      MarkTally(s, m, who, ty);
    }
  }

  lemma MarkTally(s: System, m: Move, who: Option<Id>, ty: Id)
    requires Wf(s) && m.Advance? && m.n in s.tasks && s.tasks[m.n].phase.ToTransact? && s.tasks[m.n].job.Mark?
    ensures Gap(Step(s, m), who, ty) == Gap(s, who, ty) + Excess(s, m, who, ty)
  {
    assert OrderOk(s.stores.db, s.tasks[m.n].oid);
    GapMoves(s, m, who, ty);
  }

  lemma QuietTally(s: System, m: Move, who: Option<Id>, ty: Id)
    requires Wf(s) && m.Advance? && m.n in s.tasks
    requires var p := s.tasks[m.n].phase; p.ToInsert? || p.ToCharge? || p.ToCheck? || p.ToRelease? || p.ToDelete?
    ensures Gap(Step(s, m), who, ty) == Gap(s, who, ty) + Excess(s, m, who, ty)
  {
    GapMoves(s, m, who, ty);
  }

  lemma StartTally(s: System, m: Move, who: Option<Id>, ty: Id)
    requires Wf(s) && m.Advance? && m.n in s.tasks && (s.tasks[m.n].phase.Start? || s.tasks[m.n].phase.Finished?)
    ensures Gap(Step(s, m), who, ty) == Gap(s, who, ty) + Excess(s, m, who, ty)
  {
    var t := s.tasks[m.n];
    LiveTotalMoves(s, m, who, ty);
    WithheldAfter(s.tasks, m.n, Step(s, m).tasks[m.n], who);
  }

  lemma OutsideTally(s: System, m: Move, who: Option<Id>, ty: Id)
    requires Wf(s) && Legal(s, m) && (!m.Advance? || m.n !in s.tasks)
    ensures Gap(Step(s, m), who, ty) == Gap(s, who, ty) + Excess(s, m, who, ty)
  {
    var s' := Step(s, m);
    if m.Begin? {
      forall oid | oid in s.stores.db.orders
        ensures Withheld(s'.tasks, oid, who) <==> Withheld(s.tasks, oid, who)
      {
        BeginWithholdsNothing(s, m, oid, who);
      }
    }
    SumCongruent(s.stores.db.orders, LiveWeight(s, who, ty), LiveWeight(s', who, ty));
  }

  lemma BeginWithholdsNothing(s: System, m: Move, oid: Id, who: Option<Id>)
    requires Legal(s, m) && m.Begin? && oid in s.stores.db.orders
    ensures Withheld(Step(s, m).tasks, oid, who) <==> Withheld(s.tasks, oid, who)
  {
    var after := Step(s, m).tasks;
    if k :| k in s.tasks && s.tasks[k].oid == oid && Withholds(s.tasks[k], who) {
      assert k in after && after[k].oid == oid && Withholds(after[k], who);
    }
    if k :| k in after && after[k].oid == oid && Withholds(after[k], who) {
      assert k in s.tasks && s.tasks[k].oid == oid && Withholds(s.tasks[k], who);
    }
  }

  /** Under every interleaving, each step moves each gap by exactly its excess. */
  lemma StepTally(s: System, m: Move, who: Option<Id>, ty: Id)
    requires Wf(s) && Legal(s, m)
    ensures Gap(Step(s, m), who, ty) == Gap(s, who, ty) + Excess(s, m, who, ty)
  {
    if !m.Advance? || m.n !in s.tasks {
      OutsideTally(s, m, who, ty);
    } else {
      match s.tasks[m.n].phase
      case Start => StartTally(s, m, who, ty);
      case Finished => StartTally(s, m, who, ty);
      case ToCount => CountTally(s, m, who, ty);
      case ToDrop(_, _, _) => DropTally(s, m, who, ty);
      case ToTransact => TransactTally(s, m, who, ty);
      case ToWrite(_) => WriteTally(s, m, who, ty);
      case _ => QuietTally(s, m, who, ty);
    }
  }
}
