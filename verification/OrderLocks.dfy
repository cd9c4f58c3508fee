/** What would be enough: calls on one order exclude each other, calls on different orders interleave freely. */
module OrderLocks {
  import opened Wrappers
  import opened Ledger
  import opened BooksSteps
  import opened OrderTasks
  import opened OrderTally
  import opened OrderRuns
  import opened OrderHistory

  /** Between its first and its last statement. */
  predicate Active(t: Task) {
    !t.phase.Start? && !t.phase.Finished?
  }

  /** A call reads its order only while no other call on that order is under way. */
  predicate Locked(s: System, m: Move) {
    m.Advance? && m.n in s.tasks && s.tasks[m.n].phase.Start? ==>
      forall k :: k in s.tasks && k != m.n && s.tasks[k].oid == s.tasks[m.n].oid ==> !Active(s.tasks[k])
  }

  /** Once the row of an order is inserted, its inventory transaction and its gateway call succeed. */
  predicate Succeeds(s: System, m: Move) {
    m.Advance? && m.n in s.tasks ==>
      && (s.tasks[m.n].phase.ToCount? ==> Counts(s.stores.db, s.tasks[m.n], m.ok))
      && (s.tasks[m.n].phase.ToCharge? ==> m.ok)
  }

  predicate LockedRun(s: System, moves: seq<Move>)
    decreases |moves|
  {
    moves == [] || (Locked(s, moves[0]) && Succeeds(s, moves[0]) && LockedRun(Step(s, moves[0]), moves[1..]))
  }

  /** What a task has seen is still so. */
  predicate StillSo(db: Database, t: Task) {
    match t.phase
    case ToCount => Holds(db, t.oid)
    case ToCheck => t.oid in db.orders && db.orders[t.oid].status.Paid?
    case ToTransact => Holds(db, t.oid) && (!t.job.Issue? ==> db.orders[t.oid].status.PendingPayment?)
    case ToRelease => (t.job.Create? ==> t.oid !in db.orders) && (t.job.Cancel? || t.job.Expire? ==> Holds(db, t.oid))
    case ToDrop(_, _, failed) => Holds(db, t.oid) && !failed && !t.job.Create?
    case ToWrite(failed) => !failed && !t.job.Create?
    case _ => true
  }

  predicate Apart(s: System, k: nat, l: nat)
    requires k in s.tasks && l in s.tasks
  {
    k == l || s.tasks[k].oid != s.tasks[l].oid || !Active(s.tasks[k]) || !Active(s.tasks[l])
  }

  ghost predicate Exclusive(s: System) {
    && (forall k, l :: k in s.tasks && l in s.tasks ==> Apart(s, k, l))
    && (forall k :: k in s.tasks ==> StillSo(s.stores.db, s.tasks[k]))
  }

  lemma ActiveIsFree(s: System, n: nat, who: Option<Id>)
    requires Wf(s) && Exclusive(s) && n in s.tasks && Active(s.tasks[n]) && Holds(s.stores.db, s.tasks[n].oid)
    ensures Free(s, n, who)
  {
    forall k | k in s.tasks && k != n && s.tasks[k].oid == s.tasks[n].oid
      ensures !Withholds(s.tasks[k], who)
    {
      assert Apart(s, k, n) && TaskOk(s.stores.db, s.tasks[k]);
    }
  }

  lemma LockedDoesNotMiss(s: System, m: Move, who: Option<Id>)
    requires Wf(s) && AllExact(s) && Exclusive(s) && m.Advance? && m.n in s.tasks && Succeeds(s, m)
    requires OfRow(s.tasks[m.n], who)
    ensures !Misses(s, m, who)
  {
    var t := s.tasks[m.n];
    assert StillSo(s.stores.db, t) && TaskOk(s.stores.db, t);
    if t.phase.ToCount? || t.phase.ToDrop? || t.phase.ToTransact? {
      ActiveIsFree(s, m.n, who);
      if t.phase.ToTransact? {
        FreeIsCovered(s, m.n, who);
      }
    }
  }

  lemma OwnStillSo(s: System, m: Move)
    requires Wf(s) && AllExact(s) && Exclusive(s) && m.Advance? && m.n in s.tasks && Succeeds(s, m)
    ensures StillSo(Step(s, m).stores.db, Step(s, m).tasks[m.n])
  {
    var t := s.tasks[m.n];
    assert StillSo(s.stores.db, t) && TaskOk(s.stores.db, t);
    if t.phase.ToDrop? {
      if DropsCounter(t, m.ok) {
        ActiveIsFree(s, m.n, Some(t.user));
        FreeIsCovered(s, m.n, Some(t.user));
      }
      DropStillSo(s.stores.db, t, m.ok);
    } else {
      NextStillSo(s.stores, t, m.ok);
    }
  }

  lemma DropStillSo(db: Database, t: Task, ok: bool)
    requires TaskOk(db, t) && t.phase.ToDrop? && StillSo(db, t)
    requires DropsCounter(t, ok) ==> (t.user, t.it.typeId) in db.counters
    ensures StillSo(Drop(db, t, ok).0, Drop(db, t, ok).1)
  {
  }

  lemma NextStillSo(s: Stores, t: Task, ok: bool)
    requires TaskOk(s.db, t) && StillSo(s.db, t) && !t.phase.ToDrop?
    requires t.phase.ToCount? ==> Counts(s.db, t, ok)
    requires t.phase.ToCharge? ==> ok
    ensures StillSo(Next(s, t, ok).0.db, Next(s, t, ok).1)
  {
    HasTicketsIsCount(s.db.tickets, t.oid);
  }

  lemma OtherStillSo(s: System, m: Move, k: nat)
    requires Wf(s) && Exclusive(s) && m.Advance? && m.n in s.tasks && k in s.tasks && k != m.n && Locked(s, m)
    ensures StillSo(Step(s, m).stores.db, s.tasks[k])
  {
    var t := s.tasks[m.n];
    NextMoves(s.stores, t, m.ok);
    assert Apart(s, k, m.n) && StillSo(s.stores.db, s.tasks[k]);
    if s.tasks[k].oid != t.oid {
      HoldsElsewhere(s.stores.db, Step(s, m).stores.db, t.oid, s.tasks[k].oid);
    }
  }

  lemma StepStaysExclusive(s: System, m: Move)
    requires Wf(s) && AllExact(s) && Exclusive(s) && Legal(s, m) && Locked(s, m) && Succeeds(s, m)
    ensures Exclusive(Step(s, m)) && !Clashes(s, m)
  {
    var s' := Step(s, m);
    if m.Advance? && m.n in s.tasks {
      LockedDoesNotMiss(s, m, None);
      LockedDoesNotMiss(s, m, Some(s.tasks[m.n].user));
      NextMoves(s.stores, s.tasks[m.n], m.ok);
      forall k | k in s'.tasks
        ensures StillSo(s'.stores.db, s'.tasks[k])
      {
        if k == m.n {
          OwnStillSo(s, m);
        } else {
          OtherStillSo(s, m, k);
        }
      }
    }
    forall k, l | k in s'.tasks && l in s'.tasks
      ensures Apart(s', k, l)
    {
      assert k in s.tasks && l in s.tasks ==> Apart(s, k, l);
    }
  }

  /** With one call at a time per order and no failure after the insert, every counter is exact all the way. */
  lemma {:induction false} LocksKeepExact(s: System, moves: seq<Move>)
    requires Wf(s) && AllExact(s) && Exclusive(s) && LegalRun(s, moves) && LockedRun(s, moves)
    ensures ExactThroughout(s, moves)
    decreases |moves|
  {
    if moves != [] {
      StepStaysExclusive(s, moves[0]);
      StepIsWf(s, moves[0]);
      StepIsExactIff(s, moves[0]);
      LocksKeepExact(Step(s, moves[0]), moves[1..]);
    }
  }

  lemma LockedShopIsNotOversold(s: System, moves: seq<Move>, ty: Id)
    requires Opening(s) && LegalRun(s, moves) && LockedRun(s, moves) && ty in Run(s, moves).stores.db.types
    ensures ProperRun(s, moves)
    ensures var row := Run(s, moves).stores.db.types[ty]; 0 <= row.soldQty <= row.totalQty && 0 <= row.reservedQty
  {
    OpeningIsExact(s);
    LocksKeepExact(s, moves);
    ExactIffTakenOnce(s, moves);
    TakenOnceIsNotOversold(s, moves, ty);
  }
}
