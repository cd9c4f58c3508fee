/** Whole runs of order tasks: what any interleaving keeps, and when the counters stay exact. */
module OrderRuns {
  import opened Wrappers
  import opened Sums
  import opened Ledger
  import opened Books
  import opened OrderTasks
  import opened OrderTally

  // ------------------------------------------------------------------ every run

  function TotalExcess(s: System, moves: seq<Move>, who: Option<Id>, ty: Id): int
    decreases |moves|
  {
    if moves == [] then 0 else Excess(s, moves[0], who, ty) + TotalExcess(Step(s, moves[0]), moves[1..], who, ty)
  }

  /** What orders hold and what their counters say drift apart by exactly the excess of the steps. */
  lemma {:induction false} RunTally(s: System, moves: seq<Move>, who: Option<Id>, ty: Id)
    requires Wf(s) && LegalRun(s, moves)
    ensures Wf(Run(s, moves))
    ensures Gap(Run(s, moves), who, ty) == Gap(s, who, ty) + TotalExcess(s, moves, who, ty)
    decreases |moves|
  {
    if moves != [] {
      StepIsWf(s, moves[0]);
      StepTally(s, moves[0], who, ty);
      RunTally(Step(s, moves[0]), moves[1..], who, ty);
    }
  }

  /** A type is oversold by no more than its gap. */
  lemma SoldWithinGap(s: System, ty: Id)
    requires Wf(s) && ty in s.stores.db.types
    ensures s.stores.db.types[ty].soldQty <= s.stores.db.types[ty].totalQty + Gap(s, None, ty)
  {
    SumNonNegative(s.stores.db.orders, LiveWeight(s, None, ty));
    assert SoldOk(s.stores.db.types[ty], SoldTotal(s.stores.db, None, ty));
  }

  /** No orders, no tasks, nothing sold or reserved; the keys may be anything. */
  predicate Opening(s: System) {
    && s.tasks == map[] && s.stores.db.orders == map[] && s.stores.db.counters == map[] && s.stores.db.tickets == []
    && forall t :: t in s.stores.db.types ==> OpenRow(s.stores.db.types[t])
  }

  predicate OpenRow(row: TypeRow) {
    row.soldQty == 0 && row.reservedQty == 0 && row.totalQty >= 0
  }

  lemma OpeningIsExact(s: System)
    requires Opening(s)
    ensures Wf(s) && AllExact(s)
  {
    forall who, t
      ensures Gap(s, who, t) == 0
    {
      assert LiveTotal(s, who, t) == 0;
      if t in s.stores.db.types {
        assert OpenRow(s.stores.db.types[t]);
      }
    }
    forall t | t in s.stores.db.types
      ensures SoldOk(s.stores.db.types[t], SoldTotal(s.stores.db, None, t))
    {
      assert OpenRow(s.stores.db.types[t]);
    }
  }

  /**
    Under every interleaving of statements, scripts and transactions, with crashes anywhere, and whatever
    happens to Redis: tickets sold stay within the total plus what the run took without there being any.
   */
  lemma OversoldByExcess(s: System, moves: seq<Move>, ty: Id)
    requires Opening(s) && LegalRun(s, moves) && ty in Run(s, moves).stores.db.types
    ensures var row := Run(s, moves).stores.db.types[ty];
            && row.soldQty == SoldTotal(Run(s, moves).stores.db, None, ty)
            && row.soldQty + row.reservedQty <= row.totalQty
            && row.soldQty <= row.totalQty + TotalExcess(s, moves, None, ty)
  {
    OpeningIsExact(s);
    RunTally(s, moves, None, ty);
    SoldWithinGap(Run(s, moves), ty);
    assert Gap(s, None, ty) == 0;
  }

  // ------------------------------------------------------------------ when a step is wrong

  /** For one row: counting, taking or giving up the units of an order at the wrong time. */
  predicate Misses(s: System, m: Move, who: Option<Id>)
    requires m.Advance? && m.n in s.tasks
  {
    var t := s.tasks[m.n];
    match t.phase
    case ToCount => Counts(s.stores.db, t, m.ok) && !Free(s, m.n, who)
    case ToDrop(_, _, _) => Takes(s.stores.db, t, who, m.ok) && !Free(s, m.n, who)
    case ToTransact => TransactsOn(s.stores.db, t) && Takes(s.stores.db, t, who, m.ok) != Free(s, m.n, who)
    case ToWrite(_) => GivesUp(t) && Withholds(t, who) && Free(s, m.n, who)
    case _ => false
  }

  predicate Clashes(s: System, m: Move) {
    m.Advance? && m.n in s.tasks && (Misses(s, m, None) || Misses(s, m, Some(s.tasks[m.n].user)))
  }

  lemma ExcessIsClash(s: System, m: Move)
    ensures Clashes(s, m) <==> exists who, ty :: Excess(s, m, who, ty) != 0
  {
    if m.Advance? && m.n in s.tasks {
      var t := s.tasks[m.n];
      assert Misses(s, m, None) <==> Excess(s, m, None, t.it.typeId) != 0;
      assert Misses(s, m, Some(t.user)) <==> Excess(s, m, Some(t.user), t.it.typeId) != 0;
      if who, ty :| Excess(s, m, who, ty) != 0 {
        assert Units(t, who, ty) != 0;
        assert who == None || who == Some(t.user);
      }
    }
  }

  lemma StepIsExactIff(s: System, m: Move)
    requires Wf(s) && AllExact(s) && Legal(s, m)
    ensures AllExact(Step(s, m)) <==> !Clashes(s, m)
  {
    ExcessIsClash(s, m);
    forall who, ty
      ensures Gap(Step(s, m), who, ty) == Excess(s, m, who, ty)
    {
      StepTally(s, m, who, ty);
      assert Gap(s, who, ty) == 0;
    }
  }

  ghost predicate ExactThroughout(s: System, moves: seq<Move>)
    decreases |moves|
  {
    AllExact(s) && (moves == [] || ExactThroughout(Step(s, moves[0]), moves[1..]))
  }

  predicate NoClash(s: System, moves: seq<Move>)
    decreases |moves|
  {
    moves == [] || (!Clashes(s, moves[0]) && NoClash(Step(s, moves[0]), moves[1..]))
  }

  lemma {:induction false} ExactIffNoClash(s: System, moves: seq<Move>)
    requires Wf(s) && AllExact(s) && LegalRun(s, moves)
    ensures ExactThroughout(s, moves) <==> NoClash(s, moves)
    decreases |moves|
  {
    if moves != [] {
      StepIsExactIff(s, moves[0]);
      StepIsWf(s, moves[0]);
      if !Clashes(s, moves[0]) {
        ExactIffNoClash(Step(s, moves[0]), moves[1..]);
      } else {
        assert !AllExact(Step(s, moves[0]));
      }
    }
  }
}
