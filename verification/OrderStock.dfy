/**
  The Redis keys under interleaved order tasks: with one call at a time per order and no key lost but by
  its lifetime, they never promise more than Postgres has, up to the calls under way.
 */
module OrderStock {
  import opened Wrappers
  import opened Sums
  import opened Ledger
  import opened Books
  import opened BooksSteps
  import opened StoresSteps
  import opened OrderTasks
  import opened OrderTally
  import opened OrderRuns
  import opened OrderHistory
  import opened OrderLocks

  // ------------------------------------------------------------------ what calls under way still owe

  /**
    How far a task has Redis ahead of Postgres for its order: units it reserved and did not count yet,
    or has given up in Postgres and will still release; less units released and not subtracted yet.
   */
  function Ahead(r: Redis, t: Task, who: Option<Id>, ty: Id): int {
    var q: int := Units(t, who, ty);
    match t.phase
    case ToInsert => q
    case ToCount => q
    case ToRelease => if (t.job.Close? || t.job.Create?) && Releases(r, t.oid, t.user, t.it) then q else 0
    case ToDrop(types, counters, _) => if (if who.None? then types else counters) then -q else 0
    case _ => 0
  }

  function AheadWeight(r: Redis, who: Option<Id>, ty: Id): (nat, Task) -> int {
    (n: nat, t: Task) => Ahead(r, t, who, ty)
  }

  ghost function Lead(s: System, who: Option<Id>, ty: Id): int {
    Sum(s.tasks, AheadWeight(s.stores.redis, who, ty))
  }

  /** What Postgres has left beyond the stock key, or what the limit key has beyond the counter row. */
  function KeyGap(s: Stores, who: Option<Id>, ty: Id): int {
    match who
    case None => (if ty in s.db.types then Available(s.db.types[ty]) else 0) - ReadStock(s.redis, ty)
    case Some(u) => ReadLimit(s.redis, u, ty) - Used(s.db.counters, u, ty)
  }

  ghost function Slack(s: System, who: Option<Id>, ty: Id): int {
    KeyGap(s.stores, who, ty) - Lead(s, who, ty)
  }

  /** Of everything that can happen to Redis from outside, only reservation keys reach their lifetime. */
  predicate OnlyLapses(s: System, m: Move) {
    m.RedisMoves? ==>
      && m.redis.stock == s.stores.redis.stock && m.redis.limit == s.stores.redis.limit
      && forall oid :: oid in m.redis.holds ==>
           oid in s.stores.redis.holds && m.redis.holds[oid] == s.stores.redis.holds[oid]
  }

  // ------------------------------------------------------------------ one step

  /** Nothing another task owes grows: the one script that adds a key adds one that no other task may release. */
  lemma OthersOweLess(s: System, m: Move, k: nat, who: Option<Id>, ty: Id)
    requires Wf(s) && m.Advance? && m.n in s.tasks && k in s.tasks && k != m.n
    ensures Ahead(Step(s, m).stores.redis, s.tasks[k], who, ty) <= Ahead(s.stores.redis, s.tasks[k], who, ty)
  {
    var t, other := s.tasks[m.n], s.tasks[k];
    assert TaskOk(s.stores.db, t) && TaskOk(s.stores.db, other);
    HoldsOnlyMine(s.stores, t, m.ok);
  }

  lemma HoldsOnlyMine(s: Stores, t: Task, ok: bool)
    ensures var r := Next(s, t, ok).0.redis;
            forall oid :: oid in r.holds && (oid != t.oid || !t.job.Create? || !t.phase.Start?) ==>
                            oid in s.redis.holds && r.holds[oid] == s.redis.holds[oid]
  {
  }

  lemma LeadMoves(s: System, m: Move, who: Option<Id>, ty: Id)
    requires Wf(s) && m.Advance? && m.n in s.tasks
    ensures var s' := Step(s, m);
            Lead(s', who, ty) - Ahead(s'.stores.redis, s'.tasks[m.n], who, ty)
            <= Lead(s, who, ty) - Ahead(s.stores.redis, s.tasks[m.n], who, ty)
  {
    var s' := Step(s, m);
    var f, g := AheadWeight(s.stores.redis, who, ty), AheadWeight(s'.stores.redis, who, ty);
    SumAt(s.tasks, f, m.n);
    SumAt(s'.tasks, g, m.n);
    assert s'.tasks - {m.n} == s.tasks - {m.n};
    forall k | k in s.tasks - {m.n}
      ensures g(k, s.tasks[k]) <= f(k, s.tasks[k])
    {
      OthersOweLess(s, m, k, who, ty);
    }
    SumAtMost(s.tasks - {m.n}, g, f);
  }

  /** What a locked step does to keys and rows, against what its task then owes. */
  ghost predicate Pays(s: Stores, t: Task, ok: bool, who: Option<Id>, ty: Id) {
    var (s', t') := Next(s, t, ok);
    KeyGap(s', who, ty) - Ahead(s'.redis, t', who, ty) >= KeyGap(s, who, ty) - Ahead(s.redis, t, who, ty)
  }

  lemma ScriptsPay(s: Stores, t: Task, ok: bool, who: Option<Id>, ty: Id)
    requires TaskOk(s.db, t) && StillSo(s.db, t) && (t.phase.Start? || t.phase.ToRelease? || t.phase.ToDelete?)
    ensures Pays(s, t, ok, who, ty)
  {
  }

  lemma CountPays(s: Stores, t: Task, ok: bool, who: Option<Id>, ty: Id)
    requires TaskOk(s.db, t) && t.phase.ToCount? && Counts(s.db, t, ok)
    ensures Pays(s, t, ok, who, ty)
  {
    OneItemQty(t.it, ty);
    if who.Some? {
      UpsertReservedAt(s.db.counters, t.user, [t.it], who.value, ty);
    }
  }

  lemma DropPays(s: Stores, t: Task, ok: bool, who: Option<Id>, ty: Id)
    requires TaskOk(s.db, t) && StillSo(s.db, t) && t.phase.ToDrop?
    requires DropsCounter(t, ok) ==> (t.user, t.it.typeId) in s.db.counters
    ensures Pays(s, t, ok, who, ty)
  {
    OneItemQty(t.it, ty);
    if who.Some? && DropsCounter(t, ok) {
      DropCountersAt(s.db.counters, t.user, [t.it], who.value, ty);
    }
  }

  lemma SellPays(s: Stores, t: Task, ok: bool, who: Option<Id>, ty: Id)
    requires TaskOk(s.db, t) && t.phase.ToTransact? && (t.job.Pay? || t.job.Issue?)
    requires Moves(s.db, t, Some(t.user))
    ensures Pays(s, t, ok, who, ty)
  {
    OneItemQty(t.it, ty);
    if who.Some? {
      UpsertSoldAt(s.db.counters, t.user, [t.it], who.value, ty);
    }
  }

  lemma ClosePays(s: Stores, t: Task, ok: bool, who: Option<Id>, ty: Id)
    requires TaskOk(s.db, t) && StillSo(s.db, t) && t.phase.ToTransact? && t.job.Close?
    requires Moves(s.db, t, None) && Moves(s.db, t, Some(t.user))
    ensures Pays(s, t, ok, who, ty)
  {
    GuardedRow(s.db.types, t.it);
    var rest := [t.it][1..];
    assert rest == [];
    assert DropCountersGuarded(s.db.counters, t.user, [t.it]) ==
           s.db.counters[(t.user, t.it.typeId) := Counter(s.db.counters[(t.user, t.it.typeId)].paidQty,
                                                          s.db.counters[(t.user, t.it.typeId)].reservedQty - t.it.qty)];
  }

  lemma QuietPays(s: Stores, t: Task, ok: bool, who: Option<Id>, ty: Id)
    requires TaskOk(s.db, t)
    requires t.phase.ToInsert? || t.phase.ToCharge? || t.phase.ToCheck? || t.phase.ToWrite? || t.phase.Finished?
             || (t.phase.ToTransact? && t.job.Mark?)
    requires t.phase.ToCharge? ==> ok
    ensures Pays(s, t, ok, who, ty)
  {
  }

  lemma LockedTransactPays(s: System, m: Move, who: Option<Id>, ty: Id)
    requires Wf(s) && AllExact(s) && Exclusive(s) && m.Advance? && m.n in s.tasks && s.tasks[m.n].phase.ToTransact?
    ensures Pays(s.stores, s.tasks[m.n], m.ok, who, ty)
  {
    var t := s.tasks[m.n];
    assert StillSo(s.stores.db, t) && TaskOk(s.stores.db, t);
    ActiveIsFree(s, m.n, None);
    ActiveIsFree(s, m.n, Some(t.user));
    FreeIsCovered(s, m.n, None);
    FreeIsCovered(s, m.n, Some(t.user));
    if t.job.Close? {
      ClosePays(s.stores, t, m.ok, who, ty);
    } else if t.job.Mark? {
      QuietPays(s.stores, t, m.ok, who, ty);
    } else {
      SellPays(s.stores, t, m.ok, who, ty);
    }
  }

  lemma LockedDropPays(s: System, m: Move, who: Option<Id>, ty: Id)
    requires Wf(s) && AllExact(s) && Exclusive(s) && m.Advance? && m.n in s.tasks && s.tasks[m.n].phase.ToDrop?
    ensures Pays(s.stores, s.tasks[m.n], m.ok, who, ty)
  {
    var t := s.tasks[m.n];
    assert StillSo(s.stores.db, t) && TaskOk(s.stores.db, t);
    if DropsCounter(t, m.ok) {
      ActiveIsFree(s, m.n, Some(t.user));
      FreeIsCovered(s, m.n, Some(t.user));
    }
    DropPays(s.stores, t, m.ok, who, ty);
  }

  lemma LockedPays(s: System, m: Move, who: Option<Id>, ty: Id)
    requires Wf(s) && AllExact(s) && Exclusive(s) && m.Advance? && m.n in s.tasks && Succeeds(s, m)
    ensures Pays(s.stores, s.tasks[m.n], m.ok, who, ty)
  {
    var t := s.tasks[m.n];
    assert StillSo(s.stores.db, t) && TaskOk(s.stores.db, t);
    match t.phase
    case ToCount => CountPays(s.stores, t, m.ok, who, ty);
    case ToDrop(_, _, _) => LockedDropPays(s, m, who, ty);
    case ToTransact => LockedTransactPays(s, m, who, ty);
    case Start => ScriptsPay(s.stores, t, m.ok, who, ty);
    case ToRelease => ScriptsPay(s.stores, t, m.ok, who, ty);
    case ToDelete => ScriptsPay(s.stores, t, m.ok, who, ty);
    case _ => QuietPays(s.stores, t, m.ok, who, ty);
  }

  /** No locked step, and no lapse, lets a key promise more than before. */
  lemma StepKeepsSlack(s: System, m: Move, who: Option<Id>, ty: Id)
    requires Wf(s) && AllExact(s) && Exclusive(s) && Legal(s, m) && Locked(s, m) && Succeeds(s, m) && OnlyLapses(s, m)
    ensures Slack(Step(s, m), who, ty) >= Slack(s, who, ty)
  {
    var s' := Step(s, m);
    var f, g := AheadWeight(s.stores.redis, who, ty), AheadWeight(s'.stores.redis, who, ty);
    if m.RedisMoves? {
      SumAtMost(s.tasks, g, f);
    } else if m.Begin? {
      SumWrite(s.tasks, f, s'.tasks, g, m.n);
    } else if m.n in s.tasks {
      LockedPays(s, m, who, ty);
      LeadMoves(s, m, who, ty);
    }
  }

  // ------------------------------------------------------------------ whole runs

  predicate LapsingRun(s: System, moves: seq<Move>)
    decreases |moves|
  {
    moves == [] || (OnlyLapses(s, moves[0]) && LapsingRun(Step(s, moves[0]), moves[1..]))
  }

  lemma {:induction false} RunKeepsSlack(s: System, moves: seq<Move>, who: Option<Id>, ty: Id)
    requires Wf(s) && AllExact(s) && Exclusive(s) && LegalRun(s, moves) && LockedRun(s, moves) && LapsingRun(s, moves)
    ensures Slack(Run(s, moves), who, ty) >= Slack(s, who, ty)
    decreases |moves|
  {
    if moves != [] {
      StepKeepsSlack(s, moves[0], who, ty);
      StepStaysExclusive(s, moves[0]);
      StepIsWf(s, moves[0]);
      StepIsExactIff(s, moves[0]);
      RunKeepsSlack(Step(s, moves[0]), moves[1..], who, ty);
    }
  }

  /** Keys seeded no higher than the shop has, and limits not below zero. */
  predicate SeededSafely(s: System) {
    && (forall ty :: ty in s.stores.redis.stock ==>
          ty in s.stores.db.types && s.stores.redis.stock[ty] <= s.stores.db.types[ty].totalQty)
    && (forall k :: k in s.stores.redis.limit ==> s.stores.redis.limit[k] >= 0)
  }

  lemma OpeningHasSlack(s: System, who: Option<Id>, ty: Id)
    requires Opening(s) && SeededSafely(s)
    ensures Slack(s, who, ty) >= 0
  {
    if ty in s.stores.db.types {
      assert OpenRow(s.stores.db.types[ty]);
    }
  }

  /**
    With one call at a time per order, different orders interleaving freely and keys lost only by their
    lifetime: in every state the keys promise no more than Postgres has, up to what calls under way owe.
   */
  lemma LockedKeysAreSafe(s: System, moves: seq<Move>, who: Option<Id>, ty: Id)
    requires Opening(s) && SeededSafely(s) && LegalRun(s, moves) && LockedRun(s, moves) && LapsingRun(s, moves)
    ensures KeyGap(Run(s, moves).stores, who, ty) >= Lead(Run(s, moves), who, ty)
  {
    OpeningIsExact(s);
    OpeningHasSlack(s, who, ty);
    RunKeepsSlack(s, moves, who, ty);
  }

  /** And when every call has ended they are conservative outright. */
  lemma LockedKeysAreConservative(s: System, moves: seq<Move>)
    requires Opening(s) && SeededSafely(s) && LegalRun(s, moves) && LockedRun(s, moves) && LapsingRun(s, moves)
    requires forall n :: n in Run(s, moves).tasks ==> Run(s, moves).tasks[n].phase.Finished?
    ensures var end := Run(s, moves).stores;
            && (forall ty :: ty in end.db.types ==> ReadStock(end.redis, ty) <= Available(end.db.types[ty]))
            && (forall u, ty :: ReadLimit(end.redis, u, ty) >= Used(end.db.counters, u, ty))
  {
    var end := Run(s, moves);
    forall who, ty
      ensures KeyGap(end.stores, who, ty) >= 0
    {
      LockedKeysAreSafe(s, moves, who, ty);
      SumZero(end.tasks, AheadWeight(end.stores.redis, who, ty));
    }
    forall ty | ty in end.stores.db.types
      ensures ReadStock(end.stores.redis, ty) <= Available(end.stores.db.types[ty])
    {
      assert KeyGap(end.stores, None, ty) >= 0;
    }
    forall u, ty
      ensures ReadLimit(end.stores.redis, u, ty) >= Used(end.stores.db.counters, u, ty)
    {
      assert KeyGap(end.stores, Some(u), ty) >= 0;
    }
  }

  // ------------------------------------------------------------------ a seed in between

  /** The lazy seed of an absent stock key. */
  function SeedStock(s: Stores, ty: Id): Redis
    requires ty in s.db.types
  {
    if ty in s.redis.stock then s.redis else s.redis.(stock := s.redis.stock[ty := Max(0, Available(s.db.types[ty]))])
  }

  function Seeded(s: System, ty: Id): System
    requires ty in s.stores.db.types
  {
    Step(s, RedisMoves(SeedStock(s.stores, ty)))
  }

  /** Seeding an absent stock key leaves it safe exactly when the calls under way owe Redis nothing for that type. */
  lemma SeedIsSafeIff(s: System, ty: Id)
    requires Wf(s) && ty in s.stores.db.types && ty !in s.stores.redis.stock
    ensures Slack(Seeded(s, ty), None, ty) >= 0 <==> Lead(s, None, ty) <= 0
  {
    assert SoldOk(s.stores.db.types[ty], SoldTotal(s.stores.db, None, ty));
    SumCongruent(s.tasks, AheadWeight(s.stores.redis, None, ty), AheadWeight(Seeded(s, ty).stores.redis, None, ty));
  }

  /**
    The seed falls between the reserve script of an order and its inventory transaction: the key is seeded
    with those units, the transaction then counts them, and the key promises them a second time.
   */
  lemma SeedBeforeCountPromisesTwice(s: System, n: nat)
    requires Wf(s) && n in s.tasks && s.tasks[n].phase.ToCount? && s.tasks[n].it.typeId !in s.stores.redis.stock
    requires Counts(s.stores.db, s.tasks[n], true)
    ensures var ty := s.tasks[n].it.typeId;
            && ty in s.stores.db.types
            && var after := Step(Seeded(s, ty), Advance(n, true)).stores;
               && ty in after.db.types
               && ReadStock(after.redis, ty) == Available(after.db.types[ty]) + s.tasks[n].it.qty
  {
    var t := s.tasks[n];
    assert TaskOk(s.stores.db, t);
    assert SoldOk(s.stores.db.types[t.it.typeId], SoldTotal(s.stores.db, None, t.it.typeId));
    OneItemQty(t.it, t.it.typeId);
  }
}
