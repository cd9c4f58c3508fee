/** The same condition read off what tasks have done: every order is counted once and then taken once. */
module OrderHistory {
  import opened Wrappers
  import opened Ledger
  import opened Books
  import opened OrderTasks
  import opened OrderTally
  import opened OrderRuns

  predicate Took(t: Task, who: Option<Id>) {
    if who.None? then t.tookTypes else t.tookCounter
  }

  predicate TakenByOthers(tasks: map<nat, Task>, n: nat, oid: Id, who: Option<Id>) {
    exists k :: k in tasks && k != n && tasks[k].oid == oid && Took(tasks[k], who)
  }

  predicate Counted(tasks: map<nat, Task>, oid: Id) {
    exists k :: k in tasks && tasks[k].oid == oid && tasks[k].job.Create? && tasks[k].counted
  }

  /** Count a pending order, take an order that is counted and that nobody else took, and do not leave one half done. */
  predicate Proper(s: System, m: Move, who: Option<Id>)
    requires m.Advance? && m.n in s.tasks
  {
    var t := s.tasks[m.n];
    match t.phase
    case ToCount => Counts(s.stores.db, t, m.ok) ==>
                Holds(s.stores.db, t.oid) && !TakenByOthers(s.tasks, m.n, t.oid, who)
    case ToDrop(_, _, _) => Takes(s.stores.db, t, who, m.ok) ==>
                Counted(s.tasks, t.oid) && !TakenByOthers(s.tasks, m.n, t.oid, who)
    case ToTransact => Takes(s.stores.db, t, who, m.ok) ==>
                Counted(s.tasks, t.oid) && !TakenByOthers(s.tasks, m.n, t.oid, who)
    case ToWrite(_) => GivesUp(t) && Withholds(t, who) ==> !Holds(s.stores.db, t.oid)
    case _ => true
  }

  predicate ProperStep(s: System, m: Move) {
    m.Advance? && m.n in s.tasks ==> Proper(s, m, None) && Proper(s, m, Some(s.tasks[m.n].user))
  }

  predicate ProperRun(s: System, moves: seq<Move>)
    decreases |moves|
  {
    moves == [] || (ProperStep(s, moves[0]) && ProperRun(Step(s, moves[0]), moves[1..]))
  }

  // ------------------------------------------------------------------ what a run without clashes keeps

  /** Who took an order still withholds it, or it holds nothing any more. */
  predicate TakerOk(s: System, k: nat, who: Option<Id>)
    requires k in s.tasks
  {
    var t := s.tasks[k];
    Took(t, who) ==> t.oid in s.stores.db.orders && (!Holds(s.stores.db, t.oid) || Withholds(t, who))
  }

  predicate TakenBy(tasks: map<nat, Task>, oid: Id, who: Option<Id>) {
    exists k :: k in tasks && tasks[k].oid == oid && Took(tasks[k], who)
  }

  /** A task that created this row, and counted it, has yet to, or never will because the order is closed. */
  predicate CreatedBy(s: System, oid: Id, k: nat) {
    && k in s.tasks && s.tasks[k].oid == oid && s.tasks[k].job.Create?
    && (s.tasks[k].counted || !s.tasks[k].phase.Finished? || !Holds(s.stores.db, oid))
  }

  ghost predicate OrderTracked(s: System, oid: Id, who: Option<Id>) {
    oid in s.stores.db.orders ==>
      && (!Holds(s.stores.db, oid) ==> TakenBy(s.tasks, oid, who) || !Counted(s.tasks, oid))
      && exists k :: CreatedBy(s, oid, k)
  }

  predicate OneWithholds(s: System, k: nat, l: nat, who: Option<Id>)
    requires k in s.tasks && l in s.tasks
  {
    Holds(s.stores.db, s.tasks[k].oid) && Withholds(s.tasks[k], who) && Withholds(s.tasks[l], who)
    ==> k == l || s.tasks[k].oid != s.tasks[l].oid
  }

  ghost predicate Tracked(s: System, who: Option<Id>) {
    && (forall k :: k in s.tasks ==> TakerOk(s, k, who))
    && (forall oid :: OrderTracked(s, oid, who))
    && (forall k, l :: k in s.tasks && l in s.tasks ==> OneWithholds(s, k, l, who))
  }

  // ------------------------------------------------------------------ in such a state the two conditions agree

  lemma FreeIsUntaken(s: System, n: nat, who: Option<Id>)
    requires Wf(s) && Tracked(s, who) && n in s.tasks && s.tasks[n].oid in s.stores.db.orders
    requires !Withholds(s.tasks[n], who) && !Took(s.tasks[n], who)
    ensures Free(s, n, who) <==> Counted(s.tasks, s.tasks[n].oid) && !TakenByOthers(s.tasks, n, s.tasks[n].oid, who)
  {
    var oid := s.tasks[n].oid;
    assert OrderTracked(s, oid, who);
    var k :| CreatedBy(s, oid, k);
    assert Holds(s.stores.db, oid) ==> s.tasks[k].counted || Withholds(s.tasks[k], who);
  }

  /** A free order is in its counters, so taking it always finds something to take. */
  lemma FreeIsCovered(s: System, n: nat, who: Option<Id>)
    requires Wf(s) && AllExact(s) && n in s.tasks && Matches(s.stores.db, s.tasks[n])
    requires Free(s, n, who) && !Withholds(s.tasks[n], who) && (who.None? || who.value == s.tasks[n].user)
    ensures Moves(s.stores.db, s.tasks[n], who)
  {
    var t := s.tasks[n];
    LiveRowIs(s, n, who, t.it.typeId);
    Sums.SumCovers(s.stores.db.orders, LiveWeight(s, who, t.it.typeId), t.oid);
    assert Gap(s, who, t.it.typeId) == 0;
  }

  lemma MissesIsImproper(s: System, m: Move, who: Option<Id>)
    requires Wf(s) && AllExact(s) && Tracked(s, who) && m.Advance? && m.n in s.tasks
    requires who.None? || who.value == s.tasks[m.n].user
    ensures Misses(s, m, who) <==> !Proper(s, m, who)
  {
    var t := s.tasks[m.n];
    match t.phase
    case ToCount => CountingFree(s, m.n, who);
    case ToDrop(_, _, _) =>
      if Takes(s.stores.db, t, who, m.ok) {
        FreeIsUntaken(s, m.n, who);
      }
    case ToTransact =>
      if TransactsOn(s.stores.db, t) {
        FreeIsUntaken(s, m.n, who);
        if Free(s, m.n, who) {
          FreeIsCovered(s, m.n, who);
        }
      }
    case ToWrite(_) =>
      if Withholds(t, who) {
        GivingUpFree(s, m.n, who);
      }
    case _ =>
  }

  lemma CountingFree(s: System, n: nat, who: Option<Id>)
    requires Wf(s) && Tracked(s, who) && n in s.tasks && s.tasks[n].phase.ToCount?
    ensures Free(s, n, who) <==> Holds(s.stores.db, s.tasks[n].oid) && !TakenByOthers(s.tasks, n, s.tasks[n].oid, who)
  {
    var oid := s.tasks[n].oid;
    assert forall k :: k in s.tasks ==> TakerOk(s, k, who);
    if Holds(s.stores.db, oid) && WithheldByOthers(s.tasks, n, oid, who) {
      var k :| k in s.tasks && k != n && s.tasks[k].oid == oid && Withholds(s.tasks[k], who);
      assert Took(s.tasks[k], who);
    }
  }

  lemma GivingUpFree(s: System, n: nat, who: Option<Id>)
    requires Wf(s) && Tracked(s, who) && n in s.tasks && Withholds(s.tasks[n], who)
    ensures Free(s, n, who) <==> Holds(s.stores.db, s.tasks[n].oid)
  {
    assert forall k :: k in s.tasks ==> OneWithholds(s, n, k, who);
  }

  // ------------------------------------------------------------------ and it stays such a state

  /** Nothing an order's other tasks have done changes. */
  lemma OthersTakerOk(s: System, s': System, oid: Id, k: nat, who: Option<Id>)
    requires OrderMoves(s.stores.db, s'.stores.db, oid)
    requires k in s.tasks && k in s'.tasks && s'.tasks[k] == s.tasks[k] && TakerOk(s, k, who)
    ensures TakerOk(s', k, who)
  {
    if s.tasks[k].oid != oid {
      HoldsElsewhere(s.stores.db, s'.stores.db, oid, s.tasks[k].oid);
    }
  }

  /** How a task comes to have taken its order, and how one that has ends. */
  lemma TakingStep(s: Stores, t: Task, ok: bool, who: Option<Id>)
    requires TaskOk(s.db, t)
    ensures var t' := Next(s, t, ok).1;
            && (Took(t', who) && !Took(t, who) ==> (t.phase.ToDrop? && !t'.phase.Finished?) || TransactsOn(s.db, t))
            && (Took(t, who) ==> Took(t', who))
            && (Took(t, who) && t'.phase.Finished? && !t.phase.Finished? ==>
                  t.phase.ToWrite? || t.job.Close? || t.job.Pay? || t.job.Issue?)
  {
  }

  lemma OwnTakerOk(s: System, m: Move, who: Option<Id>)
    requires Wf(s) && Tracked(s, who) && m.Advance? && m.n in s.tasks && !Misses(s, m, who)
    ensures TakerOk(Step(s, m), m.n, who)
  {
    var t, s' := s.tasks[m.n], Step(s, m);
    NextMoves(s.stores, t, m.ok);
    NextOk(s.stores, t, m.ok);
    TakingStep(s.stores, t, m.ok, who);
    assert TakerOk(s, m.n, who);
    assert TaskOk(s'.stores.db, s'.tasks[m.n]);
    if t.phase.ToWrite? {
      WrittenTakerOk(s, m, who);
    }
  }

  lemma WrittenTakerOk(s: System, m: Move, who: Option<Id>)
    requires Wf(s) && Tracked(s, who) && m.Advance? && m.n in s.tasks && !Misses(s, m, who)
    requires s.tasks[m.n].phase.ToWrite?
    ensures TakerOk(Step(s, m), m.n, who)
  {
    assert TakerOk(s, m.n, who) && TaskOk(s.stores.db, s.tasks[m.n]);
    if Withholds(s.tasks[m.n], who) {
      GivingUpFree(s, m.n, who);
    }
  }

  predicate OfRow(t: Task, who: Option<Id>) {
    who.None? || who.value == t.user
  }

  /** A step of a task leaves it the same call, and whatever it has taken or counted stays so. */
  predicate Continues(t: Task, t': Task) {
    && t'.oid == t.oid && t'.job == t.job
    && (t.tookTypes ==> t'.tookTypes) && (t.tookCounter ==> t'.tookCounter) && (t.counted ==> t'.counted)
  }

  lemma FlagsStay(tasks: map<nat, Task>, n: nat, t: Task, oid: Id, who: Option<Id>)
    requires n in tasks && Continues(tasks[n], t)
    ensures TakenBy(tasks, oid, who) ==> TakenBy(tasks[n := t], oid, who)
    ensures Counted(tasks, oid) ==> Counted(tasks[n := t], oid)
  {
    var after := tasks[n := t];
    if k :| k in tasks && tasks[k].oid == oid && Took(tasks[k], who) {
      assert k in after && after[k].oid == oid && Took(after[k], who);
    }
    if k :| k in tasks && tasks[k].oid == oid && tasks[k].job.Create? && tasks[k].counted {
      assert k in after && after[k].oid == oid && after[k].job.Create? && after[k].counted;
    }
  }

  /** Nothing else is counted than what this task counts. */
  lemma CountedBefore(tasks: map<nat, Task>, n: nat, t: Task, oid: Id)
    requires n in tasks && Continues(tasks[n], t) && (oid == t.oid && t.counted ==> tasks[n].counted)
    ensures Counted(tasks[n := t], oid) ==> Counted(tasks, oid)
  {
    var after := tasks[n := t];
    if c :| c in after && after[c].oid == oid && after[c].job.Create? && after[c].counted {
      assert c in tasks && tasks[c].oid == oid && tasks[c].job.Create? && tasks[c].counted;
    }
  }

  lemma NextContinues(s: Stores, t: Task, ok: bool)
    requires TaskOk(s.db, t)
    ensures Continues(t, Next(s, t, ok).1)
    ensures Next(s, t, ok).1.counted && !t.counted ==> Counts(s.db, t, ok)
  {
  }

  lemma EndingStep(s: Stores, t: Task, ok: bool, who: Option<Id>)
    requires TaskOk(s.db, t) && OrderOk(s.db, t.oid) && OfRow(t, who)
    requires Holds(s.db, t.oid) && !Holds(Next(s, t, ok).0.db, t.oid)
    ensures var t' := Next(s, t, ok).1;
            && t'.oid == t.oid
            && (Took(t', who) || (TransactsOn(s.db, t) && !Takes(s.db, t, who, ok)))
  {
  }

  /** An order that this step ends was taken by it, or by whoever kept it from being free. */
  lemma EndedIsTaken(s: System, m: Move, who: Option<Id>)
    requires Wf(s) && Tracked(s, who) && m.Advance? && m.n in s.tasks && OfRow(s.tasks[m.n], who) && !Misses(s, m, who)
    requires var oid := s.tasks[m.n].oid; Holds(s.stores.db, oid) && !Holds(Step(s, m).stores.db, oid)
    ensures var oid := s.tasks[m.n].oid; TakenBy(Step(s, m).tasks, oid, who) || !Counted(Step(s, m).tasks, oid)
  {
    var t, oid, after := s.tasks[m.n], s.tasks[m.n].oid, Step(s, m).tasks;
    assert OrderOk(s.stores.db, oid);
    EndingStep(s.stores, t, m.ok, who);
    if Took(after[m.n], who) {
      assert after[m.n].oid == oid;
    } else {
      assert TransactsOn(s.stores.db, t) && !Free(s, m.n, who);
      var k :| k in s.tasks && k != m.n && s.tasks[k].oid == oid && Withholds(s.tasks[k], who);
      if Took(s.tasks[k], who) {
        assert after[k] == s.tasks[k];
      } else {
        NextContinues(s.stores, t, m.ok);
        OneCreateCounts(s.tasks, m.n, after[m.n], k);
      }
    }
  }

  /** The one task that creates an order decides whether it is counted. */
  lemma OneCreateCounts(tasks: map<nat, Task>, n: nat, t: Task, k: nat)
    requires OneCreate(tasks) && n in tasks && Continues(tasks[n], t)
    requires k in tasks && k != n && tasks[k].job.Create? && !tasks[k].counted
    ensures !Counted(tasks[n := t], tasks[k].oid)
  {
    var after := tasks[n := t];
    assert forall c :: c in after && after[c].oid == tasks[k].oid && after[c].job.Create? ==> c == k;
  }

  lemma CreatorStays(s: System, m: Move, oid: Id, who: Option<Id>)
    requires Wf(s) && Tracked(s, who) && m.Advance? && m.n in s.tasks && OfRow(s.tasks[m.n], who) && !Misses(s, m, who)
    requires oid in Step(s, m).stores.db.orders
    ensures exists k :: CreatedBy(Step(s, m), oid, k)
  {
    var t, s' := s.tasks[m.n], Step(s, m);
    NextMoves(s.stores, t, m.ok);
    NextContinues(s.stores, t, m.ok);
    if oid != t.oid {
      HoldsElsewhere(s.stores.db, s'.stores.db, t.oid, oid);
    }
    if oid in s.stores.db.orders {
      assert OrderTracked(s, oid, who);
      var k :| CreatedBy(s, oid, k);
      if k == m.n && t.phase.ToWrite? && Withholds(t, who) {
        GivingUpFree(s, m.n, who);
      }
      assert CreatedBy(s', oid, k);
    } else {
      assert CreatedBy(s', oid, m.n);
    }
  }

  lemma OrderStaysTracked(s: System, m: Move, oid: Id, who: Option<Id>)
    requires Wf(s) && Tracked(s, who) && m.Advance? && m.n in s.tasks && OfRow(s.tasks[m.n], who) && !Misses(s, m, who)
    ensures OrderTracked(Step(s, m), oid, who)
  {
    var t, s' := s.tasks[m.n], Step(s, m);
    if oid in s'.stores.db.orders {
      CreatorStays(s, m, oid, who);
      NextMoves(s.stores, t, m.ok);
      NextContinues(s.stores, t, m.ok);
      FlagsStay(s.tasks, m.n, s'.tasks[m.n], oid, who);
      if oid != t.oid {
        HoldsElsewhere(s.stores.db, s'.stores.db, t.oid, oid);
        CountedBefore(s.tasks, m.n, s'.tasks[m.n], oid);
      } else if Holds(s.stores.db, oid) && !Holds(s'.stores.db, oid) {
        EndedIsTaken(s, m, who);
      } else if oid in s.stores.db.orders && !Holds(s.stores.db, oid) {
        CountedBefore(s.tasks, m.n, s'.tasks[m.n], oid);
      }
      assert OrderTracked(s, oid, who);
    }
  }

  lemma StaysOneWithholds(s: System, m: Move, k: nat, l: nat, who: Option<Id>)
    requires Wf(s) && Tracked(s, who) && m.Advance? && m.n in s.tasks && OfRow(s.tasks[m.n], who) && !Misses(s, m, who)
    requires k in s.tasks && l in s.tasks
    ensures OneWithholds(Step(s, m), k, l, who)
  {
    var t, s' := s.tasks[m.n], Step(s, m);
    NextMoves(s.stores, t, m.ok);
    NextOk(s.stores, t, m.ok);
    assert OneWithholds(s, k, l, who);
    if s.tasks[k].oid != t.oid {
      HoldsElsewhere(s.stores.db, s'.stores.db, t.oid, s.tasks[k].oid);
    } else if k != l && s.tasks[l].oid == t.oid && Holds(s'.stores.db, t.oid) {
      if k == m.n {
        NewWithholder(s, m, l, who);
      } else if l == m.n {
        NewWithholder(s, m, k, who);
      }
    }
  }

  /** A task that starts to withhold an order finds no other task withholding it. */
  lemma NewWithholder(s: System, m: Move, l: nat, who: Option<Id>)
    requires Wf(s) && Tracked(s, who) && m.Advance? && m.n in s.tasks && OfRow(s.tasks[m.n], who) && !Misses(s, m, who)
    requires l in s.tasks && l != m.n && s.tasks[l].oid == s.tasks[m.n].oid
    requires Holds(Step(s, m).stores.db, s.tasks[l].oid)
    ensures !Withholds(Step(s, m).tasks[m.n], who) || !Withholds(s.tasks[l], who)
  {
    var t, s' := s.tasks[m.n], Step(s, m);
    NextMoves(s.stores, t, m.ok);
    NextOk(s.stores, t, m.ok);
    StartsToWithhold(s.stores, t, m.ok, who);
    assert TakerOk(s, l, who) && OneWithholds(s, m.n, l, who);
    assert Withholds(s.tasks[l], who) ==> WithheldByOthers(s.tasks, m.n, t.oid, who);
  }

  lemma StartsToWithhold(s: Stores, t: Task, ok: bool, who: Option<Id>)
    requires TaskOk(s.db, t)
    ensures var t' := Next(s, t, ok).1;
            Withholds(t', who) && !Withholds(t, who) ==> t.phase.ToDrop? || TransactsOn(s.db, t)
    ensures t.phase.ToDrop? && OfRow(t, who) && Withholds(Next(s, t, ok).1, who) && !Withholds(t, who) ==>
              Takes(s.db, t, who, ok)
  {
  }

  lemma AdvanceStaysTracked(s: System, m: Move, who: Option<Id>)
    requires Wf(s) && Tracked(s, who) && m.Advance? && m.n in s.tasks && OfRow(s.tasks[m.n], who) && !Misses(s, m, who)
    ensures Tracked(Step(s, m), who)
  {
    var s' := Step(s, m);
    NextMoves(s.stores, s.tasks[m.n], m.ok);
    forall k | k in s'.tasks
      ensures TakerOk(s', k, who)
    {
      if k == m.n {
        OwnTakerOk(s, m, who);
      } else {
        OthersTakerOk(s, s', s.tasks[m.n].oid, k, who);
      }
    }
    forall oid
      ensures OrderTracked(s', oid, who)
    {
      OrderStaysTracked(s, m, oid, who);
    }
    forall k, l | k in s'.tasks && l in s'.tasks
      ensures OneWithholds(s', k, l, who)
    {
      StaysOneWithholds(s, m, k, l, who);
    }
  }

  lemma BeginStaysTracked(s: System, m: Move, who: Option<Id>)
    requires Tracked(s, who) && Legal(s, m) && m.Begin?
    ensures Tracked(Step(s, m), who)
  {
    var s' := Step(s, m);
    forall k | k in s'.tasks
      ensures TakerOk(s', k, who)
    {
      assert k != m.n ==> TakerOk(s, k, who);
    }
    forall oid
      ensures OrderTracked(s', oid, who)
    {
      BeginKeepsOrder(s, m, oid, who);
    }
    forall k, l | k in s'.tasks && l in s'.tasks
      ensures OneWithholds(s', k, l, who)
    {
      assert k != m.n && l != m.n ==> OneWithholds(s, k, l, who);
    }
  }

  lemma BeginKeepsOrder(s: System, m: Move, oid: Id, who: Option<Id>)
    requires OrderTracked(s, oid, who) && Legal(s, m) && m.Begin?
    ensures OrderTracked(Step(s, m), oid, who)
  {
    var s' := Step(s, m);
    if oid in s.stores.db.orders {
      var k :| CreatedBy(s, oid, k);
      assert CreatedBy(s', oid, k);
      if c :| c in s.tasks && s.tasks[c].oid == oid && Took(s.tasks[c], who) {
        assert c in s'.tasks && s'.tasks[c].oid == oid && Took(s'.tasks[c], who);
      }
      if c :| c in s'.tasks && s'.tasks[c].oid == oid && s'.tasks[c].job.Create? && s'.tasks[c].counted {
        assert c in s.tasks && s.tasks[c].oid == oid && s.tasks[c].job.Create? && s.tasks[c].counted;
      }
    }
  }

  lemma RedisKeepsTracked(s: System, redis: Redis, who: Option<Id>)
    requires Tracked(s, who)
    ensures Tracked(Step(s, RedisMoves(redis)), who)
  {
    var s' := Step(s, RedisMoves(redis));
    forall k | k in s'.tasks
      ensures TakerOk(s', k, who)
    {
      assert TakerOk(s, k, who);
    }
    forall oid
      ensures OrderTracked(s', oid, who)
    {
      assert OrderTracked(s, oid, who);
      if oid in s.stores.db.orders {
        var k :| CreatedBy(s, oid, k);
        assert CreatedBy(s', oid, k);
      }
    }
    forall k, l | k in s'.tasks && l in s'.tasks
      ensures OneWithholds(s', k, l, who)
    {
      assert OneWithholds(s, k, l, who);
    }
  }

  /** The users' rows are all of one kind. */
  lemma AnyUser(s: System, u: Id, v: Id)
    requires Tracked(s, Some(u))
    ensures Tracked(s, Some(v))
  {
    forall k | k in s.tasks
      ensures TakerOk(s, k, Some(v))
    {
      assert TakerOk(s, k, Some(u));
    }
    forall oid
      ensures OrderTracked(s, oid, Some(v))
    {
      assert OrderTracked(s, oid, Some(u));
      if k :| k in s.tasks && s.tasks[k].oid == oid && Took(s.tasks[k], Some(u)) {
        assert Took(s.tasks[k], Some(v));
      }
    }
    forall k, l | k in s.tasks && l in s.tasks
      ensures OneWithholds(s, k, l, Some(v))
    {
      assert OneWithholds(s, k, l, Some(u));
    }
  }

  lemma StepStaysTracked(s: System, m: Move, who: Option<Id>)
    requires Wf(s) && Legal(s, m) && !Clashes(s, m) && forall w :: Tracked(s, w)
    ensures Tracked(Step(s, m), who)
  {
    if m.Begin? {
      BeginStaysTracked(s, m, who);
    } else if m.RedisMoves? {
      RedisKeepsTracked(s, m.redis, who);
    } else if m.n in s.tasks {
      var mine := if who.None? then None else Some(s.tasks[m.n].user);
      AdvanceStaysTracked(s, m, mine);
      if who.Some? {
        AnyUser(Step(s, m), mine.value, who.value);
      }
    }
  }

  lemma ClashIsImproper(s: System, m: Move)
    requires Wf(s) && AllExact(s) && forall w :: Tracked(s, w)
    ensures Clashes(s, m) <==> !ProperStep(s, m)
  {
    if m.Advance? && m.n in s.tasks {
      MissesIsImproper(s, m, None);
      MissesIsImproper(s, m, Some(s.tasks[m.n].user));
    }
  }

  lemma {:induction false} ProperIffNoClash(s: System, moves: seq<Move>)
    requires Wf(s) && AllExact(s) && LegalRun(s, moves) && forall w :: Tracked(s, w)
    ensures NoClash(s, moves) <==> ProperRun(s, moves)
    decreases |moves|
  {
    if moves != [] {
      ClashIsImproper(s, moves[0]);
      if !Clashes(s, moves[0]) {
        StepIsWf(s, moves[0]);
        StepIsExactIff(s, moves[0]);
        forall w
          ensures Tracked(Step(s, moves[0]), w)
        {
          StepStaysTracked(s, moves[0], w);
        }
        ProperIffNoClash(Step(s, moves[0]), moves[1..]);
      }
    }
  }

  /**
    The counters of all types and users are exact after every step of a run, up to calls under way, if
    and only if in that run every order is counted while pending, taken at most once and only after it
    was counted, and not left behind half done.
   */
  lemma ExactIffTakenOnce(s: System, moves: seq<Move>)
    requires Opening(s) && LegalRun(s, moves)
    ensures ExactThroughout(s, moves) <==> ProperRun(s, moves)
  {
    OpeningIsExact(s);
    ExactIffNoClash(s, moves);
    ProperIffNoClash(s, moves);
  }

  /** And then no type is ever oversold. */
  lemma TakenOnceIsNotOversold(s: System, moves: seq<Move>, ty: Id)
    requires Opening(s) && LegalRun(s, moves) && ProperRun(s, moves) && ty in Run(s, moves).stores.db.types
    ensures var row := Run(s, moves).stores.db.types[ty]; 0 <= row.soldQty <= row.totalQty && 0 <= row.reservedQty
  {
    ExactIffTakenOnce(s, moves);
    OpeningIsExact(s);
    ExactAtTheEnd(s, moves);
    RunTally(s, moves, None, ty);
    SoldWithinGap(Run(s, moves), ty);
    Sums.SumNonNegative(Run(s, moves).stores.db.orders, LiveWeight(Run(s, moves), None, ty));
    assert Gap(Run(s, moves), None, ty) == 0;
    OversoldByExcess(s, moves, ty);
  }

  lemma {:induction false} ExactAtTheEnd(s: System, moves: seq<Move>)
    requires ExactThroughout(s, moves)
    ensures AllExact(Run(s, moves))
    decreases |moves|
  {
    if moves != [] {
      ExactAtTheEnd(Step(s, moves[0]), moves[1..]);
    }
  }

  // ------------------------------------------------------------------ when every call has ended

  /** With nothing under way the exact counters are the plain folds over the orders. */
  lemma SettledIsExact(s: System, who: Option<Id>, ty: Id)
    requires AllExact(s) && forall n :: n in s.tasks ==> s.tasks[n].phase.Finished?
    ensures Reserved(s.stores.db, who, ty) == HeldTotal(s.stores.db, who, ty)
  {
    Sums.SumCongruent(s.stores.db.orders, LiveWeight(s, who, ty), HeldWeight(s.stores.db.tickets, who, ty));
    assert Gap(s, who, ty) == 0;
  }
}
