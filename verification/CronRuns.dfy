/** A whole run of the payment cron over the orders of its query. */
module CronRuns {
  import opened Ledger
  import opened Books
  import opened StoresSteps
  import opened Lifecycle
  import opened Services

  predicate AllDifferent(stuck: seq<Id>) {
    forall i, j :: 0 <= i < j < |stuck| ==> stuck[i] != stuck[j]
  }

  /** What its turn makes of a row: a pending order gets the status of its verdict, one that moved stays. */
  predicate Settled(before: Order, after: Order, verdict: Verdict) {
    && after == before.(status := after.status)
    && (before.status != PendingPayment ==> after.status == before.status)
    && (before.status == PendingPayment && verdict == VerifiedPaid ==> after.status == Paid)
    && (before.status == PendingPayment && verdict == VerifiedFailed ==> after.status == PaymentFailed)
    && (before.status == PendingPayment && verdict == StillPending ==> after.status == Expired)
  }

  /** One turn writes only its own row and no ticket. */
  lemma TurnSettles(s: Stores, oid: Id, verdict: Verdict)
    requires oid in s.db.orders
    ensures var s' := CronHandle(s, oid, verdict);
            && s'.db.tickets == s.db.tickets && s'.db.orders.Keys == s.db.orders.Keys
            && Settled(s.db.orders[oid], s'.db.orders[oid], verdict)
            && forall j :: j in s.db.orders && j != oid ==> s'.db.orders[j] == s.db.orders[j]
  {
  }

  /** The query finds an order exactly while it is pending past its hold; nothing else is touched. */
  lemma QueriedOrderIsSettled(s: Stores, oid: Id, now: int, verdict: Verdict)
    ensures var (s', out) := CronVerify(s, oid, now, verdict);
            && (out.Done? <==>
                  oid in s.db.orders && s.db.orders[oid].status == PendingPayment && s.db.orders[oid].expiresAt < now)
            && (!out.Done? ==> s' == s && out.Ignored?)
            && (out.Done? ==> s'.db.orders == s.db.orders[oid := s'.db.orders[oid]] && s'.db.tickets == s.db.tickets
                              && Settled(s.db.orders[oid], s'.db.orders[oid], verdict))
  {
  }

  /** Every listed order is settled by its own verdict, however long the list; no other row and no ticket changes. */
  lemma {:induction false} EveryListedOrderIsSettled(s: Stores, stuck: seq<Id>, verdicts: seq<Verdict>)
    requires |verdicts| == |stuck| && AllDifferent(stuck)
    ensures var s' := CronAll(s, stuck, verdicts);
            && s'.db.tickets == s.db.tickets && s'.db.orders.Keys == s.db.orders.Keys
            && (forall i :: 0 <= i < |stuck| && stuck[i] in s.db.orders ==>
                  Settled(s.db.orders[stuck[i]], s'.db.orders[stuck[i]], verdicts[i]))
            && (forall j :: j in s.db.orders && j !in stuck ==> s'.db.orders[j] == s.db.orders[j])
    decreases |stuck|
  {
    if stuck != [] {
      var s1 := if stuck[0] in s.db.orders then CronHandle(s, stuck[0], verdicts[0]) else s;
      if stuck[0] in s.db.orders {
        TurnSettles(s, stuck[0], verdicts[0]);
      }
      EveryListedOrderIsSettled(s1, stuck[1..], verdicts[1..]);
      var s' := CronAll(s, stuck, verdicts);
      assert s' == CronAll(s1, stuck[1..], verdicts[1..]);
      forall i | 0 <= i < |stuck| && stuck[i] in s.db.orders
        ensures Settled(s.db.orders[stuck[i]], s'.db.orders[stuck[i]], verdicts[i])
      {
        if i > 0 {
          assert stuck[i] == stuck[1..][i - 1] && verdicts[i] == verdicts[1..][i - 1];
        } else {
          assert stuck[0] !in stuck[1..];
        }
      }
    }
  }

  // ------------------------------------------------------------------ inventory

  /** The order awaits payment or has no reservation key left. */
  predicate Harmless(s: Stores, oid: Id) {
    oid in s.db.orders && (s.db.orders[oid].status.PendingPayment? || oid !in s.redis.holds)
  }

  lemma TurnKeeps(s: Stores, oid: Id, verdict: Verdict)
    requires Inv(s) && Harmless(s, oid)
    ensures var s' := CronHandle(s, oid, verdict);
            && Inv(s') && s'.redis.holds == s.redis.holds - Dropped(oid, verdict)
            && s'.redis.stock.Keys == s.redis.stock.Keys && s'.redis.limit.Keys == s.redis.limit.Keys
            && (Tight(s) && (verdict == VerifiedPaid || oid in s.redis.holds) ==> Tight(s'))
  {
    assert s.redis.holds - {} == s.redis.holds;
    if s.db.orders[oid].status.PendingPayment? {
      if verdict == VerifiedPaid {
        MarkingKeeps(s, oid);
      } else {
        var status := if verdict == VerifiedFailed then PaymentFailed else Expired;
        ClosingIsClosing(s, oid, status);
        CloseRedis(s, oid);
      }
    } else {
      assert s.redis.holds - {oid} == s.redis.holds;
    }
  }

  /** What one turn drops. */
  function Dropped(oid: Id, verdict: Verdict): set<Id> {
    if verdict == VerifiedPaid then {} else {oid}
  }

  /** The reservation keys of listed orders that were not verified as paid. */
  function Released(stuck: seq<Id>, verdicts: seq<Verdict>): set<Id>
    requires |verdicts| == |stuck|
  {
    set i | 0 <= i < |stuck| && verdicts[i] != VerifiedPaid :: stuck[i]
  }

  ghost predicate AllHarmless(s: Stores, stuck: seq<Id>) {
    forall oid :: oid in stuck ==> Harmless(s, oid)
  }

  /** One order's turn takes nothing from the others. */
  lemma OthersStayHarmless(s: Stores, s1: Stores, stuck: seq<Id>)
    requires stuck != [] && AllDifferent(stuck) && AllHarmless(s, stuck)
    requires s1.redis.holds.Keys <= s.redis.holds.Keys && s1.db.orders.Keys == s.db.orders.Keys
    requires forall j :: j in s.db.orders && j != stuck[0] ==> s1.db.orders[j] == s.db.orders[j]
    ensures Harmless(s, stuck[0]) && AllHarmless(s1, stuck[1..])
  {
    assert stuck[0] in stuck;
    forall oid | oid in stuck[1..]
      ensures Harmless(s1, oid)
    {
      assert oid in stuck && oid != stuck[0] && Harmless(s, oid);
    }
  }

  lemma CronRunStep(s: Stores, stuck: seq<Id>, verdicts: seq<Verdict>)
    requires |verdicts| == |stuck| > 0 && AllDifferent(stuck) && Inv(s) && AllHarmless(s, stuck)
    ensures Harmless(s, stuck[0])
    ensures var s1 := CronHandle(s, stuck[0], verdicts[0]);
            && CronAll(s, stuck, verdicts) == CronAll(s1, stuck[1..], verdicts[1..])
            && Inv(s1) && AllHarmless(s1, stuck[1..])
            && s1.redis.holds == s.redis.holds - Dropped(stuck[0], verdicts[0])
            && (Tight(s) && (verdicts[0] == VerifiedPaid || stuck[0] in s.redis.holds) ==> Tight(s1))
  {
    assert stuck[0] in stuck && Harmless(s, stuck[0]);
    TurnKeeps(s, stuck[0], verdicts[0]);
    TurnSettles(s, stuck[0], verdicts[0]);
    OthersStayHarmless(s, CronHandle(s, stuck[0], verdicts[0]), stuck);
  }

  /** A run drops exactly the keys of the orders not verified as paid. */
  lemma {:induction false} CronRunReleases(s: Stores, stuck: seq<Id>, verdicts: seq<Verdict>)
    requires |verdicts| == |stuck| && AllDifferent(stuck) && Inv(s) && AllHarmless(s, stuck)
    ensures CronAll(s, stuck, verdicts).redis.holds == s.redis.holds - Released(stuck, verdicts)
    decreases |stuck|
  {
    if stuck == [] {
      assert s.redis.holds - {} == s.redis.holds;
    } else {
      CronRunStep(s, stuck, verdicts);
      ReleasedSplits(stuck, verdicts);
      DropTwice(s.redis.holds, Dropped(stuck[0], verdicts[0]), Released(stuck[1..], verdicts[1..]));
      CronRunReleases(CronHandle(s, stuck[0], verdicts[0]), stuck[1..], verdicts[1..]);
    }
  }

  /**
    A run over orders that are pending, or whose key is gone, keeps the whole invariant, and every key exact if the
    keys of those not verified as paid had not lapsed.
   */
  lemma {:induction false} CronRunKeeps(s: Stores, stuck: seq<Id>, verdicts: seq<Verdict>)
    requires |verdicts| == |stuck| && AllDifferent(stuck) && Inv(s) && AllHarmless(s, stuck)
    ensures Inv(CronAll(s, stuck, verdicts))
    ensures Tight(s) && Released(stuck, verdicts) <= s.redis.holds.Keys ==> Tight(CronAll(s, stuck, verdicts))
    decreases |stuck|
  {
    if stuck != [] {
      CronRunStep(s, stuck, verdicts);
      ReleasedSplits(stuck, verdicts);
      CronRunKeeps(CronHandle(s, stuck[0], verdicts[0]), stuck[1..], verdicts[1..]);
    }
  }

  lemma DropTwice<K, V>(m: map<K, V>, a: set<K>, b: set<K>)
    ensures (m - a) - b == m - (a + b)
  {
  }

  lemma ReleasedSplits(stuck: seq<Id>, verdicts: seq<Verdict>)
    requires |verdicts| == |stuck| > 0 && AllDifferent(stuck)
    ensures var rest := Released(stuck[1..], verdicts[1..]);
            && Released(stuck, verdicts) == Dropped(stuck[0], verdicts[0]) + rest
            && stuck[0] !in rest
  {
    var rest := Released(stuck[1..], verdicts[1..]);
    forall oid | oid in rest
      ensures oid in Released(stuck, verdicts)
    {
      var i :| 0 <= i < |stuck[1..]| && verdicts[1..][i] != VerifiedPaid && stuck[1..][i] == oid;
      assert verdicts[i + 1] != VerifiedPaid && stuck[i + 1] == oid;
    }
    forall oid | oid in Released(stuck, verdicts) && oid != stuck[0]
      ensures oid in rest
    {
      var i :| 0 <= i < |stuck| && verdicts[i] != VerifiedPaid && stuck[i] == oid;
      assert verdicts[1..][i - 1] != VerifiedPaid && stuck[1..][i - 1] == oid;
    }
  }
}
