/**
  What a gap costs: from any state, calls that do nothing wrong any more can sell more tickets of a type
  than it has if and only if its orders already hold more than its counter says.
 */
module OrderDebt {
  import opened Wrappers
  import opened Sums
  import opened Ledger
  import opened Books
  import opened BooksSteps
  import opened StoresSteps
  import opened OrderTasks
  import opened OrderTally
  import opened OrderRuns
  import opened OrderRace

  /** No step counts, takes or gives up units of a type at the wrong time. */
  ghost predicate Quiet(s: System, m: Move) {
    forall ty :: Excess(s, m, None, ty) == 0
  }

  ghost predicate QuietRun(s: System, moves: seq<Move>)
    decreases |moves|
  {
    moves == [] || (Quiet(s, moves[0]) && QuietRun(Step(s, moves[0]), moves[1..]))
  }

  predicate Oversold(s: System, ty: Id) {
    ty in s.stores.db.types && s.stores.db.types[ty].soldQty > s.stores.db.types[ty].totalQty
  }

  ghost predicate CanOversell(s: System, ty: Id) {
    exists moves :: LegalRun(s, moves) && QuietRun(s, moves) && Oversold(Run(s, moves), ty)
  }

  lemma {:induction false} QuietKeepsGap(s: System, moves: seq<Move>, ty: Id)
    requires QuietRun(s, moves)
    ensures TotalExcess(s, moves, None, ty) == 0
    decreases |moves|
  {
    if moves != [] {
      QuietKeepsGap(Step(s, moves[0]), moves[1..], ty);
    }
  }

  lemma {:induction false} QuietAppend(s: System, a: seq<Move>, b: seq<Move>)
    requires QuietRun(s, a) && QuietRun(Run(s, a), b)
    ensures QuietRun(s, a + b)
    decreases |a|
  {
    if a == [] {
      assert a + b == b;
    } else {
      assert (a + b)[1..] == a[1..] + b;
      QuietAppend(Step(s, a[0]), a[1..], b);
    }
  }

  // ------------------------------------------------------------------ new ids

  lemma {:induction false} FreshId(ids: set<Id>) returns (id: Id)
    ensures id !in ids
  {
    var above := AboveAll(ids);
    id := Uuid(above);
  }

  lemma {:induction false} AboveAll(ids: set<Id>) returns (above: nat)
    ensures forall id :: id in ids ==> id.value < above
    decreases ids
  {
    if ids == {} {
      above := 0;
    } else {
      var id :| id in ids;
      above := AboveAll(ids - {id});
      above := if above <= id.value then id.value + 1 else above;
    }
  }

  lemma {:induction false} FreshNumber(ns: set<nat>) returns (n: nat)
    ensures forall k :: k in ns ==> k < n
    decreases ns
  {
    if ns == {} {
      n := 0;
    } else {
      var some :| some in ns;
      var above := FreshNumber(ns - {some});
      n := if above <= some then some + 1 else above;
      assert forall k :: k in ns ==> k == some || k in ns - {some};
    }
  }

  function Oids(tasks: map<nat, Task>): set<Id> {
    set n | n in tasks :: tasks[n].oid
  }

  function Users(counters: map<UserKey, Counter>): set<Id> {
    set k | k in counters :: k.0
  }

  // ------------------------------------------------------------------ one more unit is ordered

  /** Redis after a flush and the seed of this one type: what Postgres has left. */
  function Reseeded(s: System, ty: Id): Redis
    requires ty in s.stores.db.types
  {
    Redis(map[ty := Max(0, Available(s.stores.db.types[ty]))], map[], map[])
  }

  function OrderUnit(s: System, n: nat, oid: Id, user: Id, ty: Id): seq<Move>
    requires ty in s.stores.db.types
  {
    [RedisMoves(Reseeded(s, ty))] + ([Begin(n, oid, user, Item(ty, 1), Create)] + Advances(n, 4))
  }

  lemma QuietOne(s: System, m: Move)
    requires m.Advance? && m.n in s.tasks ==>
               !s.tasks[m.n].phase.ToCount? && !s.tasks[m.n].phase.ToDrop? && !s.tasks[m.n].phase.ToTransact?
               && !s.tasks[m.n].phase.ToWrite?
    ensures Quiet(s, m)
  {
  }

  lemma QuietStart(s: System, n: nat, k: nat)
    requires QuietRun(Step(s, Advance(n, true)), Advances(n, k)) && Quiet(s, Advance(n, true))
    ensures QuietRun(s, Advances(n, k + 1))
  {
    assert Advances(n, k + 1)[1..] == Advances(n, k);
  }

  /** The task is alone with its order, which is pending or to be created. */
  predicate AloneWith(s: System, n: nat) {
    n in s.tasks && forall k :: k in s.tasks && k != n ==> s.tasks[k].oid != s.tasks[n].oid
  }

  lemma PlacingIsQuiet(s: System, n: nat, oid: Id, user: Id, it: Item)
    requires AloneWith(s, n) && s.tasks[n] == NewTask(oid, user, it, Create)
    requires oid !in s.stores.db.orders && HasRoom(s.stores.db.types, [it])
    requires Accepts(s.stores.redis, oid, user, it, MaxPerUser(s.stores.db, it.typeId))
    ensures QuietRun(s, Advances(n, 4))
  {
    var a := Advance(n, true);
    var s1 := Step(s, a);
    var s2 := Step(s1, a);
    assert s1.tasks[n] == s.tasks[n].(phase := ToInsert);
    assert s2.tasks[n] == s.tasks[n].(phase := ToCount) && AloneWith(s2, n);
    CountingIsQuiet(s2, n);
    var s3 := Step(s2, a);
    assert s3.tasks[n].phase == ToCharge;
    QuietOne(s, a);
    QuietOne(s1, a);
    QuietOne(s3, a);
    QuietStart(s3, n, 0);
    QuietStart(s2, n, 1);
    QuietStart(s1, n, 2);
    QuietStart(s, n, 3);
  }

  lemma CountingIsQuiet(s: System, n: nat)
    requires AloneWith(s, n) && s.tasks[n].phase.ToCount? && Holds(s.stores.db, s.tasks[n].oid)
    ensures Quiet(s, Advance(n, true))
  {
    assert Free(s, n, None);
  }

  /** A new order of one unit: nothing goes wrong, and only reservedQty moves. */
  lemma UnitIsOrdered(s: System, ty: Id) returns (moves: seq<Move>)
    requires Wf(s) && ty in s.stores.db.types
    requires Available(s.stores.db.types[ty]) > 0 && s.stores.db.types[ty].maxPerUser >= 1
    ensures LegalRun(s, moves) && QuietRun(s, moves)
    ensures var row := s.stores.db.types[ty];
            var types := Run(s, moves).stores.db.types;
            ty in types && types[ty] == row.(reservedQty := row.reservedQty + 1)
  {
    var oid := FreshId(Oids(s.tasks) + s.stores.db.orders.Keys);
    var user := FreshId(Users(s.stores.db.counters));
    var n := FreshNumber(s.tasks.Keys);
    var it := Item(ty, 1);
    moves := OrderUnit(s, n, oid, user, ty);
    var first := [RedisMoves(Reseeded(s, ty))];
    var s1 := Step(s, first[0]);
    assert first[1..] == [];
    assert forall k :: k in s.tasks ==> s.tasks[k].oid in Oids(s.tasks);
    OrderedAlone(s1, n, oid, user, ty);
    QuietOne(s, first[0]);
    RunAppend(s, first, [Begin(n, oid, user, it, Create)] + Advances(n, 4));
    QuietAppend(s, first, [Begin(n, oid, user, it, Create)] + Advances(n, 4));
  }

  lemma OrderedAlone(s: System, n: nat, oid: Id, user: Id, ty: Id)
    requires ty in s.stores.db.types && Available(s.stores.db.types[ty]) > 0 && s.stores.db.types[ty].maxPerUser >= 1
    requires s.stores.redis == Reseeded(s, ty) && n !in s.tasks && oid !in s.stores.db.orders
    requires forall k :: k in s.tasks ==> s.tasks[k].oid != oid
    ensures var moves := [Begin(n, oid, user, Item(ty, 1), Create)] + Advances(n, 4);
            var row := s.stores.db.types[ty];
            var types := Run(s, moves).stores.db.types;
            && LegalRun(s, moves) && QuietRun(s, moves)
            && ty in types && types[ty] == row.(reservedQty := row.reservedQty + 1)
  {
    var it := Item(ty, 1);
    OneItemQty(it, ty);
    assert HasRoom(s.stores.db.types, [it]);
    PlaceAlone(s.stores, oid, user, it);
    BeginThen(s, n, oid, user, it, Create, 4);
    BeginIsLegal(s, n, oid, user, it, Create, 4);
    var begin := [Begin(n, oid, user, it, Create)];
    assert begin[1..] == [];
    PlacingIsQuiet(Step(s, begin[0]), n, oid, user, it);
    QuietOne(s, begin[0]);
    QuietAppend(s, begin, Advances(n, 4));
  }

  // ------------------------------------------------------------------ one order that holds units is sold

  /** The new task finds its order free, because nobody withheld it before. */
  lemma SellingIsQuiet(s: System, n: nat)
    requires n in s.tasks && s.tasks[n].phase.ToTransact? && (s.tasks[n].job.Pay? || s.tasks[n].job.Issue?)
    requires Matches(s.stores.db, s.tasks[n]) && Free(s, n, None)
    ensures Quiet(s, Advance(n, true))
  {
  }

  predicate Sellable(s: System, oid: Id, it: Item) {
    && oid in s.stores.db.orders && s.stores.db.orders[oid].items == [it] && it.typeId in s.stores.db.types
    && Holds(s.stores.db, oid) && !Withheld(s.tasks, oid, None)
  }

  function SaleJob(o: Order): Job {
    if o.status.PendingPayment? then Pay else Issue
  }

  lemma SaleRuns(s: System, n: nat, oid: Id, it: Item)
    requires Sellable(s, oid, it) && n !in s.tasks
    ensures var o := s.stores.db.orders[oid];
            var s1 := Step(s, Begin(n, oid, o.user, it, SaleJob(o)));
            QuietRun(s1, Advances(n, 3))
  {
    var o := s.stores.db.orders[oid];
    var a := Advance(n, true);
    var s1 := Step(s, Begin(n, oid, o.user, it, SaleJob(o)));
    var s2 := Step(s1, a);
    var s3 := Step(s2, a);
    HasTicketsIsCount(s.stores.db.tickets, oid);
    BeganFree(s, n, oid, it);
    QuietOne(s1, a);
    if o.status.PendingPayment? {
      assert s2.tasks[n].phase == ToTransact && s2.stores == s.stores;
      StillFree(s1, s2, n);
      SellingIsQuiet(s2, n);
      assert s3.tasks[n].phase == ToDelete;
      QuietOne(s3, a);
    } else {
      assert s2.tasks[n].phase == ToCheck;
      assert s3.tasks[n].phase == ToTransact && s3.stores == s.stores;
      QuietOne(s2, a);
      StillFree(s1, s3, n);
      SellingIsQuiet(s3, n);
    }
    QuietStart(s3, n, 0);
    QuietStart(s2, n, 1);
    QuietStart(s1, n, 2);
  }

  lemma BeganFree(s: System, n: nat, oid: Id, it: Item)
    requires Sellable(s, oid, it) && n !in s.tasks
    ensures var o := s.stores.db.orders[oid];
            Free(Step(s, Begin(n, oid, o.user, it, SaleJob(o))), n, None)
  {
  }

  lemma StillFree(s: System, s': System, n: nat)
    requires n in s.tasks && Free(s, n, None) && s'.stores == s.stores
    requires n in s'.tasks && s'.tasks == s.tasks[n := s'.tasks[n]] && s'.tasks[n].oid == s.tasks[n].oid
    ensures Free(s', n, None)
  {
    WithheldAfter(s.tasks, n, s'.tasks[n], None);
  }

  /** Its units turn from reserved into sold. */
  lemma HeldIsSold(s: System, ty: Id, oid: Id) returns (moves: seq<Move>)
    requires Wf(s) && ty in s.stores.db.types && LiveRow(s, oid, None, ty) > 0
    ensures LegalRun(s, moves) && QuietRun(s, moves)
    ensures var row, q := s.stores.db.types[ty], LiveRow(s, oid, None, ty);
            var types := Run(s, moves).stores.db.types;
            ty in types && types[ty] == row.(soldQty := row.soldQty + q, reservedQty := row.reservedQty - q)
  {
    var o := s.stores.db.orders[oid];
    assert OrderOk(s.stores.db, oid);
    var it := o.items[0];
    assert o.items == [it];
    var n := FreshNumber(s.tasks.Keys);
    var begin := [Begin(n, oid, o.user, it, SaleJob(o))];
    moves := begin + Advances(n, 3);
    assert begin[1..] == [];
    BeginThen(s, n, oid, o.user, it, SaleJob(o), 3);
    BeginIsLegal(s, n, oid, o.user, it, SaleJob(o), 3);
    SaleRuns(s, n, oid, it);
    QuietOne(s, begin[0]);
    QuietAppend(s, begin, Advances(n, 3));
    SaleSells(s.stores, oid, it, ty);
  }

  lemma SaleSells(s: Stores, oid: Id, it: Item, ty: Id)
    requires oid in s.db.orders && s.db.orders[oid].items == [it] && Holds(s.db, oid) && ty in s.db.types
    ensures var o := s.db.orders[oid];
            var row, q := s.db.types[ty], QtyOf([it], ty);
            var types := Steps(s, NewTask(oid, o.user, it, SaleJob(o)), 3).0.db.types;
            ty in types && types[ty] == row.(soldQty := row.soldQty + q, reservedQty := row.reservedQty - q)
  {
    var o := s.db.orders[oid];
    if o.status.PendingPayment? {
      PayAlone(s, oid, o.user, it);
    } else {
      IssueAlone(s, oid, o.user, it);
      HasTicketsIsCount(s.db.tickets, oid);
    }
  }

  // ------------------------------------------------------------------ all of it together

  lemma {:induction false} SomeoneHolds(s: System, ty: Id) returns (oid: Id)
    requires LiveTotal(s, None, ty) > 0
    ensures LiveRow(s, oid, None, ty) > 0
  {
    if forall k :: k in s.stores.db.orders ==> LiveWeight(s, None, ty)(k, s.stores.db.orders[k]) == 0 {
      SumZero(s.stores.db.orders, LiveWeight(s, None, ty));
    }
    oid :| oid in s.stores.db.orders && LiveWeight(s, None, ty)(oid, s.stores.db.orders[oid]) != 0;
  }

  /** Order whatever Postgres still has left, then sell whatever is held: that is more than the total. */
  lemma {:induction false} GapCanBeSold(s: System, ty: Id) returns (moves: seq<Move>)
    requires Wf(s) && ty in s.stores.db.types && Gap(s, None, ty) > 0 && s.stores.db.types[ty].maxPerUser >= 1
    ensures LegalRun(s, moves) && QuietRun(s, moves) && Oversold(Run(s, moves), ty)
    decreases Available(s.stores.db.types[ty]), LiveTotal(s, None, ty)
  {
    var row := s.stores.db.types[ty];
    assert SoldOk(row, SoldTotal(s.stores.db, None, ty));
    SumNonNegative(s.stores.db.orders, LiveWeight(s, None, ty));
    if Oversold(s, ty) {
      moves := [];
    } else {
      var first: seq<Move>;
      if Available(row) > 0 {
        first := UnitIsOrdered(s, ty);
      } else {
        var oid := SomeoneHolds(s, ty);
        first := HeldIsSold(s, ty, oid);
      }
      var s1 := Run(s, first);
      RunTally(s, first, None, ty);
      QuietKeepsGap(s, first, ty);
      assert SoldOk(s1.stores.db.types[ty], SoldTotal(s1.stores.db, None, ty));
      var rest := GapCanBeSold(s1, ty);
      moves := first + rest;
      RunAppend(s, first, rest);
      QuietAppend(s, first, rest);
    }
  }

  /** A type can still be oversold by calls that do nothing wrong exactly when its gap is positive. */
  lemma CanOversellIff(s: System, ty: Id)
    requires Wf(s) && ty in s.stores.db.types && s.stores.db.types[ty].maxPerUser >= 1
    ensures CanOversell(s, ty) <==> Gap(s, None, ty) > 0
  {
    if CanOversell(s, ty) {
      var moves :| LegalRun(s, moves) && QuietRun(s, moves) && Oversold(Run(s, moves), ty);
      RunTally(s, moves, None, ty);
      QuietKeepsGap(s, moves, ty);
      SoldWithinGap(Run(s, moves), ty);
    }
    if Gap(s, None, ty) > 0 {
      var moves := GapCanBeSold(s, ty);
    }
  }

  /** So whether a run has opened the way to overselling is decided by what it took without there being any. */
  lemma RunCanOversellIff(s: System, moves: seq<Move>, ty: Id)
    requires Opening(s) && LegalRun(s, moves)
    requires var types := Run(s, moves).stores.db.types; ty in types && types[ty].maxPerUser >= 1
    ensures CanOversell(Run(s, moves), ty) <==> TotalExcess(s, moves, None, ty) > 0
  {
    OpeningIsExact(s);
    RunTally(s, moves, None, ty);
    CanOversellIff(Run(s, moves), ty);
    assert Gap(s, None, ty) == 0;
  }
}
