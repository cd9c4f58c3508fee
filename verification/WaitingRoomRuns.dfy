/** How many get in without waiting, over whole runs; and what a place in the queue means. */
module WaitingRoomRuns {
  import opened Wrappers
  import opened Sums
  import opened WaitingRoom

  datatype Call =
    | Joins(concert: string, existing: Option<string>, t: Clock, sid: string, wait: WaitMs, force: bool)
    | Polls(sid: string, now: int, token: int)

  /** One new session: when it was checked, recorded and created, and whether it was let in at once. */
  datatype Arrival = Arrival(check: int, record: int, create: int, atOnce: bool)

  function Apply(room: Room, call: Call, threshold: nat): Room {
    match call
    case Joins(concert, existing, t, sid, wait, force) => Join(room, concert, existing, t, sid, wait, threshold,
                force).0
    case Polls(sid, now, token) => Poll(room, sid, now, token)
  }

  /** The new session of one concert that a call opens, if it opens one. */
  function Opened(room: Room, call: Call, threshold: nat, concert: string): seq<Arrival> {
    if call.Joins? && call.concert == concert && !Resumes(room, concert, call.existing) then
      [Arrival(call.t.check, call.t.record, call.t.create,
        !Required(room, concert, call.t.check, threshold, call.force))]
    else []
  }

  function Arrivals(room: Room, calls: seq<Call>, threshold: nat, concert: string): seq<Arrival>
    decreases |calls|
  {
    if calls == [] then []
    else Opened(room, calls[0], threshold, concert) +
           Arrivals(Apply(room, calls[0], threshold), calls[1..], threshold, concert)
  }

  /** The clock never goes back, within a call or between calls. */
  predicate ClockRuns(calls: seq<Call>, now: int)
    decreases |calls|
  {
    calls == [] ||
    match calls[0]
    case Joins(_, _, t, _, _, _) => now <= t.check <= t.record <= t.create <= t.answer &&
                ClockRuns(calls[1..], t.answer)
    case Polls(_, t, token) => now <= t <= token && ClockRuns(calls[1..], token)
  }

  // ------------------------------------------------------------------ pruning

  /** A later check sees the same timestamps whether or not old ones were pruned before. */
  lemma {:induction false} PruneLosesNothing(times: seq<int>, now: int, later: int)
    requires now <= later
    ensures Prune(Prune(times, now), later) == Prune(times, later)
  {
    if times != [] {
      PruneLosesNothing(times[1..], now, later);
      PruneAppend(if now - times[0] < LOAD_WINDOW_MS then [times[0]] else [], Prune(times[1..], now), later);
      assert [times[0]][1..] == [];
    }
  }

  lemma {:induction false} PruneAppend(a: seq<int>, b: seq<int>, now: int)
    ensures Prune(a + b, now) == Prune(a, now) + Prune(b, now)
  {
    if a == [] {
      assert a + b == b;
    } else {
      assert (a + b)[1..] == a[1..] + b;
      PruneAppend(a[1..], b, now);
    }
  }

  function RecordTimes(arrivals: seq<Arrival>): seq<int> {
    if arrivals == [] then [] else RecordTimes(arrivals[..|arrivals| - 1]) + [arrivals[|arrivals| - 1].record]
  }

  lemma RecordTimesSnoc(arrivals: seq<Arrival>, more: seq<Arrival>)
    requires |more| <= 1
    ensures RecordTimes(arrivals + more) == if more ==
              [] then RecordTimes(arrivals) else RecordTimes(arrivals) + [more[0].record]
  {
    if more == [] {
      assert arrivals + more == arrivals;
    } else {
      assert (arrivals + more)[..|arrivals|] == arrivals;
    }
  }

  // ------------------------------------------------------------------ the history decides

  /** The stored timestamps serve every later check as well as the whole history would. */
  ghost predicate Tells(room: Room, concert: string, history: seq<Arrival>, now: int) {
    forall later :: now <= later ==>
        Prune(WaitingRoom.Joins(room, concert), later) == Prune(RecordTimes(history), later)
  }

  /** Everyone let in at once found fewer than `threshold` joins in the window before their check. */
  predicate Justified(history: seq<Arrival>, i: nat, threshold: nat)
    requires i < |history|
  {
    history[i].atOnce ==> |Prune(RecordTimes(history[..i]), history[i].check)| < threshold
  }

  predicate InOrder(history: seq<Arrival>, now: int) {
    && (forall i :: 0 <= i < |history| ==> history[i].check <= history[i].record <= history[i].create <= now)
    && (forall i, j :: 0 <= i < j < |history| ==> history[i].create <= history[j].check)
  }

  function End(call: Call): int {
    if call.Joins? then call.t.answer else call.token
  }

  /** What recording a join leaves, with or without an earlier pruning in the same call. */
  lemma RecordedTells(times: seq<int>, check: int, record: int, later: int)
    requires check <= record <= later
    ensures Prune(Prune(times, record) + [record], later) == Prune(times + [record], later)
    ensures Prune(Prune(times, check), record) == Prune(times, record)
  {
    PruneLosesNothing(times, check, record);
    PruneLosesNothing(times, record, later);
    PruneAppend(Prune(times, record), [record], later);
    PruneAppend(times, [record], later);
  }

  lemma CallTells(room: Room, call: Call, threshold: nat, concert: string, history: seq<Arrival>, now: int)
    requires ClockRuns([call], now) && Tells(room, concert, history, now)
    ensures Tells(Apply(room, call, threshold), concert, history + Opened(room, call, threshold, concert), End(call))
    ensures now <= End(call)
  {
    var after, arrived := Apply(room, call, threshold), Opened(room, call, threshold, concert);
    RecordTimesSnoc(history, arrived);
    var times := WaitingRoom.Joins(room, concert);
    forall later | End(call) <= later
      ensures Prune(WaitingRoom.Joins(after, concert), later) == Prune(RecordTimes(history + arrived), later)
    {
      if arrived != [] {
        var t := call.t;
        RecordedTells(times, t.check, t.record, later);
        assert WaitingRoom.Joins(after, concert) == Prune(times, t.record) + [t.record];
        PruneAppend(times, [t.record], later);
        PruneAppend(RecordTimes(history), [t.record], later);
      } else {
        assert WaitingRoom.Joins(after, concert) == times;
      }
    }
  }

  ghost predicate Explained(history: seq<Arrival>, threshold: nat, now: int) {
    InOrder(history, now) && forall i :: 0 <= i < |history| ==> Justified(history, i, threshold)
  }

  lemma CallExplained(room: Room, call: Call, threshold: nat, concert: string, history: seq<Arrival>, now: int)
    requires ClockRuns([call], now) && Tells(room, concert, history, now) && Explained(history, threshold, now)
    ensures Explained(history + Opened(room, call, threshold, concert), threshold, End(call))
  {
    var arrived := Opened(room, call, threshold, concert);
    var more := history + arrived;
    assert [call][0] == call;
    forall i | 0 <= i < |more|
      ensures Justified(more, i, threshold)
    {
      if i < |history| {
        assert more[..i] == history[..i];
        assert Justified(history, i, threshold);
      } else {
        assert more[..i] == history;
      }
    }
  }

  function EndOfRun(calls: seq<Call>, now: int): int
    decreases |calls|
  {
    if calls == [] then now else EndOfRun(calls[1..], End(calls[0]))
  }

  lemma FirstCallRuns(calls: seq<Call>, now: int)
    requires calls != [] && ClockRuns(calls, now)
    ensures ClockRuns([calls[0]], now) && ClockRuns(calls[1..], End(calls[0]))
  {
    assert [calls[0]][1..] == [];
  }

  lemma ArrivalsUnfold(room: Room, calls: seq<Call>, threshold: nat, concert: string, history: seq<Arrival>)
    requires calls != []
    ensures history + Arrivals(room, calls, threshold, concert) ==
            (history + Opened(room, calls[0], threshold, concert))
            + Arrivals(Apply(room, calls[0], threshold), calls[1..], threshold, concert)
  {
    var arrived := Opened(room, calls[0], threshold, concert);
    var rest := Arrivals(Apply(room, calls[0], threshold), calls[1..], threshold, concert);
    Associate(history, arrived, rest);
  }

  lemma Associate<T>(a: seq<T>, b: seq<T>, c: seq<T>)
    ensures (a + b) + c == a + (b + c)
  {
  }

  lemma {:induction false} RunExplained(room: Room, calls: seq<Call>, threshold: nat, concert: string,
                                        history: seq<Arrival>, now: int)
    requires ClockRuns(calls, now) && Tells(room, concert, history, now) && Explained(history, threshold, now)
    ensures Explained(history + Arrivals(room, calls, threshold, concert), threshold, EndOfRun(calls, now))
    decreases |calls|
  {
    if calls == [] {
      assert history + [] == history;
    } else {
      var call := calls[0];
      var arrived := Opened(room, call, threshold, concert);
      FirstCallRuns(calls, now);
      CallTells(room, call, threshold, concert, history, now);
      CallExplained(room, call, threshold, concert, history, now);
      RunExplained(Apply(room, call, threshold), calls[1..], threshold, concert, history + arrived, End(call));
      ArrivalsUnfold(room, calls, threshold, concert, history);
    }
  }

  // ------------------------------------------------------------------ any window

  /** Let in at once and created within `length` milliseconds from x. */
  function CreatedIn(x: int, length: int): Arrival -> bool {
    (a: Arrival) => a.atOnce && x <= a.create < x + length
  }

  function RecordedIn(x: int, length: int): Arrival -> bool {
    (a: Arrival) => a.atOnce && x <= a.record < x + length
  }

  /** Whoever passes p has a join time that a check at `now` still counts. */
  lemma {:induction false} CountedByPrune(history: seq<Arrival>, p: Arrival -> bool, now: int)
    requires forall a :: a in history && p(a) ==> now - a.record < LOAD_WINDOW_MS
    ensures CountIf(history, p) <= |Prune(RecordTimes(history), now)|
  {
    if history != [] {
      var init, last := history[..|history| - 1], history[|history| - 1];
      CountedByPrune(init, p, now);
      assert history == init + [last];
      assert [last][1..] == [] && [last.record][1..] == [];
      CountAppend(init, [last], p);
      PruneAppend(RecordTimes(init), [last.record], now);
    }
  }

  /** If any two that pass p are close enough for the later one's check to see the earlier, at most `threshold` pass. */
  lemma {:induction false} AtMostThreshold(history: seq<Arrival>, p: Arrival -> bool, threshold: nat)
    requires forall i :: 0 <= i < |history| ==> Justified(history, i, threshold)
    requires forall a :: a in history && p(a) ==> a.atOnce
    requires forall i, j :: 0 <= i < j < |history| && p(history[i]) && p(history[j]) ==>
               history[j].check - history[i].record < LOAD_WINDOW_MS
    ensures CountIf(history, p) <= threshold
  {
    if history != [] {
      var n := |history| - 1;
      var init, last := history[..n], history[n];
      assert history == init + [last] && [last][1..] == [];
      CountAppend(init, [last], p);
      if p(last) {
        assert Justified(history, n, threshold);
        CountedByPrune(init, p, last.check);
      } else {
        forall i | 0 <= i < n
          ensures Justified(init, i, threshold)
        {
          assert Justified(history, i, threshold) && init[..i] == history[..i];
        }
        AtMostThreshold(init, p, threshold);
      }
    }
  }

  predicate Fresh(room: Room, concert: string) {
    WaitingRoom.Joins(room, concert) == []
  }

  lemma WholeRunExplained(room: Room, calls: seq<Call>, threshold: nat, concert: string, now: int)
    requires Fresh(room, concert) && ClockRuns(calls, now)
    ensures Explained(Arrivals(room, calls, threshold, concert), threshold, EndOfRun(calls, now))
  {
    RunExplained(room, calls, threshold, concert, [], now);
    assert [] + Arrivals(room, calls, threshold, concert) == Arrivals(room, calls, threshold, concert);
  }

  /** In any window of five minutes at most `threshold` of those let in at once have their join recorded. */
  lemma WindowOfJoins(room: Room, calls: seq<Call>, threshold: nat, concert: string, now: int, x: int)
    requires Fresh(room, concert) && ClockRuns(calls, now)
    ensures CountIf(Arrivals(room, calls, threshold, concert), RecordedIn(x, LOAD_WINDOW_MS)) <= threshold
  {
    WholeRunExplained(room, calls, threshold, concert, now);
    AtMostThreshold(Arrivals(room, calls, threshold, concert), RecordedIn(x, LOAD_WINDOW_MS), threshold);
  }

  /**
    Counted by creation time the window shrinks by what the clock may advance inside one join: with a
    clock that stands still there it is the full five minutes.
   */
  lemma WindowOfSessions(room: Room, calls: seq<Call>, threshold: nat, concert: string, now: int, x: int, drift: nat)
    requires Fresh(room, concert) && ClockRuns(calls, now)
    requires forall a :: a in Arrivals(room, calls, threshold, concert) ==> a.create - a.check <= drift
    ensures CountIf(Arrivals(room, calls, threshold, concert), CreatedIn(x, LOAD_WINDOW_MS - drift)) <= threshold
  {
    WholeRunExplained(room, calls, threshold, concert, now);
    var all := Arrivals(room, calls, threshold, concert);
    forall i, j | 0 <= i < j < |all| && CreatedIn(x, LOAD_WINDOW_MS - drift)(all[i]) &&
             CreatedIn(x, LOAD_WINDOW_MS - drift)(all[j])
      ensures all[j].check - all[i].record < LOAD_WINDOW_MS
    {
      assert all[i] in all && all[i].create - all[i].check <= drift;
    }
    AtMostThreshold(all, CreatedIn(x, LOAD_WINDOW_MS - drift), threshold);
  }

  // ------------------------------------------------------------------ and no longer window

  /** A run with at most `drift` inside each join lets more than `threshold` in at once within the window. */
  ghost predicate Overfull(room: Room, calls: seq<Call>, concert: string, now: int, x: int, threshold: nat, drift: nat,
                           length: nat) {
    && Fresh(room, concert) && ClockRuns(calls, now)
    && (forall a :: a in Arrivals(room, calls, threshold, concert) ==> a.create - a.check <= drift)
    && CountIf(Arrivals(room, calls, threshold, concert), CreatedIn(x, length)) > threshold
  }

  ghost predicate SafeWindow(threshold: nat, drift: nat, length: nat) {
    forall room, calls, concert, now, x :: !Overfull(room, calls, concert, now, x, threshold, drift, length)
  }

  function Sid(i: nat): string {
    if i == 0 then "s" else "s" + Sid(i - 1)
  }

  function JoinAt(concert: string, t: Clock, i: nat): Call {
    Joins(concert, None, t, Sid(i), MIN_WAIT_MS, false)
  }

  /** k joins of one instant, then one a full window after time zero. */
  function Crowd(concert: string, e: int, k: nat): seq<Call> {
    if k == 0 then [JoinAt(concert, Clock(LOAD_WINDOW_MS, LOAD_WINDOW_MS, LOAD_WINDOW_MS, LOAD_WINDOW_MS), 0)]
    else [JoinAt(concert, Clock(e, e, e, e), k)] + Crowd(concert, e, k - 1)
  }

  function CrowdArrives(e: int, k: nat): seq<Arrival> {
    if k == 0 then [Arrival(LOAD_WINDOW_MS, LOAD_WINDOW_MS, LOAD_WINDOW_MS, true)]
         else [Arrival(e, e, e, true)] + CrowdArrives(e, k - 1)
  }

  /** Nobody waits, and of at most j + 1 stored joins at most j will still count at the end of the window. */
  predicate Quiet(room: Room, concert: string, j: nat) {
    && WaitingSessions(room.sessions, concert) == {}
    && |WaitingRoom.Joins(room, concert)| <= j + 1 && |Prune(WaitingRoom.Joins(room, concert), LOAD_WINDOW_MS)| <= j
  }

  lemma {:induction false} PruneShortens(times: seq<int>, now: int)
    ensures |Prune(times, now)| <= |times|
  {
    if times != [] {
      PruneShortens(times[1..], now);
    }
  }

  lemma QuietJoin(room: Room, concert: string, e: int, i: nat, j: nat, threshold: nat)
    requires Quiet(room, concert, j) && j + 1 < threshold && 0 <= e <= LOAD_WINDOW_MS
    ensures var call := JoinAt(concert, Clock(e, e, e, e), i);
            Opened(room, call, threshold, concert) ==
              [Arrival(e, e, e, true)] && Quiet(Apply(room, call, threshold), concert, j + 1)
  {
    var times := WaitingRoom.Joins(room, concert);
    var call := JoinAt(concert, Clock(e, e, e, e), i);
    var after := Apply(room, call, threshold);
    PruneShortens(times, e);
    assert !Required(room, concert, e, threshold, false);
    assert WaitingSessions(after.sessions, concert) == {};
    PruneLosesNothing(times, e, e);
    assert WaitingRoom.Joins(after, concert) == Prune(times, e) + [e];
    PruneAppend(Prune(times, e), [e], LOAD_WINDOW_MS);
    PruneLosesNothing(times, e, LOAD_WINDOW_MS);
    PruneShortens([e], LOAD_WINDOW_MS);
  }

  lemma {:induction false} CrowdGetsIn(room: Room, concert: string, e: int, k: nat, j: nat, threshold: nat)
    requires Quiet(room, concert, j) && j + k < threshold && 0 <= e <= LOAD_WINDOW_MS
    ensures Arrivals(room, Crowd(concert, e, k), threshold, concert) == CrowdArrives(e, k)
    decreases k
  {
    var call := Crowd(concert, e, k)[0];
    assert Crowd(concert, e, k)[1..] == if k == 0 then [] else Crowd(concert, e, k - 1);
    if k == 0 {
      assert !Required(room, concert, LOAD_WINDOW_MS, threshold, false);
      assert Opened(room, call, threshold, concert) == CrowdArrives(e, 0);
      assert CrowdArrives(e, 0) + [] == CrowdArrives(e, 0);
    } else {
      QuietJoin(room, concert, e, k, j, threshold);
      CrowdGetsIn(Apply(room, call, threshold), concert, e, k - 1, j + 1, threshold);
    }
  }

  lemma {:induction false} CrowdSize(e: int, k: nat)
    requires e <= LOAD_WINDOW_MS
    ensures |CrowdArrives(e, k)| == k + 1
    ensures forall a :: a in CrowdArrives(e, k) ==> a.atOnce && e <= a.create <= LOAD_WINDOW_MS && a.create == a.check
  {
    if k > 0 {
      CrowdSize(e, k - 1);
    }
  }

  /** The first of the crowd is checked at time zero and created e later. */
  lemma FirstOfCrowd(concert: string, e: int, threshold: nat)
    requires threshold >= 1 && 0 <= e <= LOAD_WINDOW_MS
    ensures var first := JoinAt(concert, Clock(0, 0, e, e), threshold);
            var room := Room(map[], map[]);
            && Opened(room, first, threshold, concert) == [Arrival(0, 0, e, true)]
            && Quiet(Apply(room, first, threshold), concert, 0)
  {
    var room := Room(map[], map[]);
    var after := Apply(room, JoinAt(concert, Clock(0, 0, e, e), threshold), threshold);
    assert WaitingSessions(room.sessions, concert) == {};
    assert WaitingSessions(after.sessions, concert) == {};
    assert WaitingRoom.Joins(after, concert) == [0] && [0][1..] == [];
  }

  /** In any longer window one session too many gets in, whatever the threshold. */
  lemma DriftLetsOneMoreIn(concert: string, threshold: nat, drift: nat, length: nat)
    requires threshold >= 1 && length >= 1 && length + drift > LOAD_WINDOW_MS
    ensures !SafeWindow(threshold, drift, length)
  {
    var e := if drift < LOAD_WINDOW_MS then drift else LOAD_WINDOW_MS;
    var calls := WholeCrowd(concert, e, threshold);
    WholeCrowdGetsIn(concert, e, threshold);
    WholeCrowdRuns(concert, e, threshold);
    WholeCrowdCounts(e, threshold, length);
    assert Overfull(Room(map[], map[]), calls, concert, 0, e, threshold, drift, length);
  }

  lemma {:induction false} CrowdRuns(concert: string, e: int, k: nat)
    requires e <= LOAD_WINDOW_MS
    ensures ClockRuns(Crowd(concert, e, k), e)
  {
    var calls := Crowd(concert, e, k);
    assert calls[1..] == if k == 0 then [] else Crowd(concert, e, k - 1);
    if k > 0 {
      CrowdRuns(concert, e, k - 1);
    }
  }

  lemma WholeCrowdRuns(concert: string, e: int, threshold: nat)
    requires threshold >= 1 && 0 <= e <= LOAD_WINDOW_MS
    ensures ClockRuns(WholeCrowd(concert, e, threshold), 0)
  {
    CrowdRuns(concert, e, threshold - 1);
    assert WholeCrowd(concert, e, threshold)[1..] == Crowd(concert, e, threshold - 1);
  }

  lemma WholeCrowdCounts(e: int, threshold: nat, length: nat)
    requires threshold >= 1 && 0 <= e <= LOAD_WINDOW_MS < e + length
    ensures var all := [Arrival(0, 0, e, true)] + CrowdArrives(e, threshold - 1);
            CountIf(all, CreatedIn(e, length)) == threshold + 1 && forall a :: a in all ==> a.create - a.check <= e
  {
    var all := [Arrival(0, 0, e, true)] + CrowdArrives(e, threshold - 1);
    CrowdSize(e, threshold - 1);
    CountUniform(all, CreatedIn(e, length), true);
  }

  function WholeCrowd(concert: string, e: int, threshold: nat): seq<Call>
    requires threshold >= 1
  {
    [JoinAt(concert, Clock(0, 0, e, e), threshold)] + Crowd(concert, e, threshold - 1)
  }

  lemma WholeCrowdGetsIn(concert: string, e: int, threshold: nat)
    requires threshold >= 1 && 0 <= e <= LOAD_WINDOW_MS
    ensures Arrivals(Room(map[], map[]), WholeCrowd(concert, e, threshold), threshold, concert) ==
            [Arrival(0, 0, e, true)] + CrowdArrives(e, threshold - 1)
  {
    var room, calls := Room(map[], map[]), WholeCrowd(concert, e, threshold);
    FirstOfCrowd(concert, e, threshold);
    CrowdGetsIn(Apply(room, calls[0], threshold), concert, e, threshold - 1, 0, threshold);
    assert calls[1..] == Crowd(concert, e, threshold - 1);
  }

  /**
    A window is safe for every run whose clock advances by at most `drift` inside a join if and only if,
    unless it is empty, the two together are no longer than five minutes; for every threshold.
   */
  lemma SafeWindowIff(threshold: nat, drift: nat, length: nat)
    requires threshold >= 1
    ensures SafeWindow(threshold, drift, length) <==> length == 0 || length + drift <= LOAD_WINDOW_MS
  {
    if length >= 1 && length + drift > LOAD_WINDOW_MS {
      DriftLetsOneMoreIn("concert", threshold, drift, length);
    } else {
      forall room, calls, concert, now, x
        ensures !Overfull(room, calls, concert, now, x, threshold, drift, length)
      {
        if Overfull(room, calls, concert, now, x, threshold, drift, length) {
          ShortWindowIsSafe(room, calls, concert, now, x, threshold, drift, length);
        }
      }
    }
  }

  lemma ShortWindowIsSafe(room: Room, calls: seq<Call>, concert: string, now: int, x: int, threshold: nat, drift: nat,
                          length: nat)
    requires Fresh(room, concert) && ClockRuns(calls, now)
    requires forall a :: a in Arrivals(room, calls, threshold, concert) ==> a.create - a.check <= drift
    requires length == 0 || length + drift <= LOAD_WINDOW_MS
    ensures CountIf(Arrivals(room, calls, threshold, concert), CreatedIn(x, length)) <= threshold
  {
    var all := Arrivals(room, calls, threshold, concert);
    if length == 0 {
      CountUniform(all, CreatedIn(x, 0), false);
    } else {
      WindowOfSessions(room, calls, threshold, concert, now, x, drift);
      CountLess(all, CreatedIn(x, length), CreatedIn(x, LOAD_WINDOW_MS - drift));
    }
  }

  lemma {:induction false} CountLess<T>(s: seq<T>, p: T -> bool, q: T -> bool)
    requires forall a :: a in s && p(a) ==> q(a)
    ensures CountIf(s, p) <= CountIf(s, q)
  {
    if s != [] {
      CountLess(s[1..], p, q);
    }
  }

  // ------------------------------------------------------------------ sessions and the queue

  /** Once in, always in: no call takes an admission back, and nobody who must wait gets in before their time. */
  lemma WaitersWait(room: Room, call: Call, threshold: nat, id: string)
    requires id in room.sessions && (call.Joins? ==> call.sid != id)
    ensures var s, s' := room.sessions[id], Apply(room, call, threshold).sessions[id];
            && id in Apply(room, call, threshold).sessions
            && s' == s.(admitted := s'.admitted, tokenExpiresAt := s'.tokenExpiresAt)
            && (s.admitted ==> s' == s)
            && (!s.admitted && s'.admitted ==>
                  && call.Polls? && call.sid == id && call.now >= s.admitAt
                  && s'.tokenExpiresAt == Some(call.token + TOKEN_TTL_MS))
  {
  }

  function AfterAll(room: Room, calls: seq<Call>, threshold: nat): Room
    decreases |calls|
  {
    if calls == [] then room else AfterAll(Apply(room, calls[0], threshold), calls[1..], threshold)
  }

  /**
    Over a whole run: a session is never lost or changed but by its admission, an admitted one never at
    all, and one that had to wait is in only after some poll of its own at or after its time.
   */
  lemma {:induction false} WaitersWaitThroughout(room: Room, calls: seq<Call>, threshold: nat, id: string)
    requires id in room.sessions && forall c :: c in calls && c.Joins? ==> c.sid != id
    ensures var after := AfterAll(room, calls, threshold);
            && id in after.sessions
            && var s, s' := room.sessions[id], after.sessions[id];
               && s' == s.(admitted := s'.admitted, tokenExpiresAt := s'.tokenExpiresAt)
               && (s.admitted ==> s' == s)
               && (!s.admitted && s'.admitted ==>
                     exists c :: c in calls && c.Polls? && c.sid == id && c.now >= s.admitAt)
    decreases |calls|
  {
    if calls != [] {
      assert calls[0] in calls;
      WaitersWait(room, calls[0], threshold, id);
      WaitersWaitThroughout(Apply(room, calls[0], threshold), calls[1..], threshold, id);
    }
  }

  // ------------------------------------------------------------------ how long a newcomer waits

  function Recent(now: int): int -> bool {
    (time: int) => now - time < LOAD_WINDOW_MS
  }

  lemma {:induction false} PruneCounts(times: seq<int>, now: int)
    ensures |Prune(times, now)| == CountIf(times, Recent(now))
  {
    if times != [] {
      PruneCounts(times[1..], now);
    }
  }

  /** The call opens a session. */
  predicate Opens(room: Room, call: Call) {
    call.Joins? && !(call.existing.Some? && call.existing.value in room.sessions
                     && room.sessions[call.existing.value].concert == call.concert)
  }

  /**
    A newcomer is let in at once exactly when nothing forces the room and recent joins and waiting sessions
    together are below the threshold; else they wait for at least the least and less than the longest time.
   */
  lemma NewcomerGets(room: Room, call: Call, threshold: nat)
    requires Opens(room, call)
    ensures var s := Apply(room, call, threshold).sessions;
            var times := if call.concert in room.joins then room.joins[call.concert] else [];
            var waiting := set id | id in room.sessions && room.sessions[id].concert == call.concert &&
                                    room.sessions[id].required && !room.sessions[id].admitted;
            && s == room.sessions[call.sid := s[call.sid]]
            && s[call.sid].concert == call.concert && s[call.sid].createdAt == call.t.create
            && (s[call.sid].admitted <==>
                  !call.force && CountIf(times, Recent(call.t.check)) + |waiting| < threshold)
            && (s[call.sid].required <==> !s[call.sid].admitted)
            && (s[call.sid].admitted ==> s[call.sid].tokenExpiresAt == Some(call.t.create + TOKEN_TTL_MS))
            && (!s[call.sid].admitted ==>
                  MIN_WAIT_MS <= s[call.sid].admitAt - s[call.sid].createdAt < MAX_WAIT_MS)
  {
    PruneCounts(WaitingRoom.Joins(room, call.concert), call.t.check);
    assert WaitingSessions(room.sessions, call.concert) ==
           set id | id in room.sessions && room.sessions[id].concert == call.concert &&
                    room.sessions[id].required && !room.sessions[id].admitted;
  }

  /** A call with a session of this concert changes nothing. */
  lemma ResumingIsIdle(room: Room, call: Call, threshold: nat)
    requires call.Joins? && !Opens(room, call)
    ensures Apply(room, call, threshold) == room
  {
  }

  /**
    Over every run after a join that has to wait: the session is not in before a poll of its own at least
    MIN_WAIT_MS after its creation, and a poll just before MAX_WAIT_MS finds it in or lets it in.
   */
  lemma NewcomerWaits(room: Room, first: Call, calls: seq<Call>, threshold: nat, token: int)
    requires Opens(room, first) && forall c :: c in calls && c.Joins? ==> c.sid != first.sid
    requires !Apply(room, first, threshold).sessions[first.sid].admitted
    ensures var after := AfterAll(Apply(room, first, threshold), calls, threshold);
            var last := first.t.create + MAX_WAIT_MS - 1;
            && first.sid in after.sessions
            && (after.sessions[first.sid].admitted ==>
                  exists c :: c in calls && c.Polls? && c.sid == first.sid && c.now >= first.t.create + MIN_WAIT_MS)
            && Apply(after, Polls(first.sid, last, token), threshold).sessions[first.sid].admitted
  {
    NewcomerGets(room, first, threshold);
    WaitersWaitThroughout(Apply(room, first, threshold), calls, threshold, first.sid);
  }

  /**
    The time a waiting session is told is true to the second: a poll that much later lets it in, and none
    does that is a whole second earlier.
   */
  lemma ToldTimeIsTrue(room: Room, id: string, now: int, later: int, token: int)
    requires id in room.sessions && room.sessions[id].required && !room.sessions[id].admitted
    ensures var told := Respond(room.sessions, room.sessions[id], now);
            && told.Waiting?
            && (later >= now + 1000 * told.seconds ==> Poll(room, id, later, token).sessions[id].admitted)
            && (told.seconds > 0 && later <= now + 1000 * (told.seconds - 1) ==> Poll(room, id, later, token) == room)
  {
  }

  /**
    Positions follow the order of admission times: of two waiting sessions, the one with the smaller number is
    ahead.
   */
  lemma PositionsAreAnOrder(sessions: map<string, Session>, a: string, b: string)
    requires a in sessions && b in sessions && sessions[a].concert == sessions[b].concert
    requires IsWaiting(sessions[a], sessions[a].concert) && IsWaiting(sessions[b], sessions[b].concert)
    ensures Position(sessions, sessions[a]) < Position(sessions, sessions[b]) <==> Before(sessions[a], sessions[b])
    ensures 1 <= Position(sessions, sessions[a]) <= |WaitingSessions(sessions, sessions[a].concert)|
  {
    var sa, sb := sessions[a], sessions[b];
    if Before(sa, sb) {
      Smaller(Ahead(sessions, sa), Ahead(sessions, sb), a);
    } else {
      AtMost(Ahead(sessions, sb), Ahead(sessions, sa));
    }
    Smaller(Ahead(sessions, sa), WaitingSessions(sessions, sa.concert), a);
  }

  /** Who is in has a token, and who is not has to wait. */
  predicate Complete(room: Room) {
    forall id :: id in room.sessions ==>
        if room.sessions[id].admitted then room.sessions[id].tokenExpiresAt.Some? else room.sessions[id].required
  }

  lemma {:induction false} RunsAreComplete(room: Room, calls: seq<Call>, threshold: nat)
    requires Complete(room)
    ensures Complete(AfterAll(room, calls, threshold))
    decreases |calls|
  {
    if calls != [] {
      RunsAreComplete(Apply(room, calls[0], threshold), calls[1..], threshold);
    }
  }

  /**
    After every run each session is told that it is in, until when, or its place: never neither.  Of two that
    wait the one told the smaller place is the one that gets in first.
   */
  lemma EveryoneIsTold(room: Room, calls: seq<Call>, threshold: nat, a: string, b: string, now: int)
    requires Complete(room)
    requires var all := AfterAll(room, calls, threshold).sessions;
             a in all && b in all && all[a].concert == all[b].concert
    ensures var all := AfterAll(room, calls, threshold).sessions;
            var told, other := Respond(all, all[a], now), Respond(all, all[b], now);
            && (all[a].admitted <==> told.Admitted?) && (!all[a].admitted <==> told.Waiting?)
            && (told.Admitted? ==> all[a].tokenExpiresAt == Some(told.tokenExpiresAt))
            && (told.Waiting? && other.Waiting? ==>
                  (told.position < other.position <==> Before(all[a], all[b])))
            && (told.Waiting? ==> 1 <= told.position <= |WaitingSessions(all, all[a].concert)|)
  {
    RunsAreComplete(room, calls, threshold);
    var all := AfterAll(room, calls, threshold).sessions;
    assert all[a].admitted || IsWaiting(all[a], all[a].concert);
    if !all[a].admitted {
      PositionsAreAnOrder(all, a, if all[b].admitted then a else b);
    }
  }

  lemma {:induction false} AtMost<T>(a: set<T>, b: set<T>)
    requires a <= b
    ensures |a| <= |b|
  {
    assert b == a + (b - a);
  }

  lemma Smaller<T>(a: set<T>, b: set<T>, x: T)
    requires a <= b && x in b && x !in a
    ensures |a| < |b|
  {
    AtMost(a + {x}, b);
  }
}
