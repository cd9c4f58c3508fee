/**
  The waiting room: new sessions are let in at once until a window of five minutes has seen too many
  joins, and wait a random time after that.  One call reads the clock several times.
 */
module WaitingRoom {
  import opened Wrappers

  const TOKEN_TTL_MS := 5 * 60 * 1000
  const LOAD_WINDOW_MS := 5 * 60 * 1000
  const MIN_WAIT_MS := 12_000
  const MAX_WAIT_MS := 38_000

  datatype Session = Session(concert: string, createdAt: int, admitAt: int, admitted: bool, required: bool,
    tokenExpiresAt: Option<int>)
  datatype Room = Room(sessions: map<string, Session>, joins: map<string, seq<int>>)
  /** The clock as read when checking the load, recording the join, creating the session, answering. */
  datatype Clock = Clock(check: int, record: int, create: int, answer: int)
  datatype Response = Admitted(required: bool, tokenExpiresAt: int) | Waiting(required: bool, position: nat,
    seconds: nat) | WaitingUnplaced   // waiting, with neither position nor time
  type WaitMs = n: int | MIN_WAIT_MS <= n < MAX_WAIT_MS witness MIN_WAIT_MS

  function Joins(room: Room, concert: string): seq<int> {
    if concert in room.joins then room.joins[concert] else []
  }

  /** The timestamps less than a window old. */
  function Prune(times: seq<int>, now: int): seq<int> {
    if times == [] then []
    else (if now - times[0] < LOAD_WINDOW_MS then [times[0]] else []) + Prune(times[1..], now)
  }

  function Pruned(room: Room, concert: string, now: int): Room {
    room.(joins := room.joins[concert := Prune(Joins(room, concert), now)])
  }

  predicate IsWaiting(s: Session, concert: string) {
    s.concert == concert && !s.admitted && s.required
  }

  function WaitingSessions(sessions: map<string, Session>, concert: string): set<string> {
    set id | id in sessions && IsWaiting(sessions[id], concert)
  }

  function Required(room: Room, concert: string, now: int, threshold: nat, force: bool): bool {
    force || |Prune(Joins(room, concert), now)| + |WaitingSessions(room.sessions, concert)| >= threshold
  }

  /** Who is ahead in the queue: an earlier admission time, then an earlier creation. */
  predicate Before(a: Session, b: Session) {
    a.admitAt < b.admitAt || (a.admitAt == b.admitAt && a.createdAt < b.createdAt)
  }

  function Ahead(sessions: map<string, Session>, s: Session): set<string> {
    set id | id in sessions && IsWaiting(sessions[id], s.concert) && Before(sessions[id], s)
  }

  function Position(sessions: map<string, Session>, s: Session): nat {
    1 + |Ahead(sessions, s)|
  }

  function SecondsLeft(ms: int): nat {
    if ms <= 0 then 0 else (ms + 999) / 1000
  }

  function Respond(sessions: map<string, Session>, s: Session, now: int): Response {
    if s.admitted && s.tokenExpiresAt.Some? then Admitted(s.required, s.tokenExpiresAt.value)
    else if s.required then Waiting(true, Position(sessions, s), SecondsLeft(s.admitAt - now))
    else WaitingUnplaced
  }

  predicate Resumes(room: Room, concert: string, existing: Option<string>) {
    existing.Some? && existing.value in room.sessions && room.sessions[existing.value].concert == concert
  }

  function Recorded(room: Room, concert: string, now: int): Room {
    room.(joins := room.joins[concert := Prune(Joins(room, concert), now) + [now]])
  }

  /** joinWaitingRoom; `sid` and `wait` are the random values of this call. */
  function Join(room: Room, concert: string, existing: Option<string>, t: Clock, sid: string, wait: WaitMs,
                threshold: nat, force: bool): (Room, string) {
    if Resumes(room, concert, existing) then (room, existing.value)
    else
      var required := Required(room, concert, t.check, threshold, force);
      var recorded := Recorded(if force then room else Pruned(room, concert, t.check), concert, t.record);
      var s := if required then Session(concert, t.create, t.create + wait, false, true, None)
               else Session(concert, t.create, t.create, true, false, Some(t.create + TOKEN_TTL_MS));
      (recorded.(sessions := room.sessions[sid := s]), sid)
  }

  /** pollWaitingRoom; `token` is the clock when the token is made. */
  function Poll(room: Room, sid: string, now: int, token: int): Room {
    if sid in room.sessions && !room.sessions[sid].admitted && room.sessions[sid].required &&
         now >= room.sessions[sid].admitAt then
      room.(sessions := room.sessions[sid := room.sessions[sid].(admitted := true,
        tokenExpiresAt := Some(token + TOKEN_TTL_MS))])
    else room
  }

  lemma PruneStep(all: seq<int>, i: nat, now: int, done: seq<int>)
    requires i < |all|
    ensures done + Prune(all[i..], now) == (if now - all[i] < LOAD_WINDOW_MS then done + [all[i]] else done) +
              Prune(all[i + 1..], now)
  {
    assert all[i..][1..] == all[i + 1..];
    var rest := Prune(all[i + 1..], now);
    assert done + ([all[i]] + rest) == done + [all[i]] + rest;
    assert [] + rest == rest;
  }

  /** Of a set counted along a walk, the next element counts if it belongs. */
  lemma TakeOne(all: set<string>, rest: set<string>, id: string)
    requires id in rest
    ensures |all - (rest - {id})| == |all - rest| + if id in all then 1 else 0
  {
    assert all - (rest - {id}) == (all - rest) + if id in all then {id} else {};
  }

  // ------------------------------------------------------------------ the module's functions on its two maps

  class WaitingRoomModule {
    var sessions: map<string, Session>
    var joins: map<string, seq<int>>
    const threshold: nat
    const force: bool

    function View(): Room
      reads this
    {
      Room(sessions, joins)
    }

    method PruneJoinTimestamps(concert: string, now: int) returns (entries: seq<int>)
      modifies this`joins
      ensures View() == Pruned(old(View()), concert, now) && entries == joins[concert]
    {
      var all := if concert in joins then joins[concert] else [];
      entries := [];
      for i := 0 to |all|
        invariant joins == old(joins)
        invariant entries + Prune(all[i..], now) == Prune(all, now)
      {
        PruneStep(all, i, now, entries);
        if now - all[i] < LOAD_WINDOW_MS {
          entries := entries + [all[i]];
        }
      }
      assert all[|all|..] == [] && entries + [] == entries;
      joins := joins[concert := entries];
    }

    method CountActiveWaitingSessions(concert: string) returns (count: nat)
      ensures count == |WaitingSessions(sessions, concert)|
    {
      count := 0;
      var rest := sessions.Keys;
      ghost var all := WaitingSessions(sessions, concert);
      assert all - rest == {};
      while rest != {}
        invariant rest <= sessions.Keys
        invariant count == |all - rest|
      {
        var id :| id in rest;
        TakeOne(all, rest, id);
        rest := rest - {id};
        if sessions[id].concert == concert && !sessions[id].admitted && sessions[id].required {
          count := count + 1;
        }
      }
      assert all - rest == all;
    }

    method IsWaitingRoomRequired(concert: string, now: int) returns (required: bool)
      modifies this`joins
      ensures required == Required(old(View()), concert, now, threshold, force)
      ensures View() == if force then old(View()) else Pruned(old(View()), concert, now)
    {
      if force { return true; }
      var recentJoins := PruneJoinTimestamps(concert, now);
      var activeWaiting := CountActiveWaitingSessions(concert);
      return |recentJoins| + activeWaiting >= threshold;
    }

    method RecordJoin(concert: string, now: int)
      modifies this`joins
      ensures View() == Recorded(old(View()), concert, now)
    {
      var entries := PruneJoinTimestamps(concert, now);
      joins := joins[concert := entries + [now]];
    }

    method JoinWaitingRoom(concert: string, existing: Option<string>, t: Clock, sid: string, wait: WaitMs)
      returns (id: string, response: Response)
      modifies this
      ensures (View(), id) == Join(old(View()), concert, existing, t, sid, wait, threshold, force)
      ensures id in sessions && response == Respond(sessions, sessions[id], t.answer)
    {
      if existing.Some? && existing.value in sessions && sessions[existing.value].concert == concert {
        response := ToPollResponse(sessions[existing.value], t.answer);
        return existing.value, response;
      }
      var required := IsWaitingRoomRequired(concert, t.check);
      RecordJoin(concert, t.record);
      var s := if required then Session(concert, t.create, t.create + wait, false, true, None)
               else Session(concert, t.create, t.create, true, false, Some(t.create + TOKEN_TTL_MS));
      sessions := sessions[sid := s];
      response := ToPollResponse(s, t.answer);
      return sid, response;
    }

    method PollWaitingRoom(sid: string, now: int, token: int, answer: int) returns (response: Option<Response>)
      modifies this`sessions
      ensures View() == Poll(old(View()), sid, now, token)
      ensures response == if sid in sessions then Some(Respond(sessions, sessions[sid], answer)) else None
    {
      if sid !in sessions { return None; }
      var s := sessions[sid];
      if !s.admitted && s.required && now >= s.admitAt {
        s := s.(admitted := true, tokenExpiresAt := Some(token + TOKEN_TTL_MS));
        sessions := sessions[sid := s];
      }
      var r := ToPollResponse(s, answer);
      return Some(r);
    }

    method GetQueuePosition(s: Session) returns (position: nat)
      ensures position == Position(sessions, s)
    {
      position := 1;
      var rest := sessions.Keys;
      ghost var all := Ahead(sessions, s);
      assert all - rest == {};
      while rest != {}
        invariant rest <= sessions.Keys
        invariant position == 1 + |all - rest|
      {
        var id :| id in rest;
        TakeOne(all, rest, id);
        rest := rest - {id};
        var other := sessions[id];
        if other.concert == s.concert && other.required && !other.admitted {
          if other.admitAt < s.admitAt {
            position := position + 1;
          } else if other.admitAt == s.admitAt && other.createdAt < s.createdAt {
            position := position + 1;
          }
        }
      }
      assert all - rest == all;
    }

    method ToPollResponse(s: Session, now: int) returns (r: Response)
      ensures r == Respond(sessions, s, now)
    {
      if s.admitted && s.tokenExpiresAt.Some? { return Admitted(s.required, s.tokenExpiresAt.value); }
      if !s.required { return WaitingUnplaced; }
      var position := GetQueuePosition(s);
      return Waiting(true, position, SecondsLeft(s.admitAt - now));
    }
  }
}
