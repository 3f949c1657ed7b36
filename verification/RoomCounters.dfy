/** The user counts in the database follow the user lists of the rooms. */
module RoomCounters {
  import opened Bytes
  import opened Options
  import opened AsyncRequest
  import opened Database
  import opened ChatWorker

  /** What the database says about a room with n users: nothing, or n in decimal. */
  function CountText(n: nat): Option<seq<byte>> { if n == 0 then None else Some(Decimal(n)) }

  function Requests(calls: seq<Call>): (rs: seq<Request>)
    ensures |rs| == |calls|
  {
    seq(|calls|, i requires 0 <= i < |calls| => calls[i].request)
  }

  /** The table once these calls have been served in order. */
  function Served(db: Table, calls: seq<Call>): Table { ApplyAll(db, Requests(calls)) }

  lemma ServedAppend(db: Table, a: seq<Call>, b: seq<Call>)
    ensures Served(db, a + b) == Served(Served(db, a), b)
  {
    assert Requests(a + b) == Requests(a) + Requests(b);
    ApplyAllAppend(db, Requests(a), Requests(b));
  }

  lemma ServedCons(db: Table, calls: seq<Call>)
    requires |calls| > 0
    ensures Served(db, calls) == Served(Apply(db, calls[0].request), calls[1..])
  {
    assert Requests(calls)[1..] == Requests(calls[1..]);
  }

  lemma ServedNothing(db: Table)
    ensures Served(db, []) == db
  {
  }

  lemma ServedOne(db: Table, c: Call)
    ensures Served(db, [c]) == Apply(db, c.request)
  {
    ServedCons(db, [c]);
    assert [c][1..] == [];
  }

  // ---------------------------------------------------------------- keys

  lemma KeysDiffer(name: seq<byte>, r: seq<byte>, q: seq<byte>)
    ensures NameKey(name) != CountKey(r) && NameKey(name) != PidKey(q) && CountKey(r) != PidKey(q)
    ensures NameKey(name) != [] && CountKey(r) != [] && PidKey(q) != []
  {
    assert NameKey(name)[0] == 117 && CountKey(r)[0] == 114 && PidKey(q)[0] == 114;
    assert CountKey(r)[5] == 117 && PidKey(q)[5] == 112;
  }

  lemma NameKeyInjective(a: seq<byte>, b: seq<byte>)
    requires NameKey(a) == NameKey(b)
    ensures a == b
  {
    assert NameKey(a)[|USER_PREFIX|..] == a && NameKey(b)[|USER_PREFIX|..] == b;
  }

  lemma CountKeyInjective(a: seq<byte>, b: seq<byte>)
    requires CountKey(a) == CountKey(b)
    ensures a == b
  {
    assert CountKey(a)[|ROOM_USER_KEY|..] == a && CountKey(b)[|ROOM_USER_KEY|..] == b;
  }

  // ---------------------------------------------------------------- one increment

  lemma ApplyTwo(db: Table, a: Request, b: Request)
    ensures ApplyAll(db, [a, b]) == Apply(Apply(db, a), b)
  {
    assert [a, b][1..] == [b];
    ApplyOne(Apply(db, a), b);
  }

  lemma ApplyOne(db: Table, a: Request)
    ensures ApplyAll(db, [a]) == Apply(db, a)
  {
    assert [a][1..] == [];
  }

  /** Counting any number of users up or down, or one again: the requests turn the text of the old count into that of
      the new one. When the count is announced a second time, the set-if-null and the compare-and-swap both fail. */
  lemma IncrementEffect(db: Table, key: seq<byte>, have: nat, value: int, increment: int)
    requires key != [] && Lookup(db, key) == CountText(have)
    requires (value == have && value + increment >= 0) || (increment == 1 && value == have - 1 && value >= 0)
    ensures Lookup(ApplyAll(db, IncrementRequests(key, value, increment)), key) == CountText(value + increment)
    ensures forall r | r in IncrementRequests(key, value, increment) :: r.key == key
    ensures increment == 1 && value == have - 1 ==> ApplyAll(db, IncrementRequests(key, value, increment)) == db
  {
    var next := value + increment;
    if next == 0 {
      ApplyOne(db, Unset(key));
    } else {
      if Decimal(value) == Decimal(next) {
        DecimalInjective(value, next);
      }
      if Decimal(0) == Decimal(next) {
        DecimalInjective(0, next);
      }
      if value == 0 {
        ApplyTwo(db, SetIfNull(key, Decimal(next)), Cas(key, Decimal(next), Decimal(0)));
      } else {
        ApplyOne(db, Cas(key, Decimal(next), Decimal(value)));
      }
    }
  }

  // ---------------------------------------------------------------- a worker's rooms

  /** The table agrees with a worker's rooms. */
  ghost predicate CountersOk(db: Table, w: Worker)
  {
    forall r | r in w.rooms :: Lookup(db, CountKey(r)) == CountText(|w.rooms[r]|)
  }

  /** The calls change no key but the counts of this worker's rooms. */
  ghost predicate OnlyCounts(db: Table, after: Table, w: Worker)
  {
    forall k | !(exists r :: r in w.rooms && k == CountKey(r)) :: Lookup(after, k) == Lookup(db, k)
  }

  /** An announcement speaks of the count of this room only, and nobody waits for an answer to it. */
  lemma CountCallsMean(pid: int, room: seq<byte>, value: int, increment: int)
    ensures forall c | c in CountCalls(pid, room, value, increment) ::
      c == Call(pid, -1, Ascii("null"), c.request) && c.request.key == Ascii("room/user/") + room
  {
  }

  lemma CountCallsEffect(db: Table, w: Worker, room: seq<byte>, have: nat, value: int, increment: int)
    requires room in w.rooms && room != []
    requires Lookup(db, CountKey(room)) == CountText(have)
    requires (increment == 1 && (value == have || value == have - 1) && value >= 0)
          || (increment == -1 && value == have > 0)
    ensures var after := Served(db, CountCalls(w.pid, room, value, increment));
      && Lookup(after, CountKey(room)) == CountText(value + increment)
      && (forall k | k != CountKey(room) :: Lookup(after, k) == Lookup(db, k))
      && (increment == 1 && value == have - 1 ==> after == db)
  {
    var rs := IncrementRequests(CountKey(room), value, increment);
    assert Requests(QuietCalls(w.pid, rs)) == rs;
    KeysDiffer([], room, []);
    IncrementEffect(db, CountKey(room), have, value, increment);
    forall k | k != CountKey(room)
      ensures Lookup(ApplyAll(db, rs), k) == Lookup(db, k)
    {
      OtherKeysKeepValue(db, rs, k);
    }
  }

  /** One room's count changes with its list; everything else stays. */
  lemma OneRoomCounted(db: Table, after: Table, w: Worker, w': Worker, room: seq<byte>)
    requires CountersOk(db, w) && room in w.rooms && w'.rooms.Keys == w.rooms.Keys
    requires forall r | r in w.rooms && r != room :: w'.rooms[r] == w.rooms[r]
    requires Lookup(after, CountKey(room)) == CountText(|w'.rooms[room]|)
    requires forall k | k != CountKey(room) :: Lookup(after, k) == Lookup(db, k)
    ensures CountersOk(after, w') && OnlyCounts(db, after, w)
  {
    forall r | r in w'.rooms
      ensures Lookup(after, CountKey(r)) == CountText(|w'.rooms[r]|)
    {
      if CountKey(r) == CountKey(room) {
        CountKeyInjective(r, room);
      }
    }
  }

  lemma LeaveCounts(db: Table, w: Worker, t: nat)
    requires MembershipOk(w) && CountersOk(db, w) && t in w.chats
    ensures ChatOk(w, t)
    ensures CountersOk(Served(db, Leave(w, t).sent), Leave(w, t).after)
    ensures OnlyCounts(db, Served(db, Leave(w, t).sent), w)
    ensures Leave(w, t).after.rooms.Keys == w.rooms.Keys && Leave(w, t).after.pid == w.pid
  {
    LeaveKeepsMembership(w, t);
    if w.chats[t].room.Some? {
      var room := w.chats[t].room.value;
      assert RoomOk(w, room);
      var n := |w.rooms[room]|;
      CountCallsEffect(db, w, room, n, n, -1);
      OneRoomCounted(db, Served(db, Leave(w, t).sent), w, Leave(w, t).after, room);
    }
  }

  lemma EnterCounts(db: Table, w: Worker, t: nat, room: seq<byte>)
    requires MembershipOk(w) && CountersOk(db, w) && t in w.chats && room in w.rooms
    ensures var after := Served(db, CountCalls(w.pid, room, |w.rooms[room]|, 1));
      CountersOk(after, Enter(w, t, room)) && OnlyCounts(db, after, w)
  {
    assert RoomOk(w, room);
    var n := |w.rooms[room]|;
    CountCallsEffect(db, w, room, n, n, 1);
    OneRoomCounted(db, Served(db, CountCalls(w.pid, room, n, 1)), w, Enter(w, t, room), room);
  }

  /** A join keeps the agreement in every branch: refused, repeated, first room, or switching rooms. */
  lemma JoinCounts(db: Table, w: Worker, t: nat, room: seq<byte>)
    requires MembershipOk(w) && CountersOk(db, w) && t in w.chats
    ensures ChatOk(w, t)
    ensures CountersOk(Served(db, Join(w, t, room).sent), Join(w, t, room).after)
    ensures OnlyCounts(db, Served(db, Join(w, t, room).sent), w)
    ensures w.chats[t].room == Some(room) ==> Served(db, Join(w, t, room).sent) == db
    ensures Join(w, t, room).after.rooms.Keys == w.rooms.Keys && Join(w, t, room).after.pid == w.pid
  {
    assert ChatOk(w, t);
    ServedNothing(db);
    if w.chats[t].loggedIn && room in w.rooms && |w.rooms[room]| < MAX_CHAT_ROOM_USER {
      if w.chats[t].room == Some(room) {
        RejoinCounts(db, w, t, room);
      } else {
        SwitchCounts(db, w, t, room);
      }
    }
  }

  /** A join that takes place is announced: the table ends up with one user more in the room
      and one less in the room that was left. */
  lemma JoinIsAnnounced(db: Table, w: Worker, t: nat, room: seq<byte>)
    requires MembershipOk(w) && CountersOk(db, w) && t in w.chats
    requires MayJoin(w, t, room) && w.chats[t].room != Some(room)
    ensures ChatOk(w, t)
    ensures var after := Served(db, Join(w, t, room).sent);
      && Lookup(after, CountKey(room)) == Some(Decimal(|w.rooms[room]| + 1))
      && forall r | r in w.rooms && r != room ::
           Lookup(after, CountKey(r)) == CountText(|w.rooms[r]| - if w.chats[t].room == Some(r) then 1 else 0)
  {
    JoinCounts(db, w, t, room);
    JoinPutsIn(w, t, room);
    forall r | r in w.rooms
      ensures w.chats[t].room == Some(r) ==> |w.rooms[r]| > 0
    {
      assert ChatOk(w, t);
    }
  }

  lemma RejoinCounts(db: Table, w: Worker, t: nat, room: seq<byte>)
    requires MembershipOk(w) && CountersOk(db, w) && t in w.chats && w.chats[t].room == Some(room)
    ensures ChatOk(w, t) && |w.rooms[room]| > 0
    ensures Served(db, CountCalls(w.pid, room, |w.rooms[room]| - 1, 1)) == db
  {
    assert ChatOk(w, t) && RoomOk(w, room);
    var n := |w.rooms[room]|;
    CountCallsEffect(db, w, room, n, n - 1, 1);
  }

  lemma SwitchCounts(db: Table, w: Worker, t: nat, room: seq<byte>)
    requires MembershipOk(w) && CountersOk(db, w) && t in w.chats && room in w.rooms && w.chats[t].room != Some(room)
    ensures ChatOk(w, t)
    ensures var left := Leave(w, t);
      var after := Served(db, left.sent + CountCalls(w.pid, room, |left.after.rooms[room]|, 1));
      CountersOk(after, Enter(left.after, t, room)) && OnlyCounts(db, after, w)
  {
    var left := Leave(w, t);
    LeaveKeepsMembership(w, t);
    LeaveCounts(db, w, t);
    var entered := CountCalls(w.pid, room, |left.after.rooms[room]|, 1);
    EnterCounts(Served(db, left.sent), left.after, t, room);
    ServedAppend(db, left.sent, entered);
    OnlyCountsTwice(db, Served(db, left.sent), Served(db, left.sent + entered), w, left.after);
  }

  lemma OnlyCountsTwice(db: Table, mid: Table, after: Table, w: Worker, w': Worker)
    requires OnlyCounts(db, mid, w) && OnlyCounts(mid, after, w') && w'.rooms.Keys == w.rooms.Keys
    ensures OnlyCounts(db, after, w)
  {
  }

  /** Giving a name back changes no key but the name's. */
  lemma LogoffServed(db: Table, w: Worker, t: nat)
    requires t in w.chats
    ensures forall k | k != NameKey(w.chats[t].name) :: Lookup(Served(db, Logoff(w, t).sent), k) == Lookup(db, k)
    ensures CountersOk(db, w) ==> CountersOk(Served(db, Logoff(w, t).sent), Logoff(w, t).after)
  {
    if w.chats[t].name != [] {
      ServedOne(db, Logoff(w, t).sent[0]);
      forall r | r in w.rooms
        ensures NameKey(w.chats[t].name) != CountKey(r)
      {
        KeysDiffer(w.chats[t].name, r, []);
      }
    }
  }
}
