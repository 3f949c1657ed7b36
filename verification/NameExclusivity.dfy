/** A login name belongs to one connection at a time, as long as no connection takes one without asking for it. */
module NameExclusivity {
  import opened Bytes
  import opened Options
  import opened Sequences
  import opened AsyncRequest
  import opened Database
  import opened ChatWorker
  import opened RoomCounters
  import opened ChatSystem

  // ---------------------------------------------------------------- who holds a name

  predicate LoggedInAs(w: Worker, t: nat, name: seq<byte>)
  {
    t in w.chats && w.chats[t].loggedIn && w.chats[t].name == name
  }

  /** The logged-in chats of that name, over all processes. */
  ghost function LoggedIn(s: System, name: seq<byte>): set<(int, nat)>
  {
    set p, t | p in s.workers && t in s.workers[p].chats && LoggedInAs(s.workers[p], t, name) :: (p, t)
  }

  /** A reply that will log its receiver in under the name. */
  predicate IsGrant(r: (int, Reply), name: seq<byte>)
  {
    r.1.hook == LOGIN_HOOK && r.1.success && r.1.newval == Some(name)
  }

  function Grants(replies: seq<(int, Reply)>, name: seq<byte>): nat
  {
    if |replies| == 0 then 0 else (if IsGrant(replies[0], name) then 1 else 0) + Grants(replies[1..], name)
  }

  /** Calls that give the name back. */
  function Unsets(calls: seq<Call>, name: seq<byte>): nat
  {
    if |calls| == 0 then 0 else (if calls[0].request == Unset(NameKey(name)) then 1 else 0) + Unsets(calls[1..], name)
  }

  ghost function Holders(s: System, name: seq<byte>): nat
  {
    |LoggedIn(s, name)| + Grants(s.replies, name) + Unsets(s.outbox, name) + Unsets(s.inbox, name)
  }

  /** A call that asks for a login asks for the key of the very name it carries. */
  predicate LoginShaped(c: Call)
  {
    c.hook == LOGIN_HOOK ==> c.request.SetIfNull? && c.request.key == NameKey(c.request.newval)
  }

  /** Each name has at most one holder, and while it has one its key is taken. */
  ghost predicate Exclusive(s: System)
  {
    && (forall c | c in s.outbox + s.inbox :: LoginShaped(c))
    && (forall name | name != [] :: Holders(s, name) <= 1 && (Holders(s, name) == 1 ==> NameKey(name) in s.db))
  }

  // ---------------------------------------------------------------- counting

  lemma {:induction false} GrantsAppend(a: seq<(int, Reply)>, b: seq<(int, Reply)>, name: seq<byte>)
    ensures Grants(a + b, name) == Grants(a, name) + Grants(b, name)
  {
    if |a| == 0 {
      assert a + b == b;
    } else {
      assert (a + b)[0] == a[0] && (a + b)[1..] == a[1..] + b;
      GrantsAppend(a[1..], b, name);
    }
  }

  lemma {:induction false} UnsetsAppend(a: seq<Call>, b: seq<Call>, name: seq<byte>)
    ensures Unsets(a + b, name) == Unsets(a, name) + Unsets(b, name)
  {
    if |a| == 0 {
      assert a + b == b;
    } else {
      assert (a + b)[0] == a[0] && (a + b)[1..] == a[1..] + b;
      UnsetsAppend(a[1..], b, name);
    }
  }

  lemma GrantsWithout(replies: seq<(int, Reply)>, i: nat, name: seq<byte>)
    requires i < |replies|
    ensures Grants(replies, name) == Grants(DropAt(replies, i), name) + if IsGrant(replies[i], name) then 1 else 0
  {
    TakeDrop(replies, i);
    DropHead(replies, i);
    GrantsAppend(replies[..i], replies[i..], name);
    GrantsAppend(replies[..i], replies[i + 1..], name);
  }

  lemma {:induction false} NoUnsets(calls: seq<Call>, name: seq<byte>)
    requires forall c | c in calls :: c.request != Unset(NameKey(name))
    ensures Unsets(calls, name) == 0
  {
    if |calls| > 0 {
      assert calls[0] in calls;
      NoUnsets(calls[1..], name);
    }
  }

  /** One element more or less. */
  lemma SetsDifferInOne<T>(a: set<T>, b: set<T>, x: T)
    requires forall y | y != x :: y in a <==> y in b
    ensures |b| == |a| - (if x in a then 1 else 0) + (if x in b then 1 else 0)
  {
    assert a - {x} == b - {x};
    assert |a - {x}| == |a| - if x in a then 1 else 0;
    assert |b - {x}| == |b| - if x in b then 1 else 0;
  }

  // ---------------------------------------------------------------- one worker's operation

  /** A name held by the chat before is held by it afterwards or on its way back in the calls sent; nothing else is. */
  ghost predicate Conserves(w: Worker, t: nat, e: Effect, name: seq<byte>)
  {
    (if LoggedInAs(e.after, t, name) then 1 else 0) + Unsets(e.sent, name) == if LoggedInAs(w, t, name) then 1 else 0
  }

  /** Only chat t may appear, change or vanish, and login calls are well shaped. */
  ghost predicate Tidy(w: Worker, t: nat, e: Effect)
  {
    && (forall u, name | u != t :: LoggedInAs(e.after, u, name) == LoggedInAs(w, u, name))
    && (forall c | c in e.sent :: LoginShaped(c))
  }

  ghost predicate ConservesAll(w: Worker, t: nat, e: Effect)
  {
    Tidy(w, t, e) && forall name | name != [] :: Conserves(w, t, e, name)
  }

  lemma WorkerStepHolders(s: System, p: int, t: nat, e: Effect, name: seq<byte>)
    requires p in s.workers && Tidy(s.workers[p], t, e)
    ensures Holders(WorkerStep(s, p, e), name) == Holders(s, name) + Unsets(e.sent, name)
      - (if LoggedInAs(s.workers[p], t, name) then 1 else 0) + (if LoggedInAs(e.after, t, name) then 1 else 0)
  {
    var after := WorkerStep(s, p, e);
    UnsetsAppend(s.outbox, e.sent, name);
    SetsDifferInOne(LoggedIn(s, name), LoggedIn(after, name), (p, t));
  }

  lemma WorkerStepKeepsExclusive(s: System, p: int, t: nat, e: Effect)
    requires Exclusive(s) && p in s.workers && ConservesAll(s.workers[p], t, e)
    ensures Exclusive(WorkerStep(s, p, e))
  {
    forall name | name != []
      ensures Holders(WorkerStep(s, p, e), name) == Holders(s, name)
    {
      WorkerStepHolders(s, p, t, e, name);
      assert Conserves(s.workers[p], t, e, name);
    }
  }

  /** Count announcements concern no name and no login. */
  lemma CountCallsHarmless(pid: int, room: seq<byte>, value: int, increment: int)
    ensures forall c | c in CountCalls(pid, room, value, increment) :: LoginShaped(c)
    ensures forall name :: Unsets(CountCalls(pid, room, value, increment), name) == 0
  {
    var calls := CountCalls(pid, room, value, increment);
    HooksDiffer();
    forall name
      ensures Unsets(calls, name) == 0
    {
      KeysDiffer(name, room, []);
      NoUnsets(calls, name);
    }
  }

  lemma HooksDiffer()
    ensures LOGIN_HOOK != NULL_HOOK && ROOM_PID_HOOK != LOGIN_HOOK && ROOM_PID_HOOK != NULL_HOOK
    ensures LOGIN_HOOK != [] && ROOM_PID_HOOK != []
  {
    assert |LOGIN_HOOK| == 18 && |NULL_HOOK| == 4 && |ROOM_PID_HOOK| == 21;
  }

  /** Entering and leaving rooms moves no names. */
  lemma LeaveConserves(w: Worker, t: nat)
    requires MembershipOk(w) && t in w.chats
    ensures ChatOk(w, t) && ConservesAll(w, t, Leave(w, t))
    ensures forall name :: Unsets(Leave(w, t).sent, name) == 0
  {
    LeaveFrame(w, t);
    if w.chats[t].room.Some? {
      CountCallsHarmless(w.pid, w.chats[t].room.value, |Leave(w, t).after.rooms[w.chats[t].room.value]| + 1, -1);
    }
  }

  lemma JoinConserves(w: Worker, t: nat, room: seq<byte>)
    requires MembershipOk(w) && t in w.chats
    ensures ChatOk(w, t) && ConservesAll(w, t, Join(w, t, room))
  {
    JoinFrame(w, t, room);
    var e := Join(w, t, room);
    LeaveConserves(w, t);
    if e.sent != [] {
      var count := |e.after.rooms[room]| - 1;
      var left := if w.chats[t].room == Some(room) then [] else Leave(w, t).sent;
      assert e.sent == left + CountCalls(w.pid, room, count, 1);
      CountCallsHarmless(w.pid, room, count, 1);
      forall name
        ensures Unsets(e.sent, name) == 0
      {
        UnsetsAppend(left, CountCalls(w.pid, room, count, 1), name);
      }
    }
  }

  lemma UnsetOne(pid: int, mine: seq<byte>, name: seq<byte>)
    ensures Unsets([Quiet(pid, Unset(NameKey(mine)))], name) == if name == mine then 1 else 0
  {
    if NameKey(name) == NameKey(mine) {
      NameKeyInjective(name, mine);
    }
    var calls := [Quiet(pid, Unset(NameKey(mine)))];
    assert Unsets(calls, name) == (if calls[0].request == Unset(NameKey(name)) then 1 else 0) + Unsets([], name);
  }

  /** Logging off a logged-in chat turns its claim into an unset. */
  lemma LogoffConserves(w: Worker, t: nat)
    requires t in w.chats && w.chats[t].loggedIn
    ensures ConservesAll(w, t, Logoff(w, t))
  {
    HooksDiffer();
    forall name | name != []
      ensures Conserves(w, t, Logoff(w, t), name)
    {
      UnsetOne(w.pid, w.chats[t].name, name);
    }
  }

  lemma ConservesTwice(w: Worker, t: nat, e: Effect, f: Effect)
    requires ConservesAll(w, t, e) && ConservesAll(e.after, t, f)
    ensures ConservesAll(w, t, Effect(f.after, e.sent + f.sent))
  {
    forall name | name != []
      ensures Conserves(w, t, Effect(f.after, e.sent + f.sent), name)
    {
      assert Conserves(w, t, e, name) && Conserves(e.after, t, f, name);
      UnsetsAppend(e.sent, f.sent, name);
    }
  }

  lemma MarkConserves(w: Worker, t: nat, chat: Chat)
    requires t in w.chats && chat.loggedIn == w.chats[t].loggedIn && chat.name == w.chats[t].name
    ensures ConservesAll(w, t, Marked(w, t, chat))
  {
  }

  lemma CloseConserves(w: Worker, t: nat)
    requires MembershipOk(w) && t in w.chats
    ensures ChatOk(w, t) && ConservesAll(w, t, Close(w, t))
  {
    assert ChatOk(w, t);
    var chat := w.chats[t];
    var mark := Marked(w, t, if chat.softQuit || chat.quit then chat else chat.(quit := true));
    MarkConserves(w, t, mark.after.chats[t]);
    RecordKeepsMembership(w, t, mark.after.chats[t]);
    var left := if chat.inRoom then Leave(mark.after, t) else Effect(mark.after, []);
    if chat.inRoom {
      LeaveConserves(mark.after, t);
      LeaveFrame(mark.after, t);
    }
    ConservesTwice(w, t, mark, left);
    assert [] + left.sent == left.sent;
    if chat.loggedIn {
      LogoffConserves(left.after, t);
      ConservesTwice(w, t, left, Logoff(left.after, t));
    }
  }

  lemma QuitConserves(w: Worker, t: nat)
    requires MembershipOk(w) && t in w.chats && w.chats[t].loggedIn
    ensures ChatOk(w, t) && ConservesAll(w, t, Quit(w, t))
  {
    LeaveConserves(w, t);
    LeaveFrame(w, t);
    var left := Leave(w, t);
    var mark := Marked(left.after, t, left.after.chats[t].(quit := true));
    MarkConserves(left.after, t, mark.after.chats[t]);
    ConservesTwice(w, t, left, mark);
    assert left.sent + [] == left.sent;
    LogoffConserves(mark.after, t);
    ConservesTwice(w, t, Effect(mark.after, left.sent), Logoff(mark.after, t));
  }

  lemma FreedConserves(w: Worker, t: nat)
    requires MembershipOk(w) && t in w.chats
    ensures ChatOk(w, t) && ConservesAll(w, t, Freed(w, t))
  {
    CloseConserves(w, t);
    CloseKeepsMembership(w, t);
    var closed := Close(w, t);
    forall name | name != []
      ensures Conserves(w, t, Freed(w, t), name)
    {
      assert Conserves(w, t, closed, name);
    }
    forall u, name | u != t
      ensures LoggedInAs(Freed(w, t).after, u, name) == LoggedInAs(w, u, name)
    {
      assert LoggedInAs(closed.after, u, name) == LoggedInAs(w, u, name);
    }
  }

  // ---------------------------------------------------------------- master and replies

  /** Serving the head of the queue: an unset takes the key away together with its claim,
      and only a name nobody holds can be granted. */
  lemma ServeKeepsExclusive(s: System)
    requires Exclusive(s) && Enabled(s, ServeHead)
    ensures Exclusive(Next(s, ServeHead))
  {
    var c, after := s.inbox[0], Next(s, ServeHead);
    var reply := Answer(s.db, c);
    var news := if reply.hook == NULL_HOOK then [] else [(c.srcpid, reply)];
    assert c in s.outbox + s.inbox && LoginShaped(c);
    forall d | d in after.outbox + after.inbox
      ensures LoginShaped(d)
    {
      assert d in s.outbox + s.inbox;
    }
    HooksDiffer();
    forall name | name != []
      ensures Holders(after, name) <= 1 && (Holders(after, name) == 1 ==> NameKey(name) in after.db)
    {
      GrantsAppend(s.replies, news, name);
      OneGrant(c.srcpid, reply, name);
      assert LoggedIn(after, name) == LoggedIn(s, name);
      KeysDiffer(name, [], []);
      if c.request.key != [] {
        ServeMeaning(s.db, c.request);
      }
      assert Holders(s, name) <= 1 && (Holders(s, name) == 1 ==> NameKey(name) in s.db);
    }
  }

  lemma OneGrant(pid: int, reply: Reply, name: seq<byte>)
    ensures Grants([(pid, reply)], name) == if IsGrant((pid, reply), name) then 1 else 0
  {
    var one := [(pid, reply)];
    assert Grants(one, name) == (if IsGrant(one[0], name) then 1 else 0) + Grants([], name);
  }

  /** Delivering a grant moves the claim from the reply to the chat, or drops it with the chat. */
  lemma LoginReplyKeepsExclusive(s: System, i: nat)
    requires Exclusive(s) && Enabled(s, Deliver(i)) && s.replies[i].1.hook == LOGIN_HOOK
    ensures Exclusive(Next(s, Deliver(i)))
  {
    var p, reply := s.replies[i].0, s.replies[i].1;
    var w := s.workers[p];
    var rest := s.(replies := DropAt(s.replies, i));
    var granted := if reply.newval.Some? then reply.newval.value else [];
    var e := Effect(LoginReply(w, reply.token, reply.success, granted), []);
    var t := if reply.token >= 0 then reply.token else 0;
    forall name | name != []
      ensures Holders(Next(s, Deliver(i)), name) <= Holders(s, name)
    {
      GrantsWithout(s.replies, i, name);
      assert LoggedIn(rest, name) == LoggedIn(s, name);
      WorkerStepHolders(rest, p, t, e, name);
    }
  }

  lemma RestKeepsExclusive(s: System, i: nat)
    requires Exclusive(s) && i < |s.replies|
    ensures Exclusive(s.(replies := DropAt(s.replies, i)))
  {
    var rest := s.(replies := DropAt(s.replies, i));
    forall name | name != []
      ensures Holders(rest, name) <= Holders(s, name)
    {
      GrantsWithout(s.replies, i, name);
      assert LoggedIn(rest, name) == LoggedIn(s, name);
    }
  }

  /** Handing a connection over leaves the login where it is. */
  lemma HandOverConserves(w: Worker, t: nat)
    requires MembershipOk(w) && t in w.chats
    ensures ChatOk(w, t) && ConservesAll(w, t, HandOver(w, t))
  {
    LeaveConserves(w, t);
    LeaveFrame(w, t);
    var left := Leave(w, t);
    var mark := Marked(left.after, t, left.after.chats[t].(softQuit := true));
    MarkConserves(left.after, t, mark.after.chats[t]);
    ConservesTwice(w, t, left, mark);
    assert left.sent + [] == left.sent;
  }

  lemma DeliverKeepsExclusive(s: System, i: nat)
    requires Inv(s) && Exclusive(s) && Enabled(s, Deliver(i))
    ensures Exclusive(Next(s, Deliver(i)))
  {
    var p, reply := s.replies[i].0, s.replies[i].1;
    var w, rest := s.workers[p], s.(replies := DropAt(s.replies, i));
    HooksDiffer();
    if reply.hook == LOGIN_HOOK {
      LoginReplyKeepsExclusive(s, i);
    } else {
      RestKeepsExclusive(s, i);
      if reply.hook == ROOM_PID_HOOK {
        match RoomLookup(w, reply) {
          case NotFound =>
          case Here(room) =>
            JoinConserves(w, reply.token, room);
            WorkerStepKeepsExclusive(rest, p, reply.token, Join(w, reply.token, room));
          case Elsewhere(pid, room) =>
            HandOverConserves(w, reply.token);
            var sent := rest.(handovers := rest.handovers + [Handover(pid, room, w.chats[reply.token].name)]);
            SameHolders(rest, sent);
            WorkerStepKeepsExclusive(sent, p, reply.token, HandOver(w, reply.token));
        }
      }
    }
  }

  lemma SameHolders(s: System, after: System)
    requires after == s.(handovers := after.handovers)
    ensures forall name :: Holders(after, name) == Holders(s, name)
    ensures Exclusive(after) <==> Exclusive(s)
  {
    forall name
      ensures LoggedIn(after, name) == LoggedIn(s, name)
    {
    }
  }

  /** A call that reaches the master's queue is the same claim in another place. */
  lemma PostKeepsExclusive(s: System, i: nat)
    requires Exclusive(s) && i < |s.outbox|
    ensures Exclusive(Posted(s, i))
  {
    var after, c := Posted(s, i), s.outbox[i];
    TakeDrop(s.outbox, i);
    DropHead(s.outbox, i);
    forall d | d in after.outbox + after.inbox
      ensures LoginShaped(d)
    {
      assert d in s.outbox + s.inbox;
    }
    forall name | name != []
      ensures Holders(after, name) == Holders(s, name)
    {
      assert LoggedIn(after, name) == LoggedIn(s, name);
      UnsetsAppend(s.outbox[..i], s.outbox[i..], name);
      UnsetsAppend(s.outbox[..i], s.outbox[i + 1..], name);
      UnsetsAppend(s.inbox, [c], name);
      assert Unsets([c], name) == (if c.request == Unset(NameKey(name)) then 1 else 0) + Unsets([], name);
    }
  }

  lemma AskConserves(w: Worker, t: nat, c: Call)
    requires LoginShaped(c) && !c.request.Unset?
    ensures ConservesAll(w, t, Effect(w, [c]))
  {
    forall name
      ensures Unsets([c], name) == 0
    {
      NoUnsets([c], name);
    }
  }

  lemma LoginLineConserves(w: Worker, t: nat, name: seq<byte>)
    ensures ConservesAll(w, t, AskName(w, t, name))
  {
    if name != [] && |name| < MAX_CHAT_USER_NAME_SIZE {
      AskConserves(w, t, AskName(w, t, name).sent[0]);
    }
  }

  lemma AskJoinConserves(w: Worker, t: nat, room: seq<byte>)
    ensures ConservesAll(w, t, Effect(w, [Call(w.pid, t, ROOM_PID_HOOK, Get(PidKey(room)))]))
  {
    HooksDiffer();
    AskConserves(w, t, Call(w.pid, t, ROOM_PID_HOOK, Get(PidKey(room))));
  }

  // ---------------------------------------------------------------- names taken without asking

  /** The operation gives nothing back, and chat t, logged in as `was` before, is logged in as `now` afterwards;
      the empty name stands for no login. */
  ghost predicate Renames(w: Worker, t: nat, e: Effect, was: seq<byte>, now: seq<byte>)
  {
    && Tidy(w, t, e)
    && (forall name | name != [] :: Unsets(e.sent, name) == 0)
    && (forall name | name != [] :: LoggedInAs(w, t, name) == (name == was))
    && (forall name | name != [] :: LoggedInAs(e.after, t, name) == (name == now))
  }

  /** Nobody holds the name though its key is taken. */
  ghost predicate LeftBehind(s: System, name: seq<byte>)
  {
    Holders(s, name) == 0 && NameKey(name) in s.db
  }

  lemma RenamingKeepsExclusiveIff(s: System, p: int, t: nat, e: Effect, was: seq<byte>, now: seq<byte>)
    requires Exclusive(s) && p in s.workers && Renames(s.workers[p], t, e, was, now)
    ensures Exclusive(WorkerStep(s, p, e)) <==> now == [] || now == was || LeftBehind(s, now)
  {
    var after := WorkerStep(s, p, e);
    forall name | name != []
      ensures Holders(after, name) == Holders(s, name) - (if name == was then 1 else 0) + (if name == now then 1 else 0)
    {
      WorkerStepHolders(s, p, t, e, name);
    }
    forall c | c in after.outbox + after.inbox
      ensures LoginShaped(c)
    {
      assert c in s.outbox + s.inbox || c in e.sent;
    }
    if now != [] && Exclusive(after) {
      assert Holders(after, now) <= 1 && (Holders(after, now) == 1 ==> NameKey(now) in after.db);
    }
  }

  /** The name a chat is logged in under after a hidden join. */
  function HiddenName(chat: Chat, room: seq<byte>, name: seq<byte>): seq<byte>
  {
    if room == [] || name == [] then chat.name else name
  }

  lemma HiddenJoinRenames(w: Worker, t: nat, chat: Chat, room: seq<byte>, name: seq<byte>, was: seq<byte>)
    requires MembershipOk(w) && Replaces(w, t, chat) && (chat.room.Some? ==> chat.room.value in w.rooms)
    requires forall n | n != [] :: LoggedInAs(w, t, n) == (n == was)
    ensures Renames(w, t, HiddenJoin(w, t, chat, room, name), was, HiddenName(chat, room, name))
  {
    if room != [] && name != [] {
      var named := Marked(w, t, chat.(loggedIn := true, name := name)).after;
      var e := Join(named, t, room);
      PutKeepsMembership(w, t, named.chats[t]);
      JoinConserves(named, t, room);
      JoinFrame(named, t, room);
      forall n | n != []
        ensures Unsets(e.sent, n) == 0
      {
        assert Conserves(named, t, e, n);
      }
    }
  }

  /** The name under which an arriving connection is logged in without asking. */
  function ArrivingName(h: Handover): seq<byte> { HiddenName(CONNECTED, h.room, h.name) }

  /** The name a connection takes in this step without asking the table for it; empty if none. */
  ghost function NameTaken(s: System, step: Step): seq<byte>
    requires Enabled(s, step)
  {
    match step
    case Arrive(i, _) => ArrivingName(s.handovers[i])
    case HiddenJoinLine(p, t, room, name) =>
      var chat := s.workers[p].chats[t];
      if HiddenName(chat, room, name) == chat.name then [] else HiddenName(chat, room, name)
    case _ => []
  }

  /** A step is harmless when it takes no name unasked, or one that nobody holds though its key is taken. */
  ghost predicate Harmless(s: System, step: Step)
    requires Enabled(s, step)
  {
    NameTaken(s, step) == [] || LeftBehind(s, NameTaken(s, step))
  }

  /** The arrival of a connection keeps names exclusive exactly when it brings no name,
      or one that nobody holds though its key is taken. */
  lemma ArrivalKeepsExclusiveIff(s: System, i: nat, t: nat)
    requires Inv(s) && Exclusive(s) && Enabled(s, Arrive(i, t))
    ensures var name := ArrivingName(s.handovers[i]);
      Exclusive(Next(s, Arrive(i, t))) <==> name == [] || LeftBehind(s, name)
    ensures Exclusive(Next(s, Arrive(i, t))) <==> Harmless(s, Arrive(i, t))
  {
    var h := s.handovers[i];
    var rest := s.(handovers := DropAt(s.handovers, i));
    SameHolders(s, rest);
    HiddenJoinRenames(s.workers[h.dest], t, CONNECTED, h.room, h.name, []);
    RenamingKeepsExclusiveIff(rest, h.dest, t, Arrived(s.workers[h.dest], t, h), [], ArrivingName(h));
  }

  /** The hidden join from a client's line keeps names exclusive exactly when the chat ends up without a name
      or with the one it had, or with one that nobody holds though its key is taken. */
  lemma HiddenJoinKeepsExclusiveIff(s: System, p: int, t: nat, room: seq<byte>, name: seq<byte>)
    requires Inv(s) && Exclusive(s) && Enabled(s, HiddenJoinLine(p, t, room, name))
    ensures var chat := s.workers[p].chats[t];
      var now := HiddenName(chat, room, name);
      Exclusive(Next(s, HiddenJoinLine(p, t, room, name))) <==> now == chat.name || LeftBehind(s, now)
    ensures Exclusive(Next(s, HiddenJoinLine(p, t, room, name))) <==> Harmless(s, HiddenJoinLine(p, t, room, name))
  {
    var w := s.workers[p];
    var chat := w.chats[t];
    HiddenJoinRenames(w, t, chat, room, name, chat.name);
    RenamingKeepsExclusiveIff(s, p, t, HiddenJoin(w, t, chat, room, name), chat.name, HiddenName(chat, room, name));
  }

  /** Every step that takes no name unasked keeps names exclusive, handing a connection over included. */
  lemma PlainStepKeepsExclusive(s: System, step: Step)
    requires Inv(s) && Exclusive(s) && Enabled(s, step) && !step.Arrive? && !step.HiddenJoinLine?
    ensures Exclusive(Next(s, step))
  {
    match step {
      case Connect(p, t) =>
        WorkerStepKeepsExclusive(s, p, t, Marked(s.workers[p], t, CONNECTED.(onResponse := LoginHandler)));
      case LoginLine(p, t, name) =>
        LoginLineConserves(s.workers[p], t, name);
        WorkerStepKeepsExclusive(s, p, t, AskName(s.workers[p], t, name));
      case AskJoin(p, t, room) =>
        AskJoinConserves(s.workers[p], t, room);
        var ask := Call(s.workers[p].pid, t, ROOM_PID_HOOK, Get(PidKey(room)));
        WorkerStepKeepsExclusive(s, p, t, Effect(s.workers[p], [ask]));
      case LeaveCommand(p, t) =>
        LeaveConserves(s.workers[p], t);
        WorkerStepKeepsExclusive(s, p, t, Leave(s.workers[p], t));
      case QuitCommand(p, t) =>
        QuitConserves(s.workers[p], t);
        WorkerStepKeepsExclusive(s, p, t, Quit(s.workers[p], t));
      case CloseChat(p, t) =>
        CloseConserves(s.workers[p], t);
        WorkerStepKeepsExclusive(s, p, t, Close(s.workers[p], t));
      case SendFails(p, t) =>
        MarkConserves(s.workers[p], t, s.workers[p].chats[t].(softQuit := true));
        WorkerStepKeepsExclusive(s, p, t, Marked(s.workers[p], t, s.workers[p].chats[t].(softQuit := true)));
      case Bury(p, t) =>
        MarkConserves(s.workers[p], t, s.workers[p].chats[t].(zombie := true));
        WorkerStepKeepsExclusive(s, p, t, Marked(s.workers[p], t, s.workers[p].chats[t].(zombie := true)));
      case Free(p, t) =>
        FreedConserves(s.workers[p], t);
        WorkerStepKeepsExclusive(s, p, t, Freed(s.workers[p], t));
      case Post(i) =>
        PostKeepsExclusive(s, i);
      case ServeHead =>
        ServeKeepsExclusive(s);
      case Deliver(i) =>
        DeliverKeepsExclusive(s, i);
    }
  }

  /** Any step keeps names exclusive exactly when it is harmless. */
  lemma StepKeepsExclusiveIff(s: System, step: Step)
    requires Inv(s) && Exclusive(s) && Enabled(s, step)
    ensures Exclusive(Next(s, step)) <==> Harmless(s, step)
  {
    if step.Arrive? {
      ArrivalKeepsExclusiveIff(s, step.i, step.t);
    } else if step.HiddenJoinLine? {
      HiddenJoinKeepsExclusiveIff(s, step.p, step.t, step.room, step.name);
    } else {
      PlainStepKeepsExclusive(s, step);
      assert NameTaken(s, step) == [];
    }
  }

  // ---------------------------------------------------------------- runs

  /** Names are exclusive before and after every step of the run. */
  ghost predicate AlwaysExclusive(s: System, run: seq<Step>)
    requires Legal(s, run)
    decreases run
  {
    Exclusive(s) && (|run| > 0 ==> AlwaysExclusive(Next(s, run[0]), run[1..]))
  }

  /** Every step of the run is harmless when it happens. */
  ghost predicate HarmlessRun(s: System, run: seq<Step>)
    requires Legal(s, run)
    decreases run
  {
    |run| > 0 ==> Harmless(s, run[0]) && HarmlessRun(Next(s, run[0]), run[1..])
  }

  /** Names stay exclusive throughout a run exactly when all its steps are harmless. */
  lemma {:induction false} AlwaysExclusiveIff(s: System, run: seq<Step>)
    requires Inv(s) && Exclusive(s) && Legal(s, run)
    ensures AlwaysExclusive(s, run) <==> HarmlessRun(s, run)
    decreases run
  {
    if |run| > 0 {
      StepKeepsInv(s, run[0]);
      StepKeepsExclusiveIff(s, run[0]);
      if Exclusive(Next(s, run[0])) {
        AlwaysExclusiveIff(Next(s, run[0]), run[1..]);
      }
    }
  }

  /** No connection takes a name in the run without asking for it. */
  ghost predicate NoNameTaken(s: System, run: seq<Step>)
    requires Legal(s, run)
    decreases run
  {
    |run| > 0 ==> NameTaken(s, run[0]) == [] && NoNameTaken(Next(s, run[0]), run[1..])
  }

  lemma {:induction false} NoNameTakenIsHarmless(s: System, run: seq<Step>)
    requires Legal(s, run) && NoNameTaken(s, run)
    ensures HarmlessRun(s, run)
    decreases run
  {
    if |run| > 0 {
      NoNameTakenIsHarmless(Next(s, run[0]), run[1..]);
    }
  }

  lemma {:induction false} ExclusiveAtEnd(s: System, run: seq<Step>)
    requires Legal(s, run) && AlwaysExclusive(s, run)
    ensures Exclusive(Run(s, run))
    decreases run
  {
    if |run| > 0 {
      ExclusiveAtEnd(Next(s, run[0]), run[1..]);
    }
  }

  lemma InitialExclusive(s: System)
    requires Initial(s)
    ensures Exclusive(s)
  {
    forall name
      ensures LoggedIn(s, name) == {}
    {
    }
  }

  /** Over all interleavings of harmless steps, two logged-in chats never share a name, and the name's key is taken. */
  lemma NamesExclusiveIfHarmless(s: System, run: seq<Step>, p: int, t: nat, q: int, u: nat, name: seq<byte>)
    requires Initial(s) && Legal(s, run) && HarmlessRun(s, run) && name != []
    requires p in Run(s, run).workers && LoggedInAs(Run(s, run).workers[p], t, name)
    requires q in Run(s, run).workers && LoggedInAs(Run(s, run).workers[q], u, name)
    ensures (p, t) == (q, u) && NameKey(name) in Run(s, run).db
  {
    InitialInv(s);
    InitialExclusive(s);
    AlwaysExclusiveIff(s, run);
    ExclusiveAtEnd(s, run);
    var end := Run(s, run);
    var holders := LoggedIn(end, name);
    assert (p, t) in holders && (q, u) in holders;
    assert Holders(end, name) <= 1;
    AtMostOne(holders, (p, t), (q, u));
  }

  /** In particular over all runs in which connections may be handed over but none takes a name without asking. */
  lemma NamesAreExclusive(s: System, run: seq<Step>, p: int, t: nat, q: int, u: nat, name: seq<byte>)
    requires Initial(s) && Legal(s, run) && NoNameTaken(s, run) && name != []
    requires p in Run(s, run).workers && LoggedInAs(Run(s, run).workers[p], t, name)
    requires q in Run(s, run).workers && LoggedInAs(Run(s, run).workers[q], u, name)
    ensures (p, t) == (q, u) && NameKey(name) in Run(s, run).db
  {
    NoNameTakenIsHarmless(s, run);
    NamesExclusiveIfHarmless(s, run, p, t, q, u, name);
  }

  lemma AtMostOne<T>(s: set<T>, x: T, y: T)
    requires x in s && y in s && |s| <= 1
    ensures x == y && |s| == 1
  {
    assert |s - {x}| == |s| - 1;
    assert y == x || y in s - {x};
  }

  // ---------------------------------------------------------------- handovers break it

  /** Handing a logged-in connection over sends its name along and leaves it logged in here. */
  lemma HandoverKeepsLogin(s: System, i: nat, name: seq<byte>)
    requires Inv(s) && Enabled(s, Deliver(i)) && HandsOver(s, Deliver(i))
    requires LoggedInAs(s.workers[s.replies[i].0], s.replies[i].1.token, name)
    ensures var sent, p := Next(s, Deliver(i)), s.replies[i].0;
      && |sent.handovers| == |s.handovers| + 1 && ArrivingName(sent.handovers[|s.handovers|]) == name
      && sent.handovers[|s.handovers|].dest != p
      && p in sent.workers && LoggedInAs(sent.workers[p], s.replies[i].1.token, name)
  {
    LeaveFrame(s.workers[s.replies[i].0], s.replies[i].1.token);
  }

  lemma TwoOfThem<T>(s: set<T>, x: T, y: T)
    requires x in s && y in s && x != y
    ensures |s| >= 2
  {
    assert |s - {x}| == |s| - 1 && y in s - {x};
  }

  lemma TakenTwice(s: System, q: int, u: nat, e: Effect, was: seq<byte>, p: int, t: nat, name: seq<byte>)
    requires q in s.workers && Renames(s.workers[q], u, e, was, name) && name != []
    requires p in s.workers && LoggedInAs(s.workers[p], t, name) && (p, t) != (q, u)
    ensures var end := WorkerStep(s, q, e);
      && LoggedInAs(end.workers[p], t, name) && LoggedInAs(end.workers[q], u, name)
      && |LoggedIn(end, name)| >= 2
  {
    var end := WorkerStep(s, q, e);
    assert LoggedInAs(end.workers[p], t, name) && LoggedInAs(end.workers[q], u, name);
    assert (p, t) in LoggedIn(end, name) && (q, u) in LoggedIn(end, name);
    TwoOfThem(LoggedIn(end, name), (p, t), (q, u));
  }

  /** Whenever a connection arrives under a name that somebody is logged in with, two are logged in under it. */
  lemma HandoverDuplicatesName(s: System, i: nat, u: nat, p: int, t: nat, name: seq<byte>)
    requires Inv(s) && Enabled(s, Arrive(i, u)) && name != [] && ArrivingName(s.handovers[i]) == name
    requires p in s.workers && LoggedInAs(s.workers[p], t, name)
    ensures var end, q := Next(s, Arrive(i, u)), s.handovers[i].dest;
      && (p, t) != (q, u) && LoggedInAs(end.workers[p], t, name) && LoggedInAs(end.workers[q], u, name)
      && |LoggedIn(end, name)| >= 2
  {
    var q, rest := s.handovers[i].dest, s.(handovers := DropAt(s.handovers, i));
    HiddenJoinRenames(s.workers[q], u, CONNECTED, s.handovers[i].room, s.handovers[i].name, []);
    TakenTwice(rest, q, u, Arrived(s.workers[q], u, s.handovers[i]), [], p, t, name);
  }

  /** Likewise when a client takes such a name by a hidden join. */
  lemma HiddenJoinDuplicatesName(s: System, q: int, u: nat, room: seq<byte>, p: int, t: nat, name: seq<byte>)
    requires Inv(s) && Enabled(s, HiddenJoinLine(q, u, room, name)) && room != [] && name != []
    requires p in s.workers && LoggedInAs(s.workers[p], t, name) && (p, t) != (q, u)
    ensures var end := Next(s, HiddenJoinLine(q, u, room, name));
      && LoggedInAs(end.workers[p], t, name) && LoggedInAs(end.workers[q], u, name)
      && |LoggedIn(end, name)| >= 2
  {
    var chat := s.workers[q].chats[u];
    HiddenJoinRenames(s.workers[q], u, chat, room, name, chat.name);
    TakenTwice(s, q, u, HiddenJoin(s.workers[q], u, chat, room, name), chat.name, p, t, name);
  }

  /** When the old process then frees its half, the calls it sends free the name while the newcomer still uses it. */
  lemma HandoverFreesName(s: System, p: int, t: nat, q: int, u: nat, name: seq<byte>)
    requires Inv(s) && p != q && name != []
    requires p in s.workers && LoggedInAs(s.workers[p], t, name) && Enabled(s, Free(p, t))
    requires q in s.workers && LoggedInAs(s.workers[q], u, name)
    ensures LoggedInAs(Next(s, Free(p, t)).workers[q], u, name)
    ensures NameKey(name) !in Effective(Next(s, Free(p, t)), p)
  {
    var w := s.workers[p];
    var closed := Close(w, t);
    assert ChatOk(w, t);
    var chat := w.chats[t];
    var marked := w.(chats := w.chats[t := if chat.softQuit || chat.quit then chat else chat.(quit := true)]);
    var left := if w.chats[t].inRoom then Leave(marked, t) else Effect(marked, []);
    var unset := Quiet(w.pid, Unset(NameKey(name)));
    assert closed.sent == left.sent + [unset];
    CloseSound(Effective(s, p), w, t);
    WorkerStepEffective(s, p, Freed(w, t), p);
    ServedAppend(Effective(s, p), left.sent, [unset]);
    ServedOne(Served(Effective(s, p), left.sent), unset);
    KeysDiffer(name, [], []);
  }
}
