/** How two usable connections come to share a name: one is handed over, its old half frees the name, and a newcomer
    takes it (apps/chat/src/join.c:23-41, apps/chat/src/hiddenjoin.c:41-63, apps/chat/src/chat_factory.c:37-50);
    or one takes the other's name by a hidden join (apps/chat/src/chat_command.c:23-59). */
module NameCollision {
  import opened Bytes
  import opened Options
  import opened Sequences
  import opened AsyncRequest
  import opened Database
  import opened ChatWorker
  import opened RoomCounters
  import opened ChatSystem
  import opened NameExclusivity

  ghost predicate Reaches(s: System, run: seq<Step>, end: System)
  {
    Legal(s, run) && Run(s, run) == end
  }

  lemma StepReaches(s: System, step: Step, mid: System, rest: seq<Step>, end: System)
    requires Enabled(s, step) && Next(s, step) == mid && Reaches(mid, rest, end)
    ensures Reaches(s, [step] + rest, end)
  {
    assert ([step] + rest)[1..] == rest;
  }

  lemma {:induction false} ReachesOn(s: System, a: seq<Step>, mid: System, b: seq<Step>, end: System)
    requires Reaches(s, a, mid) && Reaches(mid, b, end)
    ensures Reaches(s, a + b, end)
    decreases a
  {
    if |a| == 0 {
      assert a + b == b;
    } else {
      assert (a + b)[0] == a[0] && (a + b)[1..] == a[1..] + b;
      ReachesOn(Next(s, a[0]), a[1..], mid, b, end);
    }
  }

  ghost predicate Leads(s: System, step: Step, end: System)
  {
    Enabled(s, step) && Next(s, step) == end
  }

  lemma FiveSteps(run: seq<Step>, a: System, b: System, c: System, d: System, e: System, f: System)
    requires |run| == 5 && Leads(a, run[0], b) && Leads(b, run[1], c) && Leads(c, run[2], d) && Leads(d, run[3], e)
             && Leads(e, run[4], f)
    ensures Reaches(a, run, f)
  {
    StepReaches(e, run[4], f, [], f);
    StepReaches(d, run[3], e, [run[4]], f);
    StepReaches(c, run[2], d, [run[3], run[4]], f);
    StepReaches(b, run[1], c, [run[2], run[3], run[4]], f);
    StepReaches(a, run[0], b, [run[1], run[2], run[3], run[4]], f);
    assert run == [run[0]] + [run[1], run[2], run[3], run[4]];
    assert [run[1]] + [run[2], run[3], run[4]] == [run[1], run[2], run[3], run[4]];
    assert [run[2]] + [run[3], run[4]] == [run[2], run[3], run[4]];
    assert [run[3]] + [run[4]] == [run[3], run[4]];
    assert [run[4]] + [] == [run[4]];
  }

  // ---------------------------------------------------------------- small steps

  function WithChat(s: System, p: int, t: nat, chat: Chat): System
    requires p in s.workers
  {
    s.(workers := s.workers[p := s.workers[p].(chats := s.workers[p].chats[t := chat])])
  }

  lemma DropLast<T>(s: seq<T>, x: T)
    ensures DropAt(s + [x], |s|) == s
  {
  }

  lemma DropOnly<T>(x: T)
    ensures DropAt([x], 0) == [] && [x][1..] == []
  {
  }

  /** The call a worker made last reaches the master when the worker has nothing else to post. */
  lemma Posts(s: System, before: seq<Call>, c: Call)
    requires s.outbox == before + [c] && s.inbox == [] && (forall d | d in before :: d.srcpid != c.srcpid)
    ensures Leads(s, Post(|before|), s.(outbox := before, inbox := [c]))
  {
    DropLast(before, c);
    assert forall j | 0 <= j < |before| :: s.outbox[j] in before;
    assert [] + [c] == [c];
  }

  /** The master serves the only call in its queue and answers it. */
  lemma Serves(s: System, c: Call)
    requires s.inbox == [c] && s.replies == []
    ensures var reply := Answer(s.db, c);
      Leads(s, ServeHead, s.(db := Apply(s.db, c.request), inbox := [],
                             replies := if reply.hook == NULL_HOOK then [] else [(c.srcpid, reply)]))
  {
    DropOnly(c);
    assert [] + [(c.srcpid, Answer(s.db, c))] == [(c.srcpid, Answer(s.db, c))];
  }

  // ---------------------------------------------------------------- logging in

  function Welcomed(name: seq<byte>): Chat { CONNECTED.(loggedIn := true, name := name) }

  /** Nothing of process p is on its way, and the master has nothing to serve or answer. */
  ghost predicate Calm(s: System, p: int)
  {
    && p in s.workers && s.workers[p].pid == p && s.inbox == [] && s.replies == []
    && (forall c | c in s.outbox :: c.srcpid != p)
  }

  function LogInSteps(p: int, t: nat, name: seq<byte>, ahead: nat): seq<Step>
  {
    [Connect(p, t), LoginLine(p, t, name), Post(ahead), ServeHead, Deliver(0)]
  }

  function LoggedInEnd(s: System, p: int, t: nat, name: seq<byte>): System
    requires p in s.workers
  {
    WithChat(s, p, t, Welcomed(name)).(db := s.db[NameKey(name) := name])
  }

  lemma Connects(s: System, p: int, t: nat)
    requires Calm(s, p) && t !in s.workers[p].chats
    ensures Leads(s, Connect(p, t), WithChat(s, p, t, CONNECTED.(onResponse := LoginHandler)))
  {
    assert s.outbox + [] == s.outbox;
  }

  lemma Asks(s: System, p: int, t: nat, name: seq<byte>)
    requires Calm(s, p) && t in s.workers[p].chats && s.workers[p].chats[t] == CONNECTED.(onResponse := LoginHandler)
    requires 0 < |name| < MAX_CHAT_USER_NAME_SIZE
    ensures var call := Call(p, t, LOGIN_HOOK, SetIfNull(NameKey(name), name));
      Leads(s, LoginLine(p, t, name), s.(outbox := s.outbox + [call]))
  {
    assert s.workers[p := s.workers[p]] == s.workers;
  }

  lemma Welcomes(s: System, p: int, t: nat, name: seq<byte>)
    requires p in s.workers && t in s.workers[p].chats
    requires s.workers[p].chats[t] == CONNECTED.(onResponse := LoginHandler)
    requires s.replies == [(p, Reply(LOGIN_HOOK, t, true, NameKey(name), Some(name)))] && name != []
    ensures Leads(s, Deliver(0), WithChat(s, p, t, Welcomed(name)).(replies := []))
  {
    DropOnly(s.replies[0]);
    assert s.outbox + [] == s.outbox;
  }

  /** Connecting and asking for a free name logs the chat in. */
  lemma LogsIn(s: System, p: int, t: nat, name: seq<byte>)
    requires Calm(s, p) && t !in s.workers[p].chats && NameKey(name) !in s.db && 0 < |name| < MAX_CHAT_USER_NAME_SIZE
    ensures Reaches(s, LogInSteps(p, t, name, |s.outbox|), LoggedInEnd(s, p, t, name))
  {
    var call := Call(p, t, LOGIN_HOOK, SetIfNull(NameKey(name), name));
    var a := WithChat(s, p, t, CONNECTED.(onResponse := LoginHandler));
    var b := a.(outbox := s.outbox + [call]);
    var c := a.(inbox := [call]);
    var d := a.(db := s.db[NameKey(name) := name],
                replies := [(p, Reply(LOGIN_HOOK, t, true, NameKey(name), Some(name)))]);
    Connects(s, p, t);
    Asks(a, p, t, name);
    Posts(b, s.outbox, call);
    ServesLogin(c, d, call, name);
    Welcomes(d, p, t, name);
    ChatTwice(s, p, t, CONNECTED.(onResponse := LoginHandler), Welcomed(name));
    FiveSteps(LogInSteps(p, t, name, |s.outbox|), s, a, b, c, d, LoggedInEnd(s, p, t, name));
  }

  lemma ServesLogin(s: System, end: System, call: Call, name: seq<byte>)
    requires s.inbox == [call] && s.replies == [] && call.hook == LOGIN_HOOK
             && call.request == SetIfNull(NameKey(name), name)
    requires NameKey(name) !in s.db
    requires end == s.(db := s.db[NameKey(name) := name], inbox := [],
                       replies := [(call.srcpid, Reply(LOGIN_HOOK, call.token, true, NameKey(name), Some(name)))])
    ensures Leads(s, ServeHead, end)
  {
    HooksDiffer();
    KeysDiffer(name, [], []);
    Serves(s, call);
  }

  lemma ChatTwice(s: System, p: int, t: nat, chat: Chat, later: Chat)
    requires p in s.workers
    ensures WithChat(WithChat(s, p, t, chat), p, t, later) == WithChat(s, p, t, later)
  {
    assert s.workers[p].chats[t := chat][t := later] == s.workers[p].chats[t := later];
    var w := s.workers[p].(chats := s.workers[p].chats[t := chat]);
    assert s.workers[p := w][p := w.(chats := w.chats[t := later])] == s.workers[p := w.(chats := w.chats[t := later])];
  }

  // ---------------------------------------------------------------- handing over

  function HandOverSteps(p: int, t: nat, room: seq<byte>, u: nat): seq<Step>
  {
    [AskJoin(p, t, room), Post(0), ServeHead, Deliver(0), Arrive(0, u)]
  }

  /** Chat t of process p is logged in and idle; q has the room, empty, and the table says so; nothing is on its way. */
  ghost predicate Ready(s: System, p: int, t: nat, q: int, u: nat, room: seq<byte>, name: seq<byte>)
  {
    && Calm(s, p) && s.outbox == [] && s.handovers == []
    && t in s.workers[p].chats && s.workers[p].chats[t] == Welcomed(name)
    && p != q && q in s.workers && s.workers[q].pid == q > 0 && u !in s.workers[q].chats
    && room in s.workers[q].rooms && s.workers[q].rooms[room] == [] && room != [] && name != []
    && Lookup(s.db, PidKey(room)) == Some(Decimal(q))
  }

  /** The arrived chat in its room. */
  function Guest(room: seq<byte>, name: seq<byte>): Chat
  {
    Welcomed(name).(room := Some(room), inRoom := true, onResponse := BroadcastHandler)
  }

  function HandedOver(s: System, p: int, t: nat, q: int, room: seq<byte>, name: seq<byte>): System
    requires p in s.workers
  {
    WithChat(s, p, t, Welcomed(name).(softQuit := true)).(handovers := [Handover(q, room, name)])
  }

  function HostWith(host: Worker, u: nat, room: seq<byte>, name: seq<byte>): Worker
  {
    host.(chats := host.chats[u := Guest(room, name)], rooms := host.rooms[room := [u]])
  }

  function HandedOverEnd(s: System, p: int, t: nat, q: int, u: nat, room: seq<byte>, name: seq<byte>): System
    requires p in s.workers && q in s.workers
  {
    var sent := HandedOver(s, p, t, q, room, name);
    sent.(handovers := [], outbox := CountCalls(q, room, 0, 1),
          workers := sent.workers[q := HostWith(s.workers[q], u, room, name)])
  }

  lemma AsksForRoom(s: System, p: int, t: nat, q: int, u: nat, room: seq<byte>, name: seq<byte>)
    requires Ready(s, p, t, q, u, room, name)
    ensures Leads(s, AskJoin(p, t, room), s.(outbox := [Call(p, t, ROOM_PID_HOOK, Get(PidKey(room)))]))
  {
    assert s.workers[p := s.workers[p]] == s.workers;
    assert [] + [Call(p, t, ROOM_PID_HOOK, Get(PidKey(room)))] == [Call(p, t, ROOM_PID_HOOK, Get(PidKey(room)))];
  }

  lemma FindsRoom(w: Worker, t: nat, q: int, room: seq<byte>)
    requires Reachable(w, t) && q > 0 && q != w.pid && room != []
    ensures RoomLookup(w, Reply(ROOM_PID_HOOK, t, true, PidKey(room), Some(Decimal(q)))) == Elsewhere(q, room)
  {
    assert PidKey(room)[|ROOM_PID_KEY|..] == room;
    DecimalRoundTrip(q);
  }

  lemma SendsAway(s: System, p: int, t: nat, q: int, u: nat, room: seq<byte>, name: seq<byte>)
    requires Ready(s.(replies := []), p, t, q, u, room, name)
    requires s.replies == [(p, Reply(ROOM_PID_HOOK, t, true, PidKey(room), Some(Decimal(q))))]
    ensures Leads(s, Deliver(0), HandedOver(s, p, t, q, room, name).(replies := []))
  {
    HooksDiffer();
    FindsRoom(s.workers[p], t, q, room);
    DropOnly(s.replies[0]);
    assert s.outbox + [] == s.outbox;
    assert [] + [Handover(q, room, name)] == [Handover(q, room, name)];
  }

  lemma TakenIn(host: Worker, u: nat, room: seq<byte>, name: seq<byte>)
    requires u !in host.chats && room in host.rooms && host.rooms[room] == [] && room != [] && name != []
    ensures Arrived(host, u, Handover(host.pid, room, name))
         == Effect(HostWith(host, u, room, name), CountCalls(host.pid, room, 0, 1))
  {
    var newcomer := host.(chats := host.chats[u := Welcomed(name)]);
    assert newcomer.chats[u := Guest(room, name)] == host.chats[u := Guest(room, name)];
    assert [] + [u] == [u];
    assert [] + CountCalls(host.pid, room, 0, 1) == CountCalls(host.pid, room, 0, 1);
  }

  lemma Arrives(s: System, q: int, u: nat, room: seq<byte>, name: seq<byte>)
    requires q in s.workers && s.workers[q].pid == q && u !in s.workers[q].chats && room != [] && name != []
    requires room in s.workers[q].rooms && s.workers[q].rooms[room] == []
    requires s.handovers == [Handover(q, room, name)] && s.outbox == []
    ensures Leads(s, Arrive(0, u), s.(handovers := [], outbox := CountCalls(q, room, 0, 1),
                                      workers := s.workers[q := HostWith(s.workers[q], u, room, name)]))
  {
    DropOnly(s.handovers[0]);
    TakenIn(s.workers[q], u, room, name);
    assert [] + CountCalls(q, room, 0, 1) == CountCalls(q, room, 0, 1);
  }

  lemma HandsItOver(s: System, p: int, t: nat, q: int, u: nat, room: seq<byte>, name: seq<byte>)
    requires Ready(s, p, t, q, u, room, name)
    ensures Reaches(s, HandOverSteps(p, t, room, u), HandedOverEnd(s, p, t, q, u, room, name))
  {
    var call := Call(p, t, ROOM_PID_HOOK, Get(PidKey(room)));
    var a, b := s.(outbox := [call]), s.(inbox := [call]);
    var c := s.(replies := [(p, Reply(ROOM_PID_HOOK, t, true, PidKey(room), Some(Decimal(q))))]);
    var d := HandedOver(s, p, t, q, room, name);
    AsksForRoom(s, p, t, q, u, room, name);
    assert [] + [call] == [call];
    Posts(a, [], call);
    HooksDiffer();
    Serves(b, call);
    SendsAway(c, p, t, q, u, room, name);
    Arrives(d, q, u, room, name);
    FiveSteps(HandOverSteps(p, t, room, u), s, a, b, c, d, HandedOverEnd(s, p, t, q, u, room, name));
  }

  // ---------------------------------------------------------------- freeing the old half

  function FreeSteps(p: int, t: nat, ahead: nat): seq<Step> { [Free(p, t), Post(ahead), ServeHead] }

  function WithoutChat(s: System, p: int, t: nat): System
    requires p in s.workers
  {
    s.(workers := s.workers[p := s.workers[p].(chats := s.workers[p].chats - {t})])
  }

  lemma ClosesQuietly(w: Worker, t: nat, name: seq<byte>)
    requires t in w.chats && w.chats[t] == Welcomed(name).(softQuit := true) && name != []
    ensures Freed(w, t) == Effect(w.(chats := w.chats - {t}), [Quiet(w.pid, Unset(NameKey(name)))])
  {
    assert [] + [Quiet(w.pid, Unset(NameKey(name)))] == [Quiet(w.pid, Unset(NameKey(name)))];
    var off := w.chats[t].(loggedIn := false);
    assert w.chats[t := w.chats[t]][t := off] - {t} == w.chats - {t};
  }

  /** Freeing a chat that was handed over gives its name back to the table. */
  lemma FreesName(s: System, p: int, t: nat, name: seq<byte>)
    requires Calm(s, p) && t in s.workers[p].chats && s.workers[p].chats[t] == Welcomed(name).(softQuit := true)
             && name != []
    ensures Reaches(s, FreeSteps(p, t, |s.outbox|), WithoutChat(s, p, t).(db := s.db - {NameKey(name)}))
  {
    var call := Quiet(p, Unset(NameKey(name)));
    var a, b := WithoutChat(s, p, t).(outbox := s.outbox + [call]), WithoutChat(s, p, t).(inbox := [call]);
    var end := WithoutChat(s, p, t).(db := s.db - {NameKey(name)});
    ClosesQuietly(s.workers[p], t, name);
    assert Leads(s, Free(p, t), a);
    Posts(a, s.outbox, call);
    KeysDiffer(name, [], []);
    assert Listener(NULL_HOOK) == NULL_HOOK by { assert |NULL_HOOK| == 4; }
    Serves(b, call);
    StepReaches(b, ServeHead, end, [], end);
    StepReaches(a, Post(|s.outbox|), b, [ServeHead], end);
    StepReaches(s, Free(p, t), a, [Post(|s.outbox|), ServeHead], end);
    assert FreeSteps(p, t, |s.outbox|) == [Free(p, t)] + ([Post(|s.outbox|)] + ([ServeHead] + []));
  }

  // ---------------------------------------------------------------- the collision

  /** A user logs in at p and joins a room of q; the connection is handed over, the old half is freed,
      and another user connects to p and asks for the same name. */
  function CollisionRun(p: int, q: int, room: seq<byte>, name: seq<byte>): seq<Step>
  {
    LogInSteps(p, 0, name, 0) + (HandOverSteps(p, 0, room, 0) + (FreeSteps(p, 0, 2) + LogInSteps(p, 0, name, 2)))
  }

  /** An initial state in which process q has a room, the table says so, and the name is free. */
  ghost predicate Opening(s: System, p: int, q: int, room: seq<byte>, name: seq<byte>)
  {
    && Initial(s) && p in s.workers && q in s.workers && p != q && q > 0 && room in s.workers[q].rooms
    && Lookup(s.db, PidKey(room)) == Some(Decimal(q)) && NameKey(name) !in s.db && 0 < |name| < MAX_CHAT_USER_NAME_SIZE
  }

  function CollisionEnd(s: System, p: int, q: int, room: seq<byte>, name: seq<byte>): System
    requires p in s.workers && q in s.workers
  {
    var first := HandedOverEnd(LoggedInEnd(s, p, 0, name), p, 0, q, 0, room, name);
    LoggedInEnd(WithoutChat(first, p, 0).(db := first.db - {NameKey(name)}), p, 0, name)
  }

  lemma CountCallsTwo(q: int, room: seq<byte>)
    requires room != []
    ensures |CountCalls(q, room, 0, 1)| == 2 && forall c | c in CountCalls(q, room, 0, 1) :: c.srcpid == q
  {
  }

  lemma CollisionHappens(s: System, p: int, q: int, room: seq<byte>, name: seq<byte>)
    requires Opening(s, p, q, room, name)
    ensures Reaches(s, CollisionRun(p, q, room, name), CollisionEnd(s, p, q, room, name))
  {
    var a := LoggedInEnd(s, p, 0, name);
    var b := HandedOverEnd(a, p, 0, q, 0, room, name);
    var c := WithoutChat(b, p, 0).(db := b.db - {NameKey(name)});
    var end := CollisionEnd(s, p, q, room, name);
    KeysDiffer(name, [], room);
    LogsIn(s, p, 0, name);
    HandsItOver(a, p, 0, q, 0, room, name);
    CountCallsTwo(q, room);
    FreesName(b, p, 0, name);
    LogsIn(c, p, 0, name);
    ReachesOn(b, FreeSteps(p, 0, 2), c, LogInSteps(p, 0, name, 2), end);
    ReachesOn(a, HandOverSteps(p, 0, room, 0), b, FreeSteps(p, 0, 2) + LogInSteps(p, 0, name, 2), end);
    ReachesOn(s, LogInSteps(p, 0, name, 0), a,
              HandOverSteps(p, 0, room, 0) + (FreeSteps(p, 0, 2) + LogInSteps(p, 0, name, 2)), end);
  }

  /** From every initial state with a room in another process, for every free name: after this run
      two connections that can both be reached are logged in under the name. */
  lemma NamesCollide(s: System, p: int, q: int, room: seq<byte>, name: seq<byte>)
    requires Opening(s, p, q, room, name)
    ensures var run := CollisionRun(p, q, room, name);
      && Legal(s, run) && p in Run(s, run).workers && q in Run(s, run).workers
      && var end := Run(s, run);
         && Reachable(end.workers[p], 0) && LoggedInAs(end.workers[p], 0, name)
         && Reachable(end.workers[q], 0) && LoggedInAs(end.workers[q], 0, name)
         && !Exclusive(end)
  {
    CollisionHappens(s, p, q, room, name);
    var end := CollisionEnd(s, p, q, room, name);
    assert (p, 0) in LoggedIn(end, name) && (q, 0) in LoggedIn(end, name);
    TwoOfThem(LoggedIn(end, name), (p, 0), (q, 0));
    assert name != [] && Holders(end, name) >= 2;
  }

  // ---------------------------------------------------------------- taking a name by a hidden join

  /** A user logs in at p and another one at q, and the second sends a hidden join with the name of the first. */
  function RenamingRun(p: int, q: int, name: seq<byte>, other: seq<byte>, room: seq<byte>): seq<Step>
  {
    LogInSteps(p, 0, name, 0) + (LogInSteps(q, 1, other, 0) + [HiddenJoinLine(q, 1, room, name)])
  }

  /** Two names that are free. */
  ghost predicate BothFree(s: System, p: int, q: int, name: seq<byte>, other: seq<byte>)
  {
    && Initial(s) && p in s.workers && q in s.workers && name != other
    && NameKey(name) !in s.db && 0 < |name| < MAX_CHAT_USER_NAME_SIZE
    && NameKey(other) !in s.db && 0 < |other| < MAX_CHAT_USER_NAME_SIZE
  }

  function TwoUsers(s: System, p: int, q: int, name: seq<byte>, other: seq<byte>): System
    requires p in s.workers && q in s.workers
  {
    LoggedInEnd(LoggedInEnd(s, p, 0, name), q, 1, other)
  }

  lemma BothLogIn(s: System, p: int, q: int, name: seq<byte>, other: seq<byte>)
    requires BothFree(s, p, q, name, other)
    ensures Reaches(s, LogInSteps(p, 0, name, 0) + LogInSteps(q, 1, other, 0), TwoUsers(s, p, q, name, other))
    ensures Inv(TwoUsers(s, p, q, name, other))
    ensures var mid := TwoUsers(s, p, q, name, other);
      && Reachable(mid.workers[p], 0) && LoggedInAs(mid.workers[p], 0, name)
      && Reachable(mid.workers[q], 1) && LoggedInAs(mid.workers[q], 1, other)
  {
    var a, end := LoggedInEnd(s, p, 0, name), TwoUsers(s, p, q, name, other);
    if NameKey(other) == NameKey(name) {
      NameKeyInjective(other, name);
    }
    LogsIn(s, p, 0, name);
    LogsIn(a, q, 1, other);
    ReachesOn(s, LogInSteps(p, 0, name, 0), a, LogInSteps(q, 1, other, 0), end);
    InitialInv(s);
    RunsKeepInv(s, LogInSteps(p, 0, name, 0) + LogInSteps(q, 1, other, 0));
  }

  /** From every initial state, in one process or in two, for every two free names and whatever room is named:
      no connection is handed over or arrives in this run, and two that can be reached end up with one name. */
  lemma NamesCollideInPlace(s: System, p: int, q: int, name: seq<byte>, other: seq<byte>, room: seq<byte>)
    requires BothFree(s, p, q, name, other) && room != []
    ensures var run := RenamingRun(p, q, name, other, room);
      && Legal(s, run) && (forall step | step in run :: !step.Arrive? && !step.AskJoin?)
      && p in Run(s, run).workers && q in Run(s, run).workers
      && var end := Run(s, run);
         && Reachable(end.workers[p], 0) && LoggedInAs(end.workers[p], 0, name)
         && Reachable(end.workers[q], 1) && LoggedInAs(end.workers[q], 1, name)
         && !Exclusive(end)
  {
    var mid := TwoUsers(s, p, q, name, other);
    var logins := LogInSteps(p, 0, name, 0) + LogInSteps(q, 1, other, 0);
    BothLogIn(s, p, q, name, other);
    TakesTheName(mid, p, q, name, room);
    Finishes(s, logins, mid, HiddenJoinLine(q, 1, room, name));
    StaysAtHome(p, q, name, other, room);
    assert logins + [HiddenJoinLine(q, 1, room, name)] == RenamingRun(p, q, name, other, room);
  }

  lemma StaysAtHome(p: int, q: int, name: seq<byte>, other: seq<byte>, room: seq<byte>)
    ensures forall step | step in RenamingRun(p, q, name, other, room) :: !step.Arrive? && !step.AskJoin?
  {
  }

  lemma Finishes(s: System, run: seq<Step>, mid: System, step: Step)
    requires Reaches(s, run, mid) && Enabled(mid, step)
    ensures Reaches(s, run + [step], Next(mid, step))
  {
    StepReaches(mid, step, Next(mid, step), [], Next(mid, step));
    ReachesOn(s, run, mid, [step], Next(mid, step));
    assert [step] + [] == [step];
  }

  /** The last step of that run. */
  lemma TakesTheName(mid: System, p: int, q: int, name: seq<byte>, room: seq<byte>)
    requires Inv(mid) && p in mid.workers && q in mid.workers && name != [] && room != []
    requires Reachable(mid.workers[p], 0) && LoggedInAs(mid.workers[p], 0, name)
    requires Reachable(mid.workers[q], 1) && mid.workers[q].chats[1].loggedIn
    ensures Enabled(mid, HiddenJoinLine(q, 1, room, name))
    ensures var end := Next(mid, HiddenJoinLine(q, 1, room, name));
      && p in end.workers && q in end.workers
      && Reachable(end.workers[p], 0) && LoggedInAs(end.workers[p], 0, name)
      && Reachable(end.workers[q], 1) && LoggedInAs(end.workers[q], 1, name)
      && !Exclusive(end)
  {
    assert ChatOk(mid.workers[q], 1);
    HiddenJoinDuplicatesName(mid, q, 1, room, p, 0, name);
    HiddenJoinReachable(mid.workers[q], 1, room, name, 1);
    HiddenJoinReachable(mid.workers[q], 1, room, name, 0);
    assert Holders(Next(mid, HiddenJoinLine(q, 1, room, name)), name) >= 2;
  }

  lemma HiddenJoinReachable(w: Worker, u: nat, room: seq<byte>, name: seq<byte>, t: nat)
    requires MembershipOk(w) && u in w.chats && w.chats[u].loggedIn
    ensures ChatOk(w, u)
    ensures Reachable(HiddenJoin(w, u, w.chats[u], room, name).after, t) == Reachable(w, t)
  {
    assert ChatOk(w, u);
    if room != [] && name != [] {
      var named := w.chats[u].(loggedIn := true, name := name);
      PutKeepsMembership(w, u, named);
      JoinFrame(Marked(w, u, named).after, u, room);
    }
  }

  // ---------------------------------------------------------------- a concrete start

  /** Process 1 has no room, process 2 has room "A", and nobody is connected. */
  function TwoWorkers(): System
  {
    System(map[PidKey([65]) := Decimal(2)], [], [], [], [],
           map[1 := Worker(1, map[], map[]), 2 := Worker(2, map[], map[[65] := []])])
  }

  lemma TwoWorkersOpen()
    ensures Opening(TwoWorkers(), 1, 2, [65], [110])
  {
    forall r
      ensures Lookup(TwoWorkers().db, CountKey(r)) == None
    {
      KeysDiffer([], r, [65]);
    }
    KeysDiffer([110], [], [65]);
  }

  /** Users "n" and "m" of process 1, where the second names a room of the other process. */
  lemma OneWorkerCollides(s: System)
    requires s == TwoWorkers()
    ensures Legal(s, RenamingRun(1, 1, [110], [109], [65])) && !Exclusive(Run(s, RenamingRun(1, 1, [110], [109], [65])))
  {
    TwoWorkersOpen();
    KeysDiffer([109], [], [65]);
    NamesCollideInPlace(s, 1, 1, [110], [109], [65]);
  }

  /** The run of user "n" from that state. */
  lemma TwoWorkersCollide(s: System)
    requires s == TwoWorkers()
    ensures Initial(s) && Legal(s, CollisionRun(1, 2, [65], [110]))
            && !Exclusive(Run(s, CollisionRun(1, 2, [65], [110])))
  {
    TwoWorkersOpen();
    NamesCollide(s, 1, 2, [65], [110]);
  }
}
