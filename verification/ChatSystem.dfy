/** Master and workers together: every interleaving of their steps with calls, replies and handovers in flight. */
module ChatSystem {
  import opened Bytes
  import opened Options
  import opened Sequences
  import opened AsyncRequest
  import opened Database
  import opened ChatWorker
  import opened RoomCounters

  /** A connection on its way to another process (apps/chat/src/join.c:23-41). */
  datatype Handover = Handover(dest: int, room: seq<byte>, name: seq<byte>)

  /** The master's table, the calls the workers have made and those that have reached the master's queue,
      the replies and handovers in flight, and the worker processes. */
  datatype System = System(db: Table, outbox: seq<Call>, inbox: seq<Call>, replies: seq<(int, Reply)>,
                           handovers: seq<Handover>, workers: map<int, Worker>)

  datatype Step =
    | Connect(p: int, t: nat)
    | LoginLine(p: int, t: nat, name: seq<byte>)
    | AskJoin(p: int, t: nat, room: seq<byte>)
    | HiddenJoinLine(p: int, t: nat, room: seq<byte>, name: seq<byte>)
    | LeaveCommand(p: int, t: nat)
    | QuitCommand(p: int, t: nat)
    | CloseChat(p: int, t: nat)
    | SendFails(p: int, t: nat)
    | Bury(p: int, t: nat)
    | Free(p: int, t: nat)
    | Post(i: nat)
    | ServeHead
    | Deliver(i: nat)
    | Arrive(i: nat, t: nat)

  // ---------------------------------------------------------------- steps of one worker

  /** What becomes of a reply to a room lookup (apps/chat/src/join.c:71-119). */
  datatype RoomPlace = NotFound | Here(room: seq<byte>) | Elsewhere(pid: int, room: seq<byte>)

  function RoomLookup(w: Worker, reply: Reply): RoomPlace
  {
    var room := if |reply.key| >= |ROOM_PID_KEY| then reply.key[|ROOM_PID_KEY|..] else [];
    var pid := DecimalValue(if reply.newval.Some? then reply.newval.value else []);
    if !Reachable(w, reply.token) || pid <= 0 || room == [] then NotFound
    else if pid == w.pid then Here(room)
    else Elsewhere(pid, room)
  }

  /** chat_join_transfer(): out of the room, and on the way out of this process. */
  function HandOver(w: Worker, t: nat): Effect
    requires t in w.chats && (w.chats[t].room.Some? ==> w.chats[t].room.value in w.rooms)
  {
    var left := Leave(w, t);
    Effect(left.after.(chats := left.after.chats[t := left.after.chats[t].(softQuit := true)]), left.sent)
  }

  /** streamio_finalize() closes once more, then the record is gone. */
  function Freed(w: Worker, t: nat): Effect
    requires t in w.chats && (w.chats[t].room.Some? ==> w.chats[t].room.value in w.rooms)
  {
    var closed := Close(w, t);
    Effect(closed.after.(chats := closed.after.chats - {t}), closed.sent)
  }

  function Marked(w: Worker, t: nat, chat: Chat): Effect
  {
    Effect(w.(chats := w.chats[t := chat]), [])
  }

  /** chat_hiddenjoin_plug(), with the room and the name it reads, empty ones when words are missing:
      the chat is logged in, takes the name without asking for it, and joins the room if it is one of this process. */
  function HiddenJoin(w: Worker, t: nat, chat: Chat, room: seq<byte>, name: seq<byte>): Effect
    requires chat.room.Some? ==> chat.room.value in w.rooms
  {
    if room == [] || name == [] then Marked(w, t, chat.(loggedIn := true))
    else Join(Marked(w, t, chat.(loggedIn := true, name := name)).after, t, room)
  }

  /** The hidden join on a fresh connection. */
  function Arrived(w: Worker, t: nat, h: Handover): Effect
    requires t !in w.chats
  {
    HiddenJoin(w, t, CONNECTED, h.room, h.name)
  }

  // ---------------------------------------------------------------- steps of the system

  /** A worker's operation: its new state, and its calls, which go to the master's queue one by one;
      calls of other workers may get between them. */
  function WorkerStep(s: System, p: int, e: Effect): System
  {
    s.(workers := s.workers[p := e.after], outbox := s.outbox + e.sent)
  }

  function Posted(s: System, i: nat): System
    requires i < |s.outbox|
  {
    s.(outbox := DropAt(s.outbox, i), inbox := s.inbox + [s.outbox[i]])
  }

  /** The chat exists and its room pointer is sound; the second half holds in every reachable state
      (PointersAreSound). */
  ghost predicate HasChat(s: System, p: int, t: nat)
  {
    p in s.workers && t in s.workers[p].chats && ChatOk(s.workers[p], t)
  }

  ghost predicate Enabled(s: System, step: Step)
  {
    match step
    case Connect(p, t) => p in s.workers && t !in s.workers[p].chats
    case LoginLine(p, t, name) =>
      HasChat(s, p, t) && Reachable(s.workers[p], t) && s.workers[p].chats[t].onResponse == LoginHandler
    case AskJoin(p, t, room) =>
      && HasChat(s, p, t) && Reachable(s.workers[p], t) && s.workers[p].chats[t].loggedIn
      && s.workers[p].chats[t].name != [] && room != []
    case HiddenJoinLine(p, t, room, name) =>
      HasChat(s, p, t) && Reachable(s.workers[p], t) && s.workers[p].chats[t].loggedIn
    case LeaveCommand(p, t) => HasChat(s, p, t) && Reachable(s.workers[p], t) && s.workers[p].chats[t].loggedIn
    case QuitCommand(p, t) => HasChat(s, p, t) && Reachable(s.workers[p], t) && s.workers[p].chats[t].loggedIn
    case CloseChat(p, t) => HasChat(s, p, t)
    case SendFails(p, t) => HasChat(s, p, t)
    case Bury(p, t) => HasChat(s, p, t) && !Reachable(s.workers[p], t)
    case Free(p, t) => HasChat(s, p, t)
    case Post(i) => i < |s.outbox| && (forall j | 0 <= j < i :: s.outbox[j].srcpid != s.outbox[i].srcpid)
    case ServeHead => |s.inbox| > 0
    case Deliver(i) =>
      && i < |s.replies| && s.replies[i].0 in s.workers
      && (forall j | 0 <= j < i :: s.replies[j].0 != s.replies[i].0)
      && (Reachable(s.workers[s.replies[i].0], s.replies[i].1.token) ==>
          HasChat(s, s.replies[i].0, s.replies[i].1.token))
    case Arrive(i, t) =>
      i < |s.handovers| && s.handovers[i].dest in s.workers && t !in s.workers[s.handovers[i].dest].chats
  }

  /** The step hands a connection over to another process. */
  ghost predicate HandsOver(s: System, step: Step)
    requires Enabled(s, step)
  {
    step.Deliver? && s.replies[step.i].1.hook == ROOM_PID_HOOK
    && RoomLookup(s.workers[s.replies[step.i].0], s.replies[step.i].1).Elsewhere?
  }

  ghost function Delivered(s: System, i: nat): System
    requires Enabled(s, Deliver(i))
  {
    var p, reply := s.replies[i].0, s.replies[i].1;
    var w := s.workers[p];
    var rest := s.(replies := DropAt(s.replies, i));
    if reply.hook == LOGIN_HOOK then
      var name := if reply.newval.Some? then reply.newval.value else [];
      WorkerStep(rest, p, Effect(LoginReply(w, reply.token, reply.success, name), []))
    else if reply.hook == ROOM_PID_HOOK then
      match RoomLookup(w, reply)
      case NotFound => rest
      case Here(room) => WorkerStep(rest, p, Join(w, reply.token, room))
      case Elsewhere(pid, room) =>
        WorkerStep(rest.(handovers := rest.handovers + [Handover(pid, room, w.chats[reply.token].name)]), p,
                   HandOver(w, reply.token))
    else rest
  }

  ghost function Next(s: System, step: Step): System
    requires Enabled(s, step)
  {
    match step
    case Connect(p, t) => WorkerStep(s, p, Marked(s.workers[p], t, CONNECTED.(onResponse := LoginHandler)))
    case LoginLine(p, t, name) => WorkerStep(s, p, AskName(s.workers[p], t, name))
    case AskJoin(p, t, room) =>
      WorkerStep(s, p, Effect(s.workers[p], [Call(s.workers[p].pid, t, ROOM_PID_HOOK, Get(PidKey(room)))]))
    case HiddenJoinLine(p, t, room, name) =>
      WorkerStep(s, p, HiddenJoin(s.workers[p], t, s.workers[p].chats[t], room, name))
    case LeaveCommand(p, t) => WorkerStep(s, p, Leave(s.workers[p], t))
    case QuitCommand(p, t) => WorkerStep(s, p, Quit(s.workers[p], t))
    case CloseChat(p, t) => WorkerStep(s, p, Close(s.workers[p], t))
    case SendFails(p, t) => WorkerStep(s, p, Marked(s.workers[p], t, s.workers[p].chats[t].(softQuit := true)))
    case Bury(p, t) => WorkerStep(s, p, Marked(s.workers[p], t, s.workers[p].chats[t].(zombie := true)))
    case Free(p, t) => WorkerStep(s, p, Freed(s.workers[p], t))
    case Post(i) => Posted(s, i)
    case ServeHead =>
      var c := s.inbox[0];
      var reply := Answer(s.db, c);
      s.(db := Apply(s.db, c.request), inbox := s.inbox[1..],
         replies := s.replies + if reply.hook == NULL_HOOK then [] else [(c.srcpid, reply)])
    case Deliver(i) => Delivered(s, i)
    case Arrive(i, t) =>
      var h := s.handovers[i];
      WorkerStep(s.(handovers := DropAt(s.handovers, i)), h.dest, Arrived(s.workers[h.dest], t, h))
  }

  /** The run can be made step by step. */
  ghost predicate Legal(s: System, run: seq<Step>)
    decreases run
  {
    |run| > 0 ==> Enabled(s, run[0]) && Legal(Next(s, run[0]), run[1..])
  }

  ghost function Run(s: System, run: seq<Step>): System
    requires Legal(s, run)
    decreases run
  {
    if |run| == 0 then s else Run(Next(s, run[0]), run[1..])
  }

  // ---------------------------------------------------------------- membership and counters

  /** The calls of one worker, in the order it made them. */
  function From(calls: seq<Call>, p: int): seq<Call>
  {
    if |calls| == 0 then [] else (if calls[0].srcpid == p then [calls[0]] else []) + From(calls[1..], p)
  }

  /** The table once the master's queue, and then all that this worker has yet to post, has been served. */
  function Effective(s: System, p: int): Table { Served(s.db, s.inbox + From(s.outbox, p)) }

  ghost predicate OneOwner(s: System)
  {
    forall p, q, r | p in s.workers && q in s.workers && p != q && r in s.workers[p].rooms :: r !in s.workers[q].rooms
  }

  /** The call is the worker's own and concerns no count but those of its rooms. */
  ghost predicate OwnCall(w: Worker, c: Call)
  {
    c.srcpid == w.pid && forall r | r !in w.rooms :: c.request.key != CountKey(r)
  }

  ghost predicate OwnCalls(w: Worker, calls: seq<Call>)
  {
    forall c | c in calls :: OwnCall(w, c)
  }

  ghost predicate OutboxOk(s: System)
  {
    forall c | c in s.outbox :: c.srcpid in s.workers && OwnCall(s.workers[c.srcpid], c)
  }

  /** In every worker the lists, the pointers and the bits agree, and for each of its rooms the table, with the calls
      on their way applied in order, holds the number of its users, or nothing when it is empty. */
  ghost predicate Inv(s: System)
  {
    && (forall p | p in s.workers ::
          s.workers[p].pid == p && MembershipOk(s.workers[p]) && CountersOk(Effective(s, p), s.workers[p]))
    && OneOwner(s) && OutboxOk(s)
  }

  ghost predicate Initial(s: System)
  {
    && s.outbox == [] && s.inbox == [] && s.replies == [] && s.handovers == []
    && (forall p | p in s.workers :: s.workers[p].pid == p && s.workers[p].chats == map[])
    && (forall p, r | p in s.workers && r in s.workers[p].rooms :: r != [] && s.workers[p].rooms[r] == [])
    && (forall r :: Lookup(s.db, CountKey(r)) == None)
    && OneOwner(s)
  }

  lemma InitialInv(s: System)
    requires Initial(s)
    ensures Inv(s)
  {
    ServedNothing(s.db);
    forall p | p in s.workers
      ensures MembershipOk(s.workers[p]) && CountersOk(Effective(s, p), s.workers[p])
    {
      assert s.inbox + From(s.outbox, p) == [];
      forall r | r in s.workers[p].rooms
        ensures RoomOk(s.workers[p], r)
      {
      }
    }
  }

  // ---------------------------------------------------------------- queues

  lemma {:induction false} FromAppend(a: seq<Call>, b: seq<Call>, p: int)
    ensures From(a + b, p) == From(a, p) + From(b, p)
  {
    if |a| == 0 {
      assert a + b == b;
    } else {
      assert (a + b)[0] == a[0] && (a + b)[1..] == a[1..] + b;
      FromAppend(a[1..], b, p);
    }
  }

  lemma {:induction false} AllFrom(calls: seq<Call>, p: int, q: int)
    requires forall c | c in calls :: c.srcpid == p
    ensures From(calls, q) == if q == p then calls else []
  {
    if |calls| > 0 {
      assert calls[0] in calls;
      AllFrom(calls[1..], p, q);
    }
  }

  /** The first call a worker has to post is the next of its calls; the others keep theirs. */
  lemma {:induction false} FromWithout(calls: seq<Call>, i: nat, p: int)
    requires i < |calls| && (forall j | 0 <= j < i :: calls[j].srcpid != calls[i].srcpid)
    ensures From(calls, p) == (if calls[i].srcpid == p then [calls[i]] else []) + From(DropAt(calls, i), p)
  {
    if i == 0 {
      assert DropAt(calls, 0) == calls[1..];
    } else {
      DropAtTail(calls, i);
      FromWithout(calls[1..], i - 1, p);
    }
  }

  /** Tables that agree on a key still do after the same requests. */
  lemma {:induction false} AgreeOnKey(a: Table, b: Table, rs: seq<Request>, key: seq<byte>)
    requires Lookup(a, key) == Lookup(b, key)
    ensures Lookup(ApplyAll(a, rs), key) == Lookup(ApplyAll(b, rs), key)
    decreases rs
  {
    if |rs| > 0 {
      AgreeOnKey(Apply(a, rs[0]), Apply(b, rs[0]), rs[1..], key);
    }
  }

  /** A call for another key may get in anywhere. */
  lemma CallGetsBetween(db: Table, a: seq<Call>, c: Call, b: seq<Call>, key: seq<byte>)
    requires c.request.key != key
    ensures Lookup(Served(db, a + [c] + b), key) == Lookup(Served(db, a + b), key)
  {
    ServedAppend(db, a + [c], b);
    ServedAppend(db, a, [c]);
    ServedAppend(db, a, b);
    ServedOne(Served(db, a), c);
    AgreeOnKey(Served(db, a + [c]), Served(db, a), Requests(b), key);
  }

  lemma PostKeepsEffective(s: System, i: nat, q: int, r: seq<byte>)
    requires Inv(s) && Enabled(s, Post(i)) && q in s.workers && r in s.workers[q].rooms
    ensures Lookup(Effective(Posted(s, i), q), CountKey(r)) == Lookup(Effective(s, q), CountKey(r))
  {
    var c, after := s.outbox[i], Posted(s, i);
    assert c in s.outbox;
    FromWithout(s.outbox, i, q);
    var rest := From(after.outbox, q);
    if c.srcpid == q {
      Associative(s.inbox, [c], rest);
    } else {
      assert r !in s.workers[c.srcpid].rooms;
      CallGetsBetween(s.db, s.inbox, c, rest, CountKey(r));
      assert [] + rest == rest;
    }
  }

  lemma PostKeepsInv(s: System, i: nat)
    requires Inv(s) && Enabled(s, Post(i))
    ensures Inv(Posted(s, i))
  {
    var after := Posted(s, i);
    forall p, r | p in s.workers && r in s.workers[p].rooms
      ensures Lookup(Effective(after, p), CountKey(r)) == CountText(|s.workers[p].rooms[r]|)
    {
      PostKeepsEffective(s, i, p, r);
    }
    forall c | c in after.outbox
      ensures c.srcpid in s.workers && OwnCall(s.workers[c.srcpid], c)
    {
      assert c in s.outbox;
    }
  }

  /** What an operation of worker w must do to keep the invariant, db being the table when its calls are served. */
  ghost predicate Sound(db: Table, w: Worker, e: Effect)
  {
    && MembershipOk(e.after) && e.after.pid == w.pid && e.after.rooms.Keys == w.rooms.Keys
    && CountersOk(Served(db, e.sent), e.after) && OwnCalls(w, e.sent)
  }

  lemma WorkerStepKeepsInv(s: System, p: int, e: Effect)
    requires Inv(s) && p in s.workers && Sound(Effective(s, p), s.workers[p], e)
    ensures Inv(WorkerStep(s, p, e))
  {
    var after := WorkerStep(s, p, e);
    forall q | q in after.workers
      ensures after.workers[q].pid == q && MembershipOk(after.workers[q])
              && CountersOk(Effective(after, q), after.workers[q])
    {
      WorkerStepEffective(s, p, e, q);
    }
    forall c | c in after.outbox
      ensures c.srcpid in after.workers && OwnCall(after.workers[c.srcpid], c)
    {
      assert c in s.outbox || c in e.sent;
    }
  }

  lemma WorkerStepEffective(s: System, p: int, e: Effect, q: int)
    requires p in s.workers && s.workers[p].pid == p && OwnCalls(s.workers[p], e.sent)
    ensures Effective(WorkerStep(s, p, e), q) == if q == p then Served(Effective(s, p), e.sent) else Effective(s, q)
  {
    FromAppend(s.outbox, e.sent, q);
    AllFrom(e.sent, p, q);
    if q == p {
      Associative(s.inbox, From(s.outbox, p), e.sent);
      ServedAppend(s.db, s.inbox + From(s.outbox, p), e.sent);
    } else {
      assert From(s.outbox, q) + [] == From(s.outbox, q);
    }
  }

  lemma CountCallsOwn(w: Worker, room: seq<byte>, count: int, increment: int)
    requires room in w.rooms
    ensures OwnCalls(w, CountCalls(w.pid, room, count, increment))
  {
    forall c | c in CountCalls(w.pid, room, count, increment)
      ensures OwnCall(w, c)
    {
      forall r | r !in w.rooms
        ensures CountKey(r) != CountKey(room)
      {
        if CountKey(r) == CountKey(room) {
          CountKeyInjective(r, room);
        }
      }
    }
  }

  lemma LeaveOwn(w: Worker, t: nat)
    requires MembershipOk(w) && t in w.chats
    ensures ChatOk(w, t) && OwnCalls(w, Leave(w, t).sent)
  {
    assert ChatOk(w, t);
    if w.chats[t].room.Some? {
      var room := w.chats[t].room.value;
      CountCallsOwn(w, room, |Leave(w, t).after.rooms[room]| + 1, -1);
    }
  }

  lemma LeaveSound(db: Table, w: Worker, t: nat)
    requires MembershipOk(w) && CountersOk(db, w) && t in w.chats
    ensures ChatOk(w, t) && Sound(db, w, Leave(w, t))
  {
    LeaveKeepsMembership(w, t);
    LeaveCounts(db, w, t);
    LeaveOwn(w, t);
  }

  lemma JoinOwn(w: Worker, t: nat, room: seq<byte>)
    requires MembershipOk(w) && t in w.chats
    ensures ChatOk(w, t) && OwnCalls(w, Join(w, t, room).sent)
  {
    LeaveOwn(w, t);
    var e := Join(w, t, room);
    if e.sent != [] {
      CountCallsOwn(w, room, |e.after.rooms[room]| - 1, 1);
    }
  }

  lemma JoinSound(db: Table, w: Worker, t: nat, room: seq<byte>)
    requires MembershipOk(w) && CountersOk(db, w) && t in w.chats
    ensures ChatOk(w, t) && Sound(db, w, Join(w, t, room))
  {
    JoinKeepsMembership(w, t, room);
    JoinCounts(db, w, t, room);
    JoinOwn(w, t, room);
  }

  /** Sound operations one after the other are sound. */
  lemma SoundTwice(db: Table, w: Worker, e: Effect, f: Effect)
    requires Sound(db, w, e) && Sound(Served(db, e.sent), e.after, f)
    ensures Sound(db, w, Effect(f.after, e.sent + f.sent))
  {
    ServedAppend(db, e.sent, f.sent);
  }

  lemma MarkSound(db: Table, w: Worker, t: nat, chat: Chat)
    requires MembershipOk(w) && CountersOk(db, w) && t in w.chats
    requires chat.room == w.chats[t].room && chat.inRoom == w.chats[t].inRoom
    requires chat.loggedIn ==> chat.onResponse != LoginHandler
    requires chat.room.Some? ==> chat.loggedIn
    ensures Sound(db, w, Marked(w, t, chat))
  {
    RecordKeepsMembership(w, t, chat);
    ServedNothing(db);
  }

  lemma LogoffSound(db: Table, w: Worker, t: nat)
    requires MembershipOk(w) && CountersOk(db, w) && t in w.chats && w.chats[t].room == None
    ensures Sound(db, w, Logoff(w, t))
  {
    assert ChatOk(w, t);
    if w.chats[t].name == [] {
      ServedNothing(db);
    } else {
      RecordKeepsMembership(w, t, w.chats[t].(loggedIn := false));
      LogoffServed(db, w, t);
      forall r
        ensures NameKey(w.chats[t].name) != CountKey(r)
      {
        KeysDiffer(w.chats[t].name, r, []);
      }
    }
  }

  lemma CloseSound(db: Table, w: Worker, t: nat)
    requires MembershipOk(w) && CountersOk(db, w) && t in w.chats
    ensures ChatOk(w, t) && Sound(db, w, Close(w, t))
  {
    assert ChatOk(w, t);
    var chat := w.chats[t];
    var mark := Marked(w, t, if chat.softQuit || chat.quit then chat else chat.(quit := true));
    MarkSound(db, w, t, mark.after.chats[t]);
    ServedNothing(db);
    var left := if chat.inRoom then Leave(mark.after, t) else Effect(mark.after, []);
    if chat.inRoom {
      LeaveSound(db, mark.after, t);
      LeaveFrame(mark.after, t);
      LeaveKeepsMembership(mark.after, t);
    }
    SoundTwice(db, w, mark, left);
    assert [] + left.sent == left.sent;
    if chat.loggedIn {
      var off := Logoff(left.after, t);
      LogoffSound(Served(db, left.sent), left.after, t);
      SoundTwice(db, w, left, off);
    }
  }

  lemma QuitSound(db: Table, w: Worker, t: nat)
    requires MembershipOk(w) && CountersOk(db, w) && t in w.chats
    ensures ChatOk(w, t) && Sound(db, w, Quit(w, t))
  {
    LeaveSound(db, w, t);
    LeaveKeepsMembership(w, t);
    var left := Leave(w, t);
    var mark := Marked(left.after, t, left.after.chats[t].(quit := true));
    assert ChatOk(left.after, t);
    MarkSound(Served(db, left.sent), left.after, t, mark.after.chats[t]);
    SoundTwice(db, w, left, mark);
    assert left.sent + [] == left.sent;
    LogoffSound(Served(db, left.sent), mark.after, t);
    SoundTwice(db, w, Effect(mark.after, left.sent), Logoff(mark.after, t));
  }

  /** Adding a record for a chat in no room touches no list. */
  lemma AddKeepsMembership(w: Worker, t: nat, chat: Chat)
    requires MembershipOk(w) && t !in w.chats
    requires chat.room == None && !chat.inRoom && (chat.loggedIn ==> chat.onResponse != LoginHandler)
    ensures MembershipOk(Marked(w, t, chat).after)
  {
    var after := Marked(w, t, chat).after;
    forall r | r in after.rooms
      ensures RoomOk(after, r)
    {
      assert RoomOk(w, r);
    }
    forall u | u in after.chats
      ensures ChatOk(after, u)
    {
      assert u in w.chats ==> ChatOk(w, u);
    }
  }

  lemma AddSound(db: Table, w: Worker, t: nat, chat: Chat)
    requires MembershipOk(w) && CountersOk(db, w) && t !in w.chats
    requires chat.room == None && !chat.inRoom && (chat.loggedIn ==> chat.onResponse != LoginHandler)
    ensures Sound(db, w, Marked(w, t, chat))
  {
    AddKeepsMembership(w, t, chat);
    ServedNothing(db);
  }

  lemma FreedSound(db: Table, w: Worker, t: nat)
    requires MembershipOk(w) && CountersOk(db, w) && t in w.chats
    ensures ChatOk(w, t) && Sound(db, w, Freed(w, t))
  {
    CloseSound(db, w, t);
    ClosedForGood(w, t);
    var closed, after := Close(w, t).after, Freed(w, t).after;
    forall r | r in after.rooms
      ensures RoomOk(after, r)
    {
      assert RoomOk(closed, r);
    }
    forall u | u in after.chats
      ensures ChatOk(after, u)
    {
      assert ChatOk(closed, u);
    }
  }

  /** A record that is new, or that is put in the place of one in the same room. */
  ghost predicate Replaces(w: Worker, t: nat, chat: Chat)
  {
    && chat.onResponse != LoginHandler
    && (if t in w.chats then chat.room == w.chats[t].room && chat.inRoom == w.chats[t].inRoom
        else chat.room == None && !chat.inRoom)
  }

  lemma PutKeepsMembership(w: Worker, t: nat, chat: Chat)
    requires MembershipOk(w) && Replaces(w, t, chat) && chat.loggedIn
    ensures MembershipOk(Marked(w, t, chat).after)
  {
    if t in w.chats {
      assert ChatOk(w, t);
      RecordKeepsMembership(w, t, chat);
    } else {
      AddKeepsMembership(w, t, chat);
    }
  }

  lemma PutSound(db: Table, w: Worker, t: nat, chat: Chat)
    requires MembershipOk(w) && CountersOk(db, w) && Replaces(w, t, chat) && chat.loggedIn
    ensures Sound(db, w, Marked(w, t, chat))
  {
    PutKeepsMembership(w, t, chat);
    ServedNothing(db);
  }

  lemma HiddenJoinSound(db: Table, w: Worker, t: nat, chat: Chat, room: seq<byte>, name: seq<byte>)
    requires MembershipOk(w) && CountersOk(db, w) && Replaces(w, t, chat)
    ensures t in w.chats ==> ChatOk(w, t)
    ensures Sound(db, w, HiddenJoin(w, t, chat, room, name))
  {
    assert t in w.chats ==> ChatOk(w, t);
    if room == [] || name == [] {
      PutSound(db, w, t, chat.(loggedIn := true));
    } else {
      var named := Marked(w, t, chat.(loggedIn := true, name := name));
      PutSound(db, w, t, chat.(loggedIn := true, name := name));
      ServedNothing(db);
      var joined := Join(named.after, t, room);
      JoinSound(db, named.after, t, room);
      SoundTwice(db, w, named, joined);
      assert [] + joined.sent == joined.sent;
    }
  }

  lemma HandOverSound(db: Table, w: Worker, t: nat)
    requires MembershipOk(w) && CountersOk(db, w) && t in w.chats
    ensures ChatOk(w, t) && Sound(db, w, HandOver(w, t))
  {
    LeaveSound(db, w, t);
    LeaveKeepsMembership(w, t);
    var left := Leave(w, t);
    assert ChatOk(left.after, t);
    var mark := Marked(left.after, t, left.after.chats[t].(softQuit := true));
    MarkSound(Served(db, left.sent), left.after, t, mark.after.chats[t]);
    SoundTwice(db, w, left, mark);
    assert left.sent + [] == left.sent;
  }

  /** Calls that only look up or only concern names do not touch any count. */
  lemma CallSound(db: Table, w: Worker, c: Call)
    requires MembershipOk(w) && CountersOk(db, w) && c.srcpid == w.pid
    requires (exists name :: c.request.key == NameKey(name)) || (exists r :: c.request.key == PidKey(r))
    ensures Sound(db, w, Effect(w, [c]))
  {
    ServedOne(db, c);
    forall r
      ensures c.request.key != CountKey(r) && Lookup(Apply(db, c.request), CountKey(r)) == Lookup(db, CountKey(r))
    {
      if name :| c.request.key == NameKey(name) {
        KeysDiffer(name, r, []);
      } else {
        var q :| c.request.key == PidKey(q);
        KeysDiffer([], r, q);
      }
      ServeMeaning(db, c.request);
    }
  }

  /** Only what is in flight and no call changes. */
  lemma SameInv(s: System, after: System)
    requires Inv(s) && after == s.(replies := after.replies, handovers := after.handovers)
    ensures Inv(after) && (forall p :: Effective(after, p) == Effective(s, p))
  {
  }

  lemma DeliverKeepsInv(s: System, i: nat)
    requires Inv(s) && Enabled(s, Deliver(i))
    ensures Inv(Next(s, Deliver(i)))
  {
    var p, reply := s.replies[i].0, s.replies[i].1;
    var w, db := s.workers[p], Effective(s, p);
    var rest := s.(replies := DropAt(s.replies, i));
    SameInv(s, rest);
    if reply.hook == LOGIN_HOOK {
      var name := if reply.newval.Some? then reply.newval.value else [];
      LoginReplyKeepsMembership(w, reply.token, reply.success, name);
      ServedNothing(db);
      WorkerStepKeepsInv(rest, p, Effect(LoginReply(w, reply.token, reply.success, name), []));
    } else if reply.hook == ROOM_PID_HOOK {
      match RoomLookup(w, reply) {
        case NotFound =>
        case Here(room) =>
          JoinSound(db, w, reply.token, room);
          WorkerStepKeepsInv(rest, p, Join(w, reply.token, room));
        case Elsewhere(pid, room) =>
          HandOverSound(db, w, reply.token);
          var sent := rest.(handovers := rest.handovers + [Handover(pid, room, w.chats[reply.token].name)]);
          SameInv(rest, sent);
          WorkerStepKeepsInv(sent, p, HandOver(w, reply.token));
      }
    }
  }

  lemma ServeKeepsInv(s: System)
    requires Inv(s) && Enabled(s, ServeHead)
    ensures Inv(Next(s, ServeHead))
  {
    var after := Next(s, ServeHead);
    forall p | p in s.workers
      ensures Effective(after, p) == Effective(s, p)
    {
      ServedCons(s.db, s.inbox + From(s.outbox, p));
      assert (s.inbox + From(s.outbox, p))[1..] == s.inbox[1..] + From(s.outbox, p);
    }
  }

  lemma ArriveKeepsInv(s: System, i: nat, t: nat)
    requires Inv(s) && Enabled(s, Arrive(i, t))
    ensures Inv(Next(s, Arrive(i, t)))
  {
    var h := s.handovers[i];
    var rest := s.(handovers := DropAt(s.handovers, i));
    SameInv(s, rest);
    HiddenJoinSound(Effective(s, h.dest), s.workers[h.dest], t, CONNECTED, h.room, h.name);
    WorkerStepKeepsInv(rest, h.dest, Arrived(s.workers[h.dest], t, h));
  }

  lemma HiddenJoinLineKeepsInv(s: System, p: int, t: nat, room: seq<byte>, name: seq<byte>)
    requires Inv(s) && Enabled(s, HiddenJoinLine(p, t, room, name))
    ensures Inv(Next(s, HiddenJoinLine(p, t, room, name)))
  {
    var w := s.workers[p];
    HiddenJoinSound(Effective(s, p), w, t, w.chats[t], room, name);
    WorkerStepKeepsInv(s, p, HiddenJoin(w, t, w.chats[t], room, name));
  }

  lemma StepKeepsInv(s: System, step: Step)
    requires Inv(s) && Enabled(s, step)
    ensures Inv(Next(s, step))
  {
    match step {
      case Connect(p, t) =>
        AddSound(Effective(s, p), s.workers[p], t, CONNECTED.(onResponse := LoginHandler));
        WorkerStepKeepsInv(s, p, Marked(s.workers[p], t, CONNECTED.(onResponse := LoginHandler)));
      case LoginLine(p, t, name) =>
        ServedNothing(Effective(s, p));
        if name != [] && |name| < MAX_CHAT_USER_NAME_SIZE {
          CallSound(Effective(s, p), s.workers[p], AskName(s.workers[p], t, name).sent[0]);
        }
        WorkerStepKeepsInv(s, p, AskName(s.workers[p], t, name));
      case AskJoin(p, t, room) =>
        CallSound(Effective(s, p), s.workers[p], Call(s.workers[p].pid, t, ROOM_PID_HOOK, Get(PidKey(room))));
        WorkerStepKeepsInv(s, p, Effect(s.workers[p], [Call(s.workers[p].pid, t, ROOM_PID_HOOK, Get(PidKey(room)))]));
      case HiddenJoinLine(p, t, room, name) =>
        HiddenJoinLineKeepsInv(s, p, t, room, name);
      case LeaveCommand(p, t) =>
        LeaveSound(Effective(s, p), s.workers[p], t);
        WorkerStepKeepsInv(s, p, Leave(s.workers[p], t));
      case QuitCommand(p, t) =>
        QuitSound(Effective(s, p), s.workers[p], t);
        WorkerStepKeepsInv(s, p, Quit(s.workers[p], t));
      case CloseChat(p, t) =>
        CloseSound(Effective(s, p), s.workers[p], t);
        WorkerStepKeepsInv(s, p, Close(s.workers[p], t));
      case SendFails(p, t) =>
        MarkSound(Effective(s, p), s.workers[p], t, s.workers[p].chats[t].(softQuit := true));
        WorkerStepKeepsInv(s, p, Marked(s.workers[p], t, s.workers[p].chats[t].(softQuit := true)));
      case Bury(p, t) =>
        MarkSound(Effective(s, p), s.workers[p], t, s.workers[p].chats[t].(zombie := true));
        WorkerStepKeepsInv(s, p, Marked(s.workers[p], t, s.workers[p].chats[t].(zombie := true)));
      case Free(p, t) =>
        FreedSound(Effective(s, p), s.workers[p], t);
        WorkerStepKeepsInv(s, p, Freed(s.workers[p], t));
      case Post(i) => PostKeepsInv(s, i);
      case ServeHead => ServeKeepsInv(s);
      case Deliver(i) => DeliverKeepsInv(s, i);
      case Arrive(i, t) => ArriveKeepsInv(s, i, t);
    }
  }

  /** In every reachable state, with handovers and all, membership is consistent and every room's count,
      once the calls on their way are served, is the decimal number of its users or absent. */
  lemma {:induction false} RunsKeepInv(s: System, run: seq<Step>)
    requires Inv(s) && Legal(s, run)
    ensures Inv(Run(s, run))
    decreases run
  {
    if |run| > 0 {
      StepKeepsInv(s, run[0]);
      RunsKeepInv(Next(s, run[0]), run[1..]);
    }
  }

  /** Steps are never held up by an unsound pointer. */
  lemma PointersAreSound(s: System, run: seq<Step>, p: int, t: nat)
    requires Initial(s) && Legal(s, run)
    requires p in Run(s, run).workers && t in Run(s, run).workers[p].chats
    ensures HasChat(Run(s, run), p, t)
  {
    InitialInv(s);
    RunsKeepInv(s, run);
  }

  lemma CountersAgreeInEveryRun(s: System, run: seq<Step>, p: int, room: seq<byte>)
    requires Initial(s) && Legal(s, run)
    requires p in Run(s, run).workers && room in Run(s, run).workers[p].rooms
    ensures var end := Run(s, run);
      var users := end.workers[p].rooms[room];
      && Lookup(Effective(end, p), CountKey(room)) == (if users == [] then None else Some(Decimal(|users|)))
      && NoDuplicates(users)
      && (forall t :: t in users <==> t in end.workers[p].chats && end.workers[p].chats[t].room == Some(room))
  {
    InitialInv(s);
    RunsKeepInv(s, run);
    var w := Run(s, run).workers[p];
    assert RoomOk(w, room);
    forall t | t in w.chats && w.chats[t].room == Some(room)
      ensures t in w.rooms[room]
    {
      assert ChatOk(w, t);
    }
  }
}
