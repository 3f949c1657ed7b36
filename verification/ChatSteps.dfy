/** What the steps of the chat do to the connection they are about
    (apps/chat/src/welcome.c, user.c, join.c, hiddenjoin.c, leave.c, quit.c, chat_factory.c). */
module ChatSteps {
  import opened Bytes
  import opened Options
  import opened Sequences
  import opened AsyncRequest
  import opened Database
  import opened ChatWorker
  import opened RoomCounters
  import opened ChatSystem

  /** The chat exists and is not on its way out. */
  predicate There(w: Worker, t: nat)
  {
    t in w.chats && !w.chats[t].quit && !w.chats[t].softQuit && !w.chats[t].zombie
  }

  /** The system with nothing but chat t of process p changed. */
  function WithRecord(s: System, p: int, t: nat, chat: Chat): System
    requires p in s.workers
  {
    s.(workers := s.workers[p := s.workers[p].(chats := s.workers[p].chats[t := chat])])
  }

  lemma NothingSent(s: System, p: int, w: Worker)
    requires p in s.workers
    ensures WorkerStep(s, p, Effect(w, [])) == s.(workers := s.workers[p := w])
    ensures w == s.workers[p] ==> WorkerStep(s, p, Effect(w, [])) == s
  {
    assert s.outbox + [] == s.outbox;
    assert s.workers[p := s.workers[p]] == s.workers;
  }

  lemma HooksSpelled()
    ensures LOGIN_HOOK != NULL_HOOK && ROOM_PID_HOOK != NULL_HOOK && ROOM_PID_HOOK != LOGIN_HOOK
    ensures LOGIN_HOOK != [] && ROOM_PID_HOOK != []
  {
    assert |LOGIN_HOOK| == 18 && |NULL_HOOK| == 4 && |ROOM_PID_HOOK| == 21;
  }

  // ---------------------------------------------------------------- logging in

  /** A new connection has no name, is in no room, and its next line is taken for a login name. */
  lemma ConnectMeans(s: System, p: int, t: nat)
    requires Enabled(s, Connect(p, t))
    ensures Next(s, Connect(p, t))
         == WithRecord(s, p, t, Chat(false, false, false, false, false, [], None, LoginHandler))
  {
    NothingSent(s, p, Next(s, Connect(p, t)).workers[p]);
  }

  /** A login name that is not empty and below 32 bytes is asked for with one call; any other is not. */
  lemma LoginLineMeans(s: System, p: int, t: nat, name: seq<byte>)
    requires Inv(s) && Enabled(s, LoginLine(p, t, name))
    ensures Next(s, LoginLine(p, t, name)) ==
      if 0 < |name| < 32
      then s.(outbox := s.outbox + [Call(p, t, Ascii("on/asyncchat/login"), SetIfNull(Ascii("user/") + name, name))])
      else s
  {
    NothingSent(s, p, s.workers[p]);
  }

  /** When the master's answer to that call arrives, the chat is logged in under the name if it is still there
      and the name was free when the call was served; otherwise nothing changes. */
  lemma LoginAnswered(s: System, i: nat, db: Table, t: nat, name: seq<byte>)
    requires Inv(s) && Enabled(s, Deliver(i)) && name != []
    requires s.replies[i].1 == Answer(db, Call(s.replies[i].0, t, LOGIN_HOOK, SetIfNull(NameKey(name), name)))
    ensures var p, rest := s.replies[i].0, s.(replies := DropAt(s.replies, i));
      Next(s, Deliver(i)) ==
        if There(s.workers[p], t) && NameKey(name) !in db
        then WithRecord(rest, p, t, s.workers[p].chats[t].(name := name, loggedIn := true, onResponse := NoHandler))
        else rest
  {
    var p, rest := s.replies[i].0, s.(replies := DropAt(s.replies, i));
    HooksSpelled();
    KeysDiffer(name, [], []);
    ServeMeaning(db, SetIfNull(NameKey(name), name));
    LoginReplyMeans(s.workers[p], t, NameKey(name) !in db, name);
    NothingSent(rest, p, Next(s, Deliver(i)).workers[p]);
  }

  // ---------------------------------------------------------------- joining a room

  lemma AskJoinMeans(s: System, p: int, t: nat, room: seq<byte>)
    requires Inv(s) && Enabled(s, AskJoin(p, t, room))
    ensures Next(s, AskJoin(p, t, room)) ==
      s.(outbox := s.outbox + [Call(p, t, Ascii("on/asyncchat/room/pid"), Get(Ascii("room/pid/") + room))])
  {
    NothingSent(s, p, s.workers[p]);
  }

  /** The reply in flight is the master's answer to the lookup of a room, served on table db. */
  ghost predicate AnswersLookup(s: System, i: nat, db: Table, t: nat, room: seq<byte>)
  {
    && Enabled(s, Deliver(i)) && room != []
    && s.replies[i].1 == Answer(db, Call(s.replies[i].0, t, ROOM_PID_HOOK, Get(PidKey(room))))
  }

  lemma LookupAnswer(db: Table, p: int, t: nat, room: seq<byte>)
    ensures Answer(db, Call(p, t, ROOM_PID_HOOK, Get(PidKey(room))))
         == Reply(ROOM_PID_HOOK, t, true, PidKey(room), Lookup(db, PidKey(room)))
    ensures PidKey(room)[|ROOM_PID_KEY|..] == room
  {
    HooksSpelled();
    KeysDiffer([], [], room);
  }

  /** No process has the room, or the chat is not there any more: nothing changes. */
  lemma RoomNotFound(s: System, i: nat, db: Table, t: nat, room: seq<byte>)
    requires AnswersLookup(s, i, db, t, room)
    requires Lookup(db, PidKey(room)) == None || !There(s.workers[s.replies[i].0], t)
    ensures Next(s, Deliver(i)) == s.(replies := DropAt(s.replies, i))
  {
    LookupAnswer(db, s.replies[i].0, t, room);
    HooksSpelled();
  }

  lemma LookupLeadsHere(s: System, i: nat, db: Table, t: nat, room: seq<byte>, q: nat)
    requires Inv(s) && AnswersLookup(s, i, db, t, room) && There(s.workers[s.replies[i].0], t)
    requires q > 0 && Lookup(db, PidKey(room)) == Some(Decimal(q)) && q == s.replies[i].0
    ensures ChatOk(s.workers[q], t)
    ensures Next(s, Deliver(i)) == WorkerStep(s.(replies := DropAt(s.replies, i)), q, Join(s.workers[q], t, room))
  {
    LookupAnswer(db, q, t, room);
    HooksSpelled();
    DecimalRoundTrip(q);
  }

  /** The room is one of this process: the chat is put into it, from wherever it was, if it is logged in
      and there is space; otherwise it stays where it is. */
  lemma RoomFoundHere(s: System, i: nat, db: Table, t: nat, room: seq<byte>, q: nat)
    requires Inv(s) && AnswersLookup(s, i, db, t, room) && There(s.workers[s.replies[i].0], t)
    requires q > 0 && Lookup(db, PidKey(room)) == Some(Decimal(q)) && q == s.replies[i].0
    ensures q in Next(s, Deliver(i)).workers
    ensures var w, after := s.workers[q], Next(s, Deliver(i)).workers[q];
      if MayJoin(w, t, room) && w.chats[t].room != Some(room)
      then after.chats == w.chats[t := Inside(w.chats[t], room)] && after.rooms.Keys == w.rooms.Keys
           && after.rooms[room] == w.rooms[room] + [t]
      else after == w
    ensures Next(s, Deliver(i)).handovers == s.handovers && Next(s, Deliver(i)).db == s.db
  {
    var w := s.workers[q];
    LookupLeadsHere(s, i, db, t, room, q);
    if MayJoin(w, t, room) && w.chats[t].room != Some(room) {
      JoinPutsIn(w, t, room);
    } else {
      JoinChangesNothing(w, t, room);
    }
  }

  /** The room is one of another process: the chat leaves its room and is on its way out here,
      and one connection with its name is on its way there. */
  lemma RoomFoundElsewhere(s: System, i: nat, db: Table, t: nat, room: seq<byte>, q: nat)
    requires Inv(s) && AnswersLookup(s, i, db, t, room) && There(s.workers[s.replies[i].0], t)
    requires q > 0 && Lookup(db, PidKey(room)) == Some(Decimal(q)) && q != s.replies[i].0
    ensures s.replies[i].0 in Next(s, Deliver(i)).workers
    ensures var p, end := s.replies[i].0, Next(s, Deliver(i));
      var chat := s.workers[p].chats[t];
      && end.handovers == s.handovers + [Handover(q, room, chat.name)]
      && end.workers[p].chats == s.workers[p].chats[t := Outside(chat).(softQuit := true)]
  {
    var p := s.replies[i].0;
    LookupAnswer(db, p, t, room);
    HooksSpelled();
    DecimalRoundTrip(q);
    var w := s.workers[p];
    LeaveTakesOut(w, t);
    LastUpdateCounts(w.chats, t, Outside(w.chats[t]), Outside(w.chats[t]).(softQuit := true));
  }

  // ---------------------------------------------------------------- hidden joins

  /** With a room and a name the chat is logged in under the name,
      and in the room if it is one of this process and has space. */
  lemma HiddenJoinMeans(w: Worker, t: nat, chat: Chat, room: seq<byte>, name: seq<byte>)
    requires MembershipOk(w) && Replaces(w, t, chat) && (chat.room.Some? ==> chat.room.value in w.rooms)
    ensures var after := HiddenJoin(w, t, chat, room, name).after;
      var named := chat.(loggedIn := true, name := name);
      after.chats == w.chats[t := if room == [] || name == [] then chat.(loggedIn := true)
                                  else if room in w.rooms && |w.rooms[room]| < 32 && chat.room != Some(room)
                                  then Inside(named, room) else named]
    ensures room != [] && name != [] && room in w.rooms && |w.rooms[room]| < 32 && chat.room != Some(room) ==>
      HiddenJoin(w, t, chat, room, name).after.rooms[room] == w.rooms[room] + [t]
  {
    if room != [] && name != [] {
      var named := chat.(loggedIn := true, name := name);
      var renamed := Marked(w, t, named).after;
      PutKeepsMembership(w, t, named);
      if MayJoin(renamed, t, room) && chat.room != Some(room) {
        JoinPutsIn(renamed, t, room);
        LastUpdateCounts(w.chats, t, named, Inside(named, room));
      } else {
        JoinChangesNothing(renamed, t, room);
      }
    }
  }

  /** A connection that arrives is a new chat with the name it brought, in the room it came for if there is space;
      without a room or a name it is a new chat that is logged in without one. */
  lemma ArrivalMeans(s: System, i: nat, t: nat)
    requires Inv(s) && Enabled(s, Arrive(i, t))
    ensures s.handovers[i].dest in Next(s, Arrive(i, t)).workers
    ensures var h, end := s.handovers[i], Next(s, Arrive(i, t));
      var w, after := s.workers[h.dest], end.workers[h.dest];
      var complete := h.room != [] && h.name != [];
      var named := Chat(true, false, false, false, false, if complete then h.name else [], None, NoHandler);
      var enters := complete && h.room in w.rooms && |w.rooms[h.room]| < 32;
      && end.handovers == DropAt(s.handovers, i)
      && after.chats == w.chats[t := if enters then Inside(named, h.room) else named]
      && (enters ==> h.room in after.rooms && after.rooms[h.room] == w.rooms[h.room] + [t])
  {
    var h := s.handovers[i];
    HiddenJoinMeans(s.workers[h.dest], t, CONNECTED, h.room, h.name);
    ArriveKeepsInv(s, i, t);
    HiddenJoinSound(Effective(s, h.dest), s.workers[h.dest], t, CONNECTED, h.room, h.name);
  }

  // ---------------------------------------------------------------- going away

  /** The chats of the process after the step. */
  ghost function ChatsAfter(s: System, step: Step, p: int): map<nat, Chat>
    requires Enabled(s, step)
  {
    if p in Next(s, step).workers then Next(s, step).workers[p].chats else map[]
  }

  /** Leaving, quitting and closing take the chat out of its room; the last two also end its login under a name. */
  lemma LeaveCommandMeans(s: System, p: int, t: nat)
    requires Inv(s) && Enabled(s, LeaveCommand(p, t))
    ensures ChatsAfter(s, LeaveCommand(p, t), p) == s.workers[p].chats[t := Outside(s.workers[p].chats[t])]
  {
    LeaveTakesOut(s.workers[p], t);
  }

  lemma QuitCommandMeans(s: System, p: int, t: nat)
    requires Inv(s) && Enabled(s, QuitCommand(p, t))
    ensures var chat := s.workers[p].chats[t];
      ChatsAfter(s, QuitCommand(p, t), p)
        == s.workers[p].chats[t := Outside(chat).(quit := true, loggedIn := chat.loggedIn && chat.name == [])]
  {
    QuitMeans(s.workers[p], t);
  }

  lemma CloseChatMeans(s: System, p: int, t: nat)
    requires Inv(s) && Enabled(s, CloseChat(p, t))
    ensures var chat := s.workers[p].chats[t];
      ChatsAfter(s, CloseChat(p, t), p)
        == s.workers[p].chats[t := Outside(chat).(quit := chat.quit || !chat.softQuit,
                                                  loggedIn := chat.loggedIn && chat.name == [])]
  {
    CloseMeans(s.workers[p], t);
  }

  /** After a failed send or a burial replies for the chat find nobody; nothing else changes. */
  lemma LostMeans(s: System, p: int, t: nat)
    requires HasChat(s, p, t)
    ensures Next(s, SendFails(p, t)) == WithRecord(s, p, t, s.workers[p].chats[t].(softQuit := true))
    ensures Enabled(s, Bury(p, t)) ==>
      Next(s, Bury(p, t)) == WithRecord(s, p, t, s.workers[p].chats[t].(zombie := true))
  {
    NothingSent(s, p, Marked(s.workers[p], t, s.workers[p].chats[t].(softQuit := true)).after);
    NothingSent(s, p, Marked(s.workers[p], t, s.workers[p].chats[t].(zombie := true)).after);
  }

  /** Freeing removes the chat and no other. */
  lemma FreeMeans(s: System, p: int, t: nat)
    requires Inv(s) && HasChat(s, p, t)
    ensures ChatsAfter(s, Free(p, t), p) == s.workers[p].chats - {t}
  {
    CloseMeans(s.workers[p], t);
  }

  // ---------------------------------------------------------------- calls and replies

  /** The master serves the call that has waited longest and answers it, unless nobody waits for the answer. */
  lemma ServeMeans(s: System)
    requires Enabled(s, ServeHead) && s.inbox[0].request.key != []
    ensures var c, end := s.inbox[0], Next(s, ServeHead);
      && end.inbox == s.inbox[1..] && end.outbox == s.outbox && end.workers == s.workers && end.handovers == s.handovers
      && (forall k | k != c.request.key :: Lookup(end.db, k) == Lookup(s.db, k))
      && (if c.hook == [] || c.hook == Ascii("null") then end.replies == s.replies
          else |end.replies| == |s.replies| + 1 && end.replies[..|s.replies|] == s.replies
               && end.replies[|s.replies|].0 == c.srcpid && end.replies[|s.replies|].1.token == c.token
               && end.replies[|s.replies|].1.hook == c.hook && end.replies[|s.replies|].1.key == c.request.key)
  {
    ServeMeaning(s.db, s.inbox[0].request);
    assert Ascii("null") == NULL_HOOK && NULL_HOOK != [];
  }

  /** The first call a worker has to post goes to the end of the master's queue; the calls left keep their order. */
  lemma PostMeans(s: System, i: nat, q: int)
    requires Enabled(s, Post(i))
    ensures var end, c := Next(s, Post(i)), s.outbox[i];
      && end.inbox == s.inbox + [c] && end.db == s.db && end.workers == s.workers
      && end.replies == s.replies && end.handovers == s.handovers
      && From(s.outbox, q) == (if q == c.srcpid then [c] else []) + From(end.outbox, q)
  {
    FromWithout(s.outbox, i, q);
  }

  // ---------------------------------------------------------------- what can happen

  /** The invariant is enough for this: calls that wait can be posted and served, replies and connections delivered. */
  lemma QueuesAreOpen(s: System)
    requires Inv(s)
    ensures |s.outbox| > 0 ==> Enabled(s, Post(0))
    ensures |s.inbox| > 0 ==> Enabled(s, ServeHead)
    ensures |s.replies| > 0 && s.replies[0].0 in s.workers ==> Enabled(s, Deliver(0))
    ensures forall i: nat, t | i < |s.handovers| && s.handovers[i].dest in s.workers
      && t !in s.workers[s.handovers[i].dest].chats :: Enabled(s, Arrive(i, t))
  {
  }

  /** Every chat can be closed and freed, and its sends can fail. */
  lemma ChatsAreOpen(s: System, run: seq<Step>, p: int, t: nat)
    requires Initial(s) && Legal(s, run) && p in Run(s, run).workers && t in Run(s, run).workers[p].chats
    ensures var end := Run(s, run);
      Enabled(end, CloseChat(p, t)) && Enabled(end, Free(p, t)) && Enabled(end, SendFails(p, t))
  {
    PointersAreSound(s, run, p, t);
  }

  /** A chat that is there can give its login name, or its commands once it is logged in. */
  lemma CommandsAreOpen(s: System, run: seq<Step>, p: int, t: nat, room: seq<byte>, name: seq<byte>)
    requires Initial(s) && Legal(s, run) && p in Run(s, run).workers && There(Run(s, run).workers[p], t)
    ensures var end, chat := Run(s, run), Run(s, run).workers[p].chats[t];
      && (chat.onResponse == LoginHandler ==> Enabled(end, LoginLine(p, t, name)))
      && (chat.loggedIn ==> Enabled(end, LeaveCommand(p, t)) && Enabled(end, QuitCommand(p, t)))
      && (chat.loggedIn ==> Enabled(end, HiddenJoinLine(p, t, room, name)))
      && (chat.loggedIn && chat.name != [] && room != [] ==> Enabled(end, AskJoin(p, t, room)))
  {
    PointersAreSound(s, run, p, t);
  }
}
