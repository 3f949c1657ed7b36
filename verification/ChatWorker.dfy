/** What one worker process does with its chats and rooms, as functions on values
    (apps/chat/src/broadcast.c, chat_factory.c, user.c, welcome.c, room.c, quit.c). */
module ChatWorker {
  import opened Bytes
  import opened Options
  import opened AsyncRequest

  const MAX_CHAT_ROOM_USER := 32
  const MAX_CHAT_USER_NAME_SIZE := 32

  const USER_PREFIX: seq<byte> := Ascii("user/")
  const ROOM_USER_KEY: seq<byte> := Ascii("room/user/")
  const ROOM_PID_KEY: seq<byte> := Ascii("room/pid/")
  const LOGIN_HOOK: seq<byte> := Ascii("on/asyncchat/login")
  const ROOM_PID_HOOK: seq<byte> := Ascii("on/asyncchat/room/pid")

  function NameKey(name: seq<byte>): seq<byte> { USER_PREFIX + name }

  function CountKey(room: seq<byte>): seq<byte> { ROOM_USER_KEY + room }

  function PidKey(room: seq<byte>): seq<byte> { ROOM_PID_KEY + room }

  datatype Handler = NoHandler | LoginHandler | BroadcastHandler

  /** A connection: its state bits, its name, the room its callback data points to and who handles its next line. */
  datatype Chat = Chat(loggedIn: bool, inRoom: bool, quit: bool, softQuit: bool, zombie: bool,
                       name: seq<byte>, room: Option<seq<byte>>, onResponse: Handler)

  /** A process: its connections by token and the user list of each of its rooms. */
  datatype Worker = Worker(pid: int, chats: map<nat, Chat>, rooms: map<seq<byte>, seq<nat>>)

  /** The process after an operation and the calls it sent to the master meanwhile. */
  datatype Effect = Effect(after: Worker, sent: seq<Call>)

  const CONNECTED := Chat(false, false, false, false, false, [], None, NoHandler)

  /** A call nobody waits for. */
  function Quiet(pid: int, request: Request): Call { Call(pid, -1, NULL_HOOK, request) }

  function DecimalInt(n: int): seq<byte> { if n < 0 then [45] + Decimal(-n) else Decimal(n) }

  /** async_db_increment() */
  function IncrementRequests(key: seq<byte>, value: int, increment: int): seq<Request>
  {
    if value + increment == 0 then [Unset(key)]
    else
      (if value == 0 then [SetIfNull(key, DecimalInt(increment))] else [])
      + [Cas(key, DecimalInt(value + increment), DecimalInt(value))]
  }

  function QuietCalls(pid: int, rs: seq<Request>): (calls: seq<Call>)
    ensures |calls| == |rs|
  {
    seq(|rs|, i requires 0 <= i < |rs| => Quiet(pid, rs[i]))
  }

  /** chat_room_set_user_count() */
  function CountCalls(pid: int, room: seq<byte>, count: int, increment: int): seq<Call>
  {
    if room == [] then [] else QuietCalls(pid, IncrementRequests(CountKey(room), count, increment))
  }

  function Without(list: seq<nat>, t: nat): seq<nat>
  {
    if |list| == 0 then []
    else if list[0] == t then list[1..]
    else [list[0]] + Without(list[1..], t)
  }

  /** broadcast_room_leave() */
  function Leave(w: Worker, t: nat): Effect
    requires t in w.chats && (w.chats[t].room.Some? ==> w.chats[t].room.value in w.rooms)
  {
    var chat := w.chats[t];
    if chat.room.None? then Effect(w, [])
    else
      var room := chat.room.value;
      var list := Without(w.rooms[room], t);
      Effect(w.(rooms := w.rooms[room := list],
                chats := w.chats[t := chat.(room := None, inRoom := false, onResponse := NoHandler)]),
             CountCalls(w.pid, room, |list| + 1, -1))
  }

  /** The part of broadcast_room_join() that puts a chat without a room into one. */
  function Enter(w: Worker, t: nat, room: seq<byte>): Worker
    requires t in w.chats && room in w.rooms
  {
    w.(rooms := w.rooms[room := w.rooms[room] + [t]],
       chats := w.chats[t := w.chats[t].(room := Some(room), inRoom := true, onResponse := BroadcastHandler)])
  }

  /** broadcast_room_join() */
  function Join(w: Worker, t: nat, room: seq<byte>): Effect
    requires t in w.chats && (w.chats[t].room.Some? ==> w.chats[t].room.value in w.rooms)
  {
    if !w.chats[t].loggedIn || room !in w.rooms || |w.rooms[room]| >= MAX_CHAT_ROOM_USER then Effect(w, [])
    else if w.chats[t].room == Some(room) then
      Effect(w, CountCalls(w.pid, room, |w.rooms[room]| - 1, 1))
    else
      var left := Leave(w, t);
      var after := Enter(left.after, t, room);
      Effect(after, left.sent + CountCalls(w.pid, room, |after.rooms[room]| - 1, 1))
  }

  /** logoff_user() */
  function Logoff(w: Worker, t: nat): Effect
    requires t in w.chats
  {
    if w.chats[t].name == [] then Effect(w, [])
    else Effect(w.(chats := w.chats[t := w.chats[t].(loggedIn := false)]),
                [Quiet(w.pid, Unset(NameKey(w.chats[t].name)))])
  }

  /** default_chat_close(): mark, leave the room, give the name back. */
  function Close(w: Worker, t: nat): Effect
    requires t in w.chats && (w.chats[t].room.Some? ==> w.chats[t].room.value in w.rooms)
  {
    var chat := w.chats[t];
    var marked := w.(chats := w.chats[t := if chat.softQuit || chat.quit then chat else chat.(quit := true)]);
    var left := if chat.inRoom then Leave(marked, t) else Effect(marked, []);
    if !chat.loggedIn then left
    else
      var off := Logoff(left.after, t);
      Effect(off.after, left.sent + off.sent)
  }

  /** chat_quit_plug() */
  function Quit(w: Worker, t: nat): Effect
    requires t in w.chats && (w.chats[t].room.Some? ==> w.chats[t].room.value in w.rooms)
  {
    var left := Leave(w, t);
    var marked := left.after.(chats := left.after.chats[t := left.after.chats[t].(quit := true)]);
    var off := Logoff(marked, t);
    Effect(off.after, left.sent + off.sent)
  }

  /** chat_get() yields nothing for a chat that is on its way out. */
  predicate Reachable(w: Worker, t: int)
  {
    t >= 0 && t in w.chats && !w.chats[t].quit && !w.chats[t].softQuit && !w.chats[t].zombie
  }

  /** on_asyncchat_login(): ask for the name under the chat's token. */
  function AskName(w: Worker, t: nat, name: seq<byte>): Effect
  {
    if name == [] || |name| >= MAX_CHAT_USER_NAME_SIZE then Effect(w, [])
    else Effect(w, [Call(w.pid, t, LOGIN_HOOK, SetIfNull(NameKey(name), name))])
  }

  /** on_asyncchat_login_hook() */
  function LoginReply(w: Worker, t: int, success: bool, name: seq<byte>): Worker
  {
    if name == [] || !Reachable(w, t) || !success then w
    else w.(chats := w.chats[t := w.chats[t].(name := name, onResponse := NoHandler, loggedIn := true)])
  }

  // ---------------------------------------------------------------- membership

  ghost predicate NoDuplicates(list: seq<nat>)
  {
    forall i, j | 0 <= i < j < |list| :: list[i] != list[j]
  }

  /** A chat is in a room's list exactly when its callback data points to that room, its bit says so too,
      nobody is listed twice and no room is over-full. */
  ghost predicate MembershipOk(w: Worker)
  {
    && (forall t | t in w.chats :: ChatOk(w, t))
    && (forall r | r in w.rooms :: RoomOk(w, r))
  }

  ghost predicate ChatOk(w: Worker, t: nat)
    requires t in w.chats
  {
    var chat := w.chats[t];
    && chat.inRoom == chat.room.Some?
    && (chat.room.Some? ==> chat.room.value in w.rooms && t in w.rooms[chat.room.value] && chat.loggedIn)
    && (chat.loggedIn ==> chat.onResponse != LoginHandler)
  }

  ghost predicate RoomOk(w: Worker, r: seq<byte>)
    requires r in w.rooms
  {
    && r != [] && NoDuplicates(w.rooms[r]) && |w.rooms[r]| <= MAX_CHAT_ROOM_USER
    && (forall t | t in w.rooms[r] :: t in w.chats && w.chats[t].room == Some(r))
  }

  lemma {:induction false} WithoutRemoves(list: seq<nat>, t: nat)
    requires NoDuplicates(list)
    ensures NoDuplicates(Without(list, t))
    ensures forall u :: u in Without(list, t) <==> u in list && u != t
    ensures t in list ==> |Without(list, t)| == |list| - 1
    ensures t !in list ==> Without(list, t) == list
  {
    if |list| > 0 {
      assert list == [list[0]] + list[1..];
      if list[0] != t {
        WithoutRemoves(list[1..], t);
        assert list[0] !in list[1..];
        assert list[0] !in Without(list[1..], t);
      }
    }
  }

  lemma LeaveKeepsMembership(w: Worker, t: nat)
    requires MembershipOk(w) && t in w.chats
    ensures ChatOk(w, t) && MembershipOk(Leave(w, t).after)
    ensures Leave(w, t).after.chats[t].room == None
    ensures w.chats[t].room.Some? ==>
      |Leave(w, t).after.rooms[w.chats[t].room.value]| == |w.rooms[w.chats[t].room.value]| - 1
  {
    assert ChatOk(w, t);
    if w.chats[t].room.Some? {
      var room, after := w.chats[t].room.value, Leave(w, t).after;
      assert RoomOk(w, room);
      WithoutRemoves(w.rooms[room], t);
      forall r | r in after.rooms
        ensures RoomOk(after, r)
      {
        assert RoomOk(w, r);
      }
      forall u | u in after.chats
        ensures ChatOk(after, u)
      {
        assert ChatOk(w, u);
      }
    }
  }

  lemma EnterKeepsMembership(w: Worker, t: nat, room: seq<byte>)
    requires MembershipOk(w) && t in w.chats && room in w.rooms
    requires w.chats[t].room == None && w.chats[t].loggedIn && |w.rooms[room]| < MAX_CHAT_ROOM_USER
    ensures MembershipOk(Enter(w, t, room))
  {
    var after := Enter(w, t, room);
    assert t !in w.rooms[room] by { assert RoomOk(w, room); }
    forall r | r in after.rooms
      ensures RoomOk(after, r)
    {
      assert RoomOk(w, r);
    }
    forall u | u in after.chats
      ensures ChatOk(after, u)
    {
      assert ChatOk(w, u);
    }
  }

  /** Changing only a chat's marks or name does not touch membership. */
  lemma RecordKeepsMembership(w: Worker, t: nat, chat: Chat)
    requires MembershipOk(w) && t in w.chats
    requires chat.room == w.chats[t].room && chat.inRoom == w.chats[t].inRoom
    requires chat.loggedIn ==> chat.onResponse != LoginHandler
    requires chat.room.Some? ==> chat.loggedIn
    ensures MembershipOk(w.(chats := w.chats[t := chat]))
  {
    var after := w.(chats := w.chats[t := chat]);
    forall r | r in after.rooms
      ensures RoomOk(after, r)
    {
      assert RoomOk(w, r);
    }
    forall u | u in after.chats
      ensures ChatOk(after, u)
    {
      assert ChatOk(w, u);
    }
    assert ChatOk(w, t);
  }

  lemma JoinKeepsMembership(w: Worker, t: nat, room: seq<byte>)
    requires MembershipOk(w) && t in w.chats
    ensures ChatOk(w, t) && MembershipOk(Join(w, t, room).after)
  {
    assert ChatOk(w, t);
    if w.chats[t].loggedIn && room in w.rooms && |w.rooms[room]| < MAX_CHAT_ROOM_USER && w.chats[t].room != Some(room) {
      LeaveKeepsMembership(w, t);
      EnterKeepsMembership(Leave(w, t).after, t, room);
    }
  }

  /** Closing: the chat is in no room afterwards and holds no name as a logged-in user. */
  lemma CloseKeepsMembership(w: Worker, t: nat)
    requires MembershipOk(w) && t in w.chats
    ensures ChatOk(w, t) && MembershipOk(Close(w, t).after)
    ensures t in Close(w, t).after.chats
    ensures var chat := Close(w, t).after.chats[t];
      chat.room == None && (chat.loggedIn ==> chat.name == []) && (chat.quit || chat.softQuit)
  {
    assert ChatOk(w, t);
    var chat := w.chats[t];
    var marked := w.(chats := w.chats[t := if chat.softQuit || chat.quit then chat else chat.(quit := true)]);
    RecordKeepsMembership(w, t, marked.chats[t]);
    LeaveKeepsMembership(marked, t);
    var left := (if chat.inRoom then Leave(marked, t) else Effect(marked, [])).after;
    if chat.loggedIn && chat.name != [] {
      RecordKeepsMembership(left, t, left.chats[t].(loggedIn := false));
    }
  }

  /** A closed chat is listed in no room, and closing it again changes nothing and sends nothing. */
  lemma ClosedForGood(w: Worker, t: nat)
    requires MembershipOk(w) && t in w.chats
    ensures ChatOk(w, t)
    ensures var after := Close(w, t).after;
      && t in after.chats
      && (forall r | r in after.rooms :: t !in after.rooms[r])
      && Close(after, t) == Effect(after, [])
  {
    CloseKeepsMembership(w, t);
    var after := Close(w, t).after;
    forall r | r in after.rooms
      ensures t !in after.rooms[r]
    {
      assert RoomOk(after, r);
    }
    assert ChatOk(after, t);
    assert after.(chats := after.chats[t := after.chats[t]]) == after;
  }

  lemma QuitKeepsMembership(w: Worker, t: nat)
    requires MembershipOk(w) && t in w.chats
    ensures ChatOk(w, t) && MembershipOk(Quit(w, t).after)
  {
    LeaveKeepsMembership(w, t);
    var left := Leave(w, t).after;
    var marked := left.(chats := left.chats[t := left.chats[t].(quit := true)]);
    assert ChatOk(left, t);
    RecordKeepsMembership(left, t, marked.chats[t]);
    if marked.chats[t].name != [] {
      RecordKeepsMembership(marked, t, marked.chats[t].(loggedIn := false));
    }
  }

  lemma LoginReplyKeepsMembership(w: Worker, t: int, success: bool, name: seq<byte>)
    requires MembershipOk(w)
    ensures MembershipOk(LoginReply(w, t, success, name))
  {
    if name != [] && Reachable(w, t) && success {
      assert ChatOk(w, t);
      RecordKeepsMembership(w, t, w.chats[t].(name := name, onResponse := NoHandler, loggedIn := true));
    }
  }

  // ---------------------------------------------------------------- what an operation does

  /** The chat once it is in no room; nobody handles its next line if it has just left one. */
  function Outside(chat: Chat): Chat
  {
    chat.(room := None, inRoom := false, onResponse := if chat.room.Some? then NoHandler else chat.onResponse)
  }

  /** The list has lost t and nothing else. */
  ghost predicate Lost(before: seq<nat>, after: seq<nat>, t: nat)
  {
    |after| == |before| - 1 && NoDuplicates(after) && forall u :: u in after <==> u in before && u != t
  }

  /** Leaving takes the chat out of the list of its room, and out of no other; a chat in no room stays as it is. */
  lemma LeaveTakesOut(w: Worker, t: nat)
    requires MembershipOk(w) && t in w.chats
    ensures ChatOk(w, t)
    ensures var after := Leave(w, t).after;
      && after.pid == w.pid && after.chats == w.chats[t := Outside(w.chats[t])] && after.rooms.Keys == w.rooms.Keys
      && forall r | r in w.rooms ::
           if w.chats[t].room == Some(r) then Lost(w.rooms[r], after.rooms[r], t) else after.rooms[r] == w.rooms[r]
    ensures w.chats[t].room == None ==> Leave(w, t) == Effect(w, [])
  {
    assert ChatOk(w, t);
    if w.chats[t].room.Some? {
      var room := w.chats[t].room.value;
      assert RoomOk(w, room);
      WithoutRemoves(w.rooms[room], t);
    } else {
      assert w.chats == w.chats[t := w.chats[t]];
    }
  }

  /** There is space for t in this room of the process, and t may enter it. */
  predicate MayJoin(w: Worker, t: nat, room: seq<byte>)
    requires t in w.chats
  {
    w.chats[t].loggedIn && room in w.rooms && |w.rooms[room]| < 32
  }

  /** The chat once it is in the room. */
  function Inside(chat: Chat, room: seq<byte>): Chat
  {
    chat.(room := Some(room), inRoom := true, onResponse := BroadcastHandler)
  }

  /** Joining puts the chat at the end of the list of the room and takes it out of the one it was in;
      all other lists and chats stay as they are. */
  lemma JoinPutsIn(w: Worker, t: nat, room: seq<byte>)
    requires MembershipOk(w) && t in w.chats && MayJoin(w, t, room) && w.chats[t].room != Some(room)
    ensures ChatOk(w, t)
    ensures var after := Join(w, t, room).after;
      && after.pid == w.pid && after.chats == w.chats[t := Inside(w.chats[t], room)]
      && after.rooms.Keys == w.rooms.Keys && after.rooms[room] == w.rooms[room] + [t]
      && forall r | r in w.rooms && r != room ::
           if w.chats[t].room == Some(r) then Lost(w.rooms[r], after.rooms[r], t) else after.rooms[r] == w.rooms[r]
  {
    LeaveTakesOut(w, t);
    assert w.chats[t := Outside(w.chats[t])][t := Inside(w.chats[t], room)] == w.chats[t := Inside(w.chats[t], room)];
  }

  /** A chat that may not join stays where it is, and nothing is sent; one that is in the room already stays there. */
  lemma JoinChangesNothing(w: Worker, t: nat, room: seq<byte>)
    requires MembershipOk(w) && t in w.chats && (!MayJoin(w, t, room) || w.chats[t].room == Some(room))
    ensures ChatOk(w, t) && Join(w, t, room).after == w
    ensures !MayJoin(w, t, room) ==> Join(w, t, room).sent == []
  {
    assert ChatOk(w, t);
  }

  /** Giving a name back clears the login bit, touches nothing else, and sends one unset of its key nobody waits for;
      without a name nothing happens. */
  lemma LogoffMeans(w: Worker, t: nat)
    requires t in w.chats
    ensures var chat := w.chats[t];
      Logoff(w, t).after == w.(chats := w.chats[t := chat.(loggedIn := chat.loggedIn && chat.name == [])])
    ensures var name := w.chats[t].name;
      Logoff(w, t).sent == if name == [] then [] else [Call(w.pid, -1, Ascii("null"), Unset(Ascii("user/") + name))]
  {
    assert w.chats[t := w.chats[t]] == w.chats;
  }

  lemma LastUpdateCounts(chats: map<nat, Chat>, t: nat, first: Chat, last: Chat)
    ensures chats[t := first][t := last] == chats[t := last]
  {
  }

  /** Closing marks the chat as quit unless it was on its way out, and leaves it in no room and without a held name. */
  lemma CloseMeans(w: Worker, t: nat)
    requires MembershipOk(w) && t in w.chats
    ensures ChatOk(w, t)
    ensures var chat := w.chats[t];
      Close(w, t).after.chats == w.chats[t := Outside(chat).(quit := chat.quit || !chat.softQuit,
                                                             loggedIn := chat.loggedIn && chat.name == [])]
  {
    assert ChatOk(w, t);
    var chat := w.chats[t];
    var mark := if chat.softQuit || chat.quit then chat else chat.(quit := true);
    var marked := w.(chats := w.chats[t := mark]);
    RecordKeepsMembership(w, t, mark);
    LeaveTakesOut(marked, t);
    LastUpdateCounts(w.chats, t, mark, Outside(mark));
    var left := (if chat.inRoom then Leave(marked, t) else Effect(marked, [])).after;
    assert left.chats == w.chats[t := Outside(mark)];
    LogoffMeans(left, t);
    LastUpdateCounts(w.chats, t, Outside(mark), Outside(mark).(loggedIn := chat.loggedIn && chat.name == []));
  }

  /** The quit command takes the chat out of its room, gives its name back, and nobody reaches it any more. */
  lemma QuitMeans(w: Worker, t: nat)
    requires MembershipOk(w) && t in w.chats
    ensures ChatOk(w, t)
    ensures var chat, after := w.chats[t], Quit(w, t).after;
      && after.chats == w.chats[t := Outside(chat).(quit := true, loggedIn := chat.loggedIn && chat.name == [])]
      && after.rooms == Leave(w, t).after.rooms && !Reachable(after, t)
  {
    LeaveTakesOut(w, t);
    var chat, left := w.chats[t], Leave(w, t).after;
    LastUpdateCounts(w.chats, t, Outside(chat), Outside(chat).(quit := true));
    LogoffMeans(left.(chats := left.chats[t := left.chats[t].(quit := true)]), t);
    LastUpdateCounts(w.chats, t, Outside(chat).(quit := true),
                     Outside(chat).(quit := true, loggedIn := chat.loggedIn && chat.name == []));
  }

  /** A successful reply with a name logs the chat in, and takes the login handler away, exactly when the chat exists
      and is not on its way out; every other reply changes nothing. */
  lemma LoginReplyMeans(w: Worker, t: int, success: bool, name: seq<byte>)
    ensures var there := t >= 0 && t in w.chats && !w.chats[t].quit && !w.chats[t].softQuit && !w.chats[t].zombie;
      LoginReply(w, t, success, name) ==
        if there && success && name != []
        then w.(chats := w.chats[t := w.chats[t].(name := name, loggedIn := true, onResponse := NoHandler)])
        else w
  {
  }

  // ---------------------------------------------------------------- what an operation leaves alone

  /** Nothing but one chat and the user lists differ. */
  ghost predicate OthersKept(w: Worker, after: Worker, t: nat)
  {
    && after.pid == w.pid && after.chats.Keys == w.chats.Keys && after.rooms.Keys == w.rooms.Keys
    && (forall u | u in w.chats && u != t :: after.chats[u] == w.chats[u])
  }

  lemma LeaveFrame(w: Worker, t: nat)
    requires MembershipOk(w) && t in w.chats
    ensures ChatOk(w, t) && OthersKept(w, Leave(w, t).after, t)
    ensures Leave(w, t).after.chats[t] == Outside(w.chats[t])
  {
    assert ChatOk(w, t);
  }

  lemma JoinFrame(w: Worker, t: nat, room: seq<byte>)
    requires MembershipOk(w) && t in w.chats
    ensures ChatOk(w, t) && OthersKept(w, Join(w, t, room).after, t)
    ensures Join(w, t, room).after.chats[t].loggedIn == w.chats[t].loggedIn
    ensures Join(w, t, room).after.chats[t].name == w.chats[t].name
    ensures Reachable(Join(w, t, room).after, t) == Reachable(w, t)
  {
    LeaveFrame(w, t);
  }

  lemma CloseFrame(w: Worker, t: nat)
    requires MembershipOk(w) && t in w.chats
    ensures ChatOk(w, t) && OthersKept(w, Close(w, t).after, t)
    ensures Close(w, t).after.chats[t].name == w.chats[t].name
  {
    CloseKeepsMembership(w, t);
  }

  // ---------------------------------------------------------------- sizes

  /** The sum of the sizes of the lists of the rooms named in `names`. */
  ghost function SizeSum(rooms: map<seq<byte>, seq<nat>>, names: seq<seq<byte>>): nat
    requires forall r | r in names :: r in rooms
  {
    if names == [] then 0
    else
      var front, last := names[..|names| - 1], names[|names| - 1];
      SizeSum(rooms, front) + |rooms[last]|
  }

  ghost function ChatsIn(w: Worker, names: seq<seq<byte>>): set<nat>
  {
    set t | t in w.chats && w.chats[t].room.Some? && w.chats[t].room.value in names
  }

  ghost function Members(list: seq<nat>): set<nat>
  {
    set t | t in list
  }

  lemma {:induction false} NoDuplicatesSize(list: seq<nat>)
    requires NoDuplicates(list)
    ensures |Members(list)| == |list|
  {
    if |list| > 0 {
      var front, last := list[..|list| - 1], list[|list| - 1];
      NoDuplicatesSize(front);
      assert list == front + [last];
      assert Members(list) == Members(front) + {last};
      assert last !in Members(front);
    }
  }

  lemma {:induction false} SizesOfSomeRooms(w: Worker, names: seq<seq<byte>>)
    requires MembershipOk(w) && (forall r | r in names :: r in w.rooms)
    requires forall i, j | 0 <= i < j < |names| :: names[i] != names[j]
    ensures SizeSum(w.rooms, names) == |ChatsIn(w, names)|
  {
    if |names| > 0 {
      var front, last := names[..|names| - 1], names[|names| - 1];
      SizesOfSomeRooms(w, front);
      assert names == front + [last];
      assert RoomOk(w, last);
      NoDuplicatesSize(w.rooms[last]);
      forall t | t in w.chats
        ensures ChatOk(w, t)
      {
      }
      assert ChatsIn(w, names) == ChatsIn(w, front) + Members(w.rooms[last]);
      assert last !in front;
      assert ChatsIn(w, front) !! Members(w.rooms[last]);
    }
  }

  /** The sizes of all rooms add up to the number of chats that are in a room. */
  lemma RoomSizesAddUp(w: Worker, names: seq<seq<byte>>)
    requires MembershipOk(w)
    requires forall i, j | 0 <= i < j < |names| :: names[i] != names[j]
    requires forall r :: r in names <==> r in w.rooms
    ensures SizeSum(w.rooms, names) == |set t | t in w.chats && w.chats[t].inRoom|
  {
    SizesOfSomeRooms(w, names);
    forall t | t in w.chats
      ensures ChatOk(w, t)
    {
    }
    assert ChatsIn(w, names) == set t | t in w.chats && w.chats[t].inRoom;
  }
}
