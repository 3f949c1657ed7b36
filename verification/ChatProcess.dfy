/** The chat module of one worker process: connection records and user lists updated in place
    (apps/chat/src/broadcast.c, chat_factory.c, user.c, welcome.c, room.c, quit.c, db/src/async_db.c). */
module ChatProcess {
  import opened Bytes
  import opened Options
  import opened AsyncRequest
  import opened Scanner
  import opened ChatWorker

  /** Removing the first occurrence. */
  lemma {:induction false} WithoutAt(list: seq<nat>, t: nat, i: nat)
    requires i < |list| && list[i] == t && t !in list[..i]
    ensures Without(list, t) == list[..i] + list[i + 1..]
  {
    if i > 0 {
      assert list[0] in list[..i];
      assert list[1..][..i - 1] == list[..i][1..];
      WithoutAt(list[1..], t, i - 1);
      assert list[1..][i..] == list[i + 1..];
    }
  }

  class Process {
    const pid: int
    var chats: map<nat, Chat>
    var rooms: map<seq<byte>, seq<nat>>
    var sent: seq<Call>

    ghost function State(): Worker
      reads this
    {
      Worker(pid, chats, rooms)
    }

    ghost predicate Valid()
      reads this
    {
      MembershipOk(State())
    }

    constructor (pid: int)
      ensures Valid() && State() == Worker(pid, map[], map[]) && sent == []
    {
      this.pid := pid;
      chats, rooms, sent := map[], map[], [];
    }

    method Throw(request: Request)
      modifies this`sent
      ensures sent == old(sent) + [Quiet(pid, request)]
    {
      sent := sent + [Quiet(pid, request)];
    }

    /** async_db_increment(): an unset when the count drops to 0, else a compare-and-swap,
        preceded by a set-if-null when the count starts at 0. */
    method Increment(key: seq<byte>, value: int, increment: int)
      modifies this`sent
      ensures sent == old(sent) + QuietCalls(pid, IncrementRequests(key, value, increment))
    {
      if value + increment == 0 {
        Throw(Unset(key));
        return;
      }
      if value == 0 {
        Throw(SetIfNull(key, DecimalInt(increment)));
      }
      Throw(Cas(key, DecimalInt(value + increment), DecimalInt(value)));
    }

    method SetUserCount(room: seq<byte>, count: int, increment: int) returns (ret: int)
      modifies this`sent
      ensures sent == old(sent) + CountCalls(pid, room, count, increment)
    {
      if |room| == 0 {
        return -1;
      }
      Increment(CountKey(room), count, increment);
      return 0;
    }

    method RoomLeave(t: nat)
      requires Valid() && t in chats
      modifies this
      ensures Valid() && ChatOk(old(State()), t)
      ensures State() == Leave(old(State()), t).after && sent == old(sent) + Leave(old(State()), t).sent
    {
      assert ChatOk(State(), t);
      LeaveKeepsMembership(State(), t);
      if chats[t].room.None? {
        return;
      }
      var room := chats[t].room.value;
      assert chats[t].inRoom;
      var list := rooms[room];
      var i := 0;
      while i < |list|
        invariant 0 <= i <= |list| && t !in list[..i]
        invariant rooms == old(rooms) && chats == old(chats) && sent == old(sent)
      {
        if list[i] == t {
          WithoutAt(list, t, i);
          rooms := rooms[room := list[..i] + list[i + 1..]];
          break;
        }
        i := i + 1;
      }
      assert rooms[room] == Without(list, t) by {
        assert list[..|list|] == list;
      }
      chats := chats[t := chats[t].(room := None, onResponse := NoHandler, inRoom := false)];
      var ret := SetUserCount(room, |rooms[room]| + 1, -1);
    }

    /** Out of the room the chat is in, if any, and into this one. */
    method EnterFromAnywhere(t: nat, room: seq<byte>)
      requires Valid() && t in chats && room in rooms && chats[t].room != Some(room)
      modifies this
      ensures ChatOk(old(State()), t) && Leave(old(State()), t).after.rooms.Keys == old(rooms.Keys)
      ensures State() == Enter(Leave(old(State()), t).after, t, room) && sent == old(sent) + Leave(old(State()), t).sent
    {
      LeaveFrame(State(), t);
      assert ChatOk(State(), t);
      if chats[t].room.Some? {
        assert chats[t].inRoom;
        RoomLeave(t);
      }
      rooms := rooms[room := rooms[room] + [t]];
      chats := chats[t := chats[t].(room := Some(room), onResponse := BroadcastHandler, inRoom := true)];
    }

    method RoomJoin(t: nat, room: seq<byte>) returns (ret: int)
      requires Valid() && t in chats
      modifies this
      ensures Valid() && ChatOk(old(State()), t)
      ensures State() == Join(old(State()), t, room).after && sent == old(sent) + Join(old(State()), t, room).sent
      ensures ret == (if old(chats[t].loggedIn && room in rooms && |rooms[room]| < 32) then 0 else -1)
    {
      assert ChatOk(State(), t);
      JoinKeepsMembership(State(), t, room);
      if !chats[t].loggedIn {
        return -1;
      }
      if room !in rooms {
        return -1;
      }
      if |rooms[room]| >= MAX_CHAT_ROOM_USER {
        return -1;
      }
      if chats[t].room == Some(room) {
        assert chats[t].inRoom;
      } else {
        EnterFromAnywhere(t, room);
      }
      var count := |rooms[room]| - 1;
      var r := SetUserCount(room, count, 1);
      return 0;
    }

    method LogoffUser(t: nat) returns (ret: int)
      requires t in chats
      modifies this
      ensures State() == Logoff(old(State()), t).after && sent == old(sent) + Logoff(old(State()), t).sent
      ensures ret == -1 <==> old(chats[t].name) == []
    {
      if |chats[t].name| == 0 {
        return -1;
      }
      Throw(Unset(NameKey(chats[t].name)));
      chats := chats[t := chats[t].(loggedIn := false)];
      return 0;
    }

    method MarkQuit(t: nat)
      requires Valid() && t in chats
      modifies this`chats
      ensures Valid() && chats == old(chats)[t :=
        old(if chats[t].softQuit || chats[t].quit then chats[t] else chats[t].(quit := true))]
    {
      ghost var mark := if chats[t].softQuit || chats[t].quit then chats[t] else chats[t].(quit := true);
      RecordKeepsMembership(State(), t, mark);
      assert ChatOk(State(), t);
      if !(chats[t].softQuit || chats[t].quit) {
        chats := chats[t := chats[t].(quit := true)];
      }
      assert old(chats[t := chats[t]]) == old(chats);
    }

    method LeaveIfInRoom(t: nat)
      requires Valid() && t in chats
      modifies this
      ensures Valid() && ChatOk(old(State()), t) && t in chats && chats[t].loggedIn == old(chats[t].loggedIn)
      ensures State() == (if old(chats[t].inRoom) then Leave(old(State()), t).after else old(State()))
      ensures sent == old(sent) + if old(chats[t].inRoom) then Leave(old(State()), t).sent else []
    {
      assert ChatOk(State(), t);
      if chats[t].inRoom {
        LeaveFrame(State(), t);
        RoomLeave(t);
      }
    }

    method ChatClose(t: nat)
      requires Valid() && t in chats
      modifies this
      ensures Valid() && ChatOk(old(State()), t)
      ensures State() == Close(old(State()), t).after && sent == old(sent) + Close(old(State()), t).sent
    {
      CloseKeepsMembership(State(), t);
      MarkQuit(t);
      ghost var marked := State();
      LeaveIfInRoom(t);
      ghost var left := if marked.chats[t].inRoom then Leave(marked, t) else Effect(marked, []);
      assert State() == left.after && sent == old(sent) + left.sent;
      if chats[t].loggedIn {
        var ret := LogoffUser(t);
        assert old(sent) + (left.sent + Logoff(left.after, t).sent) == sent;
      }
    }

    method ChatQuit(t: nat)
      requires Valid() && t in chats
      modifies this
      ensures Valid() && ChatOk(old(State()), t)
      ensures State() == Quit(old(State()), t).after && sent == old(sent) + Quit(old(State()), t).sent
    {
      QuitKeepsMembership(State(), t);
      RoomLeave(t);
      chats := chats[t := chats[t].(quit := true)];
      var ret := LogoffUser(t);
    }

    /** on_asyncchat_login(): the first word of the line is the name asked for. */
    method OnLogin(t: nat, answer: seq<byte>)
      requires Valid() && Reachable(State(), t) && chats[t].onResponse == LoginHandler
      modifies this`sent
      ensures sent == old(sent) + AskName(State(), t, FirstWord(answer)).sent
    {
      assert ChatOk(State(), t);
      assert !chats[t].loggedIn && !chats[t].inRoom && !chats[t].quit && !chats[t].softQuit && !chats[t].zombie;
      var name, rest := NextToken(answer);
      if |name| == 0 {
        return;
      }
      if |name| >= MAX_CHAT_USER_NAME_SIZE {
        return;
      }
      sent := sent + [Call(pid, t, LOGIN_HOOK, SetIfNull(NameKey(name), name))];
    }

    method OnLoginReply(token: int, success: bool, name: seq<byte>)
      requires Valid()
      modifies this
      ensures Valid() && sent == old(sent)
      ensures State() == LoginReply(old(State()), token, success, name)
    {
      LoginReplyKeepsMembership(State(), token, success, name);
      if |name| == 0 {
        return;
      }
      if !(token >= 0 && token in chats) || chats[token].quit || chats[token].softQuit || chats[token].zombie {
        return;
      }
      if success {
        chats := chats[token := chats[token].(name := name, onResponse := NoHandler, loggedIn := true)];
      }
    }

    /** broadcast_add_room(): a room that exists already is left alone. */
    method AddRoom(name: seq<byte>)
      requires Valid() && name != []
      modifies this`rooms
      ensures Valid() && rooms == if name in old(rooms) then old(rooms) else old(rooms)[name := []]
    {
      if name in rooms {
        return;
      }
      forall t | t in chats
        ensures ChatOk(Worker(pid, chats, rooms[name := []]), t)
      {
        assert ChatOk(State(), t);
      }
      forall r | r in rooms
        ensures RoomOk(Worker(pid, chats, rooms[name := []]), r)
      {
        assert RoomOk(State(), r);
      }
      rooms := rooms[name := []];
    }
  }
}
