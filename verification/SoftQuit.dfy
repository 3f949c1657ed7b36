/** What a process does with its connections when it is told to quit softly (apps/chat/src/chat_factory.c:65-76). */
module SoftQuit {
  import opened Bytes
  import opened Options
  import opened Sequences
  import opened AsyncRequest
  import opened Database
  import opened ChatWorker
  import opened RoomCounters
  import opened ChatSystem
  import opened NameExclusivity
  import opened ChatProcess

  /** Out of the room, then closed. */
  function LeftAndClosed(w: Worker, t: nat): Effect
    requires t in w.chats && (w.chats[t].room.Some? ==> w.chats[t].room.value in w.rooms)
    requires Leave(w, t).after.chats[t].room == None
  {
    var left := Leave(w, t);
    var closed := Close(left.after, t);
    Effect(closed.after, left.sent + closed.sent)
  }

  /** It keeps the counters of any table that agrees with the process, and turns the chat's name into one unset. */
  lemma LeftAndClosedSound(db: Table, w: Worker, t: nat)
    requires MembershipOk(w) && CountersOk(db, w) && t in w.chats
    ensures ChatOk(w, t) && Leave(w, t).after.chats[t].room == None
    ensures Sound(db, w, LeftAndClosed(w, t)) && ConservesAll(w, t, LeftAndClosed(w, t))
    ensures OthersKept(w, LeftAndClosed(w, t).after, t)
  {
    var left := Leave(w, t);
    LeaveSound(db, w, t);
    LeaveConserves(w, t);
    LeaveFrame(w, t);
    CloseSound(Served(db, left.sent), left.after, t);
    CloseConserves(left.after, t);
    CloseFrame(left.after, t);
    SoundTwice(db, w, left, Close(left.after, t));
    ConservesTwice(w, t, left, Close(left.after, t));
  }

  /** The chat is done with: in no room, on its way out, and not logged in under a name. */
  predicate Done(w: Worker, t: nat)
  {
    t in w.chats && w.chats[t].room == None && (w.chats[t].quit || w.chats[t].softQuit)
    && (w.chats[t].loggedIn ==> w.chats[t].name == [])
  }

  method LeaveAndClose(process: Process, t: nat, ghost db: Table)
    requires process.Valid() && t in process.chats && CountersOk(db, process.State())
    modifies process
    ensures process.Valid() && Done(process.State(), t)
    ensures ChatOk(old(process.State()), t) && Leave(old(process.State()), t).after.chats[t].room == None
    ensures process.State() == LeftAndClosed(old(process.State()), t).after
    ensures process.sent == old(process.sent) + LeftAndClosed(old(process.State()), t).sent
  {
    ghost var w := process.State();
    LeaveKeepsMembership(w, t);
    process.RoomLeave(t);
    CloseKeepsMembership(process.State(), t);
    process.ChatClose(t);
    Associative(old(process.sent), Leave(w, t).sent, Close(Leave(w, t).after, t).sent);
  }

  /** The chats of a process that are logged in under a name. */
  ghost function HoldersIn(w: Worker, name: seq<byte>): set<nat>
  {
    set t | t in w.chats && LoggedInAs(w, t, name)
  }

  /** What has been sent so far gives back every name exactly as often as it was held and no longer is. */
  ghost predicate GivenBack(before: Worker, after: Worker, calls: seq<Call>)
  {
    forall name | name != [] :: Unsets(calls, name) + |HoldersIn(after, name)| == |HoldersIn(before, name)|
  }

  lemma GivesBackMore(before: Worker, w: Worker, t: nat, e: Effect, calls: seq<Call>)
    requires GivenBack(before, w, calls) && ConservesAll(w, t, e)
    ensures GivenBack(before, e.after, calls + e.sent)
  {
    forall name | name != []
      ensures Unsets(calls + e.sent, name) + |HoldersIn(e.after, name)| == |HoldersIn(before, name)|
    {
      UnsetsAppend(calls, e.sent, name);
      assert Conserves(w, t, e, name);
      SetsDifferInOne(HoldersIn(w, name), HoldersIn(e.after, name), t);
    }
  }

  lemma HasMember(list: seq<nat>)
    ensures list == [] || exists t :: t in list
  {
    if list != [] {
      assert list[0] in list;
    }
  }

  lemma EmptyRooms(w: Worker)
    requires MembershipOk(w) && (forall t | t in w.chats :: w.chats[t].room == None)
    ensures forall r | r in w.rooms :: w.rooms[r] == []
  {
    forall r | r in w.rooms
      ensures w.rooms[r] == []
    {
      assert RoomOk(w, r);
      HasMember(w.rooms[r]);
    }
  }

  /** So far counters and names have been kept. */
  ghost predicate Underway(start: Worker, db: Table, w: Worker, calls: seq<Call>)
  {
    Sound(db, start, Effect(w, calls)) && GivenBack(start, w, calls)
  }

  lemma OneMore(start: Worker, db: Table, w: Worker, calls: seq<Call>, t: nat, e: Effect)
    requires Underway(start, db, w, calls) && Sound(Served(db, calls), w, e) && ConservesAll(w, t, e)
    ensures Underway(start, db, e.after, calls + e.sent)
  {
    SoundTwice(db, start, Effect(w, calls), e);
    GivesBackMore(start, w, t, e, calls);
  }

  method CloseOne(process: Process, t: nat, ghost db: Table, ghost start: Worker, ghost calls: seq<Call>)
    returns (ghost more: seq<Call>)
    requires process.Valid() && t in process.chats && Underway(start, db, process.State(), calls)
    modifies process
    ensures process.Valid() && Underway(start, db, process.State(), more) && Done(process.State(), t)
    ensures OthersKept(old(process.State()), process.State(), t)
    ensures exists e: seq<Call> :: more == calls + e && process.sent == old(process.sent) + e
  {
    ghost var w, d := process.State(), Served(db, calls);
    LeftAndClosedSound(d, w, t);
    LeaveAndClose(process, t, d);
    ghost var e := LeftAndClosed(w, t);
    OneMore(start, db, w, calls, t, e);
    more := calls + e.sent;
  }

  /** chat_factory_on_softquit(). Afterwards every chat is closed and every room is empty. On any table db that agrees
      with the process, the calls sent take every room count to nothing; they give back every name once for each chat
      that was logged in under it; and no call concerns a count of another process. */
  method SoftQuitAll(process: Process, ghost db: Table) returns (ghost calls: seq<Call>)
    requires process.Valid() && CountersOk(db, process.State())
    modifies process
    ensures process.Valid() && process.chats.Keys == old(process.chats.Keys)
            && process.rooms.Keys == old(process.rooms.Keys)
    ensures forall t | t in process.chats :: Done(process.State(), t)
    ensures forall r | r in process.rooms :: process.rooms[r] == [] && Lookup(Served(db, calls), CountKey(r)) == None
    ensures process.sent == old(process.sent) + calls && OwnCalls(old(process.State()), calls)
    ensures forall name | name != [] :: Unsets(calls, name) == |HoldersIn(old(process.State()), name)|
  {
    ghost var start := process.State();
    calls := [];
    ServedNothing(db);
    assert process.sent + calls == process.sent;
    var todo := process.chats.Keys;
    while todo != {}
      invariant process.Valid() && process.chats.Keys == start.chats.Keys && todo <= process.chats.Keys
      invariant process.sent == old(process.sent) + calls && Underway(start, db, process.State(), calls)
      invariant forall t | t in process.chats && t !in todo :: Done(process.State(), t)
      decreases |todo|
    {
      var t :| t in todo;
      ghost var sent, before := process.sent, calls;
      calls := CloseOne(process, t, db, start, calls);
      ghost var e: seq<Call> :| calls == before + e && process.sent == sent + e;
      Associative(old(process.sent), before, e);
      todo := todo - {t};
    }
    EmptyRooms(process.State());
    NobodyLeft(process.State());
  }

  lemma NobodyLeft(w: Worker)
    requires forall t | t in w.chats :: Done(w, t)
    ensures forall name | name != [] :: |HoldersIn(w, name)| == 0
  {
    forall name | name != []
      ensures HoldersIn(w, name) == {}
    {
    }
  }
}
