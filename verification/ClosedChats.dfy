/** A closed chat stays closed, whatever replies for it still arrive (apps/chat/src/chat_factory.c:37-61). */
module ClosedChats {
  import opened Bytes
  import opened Options
  import opened ChatWorker
  import opened ChatSystem

  /** On its way out, in no room, and not logged in under a name. */
  predicate Gone(w: Worker, t: nat)
  {
    t in w.chats
    && var chat := w.chats[t];
       (chat.quit || chat.softQuit) && chat.room == None && (chat.loggedIn ==> chat.name == [])
  }

  /** Closing such a chat again changes nothing and sends nothing, and no room lists it. */
  lemma GoneForGood(w: Worker, t: nat)
    requires MembershipOk(w) && Gone(w, t)
    ensures Close(w, t) == Effect(w, [])
    ensures forall r | r in w.rooms :: t !in w.rooms[r]
  {
    assert ChatOk(w, t);
    assert w.(chats := w.chats[t := w.chats[t]]) == w;
    forall r | r in w.rooms
      ensures t !in w.rooms[r]
    {
      assert RoomOk(w, r);
    }
  }

  lemma CloseMakesGone(w: Worker, t: nat)
    requires MembershipOk(w) && t in w.chats
    ensures ChatOk(w, t) && Gone(Close(w, t).after, t)
  {
    CloseKeepsMembership(w, t);
  }

  /** Leaving, quitting and being closed keep a chat gone or concern another one. */
  lemma LeaveKeepsGone(w: Worker, u: nat, t: nat)
    requires MembershipOk(w) && Gone(w, t) && u in w.chats
    ensures ChatOk(w, u) && Gone(Leave(w, u).after, t) && Gone(Quit(w, u).after, t) && Gone(HandOver(w, u).after, t)
  {
    LeaveFrame(w, u);
  }

  lemma CloseKeepsGone(w: Worker, u: nat, t: nat)
    requires MembershipOk(w) && Gone(w, t) && u in w.chats
    ensures ChatOk(w, u) && Gone(Close(w, u).after, t)
    ensures u != t ==> Gone(Freed(w, u).after, t)
  {
    CloseFrame(w, u);
    CloseMakesGone(w, u);
  }

  lemma JoinKeepsGone(w: Worker, u: nat, room: seq<byte>, t: nat)
    requires MembershipOk(w) && Gone(w, t) && u in w.chats && u != t
    ensures ChatOk(w, u) && Gone(Join(w, u, room).after, t)
  {
    JoinFrame(w, u, room);
  }

  /** The hidden join of another chat, on a fresh connection or on one that exists. */
  lemma HiddenJoinKeepsGone(w: Worker, u: nat, chat: Chat, room: seq<byte>, name: seq<byte>, t: nat)
    requires MembershipOk(w) && Gone(w, t) && u != t && Replaces(w, u, chat)
    requires chat.room.Some? ==> chat.room.value in w.rooms
    ensures Gone(HiddenJoin(w, u, chat, room, name).after, t)
  {
    if room != [] && name != [] {
      var named := chat.(loggedIn := true, name := name);
      PutKeepsMembership(w, u, named);
      JoinKeepsGone(Marked(w, u, named).after, u, room, t);
    }
  }

  /** A reply for a chat that is gone finds nobody. */
  lemma DeliverKeepsGone(s: System, i: nat, p: int, t: nat)
    requires Inv(s) && Enabled(s, Deliver(i)) && p in s.workers && Gone(s.workers[p], t)
    ensures p in Next(s, Deliver(i)).workers && Gone(Next(s, Deliver(i)).workers[p], t)
  {
    var q, reply := s.replies[i].0, s.replies[i].1;
    var w := s.workers[q];
    if q == p && reply.hook == ROOM_PID_HOOK && reply.hook != LOGIN_HOOK {
      match RoomLookup(w, reply) {
        case NotFound =>
        case Here(room) => JoinKeepsGone(w, reply.token, room, t);
        case Elsewhere(pid, room) => LeaveKeepsGone(w, reply.token, t);
      }
    }
  }

  predicate Closes(step: Step) { step.LeaveCommand? || step.QuitCommand? || step.CloseChat? || step.Free? }

  /** A chat being left, quit, closed or freed next to it. */
  lemma ClosingKeepsGone(s: System, step: Step, p: int, t: nat)
    requires Inv(s) && Enabled(s, step) && Closes(step) && step != Free(p, t) && p in s.workers && Gone(s.workers[p], t)
    ensures p in Next(s, step).workers && Gone(Next(s, step).workers[p], t)
  {
    if step.p == p {
      LeaveKeepsGone(s.workers[p], step.t, t);
      CloseKeepsGone(s.workers[p], step.t, t);
    }
  }

  lemma ArriveKeepsGone(s: System, i: nat, u: nat, p: int, t: nat)
    requires Inv(s) && Enabled(s, Arrive(i, u)) && p in s.workers && Gone(s.workers[p], t)
    ensures p in Next(s, Arrive(i, u)).workers && Gone(Next(s, Arrive(i, u)).workers[p], t)
  {
    if s.handovers[i].dest == p {
      HiddenJoinKeepsGone(s.workers[p], u, CONNECTED, s.handovers[i].room, s.handovers[i].name, t);
    }
  }

  lemma HiddenJoinLineKeepsGone(s: System, q: int, u: nat, room: seq<byte>, name: seq<byte>, p: int, t: nat)
    requires Inv(s) && Enabled(s, HiddenJoinLine(q, u, room, name)) && p in s.workers && Gone(s.workers[p], t)
    ensures var after := Next(s, HiddenJoinLine(q, u, room, name));
      p in after.workers && Gone(after.workers[p], t)
  {
    if q == p {
      HiddenJoinKeepsGone(s.workers[p], u, s.workers[p].chats[u], room, name, t);
    }
  }

  /** Whatever happens, short of freeing the chat itself, it stays gone. */
  lemma StepKeepsGone(s: System, step: Step, p: int, t: nat)
    requires Inv(s) && Enabled(s, step) && step != Free(p, t) && p in s.workers && Gone(s.workers[p], t)
    ensures p in Next(s, step).workers && Gone(Next(s, step).workers[p], t)
  {
    if Closes(step) {
      ClosingKeepsGone(s, step, p, t);
    } else if step.Deliver? {
      DeliverKeepsGone(s, step.i, p, t);
    } else if step.Arrive? {
      ArriveKeepsGone(s, step.i, step.t, p, t);
    } else if step.HiddenJoinLine? {
      HiddenJoinLineKeepsGone(s, step.p, step.t, step.room, step.name, p, t);
    }
  }

  lemma {:induction false} RunsKeepGone(s: System, run: seq<Step>, p: int, t: nat)
    requires Inv(s) && Legal(s, run) && p in s.workers && Gone(s.workers[p], t)
    requires forall k | 0 <= k < |run| :: run[k] != Free(p, t)
    ensures p in Run(s, run).workers && Gone(Run(s, run).workers[p], t)
    decreases run
  {
    if |run| > 0 {
      StepKeepsInv(s, run[0]);
      StepKeepsGone(s, run[0], p, t);
      RunsKeepGone(Next(s, run[0]), run[1..], p, t);
    }
  }

  lemma {:induction false} ClosedIsGone(s: System, run: seq<Step>, k: nat, p: int, t: nat)
    requires Inv(s) && Legal(s, run) && k < |run| && run[k] == CloseChat(p, t)
    requires forall j | k < j < |run| :: run[j] != Free(p, t)
    ensures p in Run(s, run).workers && Gone(Run(s, run).workers[p], t)
    decreases run
  {
    var next := Next(s, run[0]);
    StepKeepsInv(s, run[0]);
    if k == 0 {
      CloseMakesGone(s.workers[p], t);
      RunsKeepGone(next, run[1..], p, t);
    } else {
      ClosedIsGone(next, run[1..], k - 1, p, t);
    }
  }

  /** Once a chat has been closed, at any point of any run and until it is freed: no room lists it, also after
      login and room replies for it have arrived, and closing it again changes nothing and sends nothing. */
  lemma ClosedStaysClosed(s: System, run: seq<Step>, k: nat, p: int, t: nat)
    requires Initial(s) && Legal(s, run) && k < |run| && run[k] == CloseChat(p, t)
    requires forall j | k < j < |run| :: run[j] != Free(p, t)
    ensures var end := Run(s, run);
      && p in end.workers && t in end.workers[p].chats
      && (forall r | r in end.workers[p].rooms :: t !in end.workers[p].rooms[r])
      && Enabled(end, CloseChat(p, t)) && Next(end, CloseChat(p, t)) == end
  {
    var end := Run(s, run);
    InitialInv(s);
    RunsKeepInv(s, run);
    ClosedIsGone(s, run, k, p, t);
    GoneForGood(end.workers[p], t);
    assert end.workers[p := end.workers[p]] == end.workers && end.outbox + [] == end.outbox;
  }
}
