/** Every call and every reply of a run meets the limits of the coder, so that it is read as it was meant. */
module MessageBounds {
  import opened Bytes
  import opened Options
  import opened Sequences
  import opened BinaryCoder
  import opened AsyncRequest
  import opened Database
  import opened ChatWorker
  import opened ChatSystem

  /** A room name for which the longest key fits the 128-byte key buffer (apps/chat/src/room.c:34-60). */
  const MAX_ROOM_NAME := 118

  predicate IsToken(t: int) { -1 <= t < 0x8000_0000 }

  predicate ShortValue(text: seq<byte>) { |text| < 32 }

  predicate RequestBounded(r: Request)
  {
    |r.key| <= 128
    && match r
       case Cas(_, newval, oldval) => ShortValue(newval) && ShortValue(oldval)
       case SetIfNull(_, newval) => ShortValue(newval)
       case _ => true
  }

  ghost predicate CallBounded(c: Call)
  {
    && 0 <= c.srcpid && IsInt32(c.srcpid) && IsToken(c.token) && |c.hook| <= 21 && RequestBounded(c.request)
    && (c.request.Get? ==> exists r :: c.request.key == PidKey(r))
  }

  predicate ReplyBounded(r: Reply)
  {
    IsToken(r.token) && |r.hook| <= 21 && |r.key| <= 128 && (r.newval.Some? ==> ShortValue(r.newval.value))
  }

  // ---------------------------------------------------------------- sizes of messages

  lemma OneFieldMore(fields: seq<Field>, f: Field)
    ensures MessageLength(fields + [f]) == MessageLength(fields) + HEADER_LEN + |FieldBody(f)|
    ensures BodyStart(fields + [f], |fields|) == MessageLength(fields) + HEADER_LEN
  {
    EncodeAllAppend(fields, [f]);
    EncodeOne(f);
    assert (fields + [f])[..|fields|] == fields;
  }

  lemma HeadLength(pid: int, text: seq<byte>, token: int)
    ensures MessageLength([Num(pid), Str(text), Num(token)]) <= 19 + |text|
  {
    OneFieldMore([], Num(pid));
    assert [] + [Num(pid)] == [Num(pid)];
    OneFieldMore([Num(pid)], Str(text));
    assert [Num(pid)] + [Str(text)] == [Num(pid), Str(text)];
    OneFieldMore([Num(pid), Str(text)], Num(token));
    assert [Num(pid), Str(text)] + [Num(token)] == [Num(pid), Str(text), Num(token)];
  }

  /** The head with a fourth field, and then up to three short texts. */
  lemma WithTexts(head: seq<Field>, args: seq<seq<byte>>)
    requires |head| == 4 && MessageLength(head) <= 64 && 1 <= |args| <= 3 && |args[0]| <= 128
    requires forall i | 1 <= i < |args| :: |args[i]| < 32
    ensures MessageLength(head + Strings(args)) <= 263 && BodyStart(head + Strings(args), 3 + |args|) <= 232
    ensures |args| == 1 ==> MessageLength(head + Strings(args)) <= 195
  {
    OneFieldMore(head, Str(args[0]));
    var one := head + [Str(args[0])];
    assert |args| == 1 ==> head + Strings(args) == one;
    if |args| >= 2 {
      OneFieldMore(one, Str(args[1]));
      var two := one + [Str(args[1])];
      assert |args| == 2 ==> head + Strings(args) == two;
      if |args| == 3 {
        OneFieldMore(two, Str(args[2]));
        assert head + Strings(args) == two + [Str(args[2])];
      }
    }
  }

  lemma CallFits(c: Call)
    requires CallBounded(c)
    ensures MessageLength(MessageFields(c)) <= 263 && BodyStart(MessageFields(c), |MessageFields(c)| - 1) <= 232
  {
    AppsDiffer();
    var three, app := [Num(c.srcpid), Str(App(c.request)), Num(c.token)], App(c.request);
    HeadLength(c.srcpid, app, c.token);
    OneFieldMore(three, Str(c.hook));
    assert three + [Str(c.hook)] == [Num(c.srcpid), Str(app), Num(c.token), Str(c.hook)];
    WithTexts(three + [Str(c.hook)], Args(c.request));
  }

  lemma ReplyFits(mypid: int, r: Reply)
    requires ReplyBounded(r)
    ensures MessageLength(ReplyMessageFields(mypid, r)) <= 263 && ReplyReadable(mypid, r)
  {
    var three, success := [Num(mypid), Str(r.hook), Num(r.token)], if r.success then 1 else 0;
    HeadLength(mypid, r.hook, r.token);
    OneFieldMore(three, Num(success));
    assert three + [Num(success)] == [Num(mypid), Str(r.hook), Num(r.token), Num(success)];
    WithTexts(three + [Num(success)], ReplyArgs(r));
  }

  // ---------------------------------------------------------------- what keeps the bounds

  ghost predicate WorkerBounded(w: Worker)
  {
    && 0 <= w.pid && IsInt32(w.pid)
    && (forall t | t in w.chats :: IsToken(t) && ShortValue(w.chats[t].name))
    && (forall r | r in w.rooms :: |r| <= MAX_ROOM_NAME)
  }

  ghost predicate CallsBounded(calls: seq<Call>)
  {
    forall c | c in calls :: CallBounded(c)
  }

  ghost predicate EffectBounded(e: Effect) { WorkerBounded(e.after) && CallsBounded(e.sent) }

  ghost predicate TableBounded(db: Table)
  {
    forall r | PidKey(r) in db :: ShortValue(db[PidKey(r)])
  }

  ghost predicate Bounded(s: System)
  {
    && TableBounded(s.db) && CallsBounded(s.outbox + s.inbox)
    && (forall r | r in s.replies :: ReplyBounded(r.1))
    && (forall h | h in s.handovers :: ShortValue(h.name))
    && (forall p | p in s.workers :: WorkerBounded(s.workers[p]))
  }

  /** Tokens are ints, a room is asked for by a name that fits the key buffer, and a hidden join brings a short name. */
  predicate StepBounded(step: Step)
  {
    match step
    case Connect(_, t) => IsToken(t)
    case Arrive(_, t) => IsToken(t)
    case AskJoin(_, _, room) => |PidKey(room)| <= 128
    case HiddenJoinLine(_, _, room, name) => room == [] || ShortValue(name)
    case _ => true
  }

  lemma TwoDigits(n: int)
    requires -1 <= n < 100
    ensures |DecimalInt(n)| <= 2
  {
    assert n >= 10 ==> |Decimal(n / 10)| == 1;
  }

  lemma CountCallsBounded(pid: int, room: seq<byte>, count: int, increment: int)
    requires 0 <= pid && IsInt32(pid) && |room| <= MAX_ROOM_NAME && 0 <= count < 99 && -1 <= increment <= 1
    ensures CallsBounded(CountCalls(pid, room, count, increment))
  {
    TwoDigits(count);
    TwoDigits(increment);
    TwoDigits(count + increment);
    assert |NULL_HOOK| == 4 && |ROOM_USER_KEY| == 10;
    forall c | c in CountCalls(pid, room, count, increment)
      ensures CallBounded(c)
    {
      assert c.request in IncrementRequests(CountKey(room), count, increment);
    }
  }

  lemma LeaveBounded(w: Worker, t: nat)
    requires MembershipOk(w) && WorkerBounded(w) && t in w.chats
    ensures ChatOk(w, t) && EffectBounded(Leave(w, t))
  {
    LeaveFrame(w, t);
    LeaveKeepsMembership(w, t);
    if w.chats[t].room.Some? {
      var room := w.chats[t].room.value;
      assert RoomOk(Leave(w, t).after, room);
      CountCallsBounded(w.pid, room, |Leave(w, t).after.rooms[room]| + 1, -1);
    }
  }

  lemma JoinCallsBounded(w: Worker, t: nat, room: seq<byte>)
    requires MembershipOk(w) && WorkerBounded(w) && t in w.chats
    ensures ChatOk(w, t) && CallsBounded(Join(w, t, room).sent)
  {
    LeaveBounded(w, t);
    JoinKeepsMembership(w, t, room);
    var e := Join(w, t, room);
    if e.sent != [] {
      assert RoomOk(e.after, room);
      CountCallsBounded(w.pid, room, |e.after.rooms[room]| - 1, 1);
    }
  }

  lemma JoinBounded(w: Worker, t: nat, room: seq<byte>)
    requires MembershipOk(w) && WorkerBounded(w) && t in w.chats
    ensures ChatOk(w, t) && EffectBounded(Join(w, t, room))
  {
    JoinCallsBounded(w, t, room);
    JoinFrame(w, t, room);
  }

  lemma MarkBounded(w: Worker, t: nat, chat: Chat)
    requires WorkerBounded(w) && IsToken(t) && ShortValue(chat.name)
    ensures EffectBounded(Marked(w, t, chat))
  {
  }

  lemma LogoffBounded(w: Worker, t: nat)
    requires WorkerBounded(w) && t in w.chats
    ensures EffectBounded(Logoff(w, t))
  {
    assert |NULL_HOOK| == 4 && |USER_PREFIX| == 5;
  }

  lemma BoundedTwice(e: Effect, f: Effect)
    requires CallsBounded(e.sent) && EffectBounded(f)
    ensures EffectBounded(Effect(f.after, e.sent + f.sent))
  {
  }

  lemma CloseBounded(w: Worker, t: nat)
    requires MembershipOk(w) && WorkerBounded(w) && t in w.chats
    ensures ChatOk(w, t) && EffectBounded(Close(w, t))
  {
    assert ChatOk(w, t);
    var chat := w.chats[t];
    var mark := Marked(w, t, if chat.softQuit || chat.quit then chat else chat.(quit := true));
    RecordKeepsMembership(w, t, mark.after.chats[t]);
    LeaveBounded(mark.after, t);
    var left := if chat.inRoom then Leave(mark.after, t) else Effect(mark.after, []);
    LeaveFrame(mark.after, t);
    if chat.loggedIn {
      LogoffBounded(left.after, t);
      BoundedTwice(left, Logoff(left.after, t));
    }
  }

  lemma QuitBounded(w: Worker, t: nat)
    requires MembershipOk(w) && WorkerBounded(w) && t in w.chats
    ensures ChatOk(w, t) && EffectBounded(Quit(w, t)) && EffectBounded(HandOver(w, t))
  {
    LeaveBounded(w, t);
    LeaveFrame(w, t);
    var left := Leave(w, t);
    var mark := Marked(left.after, t, left.after.chats[t].(quit := true));
    LogoffBounded(mark.after, t);
    BoundedTwice(left, Logoff(mark.after, t));
  }

  lemma HiddenJoinBounded(w: Worker, t: nat, chat: Chat, room: seq<byte>, name: seq<byte>)
    requires MembershipOk(w) && WorkerBounded(w) && IsToken(t) && ShortValue(chat.name)
             && (room == [] || ShortValue(name))
    requires Replaces(w, t, chat) && (chat.room.Some? ==> chat.room.value in w.rooms)
    ensures EffectBounded(HiddenJoin(w, t, chat, room, name))
  {
    if room == [] || name == [] {
      MarkBounded(w, t, chat.(loggedIn := true));
    } else {
      var named := chat.(loggedIn := true, name := name);
      PutKeepsMembership(w, t, named);
      JoinBounded(Marked(w, t, named).after, t, room);
    }
  }

  lemma WorkerStepKeepsBounds(s: System, p: int, e: Effect)
    requires Bounded(s) && EffectBounded(e)
    ensures Bounded(WorkerStep(s, p, e))
  {
    var after := WorkerStep(s, p, e);
    forall c | c in after.outbox + after.inbox
      ensures CallBounded(c)
    {
      assert c in s.outbox + s.inbox || c in e.sent;
    }
  }

  /** Calls have not grown, and nothing longer than before is in flight. */
  lemma SubsetBounded(s: System, after: System)
    requires Bounded(s) && after.db == s.db && after.workers == s.workers
    requires forall c | c in after.outbox + after.inbox :: c in s.outbox + s.inbox
    requires forall r | r in after.replies :: r in s.replies
    requires forall h | h in after.handovers :: h in s.handovers || ShortValue(h.name)
    ensures Bounded(after)
  {
  }

  lemma ServeKeepsBounds(s: System)
    requires Bounded(s) && Enabled(s, ServeHead)
    ensures Bounded(ChatSystem.Next(s, ServeHead))
  {
    var c, after := s.inbox[0], ChatSystem.Next(s, ServeHead);
    assert c in s.outbox + s.inbox && CallBounded(c);
    assert |NULL_HOOK| == 4;
    assert ReplyBounded(Answer(s.db, c));
    forall d | d in after.outbox + after.inbox
      ensures d in s.outbox + s.inbox
    {
    }
    forall r | PidKey(r) in after.db
      ensures ShortValue(after.db[PidKey(r)])
    {
      if c.request.key != [] {
        ServeMeaning(s.db, c.request);
      }
      assert Lookup(after.db, PidKey(r)) == Lookup(s.db, PidKey(r)) || c.request.key == PidKey(r);
    }
  }

  lemma RoomReplyKeepsBounds(s: System, p: int, reply: Reply)
    requires Bounded(s) && p in s.workers && MembershipOk(s.workers[p])
    requires Reachable(s.workers[p], reply.token) ==> reply.token in s.workers[p].chats
    ensures match RoomLookup(s.workers[p], reply)
      case NotFound => true
      case Here(room) =>
        ChatOk(s.workers[p], reply.token) && Bounded(WorkerStep(s, p, Join(s.workers[p], reply.token, room)))
      case Elsewhere(pid, room) =>
        var sent := s.(handovers := s.handovers + [Handover(pid, room, s.workers[p].chats[reply.token].name)]);
        ChatOk(s.workers[p], reply.token) && Bounded(WorkerStep(sent, p, HandOver(s.workers[p], reply.token)))
  {
    var w := s.workers[p];
    match RoomLookup(w, reply) {
      case NotFound =>
      case Here(room) =>
        JoinBounded(w, reply.token, room);
        WorkerStepKeepsBounds(s, p, Join(w, reply.token, room));
      case Elsewhere(pid, room) =>
        QuitBounded(w, reply.token);
        var sent := s.(handovers := s.handovers + [Handover(pid, room, w.chats[reply.token].name)]);
        SubsetBounded(s, sent);
        WorkerStepKeepsBounds(sent, p, HandOver(w, reply.token));
    }
  }

  lemma DeliverKeepsBounds(s: System, i: nat)
    requires Inv(s) && Bounded(s) && Enabled(s, Deliver(i))
    ensures Bounded(ChatSystem.Next(s, Deliver(i)))
  {
    var p, reply := s.replies[i].0, s.replies[i].1;
    var rest := s.(replies := DropAt(s.replies, i));
    assert s.replies[i] in s.replies;
    SubsetBounded(s, rest);
    if reply.hook == LOGIN_HOOK {
      var name := if reply.newval.Some? then reply.newval.value else [];
      WorkerStepKeepsBounds(rest, p, Effect(LoginReply(s.workers[p], reply.token, reply.success, name), []));
    } else {
      RoomReplyKeepsBounds(rest, p, reply);
    }
  }

  lemma AskBounded(w: Worker, t: nat, name: seq<byte>, room: seq<byte>)
    requires WorkerBounded(w) && IsToken(t) && |PidKey(room)| <= 128
    ensures EffectBounded(AskName(w, t, name))
    ensures EffectBounded(Effect(w, [Call(w.pid, t, ROOM_PID_HOOK, Get(PidKey(room)))]))
  {
    assert |LOGIN_HOOK| == 18 && |ROOM_PID_HOOK| == 21 && |USER_PREFIX| == 5;
  }

  lemma FreedBounded(w: Worker, t: nat)
    requires MembershipOk(w) && WorkerBounded(w) && t in w.chats
    ensures ChatOk(w, t) && EffectBounded(Freed(w, t))
  {
    CloseBounded(w, t);
  }

  /** The steps of one worker on its own. */
  lemma WorkerKeepsBounds(s: System, step: Step)
    requires Inv(s) && Bounded(s) && Enabled(s, step) && StepBounded(step)
    requires !step.Post? && !step.ServeHead? && !step.Deliver? && !step.Arrive?
    ensures Bounded(ChatSystem.Next(s, step))
  {
    var p, t := step.p, step.t;
    var w := s.workers[p];
    match step {
      case Connect(_, _) =>
        MarkBounded(w, t, CONNECTED.(onResponse := LoginHandler));
        WorkerStepKeepsBounds(s, p, Marked(w, t, CONNECTED.(onResponse := LoginHandler)));
      case LoginLine(_, _, name) =>
        AskBounded(w, t, name, []);
        WorkerStepKeepsBounds(s, p, AskName(w, t, name));
      case AskJoin(_, _, room) =>
        AskBounded(w, t, [], room);
        WorkerStepKeepsBounds(s, p, Effect(w, [Call(w.pid, t, ROOM_PID_HOOK, Get(PidKey(room)))]));
      case HiddenJoinLine(_, _, room, name) =>
        HiddenJoinBounded(w, t, w.chats[t], room, name);
        WorkerStepKeepsBounds(s, p, HiddenJoin(w, t, w.chats[t], room, name));
      case LeaveCommand(_, _) =>
        LeaveBounded(w, t);
        WorkerStepKeepsBounds(s, p, Leave(w, t));
      case QuitCommand(_, _) =>
        QuitBounded(w, t);
        WorkerStepKeepsBounds(s, p, Quit(w, t));
      case CloseChat(_, _) =>
        CloseBounded(w, t);
        WorkerStepKeepsBounds(s, p, Close(w, t));
      case SendFails(_, _) =>
        MarkBounded(w, t, w.chats[t].(softQuit := true));
        WorkerStepKeepsBounds(s, p, Marked(w, t, w.chats[t].(softQuit := true)));
      case Bury(_, _) =>
        MarkBounded(w, t, w.chats[t].(zombie := true));
        WorkerStepKeepsBounds(s, p, Marked(w, t, w.chats[t].(zombie := true)));
      case Free(_, _) =>
        FreedBounded(w, t);
        WorkerStepKeepsBounds(s, p, Freed(w, t));
    }
  }

  lemma ArriveKeepsBounds(s: System, i: nat, t: nat)
    requires Inv(s) && Bounded(s) && Enabled(s, Arrive(i, t)) && IsToken(t)
    ensures Bounded(ChatSystem.Next(s, Arrive(i, t)))
  {
    var h := s.handovers[i];
    var rest := s.(handovers := DropAt(s.handovers, i));
    assert h in s.handovers;
    SubsetBounded(s, rest);
    HiddenJoinBounded(s.workers[h.dest], t, CONNECTED, h.room, h.name);
    WorkerStepKeepsBounds(rest, h.dest, Arrived(s.workers[h.dest], t, h));
  }

  lemma StepKeepsBounds(s: System, step: Step)
    requires Inv(s) && Bounded(s) && Enabled(s, step) && StepBounded(step)
    ensures Bounded(ChatSystem.Next(s, step))
  {
    match step {
      case Post(i) => SubsetBounded(s, Posted(s, i));
      case ServeHead => ServeKeepsBounds(s);
      case Deliver(i) => DeliverKeepsBounds(s, i);
      case Arrive(i, t) => ArriveKeepsBounds(s, i, t);
      case _ => WorkerKeepsBounds(s, step);
    }
  }

  /** A hidden join puts its name into the chat's record, however long it is. */
  lemma HiddenJoinBringsName(s: System, step: Step)
    requires Inv(s) && Enabled(s, step) && step.HiddenJoinLine? && step.room != [] && step.name != []
    ensures var after := ChatSystem.Next(s, step);
      step.p in after.workers && step.t in after.workers[step.p].chats
      && after.workers[step.p].chats[step.t].name == step.name
  {
    var w := s.workers[step.p];
    var named := w.chats[step.t].(loggedIn := true, name := step.name);
    assert ChatOk(w, step.t);
    PutKeepsMembership(w, step.t, named);
    JoinFrame(Marked(w, step.t, named).after, step.t, step.room);
  }

  lemma ArrivalBringsToken(s: System, step: Step)
    requires Inv(s) && Enabled(s, step) && step.Arrive?
    ensures var p, after := s.handovers[step.i].dest, ChatSystem.Next(s, step);
      p in after.workers && step.t in after.workers[p].chats
  {
    var h := s.handovers[step.i];
    if h.room != [] && h.name != [] {
      var named := CONNECTED.(loggedIn := true, name := h.name);
      PutKeepsMembership(s.workers[h.dest], step.t, named);
      JoinFrame(Marked(s.workers[h.dest], step.t, named).after, step.t, h.room);
    }
  }

  /** These conditions on a step are the very ones that are needed. */
  lemma StepKeepsBoundsIff(s: System, step: Step)
    requires Inv(s) && Bounded(s) && Enabled(s, step)
    ensures Bounded(ChatSystem.Next(s, step)) <==> StepBounded(step)
  {
    var after := ChatSystem.Next(s, step);
    if StepBounded(step) {
      StepKeepsBounds(s, step);
    } else {
      match step {
        case Connect(p, t) => assert t in after.workers[p].chats;
        case AskJoin(p, t, room) =>
          var c := Call(s.workers[p].pid, t, ROOM_PID_HOOK, Get(PidKey(room)));
          assert c in after.outbox + after.inbox;
        case HiddenJoinLine(_, _, _, _) => HiddenJoinBringsName(s, step);
        case Arrive(_, _) => ArrivalBringsToken(s, step);
      }
    }
  }

  /** Before and after every step of the run all bounds hold. */
  ghost predicate AlwaysBounded(s: System, run: seq<Step>)
    requires Legal(s, run)
    decreases run
  {
    Bounded(s) && (|run| > 0 ==> AlwaysBounded(ChatSystem.Next(s, run[0]), run[1..]))
  }

  lemma {:induction false} AlwaysBoundedIff(s: System, run: seq<Step>)
    requires Inv(s) && Bounded(s) && Legal(s, run)
    ensures AlwaysBounded(s, run) <==> forall k | 0 <= k < |run| :: StepBounded(run[k])
    decreases run
  {
    if |run| > 0 {
      StepKeepsInv(s, run[0]);
      StepKeepsBoundsIff(s, run[0]);
      assert forall k | 0 < k < |run| :: run[k] == run[1..][k - 1];
      if StepBounded(run[0]) {
        AlwaysBoundedIff(ChatSystem.Next(s, run[0]), run[1..]);
      }
    }
  }

  lemma {:induction false} RunsKeepBounds(s: System, run: seq<Step>)
    requires Inv(s) && Bounded(s) && Legal(s, run) && (forall k | 0 <= k < |run| :: StepBounded(run[k]))
    ensures Bounded(Run(s, run))
    decreases run
  {
    if |run| > 0 {
      StepKeepsInv(s, run[0]);
      StepKeepsBounds(s, run[0]);
      RunsKeepBounds(ChatSystem.Next(s, run[0]), run[1..]);
    }
  }

  // ---------------------------------------------------------------- what is sent is what is read

  /** In every run with int tokens and room names that fit their key buffer, every call on its way loses no field
      when it is packed, and the master decodes exactly that call, a negative token by its low 16 bits. */
  lemma CallsAreReadable(s: System, run: seq<Step>, c: Call, mem: seq<byte>, length: nat)
    requires Initial(s) && Bounded(s) && Legal(s, run) && (forall k | 0 <= k < |run| :: StepBounded(run[k]))
    requires c in Run(s, run).outbox + Run(s, run).inbox
    requires Message(Kept(MessageFields(c), MAX_BINARY_MSG_LEN)) <= mem
    requires |Message(Kept(MessageFields(c), MAX_BINARY_MSG_LEN))| <= length <= |mem|
    ensures DecodeCall(mem, length) == Some(c.(token := OnWire(c.token)))
  {
    InitialInv(s);
    RunsKeepBounds(s, run);
    CallFits(c);
    KeptAllIffFits(MessageFields(c), MAX_BINARY_MSG_LEN);
    CallComesBack(mem, length, c);
  }

  /** And every reply on its way is read by the worker as the master sent it. */
  lemma RepliesAreReadable(s: System, run: seq<Step>, dest: int, r: Reply, mypid: int, mem: seq<byte>, length: nat)
    requires Initial(s) && Bounded(s) && Legal(s, run) && (forall k | 0 <= k < |run| :: StepBounded(run[k]))
    requires (dest, r) in Run(s, run).replies && IsInt32(mypid)
    requires Message(Kept(ReplyMessageFields(mypid, r), MAX_BINARY_MSG_LEN)) <= mem
    requires |Message(Kept(ReplyMessageFields(mypid, r), MAX_BINARY_MSG_LEN))| <= length <= |mem|
    ensures DecodeReply(mem, length) ==
      (r.hook, OnWire(r.token), if r.success then 1 else 0, r.key, if r.newval.Some? then r.newval.value else [])
  {
    InitialInv(s);
    RunsKeepBounds(s, run);
    var end := Run(s, run);
    assert ReplyBounded((dest, r).1);
    ReplyFits(mypid, r);
    KeptAllIffFits(ReplyMessageFields(mypid, r), MAX_BINARY_MSG_LEN);
    ReplyComesBack(mem, length, mypid, r);
  }
}
