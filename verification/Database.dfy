/** The compare-and-swap database in the master process (db/src/async_db_master.c). */
module Database {
  import opened Bytes
  import opened Options
  import opened BinaryCoder
  import opened BinaryBuffer
  import opened AsyncRequest

  type Table = map<seq<byte>, seq<byte>>

  function Lookup(db: Table, key: seq<byte>): Option<seq<byte>>
  {
    if key in db then Some(db[key]) else None
  }

  /** async_db_op_helper() on a value: the new table and whether the operation succeeded. */
  function Operate(db: Table, key: seq<byte>, newval: Option<seq<byte>>, expval: Option<seq<byte>>): (Table, bool)
  {
    if key == [] then (db, false)
    else if newval.None? then (db - {key}, true)
    else if Lookup(db, key) == expval then (db[key := newval.value], true)
    else (db, false)
  }

  /** What serving one request does to the table, whether it succeeds, and the value sent back. */
  function Serve(db: Table, r: Request): (Table, bool, Option<seq<byte>>)
  {
    match r
    case Cas(key, newval, oldval) => var (d, ok) := Operate(db, key, Some(newval), Some(oldval)); (d, ok, Some(newval))
    case SetIfNull(key, newval) => var (d, ok) := Operate(db, key, Some(newval), None); (d, ok, Some(newval))
    case Unset(key) => var (d, ok) := Operate(db, key, None, None); (d, ok, None)
    case Get(key) => (db, true, Lookup(db, key))
  }

  function Apply(db: Table, r: Request): Table { Serve(db, r).0 }

  function ApplyAll(db: Table, rs: seq<Request>): Table
    decreases rs
  {
    if |rs| == 0 then db else ApplyAll(Apply(db, rs[0]), rs[1..])
  }

  /** Serving touches no key but the request's own, and leaves there
      the old value or none or the new one: the new one exactly when the expectation was met. */
  lemma ServeMeaning(db: Table, r: Request)
    requires r.key != []
    ensures forall k | k != r.key :: Lookup(Apply(db, r), k) == Lookup(db, k)
    ensures r.Unset? ==> Lookup(Apply(db, r), r.key) == None && Serve(db, r).1
    ensures r.Get? ==> Apply(db, r) == db && Serve(db, r).1 && Serve(db, r).2 == Lookup(db, r.key)
    ensures r.Unset? ==> Serve(db, r).2 == None
    ensures r.SetIfNull? || r.Cas? ==> Serve(db, r).2 == Some(r.newval)
    ensures r.SetIfNull? ==> Serve(db, r).1 == (r.key !in db)
    ensures r.Cas? ==> Serve(db, r).1 == (Lookup(db, r.key) == Some(r.oldval))
    ensures r.SetIfNull? || r.Cas? ==>
      Lookup(Apply(db, r), r.key) == if Serve(db, r).1 then Some(r.newval) else Lookup(db, r.key)
  {
  }

  /** Nothing can be stored or removed under the empty key. */
  lemma EmptyKeyIsRefused(db: Table, r: Request)
    requires r.key == [] && !r.Get?
    ensures Apply(db, r) == db && !Serve(db, r).1
  {
  }

  lemma {:induction false} ApplyAllAppend(db: Table, rs: seq<Request>, more: seq<Request>)
    ensures ApplyAll(db, rs + more) == ApplyAll(ApplyAll(db, rs), more)
    decreases rs
  {
    if |rs| == 0 {
      assert rs + more == more;
    } else {
      assert (rs + more)[0] == rs[0] && (rs + more)[1..] == rs[1..] + more;
      ApplyAllAppend(Apply(db, rs[0]), rs[1..], more);
    }
  }

  /** Requests for other keys do not disturb a key. */
  lemma {:induction false} OtherKeysKeepValue(db: Table, rs: seq<Request>, key: seq<byte>)
    requires forall r | r in rs :: r.key != key
    ensures Lookup(ApplyAll(db, rs), key) == Lookup(db, key)
    decreases rs
  {
    if |rs| > 0 {
      assert rs[0] in rs;
      OtherKeysKeepValue(Apply(db, rs[0]), rs[1..], key);
    }
  }

  /** The hash table object with the hooks that the message dispatcher calls. */
  class GlobalDb {
    var table: Table

    constructor ()
      ensures table == map[]
    {
      table := map[];
    }

    method OpHelper(key: seq<byte>, newval: Option<seq<byte>>, expval: Option<seq<byte>>) returns (ret: int)
      modifies this
      ensures (table, ret == 0) == Operate(old(table), key, newval, expval)
      ensures ret == 0 || ret == -1
    {
      if |key| == 0 {
        return -1;
      }
      if newval.None? {
        table := table - {key};
        return 0;
      }
      var oldval := if key in table then Some(table[key]) else None;
      if !((oldval.None? && expval.None?) || (oldval.Some? && expval.Some? && expval.value == oldval.value)) {
        return -1;
      }
      table := table[key := newval.value];
      return 0;
    }

    method CasHook(bin: Txt) returns (dest: int, reply: Reply)
      requires bin.Valid() && bin.len >= 2
      modifies this
      ensures var key, newval := TextAt(bin.data[..], bin.len, 4), TextAt(bin.data[..], bin.len, 5);
        var expval := TextAt(bin.data[..], bin.len, 6);
        Answers(bin, old(table), Cas(key, newval, expval), table, dest, reply)
    {
      var srcpid, token, hook := UnpackHead(bin);
      var key := UnpackText(bin, 4);
      var newval := UnpackText(bin, 5);
      var expval := UnpackText(bin, 6);
      var ret := OpHelper(key, Some(newval), Some(expval));
      return srcpid, Reply(Listener(hook), token, ret == 0, key, Some(newval));
    }

    method SetIfNullHook(bin: Txt) returns (dest: int, reply: Reply)
      requires bin.Valid() && bin.len >= 2
      modifies this
      ensures var key, newval := TextAt(bin.data[..], bin.len, 4), TextAt(bin.data[..], bin.len, 5);
        Answers(bin, old(table), SetIfNull(key, newval), table, dest, reply)
    {
      var srcpid, token, hook := UnpackHead(bin);
      var key := UnpackText(bin, 4);
      var newval := UnpackText(bin, 5);
      var ret := OpHelper(key, Some(newval), None);
      return srcpid, Reply(Listener(hook), token, ret == 0, key, Some(newval));
    }

    method UnsetHook(bin: Txt) returns (dest: int, reply: Reply)
      requires bin.Valid() && bin.len >= 2
      modifies this
      ensures Answers(bin, old(table), Unset(TextAt(bin.data[..], bin.len, 4)), table, dest, reply)
    {
      var srcpid, token, hook := UnpackHead(bin);
      var key := UnpackText(bin, 4);
      var ret := OpHelper(key, None, None);
      return srcpid, Reply(Listener(hook), token, ret == 0, key, None);
    }

    method GetHook(bin: Txt) returns (dest: int, reply: Reply)
      requires bin.Valid() && bin.len >= 2
      ensures Answers(bin, table, Get(TextAt(bin.data[..], bin.len, 4)), table, dest, reply)
    {
      var srcpid, token, hook := UnpackHead(bin);
      var key := UnpackText(bin, 4);
      var oldval := if key in table then Some(table[key]) else None;
      return srcpid, Reply(Listener(hook), token, true, key, oldval);
    }

    /** The dispatcher calls whatever is registered under the message's command: one of the hooks above,
        or another plugin, which leaves the table alone. */
    method OnBubbles(bin: Txt) returns (bubble: Bubble)
      requires bin.Valid() && bin.len >= 2
      modifies this
      ensures match DecodeCall(bin.data[..], bin.len)
        case None =>
          var command := TextAt(bin.data[..], bin.len, 1);
          table == old(table) && bubble == if command == [] then Ignored else PassedOn(command)
        case Some(c) =>
          table == Apply(old(table), c.request) && bubble == Answered(c.srcpid, Answer(old(table), c))
    {
      var app := UnpackText(bin, 1);
      var dest, reply;
      if app == [] {
        return Ignored;
      } else if app == CAS_APP {
        dest, reply := CasHook(bin);
      } else if app == SET_IF_NULL_APP {
        dest, reply := SetIfNullHook(bin);
      } else if app == UNSET_APP {
        dest, reply := UnsetHook(bin);
      } else if app == GET_APP {
        dest, reply := GetHook(bin);
      } else {
        return PassedOn(app);
      }
      return Answered(dest, reply);
    }
  }

  /** What becomes of a message: nothing without a command, the table's answer, or a call of the plugins under it. */
  datatype Bubble = Ignored | Answered(dest: int, reply: Reply) | PassedOn(command: seq<byte>)

  /** An empty hook is replaced by the null hook. */
  function Listener(hook: seq<byte>): seq<byte> { if hook == [] then NULL_HOOK else hook }

  /** async_db_op_reply(): the key, and the value unless it is NULL, go back to the caller. */
  method OpReply(mypid: int, reply: Reply) returns (bin: Txt?)
    requires IsInt32(mypid) && IsInt32(reply.token) && reply.hook != []
    ensures bin == null <==> reply.hook == NULL_HOOK
    ensures bin != null ==> fresh(bin) && fresh(bin.data) && bin.Valid()
    ensures bin != null ==>
      bin.Contents() == Message(Kept(ReplyMessageFields(mypid, reply), MAX_BINARY_MSG_LEN))
  {
    var args: seq<Option<seq<byte>>> := [Some(reply.key), reply.newval];
    assert UpToNull(args) == ReplyArgs(reply) by {
      assert args[1..] == [reply.newval];
      assert UpToNull([reply.newval]) == if reply.newval.None? then [] else [reply.newval.value] + UpToNull([]);
    }
    bin := ReplyWorker(mypid, reply.token, reply.hook, if reply.success then 1 else 0, args);
  }

  /** A call made by a worker and served by the master: the table becomes what the request says. */
  method AskTable(master: GlobalDb, mypid: int, token: int, hook: Option<seq<byte>>, key: seq<byte>,
                  newval: Option<seq<byte>>, oldval: Option<seq<byte>>)
    returns (bubble: Bubble, ghost request: Request)
    requires IsInt32(mypid) && IsInt32(token) && |key| > 0
    requires oldval.Some? ==> newval.Some? && |newval.value| > 0
    modifies master
    ensures request == if oldval.Some? then Cas(key, newval.value, oldval.value)
                       else if newval.Some? then SetIfNull(key, newval.value) else Unset(key)
    ensures var h := if hook.Some? then hook.value else Ascii("null");
      CallReadable(Call(mypid, token, h, request)) ==>
        && master.table == Serve(old(master.table), request).0
        && bubble == Answered(mypid, Answer(old(master.table), Call(mypid, OnWire(token), h, request)))
  {
    var bin;
    bin, request := CompareAndSwap(mypid, token, hook, key, newval, oldval);
    assert bin.len >= 2;
    bubble := master.OnBubbles(bin);
  }

  lemma AnswerSpelled(db: Table, c: Call)
    requires c.hook != []
    ensures Answer(db, c) == Reply(c.hook, c.token, Serve(db, c.request).1, c.request.key, Serve(db, c.request).2)
    ensures NULL_HOOK != []
  {
  }

  /** And answered: the reply is the message for the worker's own hook and token; one that gave no hook gets none. */
  method AskMaster(master: GlobalDb, mypid: int, token: int, hook: Option<seq<byte>>, key: seq<byte>,
                   newval: Option<seq<byte>>, oldval: Option<seq<byte>>, masterpid: int)
    returns (answer: Txt?, ghost request: Request)
    requires IsInt32(mypid) && IsInt32(token) && IsInt32(masterpid) && |key| > 0
    requires oldval.Some? ==> newval.Some? && |newval.value| > 0
    requires hook.Some? ==> hook.value != []
    modifies master
    ensures request == if oldval.Some? then Cas(key, newval.value, oldval.value)
                       else if newval.Some? then SetIfNull(key, newval.value) else Unset(key)
    ensures var h := if hook.Some? then hook.value else Ascii("null");
      CallReadable(Call(mypid, token, h, request)) ==>
        var (table, success, value) := Serve(old(master.table), request);
        && master.table == table
        && (answer == null <==> hook == None || hook == Some(Ascii("null")))
        && (answer != null ==> answer.Valid())
        && (answer != null ==> answer.Contents() == Message(Kept(
              ReplyMessageFields(masterpid, Reply(h, OnWire(token), success, key, value)), MAX_BINARY_MSG_LEN)))
  {
    var bubble;
    bubble, request := AskTable(master, mypid, token, hook, key, newval, oldval);
    AnswerSpelled(old(master.table), Call(mypid, OnWire(token), if hook.Some? then hook.value else NULL_HOOK, request));
    answer := null;
    match bubble {
      case Answered(_, reply) =>
        if IsInt32(reply.token) && reply.hook != [] {
          answer := OpReply(masterpid, reply);
        }
      case _ =>
    }
  }

  /** A remote call. The master reads the call that was made; the caller's hook reads the outcome of serving it
      on the master's table, under the caller's own token, or under its low 16 bits if it was negative. */
  lemma CallAndAnswer(db: Table, c: Call, sent: seq<byte>, sentLen: nat, mypid: int, back: seq<byte>, backLen: nat)
    requires IsInt32(c.srcpid) && c.srcpid >= 0 && IsInt32(c.token) && IsInt32(mypid)
    requires Holds(sent, MessageFields(c)) && MessageLength(MessageFields(c)) <= sentLen <= |sent|
    requires BodyStart(MessageFields(c), |MessageFields(c)| - 1) <= 255
    requires var reply := Answer(db, c.(token := OnWire(c.token)));
      && Holds(back, ReplyMessageFields(mypid, reply))
      && MessageLength(ReplyMessageFields(mypid, reply)) <= backLen <= |back|
      && ReplyReadable(mypid, reply)
    ensures DecodeCall(sent, sentLen) == Some(c.(token := OnWire(c.token)))
    ensures var (_, ok, value) := Serve(db, c.request);
      DecodeReply(back, backLen) ==
        (Listener(c.hook), OnWire(c.token), if ok then 1 else 0, c.request.key, if value.Some? then value.value else [])
  {
    CallComesBack(sent, sentLen, c);
    ReplyComesBack(back, backLen, mypid, Answer(db, c.(token := OnWire(c.token))));
  }

  /** The answer to a call served on a table. */
  function Answer(db: Table, c: Call): Reply
  {
    Reply(Listener(c.hook), c.token, Serve(db, c.request).1, c.request.key, Serve(db, c.request).2)
  }

  ghost predicate Answers(bin: Txt, before: Table, r: Request, after: Table, dest: int, reply: Reply)
    requires bin.Valid() && bin.len >= 2
    reads bin, bin.data
  {
    var mem, n := bin.data[..], bin.len;
    && after == Apply(before, r)
    && dest == IntAt(mem, n, 0)
    && reply == Answer(before, Call(dest, IntAt(mem, n, 2), TextAt(mem, n, 3), r))
  }

  method UnpackText(bin: Txt, i: nat) returns (text: seq<byte>)
    requires bin.Valid() && bin.len >= 2
    ensures text == TextAt(bin.data[..], bin.len, i)
  {
    var x := bin.UnpackString(i);
    text := if x.Done? then x.value else [];
  }

  method UnpackHead(bin: Txt) returns (srcpid: int, token: int, hook: seq<byte>)
    requires bin.Valid() && bin.len >= 2
    ensures srcpid == IntAt(bin.data[..], bin.len, 0)
    ensures token == IntAt(bin.data[..], bin.len, 2)
    ensures hook == TextAt(bin.data[..], bin.len, 3)
  {
    var s := bin.UnpackInteger(0);
    var t := bin.UnpackInteger(2);
    srcpid := if s.Done? then s.value else 0;
    token := if t.Done? then t.value else 0;
    hook := UnpackText(bin, 3);
  }
}
