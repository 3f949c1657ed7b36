/** The request and reply messages between workers and master (base/src/parallel/async_request.c, db/src/async_db.c). */
module AsyncRequest {
  import opened Bytes
  import opened Sequences
  import opened Options
  import opened BinaryCoder
  import opened BinaryBuffer

  const MAX_BINARY_MSG_LEN := 1024

  const NULL_HOOK: seq<byte> := Ascii("null")
  const CAS_APP: seq<byte> := Ascii("asyncdb/cas/request")
  const SET_IF_NULL_APP: seq<byte> := Ascii("asyncdb/sin/request")
  const UNSET_APP: seq<byte> := Ascii("asyncdb/unset/request")
  const GET_APP: seq<byte> := Ascii("asyncdb/get/request")

  datatype Request =
    | Cas(key: seq<byte>, newval: seq<byte>, oldval: seq<byte>)
    | SetIfNull(key: seq<byte>, newval: seq<byte>)
    | Unset(key: seq<byte>)
    | Get(key: seq<byte>)

  /** A request on its way: who asks, under which token, and which hook wants the answer. */
  datatype Call = Call(srcpid: int, token: int, hook: seq<byte>, request: Request)

  /** An answer on its way: the hook it is for, the token, the outcome, the key, and the value unless it was NULL. */
  datatype Reply = Reply(hook: seq<byte>, token: int, success: bool, key: seq<byte>, newval: Option<seq<byte>>)

  function App(r: Request): seq<byte>
  {
    match r
    case Cas(_, _, _) => CAS_APP
    case SetIfNull(_, _) => SET_IF_NULL_APP
    case Unset(_) => UNSET_APP
    case Get(_) => GET_APP
  }

  function Args(r: Request): seq<seq<byte>>
  {
    match r
    case Cas(key, newval, oldval) => [key, newval, oldval]
    case SetIfNull(key, newval) => [key, newval]
    case Unset(key) => [key]
    case Get(key) => [key]
  }

  function Strings(args: seq<seq<byte>>): (fields: seq<Field>)
    ensures |fields| == |args|
  {
    seq(|args|, i requires 0 <= i < |args| => Str(args[i]))
  }

  function CallFields(srcpid: int, token: int, hook: seq<byte>, app: seq<byte>, args: seq<seq<byte>>): seq<Field>
  {
    [Num(srcpid), Str(app), Num(token), Str(hook)] + Strings(args)
  }

  function ReplyFields(srcpid: int, token: int, hook: seq<byte>, success: int, args: seq<seq<byte>>): seq<Field>
  {
    [Num(srcpid), Str(hook), Num(token), Num(success)] + Strings(args)
  }

  // ---------------------------------------------------------------- sending

  /** The fields that end up in a buffer: one that does not fit is left out, and packing goes on. */
  function Kept(fields: seq<Field>, capacity: nat): seq<Field>
  {
    if |fields| == 0 then []
    else
      var before, last := Kept(fields[..|fields| - 1], capacity), fields[|fields| - 1];
      if MessageLength(before) + |Encode(last)| <= capacity then before + [last] else before
  }

  /** Nothing is lost exactly when the whole message fits. */
  lemma {:induction false} KeptAllIffFits(fields: seq<Field>, capacity: nat)
    requires capacity >= 2
    ensures Kept(fields, capacity) == fields <==> MessageLength(fields) <= capacity
    ensures |Kept(fields, capacity)| <= |fields|
  {
    if |fields| > 0 {
      var before, last := fields[..|fields| - 1], fields[|fields| - 1];
      KeptAllIffFits(before, capacity);
      assert fields == before + [last];
      EncodeAllAppend(before, [last]);
      assert EncodeAll([last]) == Encode(last) + EncodeAll([]);
    }
  }

  /** The arguments up to the first NULL. */
  function UpToNull(args: seq<Option<seq<byte>>>): seq<seq<byte>>
  {
    if |args| == 0 || args[0].None? then [] else [args[0].value] + UpToNull(args[1..])
  }

  method PackField(bin: Txt, ghost fields: seq<Field>, f: Field)
    requires bin.Valid() && bin.data.Length >= 256 && (f.Num? ==> IsInt32(f.value))
    requires bin.Contents() == Message(Kept(fields, bin.data.Length))
    modifies bin`len, bin.data
    ensures bin.Valid() && bin.Contents() == Message(Kept(fields + [f], bin.data.Length))
  {
    assert (fields + [f])[..|fields|] == fields;
    AppendedExtendsMessage(Kept(fields, bin.data.Length), f);
    var ok: bool;
    match f {
      case Str(text) => ok := bin.PackString(text);
      case Num(value) => ok := bin.PackInt(value);
    }
  }

  /** The loop over the NULL-terminated argument array. */
  method PackArgs(bin: Txt, ghost fields: seq<Field>, args: seq<Option<seq<byte>>>)
    requires bin.Valid() && bin.data.Length >= 256
    requires bin.Contents() == Message(Kept(fields, bin.data.Length))
    modifies bin`len, bin.data
    ensures bin.Valid() && bin.Contents() == Message(Kept(fields + Strings(UpToNull(args)), bin.data.Length))
  {
    ghost var done: seq<seq<byte>> := [];
    var i := 0;
    assert args[0..] == args && fields + Strings(done) == fields;
    while i < |args| && args[i].Some?
      invariant 0 <= i <= |args|
      invariant bin.Valid() && bin.Contents() == Message(Kept(fields + Strings(done), bin.data.Length))
      invariant done + UpToNull(args[i..]) == UpToNull(args)
    {
      NextArg(args, i, done);
      StringsSnoc(fields, done, args[i].value);
      PackField(bin, fields + Strings(done), Str(args[i].value));
      done := done + [args[i].value];
      i := i + 1;
    }
    assert done == UpToNull(args) by {
      assert UpToNull(args[i..]) == [] && done + [] == done;
    }
  }

  lemma NextArg(args: seq<Option<seq<byte>>>, i: nat, done: seq<seq<byte>>)
    requires i < |args| && args[i].Some?
    ensures done + UpToNull(args[i..]) == done + [args[i].value] + UpToNull(args[i + 1..])
  {
    DropHead(args, i);
    Associative(done, [args[i].value], UpToNull(args[i + 1..]));
  }

  lemma StringsSnoc(fields: seq<Field>, done: seq<seq<byte>>, x: seq<byte>)
    ensures fields + Strings(done) + [Str(x)] == fields + Strings(done + [x])
  {
    assert Strings(done) + [Str(x)] == Strings(done + [x]);
    Associative(fields, Strings(done), [Str(x)]);
  }

  /** Every message begins with the sender, the command or hook, and the token. */
  method PackHead(bin: Txt, mypid: int, text: seq<byte>, token: int)
    requires bin.Valid() && bin.data.Length >= 256 && IsInt32(mypid) && IsInt32(token)
    modifies bin`len, bin.data
    ensures bin.Valid() && bin.Contents() == Message(Kept([Num(mypid), Str(text), Num(token)], bin.data.Length))
  {
    bin.Reset();
    PackField(bin, [], Num(mypid));
    assert [] + [Num(mypid)] == [Num(mypid)];
    PackField(bin, [Num(mypid)], Str(text));
    assert [Num(mypid)] + [Str(text)] == [Num(mypid), Str(text)];
    PackField(bin, [Num(mypid), Str(text)], Num(token));
    assert [Num(mypid), Str(text)] + [Num(token)] == [Num(mypid), Str(text), Num(token)];
  }

  method CallMaster(mypid: int, token: int, workerHook: Option<seq<byte>>, app: seq<byte>, args: seq<Option<seq<byte>>>)
    returns (bin: Txt)
    requires IsInt32(mypid) && IsInt32(token)
    ensures fresh(bin) && fresh(bin.data) && bin.Valid()
    ensures var hook := if workerHook.Some? then workerHook.value else Ascii("null");
      bin.Contents() == Message(Kept(CallFields(mypid, token, hook, app, UpToNull(args)), MAX_BINARY_MSG_LEN))
  {
    var hook := if workerHook.None? then NULL_HOOK else workerHook.value;
    bin := new Txt(MAX_BINARY_MSG_LEN);
    PackHead(bin, mypid, app, token);
    PackField(bin, [Num(mypid), Str(app), Num(token)], Str(hook));
    assert [Num(mypid), Str(app), Num(token)] + [Str(hook)] == [Num(mypid), Str(app), Num(token), Str(hook)];
    PackArgs(bin, [Num(mypid), Str(app), Num(token), Str(hook)], args);
  }

  /** Nobody listens behind the null hook, so nothing is sent to it. */
  method ReplyWorker(mypid: int, token: int, workerHook: seq<byte>, success: int, args: seq<Option<seq<byte>>>)
    returns (bin: Txt?)
    requires IsInt32(mypid) && IsInt32(token) && IsInt32(success) && |workerHook| > 0
    ensures bin == null <==> workerHook == NULL_HOOK
    ensures bin != null ==> fresh(bin) && fresh(bin.data) && bin.Valid()
    ensures bin != null ==>
      bin.Contents() == Message(Kept(ReplyFields(mypid, token, workerHook, success, UpToNull(args)),
                                     MAX_BINARY_MSG_LEN))
  {
    if workerHook == NULL_HOOK {
      return null;
    }
    bin := new Txt(MAX_BINARY_MSG_LEN);
    PackHead(bin, mypid, workerHook, token);
    PackField(bin, [Num(mypid), Str(workerHook), Num(token)], Num(success));
    assert [Num(mypid), Str(workerHook), Num(token)] + [Num(success)]
        == [Num(mypid), Str(workerHook), Num(token), Num(success)];
    PackArgs(bin, [Num(mypid), Str(workerHook), Num(token), Num(success)], args);
  }

  lemma ArgsUpToNull(key: seq<byte>, newval: Option<seq<byte>>, oldval: Option<seq<byte>>)
    ensures UpToNull([Some(key), newval, oldval]) ==
      [key] + if newval.None? then [] else [newval.value] + if oldval.None? then [] else [oldval.value]
  {
    var args: seq<Option<seq<byte>>> := [Some(key), newval, oldval];
    assert args[1..] == [newval, oldval] && args[1..][1..] == [oldval];
    assert UpToNull([oldval]) == if oldval.None? then [] else [oldval.value] + UpToNull([]);
    assert UpToNull([newval, oldval]) == if newval.None? then [] else [newval.value] + UpToNull([oldval]);
  }

  // ---------------------------------------------------------------- receiving

  /** A string or int variable after the unpack call; a failed call leaves it empty or zero. */
  function TextAt(mem: seq<byte>, length: nat, i: nat): seq<byte>
    requires 2 <= length <= |mem|
  {
    var x := Unpack(mem, length, i, STRING);
    if x.Done? then x.value else []
  }

  function IntAt(mem: seq<byte>, length: nat, i: nat): int
    requires 2 <= length <= |mem|
  {
    var x := UnpackInt(mem, length, i);
    if x.Done? then x.value else 0
  }

  /** What the master reads: the hook is picked by the command, and each hook unpacks its own fields. */
  function DecodeCall(mem: seq<byte>, length: nat): Option<Call>
    requires 2 <= length <= |mem|
  {
    var app, key := TextAt(mem, length, 1), TextAt(mem, length, 4);
    var srcpid, token, hook := IntAt(mem, length, 0), IntAt(mem, length, 2), TextAt(mem, length, 3);
    if app == CAS_APP then
      Some(Call(srcpid, token, hook, Cas(key, TextAt(mem, length, 5), TextAt(mem, length, 6))))
    else if app == SET_IF_NULL_APP then Some(Call(srcpid, token, hook, SetIfNull(key, TextAt(mem, length, 5))))
    else if app == UNSET_APP then Some(Call(srcpid, token, hook, Unset(key)))
    else if app == GET_APP then Some(Call(srcpid, token, hook, Get(key)))
    else None
  }

  function MessageFields(c: Call): seq<Field>
  {
    CallFields(c.srcpid, c.token, c.hook, App(c.request), Args(c.request))
  }

  lemma AppsDiffer()
    ensures |CAS_APP| == |SET_IF_NULL_APP| == |GET_APP| == 19 && |UNSET_APP| == 21
    ensures CAS_APP != SET_IF_NULL_APP && CAS_APP != GET_APP && SET_IF_NULL_APP != GET_APP
  {
    assert CAS_APP[8] == 99 && SET_IF_NULL_APP[8] == 115 && GET_APP[8] == 103;
  }

  /** Every field up to the last one starts no later than the last one. */
  lemma FieldsComeBack(mem: seq<byte>, length: nat, fields: seq<Field>)
    requires Holds(mem, fields) && MessageLength(fields) <= length <= |mem|
    requires BodyStart(fields, |fields| - 1) <= 255
    ensures forall i: nat | i < |fields| && fields[i].Str? :: TextAt(mem, length, i) == fields[i].text
    ensures forall i: nat | i < |fields| && fields[i].Num? && IsInt32(fields[i].value) ::
      IntAt(mem, length, i) == Received(fields[i]).value
  {
    forall i: nat | i < |fields|
      ensures fields[i].Str? ==> TextAt(mem, length, i) == fields[i].text
      ensures fields[i].Num? && IsInt32(fields[i].value) ==> IntAt(mem, length, i) == Received(fields[i]).value
    {
      HeaderStartIncreases(fields, i, |fields| - 1);
      UnpackReturnsField(mem, length, fields, i);
      if fields[i].Num? && IsInt32(fields[i].value) {
        UnpackIntReturnsField(mem, length, fields, i);
      }
    }
  }

  /** What the receiver of an int reads. */
  function OnWire(v: int): int { if v < 0 then v % 0x1_0000 else v }

  /** Marshalling round trip: a call whose fields all start low enough reaches the master as it was made,
      whatever stale bytes follow it in the receive buffer. Only a negative token changes, to its low 16 bits. */
  lemma CallComesBack(mem: seq<byte>, length: nat, c: Call)
    requires IsInt32(c.srcpid) && c.srcpid >= 0 && IsInt32(c.token)
    requires Holds(mem, MessageFields(c)) && MessageLength(MessageFields(c)) <= length <= |mem|
    requires BodyStart(MessageFields(c), |MessageFields(c)| - 1) <= 255
    ensures DecodeCall(mem, length) == Some(c.(token := OnWire(c.token)))
  {
    var fields := MessageFields(c);
    FieldsComeBack(mem, length, fields);
    AppsDiffer();
    assert fields[0] == Num(c.srcpid) && fields[1] == Str(App(c.request));
    assert fields[2] == Num(c.token) && fields[3] == Str(c.hook) && fields[4] == Str(c.request.key);
    match c.request {
      case Cas(key, newval, oldval) => assert fields[5] == Str(newval) && fields[6] == Str(oldval);
      case SetIfNull(key, newval) => assert fields[5] == Str(newval);
      case _ =>
    }
  }

  // ---------------------------------------------------------------- the calls of the workers

  /** The message fits its buffer, and its last field starts low enough. */
  predicate CallReadable(c: Call)
  {
    && 0 <= c.srcpid && MessageLength(MessageFields(c)) <= MAX_BINARY_MSG_LEN
    && BodyStart(MessageFields(c), |MessageFields(c)| - 1) <= 255
  }

  /** The master reads this very call from the buffer, a negative token by its low 16 bits, if it can be read at all. */
  ghost predicate Decodes(bin: Txt, c: Call)
    requires bin.Valid()
    reads bin, bin.data
  {
    CallReadable(c) ==> bin.len >= 2 && DecodeCall(bin.data[..], bin.len) == Some(c.(token := OnWire(c.token)))
  }

  lemma DecodesWhenReadable(bin: Txt, c: Call)
    requires bin.Valid() && IsInt32(c.srcpid) && IsInt32(c.token)
    requires bin.Contents() == Message(Kept(MessageFields(c), MAX_BINARY_MSG_LEN))
    ensures Decodes(bin, c)
  {
    if CallReadable(c) {
      KeptAllIffFits(MessageFields(c), MAX_BINARY_MSG_LEN);
      CallComesBack(bin.data[..], bin.len, c);
    }
  }

  /** The application is chosen by which of the two values are present. */
  method CompareAndSwap(mypid: int, token: int, hook: Option<seq<byte>>, key: seq<byte>,
                        newval: Option<seq<byte>>, oldval: Option<seq<byte>>)
    returns (bin: Txt, ghost request: Request)
    requires IsInt32(mypid) && IsInt32(token) && |key| > 0
    requires oldval.Some? ==> newval.Some? && |newval.value| > 0
    ensures fresh(bin) && fresh(bin.data) && bin.Valid()
    ensures request == if oldval.Some? then Cas(key, newval.value, oldval.value)
                       else if newval.Some? then SetIfNull(key, newval.value) else Unset(key)
    ensures var h := if hook.Some? then hook.value else Ascii("null");
      && bin.Contents() == Message(Kept(CallFields(mypid, token, h, App(request), Args(request)), MAX_BINARY_MSG_LEN))
      && Decodes(bin, Call(mypid, token, h, request))
  {
    var app;
    if oldval.Some? {
      app := CAS_APP;
      request := Cas(key, newval.value, oldval.value);
    } else if newval.Some? {
      app := SET_IF_NULL_APP;
      request := SetIfNull(key, newval.value);
    } else {
      app := UNSET_APP;
      request := Unset(key);
    }
    var args: seq<Option<seq<byte>>> := [Some(key), newval, oldval];
    ArgsUpToNull(key, newval, oldval);
    assert UpToNull(args) == Args(request);
    bin := CallMaster(mypid, token, hook, app, args);
    DecodesWhenReadable(bin, Call(mypid, token, if hook.Some? then hook.value else Ascii("null"), request));
  }

  /** async_db_get() */
  method GetValue(mypid: int, token: int, hook: Option<seq<byte>>, key: seq<byte>) returns (bin: Txt)
    requires IsInt32(mypid) && IsInt32(token) && |key| > 0
    ensures fresh(bin) && fresh(bin.data) && bin.Valid()
    ensures var h := if hook.Some? then hook.value else Ascii("null");
      && bin.Contents() == Message(Kept(CallFields(mypid, token, h, GET_APP, [key]), MAX_BINARY_MSG_LEN))
      && Decodes(bin, Call(mypid, token, h, Get(key)))
  {
    var args: seq<Option<seq<byte>>> := [Some(key)];
    assert UpToNull(args) == [key] + UpToNull([]) by { assert args[1..] == []; }
    bin := CallMaster(mypid, token, hook, GET_APP, args);
    DecodesWhenReadable(bin, Call(mypid, token, if hook.Some? then hook.value else Ascii("null"), Get(key)));
  }


  /** What a worker's hook reads from an answer (apps/chat/src/welcome.c:20-26, apps/chat/src/join.c:73-85). */
  function DecodeReply(mem: seq<byte>, length: nat): (seq<byte>, int, int, seq<byte>, seq<byte>)
    requires 2 <= length <= |mem|
  {
    (TextAt(mem, length, 1), IntAt(mem, length, 2), IntAt(mem, length, 3),
     TextAt(mem, length, 4), TextAt(mem, length, 5))
  }

  function ReplyArgs(r: Reply): seq<seq<byte>>
  {
    if r.newval.Some? then [r.key, r.newval.value] else [r.key]
  }

  function ReplyMessageFields(mypid: int, r: Reply): seq<Field>
  {
    ReplyFields(mypid, r.token, r.hook, if r.success then 1 else 0, ReplyArgs(r))
  }

  /** The reader finds every field of the answer: the last body starts low enough,
      and when the value is NULL, so that its index lies behind the last field, the message is short enough. */
  predicate ReplyReadable(mypid: int, r: Reply)
  {
    var fields := ReplyMessageFields(mypid, r);
    if r.newval.Some? then BodyStart(fields, 5) <= 255 else MessageLength(fields) <= 255
  }

  /** An answer is read as it was sent, a negative token by its low 16 bits; a value that was NULL reads as empty. */
  lemma ReplyComesBack(mem: seq<byte>, length: nat, mypid: int, r: Reply)
    requires IsInt32(mypid) && IsInt32(r.token)
    requires Holds(mem, ReplyMessageFields(mypid, r)) && MessageLength(ReplyMessageFields(mypid, r)) <= length <= |mem|
    requires ReplyReadable(mypid, r)
    ensures DecodeReply(mem, length) ==
      (r.hook, OnWire(r.token), if r.success then 1 else 0, r.key, if r.newval.Some? then r.newval.value else [])
  {
    var fields := ReplyMessageFields(mypid, r);
    SplitAt(fields, |fields| - 1);
    assert fields[..|fields|] == fields;
    FieldsComeBack(mem, length, fields);
    assert fields[1] == Str(r.hook) && fields[2] == Num(r.token);
    assert fields[3] == Num(if r.success then 1 else 0) && fields[4] == Str(r.key);
    if r.newval.Some? {
      assert fields[5] == Str(r.newval.value);
    } else {
      UnpackPastEnd(mem, length, fields, 5, STRING);
    }
  }
}
