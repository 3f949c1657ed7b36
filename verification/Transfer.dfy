/** Handing a chat over to another process (apps/chat/src/join.c, net/src/streamio.c, net/src/raw_pipeline.c,
    apps/chat/src/chat_accept.c, apps/chat/src/hiddenjoin.c). */
module Transfer {
  import opened Bytes
  import opened Options
  import opened BinaryCoder
  import opened BinaryBuffer
  import opened Scanner

  const CHAT_PORT := 9399
  const HIDDEN_JOIN: seq<byte> := Ascii("chat/_hiddenjoin")

  function HiddenJoinCommand(room: seq<byte>, name: seq<byte>): seq<byte>
  {
    HIDDEN_JOIN + ([32] + (room + ([32] + (name + [10]))))
  }

  function TransferFields(destpid: int, cmd: seq<byte>): seq<Field>
  {
    [Num(destpid), Num(CHAT_PORT), Str(cmd)]
  }

  /** chat_join_transfer() fills the command. */
  method FillCommand(room: seq<byte>, name: seq<byte>, cmd: Txt)
    requires cmd.Valid() && cmd.len == 0 && |HiddenJoinCommand(room, name)| <= cmd.data.Length
    modifies cmd`len, cmd.data
    ensures cmd.Valid() && cmd.Contents() == HiddenJoinCommand(room, name)
  {
    cmd.Concat(Ascii("chat/_hiddenjoin "));
    cmd.Concat(room);
    cmd.Concat(Ascii(" "));
    cmd.Concat(name);
    cmd.Concat(Ascii("\n"));
    assert Ascii("chat/_hiddenjoin ") == HIDDEN_JOIN + [32];
    assert Ascii(" ") == [32] && Ascii("\n") == [10];
  }

  /** default_transfer_parallel() packs the command behind the port. */
  method TransferParallel(destpid: int, cmd: seq<byte>, bin: Txt) returns (fits: bool)
    requires 0 <= destpid && IsInt32(destpid)
    requires bin.Valid() && bin.data.Length >= 256
    modifies bin`len, bin.data
    ensures bin.Valid()
    ensures fits <==> MessageLength(TransferFields(destpid, cmd)) <= bin.data.Length
    ensures fits ==> bin.Contents() == Message(TransferFields(destpid, cmd))
  {
    bin.ResetForPid(destpid);
    ghost var head := [Num(destpid), Num(CHAT_PORT)];
    EncodeOne(Num(destpid));
    AppendedExtendsMessage([Num(destpid)], Num(CHAT_PORT));
    assert [Num(destpid)] + [Num(CHAT_PORT)] == head;
    var ok := bin.PackInt(CHAT_PORT);
    AppendedExtendsMessage(head, Str(cmd));
    assert head + [Str(cmd)] == TransferFields(destpid, cmd);
    fits := bin.PackString(cmd);
  }

  /** chat_hiddenjoin_get_room_and_name(): the second and third word, if there are three. */
  method GetRoomAndName(request: seq<byte>) returns (r: Option<(seq<byte>, seq<byte>)>)
    ensures r == RoomAndName(request)
  {
    var token, sandbox := NextToken(request);
    if |token| == 0 {
      return None;
    }
    assert Words(request) == [token] + Words(sandbox);
    var room, rest := NextToken(sandbox);
    if |room| == 0 {
      assert Words(sandbox) == [];
      return None;
    }
    assert Words(sandbox) == [room] + Words(rest);
    var name, _ := NextToken(rest);
    if |name| == 0 {
      assert Words(rest) == [];
      return None;
    }
    return Some((room, name));
  }

  function RoomAndName(request: seq<byte>): Option<(seq<byte>, seq<byte>)>
  {
    var words := Words(request);
    if |words| < 3 then None else Some((words[1], words[2]))
  }

  datatype Arrival = Arrival(port: int, plugin: seq<byte>, joined: Option<(seq<byte>, seq<byte>)>)

  /** The receiving process: the length is the capacity of the buffer until the fixup sets it right;
      then the port, the command, its first word as the plugin to call, and what that plugin reads. */
  method ReceiveTransfer(bin: Txt) returns (r: Option<Arrival>)
    requires bin.Valid() && bin.len == bin.data.Length && bin.len % 256 >= 2 && bin.len >= 2
    requires 2 <= Word(bin.data[0], bin.data[1]) <= bin.data.Length
    modifies bin`len
    ensures r == DecodeTransfer(bin.data[..], Word(bin.data[0], bin.data[1]))
  {
    bin.Fixup();
    var port := bin.UnpackInteger(1);
    var x := bin.UnpackString(2);
    if !port.Done? || !x.Done? {
      return None;
    }
    var plugin, rest := NextToken(x.value);
    var joined := GetRoomAndName(x.value);
    return Some(Arrival(port.value, plugin, joined));
  }

  function DecodeTransfer(mem: seq<byte>, length: nat): Option<Arrival>
    requires 2 <= length <= |mem|
  {
    var port, x := UnpackInt(mem, length, 1), Unpack(mem, length, 2, STRING);
    if !port.Done? || !x.Done? then None
    else Some(Arrival(port.value, FirstWord(x.value), RoomAndName(x.value)))
  }

  // ---------------------------------------------------------------- round trip

  lemma {:induction false} WordsHoldWords(src: seq<byte>)
    ensures forall w | w in Words(src) :: IsWord(w)
    decreases |src|
  {
    if FirstWord(src) != [] {
      FirstWordIsWord(src);
      WordsHoldWords(AfterWord(src));
    }
  }

  lemma FirstWordIsWord(src: seq<byte>)
    requires FirstWord(src) != []
    ensures IsWord(FirstWord(src))
  {
    var a := NextStart(src, 0);
    EndMeaning(src, a);
    forall k | 0 <= k < |FirstWord(src)|
      ensures !IsSeparator(FirstWord(src)[k])
    {
      assert FirstWord(src)[k] == src[a + k];
    }
  }

  lemma HiddenJoinIsWord()
    ensures IsWord(HIDDEN_JOIN)
  {
    assert HIDDEN_JOIN == [99, 104, 97, 116, 47, 95, 104, 105, 100, 100, 101, 110, 106, 111, 105, 110];
  }

  lemma CommandWords(room: seq<byte>, name: seq<byte>)
    requires IsWord(room) && IsWord(name)
    ensures FirstWord(HiddenJoinCommand(room, name)) == HIDDEN_JOIN
    ensures Words(HiddenJoinCommand(room, name)) == [HIDDEN_JOIN, room, name]
  {
    HiddenJoinIsWord();
    var end: seq<byte> := [10];
    var tail2 := [32] + (name + end);
    var tail1 := [32] + (room + tail2);
    WordComesOff(HIDDEN_JOIN, tail1);
    SeparatorIsSkipped(32, room + tail2);
    WordComesOff(room, tail2);
    SeparatorIsSkipped(32, name + end);
    WordComesOff(name, end);
    SeparatorIsSkipped(10, []);
    assert end == [10] + [];
  }

  /** The hidden join reads back exactly what was sent if and only if both names are separator-free and not empty. */
  lemma CommandComesBackIffWords(room: seq<byte>, name: seq<byte>)
    ensures RoomAndName(HiddenJoinCommand(room, name)) == Some((room, name)) <==> IsWord(room) && IsWord(name)
  {
    if IsWord(room) && IsWord(name) {
      CommandWords(room, name);
    }
    WordsHoldWords(HiddenJoinCommand(room, name));
  }

  lemma FieldsArrive(destpid: int, text: seq<byte>, mem: seq<byte>)
    requires 0 <= destpid && IsInt32(destpid)
    requires MessageLength(TransferFields(destpid, text)) < 0x1_0000 && Message(TransferFields(destpid, text)) <= mem
    ensures 2 < Word(mem[0], mem[1]) == MessageLength(TransferFields(destpid, text)) <= |mem|
    ensures UnpackInt(mem, Word(mem[0], mem[1]), 1) == Done(CHAT_PORT)
    ensures Unpack(mem, Word(mem[0], mem[1]), 2, STRING) == Done(text)
  {
    var fields := TransferFields(destpid, text);
    var n := MessageLength(fields);
    assert Word(mem[0], mem[1]) == n by {
      assert mem[0] == Message(fields)[0] && mem[1] == Message(fields)[1];
    }
    TransferOffsets(destpid, text);
    UnpackIntReturnsField(mem, n, fields, 1);
    UnpackReturnsField(mem, n, fields, 2);
  }

  lemma TransferOffsets(destpid: int, text: seq<byte>)
    ensures |TransferFields(destpid, text)| == 3
    ensures BodyStart(TransferFields(destpid, text), 1) <= BodyStart(TransferFields(destpid, text), 2) <= 255
  {
    var fields := TransferFields(destpid, text);
    SplitAt(fields, 0);
    SplitAt(fields, 1);
    assert EncodeAll(fields[..0]) == [];
  }

  /** A transfer arrives whole: the receive buffer holds the message and anything behind it. */
  lemma TransferComesBack(destpid: int, room: seq<byte>, name: seq<byte>, mem: seq<byte>)
    requires 0 <= destpid && IsInt32(destpid) && IsWord(room) && IsWord(name)
    requires var fields := TransferFields(destpid, HiddenJoinCommand(room, name));
      MessageLength(fields) < 0x1_0000 && Message(fields) <= mem
    ensures 2 < Word(mem[0], mem[1]) <= |mem|
    ensures DecodeTransfer(mem, Word(mem[0], mem[1])) == Some(Arrival(CHAT_PORT, HIDDEN_JOIN, Some((room, name))))
  {
    FieldsArrive(destpid, HiddenJoinCommand(room, name), mem);
    CommandWords(room, name);
  }

  // ---------------------------------------------------------------- from one process to the other

  const COMMAND_SIZE := 128
  const RECEIVE_SIZE := 128

  lemma TransferLength(destpid: int, text: seq<byte>)
    requires 0 <= destpid
    ensures MessageLength(TransferFields(destpid, text)) == (if destpid >= 0xFFFF then 17 else 15) + |text|
  {
    var fields := TransferFields(destpid, text);
    var tail, last := [fields[1], fields[2]], [fields[2]];
    EncodeOne(fields[2]);
    assert tail[1..] == last && EncodeAll(tail) == Encode(fields[1]) + EncodeAll(last);
    assert fields[1..] == tail && EncodeAll(fields) == Encode(fields[0]) + EncodeAll(tail);
  }

  lemma CommandLength(room: seq<byte>, name: seq<byte>)
    ensures |HiddenJoinCommand(room, name)| == 19 + |room| + |name|
  {
    assert |HIDDEN_JOIN| == 16;
  }

  /** The message fits the receiver's buffer exactly when room and name together are short enough. */
  lemma TransferFitsIff(destpid: int, room: seq<byte>, name: seq<byte>)
    requires 0 <= destpid
    ensures MessageLength(TransferFields(destpid, HiddenJoinCommand(room, name))) <= RECEIVE_SIZE
        <==> |room| + |name| <= (if destpid >= 0xFFFF then 92 else 94)
  {
    CommandLength(room, name);
    TransferLength(destpid, HiddenJoinCommand(room, name));
  }

  /** pp_recvmsg_helper(): the datagram overwrites the front of the buffer, and the length becomes the capacity. */
  method ReceiveDatagram(recv: Txt, bytes: seq<byte>)
    requires recv.Valid() && |bytes| <= recv.data.Length
    modifies recv`len, recv.data
    ensures recv.Valid() && recv.len == recv.data.Length && bytes <= recv.data[..]
  {
    forall i | 0 <= i < |bytes| {
      recv.data[i] := bytes[i];
    }
    recv.len := recv.data.Length;
  }

  /** A connection goes over: command, message, receive buffer with whatever was in it, fixup and decoding.
      Names below 32 bytes always fit. */
  method HandAcross(destpid: int, room: seq<byte>, name: seq<byte>, recv: Txt) returns (r: Option<Arrival>)
    requires 0 <= destpid && IsInt32(destpid) && IsWord(room) && IsWord(name) && |room| + |name| <= 92
    requires recv.Valid() && recv.data.Length == RECEIVE_SIZE
    modifies recv`len, recv.data
    ensures r == Some(Arrival(CHAT_PORT, HIDDEN_JOIN, Some((room, name))))
  {
    var cmd := new Txt(COMMAND_SIZE);
    CommandLength(room, name);
    FillCommand(room, name, cmd);
    var text := cmd.data[..cmd.len];
    var bin := new Txt(256);
    TransferFitsIff(destpid, room, name);
    var fits := TransferParallel(destpid, text, bin);
    ReceiveDatagram(recv, bin.data[..bin.len]);
    TransferComesBack(destpid, room, name, recv.data[..]);
    r := ReceiveTransfer(recv);
  }
}
