/** The table of processes that every process keeps, and sending through it (base/src/parallel/pipeline.c). */
module Pipeline {
  import opened Bytes
  import opened Options
  import opened Sequences
  import opened BinaryCoder
  import opened BinaryBuffer
  import opened AsyncRequest

  const MAILBOX_CHILD_PID: seq<byte> := Ascii("mailbox/child/pid")

  /** A datagram: the slot whose socket takes it, and its bytes. */
  datatype Datagram = Datagram(slot: nat, bytes: seq<byte>)

  // ---------------------------------------------------------------- the table as a value

  /** The first slot from i on that holds x, or the length of the table. */
  function IndexFrom(table: seq<int>, x: int, i: nat): (k: nat)
    requires i <= |table|
    ensures i <= k <= |table|
    ensures k < |table| ==> table[k] == x
    ensures forall j | i <= j < k :: table[j] != x
    decreases |table| - i
  {
    if i == |table| || table[i] == x then i else IndexFrom(table, x, i + 1)
  }

  function IndexOf(table: seq<int>, x: int): (k: nat)
    ensures k <= |table|
    ensures k < |table| ==> table[k] == x
    ensures forall j | 0 <= j < k :: table[j] != x
  {
    IndexFrom(table, x, 0)
  }

  lemma Found(table: seq<int>, x: int)
    requires x in table
    ensures IndexOf(table, x) < |table|
  {
    var j :| 0 <= j < |table| && table[j] == x;
  }

  /** The process id is known, and no other slot claims it. */
  ghost predicate OnlyAt(table: seq<int>, nid: int, k: nat)
  {
    k < |table| && table[k] == nid && (forall j | 0 <= j < |table| && j != k :: table[j] != nid)
  }

  /** The first free slot, if any, takes the process id. */
  function FirstFreeSet(table: seq<int>, nid: int): (after: seq<int>)
    ensures |after| == |table|
  {
    var k := IndexOf(table, 0);
    if k < |table| then table[k := nid] else table
  }

  /** pp_update_siblings_pid() once its message is decoded. */
  function SiblingSet(table: seq<int>, mine: nat, nid: int, index: nat): (after: seq<int>)
    requires index < |table|
    ensures |after| == |table|
  {
    if index == mine then table else table[index := nid]
  }

  function NextNidOf(table: seq<int>, mine: nat): int
  {
    if mine + 1 < |table| then table[mine + 1] else -1
  }

  /** pp_next_worker_nid(): the slot after the last one is the first worker's. */
  function NextWorkerSlot(n: nat, k: nat): (next: nat)
    requires k < n && n >= 2
    ensures 1 <= next < n
  {
    if k + 1 < n then k + 1 else 1
  }

  lemma WrapAround(k: nat, n: nat)
    requires k < n
    ensures (k + 1) % n == if k + 1 == n then 0 else k + 1
  {
  }

  // ---------------------------------------------------------------- sending

  /** The datagrams of a broadcast from slot i on; it stops at the first socket that fails. */
  function BroadcastFrom(n: nat, mine: nat, works: seq<bool>, bytes: seq<byte>, i: nat): seq<Datagram>
    requires i <= n == |works|
    decreases n - i
  {
    if i == n then []
    else if i == mine then BroadcastFrom(n, mine, works, bytes, i + 1)
    else if !works[i] then []
    else [Datagram(i, bytes)] + BroadcastFrom(n, mine, works, bytes, i + 1)
  }

  function SendOf(table: seq<int>, mine: nat, dnid: int, works: seq<bool>, bytes: seq<byte>): seq<Datagram>
    requires |works| == |table|
  {
    if dnid == 0 then BroadcastFrom(|table|, mine, works, bytes, 0)
    else
      var k := IndexOf(table, dnid);
      if k < |table| && works[k] then [Datagram(k, bytes)] else []
  }

  /** Every socket that this message goes through accepts it. */
  ghost predicate WorksFor(table: seq<int>, mine: nat, dnid: int, works: seq<bool>)
    requires |works| == |table| && (dnid != 0 ==> dnid in table)
  {
    if dnid == 0 then forall k | 0 <= k < |table| && k != mine :: works[k]
    else
      var k := IndexOf(table, dnid);
      k < |table| && works[k]
  }

  ghost predicate AllWork(works: seq<bool>)
  {
    forall k | 0 <= k < |works| :: works[k]
  }

  /** What reaches one slot, in order. */
  function ForSlot(sent: seq<Datagram>, k: nat): seq<seq<byte>>
  {
    if |sent| == 0 then []
    else (if sent[0].slot == k then [sent[0].bytes] else []) + ForSlot(sent[1..], k)
  }

  lemma {:induction false} ForSlotAppend(a: seq<Datagram>, b: seq<Datagram>, k: nat)
    ensures ForSlot(a + b, k) == ForSlot(a, k) + ForSlot(b, k)
  {
    if |a| == 0 {
      assert a + b == b;
    } else {
      assert (a + b)[0] == a[0] && (a + b)[1..] == a[1..] + b;
      ForSlotAppend(a[1..], b, k);
    }
  }

  /** The sockets of the slots from i up to k, the sender's left out, all accept. */
  ghost predicate WorkUpTo(works: seq<bool>, mine: nat, i: nat, k: nat)
  {
    forall j | i <= j <= k && j < |works| && j != mine :: works[j]
  }

  lemma {:induction false} BroadcastFromReaches(n: nat, mine: nat, works: seq<bool>, bytes: seq<byte>, i: nat, k: nat)
    requires i <= n == |works|
    ensures ForSlot(BroadcastFrom(n, mine, works, bytes, i), k)
         == if i <= k < n && k != mine && WorkUpTo(works, mine, i, k) then [bytes] else []
    decreases n - i
  {
    if i < n {
      BroadcastFromReaches(n, mine, works, bytes, i + 1, k);
      var rest := BroadcastFrom(n, mine, works, bytes, i + 1);
      if i != mine && works[i] {
        ForSlotAppend([Datagram(i, bytes)], rest, k);
        assert ForSlot([Datagram(i, bytes)], k) == if i == k then [bytes] else [];
      }
    }
  }

  /** A message to a process that exactly one slot claims reaches that slot alone, once, if its socket accepts it;
      a broadcast reaches every slot but the sender's, once, up to the first whose socket fails. */
  lemma SendReaches(table: seq<int>, mine: nat, dnid: int, works: seq<bool>, bytes: seq<byte>, slot: nat, k: nat)
    requires |works| == |table| && k < |table|
    requires dnid != 0 ==> OnlyAt(table, dnid, slot)
    ensures ForSlot(SendOf(table, mine, dnid, works, bytes), k)
         == if (if dnid == 0 then k != mine && WorkUpTo(works, mine, 0, k) else k == slot && works[slot])
            then [bytes] else []
  {
    if dnid == 0 {
      BroadcastFromReaches(|table|, mine, works, bytes, 0, k);
    } else {
      assert IndexOf(table, dnid) == slot;
    }
  }

  // ---------------------------------------------------------------- the mailbox messages after the last fork

  function MailboxFields(mypid: int, nid: int, index: nat): seq<Field>
  {
    ReplyFields(mypid, nid, MAILBOX_CHILD_PID, index, [])
  }

  /** What the master tells the others: the process id of each worker, under its slot. */
  function MailboxesFrom(table: seq<int>, mypid: int, works: seq<bool>, i: nat): seq<Datagram>
    requires i <= |table| == |works|
    decreases |table| - i
  {
    if i == |table| then []
    else
      BroadcastFrom(|table|, 0, works, Message(MailboxFields(mypid, table[i], i)), 0)
      + MailboxesFrom(table, mypid, works, i + 1)
  }

  /** One message for each worker from slot i on. */
  function MailboxTexts(table: seq<int>, mypid: int, i: nat): (texts: seq<seq<byte>>)
    requires i <= |table|
    ensures |texts| == |table| - i
  {
    seq(|table| - i, j requires 0 <= j < |table| - i => Message(MailboxFields(mypid, table[i + j], i + j)))
  }

  lemma MailboxTextsHead(table: seq<int>, mypid: int, i: nat)
    requires i < |table|
    ensures MailboxTexts(table, mypid, i) == [Message(MailboxFields(mypid, table[i], i))]
            + MailboxTexts(table, mypid, i + 1)
  {
  }

  /** Every worker slot gets one message for each worker, in slot order, and the master gets none. */
  lemma {:induction false} MailboxesReach(table: seq<int>, mypid: int, works: seq<bool>, i: nat, k: nat)
    requires i <= |table| == |works| && AllWork(works) && k < |table|
    ensures ForSlot(MailboxesFrom(table, mypid, works, i), k) == if k == 0 then [] else MailboxTexts(table, mypid, i)
    decreases |table| - i
  {
    if i < |table| {
      var bytes := Message(MailboxFields(mypid, table[i], i));
      ForSlotAppend(BroadcastFrom(|table|, 0, works, bytes, 0), MailboxesFrom(table, mypid, works, i + 1), k);
      BroadcastFromReaches(|table|, 0, works, bytes, 0, k);
      MailboxesReach(table, mypid, works, i + 1, k);
      MailboxTextsHead(table, mypid, i);
    }
  }

  lemma MailboxFits(mypid: int, nid: int, index: nat)
    ensures MessageLength(MailboxFields(mypid, nid, index)) <= 43
  {
    var fields := MailboxFields(mypid, nid, index);
    assert fields == [Num(mypid), Str(MAILBOX_CHILD_PID), Num(nid), Num(index)];
    var last, tail, body := [fields[3]], [fields[2], fields[3]], [fields[1], fields[2], fields[3]];
    EncodeOne(fields[3]);
    assert tail[1..] == last && EncodeAll(tail) == Encode(fields[2]) + EncodeAll(last);
    assert body[1..] == tail && EncodeAll(body) == Encode(fields[1]) + EncodeAll(tail);
    assert fields[1..] == body && EncodeAll(fields) == Encode(fields[0]) + EncodeAll(body);
  }

  /** A mailbox message is read as it was sent: the hook finds the worker's process id and its slot. */
  lemma MailboxComesBack(mem: seq<byte>, length: nat, mypid: int, nid: int, index: nat)
    requires IsInt32(mypid) && 0 <= nid && IsInt32(nid) && IsInt32(index)
    requires Message(MailboxFields(mypid, nid, index)) <= mem
    requires MessageLength(MailboxFields(mypid, nid, index)) <= length <= |mem|
    ensures TextAt(mem, length, 1) == MAILBOX_CHILD_PID
    ensures IntAt(mem, length, 2) == nid && IntAt(mem, length, 3) == index
  {
    var fields := MailboxFields(mypid, nid, index);
    MailboxFits(mypid, nid, index);
    assert |fields| == 4 && fields[1] == Str(MAILBOX_CHILD_PID) && fields[2] == Num(nid) && fields[3] == Num(index);
    SplitAt(fields, 3);
    assert fields[..4] == fields;
    FieldsComeBack(mem, length, fields);
  }

  // ---------------------------------------------------------------- the table in place

  class NodeTable {
    var nodes: array<int>
    var mynode: nat
    /** Everything handed to the sockets so far. */
    var sent: seq<Datagram>

    ghost predicate Valid()
      reads this
    {
      mynode < nodes.Length
    }

    /** pp_module_init() in the master. */
    constructor (n: nat, pid: int)
      requires n > 0
      ensures Valid() && fresh(nodes) && mynode == 0 && sent == []
      ensures nodes[..] == seq(n, i => if i == 0 then pid else 0)
    {
      nodes := new int[n](_ => 0);
      mynode := 0;
      sent := [];
      new;
      nodes[0] := pid;
    }

    method FindNode(nid: int) returns (k: nat)
      ensures k == IndexOf(nodes[..], nid)
    {
      k := 0;
      while k < nodes.Length
        invariant k <= nodes.Length
        invariant IndexOf(nodes[..], nid) == IndexFrom(nodes[..], nid, k)
      {
        if nodes[k] == nid {
          return;
        }
        k := k + 1;
      }
    }

    method NextNid() returns (nid: int)
      requires Valid()
      ensures nid == NextNidOf(nodes[..], mynode)
    {
      var nextIndex := -1;
      var i := 0;
      while i < nodes.Length
        invariant 0 <= i <= mynode && nextIndex == -1
      {
        if i == mynode {
          nextIndex := i + 1;
          break;
        }
        i := i + 1;
      }
      if nextIndex != -1 && nextIndex < nodes.Length {
        return nodes[nextIndex];
      }
      return -1;
    }

    method NextWorkerNid(nid: int) returns (next: int)
      requires nodes.Length >= 2 && nid in nodes[..]
      ensures IndexOf(nodes[..], nid) < nodes.Length
      ensures next == nodes[NextWorkerSlot(nodes.Length, IndexOf(nodes[..], nid))]
    {
      var k := FindNode(nid);
      Found(nodes[..], nid);
      WrapAround(k, nodes.Length);
      var nextIndex := (k + 1) % nodes.Length;
      if nextIndex == 0 {
        nextIndex := nextIndex + 1;
      }
      return nodes[nextIndex];
    }

    /** pp_send(); works tells which sockets accept the datagram. A destination must be known. */
    method Send(dnid: int, bytes: seq<byte>, works: seq<bool>) returns (ret: int)
      requires Valid() && |works| == nodes.Length
      requires dnid != 0 ==> dnid in nodes[..]
      modifies this`sent
      ensures sent == old(sent) + SendOf(nodes[..], mynode, dnid, works, bytes)
      ensures ret == if WorksFor(nodes[..], mynode, dnid, works) then 0 else -1
    {
      if dnid != 0 {
        var k := FindNode(dnid);
        Found(nodes[..], dnid);
        if !works[k] {
          return -1;
        }
        sent := sent + [Datagram(k, bytes)];
        return 0;
      }
      var i := 0;
      while i < nodes.Length
        invariant 0 <= i <= nodes.Length
        invariant old(sent) + BroadcastFrom(nodes.Length, mynode, works, bytes, 0)
               == sent + BroadcastFrom(nodes.Length, mynode, works, bytes, i)
        invariant forall k | 0 <= k < i && k != mynode :: works[k]
      {
        ghost var rest := BroadcastFrom(nodes.Length, mynode, works, bytes, i + 1);
        if i != mynode {
          if !works[i] {
            return -1;
          }
          Associative(sent, [Datagram(i, bytes)], rest);
          sent := sent + [Datagram(i, bytes)];
        }
        i := i + 1;
      }
      return 0;
    }

    /** pp_fork_child_after_callback(): the loop makes the first free slot this process's own. */
    method ForkChildAfter(pid: int)
      requires 0 in nodes[..] && pid != 0
      modifies this`mynode, nodes
      ensures Valid() && mynode == IndexOf(old(nodes[..]), 0)
      ensures nodes[..] == FirstFreeSet(old(nodes[..]), pid)
    {
      ghost var was := nodes[..];
      ghost var free: nat := IndexOf(was, 0);
      Found(was, 0);
      var found := false;
      var i := 0;
      while i < nodes.Length
        invariant 0 <= i <= nodes.Length
        invariant found == (free < i) && (found ==> mynode == free)
        invariant nodes[..] == if found then was[free := pid] else was
      {
        if !found && nodes[i] == 0 {
          assert i == free by {
            assert was[i] == 0;
          }
          mynode := i;
          nodes[i] := pid;
          found := true;
        }
        i := i + 1;
      }
    }

    /** The loop of pp_fork_parent_after_callback() over the first free slot. */
    method FillFirstFree(childPid: int)
      modifies nodes
      ensures nodes[..] == FirstFreeSet(old(nodes[..]), childPid)
    {
      var k := FindNode(0);
      if k < nodes.Length {
        nodes[k] := childPid;
      }
    }

    /** pp_fork_parent_after_callback(): once the last slot is taken, everyone is told about every worker. */
    method ForkParentAfter(mypid: int, childPid: int, works: seq<bool>)
      requires Valid() && mynode == 0 && |works| == nodes.Length
      requires IsInt32(mypid) && IsInt32(childPid) && childPid > 0 && IsInt32(nodes.Length)
      requires forall k | 0 <= k < nodes.Length :: IsInt32(nodes[k])
      modifies this`sent, nodes
      ensures Valid() && nodes[..] == FirstFreeSet(old(nodes[..]), childPid)
      ensures sent == old(sent) +
        if nodes[nodes.Length - 1] != 0 then MailboxesFrom(nodes[..], mypid, works, 1) else []
    {
      FillFirstFree(childPid);
      if nodes[nodes.Length - 1] != 0 {
        TellAll(mypid, works);
      }
    }

    method TellAll(mypid: int, works: seq<bool>)
      requires Valid() && mynode == 0 && |works| == nodes.Length
      requires IsInt32(mypid) && IsInt32(nodes.Length)
      requires forall k | 0 <= k < nodes.Length :: IsInt32(nodes[k])
      modifies this`sent
      ensures sent == old(sent) + MailboxesFrom(nodes[..], mypid, works, 1)
    {
      var i := 1;
      while i < nodes.Length
        invariant 1 <= i <= nodes.Length
        invariant old(sent) + MailboxesFrom(nodes[..], mypid, works, 1)
               == sent + MailboxesFrom(nodes[..], mypid, works, i)
      {
        var bin := ReplyWorker(mypid, nodes[i], MAILBOX_CHILD_PID, i, [None]);
        MailboxMessage(mypid, nodes[i], i);
        Associative(sent, BroadcastFrom(nodes.Length, 0, works, bin.Contents(), 0),
                    MailboxesFrom(nodes[..], mypid, works, i + 1));
        var bytes := bin.data[..bin.len];
        var ret := Send(0, bytes, works);
        i := i + 1;
      }
    }

    /** pp_update_siblings_pid(): the message names a slot of the table. */
    method UpdateSiblingsPid(input: Txt)
      requires Valid() && input.Valid() && input.len >= 2
      requires 0 <= IntAt(input.data[..], input.len, 3) < nodes.Length
      modifies nodes
      ensures var mem := input.data[..];
        nodes[..] == SiblingSet(old(nodes[..]), mynode, IntAt(mem, input.len, 2), IntAt(mem, input.len, 3))
    {
      var n := input.UnpackInteger(2);
      var x := input.UnpackInteger(3);
      var nid := if n.Done? then n.value else 0;
      var index := if x.Done? then x.value else 0;
      if index != mynode {
        nodes[index] := nid;
      }
    }
  }

  lemma MailboxMessage(mypid: int, nid: int, index: nat)
    ensures MAILBOX_CHILD_PID != NULL_HOOK
    ensures Kept(ReplyFields(mypid, nid, MAILBOX_CHILD_PID, index, UpToNull([None])), MAX_BINARY_MSG_LEN)
            == MailboxFields(mypid, nid, index)
  {
    assert |MAILBOX_CHILD_PID| == 17 && |NULL_HOOK| == 4;
    assert UpToNull([None]) == [];
    MailboxFits(mypid, nid, index);
    KeptAllIffFits(MailboxFields(mypid, nid, index), MAX_BINARY_MSG_LEN);
  }
}
