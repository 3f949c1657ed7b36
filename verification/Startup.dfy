/** Forking the workers: process tables and rooms, over every interleaving of the forks, the callbacks and the messages
    (base/src/parallel/fork.c, base/src/parallel/pipeline.c, apps/chat/src/room_master.c). */
module Startup {
  import opened Bytes
  import opened Options
  import opened AsyncRequest
  import opened BinaryCoder
  import opened Database
  import opened ChatWorker
  import opened RoomCounters
  import opened Pipeline
  import ChatSystem

  /** What a process holds: the process table with its own slot, the room counter, and the rooms it created by index. */
  datatype Proc = Proc(table: seq<int>, mine: nat, count: nat, rooms: seq<nat>)

  datatype Packet = Mail(nid: int, index: nat) | Ask(call: Call)

  /** The processes by slot with their true ids; the callbacks of a forked process run some time after the fork.
      The queues belong to the sockets, which exist for every slot from the beginning. */
  datatype Boot = Boot(names: seq<seq<byte>>, pids: seq<int>, procs: seq<Proc>, started: seq<bool>,
                       parentPending: bool, queues: seq<seq<Packet>>, db: Table)

  datatype Step = Fork(pid: int) | ParentAfter | ChildAfter(k: nat) | Receive(k: nat)

  // ---------------------------------------------------------------- room_master.c

  /** chat_room_add_helper(): what it asks of the database. */
  function Claim(pid: int, room: seq<byte>): Call { Quiet(pid, SetIfNull(PidKey(room), DecimalInt(pid))) }

  class RoomMaster {
    const names: seq<seq<byte>>
    var childCount: nat
    var rooms: seq<nat>
    var sent: seq<Call>

    constructor (names: seq<seq<byte>>)
      ensures this.names == names && childCount == 0 && rooms == [] && sent == []
    {
      this.names := names;
      childCount, rooms, sent := 0, [], [];
    }

    method AddHelper(pid: int, index: nat)
      requires index < |names|
      modifies this`rooms, this`sent
      ensures rooms == old(rooms) + [index] && sent == old(sent) + [Claim(pid, names[index])]
    {
      var key := ROOM_PID_KEY + names[index];
      sent := sent + [Quiet(pid, SetIfNull(key, DecimalInt(pid)))];
      rooms := rooms + [index];
    }

    method ForkParentAfter()
      modifies this`childCount
      ensures childCount == old(childCount) + 2
    {
      childCount := childCount + 2;
    }

    method ForkChildAfter(pid: int)
      requires childCount + 1 < |names|
      modifies this
      ensures childCount == old(childCount) + 1
      ensures rooms == old(rooms) + [old(childCount), old(childCount) + 1]
      ensures sent == old(sent) + [Claim(pid, names[old(childCount)]), Claim(pid, names[old(childCount) + 1])]
    {
      AddHelper(pid, childCount);
      childCount := childCount + 1;
      AddHelper(pid, childCount);
    }
  }

  // ---------------------------------------------------------------- the callbacks of one process

  /** The parent's callbacks. */
  function MasterAfter(p: Proc, childPid: int): Proc
  {
    p.(table := FirstFreeSet(p.table, childPid), count := p.count + 2)
  }

  /** The child's callbacks on what it inherited. */
  function WorkerAfter(p: Proc, pid: int): Proc
  {
    Proc(FirstFreeSet(p.table, pid), IndexOf(p.table, 0), p.count + 1, p.rooms + [p.count, p.count + 1])
  }

  /** A process with its table and its rooms; the callbacks run in the order in which the modules registered them. */
  class ForkCallbacks {
    const node: NodeTable
    const rooms: RoomMaster

    constructor (node: NodeTable, rooms: RoomMaster)
      ensures this.node == node && this.rooms == rooms
    {
      this.node, this.rooms := node, rooms;
    }

    ghost function Value(): Proc
      reads node, node.nodes, rooms
    {
      Proc(node.nodes[..], node.mynode, rooms.childCount, rooms.rooms)
    }

    method ForkChildAfter(pid: int)
      requires 0 in node.nodes[..] && pid != 0 && rooms.childCount + 1 < |rooms.names|
      modifies node`mynode, node.nodes, rooms
      ensures node.Valid() && Value() == WorkerAfter(old(Value()), pid)
      ensures rooms.sent == old(rooms.sent) +
        [Claim(pid, rooms.names[old(rooms.childCount)]), Claim(pid, rooms.names[old(rooms.childCount) + 1])]
    {
      node.ForkChildAfter(pid);
      rooms.ForkChildAfter(pid);
    }

    method ForkParentAfter(mypid: int, childPid: int, works: seq<bool>)
      requires node.Valid() && node.mynode == 0 && |works| == node.nodes.Length
      requires IsInt32(mypid) && IsInt32(childPid) && childPid > 0 && IsInt32(node.nodes.Length)
      requires forall k | 0 <= k < node.nodes.Length :: IsInt32(node.nodes[k])
      modifies node`sent, node.nodes, rooms`childCount
      ensures node.Valid() && Value() == MasterAfter(old(Value()), childPid)
      ensures node.sent == old(node.sent) +
        if node.nodes[node.nodes.Length - 1] != 0 then MailboxesFrom(node.nodes[..], mypid, works, 1) else []
    {
      node.ForkParentAfter(mypid, childPid, works);
      rooms.ForkParentAfter();
    }
  }

  // ---------------------------------------------------------------- steps

  ghost predicate Complete(b: Boot) { |b.pids| == |b.queues| && !b.parentPending }

  ghost predicate Shape(b: Boot)
  {
    && 1 <= |b.pids| <= |b.queues| && |b.procs| == |b.started| == |b.pids| && b.started[0]
    && (b.parentPending ==> |b.pids| >= 2)
    && (forall i | 0 <= i < |b.pids| :: b.pids[i] > 0)
    && (forall i, j | 0 <= i < j < |b.pids| :: b.pids[i] != b.pids[j])
    && (forall k | 0 <= k < |b.pids| :: |b.procs[k].table| == |b.queues|)
    && 2 * (|b.queues| - 1) <= |b.names|
    && (forall i, j | 0 <= i < j < |b.names| :: b.names[i] != b.names[j])
    && (forall i | 0 <= i < |b.names| :: b.names[i] != [])
  }

  /** The master runs its loop, and so serves its queue, only after the last fork. */
  ghost predicate Enabled(b: Boot, step: Step)
  {
    Shape(b) &&
    match step
    case Fork(pid) => !b.parentPending && |b.pids| < |b.queues| && pid > 0 && pid !in b.pids
    case ParentAfter => b.parentPending
    case ChildAfter(k) =>
      k < |b.pids| && !b.started[k] && b.procs[k].count + 1 < |b.names| && b.pids[0] in b.procs[k].table
    case Receive(k) =>
      && k < |b.pids| && b.started[k] && |b.queues[k]| > 0 && (k == 0 ==> Complete(b))
      && (b.queues[k][0].Mail? ==> b.queues[k][0].index < |b.queues|)
  }

  function Mailed(table: seq<int>): (mails: seq<Packet>)
    requires |table| > 0
    ensures |mails| == |table| - 1
  {
    seq(|table| - 1, i requires 0 <= i < |table| - 1 => Mail(table[i + 1], i + 1))
  }

  function Broadcast(queues: seq<seq<Packet>>, mine: nat, packets: seq<Packet>): (after: seq<seq<Packet>>)
    ensures |after| == |queues|
    ensures forall k | 0 <= k < |queues| :: after[k] == if k == mine then queues[k] else queues[k] + packets
  {
    seq(|queues|, k requires 0 <= k < |queues| => if k == mine then queues[k] else queues[k] + packets)
  }

  ghost function Next(b: Boot, step: Step): Boot
    requires Enabled(b, step)
  {
    match step
    case Fork(pid) =>
      b.(pids := b.pids + [pid], procs := b.procs + [b.procs[0]], started := b.started + [false], parentPending := true)
    case ParentAfter =>
      var master := MasterAfter(b.procs[0], b.pids[|b.pids| - 1]);
      b.(procs := b.procs[0 := master], parentPending := false,
         queues := if master.table[|master.table| - 1] != 0 then Broadcast(b.queues, 0, Mailed(master.table))
                   else b.queues)
    case ChildAfter(k) =>
      var p, pid := b.procs[k], b.pids[k];
      var dest := IndexOf(p.table, b.pids[0]);
      b.(procs := b.procs[k := WorkerAfter(p, pid)], started := b.started[k := true],
         queues := b.queues[dest := b.queues[dest] +
                            [Ask(Claim(pid, b.names[p.count])), Ask(Claim(pid, b.names[p.count + 1]))]])
    case Receive(k) =>
      var rest := b.(queues := b.queues[k := b.queues[k][1..]]);
      match b.queues[k][0]
      case Mail(nid, index) =>
        rest.(procs := b.procs[k := b.procs[k].(table := SiblingSet(b.procs[k].table, b.procs[k].mine, nid, index))])
      case Ask(call) => rest.(db := Apply(b.db, call.request))
  }

  ghost predicate Legal(b: Boot, run: seq<Step>)
    decreases run
  {
    |run| > 0 ==> Enabled(b, run[0]) && Legal(Next(b, run[0]), run[1..])
  }

  ghost function Run(b: Boot, run: seq<Step>): Boot
    requires Legal(b, run)
    decreases run
  {
    if |run| == 0 then b else Run(Next(b, run[0]), run[1..])
  }

  // ---------------------------------------------------------------- invariant

  /** The true process ids of the first m slots, and nothing after them. */
  function Known(pids: seq<int>, m: nat, n: nat): (table: seq<int>)
    requires m <= |pids| && m <= n
    ensures |table| == n
    ensures forall i | 0 <= i < n :: table[i] == if i < m then pids[i] else 0
  {
    seq(n, i requires 0 <= i < n => if i < m then pids[i] else 0)
  }

  lemma KnownGrows(pids: seq<int>, m: nat, n: nat)
    requires m < |pids| && m < n && (forall i | 0 <= i < |pids| :: pids[i] > 0)
    ensures IndexOf(Known(pids, m, n), 0) == m
    ensures FirstFreeSet(Known(pids, m, n), pids[m]) == Known(pids, m + 1, n)
  {
    var table := Known(pids, m, n);
    assert table[m] == 0;
    var k := IndexOf(table, 0);
    assert k == m;
    assert table[m := pids[m]] == Known(pids, m + 1, n);
  }

  /** How many processes the master has entered in its table. */
  ghost function Entered(b: Boot): nat
    requires Shape(b)
  {
    if b.parentPending then |b.pids| - 1 else |b.pids|
  }

  /** Every entry that is not free is the true process id of its slot. */
  ghost predicate Truthful(b: Boot, table: seq<int>)
  {
    forall i | 0 <= i < |table| && table[i] != 0 :: i < |b.pids| && table[i] == b.pids[i]
  }

  ghost predicate ProcOk(b: Boot, k: nat)
    requires Shape(b) && k < |b.pids|
  {
    var p := b.procs[k];
    if k == 0 then p == Proc(Known(b.pids, Entered(b), |b.queues|), 0, 2 * (Entered(b) - 1), [])
    else if !b.started[k] then p == Proc(Known(b.pids, k, |b.queues|), 0, 2 * (k - 1), [])
    else
      && p.mine == k && p.rooms == [2 * (k - 1), 2 * k - 1] && Truthful(b, p.table)
      && (forall i | 0 <= i <= k :: p.table[i] == b.pids[i])
  }

  /** The worker that creates a room. */
  function Owner(r: nat): nat { r / 2 + 1 }

  ghost predicate PacketOk(b: Boot, k: nat, packet: Packet)
    requires Shape(b)
  {
    if k == 0
    then
      packet.Ask?
      && exists r: nat | r < |b.names| && Owner(r) < |b.pids| :: packet == Ask(Claim(b.pids[Owner(r)], b.names[r]))
    else packet.Mail? && Complete(b) && 1 <= packet.index < |b.pids| && packet.nid == b.pids[packet.index]
  }

  ghost predicate PacketsOk(b: Boot)
    requires Shape(b)
  {
    forall k, j | 0 <= k < |b.queues| && 0 <= j < |b.queues[k]| :: PacketOk(b, k, b.queues[k][j])
  }

  /** Worker k knows slot i, or is still to be told. */
  ghost predicate Told(b: Boot, k: nat, i: nat)
    requires Shape(b) && k < |b.pids| && i < |b.pids|
  {
    b.procs[k].table[i] == b.pids[i] || Mail(b.pids[i], i) in b.queues[k]
  }

  ghost predicate AllTold(b: Boot)
    requires Shape(b)
  {
    Complete(b) ==> forall k: nat, i: nat | 1 <= k < |b.pids| && 1 <= i < |b.pids| && i != k :: Told(b, k, i)
  }

  /** The database names the owner of room r or nobody; once the owner has started, its claim is under way or served. */
  ghost predicate RoomOk(b: Boot, r: nat)
    requires Shape(b) && r < |b.names|
  {
    var found := Lookup(b.db, PidKey(b.names[r]));
    && (found != None ==> Owner(r) < |b.pids| && found == Some(Decimal(b.pids[Owner(r)])))
    && (Owner(r) < |b.pids| && b.started[Owner(r)] ==>
          found != None || Ask(Claim(b.pids[Owner(r)], b.names[r])) in b.queues[0])
  }

  ghost predicate ProcsOk(b: Boot)
    requires Shape(b)
  {
    forall k | 0 <= k < |b.pids| :: ProcOk(b, k)
  }

  ghost predicate RoomsOk(b: Boot)
    requires Shape(b)
  {
    forall r | 0 <= r < |b.names| :: RoomOk(b, r)
  }

  ghost predicate NoCounts(db: Table)
  {
    forall r :: Lookup(db, CountKey(r)) == None
  }

  ghost predicate Inv(b: Boot)
  {
    Shape(b) && ProcsOk(b) && PacketsOk(b) && AllTold(b) && RoomsOk(b) && NoCounts(b.db)
  }

  ghost predicate Initial(b: Boot)
  {
    && Shape(b) && |b.pids| == 1 && !b.parentPending
    && b.procs[0] == Proc(Known(b.pids, 1, |b.queues|), 0, 0, [])
    && (forall k | 0 <= k < |b.queues| :: b.queues[k] == [])
    && NoCounts(b.db) && (forall r :: Lookup(b.db, PidKey(r)) == None)
  }

  lemma InitialInv(b: Boot)
    requires Initial(b)
    ensures Inv(b)
  {
  }

  // ---------------------------------------------------------------- every step keeps it

  /** A packet stays what it is while processes are added; mailbox messages do so from the last fork on. */
  lemma PacketStaysOk(b: Boot, c: Boot, k: nat, packet: Packet)
    requires Shape(b) && Shape(c) && PacketOk(b, k, packet)
    requires c.names == b.names && b.pids <= c.pids && (k == 0 || (Complete(c) && c.pids == b.pids))
    ensures PacketOk(c, k, packet)
  {
    if k == 0 {
      var r: nat :| r < |b.names| && Owner(r) < |b.pids| && packet == Ask(Claim(b.pids[Owner(r)], b.names[r]));
      assert packet == Ask(Claim(c.pids[Owner(r)], c.names[r]));
    }
  }

  /** Workers hear nothing before the last fork is done. */
  lemma QuietBefore(b: Boot, k: nat)
    requires Shape(b) && PacketsOk(b) && !Complete(b) && 1 <= k < |b.queues|
    ensures b.queues[k] == []
  {
    assert b.queues[k] == [] || PacketOk(b, k, b.queues[k][0]);
  }

  lemma ForkKeepsProcs(b: Boot, pid: int)
    requires Inv(b) && Enabled(b, Fork(pid))
    ensures Shape(Next(b, Fork(pid))) && ProcsOk(Next(b, Fork(pid)))
  {
    var c := Next(b, Fork(pid));
    forall k | 0 <= k < |c.pids|
      ensures ProcOk(c, k)
    {
      assert ProcOk(b, if k < |b.pids| then k else 0);
    }
  }

  lemma ForkKeepsInv(b: Boot, pid: int)
    requires Inv(b) && Enabled(b, Fork(pid))
    ensures Inv(Next(b, Fork(pid)))
  {
    var c := Next(b, Fork(pid));
    ForkKeepsProcs(b, pid);
    QuietBeforeAll(b);
    forall k, j | 0 <= k < |c.queues| && 0 <= j < |c.queues[k]|
      ensures PacketOk(c, k, c.queues[k][j])
    {
      if k == 0 {
        assert PacketOk(b, k, b.queues[k][j]);
        PacketStaysOk(b, c, k, b.queues[k][j]);
      }
    }
    forall r | 0 <= r < |c.names|
      ensures RoomOk(c, r)
    {
      assert RoomOk(b, r);
    }
  }

  /** The master enters its newest child behind the others, and broadcasts when that was the last. */
  ghost predicate Entering(b: Boot, c: Boot)
  {
    && Shape(b) && b.parentPending
    && c == b.(procs := b.procs[0 := Proc(Known(b.pids, |b.pids|, |b.queues|), 0, 2 * (|b.pids| - 1), [])],
               parentPending := false, queues := c.queues)
    && c.queues == if |b.pids| == |b.queues| then Broadcast(b.queues, 0, Mailed(b.pids)) else b.queues
  }

  lemma ParentAfterIs(b: Boot)
    requires Enabled(b, ParentAfter) && ProcOk(b, 0)
    ensures Entering(b, Next(b, ParentAfter))
  {
    var n, m := |b.queues|, |b.pids| - 1;
    KnownGrows(b.pids, m, n);
    var master := MasterAfter(b.procs[0], b.pids[m]);
    assert master == Proc(Known(b.pids, m + 1, n), 0, 2 * m, []);
    assert |b.pids| == n ==> master.table == b.pids;
    assert (master.table[n - 1] != 0) == (|b.pids| == n);
  }

  lemma EnteringKeepsProcs(b: Boot, c: Boot)
    requires Inv(b) && Entering(b, c)
    ensures Shape(c) && ProcsOk(c)
  {
    forall k | 0 <= k < |c.pids|
      ensures ProcOk(c, k)
    {
      assert ProcOk(b, k);
    }
  }

  lemma QuietBeforeAll(b: Boot)
    requires Shape(b) && PacketsOk(b) && !Complete(b)
    ensures forall k | 1 <= k < |b.queues| :: b.queues[k] == []
  {
    forall k | 1 <= k < |b.queues|
      ensures b.queues[k] == []
    {
      QuietBefore(b, k);
    }
  }

  /** The master's queue is as it was; every other queue holds the mailbox messages, if they have been sent, and
      nothing else. */
  ghost predicate Posted(b: Boot, c: Boot)
  {
    && Shape(b) && Shape(c) && c.pids == b.pids && c.names == b.names && !c.parentPending && |c.queues| == |b.queues|
    && c.queues[0] == b.queues[0]
    && (forall k | 1 <= k < |b.queues| :: c.queues[k] == if |b.pids| == |b.queues| then Mailed(b.pids) else [])
  }

  lemma EnteringPosts(b: Boot, c: Boot)
    requires Shape(b) && PacketsOk(b) && Entering(b, c) && Shape(c)
    ensures Posted(b, c)
  {
    QuietBeforeAll(b);
    assert [] + Mailed(b.pids) == Mailed(b.pids);
  }

  lemma PostedPacketsOk(b: Boot, c: Boot)
    requires Posted(b, c) && PacketsOk(b)
    ensures PacketsOk(c)
  {
    forall k, j | 0 <= k < |c.queues| && 0 <= j < |c.queues[k]|
      ensures PacketOk(c, k, c.queues[k][j])
    {
      if k == 0 {
        assert PacketOk(b, 0, b.queues[0][j]);
        PacketStaysOk(b, c, 0, b.queues[0][j]);
      }
    }
  }

  lemma PostedAllTold(b: Boot, c: Boot)
    requires Posted(b, c)
    ensures AllTold(c)
  {
    forall k: nat, i: nat | Complete(c) && 1 <= k < |c.pids| && 1 <= i < |c.pids| && i != k
      ensures Told(c, k, i)
    {
      assert Mailed(b.pids)[i - 1] == Mail(c.pids[i], i);
    }
  }

  lemma ParentAfterKeepsInv(b: Boot)
    requires Inv(b) && Enabled(b, ParentAfter)
    ensures Inv(Next(b, ParentAfter))
  {
    var c := Next(b, ParentAfter);
    assert ProcOk(b, 0);
    ParentAfterIs(b);
    EnteringKeepsProcs(b, c);
    EnteringPosts(b, c);
    PostedPacketsOk(b, c);
    PostedAllTold(b, c);
    forall r | 0 <= r < |c.names|
      ensures RoomOk(c, r)
    {
      assert RoomOk(b, r);
    }
  }

  function Claims(b: Boot, k: nat): (claims: seq<Packet>)
    requires 1 <= k < |b.pids| && 2 * k - 1 < |b.names|
    ensures |claims| == 2
  {
    [Ask(Claim(b.pids[k], b.names[2 * (k - 1)])), Ask(Claim(b.pids[k], b.names[2 * k - 1]))]
  }

  /** The child takes its own slot, the one after its elder siblings, and its first messages go to the master. */
  ghost predicate Starting(b: Boot, c: Boot, k: nat)
  {
    && Shape(b) && 1 <= k < |b.pids| && 2 * k - 1 < |b.names| && !b.started[k]
    && c == b.(procs := b.procs[k := Proc(Known(b.pids, k + 1, |b.queues|), k, 2 * k - 1, [2 * (k - 1), 2 * k - 1])],
               started := b.started[k := true], queues := b.queues[0 := b.queues[0] + Claims(b, k)])
  }

  lemma ChildAfterIs(b: Boot, k: nat)
    requires Inv(b) && Enabled(b, ChildAfter(k))
    ensures Starting(b, Next(b, ChildAfter(k)), k)
  {
    assert ProcOk(b, k);
    KnownGrows(b.pids, k, |b.queues|);
    assert b.procs[k].table[0] == b.pids[0];
    assert [] + [2 * (k - 1), 2 * k - 1] == [2 * (k - 1), 2 * k - 1];
  }

  lemma StartingKeepsProcs(b: Boot, c: Boot, k: nat)
    requires Shape(b) && ProcsOk(b) && Starting(b, c, k)
    ensures Shape(c) && ProcsOk(c)
  {
    forall q | 0 <= q < |c.pids|
      ensures ProcOk(c, q)
    {
      assert ProcOk(b, q);
    }
  }

  lemma StartingMasterPacket(b: Boot, c: Boot, k: nat, j: nat)
    requires Shape(b) && PacketsOk(b) && Starting(b, c, k) && Shape(c) && j < |b.queues[0] + Claims(b, k)|
    ensures PacketOk(c, 0, (b.queues[0] + Claims(b, k))[j])
  {
    if j < |b.queues[0]| {
      assert PacketOk(b, 0, b.queues[0][j]);
      PacketStaysOk(b, c, 0, b.queues[0][j]);
    } else {
      var r := 2 * (k - 1) + (j - |b.queues[0]|);
      assert Owner(r) == k && (b.queues[0] + Claims(b, k))[j] == Ask(Claim(c.pids[Owner(r)], c.names[r]));
    }
  }

  lemma StartingKeepsPackets(b: Boot, c: Boot, k: nat)
    requires Shape(b) && PacketsOk(b) && Starting(b, c, k) && Shape(c)
    ensures PacketsOk(c)
  {
    forall q, j | 0 <= q < |c.queues| && 0 <= j < |c.queues[q]|
      ensures PacketOk(c, q, c.queues[q][j])
    {
      if q == 0 {
        StartingMasterPacket(b, c, k, j);
      } else {
        assert PacketOk(b, q, b.queues[q][j]);
      }
    }
  }

  lemma StartingKeepsTold(b: Boot, c: Boot, k: nat)
    requires Shape(b) && ProcsOk(b) && AllTold(b) && Starting(b, c, k) && Shape(c)
    ensures AllTold(c)
  {
    forall q: nat, i: nat | Complete(c) && 1 <= q < |c.pids| && 1 <= i < |c.pids| && i != q
      ensures Told(c, q, i)
    {
      assert Told(b, q, i) && ProcOk(b, q);
    }
  }

  lemma ChildAfterKeepsInv(b: Boot, k: nat)
    requires Inv(b) && Enabled(b, ChildAfter(k))
    ensures Inv(Next(b, ChildAfter(k)))
  {
    var c := Next(b, ChildAfter(k));
    ChildAfterIs(b, k);
    StartingKeepsProcs(b, c, k);
    StartingKeepsPackets(b, c, k);
    StartingKeepsTold(b, c, k);
    StartingKeepsRooms(b, c, k);
  }

  lemma StartingKeepsRooms(b: Boot, c: Boot, k: nat)
    requires Shape(b) && RoomsOk(b) && Starting(b, c, k) && Shape(c)
    ensures RoomsOk(c)
  {
    forall r | 0 <= r < |c.names|
      ensures RoomOk(c, r)
    {
      assert RoomOk(b, r);
      if Owner(r) == k {
        assert Ask(Claim(b.pids[k], b.names[r])) == Claims(b, k)[r - 2 * (k - 1)];
      }
    }
  }

  lemma PidKeyInjective(a: seq<byte>, b: seq<byte>)
    requires PidKey(a) == PidKey(b)
    ensures a == b
  {
    assert PidKey(a)[|ROOM_PID_KEY|..] == a && PidKey(b)[|ROOM_PID_KEY|..] == b;
  }

  /** A message is taken out of a queue, and something may be done about one process or the database. */
  ghost predicate Received(b: Boot, c: Boot, k: nat)
  {
    && Shape(b) && Shape(c) && k < |b.queues| && |b.queues[k]| > 0
    && c.pids == b.pids && c.names == b.names && c.parentPending == b.parentPending && c.started == b.started
    && c.queues == b.queues[k := b.queues[k][1..]]
  }

  lemma ReceivedKeepsPackets(b: Boot, c: Boot, k: nat)
    requires Received(b, c, k) && PacketsOk(b)
    ensures PacketsOk(c)
  {
    forall q, j | 0 <= q < |c.queues| && 0 <= j < |c.queues[q]|
      ensures PacketOk(c, q, c.queues[q][j])
    {
      assert c.queues[q][j] == if q == k then b.queues[q][j + 1] else b.queues[q][j];
      assert PacketOk(b, q, if q == k then b.queues[q][j + 1] else b.queues[q][j]);
    }
  }

  /** What waits in the queue is the first message or still waits. */
  lemma StillWaits(b: Boot, c: Boot, k: nat, packet: Packet)
    requires Received(b, c, k) && packet in b.queues[k]
    ensures packet == b.queues[k][0] || packet in c.queues[k]
  {
    assert b.queues[k] == [b.queues[k][0]] + c.queues[k];
  }

  /** The master serves the claim of room r. */
  lemma ClaimKeepsRooms(b: Boot, c: Boot, r: nat)
    requires Received(b, c, 0) && RoomsOk(b) && NoCounts(b.db) && r < |b.names| && Owner(r) < |b.pids|
    requires b.queues[0][0] == Ask(Claim(b.pids[Owner(r)], b.names[r]))
    requires c.db == Apply(b.db, Claim(b.pids[Owner(r)], b.names[r]).request)
    ensures RoomsOk(c) && NoCounts(c.db)
  {
    assert DecimalInt(b.pids[Owner(r)]) == Decimal(b.pids[Owner(r)]);
    KeysDiffer([], [], b.names[r]);
    ServeMeaning(b.db, Claim(b.pids[Owner(r)], b.names[r]).request);
    forall q | 0 <= q < |c.names|
      ensures RoomOk(c, q)
    {
      assert RoomOk(b, q) && RoomOk(b, r);
      if q != r {
        if PidKey(b.names[q]) == PidKey(b.names[r]) {
          PidKeyInjective(b.names[q], b.names[r]);
        }
        if Owner(q) < |b.pids| && Ask(Claim(b.pids[Owner(q)], b.names[q])) in b.queues[0] {
          StillWaits(b, c, 0, Ask(Claim(b.pids[Owner(q)], b.names[q])));
        }
      }
    }
    forall q
      ensures Lookup(c.db, CountKey(q)) == None
    {
      KeysDiffer([], q, b.names[r]);
    }
  }

  lemma ReceiveClaimKeepsInv(b: Boot)
    requires Inv(b) && Enabled(b, Receive(0))
    ensures Inv(Next(b, Receive(0)))
  {
    var c := Next(b, Receive(0));
    assert PacketOk(b, 0, b.queues[0][0]);
    var r: nat :| r < |b.names| && Owner(r) < |b.pids| && b.queues[0][0] == Ask(Claim(b.pids[Owner(r)], b.names[r]));
    ClaimKeepsRooms(b, c, r);
    ReceivedKeepsPackets(b, c, 0);
    MasterMessageKeepsProcs(b, c);
  }

  lemma MasterMessageKeepsProcs(b: Boot, c: Boot)
    requires Received(b, c, 0) && c.procs == b.procs && ProcsOk(b) && AllTold(b)
    ensures ProcsOk(c) && AllTold(c)
  {
    forall k | 0 <= k < |c.pids|
      ensures ProcOk(c, k)
    {
      assert ProcOk(b, k);
    }
    forall k: nat, i: nat | Complete(c) && 1 <= k < |c.pids| && 1 <= i < |c.pids| && i != k
      ensures Told(c, k, i)
    {
      assert Told(b, k, i);
    }
  }

  lemma MailKeepsProcs(b: Boot, k: nat)
    requires Inv(b) && Enabled(b, Receive(k)) && k > 0
    ensures Shape(Next(b, Receive(k))) && ProcsOk(Next(b, Receive(k)))
  {
    var c := Next(b, Receive(k));
    assert PacketOk(b, k, b.queues[k][0]) && ProcOk(b, k);
    forall q | 0 <= q < |c.pids|
      ensures ProcOk(c, q)
    {
      assert ProcOk(b, q);
    }
  }

  lemma ReceiveMailKeepsInv(b: Boot, k: nat)
    requires Inv(b) && Enabled(b, Receive(k)) && k > 0
    ensures Inv(Next(b, Receive(k)))
  {
    var c, head := Next(b, Receive(k)), b.queues[k][0];
    MailKeepsProcs(b, k);
    assert PacketOk(b, k, head) && ProcOk(b, k);
    ReceivedKeepsPackets(b, c, k);
    forall q: nat, i: nat | Complete(c) && 1 <= q < |c.pids| && 1 <= i < |c.pids| && i != q
      ensures Told(c, q, i)
    {
      assert Told(b, q, i);
      if q == k && Mail(b.pids[i], i) in b.queues[k] {
        StillWaits(b, c, k, Mail(b.pids[i], i));
      }
    }
    forall r | 0 <= r < |c.names|
      ensures RoomOk(c, r)
    {
      assert RoomOk(b, r);
    }
  }

  lemma StepKeepsInv(b: Boot, step: Step)
    requires Inv(b) && Enabled(b, step)
    ensures Inv(Next(b, step))
  {
    match step {
      case Fork(pid) => ForkKeepsInv(b, pid);
      case ParentAfter => ParentAfterKeepsInv(b);
      case ChildAfter(k) => ChildAfterKeepsInv(b, k);
      case Receive(k) =>
        if k > 0 {
          ReceiveMailKeepsInv(b, k);
        } else {
          ReceiveClaimKeepsInv(b);
        }
    }
  }

  lemma {:induction false} RunsKeepInv(b: Boot, run: seq<Step>)
    requires Inv(b) && Legal(b, run)
    ensures Inv(Run(b, run))
    decreases run
  {
    if |run| > 0 {
      StepKeepsInv(b, run[0]);
      RunsKeepInv(Next(b, run[0]), run[1..]);
    }
  }

  // ---------------------------------------------------------------- what holds of every run

  /** In every reachable state an entry that is not free is the true process id of its slot,
      and a message sent to it reaches that process, if its socket accepts it, and no other. */
  lemma KnownPidReachesItsProcess(b: Boot, run: seq<Step>, k: nat, i: nat, works: seq<bool>, bytes: seq<byte>,
                                  slot: nat)
    requires Initial(b) && Legal(b, run)
    requires k < |Run(b, run).procs| && i < |Run(b, run).procs[k].table| && Run(b, run).procs[k].table[i] != 0
    requires |works| == |Run(b, run).procs[k].table| && slot < |works|
    ensures var c := Run(b, run);
      && i < |c.pids| && c.procs[k].table[i] == c.pids[i]
      && ForSlot(SendOf(c.procs[k].table, c.procs[k].mine, c.pids[i], works, bytes), slot)
         == if slot == i && works[i] then [bytes] else []
  {
    var c := Run(b, run);
    InitialInv(b);
    RunsKeepInv(b, run);
    assert ProcOk(c, k);
    TruthfulIsUnambiguous(c, c.procs[k].table, i);
    SendReaches(c.procs[k].table, c.procs[k].mine, c.pids[i], works, bytes, i, slot);
  }

  lemma TruthfulIsUnambiguous(b: Boot, table: seq<int>, i: nat)
    requires Shape(b) && Truthful(b, table) && i < |table| && table[i] != 0
    ensures i < |b.pids| && OnlyAt(table, b.pids[i], i)
  {
    forall j | 0 <= j < |table| && j != i
      ensures table[j] != b.pids[i]
    {
      if table[j] != 0 {
        assert b.pids[if j < i then j else i] != b.pids[if j < i then i else j];
      }
    }
  }

  ghost predicate Drained(b: Boot)
  {
    && Shape(b) && Complete(b)
    && (forall k | 0 <= k < |b.pids| :: b.started[k])
    && (forall k | 0 <= k < |b.queues| :: b.queues[k] == [])
  }

  lemma DrainedTable(b: Boot, k: nat)
    requires Inv(b) && Drained(b) && k < |b.pids|
    ensures b.procs[k].table == b.pids && b.procs[k].mine == k
  {
    assert ProcOk(b, k);
    forall i | 0 <= i < |b.pids|
      ensures b.procs[k].table[i] == b.pids[i]
    {
      if k > 0 && i > 0 && i != k {
        assert Told(b, k, i);
      }
    }
  }

  /** When every process has started and nothing is in flight, all process tables are the same, and true. */
  lemma DrainedTablesAgree(b: Boot, run: seq<Step>)
    requires Initial(b) && Legal(b, run) && Drained(Run(b, run))
    ensures var c := Run(b, run);
      forall k | 0 <= k < |c.pids| :: c.procs[k].table == c.pids && c.procs[k].mine == k
  {
    var c := Run(b, run);
    InitialInv(b);
    RunsKeepInv(b, run);
    forall k | 0 <= k < |c.pids|
      ensures c.procs[k].table == c.pids && c.procs[k].mine == k
    {
      DrainedTable(c, k);
    }
  }

  /** Then each of the rooms handed out was created by exactly one worker, the database names that worker,
      and any process that reads the database finds the worker's slot in its own table. */
  lemma EveryRoomLeadsToItsOwner(b: Boot, run: seq<Step>, r: nat)
    requires Initial(b) && Legal(b, run) && Drained(Run(b, run)) && r < 2 * (|Run(b, run).queues| - 1)
    ensures var c := Run(b, run);
      && (forall k | 0 <= k < |c.procs| :: r in c.procs[k].rooms <==> k == Owner(r))
      && Owner(r) < |c.pids| && Lookup(c.db, PidKey(c.names[r])) == Some(Decimal(c.pids[Owner(r)]))
      && (forall k | 0 <= k < |c.procs| ::
            IndexOf(c.procs[k].table, DecimalValue(c.db[PidKey(c.names[r])])) == Owner(r))
  {
    var c := Run(b, run);
    InitialInv(b);
    RunsKeepInv(b, run);
    assert RoomOk(c, r);
    DecimalRoundTrip(c.pids[Owner(r)]);
    forall k | 0 <= k < |c.procs|
      ensures r in c.procs[k].rooms <==> k == Owner(r)
      ensures IndexOf(c.procs[k].table, c.pids[Owner(r)]) == Owner(r)
    {
      OwnerAsSeenBy(c, r, k);
    }
  }

  lemma OwnerAsSeenBy(c: Boot, r: nat, k: nat)
    requires Inv(c) && Drained(c) && r < 2 * (|c.queues| - 1) && k < |c.pids|
    ensures r in c.procs[k].rooms <==> k == Owner(r)
    ensures Owner(r) < |c.pids| && IndexOf(c.procs[k].table, c.pids[Owner(r)]) == Owner(r)
  {
    assert ProcOk(c, k);
    DrainedTable(c, k);
    assert IndexOf(c.pids, c.pids[Owner(r)]) == Owner(r);
  }

  // ---------------------------------------------------------------- every run ends, and ends there

  function Waiting(started: seq<bool>): nat
  {
    if |started| == 0 then 0
    else Waiting(started[..|started| - 1]) + if started[|started| - 1] then 0 else 1
  }

  function Queued(queues: seq<seq<Packet>>): nat
  {
    if |queues| == 0 then 0 else Queued(queues[..|queues| - 1]) + |queues[|queues| - 1]|
  }

  lemma {:induction false} StartedShrinks(started: seq<bool>, k: nat)
    requires k < |started| && !started[k]
    ensures Waiting(started[k := true]) == Waiting(started) - 1
  {
    var last := |started| - 1;
    if k < last {
      StartedShrinks(started[..last], k);
      assert started[k := true][..last] == started[..last][k := true];
    } else {
      assert started[k := true][..last] == started[..last];
    }
  }

  lemma {:induction false} TakenShrinks(queues: seq<seq<Packet>>, k: nat)
    requires k < |queues| && |queues[k]| > 0
    ensures Queued(queues[k := queues[k][1..]]) == Queued(queues) - 1
  {
    var last, after := |queues| - 1, queues[k := queues[k][1..]];
    if k < last {
      TakenShrinks(queues[..last], k);
      assert after[..last] == queues[..last][k := queues[k][1..]];
    } else {
      assert after[..last] == queues[..last];
    }
  }

  /** Lexicographically smaller: forks to come, the parent's callbacks, the children's callbacks, queued messages. */
  ghost predicate Closer(c: Boot, b: Boot)
  {
    var forks, fewer := |b.queues| - |b.pids|, |c.queues| - |c.pids|;
    || 0 <= fewer < forks
    || (fewer == forks && !c.parentPending && b.parentPending)
    || (fewer == forks && c.parentPending == b.parentPending && Waiting(c.started) < Waiting(b.started))
    || (fewer == forks && c.parentPending == b.parentPending && c.started == b.started
        && Queued(c.queues) < Queued(b.queues))
  }

  lemma StepsComeCloser(b: Boot, step: Step)
    requires Inv(b) && Enabled(b, step)
    ensures Closer(Next(b, step), b)
  {
    match step {
      case Fork(_) =>
      case ParentAfter =>
      case ChildAfter(k) => StartedShrinks(b.started, k);
      case Receive(k) => TakenShrinks(b.queues, k);
    }
  }

  /** As long as the start is not finished some step can be taken, given a fresh process id for the next fork. */
  lemma UnfinishedCanStep(b: Boot, pid: int) returns (step: Step)
    requires Inv(b) && !Drained(b) && pid > 0 && pid !in b.pids
    ensures Enabled(b, step)
  {
    if b.parentPending {
      step := ParentAfter;
    } else if |b.pids| < |b.queues| {
      step := Fork(pid);
    } else if k: nat :| k < |b.pids| && !b.started[k] {
      assert ProcOk(b, k);
      assert b.procs[k].table[0] == b.pids[0];
      step := ChildAfter(k);
    } else {
      var k: nat :| k < |b.queues| && b.queues[k] != [];
      assert PacketOk(b, k, b.queues[k][0]);
      step := Receive(k);
    }
  }

  // ---------------------------------------------------------------- and the chat system starts from there

  ghost function RoomsOf(b: Boot, k: nat): map<seq<byte>, seq<nat>>
    requires k < |b.procs| && (forall r | r in b.procs[k].rooms :: r < |b.names|)
  {
    map r | r in b.procs[k].rooms :: b.names[r] := []
  }

  ghost function Workers(b: Boot): map<int, Worker>
    requires Shape(b) && (forall k, r | 0 <= k < |b.procs| && r in b.procs[k].rooms :: r < |b.names|)
  {
    map k | 1 <= k < |b.pids| :: b.pids[k] := Worker(b.pids[k], map[], RoomsOf(b, k))
  }

  /** The chat system as the start leaves it. */
  ghost predicate StartedAs(b: Boot, s: ChatSystem.System)
  {
    && Shape(b) && (forall k, r | 0 <= k < |b.procs| && r in b.procs[k].rooms :: r < |b.names|)
    && s == ChatSystem.System(b.db, [], [], [], [], Workers(b))
  }

  lemma RoomsInRange(b: Boot, k: nat, r: nat)
    requires Inv(b) && k < |b.procs| && r in b.procs[k].rooms
    ensures r < |b.names| && k == Owner(r) && k > 0
  {
    assert ProcOk(b, k);
  }

  /** A finished start satisfies what the runs of the chat system assume, so membership, room counters
      and the rest hold in everything that follows. */
  lemma StartLeadsToChat(b: Boot, run: seq<Step>, s: ChatSystem.System, chat: seq<ChatSystem.Step>)
    requires Initial(b) && Legal(b, run) && Drained(Run(b, run)) && StartedAs(Run(b, run), s)
    requires ChatSystem.Legal(s, chat)
    ensures ChatSystem.Initial(s) && ChatSystem.Inv(ChatSystem.Run(s, chat))
  {
    var c := Run(b, run);
    InitialInv(b);
    RunsKeepInv(b, run);
    forall p, q, name | p in s.workers && q in s.workers && p != q && name in s.workers[p].rooms
      ensures name !in s.workers[q].rooms
    {
      if name in s.workers[q].rooms {
        OneWorkerPerRoom(c, s, p, q, name);
      }
    }
    forall p, name | p in s.workers && name in s.workers[p].rooms
      ensures name != [] && s.workers[p].rooms[name] == []
    {
    }
    ChatSystem.InitialInv(s);
    ChatSystem.RunsKeepInv(s, chat);
  }

  lemma OneWorkerPerRoom(b: Boot, s: ChatSystem.System, p: int, q: int, name: seq<byte>)
    requires Inv(b) && StartedAs(b, s) && p in s.workers && q in s.workers
    requires name in s.workers[p].rooms && name in s.workers[q].rooms
    ensures p == q
  {
    var k: nat :| 1 <= k < |b.pids| && b.pids[k] == p && name in RoomsOf(b, k);
    var m: nat :| 1 <= m < |b.pids| && b.pids[m] == q && name in RoomsOf(b, m);
    var r: nat :| r in b.procs[k].rooms && b.names[r] == name;
    var t: nat :| t in b.procs[m].rooms && b.names[t] == name;
    RoomsInRange(b, k, r);
    RoomsInRange(b, m, t);
    assert r == t;
  }
}
