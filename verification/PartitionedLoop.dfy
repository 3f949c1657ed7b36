/** The partitioned event loop (base/src/event_loop_partitioned_openmp_poll.c). */
module PartitionedLoop {
  import opened Sequences
  import opened PollEntries
  import opened EventLoop

  const POLL_PARTITION := 8

  /** The tables of the partitions and the total that is kept beside them. */
  datatype State = State(tables: seq<seq<Entry>>, grand: int)

  function TotalEntries(tables: seq<seq<Entry>>): nat
  {
    if |tables| == 0 then 0 else TotalEntries(tables[..|tables| - 1]) + |tables[|tables| - 1]|
  }

  function RegisterIn(s: State, fd: nat, cb: Callback, events: int): State
    requires |s.tables| == POLL_PARTITION
  {
    State(s.tables[fd % POLL_PARTITION := Registered(s.tables[fd % POLL_PARTITION], fd, cb, events)], s.grand + 1)
  }

  function UnregisterIn(s: State, fd: nat): State
    requires |s.tables| == POLL_PARTITION
  {
    s.(tables := s.tables[fd % POLL_PARTITION := Unregistered(s.tables[fd % POLL_PARTITION], fd)])
  }

  function CompactIn(s: State, p: nat): State
    requires p < |s.tables|
  {
    s.(tables := s.tables[p := Compacted(s.tables[p])])
  }

  function RecountIn(s: State): State { s.(grand := TotalEntries(s.tables)) }

  /** What poll() finds on each descriptor of a table. */
  function Seen(es: seq<Entry>, happened: int -> int): (revents: seq<int>)
    ensures |revents| == |es|
  {
    seq(|es|, i requires 0 <= i < |es| => happened(es[i].poll.fd))
  }

  function PollIn(s: State, p: nat, happened: int -> int): State
    requires p < |s.tables|
  {
    s.(tables := s.tables[p := Reported(s.tables[p], Seen(s.tables[p], happened))])
  }

  // ---------------------------------------------------------------- what callbacks do to all partitions

  /** Descriptors are not negative. */
  predicate NaturalOps(ops: seq<Op>) { forall k | 0 <= k < |ops| :: ops[k].fd >= 0 }

  predicate NaturalScript(script: seq<seq<Op>>) { forall k | 0 <= k < |script| :: NaturalOps(script[k]) }

  function RunOpIn(s: State, op: Op): (after: State)
    requires |s.tables| == POLL_PARTITION && op.fd >= 0
    ensures |after.tables| == POLL_PARTITION
  {
    match op
    case Register(fd, cb, events) => RegisterIn(s, fd, cb, events)
    case Unregister(fd) => UnregisterIn(s, fd)
  }

  function RunOpsIn(s: State, ops: seq<Op>): (after: State)
    requires |s.tables| == POLL_PARTITION && NaturalOps(ops)
    ensures |after.tables| == POLL_PARTITION
  {
    if |ops| == 0 then s else RunOpIn(RunOpsIn(s, ops[..|ops| - 1]), ops[|ops| - 1])
  }

  lemma NaturalAt(script: seq<seq<Op>>, k: nat)
    requires NaturalScript(script)
    ensures NaturalOps(ScriptAt(script, k))
  {
  }

  /** All partitions after the first k callbacks. */
  function StateAfter(s: State, script: seq<seq<Op>>, k: nat): (after: State)
    requires |s.tables| == POLL_PARTITION && NaturalScript(script)
    ensures |after.tables| == POLL_PARTITION
  {
    if k == 0 then s else NaturalAt(script, k - 1); RunOpsIn(StateAfter(s, script, k - 1), ScriptAt(script, k - 1))
  }

  /** The operations that concern partition q. */
  function Mine(ops: seq<Op>, q: nat): seq<Op>
  {
    if |ops| == 0 then []
    else Mine(ops[..|ops| - 1], q) + if ops[|ops| - 1].fd % POLL_PARTITION == q then [ops[|ops| - 1]] else []
  }

  function MineScript(script: seq<seq<Op>>, q: nat): (mine: seq<seq<Op>>)
    ensures |mine| == |script|
    ensures forall k | 0 <= k < |script| :: mine[k] == Mine(script[k], q)
  {
    seq(|script|, k requires 0 <= k < |script| => Mine(script[k], q))
  }

  lemma RunOpsSnoc(es: seq<Entry>, ops: seq<Op>, op: Op)
    ensures RunOps(es, ops + [op]) == RunOp(RunOps(es, ops), op)
  {
    assert (ops + [op])[..|ops|] == ops;
  }

  /** Each partition sees the operations on its own descriptors and no others. */
  lemma {:induction false} OpsReachTheirPartition(s: State, ops: seq<Op>, q: nat)
    requires |s.tables| == POLL_PARTITION && NaturalOps(ops) && q < POLL_PARTITION
    ensures RunOpsIn(s, ops).tables[q] == RunOps(s.tables[q], Mine(ops, q))
  {
    if |ops| > 0 {
      var front, last := ops[..|ops| - 1], ops[|ops| - 1];
      OpsReachTheirPartition(s, front, q);
      if last.fd % POLL_PARTITION == q {
        RunOpsSnoc(s.tables[q], Mine(front, q), last);
      } else {
        assert Mine(ops, q) == Mine(front, q);
      }
    }
  }

  lemma {:induction false} CallbacksReachTheirPartition(s: State, script: seq<seq<Op>>, k: nat, q: nat)
    requires |s.tables| == POLL_PARTITION && NaturalScript(script) && q < POLL_PARTITION
    ensures StateAfter(s, script, k).tables[q] == TableAfter(s.tables[q], MineScript(script, q), k)
  {
    if k > 0 {
      CallbacksReachTheirPartition(s, script, k - 1, q);
      NaturalAt(script, k - 1);
      OpsReachTheirPartition(StateAfter(s, script, k - 1), ScriptAt(script, k - 1), q);
      assert ScriptAt(MineScript(script, q), k - 1) == Mine(ScriptAt(script, k - 1), q);
    }
  }

  // ---------------------------------------------------------------- room in every partition

  /** The assertion of event_loop_register_fd(). */
  predicate PassesCheck(s: State, cap: nat) { s.grand < POLL_PARTITION * cap }

  /** What becomes of a registration: the assertion fails, the entry is kept in its partition, or it lands behind it. */
  datatype Registering = AssertionFails | Kept | Overruns

  function RegisteringIn(s: State, fd: nat, cap: nat): Registering
    requires |s.tables| == POLL_PARTITION
  {
    if !PassesCheck(s, cap) then AssertionFails
    else if |s.tables[fd % POLL_PARTITION]| >= cap then Overruns
    else Kept
  }

  lemma {:induction false} SizeAfterOps(es: seq<Entry>, ops: seq<Op>)
    ensures |RunOps(es, ops)| == |es| + Registers(ops)
  {
    if |ops| > 0 {
      SizeAfterOps(es, ops[..|ops| - 1]);
    }
  }

  lemma {:induction false} MineGrows(ops: seq<Op>, k: nat, q: nat)
    requires k <= |ops|
    ensures Registers(Mine(ops[..k], q)) <= Registers(Mine(ops, q))
    decreases |ops| - k
  {
    if k < |ops| {
      MineGrows(ops, k + 1, q);
      assert ops[..k + 1][..k] == ops[..k];
      var op := ops[k];
      if op.fd % POLL_PARTITION == q {
        assert (Mine(ops[..k], q) + [op])[..|Mine(ops[..k], q)|] == Mine(ops[..k], q);
      } else {
        assert Mine(ops[..k + 1], q) == Mine(ops[..k], q);
      }
    } else {
      assert ops[..k] == ops;
    }
  }

  lemma {:induction false} GrandAfterOps(s: State, ops: seq<Op>)
    requires |s.tables| == POLL_PARTITION && NaturalOps(ops)
    ensures RunOpsIn(s, ops).grand == s.grand + Registers(ops)
  {
    if |ops| > 0 {
      GrandAfterOps(s, ops[..|ops| - 1]);
    }
  }

  /** The total and every partition have room for what these operations register. */
  ghost predicate RoomForOps(s: State, ops: seq<Op>, cap: nat)
    requires |s.tables| == POLL_PARTITION
  {
    && s.grand + Registers(ops) <= POLL_PARTITION * cap
    && (forall q | 0 <= q < POLL_PARTITION :: |s.tables[q]| + Registers(Mine(ops, q)) <= cap)
  }

  /** The total and every partition have room for what the callbacks from the k-th on register. */
  ghost predicate RoomFor(s: State, script: seq<seq<Op>>, k: nat, cap: nat)
    requires |s.tables| == POLL_PARTITION
  {
    && s.grand + RegistersFrom(script, k) <= POLL_PARTITION * cap
    && (forall q | 0 <= q < POLL_PARTITION :: |s.tables[q]| + RegistersFrom(MineScript(script, q), k) <= cap)
  }

  lemma RoomAtOp(s: State, ops: seq<Op>, k: nat, cap: nat)
    requires |s.tables| == POLL_PARTITION && NaturalOps(ops) && RoomForOps(s, ops, cap) && k < |ops| && ops[k].Register?
    ensures NaturalOps(ops[..k])
    ensures var q := ops[k].fd % POLL_PARTITION; |RunOpsIn(s, ops[..k]).tables[q]| < cap
    ensures RunOpsIn(s, ops[..k]).grand < POLL_PARTITION * cap
  {
    GrandAfterOps(s, ops[..k]);
    RegistersGrow(ops, k + 1);
    var q := ops[k].fd % POLL_PARTITION;
    OpsReachTheirPartition(s, ops[..k], q);
    SizeAfterOps(s.tables[q], Mine(ops[..k], q));
    MineGrows(ops, k + 1, q);
    assert ops[..k + 1][..k] == ops[..k];
    assert (Mine(ops[..k], q) + [ops[k]])[..|Mine(ops[..k], q)|] == Mine(ops[..k], q);
    assert |s.tables[q]| + Registers(Mine(ops, q)) <= cap;
  }

  lemma RoomForCallback(s: State, script: seq<seq<Op>>, k: nat, cap: nat)
    requires |s.tables| == POLL_PARTITION && NaturalScript(script) && RoomFor(s, script, k, cap)
    ensures NaturalOps(ScriptAt(script, k)) && RoomForOps(s, ScriptAt(script, k), cap)
    ensures RoomFor(RunOpsIn(s, ScriptAt(script, k)), script, k + 1, cap)
  {
    var ops := ScriptAt(script, k);
    NaturalAt(script, k);
    GrandAfterOps(s, ops);
    forall q | 0 <= q < POLL_PARTITION
      ensures |s.tables[q]| + Registers(Mine(ops, q)) <= cap
      ensures |RunOpsIn(s, ops).tables[q]| + RegistersFrom(MineScript(script, q), k + 1) <= cap
    {
      assert |s.tables[q]| + RegistersFrom(MineScript(script, q), k) <= cap;
      OpsReachTheirPartition(s, ops, q);
      SizeAfterOps(s.tables[q], Mine(ops, q));
      assert k >= |script| ==> Mine(ops, q) == [];
    }
  }

  /** The next call of a dispatch on partition p, which the callbacks before it may have changed. */
  lemma CallIsDue(s: State, now: State, p: nat, i: nat, script: seq<seq<Op>>, calls: seq<Call>, c: Call)
    requires |s.tables| == POLL_PARTITION && NaturalScript(script) && now == StateAfter(s, script, |calls|)
    requires p < POLL_PARTITION && SlotsKept(s.tables[p], now.tables[p])
    requires i < |now.tables[p]| && Ready(now.tables[p][i])
    requires DispatchedBelow(s.tables[p], MineScript(script, p), calls, i)
    requires c == Call(i, now.tables[p][i].poll.fd, now.tables[p][i].poll.revents, now.tables[p][i].cb)
    ensures DispatchedBelow(s.tables[p], MineScript(script, p), calls + [c], i + 1)
  {
    CallbacksReachTheirPartition(s, script, |calls|, p);
    assert CallFits(s.tables[p], MineScript(script, p), |calls|, c);
    CallExtends(s.tables[p], MineScript(script, p), calls, i, c);
  }

  // ---------------------------------------------------------------- the partitions in place

  class PartitionedTable {
    const parts: seq<PollTable>
    /** MAX_POLL_FD_PER_PARTITION */
    const perPart: nat
    var grand: int
    /** What the partitions hold. */
    ghost var tables: seq<seq<Entry>>

    /** The partitions share nothing. */
    ghost predicate Apart()
    {
      && |parts| == POLL_PARTITION
      && (forall p | 0 <= p < POLL_PARTITION :: parts[p].fds.Length == perPart)
      && (forall p, q | 0 <= p < q < POLL_PARTITION ::
            parts[p] != parts[q] && parts[p].fds != parts[q].fds && parts[p].cbs != parts[q].cbs)
    }

    ghost function Arrays(): set<object>
    {
      (set p | 0 <= p < |parts| :: parts[p].fds) + (set p | 0 <= p < |parts| :: parts[p].cbs)
    }

    ghost predicate Valid()
      reads this`tables, parts, Arrays()
    {
      && Apart() && |tables| == POLL_PARTITION
      && (forall p | 0 <= p < POLL_PARTITION :: parts[p].Valid() && parts[p].Entries() == tables[p])
    }

    ghost function Value(): State
      reads this
    {
      State(tables, grand)
    }

    /** Only the total is checked, by an assertion; whether the descriptor's own partition has room is not. If it has
        none, the code writes behind its arrays, and what happens then is not part of this model. */
    method RegisterFd(fd: nat, cb: Callback, requestedEvents: int) returns (outcome: Registering)
      requires Valid()
      modifies this`grand, this`tables
      modifies parts[fd % POLL_PARTITION], parts[fd % POLL_PARTITION].fds, parts[fd % POLL_PARTITION].cbs
      ensures Valid() && outcome == RegisteringIn(old(Value()), fd, perPart)
      ensures Value() == if outcome == Kept then RegisterIn(old(Value()), fd, cb, requestedEvents) else old(Value())
    {
      if grand >= POLL_PARTITION * perPart {
        return AssertionFails;
      }
      var part := fd % POLL_PARTITION;
      assert parts[part].Entries() == tables[part];
      if parts[part].nfds == perPart {
        return Overruns;
      }
      parts[part].RegisterFd(fd, cb, requestedEvents);
      grand := grand + 1;
      tables := tables[part := Registered(tables[part], fd, cb, requestedEvents)];
      return Kept;
    }

    method UnregisterFd(fd: nat)
      requires Valid()
      modifies this`tables, parts[fd % POLL_PARTITION].fds
      ensures Valid() && Value() == UnregisterIn(old(Value()), fd)
    {
      var part := fd % POLL_PARTITION;
      parts[part].UnregisterFd(fd);
      tables := tables[part := Unregistered(tables[part], fd)];
    }

    method CompactPart(p: nat)
      requires Valid() && p < POLL_PARTITION
      modifies this`tables, parts[p], parts[p].fds, parts[p].cbs
      ensures Valid() && Value() == CompactIn(old(Value()), p)
    {
      parts[p].BatchUnregister();
      tables := tables[p := Compacted(tables[p])];
    }

    /** The total is counted afresh at the end of a step. */
    method Recount()
      requires Valid()
      modifies this`grand
      ensures Valid() && Value() == RecountIn(old(Value()))
    {
      grand := 0;
      var part := 0;
      assert tables[..0] == [];
      while part < POLL_PARTITION
        invariant 0 <= part <= POLL_PARTITION && Valid()
        invariant grand == TotalEntries(tables[..part])
      {
        TakeSnoc(tables, part);
        assert parts[part].Entries() == tables[part];
        grand := grand + parts[part].nfds;
        part := part + 1;
      }
      assert tables[..part] == tables;
    }

    // -------------------------------------------------------------- a step

    /** One callback registers and unregisters descriptors of any partition. */
    method RunCallback(ops: seq<Op>)
      requires Valid() && NaturalOps(ops) && RoomForOps(Value(), ops, perPart)
      modifies this`grand, this`tables, parts, Arrays()
      ensures Valid() && Value() == RunOpsIn(old(Value()), ops)
    {
      var k := 0;
      while k < |ops|
        invariant 0 <= k <= |ops| && Valid() && NaturalOps(ops[..k])
        invariant Value() == RunOpsIn(old(Value()), ops[..k])
      {
        assert ops[..k + 1][..k] == ops[..k];
        match ops[k] {
          case Register(fd, cb, events) =>
            RoomAtOp(old(Value()), ops, k, perPart);
            var kept := RegisterFd(fd, cb, events);
          case Unregister(fd) => UnregisterFd(fd);
        }
        k := k + 1;
      }
      assert ops[..k] == ops;
    }

    /** One callback of partition p and everything it does. */
    method CallSlot(p: nat, i: nat, script: seq<seq<Op>>, calls: seq<Call>, ghost s: State) returns (more: seq<Call>)
      requires Valid() && p < POLL_PARTITION && i < |tables[p]| && Ready(tables[p][i])
      requires |s.tables| == POLL_PARTITION && NaturalScript(script) && Value() == StateAfter(s, script, |calls|)
      requires RoomFor(Value(), script, |calls|, perPart) && SlotsKept(s.tables[p], tables[p])
      requires DispatchedBelow(s.tables[p], MineScript(script, p), calls, i)
      modifies this`grand, this`tables, parts, Arrays()
      ensures Valid() && Value() == StateAfter(s, script, |more|) && |more| == |calls| + 1
      ensures RoomFor(Value(), script, |more|, perPart)
      ensures DispatchedBelow(s.tables[p], MineScript(script, p), more, i + 1)
    {
      assert parts[p].Entries() == tables[p];
      var c := Call(i, parts[p].fds[i].fd, parts[p].fds[i].revents, parts[p].cbs[i]);
      CallIsDue(s, Value(), p, i, script, calls, c);
      RoomForCallback(Value(), script, |calls|, perPart);
      RunCallback(ScriptAt(script, |calls|));
      more := calls + [c];
    }

    /** Slots of partition p below i have had their turn since state s; left bounds what is still to be found. */
    ghost predicate Underway(s: State, p: nat, i: nat, left: nat, script: seq<seq<Op>>, calls: seq<Call>)
      requires Apart()
      reads this
    {
      && |s.tables| == |tables| == POLL_PARTITION && p < POLL_PARTITION && NaturalScript(script)
      && Value() == StateAfter(s, script, |calls|) && RoomFor(Value(), script, |calls|, perPart)
      && SlotsKept(s.tables[p], tables[p])
      && DispatchedBelow(s.tables[p], MineScript(script, p), calls, i)
      && (i < |s.tables[p]| ==> left >= CountReported(s.tables[p][i..]))
    }

    /** One pass of the loop of event_loop_step_helper(). */
    method VisitSlot(p: nat, i: nat, left: nat, script: seq<seq<Op>>, calls: seq<Call>, ghost s: State)
      returns (more: seq<Call>, stillLeft: nat)
      requires Valid() && Underway(s, p, i, left, script, calls) && i < |tables[p]| && left > 0
      modifies this`grand, this`tables, parts, Arrays()
      ensures Valid() && Underway(s, p, i + 1, stillLeft, script, more)
      ensures i >= |s.tables[p]| ==> tables == old(tables)
      ensures parts[p].nfds == |tables[p]|
    {
      assert parts[p].Entries() == tables[p];
      ghost var es, mine := s.tables[p], MineScript(script, p);
      CallbacksReachTheirPartition(s, script, |calls|, p);
      more, stillLeft := calls, left;
      if parts[p].fds[i].events == 0 || parts[p].fds[i].revents == 0 {
        SkipExtends(es, mine, calls, i);
      } else {
        stillLeft := left - 1;
        more := CallSlot(p, i, script, calls, s);
        TableGrows(es, mine, |calls|);
        CallbacksReachTheirPartition(s, script, |more|, p);
      }
      if i < |es| {
        DropHead(es, i);
      }
      assert parts[p].Entries() == tables[p];
    }

    /** event_loop_step_helper() on one partition. */
    method DispatchPart(p: nat, count: nat, script: seq<seq<Op>>) returns (calls: seq<Call>)
      requires Valid() && p < POLL_PARTITION && count == CountReported(tables[p])
      requires NaturalScript(script) && RoomFor(Value(), script, 0, perPart)
      modifies this`grand, this`tables, parts, Arrays()
      ensures Valid() && Value() == StateAfter(old(Value()), script, |calls|)
      ensures Dispatched(old(tables)[p], MineScript(script, p), calls)
    {
      ghost var s, es := Value(), tables[p];
      var i, left := 0, count;
      calls := [];
      assert es[0..] == es;
      assert parts[p].Entries() == tables[p];
      while i < parts[p].nfds && left > 0
        invariant Valid() && 0 <= i && Underway(s, p, i, left, script, calls)
        invariant parts[p].nfds == |tables[p]|
        decreases i < |es|, if i < |es| then |es| - i else |tables[p]| - i
      {
        calls, left := VisitSlot(p, i, left, script, calls, s);
        i := i + 1;
      }
      DispatchEnds(es, MineScript(script, p), calls, i, left, |tables[p]|);
    }

    method PollPart(p: nat, happened: int -> int) returns (count: nat)
      requires Valid() && p < POLL_PARTITION
      modifies this`tables, parts[p].fds
      ensures Valid() && Value() == PollIn(old(Value()), p, happened) && count == CountReported(tables[p])
    {
      assert parts[p].Entries() == tables[p];
      var revents := seq(parts[p].nfds,
        i requires 0 <= i < parts[p].nfds && parts[p].Valid() reads parts[p], parts[p].fds =>
        happened(parts[p].fds[i].fd));
      assert revents == Seen(tables[p], happened);
      count := parts[p].Poll(revents);
      tables := tables[p := Reported(tables[p], revents)];
    }

    /** The body of the loop of event_loop_step(). */
    method TurnPart(p: nat, happened: int -> int, script: seq<seq<Op>>) returns (calls: seq<Call>)
      requires Valid() && p < POLL_PARTITION && NaturalScript(script) && RoomFor(Value(), script, 0, perPart)
      modifies this`grand, this`tables, parts, Arrays()
      ensures Valid() && PartTurn(old(Value()), Value(), p, happened, script, calls)
    {
      calls := [];
      assert parts[p].Entries() == tables[p];
      if parts[p].nfds == 0 {
        return;
      }
      var count := PollPart(p, happened);
      if count == 0 {
        assert tables[p][0..] == tables[p];
        NothingReported(tables[p], 0);
        return;
      }
      calls := DispatchPart(p, count, script);
      CompactPart(p);
    }

    /** event_loop_step(): the partitions one after the other. happened(p) is what poll() finds when partition p has
        its turn, scripts[p] what the callbacks of that turn do; the states in between are for the reader. */
    method Step(happened: nat -> int -> int, scripts: seq<seq<seq<Op>>>)
      returns (calls: seq<seq<Call>>, ghost states: seq<State>)
      requires Valid() && grand == TotalEntries(tables)
      requires |scripts| == POLL_PARTITION && (forall p | 0 <= p < POLL_PARTITION :: NaturalScript(scripts[p]))
      requires RoomForAll(Value(), scripts, 0, perPart)
      modifies this`grand, this`tables, parts, Arrays()
      ensures Valid() && |states| == POLL_PARTITION + 1 && |calls| == POLL_PARTITION
      ensures states[0] == old(Value()) && Value() == RecountIn(states[POLL_PARTITION])
      ensures TurnsOk(states, calls, happened, scripts)
    {
      if grand == 0 {
        NoEntries(tables);
        ghost var s := Value();
        calls := seq(POLL_PARTITION, _ => []);
        states := seq(POLL_PARTITION + 1, _ => s);
        forall p | 0 <= p < POLL_PARTITION
          ensures PartTurn(s, s, p, happened(p), scripts[p], [])
        {
          QuietTurn(s, p, happened(p), scripts[p]);
        }
        return;
      }
      calls, states := TurnAll(happened, scripts);
      Recount();
    }

    method TurnAll(happened: nat -> int -> int, scripts: seq<seq<seq<Op>>>)
      returns (calls: seq<seq<Call>>, ghost states: seq<State>)
      requires Valid()
      requires |scripts| == POLL_PARTITION && (forall p | 0 <= p < POLL_PARTITION :: NaturalScript(scripts[p]))
      requires RoomForAll(Value(), scripts, 0, perPart)
      modifies this`grand, this`tables, parts, Arrays()
      ensures Valid() && |states| == POLL_PARTITION + 1 && |calls| == POLL_PARTITION
      ensures states[0] == old(Value()) && Value() == states[POLL_PARTITION]
      ensures TurnsOk(states, calls, happened, scripts)
    {
      states, calls := [Value()], [];
      var part := 0;
      while part < POLL_PARTITION
        invariant 0 <= part <= POLL_PARTITION && |calls| == part && |states| == part + 1
        invariant Valid() && states[part] == Value() && states[0] == old(Value())
        invariant RoomForAll(Value(), scripts, part, perPart)
        invariant TurnsOk(states, calls, happened, scripts)
      {
        RoomForTurn(Value(), scripts, part, perPart);
        ghost var before := Value();
        var c := TurnPart(part, happened(part), scripts[part]);
        RoomAfterTurn(before, Value(), scripts, part, happened(part), c, perPart);
        OneMoreTurn(states, calls, happened, scripts, Value(), c);
        calls := calls + [c];
        states := states + [Value()];
        part := part + 1;
      }
    }
  }

  /** What one turn of partition p makes of the state: nothing if the partition is empty, else poll;
      and when something was reported, the calls that are due, all they do to any partition, and the compaction. */
  ghost predicate PartTurn(s: State, t: State, p: nat, happened: int -> int, script: seq<seq<Op>>, calls: seq<Call>)
  {
    && |s.tables| == POLL_PARTITION && p < POLL_PARTITION && NaturalScript(script)
    && var polled := PollIn(s, p, happened);
       && Dispatched(polled.tables[p], MineScript(script, p), calls)
       && t == if CountReported(polled.tables[p]) == 0 then polled
               else CompactIn(StateAfter(polled, script, |calls|), p)
  }

  /** Each partition has had its turn on the state the one before it left. */
  ghost predicate TurnsOk(states: seq<State>, calls: seq<seq<Call>>, happened: nat -> int -> int,
                          scripts: seq<seq<seq<Op>>>)
  {
    && |states| == |calls| + 1 && |calls| <= |scripts|
    && forall p | 0 <= p < |calls| :: PartTurn(states[p], states[p + 1], p, happened(p), scripts[p], calls[p])
  }

  lemma OneMoreTurn(states: seq<State>, calls: seq<seq<Call>>, happened: nat -> int -> int, scripts: seq<seq<seq<Op>>>,
                    next: State, c: seq<Call>)
    requires TurnsOk(states, calls, happened, scripts) && |calls| < |scripts|
    requires PartTurn(states[|calls|], next, |calls|, happened(|calls|), scripts[|calls|], c)
    ensures TurnsOk(states + [next], calls + [c], happened, scripts)
  {
  }

  lemma QuietTurn(s: State, p: nat, happened: int -> int, script: seq<seq<Op>>)
    requires |s.tables| == POLL_PARTITION && p < POLL_PARTITION && NaturalScript(script) && s.tables[p] == []
    ensures PartTurn(s, s, p, happened, script, [])
  {
    assert s.tables[p := Reported([], [])] == s.tables;
  }

  lemma {:induction false} MineOnlyRegisters(ops: seq<Op>, q: nat)
    requires forall j | 0 <= j < |ops| :: ops[j].Register?
    ensures forall j | 0 <= j < |Mine(ops, q)| :: Mine(ops, q)[j].Register?
  {
    if |ops| > 0 {
      MineOnlyRegisters(ops[..|ops| - 1], q);
    }
  }

  /** In a turn whose callbacks unregister nothing, all reported entries of the partition are called, each once. */
  lemma QuietTurnCallsAll(s: State, t: State, p: nat, happened: int -> int, script: seq<seq<Op>>, calls: seq<Call>)
    requires PartTurn(s, t, p, happened, script, calls) && OnlyRegisters(script)
    ensures CallsAllReported(s.tables[p], Seen(s.tables[p], happened), calls)
    ensures forall i | 0 <= i < |s.tables[p]| ::
      CallsSlot(calls, i) <==> s.tables[p][i].poll.events != 0 && happened(s.tables[p][i].poll.fd) != 0
  {
    forall k, j | 0 <= k < |script| && 0 <= j < |MineScript(script, p)[k]|
      ensures MineScript(script, p)[k][j].Register?
    {
      MineOnlyRegisters(script[k], p);
    }
    QuietDispatchCallsAll(s.tables[p], Seen(s.tables[p], happened), MineScript(script, p), calls);
  }

  function RegistersOf(scripts: seq<seq<seq<Op>>>, p: nat, q: nat): nat
    decreases |scripts| - p
  {
    if p >= |scripts| then 0 else RegistersFrom(MineScript(scripts[p], q), 0) + RegistersOf(scripts, p + 1, q)
  }

  function RegistersOfAll(scripts: seq<seq<seq<Op>>>, p: nat): nat
    decreases |scripts| - p
  {
    if p >= |scripts| then 0 else RegistersFrom(scripts[p], 0) + RegistersOfAll(scripts, p + 1)
  }

  /** The total and every partition have room for what the callbacks of the partitions from p on register. */
  ghost predicate RoomForAll(s: State, scripts: seq<seq<seq<Op>>>, p: nat, cap: nat)
    requires |s.tables| == POLL_PARTITION
  {
    && s.grand + RegistersOfAll(scripts, p) <= POLL_PARTITION * cap
    && (forall q | 0 <= q < POLL_PARTITION :: |s.tables[q]| + RegistersOf(scripts, p, q) <= cap)
  }

  lemma RoomForTurn(s: State, scripts: seq<seq<seq<Op>>>, p: nat, cap: nat)
    requires |s.tables| == POLL_PARTITION && p < |scripts| && RoomForAll(s, scripts, p, cap)
    ensures RoomFor(s, scripts[p], 0, cap)
  {
    forall q | 0 <= q < POLL_PARTITION
      ensures |s.tables[q]| + RegistersFrom(MineScript(scripts[p], q), 0) <= cap
    {
      assert |s.tables[q]| + RegistersOf(scripts, p, q) <= cap;
    }
  }

  lemma {:induction false} SizeAfterCallbacks(es: seq<Entry>, script: seq<seq<Op>>, k: nat)
    ensures |TableAfter(es, script, k)| + RegistersFrom(script, k) == |es| + RegistersFrom(script, 0)
  {
    if k > 0 {
      SizeAfterCallbacks(es, script, k - 1);
      SizeAfterOps(TableAfter(es, script, k - 1), ScriptAt(script, k - 1));
    }
  }

  lemma {:induction false} GrandAfterCallbacks(s: State, script: seq<seq<Op>>, k: nat)
    requires |s.tables| == POLL_PARTITION && NaturalScript(script)
    ensures StateAfter(s, script, k).grand + RegistersFrom(script, k) == s.grand + RegistersFrom(script, 0)
  {
    if k > 0 {
      GrandAfterCallbacks(s, script, k - 1);
      NaturalAt(script, k - 1);
      GrandAfterOps(StateAfter(s, script, k - 1), ScriptAt(script, k - 1));
    }
  }

  lemma RoomAfterTurn(s: State, t: State, scripts: seq<seq<seq<Op>>>, p: nat, happened: int -> int, calls: seq<Call>,
                      cap: nat)
    requires p < |scripts| && PartTurn(s, t, p, happened, scripts[p], calls)
    requires RoomForAll(s, scripts, p, cap)
    ensures |t.tables| == POLL_PARTITION && RoomForAll(t, scripts, p + 1, cap)
  {
    var polled := PollIn(s, p, happened);
    GrandAfterCallbacks(polled, scripts[p], |calls|);
    forall q | 0 <= q < POLL_PARTITION
      ensures |t.tables[q]| + RegistersOf(scripts, p + 1, q) <= cap
    {
      assert |s.tables[q]| + RegistersOf(scripts, p, q) <= cap;
      CallbacksReachTheirPartition(polled, scripts[p], |calls|, q);
      SizeAfterCallbacks(polled.tables[q], MineScript(scripts[p], q), |calls|);
      var after := StateAfter(polled, scripts[p], |calls|).tables[q];
      CompactedKeepsLive(after);
    }
  }

  lemma {:induction false} NoEntries(tables: seq<seq<Entry>>)
    requires TotalEntries(tables) == 0
    ensures forall q | 0 <= q < |tables| :: tables[q] == []
  {
    if |tables| > 0 {
      NoEntries(tables[..|tables| - 1]);
    }
  }
}
