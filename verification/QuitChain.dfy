/** Stopping all processes: the soft quit and the quit travel down the chain (base/src/shake/quitall.c). */
module QuitChain {
  import opened Bytes
  import opened BinaryCoder
  import opened BinaryBuffer
  import opened AsyncRequest
  import opened Pipeline
  import Startup

  const SOFT_QUITALL: seq<byte> := Ascii("shake/softquitall")
  const QUITALL: seq<byte> := Ascii("shake/quitall")

  datatype Command = Soft | Quit

  // ---------------------------------------------------------------- one process

  function CommandText(c: Command): seq<byte> { if c == Soft then SOFT_QUITALL else QUITALL }

  function CommandFields(pid: int, c: Command): seq<Field> { [Num(pid), Str(CommandText(c))] }

  /** What a command does to a process's flags, and whether it is passed on. */
  function Handled(soft: bool, quit: bool, c: Command): (bool, bool, bool)
  {
    match c
    case Soft => if soft then (soft, quit, false) else (true, quit, true)
    case Quit => if soft then (soft, true, true) else (soft, quit, false)
  }

  /** The commands of one process. */
  class QuitAll {
    const node: NodeTable
    const pid: int
    var softQuitall: bool
    var internalQuit: bool

    constructor (node: NodeTable, pid: int)
      ensures this.node == node && this.pid == pid && !softQuitall && !internalQuit
    {
      this.node, this.pid := node, pid;
      softQuitall, internalQuit := false, false;
    }

    ghost predicate Valid()
      reads this, node, node.nodes
    {
      && node.Valid() && IsInt32(pid) && 0 !in node.nodes[..] && -1 !in node.nodes[..]
    }

    method Pack(c: Command) returns (bytes: seq<byte>)
      requires IsInt32(pid)
      ensures bytes == Message(CommandFields(pid, c))
    {
      var bin := new Txt(256);
      bin.Reset();
      var ok := bin.PackInt(pid);
      AppendedExtendsMessage([], Num(pid));
      assert [] + [Num(pid)] == [Num(pid)];
      ok := bin.PackString(CommandText(c));
      AppendedExtendsMessage([Num(pid)], Str(CommandText(c)));
      assert [Num(pid)] + [Str(CommandText(c))] == CommandFields(pid, c);
      bytes := bin.data[..bin.len];
    }

    method Propagate(next: int, c: Command, works: seq<bool>)
      requires Valid() && next in node.nodes[..] && |works| == node.nodes.Length
      modifies node`sent
      ensures node.sent == old(node.sent) + SendOf(node.nodes[..], node.mynode, next, works,
                                                   Message(CommandFields(pid, c)))
    {
      var bytes := Pack(c);
      var ret := node.Send(next, bytes, works);
    }

    /** shake_soft_quitall_command() */
    method SoftQuitallCommand(works: seq<bool>)
      requires Valid() && |works| == node.nodes.Length
      modifies this`softQuitall, node`sent
      ensures Valid() && softQuitall && internalQuit == old(internalQuit)
      ensures var next := NextNidOf(node.nodes[..], node.mynode);
        node.sent == old(node.sent) +
          if old(softQuitall) || next == -1 then []
          else SendOf(node.nodes[..], node.mynode, next, works, Message([Num(pid), Str(Ascii("shake/softquitall"))]))
      ensures Answered(old(softQuitall), old(internalQuit), Soft, works, old(node.sent))
    {
      if softQuitall {
        return;
      }
      var next := node.NextNid();
      if next != -1 {
        Propagate(next, Soft, works);
      }
      softQuitall := true;
    }

    /** shake_quitall_command() */
    method QuitallCommand(works: seq<bool>)
      requires Valid() && |works| == node.nodes.Length
      modifies this`internalQuit, node`sent
      ensures Valid() && softQuitall == old(softQuitall) && internalQuit == (old(internalQuit) || softQuitall)
      ensures var next := NextNidOf(node.nodes[..], node.mynode);
        node.sent == old(node.sent) +
          if !softQuitall || next == -1 then []
          else SendOf(node.nodes[..], node.mynode, next, works, Message([Num(pid), Str(Ascii("shake/quitall"))]))
      ensures Answered(old(softQuitall), old(internalQuit), Quit, works, old(node.sent))
    {
      if !softQuitall {
        return;
      }
      var next := node.NextNid();
      if next != -1 {
        Propagate(next, Quit, works);
      }
      internalQuit := true;
    }

    /** The flags are as Handled says, and the command went to the next process if it was to be passed on
        and there is one. */
    ghost predicate Answered(soft: bool, quit: bool, c: Command, works: seq<bool>, sent: seq<Datagram>)
      requires |works| == node.nodes.Length
      reads this, node, node.nodes
    {
      var next := NextNidOf(node.nodes[..], node.mynode);
      && softQuitall == Handled(soft, quit, c).0 && internalQuit == Handled(soft, quit, c).1
      && node.sent == sent + if Handled(soft, quit, c).2 && next != -1
           then SendOf(node.nodes[..], node.mynode, next, works, Message(CommandFields(pid, c))) else []
    }
  }

  lemma CommandFits(pid: int, c: Command)
    ensures MessageLength(CommandFields(pid, c)) <= 32 && BodyStart(CommandFields(pid, c), 1) <= 32
  {
    var fields := CommandFields(pid, c);
    EncodeOne(fields[1]);
    assert fields[1..] == [fields[1]] && EncodeAll(fields) == Encode(fields[0]) + EncodeAll([fields[1]]);
    EncodeOne(fields[0]);
    assert fields[..1] == [fields[0]];
    assert |SOFT_QUITALL| == 17 && |QUITALL| == 13;
  }

  /** The next process reads the text of the command that was sent, and the two commands have different texts. */
  lemma CommandArrives(mem: seq<byte>, length: nat, pid: int, c: Command)
    requires IsInt32(pid) && Message(CommandFields(pid, c)) <= mem
    requires MessageLength(CommandFields(pid, c)) <= length <= |mem|
    ensures TextAt(mem, length, 1) == if c == Soft then Ascii("shake/softquitall") else Ascii("shake/quitall")
    ensures Ascii("shake/softquitall") != Ascii("shake/quitall")
  {
    CommandFits(pid, c);
    FieldsComeBack(mem, length, CommandFields(pid, c));
    assert CommandFields(pid, c)[1] == Str(CommandText(c));
    assert |Ascii("shake/softquitall")| == 17 && |Ascii("shake/quitall")| == 13;
  }

  // ---------------------------------------------------------------- the chain

  /** All processes with the one table they agree on, their flags, and a queue in front of each. */
  datatype Chain = Chain(pids: seq<int>, soft: seq<bool>, quit: seq<bool>, queues: seq<seq<Command>>)

  datatype Step = Issue(c: Command) | Deliver(k: nat)

  ghost predicate Shape(s: Chain)
  {
    && |s.pids| == |s.soft| == |s.quit| == |s.queues| > 0
    && (forall i | 0 <= i < |s.pids| :: s.pids[i] > 0)
    && (forall i, j | 0 <= i < j < |s.pids| :: s.pids[i] != s.pids[j])
  }

  ghost predicate Initial(s: Chain)
  {
    Shape(s) && forall k | 0 <= k < |s.pids| :: !s.soft[k] && !s.quit[k] && s.queues[k] == []
  }

  function Forwarded(s: Chain, k: nat, c: Command): seq<seq<Command>>
  {
    var next := NextNidOf(s.pids, k);
    var dest := IndexOf(s.pids, next);
    if next == -1 || dest >= |s.queues| then s.queues else s.queues[dest := s.queues[dest] + [c]]
  }

  /** Process k carries out a command. */
  ghost function Handle(s: Chain, k: nat, c: Command): (after: Chain)
    requires Shape(s) && k < |s.pids|
  {
    var (soft, quit, pass) := Handled(s.soft[k], s.quit[k], c);
    s.(soft := s.soft[k := soft], quit := s.quit[k := quit], queues := if pass then Forwarded(s, k, c) else s.queues)
  }

  ghost predicate Enabled(s: Chain, step: Step)
  {
    Shape(s) && (step.Deliver? ==> step.k < |s.pids| && |s.queues[step.k]| > 0)
  }

  /** The operator gives commands to the master; messages come out of each queue in order. */
  ghost function Next(s: Chain, step: Step): Chain
    requires Enabled(s, step)
  {
    match step
    case Issue(c) => Handle(s, 0, c)
    case Deliver(k) => Handle(s.(queues := s.queues[k := s.queues[k][1..]]), k, s.queues[k][0])
  }

  ghost predicate Legal(s: Chain, run: seq<Step>)
    decreases run
  {
    |run| > 0 ==> Enabled(s, run[0]) && Legal(Next(s, run[0]), run[1..])
  }

  ghost function Run(s: Chain, run: seq<Step>): Chain
    requires Legal(s, run)
    decreases run
  {
    if |run| == 0 then s else Run(Next(s, run[0]), run[1..])
  }

  // ---------------------------------------------------------------- safety

  ghost predicate OnlyQuits(queue: seq<Command>)
  {
    forall j | 0 <= j < |queue| :: queue[j] == Quit
  }

  /** What process k owes its predecessor: the soft quit comes first and once,
      and a quit waits in the queue as long as the predecessor has quit and k has not. */
  ghost predicate LinkOk(soft: bool, quit: bool, nextSoft: bool, nextQuit: bool, queue: seq<Command>)
  {
    && (nextSoft ==> soft) && (nextQuit ==> quit)
    && (nextSoft ==> OnlyQuits(queue))
    && (soft && !nextSoft ==> |queue| > 0 && queue[0] == Soft && OnlyQuits(queue[1..]))
    && (!soft ==> queue == [])
    && (Quit in queue ==> quit)
    && (quit && !nextQuit ==> Quit in queue)
  }

  ghost predicate Inv(s: Chain)
  {
    && Shape(s) && s.queues[0] == []
    && (forall k | 0 <= k < |s.pids| :: s.quit[k] ==> s.soft[k])
    && (forall k | 1 <= k < |s.pids| :: LinkOk(s.soft[k - 1], s.quit[k - 1], s.soft[k], s.quit[k], s.queues[k]))
  }

  lemma InitialInv(s: Chain)
    requires Initial(s)
    ensures Inv(s)
  {
  }

  lemma ForwardedIs(s: Chain, k: nat, c: Command)
    requires Shape(s) && k < |s.pids|
    ensures Forwarded(s, k, c) == if k + 1 < |s.pids| then s.queues[k + 1 := s.queues[k + 1] + [c]] else s.queues
  {
    if k + 1 < |s.pids| {
      assert s.pids[k + 1] > 0;
      var dest := IndexOf(s.pids, s.pids[k + 1]);
      assert dest == k + 1;
    }
  }

  lemma LinkReceives(soft: bool, quit: bool, nextSoft: bool, nextQuit: bool, queue: seq<Command>)
    requires LinkOk(soft, quit, nextSoft, nextQuit, queue) && |queue| > 0 && (nextQuit ==> nextSoft)
    ensures var (s, q, _) := Handled(nextSoft, nextQuit, queue[0]); LinkOk(soft, quit, s, q, queue[1..])
  {
    assert queue == [queue[0]] + queue[1..];
  }

  lemma LinkSends(soft: bool, quit: bool, nextSoft: bool, nextQuit: bool, queue: seq<Command>, c: Command)
    requires LinkOk(soft, quit, nextSoft, nextQuit, queue) && (quit ==> soft)
    ensures var (s, q, pass) := Handled(soft, quit, c);
      LinkOk(s, q, nextSoft, nextQuit, if pass then queue + [c] else queue)
  {
    assert |queue| > 0 ==> (queue + [c])[1..] == queue[1..] + [c];
    assert [] + [c] == [c];
    assert (queue + [c])[|queue|] == c;
  }

  lemma HandleKeepsInv(s: Chain, k: nat, c: Command, queue: seq<Command>)
    requires Inv(s) && k < |s.pids| && (k == 0 ==> queue == [])
    requires k > 0 ==> s.queues[k] == [c] + queue
    ensures Inv(Handle(s.(queues := s.queues[k := queue]), k, c))
  {
    var taken := s.(queues := s.queues[k := queue]);
    var after := Handle(taken, k, c);
    ForwardedIs(taken, k, c);
    forall i | 1 <= i < |s.pids|
      ensures LinkOk(after.soft[i - 1], after.quit[i - 1], after.soft[i], after.quit[i], after.queues[i])
    {
      assert LinkOk(s.soft[i - 1], s.quit[i - 1], s.soft[i], s.quit[i], s.queues[i]);
      if i == k {
        LinkReceives(s.soft[i - 1], s.quit[i - 1], s.soft[i], s.quit[i], s.queues[i]);
        assert s.queues[k][1..] == queue;
      } else if i == k + 1 {
        LinkSends(s.soft[k], s.quit[k], s.soft[i], s.quit[i], s.queues[i], c);
      }
    }
  }

  lemma StepKeepsInv(s: Chain, step: Step)
    requires Inv(s) && Enabled(s, step)
    ensures Inv(Next(s, step))
  {
    match step {
      case Issue(c) =>
        assert s.queues[0 := []] == s.queues;
        HandleKeepsInv(s, 0, c, []);
      case Deliver(k) =>
        assert s.queues[k] == [s.queues[k][0]] + s.queues[k][1..];
        HandleKeepsInv(s, k, s.queues[k][0], s.queues[k][1..]);
    }
  }

  lemma {:induction false} RunsKeepInv(s: Chain, run: seq<Step>)
    requires Inv(s) && Legal(s, run)
    ensures Inv(Run(s, run))
    decreases run
  {
    if |run| > 0 {
      StepKeepsInv(s, run[0]);
      RunsKeepInv(Next(s, run[0]), run[1..]);
    }
  }

  lemma {:induction false} PrefixesOf(s: Chain, i: nat, j: nat)
    requires Inv(s) && i <= j < |s.pids|
    ensures s.soft[j] ==> s.soft[i]
    ensures s.quit[j] ==> s.quit[i]
    decreases j - i
  {
    if i < j {
      PrefixesOf(s, i, j - 1);
      assert LinkOk(s.soft[j - 1], s.quit[j - 1], s.soft[j], s.quit[j], s.queues[j]);
    }
  }

  /** Whatever commands are given in whatever order: the processes that are quitting softly, and those that have quit,
      are always a front part of the chain, and nobody quits without having quit softly first. */
  lemma QuitInOrder(s: Chain, run: seq<Step>, i: nat, j: nat)
    requires Initial(s) && Legal(s, run) && i <= j < |s.pids|
    ensures var t := Run(s, run);
      && |t.pids| == |t.soft| == |t.quit| == |s.pids|
      && (t.soft[j] ==> t.soft[i]) && (t.quit[j] ==> t.quit[i]) && (t.quit[j] ==> t.soft[j])
  {
    InitialInv(s);
    RunsKeepInv(s, run);
    TableStays(s, run);
    PrefixesOf(Run(s, run), i, j);
  }

  lemma {:induction false} TableStays(s: Chain, run: seq<Step>)
    requires Legal(s, run)
    ensures Run(s, run).pids == s.pids
    decreases run
  {
    if |run| > 0 {
      TableStays(Next(s, run[0]), run[1..]);
    }
  }

  // ---------------------------------------------------------------- liveness

  /** No process that still runs has anything to handle. */
  ghost predicate Settled(s: Chain)
  {
    Shape(s) && forall k | 0 <= k < |s.pids| && !s.quit[k] :: s.queues[k] == []
  }

  /** How many deliveries are left: a command in queue k can be delivered there and behind. */
  function Left(queues: seq<seq<Command>>, n: nat): nat
    requires |queues| <= n
  {
    if |queues| == 0 then 0
    else
      var last := |queues| - 1;
      Left(queues[..last], n) + |queues[last]| * (n - last)
  }

  lemma {:induction false} LeftGrows(queues: seq<seq<Command>>, n: nat, k: nat, queue: seq<Command>)
    requires k < |queues| <= n && |queue| == |queues[k]| + 1
    ensures Left(queues[k := queue], n) == Left(queues, n) + (n - k)
  {
    var last, after := |queues| - 1, queues[k := queue];
    if k < last {
      LeftGrows(queues[..last], n, k, queue);
      assert after[..last] == queues[..last][k := queue];
    } else {
      assert after[..last] == queues[..last];
      Distribute(|queues[k]|, n - k);
    }
  }

  lemma Distribute(a: nat, d: nat)
    ensures (a + 1) * d == a * d + d
  {
  }

  lemma PassingOn(queues: seq<seq<Command>>, n: nat, k: nat, c: Command)
    requires |queues| == n && k < n && |queues[k]| > 0
    ensures var taken := queues[k := queues[k][1..]];
      && Left(taken, n) == Left(queues, n) - (n - k)
      && (k + 1 < n ==> Left(taken[k + 1 := taken[k + 1] + [c]], n) == Left(queues, n) - 1)
  {
    var taken := queues[k := queues[k][1..]];
    assert taken[k := queues[k]] == queues;
    LeftGrows(taken, n, k, queues[k]);
    if k + 1 < n {
      LeftGrows(taken, n, k + 1, taken[k + 1] + [c]);
    }
  }

  lemma DeliveryUsesUp(s: Chain, k: nat)
    requires Enabled(s, Deliver(k))
    ensures Left(Next(s, Deliver(k)).queues, |s.pids|) < Left(s.queues, |s.pids|)
  {
    var c := s.queues[k][0];
    ForwardedIs(s.(queues := s.queues[k := s.queues[k][1..]]), k, c);
    PassingOn(s.queues, |s.pids|, k, c);
  }

  ghost predicate OnlyDeliveries(run: seq<Step>)
  {
    forall j | 0 <= j < |run| :: run[j].Deliver?
  }

  /** Deliveries run out after a bounded number, in whatever order the queues are served. */
  lemma {:induction false} DeliveriesEnd(s: Chain, run: seq<Step>)
    requires Legal(s, run) && OnlyDeliveries(run) && Shape(s)
    ensures |run| <= Left(s.queues, |s.pids|)
    decreases run
  {
    if |run| > 0 {
      assert run[0].Deliver?;
      DeliveryUsesUp(s, run[0].k);
      DeliveriesEnd(Next(s, run[0]), run[1..]);
    }
  }

  lemma {:induction false} SettledAllQuit(s: Chain, k: nat)
    requires Inv(s) && Settled(s) && s.quit[0] && k < |s.pids|
    ensures s.quit[k]
  {
    if k > 0 {
      SettledAllQuit(s, k - 1);
      assert LinkOk(s.soft[k - 1], s.quit[k - 1], s.soft[k], s.quit[k], s.queues[k]);
    }
  }

  /** Flags that are set stay set. */
  lemma {:induction false} FlagsStay(s: Chain, run: seq<Step>, k: nat)
    requires Legal(s, run) && Shape(s) && k < |s.pids|
    ensures Shape(Run(s, run)) && |Run(s, run).pids| == |s.pids|
    ensures (s.soft[k] ==> Run(s, run).soft[k]) && (s.quit[k] ==> Run(s, run).quit[k])
    decreases run
  {
    if |run| > 0 {
      FlagsStay(Next(s, run[0]), run[1..], k);
    }
  }

  lemma {:induction false} MasterQuits(s: Chain, run: seq<Step>, j: nat)
    requires Legal(s, run) && Shape(s) && s.soft[0] && j < |run| && run[j] == Issue(Quit)
    ensures Shape(Run(s, run)) && Run(s, run).quit[0]
    decreases run
  {
    var next := Next(s, run[0]);
    if j == 0 {
      FlagsStay(next, run[1..], 0);
    } else {
      MasterQuits(next, run[1..], j - 1);
    }
  }

  lemma {:induction false} MasterObeys(s: Chain, run: seq<Step>, i: nat, j: nat)
    requires Legal(s, run) && Shape(s) && i < j < |run| && run[i] == Issue(Soft) && run[j] == Issue(Quit)
    ensures Shape(Run(s, run)) && Run(s, run).quit[0]
    decreases run
  {
    var next := Next(s, run[0]);
    if i == 0 {
      MasterQuits(next, run[1..], j - 1);
    } else {
      MasterObeys(next, run[1..], i - 1, j - 1);
    }
  }

  /** Once softquitall and later quitall have been given to the master, whatever else happens:
      when no running process has a command left to handle, every process has quit.
      By DeliveriesEnd that is the case after finitely many deliveries, in any order of the queues. */
  lemma SoftQuitThenQuitStopsAll(s: Chain, run: seq<Step>, i: nat, j: nat)
    requires Initial(s) && Legal(s, run)
    requires i < j < |run| && run[i] == Issue(Soft) && run[j] == Issue(Quit)
    requires Settled(Run(s, run))
    ensures forall k | 0 <= k < |s.pids| :: k < |Run(s, run).quit| && Run(s, run).quit[k]
  {
    InitialInv(s);
    RunsKeepInv(s, run);
    MasterObeys(s, run, i, j);
    TableStays(s, run);
    forall k | 0 <= k < |s.pids|
      ensures k < |Run(s, run).quit| && Run(s, run).quit[k]
    {
      SettledAllQuit(Run(s, run), k);
    }
  }

  /** The run contains the soft quit command. */
  ghost predicate SoftIssued(run: seq<Step>)
  {
    exists k :: 0 <= k < |run| && run[k] == Issue(Soft)
  }

  lemma {:induction false} SoftMasterIff(s: Chain, run: seq<Step>)
    requires Legal(s, run) && Shape(s) && s.queues[0] == []
    ensures Shape(Run(s, run)) && (Run(s, run).soft[0] <==> s.soft[0] || SoftIssued(run))
    decreases run
  {
    if |run| > 0 {
      var next := Next(s, run[0]);
      ForwardedIs(s, 0, Quit);
      ForwardedIs(s, 0, Soft);
      if run[0].Deliver? {
        ForwardedIs(s.(queues := s.queues[run[0].k := s.queues[run[0].k][1..]]), run[0].k, s.queues[run[0].k][0]);
      }
      SoftMasterIff(next, run[1..]);
      SoftInTail(run);
    }
  }

  lemma SoftInTail(run: seq<Step>)
    requires |run| > 0
    ensures SoftIssued(run) <==> run[0] == Issue(Soft) || SoftIssued(run[1..])
  {
    if k :| 0 <= k < |run| && run[k] == Issue(Soft) {
      assert k > 0 ==> run[1..][k - 1] == Issue(Soft);
    }
    if k :| 0 <= k < |run[1..]| && run[1..][k] == Issue(Soft) {
      assert run[k + 1] == Issue(Soft);
    }
  }

  /** Whatever quit commands are given: anything changes anywhere exactly when the soft quit is among the commands. */
  lemma NothingWithoutSoftQuit(s: Chain, run: seq<Step>)
    requires Initial(s) && Legal(s, run)
    ensures Run(s, run) == s <==> !SoftIssued(run)
  {
    SoftMasterIff(s, run);
    InitialInv(s);
    RunsKeepInv(s, run);
    TableStays(s, run);
    var end := Run(s, run);
    if !SoftIssued(run) {
      forall k | 0 <= k < |s.pids|
        ensures !end.soft[k] && !end.quit[k] && end.queues[k] == []
      {
        PrefixesOf(end, 0, k);
        if k > 0 {
          PrefixesOf(end, 0, k - 1);
          assert LinkOk(end.soft[k - 1], end.quit[k - 1], end.soft[k], end.quit[k], end.queues[k]);
        }
      }
      assert end.soft == s.soft && end.quit == s.quit && end.queues == s.queues;
    }
  }

  /** The chain starts from where the forking ends: every process finds its successor in its own table. */
  lemma StartLeadsToChain(b: Startup.Boot, run: seq<Startup.Step>, k: nat)
    requires Startup.Initial(b) && Startup.Legal(b, run) && Startup.Drained(Startup.Run(b, run))
    requires k < |Startup.Run(b, run).pids|
    ensures var c := Startup.Run(b, run);
      var n := |c.pids|;
      && Initial(Chain(c.pids, seq(n, _ => false), seq(n, _ => false), seq(n, _ => [])))
      && NextNidOf(c.procs[k].table, c.procs[k].mine) == NextNidOf(c.pids, k)
  {
    Startup.DrainedTablesAgree(b, run);
  }
}
