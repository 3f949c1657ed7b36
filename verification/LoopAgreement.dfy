/** Both event loops mean the same map from descriptors to callbacks. */
module LoopAgreement {
  import opened Options
  import opened Sequences
  import opened PollEntries
  import opened PartitionedLoop

  /** What a table says about a descriptor: the requested events and the callback. */
  function Registration(es: seq<Entry>, fd: int): Option<(int, Callback)>
  {
    var i := FirstLive(es, fd);
    if i < |es| then Some((es[i].poll.events, es[i].cb)) else None
  }

  /** No descriptor is registered twice. */
  ghost predicate OneEach(es: seq<Entry>)
  {
    forall i, j | 0 <= i < j < |es| && Live(es[i]) && Live(es[j]) :: es[i].poll.fd != es[j].poll.fd
  }

  lemma RegistrationIs(es: seq<Entry>, i: nat)
    requires OneEach(es) && i < |es| && Live(es[i])
    ensures Registration(es, es[i].poll.fd) == Some((es[i].poll.events, es[i].cb))
  {
  }

  lemma RegistrationAfterRegister(es: seq<Entry>, fd: int, cb: Callback, events: int)
    requires OneEach(es) && Registration(es, fd) == None && events != 0
    ensures OneEach(Registered(es, fd, cb, events))
    ensures forall g :: Registration(Registered(es, fd, cb, events), g)
                     == if g == fd then Some((events, cb)) else Registration(es, g)
  {
    var after := Registered(es, fd, cb, events);
    forall g
      ensures Registration(after, g) == if g == fd then Some((events, cb)) else Registration(es, g)
    {
      var i := FirstLive(es, g);
      FirstLiveIs(after, g, if g == fd || i < |es| then i else i + 1);
    }
  }

  lemma RegistrationAfterUnregister(es: seq<Entry>, fd: int)
    requires OneEach(es)
    ensures OneEach(Unregistered(es, fd))
    ensures forall g :: Registration(Unregistered(es, fd), g) == if g == fd then None else Registration(es, g)
  {
    var after := Unregistered(es, fd);
    forall g
      ensures Registration(after, g) == if g == fd then None else Registration(es, g)
    {
      FirstLiveIs(after, g, if g == fd then |es| else FirstLive(es, g));
    }
  }

  lemma TrimmedOneEach(es: seq<Entry>)
    requires OneEach(es)
    ensures OneEach(Trimmed(es))
  {
    TrimmedIsPrefix(es);
  }

  lemma FilledOneEach(es: seq<Entry>, i: nat)
    requires OneEach(es) && i < |es| - 1
    ensures OneEach(Filled(es, i))
  {
    var n := |es| - 1;
    TrimmedOneEach(es[..n][i := es[n]]);
  }

  lemma {:induction false} CompactedFromOneEach(es: seq<Entry>, i: nat)
    requires OneEach(es)
    ensures OneEach(CompactedFrom(es, i))
    decreases |es| - i
  {
    if i < |es| - 1 {
      if Live(es[i]) {
        CompactedFromOneEach(es, i + 1);
      } else {
        FilledOneEach(es, i);
        CompactedFromOneEach(Filled(es, i), i + 1);
      }
    }
  }

  lemma CompactedMembers(es: seq<Entry>, e: Entry)
    ensures e in Compacted(es) <==> e in es && Live(e)
  {
    CompactedKeepsLive(es);
    LiveOnlyMembers(es, e);
    assert e in Compacted(es) <==> e in multiset(Compacted(es));
    assert e in LiveOnly(es) <==> e in multiset(LiveOnly(es));
  }

  lemma RegistrationAfterCompaction(es: seq<Entry>)
    requires OneEach(es)
    ensures OneEach(Compacted(es))
    ensures forall g :: Registration(Compacted(es), g) == Registration(es, g)
  {
    TrimmedOneEach(es);
    CompactedFromOneEach(Trimmed(es), 0);
    forall g
      ensures Registration(Compacted(es), g) == Registration(es, g)
    {
      var i, j := FirstLive(es, g), FirstLive(Compacted(es), g);
      if i < |es| {
        CompactedMembers(es, es[i]);
        var k :| 0 <= k < |Compacted(es)| && Compacted(es)[k] == es[i];
        RegistrationIs(Compacted(es), k);
      } else if j < |Compacted(es)| {
        CompactedMembers(es, Compacted(es)[j]);
      }
    }
  }

  lemma RegistrationAfterPoll(es: seq<Entry>, revents: seq<int>)
    requires OneEach(es) && |revents| == |es|
    ensures OneEach(Reported(es, revents))
    ensures forall g :: Registration(Reported(es, revents), g) == Registration(es, g)
  {
    forall g
      ensures Registration(Reported(es, revents), g) == Registration(es, g)
    {
      FirstLiveIs(Reported(es, revents), g, FirstLive(es, g));
    }
  }

  // ---------------------------------------------------------------- agreement

  /** Every entry of partition p belongs there. */
  ghost predicate InPartition(es: seq<Entry>, p: nat)
  {
    forall k | 0 <= k < |es| :: es[k].poll.fd >= 0 && es[k].poll.fd % POLL_PARTITION == p
  }

  ghost predicate Natural(es: seq<Entry>) { forall k | 0 <= k < |es| :: es[k].poll.fd >= 0 }

  /** Both loops mean the same map, and every descriptor is in its own partition. */
  ghost predicate Agree(es: seq<Entry>, s: State)
  {
    && OneEach(es) && Natural(es)
    && |s.tables| == POLL_PARTITION
    && (forall p | 0 <= p < POLL_PARTITION :: OneEach(s.tables[p]) && InPartition(s.tables[p], p))
    && (forall fd: nat :: Registration(es, fd) == Registration(s.tables[fd % POLL_PARTITION], fd))
  }

  /** The total is the sum of the partitions. */
  ghost predicate Counted(s: State) { s.grand == TotalEntries(s.tables) }

  /** What may happen to either loop: operations reach both, polls and compactions come to each in its own time. */
  datatype Action =
    | Do(op: Op)
    | PollPlain(happened: int -> int)
    | CompactPlain
    | PollPart(p: nat, happened: int -> int)
    | CompactPart(p: nat)
    | Recount

  function Plain(es: seq<Entry>, a: Action): seq<Entry>
  {
    match a
    case Do(op) => RunOp(es, op)
    case PollPlain(happened) => Reported(es, Seen(es, happened))
    case CompactPlain => Compacted(es)
    case _ => es
  }

  function Partitioned(s: State, a: Action): (after: State)
    requires |s.tables| == POLL_PARTITION
    ensures |after.tables| == POLL_PARTITION
  {
    match a
    case Do(op) => if op.fd >= 0 then RunOpIn(s, op) else s
    case PollPart(p, happened) => if p < POLL_PARTITION then PollIn(s, p, happened) else s
    case CompactPart(p) => if p < POLL_PARTITION then CompactIn(s, p) else s
    case Recount => RecountIn(s)
    case _ => s
  }

  function RunPlain(es: seq<Entry>, run: seq<Action>): seq<Entry>
  {
    if |run| == 0 then es else Plain(RunPlain(es, run[..|run| - 1]), run[|run| - 1])
  }

  function RunPartitioned(s: State, run: seq<Action>): (after: State)
    requires |s.tables| == POLL_PARTITION
    ensures |after.tables| == POLL_PARTITION
  {
    if |run| == 0 then s else Partitioned(RunPartitioned(s, run[..|run| - 1]), run[|run| - 1])
  }

  /** Callers name real descriptors, register one only while it is not registered, and ask for something. */
  predicate Allowed(es: seq<Entry>, op: Op)
  {
    op.fd >= 0 && (op.Register? ==> Registration(es, op.fd) == None && op.events != 0)
  }

  predicate AllAllowed(es: seq<Entry>, run: seq<Action>)
  {
    |run| > 0 ==>
      && AllAllowed(es, run[..|run| - 1])
      && (run[|run| - 1].Do? ==> Allowed(RunPlain(es, run[..|run| - 1]), run[|run| - 1].op))
  }

  /** Changing one partition the way the plain table changes keeps the agreement. */
  lemma OnePartitionChanges(es: seq<Entry>, s: State, fd: nat, after: seq<Entry>, part: seq<Entry>, grand: int)
    requires Agree(es, s) && OneEach(after) && Natural(after)
    requires OneEach(part) && InPartition(part, fd % POLL_PARTITION)
    requires forall g | g != fd :: Registration(after, g) == Registration(es, g)
    requires forall g | g != fd :: Registration(part, g) == Registration(s.tables[fd % POLL_PARTITION], g)
    requires Registration(after, fd) == Registration(part, fd)
    ensures Agree(after, State(s.tables[fd % POLL_PARTITION := part], grand))
  {
  }

  lemma OpKeepsAgreement(es: seq<Entry>, s: State, op: Op)
    requires Agree(es, s) && Allowed(es, op)
    ensures Agree(RunOp(es, op), RunOpIn(s, op))
  {
    var part := s.tables[op.fd % POLL_PARTITION];
    match op {
      case Register(fd, cb, events) =>
        RegistrationAfterRegister(es, fd, cb, events);
        RegistrationAfterRegister(part, fd, cb, events);
        OnePartitionChanges(es, s, fd, Registered(es, fd, cb, events), Registered(part, fd, cb, events), s.grand + 1);
      case Unregister(fd) =>
        RegistrationAfterUnregister(es, fd);
        RegistrationAfterUnregister(part, fd);
        OnePartitionChanges(es, s, fd, Unregistered(es, fd), Unregistered(part, fd), s.grand);
    }
  }

  lemma CompactedInPartition(es: seq<Entry>, p: nat)
    requires InPartition(es, p)
    ensures InPartition(Compacted(es), p)
  {
    forall k | 0 <= k < |Compacted(es)|
      ensures Compacted(es)[k].poll.fd >= 0 && Compacted(es)[k].poll.fd % POLL_PARTITION == p
    {
      CompactedMembers(es, Compacted(es)[k]);
    }
  }

  lemma CompactedNatural(es: seq<Entry>)
    requires Natural(es)
    ensures Natural(Compacted(es))
  {
    forall k | 0 <= k < |Compacted(es)|
      ensures Compacted(es)[k].poll.fd >= 0
    {
      CompactedMembers(es, Compacted(es)[k]);
    }
  }

  /** A partition that is polled or compacted still says the same about every descriptor. */
  lemma PartitionKeepsAgreement(es: seq<Entry>, s: State, p: nat, part: seq<Entry>)
    requires Agree(es, s) && p < POLL_PARTITION && OneEach(part) && InPartition(part, p)
    requires forall g :: Registration(part, g) == Registration(s.tables[p], g)
    ensures Agree(es, s.(tables := s.tables[p := part]))
  {
  }

  lemma ActionKeepsAgreement(es: seq<Entry>, s: State, a: Action)
    requires Agree(es, s) && (a.Do? ==> Allowed(es, a.op))
    ensures Agree(Plain(es, a), Partitioned(s, a))
  {
    match a {
      case Do(op) => OpKeepsAgreement(es, s, op);
      case PollPlain(happened) => RegistrationAfterPoll(es, Seen(es, happened));
      case CompactPlain =>
        RegistrationAfterCompaction(es);
        CompactedNatural(es);
      case PollPart(p, happened) =>
        if p < POLL_PARTITION {
          RegistrationAfterPoll(s.tables[p], Seen(s.tables[p], happened));
          PartitionKeepsAgreement(es, s, p, Reported(s.tables[p], Seen(s.tables[p], happened)));
        }
      case CompactPart(p) =>
        if p < POLL_PARTITION {
          RegistrationAfterCompaction(s.tables[p]);
          CompactedInPartition(s.tables[p], p);
          PartitionKeepsAgreement(es, s, p, Compacted(s.tables[p]));
        }
      case Recount =>
    }
  }

  /** Any run gives the same map in both loops and keeps every descriptor in its own partition,
      whenever and however often each loop polls and compacts. */
  lemma {:induction false} RunsAgree(es: seq<Entry>, s: State, run: seq<Action>)
    requires Agree(es, s) && AllAllowed(es, run)
    ensures Agree(RunPlain(es, run), RunPartitioned(s, run))
  {
    if |run| > 0 {
      var front := run[..|run| - 1];
      RunsAgree(es, s, front);
      ActionKeepsAgreement(RunPlain(es, front), RunPartitioned(s, front), run[|run| - 1]);
    }
  }

  // ---------------------------------------------------------------- turns

  /** Everything the first k callbacks do, in order. */
  function OpsBefore(script: seq<seq<Op>>, k: nat): seq<Op>
  {
    if k == 0 then [] else OpsBefore(script, k - 1) + ScriptAt(script, k - 1)
  }

  function Doing(ops: seq<Op>): (run: seq<Action>)
    ensures |run| == |ops|
  {
    seq(|ops|, k requires 0 <= k < |ops| => Do(ops[k]))
  }

  lemma {:induction false} RunOpsInAppend(s: State, a: seq<Op>, b: seq<Op>)
    requires |s.tables| == POLL_PARTITION && NaturalOps(a) && NaturalOps(b)
    ensures NaturalOps(a + b) && RunOpsIn(s, a + b) == RunOpsIn(RunOpsIn(s, a), b)
  {
    if |b| == 0 {
      assert a + b == a;
    } else {
      assert (a + b)[..|a + b| - 1] == a + b[..|b| - 1];
      RunOpsInAppend(s, a, b[..|b| - 1]);
    }
  }

  lemma NaturalAppend(a: seq<Op>, b: seq<Op>)
    requires NaturalOps(a) && NaturalOps(b)
    ensures NaturalOps(a + b)
  {
  }

  lemma {:induction false} NaturalBefore(script: seq<seq<Op>>, k: nat)
    requires NaturalScript(script)
    ensures NaturalOps(OpsBefore(script, k))
  {
    if k > 0 {
      NaturalBefore(script, k - 1);
      NaturalAt(script, k - 1);
      NaturalAppend(OpsBefore(script, k - 1), ScriptAt(script, k - 1));
    }
  }

  lemma {:induction false} StateAfterIs(s: State, script: seq<seq<Op>>, k: nat)
    requires |s.tables| == POLL_PARTITION && NaturalScript(script)
    ensures NaturalOps(OpsBefore(script, k)) && StateAfter(s, script, k) == RunOpsIn(s, OpsBefore(script, k))
  {
    NaturalBefore(script, k);
    if k > 0 {
      StateAfterIs(s, script, k - 1);
      OneMoreCallback(s, script, k);
    }
  }

  lemma OneMoreCallback(s: State, script: seq<seq<Op>>, k: nat)
    requires |s.tables| == POLL_PARTITION && NaturalScript(script) && k > 0
    requires NaturalOps(OpsBefore(script, k - 1))
    requires StateAfter(s, script, k - 1) == RunOpsIn(s, OpsBefore(script, k - 1))
    ensures NaturalOps(OpsBefore(script, k)) && StateAfter(s, script, k) == RunOpsIn(s, OpsBefore(script, k))
  {
    NaturalAt(script, k - 1);
    RunOpsInAppend(s, OpsBefore(script, k - 1), ScriptAt(script, k - 1));
  }

  lemma {:induction false} DoingIs(s: State, ops: seq<Op>)
    requires |s.tables| == POLL_PARTITION && NaturalOps(ops)
    ensures RunPartitioned(s, Doing(ops)) == RunOpsIn(s, ops)
  {
    if |ops| > 0 {
      var front := ops[..|ops| - 1];
      DoingIs(s, front);
      assert Doing(ops)[..|ops| - 1] == Doing(front);
    }
  }

  lemma NothingToCall(es: seq<Entry>, script: seq<seq<Op>>, calls: seq<Call>)
    requires Dispatched(es, script, calls) && forall j | 0 <= j < |es| :: es[j].poll.revents == 0
    ensures calls == []
  {
    assert calls == [] || CallFits(es, script, 0, calls[0]);
  }

  /** A turn of one partition, with all that its callbacks do to any partition, amounts to
      carrying out the operations of the callbacks it calls on the plain table. */
  lemma TurnsAgree(es: seq<Entry>, s: State, t: State, p: nat, happened: int -> int, script: seq<seq<Op>>,
                   calls: seq<Call>)
    requires Agree(es, s) && PartTurn(s, t, p, happened, script, calls)
    requires AllAllowed(es, Doing(OpsBefore(script, |calls|)))
    ensures Agree(RunPlain(es, Doing(OpsBefore(script, |calls|))), t)
  {
    var polled, ops := PollIn(s, p, happened), OpsBefore(script, |calls|);
    ActionKeepsAgreement(es, s, PollPart(p, happened));
    if CountReported(polled.tables[p]) == 0 {
      assert polled.tables[p][0..] == polled.tables[p];
      NothingReported(polled.tables[p], 0);
      NothingToCall(polled.tables[p], MineScript(script, p), calls);
    } else {
      StateAfterIs(polled, script, |calls|);
      DoingIs(polled, ops);
      RunsAgree(es, polled, Doing(ops));
      ActionKeepsAgreement(RunPlain(es, Doing(ops)), RunPartitioned(polled, Doing(ops)), CompactPart(p));
    }
  }

  // ---------------------------------------------------------------- steps

  /** Everything the callbacks of the first k turns do, in order. */
  function OpsOfTurns(scripts: seq<seq<seq<Op>>>, calls: seq<seq<Call>>, k: nat): seq<Op>
    requires k <= |calls| <= |scripts|
  {
    if k == 0 then [] else OpsOfTurns(scripts, calls, k - 1) + OpsBefore(scripts[k - 1], |calls[k - 1]|)
  }

  lemma {:induction false} RunOpsAppend(es: seq<Entry>, a: seq<Op>, b: seq<Op>)
    ensures RunOps(es, a + b) == RunOps(RunOps(es, a), b)
  {
    if |b| == 0 {
      assert a + b == a;
    } else {
      assert (a + b)[..|a + b| - 1] == a + b[..|b| - 1];
      RunOpsAppend(es, a, b[..|b| - 1]);
    }
  }

  lemma {:induction false} DoingIsPlain(es: seq<Entry>, ops: seq<Op>)
    ensures RunPlain(es, Doing(ops)) == RunOps(es, ops)
  {
    if |ops| > 0 {
      DoingIsPlain(es, ops[..|ops| - 1]);
      assert Doing(ops)[..|ops| - 1] == Doing(ops[..|ops| - 1]);
    }
  }

  lemma DoingFront(ops: seq<Op>)
    requires |ops| > 0
    ensures Doing(ops)[..|ops| - 1] == Doing(ops[..|ops| - 1]) && Doing(ops)[|ops| - 1] == Do(ops[|ops| - 1])
  {
  }

  lemma DoingAppend(es: seq<Entry>, a: seq<Op>, b: seq<Op>)
    ensures RunPlain(es, Doing(a + b)) == RunPlain(RunPlain(es, Doing(a)), Doing(b))
  {
    DoingIsPlain(es, a + b);
    DoingIsPlain(es, a);
    DoingIsPlain(RunOps(es, a), b);
    RunOpsAppend(es, a, b);
  }

  lemma {:induction false} AllowedSplits(es: seq<Entry>, a: seq<Op>, b: seq<Op>)
    requires AllAllowed(es, Doing(a + b))
    ensures AllAllowed(es, Doing(a)) && AllAllowed(RunPlain(es, Doing(a)), Doing(b))
  {
    if |b| == 0 {
      assert a + b == a;
    } else {
      var ab, front := a + b, b[..|b| - 1];
      assert ab[..|ab| - 1] == a + front && ab[|ab| - 1] == b[|b| - 1];
      DoingFront(ab);
      DoingFront(b);
      AllowedSplits(es, a, front);
      DoingAppend(es, a, front);
    }
  }

  lemma {:induction false} FirstTurnsAgree(es: seq<Entry>, states: seq<State>, calls: seq<seq<Call>>,
                                           happened: nat -> int -> int,
                                           scripts: seq<seq<seq<Op>>>, k: nat)
    requires TurnsOk(states, calls, happened, scripts) && k <= |calls| && Agree(es, states[0])
    requires AllAllowed(es, Doing(OpsOfTurns(scripts, calls, k)))
    ensures Agree(RunPlain(es, Doing(OpsOfTurns(scripts, calls, k))), states[k])
  {
    if k > 0 {
      var before, mine := OpsOfTurns(scripts, calls, k - 1), OpsBefore(scripts[k - 1], |calls[k - 1]|);
      assert OpsOfTurns(scripts, calls, k) == before + mine;
      AllowedSplits(es, before, mine);
      DoingAppend(es, before, mine);
      FirstTurnsAgree(es, states, calls, happened, scripts, k - 1);
      NextTurnAgrees(RunPlain(es, Doing(before)), states, calls, happened, scripts, k - 1);
    }
  }

  lemma NextTurnAgrees(es: seq<Entry>, states: seq<State>, calls: seq<seq<Call>>, happened: nat -> int -> int,
                       scripts: seq<seq<seq<Op>>>, k: nat)
    requires TurnsOk(states, calls, happened, scripts) && k < |calls| && Agree(es, states[k])
    requires AllAllowed(es, Doing(OpsBefore(scripts[k], |calls[k]|)))
    ensures Agree(RunPlain(es, Doing(OpsBefore(scripts[k], |calls[k]|))), states[k + 1])
  {
    TurnsAgree(es, states[k], states[k + 1], k, happened(k), scripts[k], calls[k]);
  }

  /** A step of the partitioned loop, all eight turns and the recount, amounts to carrying out on the plain table
      everything its callbacks do, in the order of the turns. */
  lemma StepsAgree(es: seq<Entry>, states: seq<State>, calls: seq<seq<Call>>, happened: nat -> int -> int,
                   scripts: seq<seq<seq<Op>>>)
    requires TurnsOk(states, calls, happened, scripts) && |calls| == POLL_PARTITION && Agree(es, states[0])
    requires AllAllowed(es, Doing(OpsOfTurns(scripts, calls, POLL_PARTITION)))
    ensures var end := RecountIn(states[POLL_PARTITION]);
      Agree(RunPlain(es, Doing(OpsOfTurns(scripts, calls, POLL_PARTITION))), end) && Counted(end)
  {
    FirstTurnsAgree(es, states, calls, happened, scripts, POLL_PARTITION);
  }

  lemma {:induction false} TableAfterIs(es: seq<Entry>, script: seq<seq<Op>>, k: nat)
    ensures TableAfter(es, script, k) == RunOps(es, OpsBefore(script, k))
  {
    if k > 0 {
      TableAfterIs(es, script, k - 1);
      RunOpsAppend(es, OpsBefore(script, k - 1), ScriptAt(script, k - 1));
    }
  }

  /** Two plain tables that mean the same allow the same operations and go on meaning the same. */
  lemma {:induction false} SameMeaning(a: seq<Entry>, b: seq<Entry>, s: State, ops: seq<Op>)
    requires Agree(a, s) && Agree(b, s) && AllAllowed(a, Doing(ops))
    ensures AllAllowed(b, Doing(ops))
  {
    if |ops| > 0 {
      var front := ops[..|ops| - 1];
      DoingFront(ops);
      SameMeaning(a, b, s, front);
      RunsAgree(a, s, Doing(front));
      RunsAgree(b, s, Doing(front));
      SameRegistration(RunPlain(a, Doing(front)), RunPlain(b, Doing(front)), RunPartitioned(s, Doing(front)),
                       ops[|ops| - 1].fd);
    }
  }

  lemma SameRegistration(a: seq<Entry>, b: seq<Entry>, s: State, fd: int)
    requires Agree(a, s) && Agree(b, s) && fd >= 0
    ensures Registration(a, fd) == Registration(b, fd)
  {
    var n: nat := fd;
    assert Registration(a, n) == Registration(s.tables[n % POLL_PARTITION], n);
    assert Registration(b, n) == Registration(s.tables[n % POLL_PARTITION], n);
  }

  /** A step of the plain loop means what its callbacks do. */
  lemma PlainStepMeans(es: seq<Entry>, after: seq<Entry>, happened: seq<int>, script: seq<seq<Op>>, calls: seq<Call>,
                       s: State)
    requires Agree(es, s) && StepOf(es, after, happened, script, calls)
    requires AllAllowed(es, Doing(OpsBefore(script, |calls|)))
    ensures Agree(after, RunPartitioned(s, Doing(OpsBefore(script, |calls|))))
  {
    var polled, ops := Reported(es, happened), OpsBefore(script, |calls|);
    RegistrationAfterPoll(es, happened);
    assert Agree(polled, s);
    if CountReported(polled) == 0 {
      assert polled[0..] == polled;
      NothingReported(polled, 0);
      NothingToCall(polled, script, calls);
    } else {
      SameMeaning(es, polled, s, ops);
      RunsAgree(polled, s, Doing(ops));
      TableAfterIs(polled, script, |calls|);
      DoingIsPlain(polled, ops);
      ActionKeepsAgreement(RunPlain(polled, Doing(ops)), RunPartitioned(s, Doing(ops)), CompactPlain);
    }
  }

  /** One step of each loop, from agreeing tables, with callbacks that do the same in the same order:
      the tables agree again, although polled, dispatched and compacted differently, and the total is right. */
  lemma BothStepsAgree(es: seq<Entry>, after: seq<Entry>, happened: seq<int>, script: seq<seq<Op>>,
                       plainCalls: seq<Call>,
                       states: seq<State>, calls: seq<seq<Call>>, seen: nat -> int -> int, scripts: seq<seq<seq<Op>>>)
    requires StepOf(es, after, happened, script, plainCalls)
    requires TurnsOk(states, calls, seen, scripts) && |calls| == POLL_PARTITION && Agree(es, states[0])
    requires OpsBefore(script, |plainCalls|) == OpsOfTurns(scripts, calls, POLL_PARTITION)
    requires AllAllowed(es, Doing(OpsBefore(script, |plainCalls|)))
    ensures Agree(after, RecountIn(states[POLL_PARTITION])) && Counted(RecountIn(states[POLL_PARTITION]))
  {
    var ops, end := OpsBefore(script, |plainCalls|), RecountIn(states[POLL_PARTITION]);
    StepsAgree(es, states, calls, seen, scripts);
    PlainStepMeans(es, after, happened, script, plainCalls, states[0]);
    RunsAgree(es, states[0], Doing(ops));
    ThroughThird(RunPlain(es, Doing(ops)), after, RunPartitioned(states[0], Doing(ops)), end);
  }

  /** Tables that agree with the same one agree with each other. */
  lemma ThroughThird(es: seq<Entry>, after: seq<Entry>, s: State, end: State)
    requires Agree(es, s) && Agree(after, s) && Agree(es, end)
    ensures Agree(after, end)
  {
    forall fd: nat
      ensures Registration(after, fd) == Registration(end.tables[fd % POLL_PARTITION], fd)
    {
      SameRegistration(es, after, s, fd);
    }
  }

  // ---------------------------------------------------------------- counts

  function Fds(es: seq<Entry>): set<int> { set e | e in es && Live(e) :: e.poll.fd }

  lemma {:induction false} FdsCount(es: seq<Entry>)
    requires OneEach(es) && LiveBelow(es, |es|)
    ensures |Fds(es)| == |es|
  {
    if |es| > 0 {
      var n := |es| - 1;
      FdsCount(es[..n]);
      assert es == es[..n] + [es[n]];
      assert Fds(es) == Fds(es[..n]) + {es[n].poll.fd};
      assert es[n].poll.fd !in Fds(es[..n]);
    } else {
      assert Fds(es) == {};
    }
  }

  lemma FdsAreRegistrations(es: seq<Entry>, fd: int)
    ensures fd in Fds(es) <==> Registration(es, fd) != None
  {
    if fd in Fds(es) {
      var e :| e in es && Live(e) && e.poll.fd == fd;
      var k :| 0 <= k < |es| && es[k] == e;
      assert FirstLive(es, fd) <= k;
    }
  }

  /** The descriptors of the first n partitions. */
  function FdsBelow(tables: seq<seq<Entry>>, n: nat): set<int>
    requires n <= |tables|
  {
    if n == 0 then {} else FdsBelow(tables, n - 1) + Fds(tables[n - 1])
  }

  lemma {:induction false} FdsBelowMembers(tables: seq<seq<Entry>>, n: nat, fd: int)
    requires n <= |tables|
    requires forall p | 0 <= p < |tables| :: InPartition(tables[p], p)
    ensures fd in FdsBelow(tables, n) <==> fd >= 0 && fd % POLL_PARTITION < n && fd in Fds(tables[fd % POLL_PARTITION])
  {
    if n > 0 {
      FdsBelowMembers(tables, n - 1, fd);
    }
  }

  lemma {:induction false} FdsBelowCount(tables: seq<seq<Entry>>, n: nat)
    requires n <= |tables|
    requires forall p | 0 <= p < |tables| ::
      OneEach(tables[p]) && InPartition(tables[p], p) && LiveBelow(tables[p], |tables[p]|)
    ensures |FdsBelow(tables, n)| == TotalEntries(tables[..n])
  {
    if n > 0 {
      FdsBelowCount(tables, n - 1);
      FdsCount(tables[n - 1]);
      TakeSnoc(tables, n - 1);
      var below, last := FdsBelow(tables, n - 1), Fds(tables[n - 1]);
      forall fd | fd in below
        ensures fd !in last
      {
        FdsBelowMembers(tables, n - 1, fd);
      }
      assert below !! last;
    }
  }

  lemma {:induction false} TotalAfterUpdate(tables: seq<seq<Entry>>, p: nat, table: seq<Entry>)
    requires p < |tables|
    ensures TotalEntries(tables[p := table]) == TotalEntries(tables) - |tables[p]| + |table|
  {
    var n := |tables| - 1;
    if p < n {
      assert tables[p := table][..n] == tables[..n][p := table];
      TotalAfterUpdate(tables[..n], p, table);
    } else {
      assert tables[p := table][..n] == tables[..n];
    }
  }

  /** Recounting makes the total right, and registering, unregistering and polling keep it right;
      a compaction keeps it right exactly when it finds nothing to remove. */
  lemma TotalIsRight(s: State, a: Action)
    requires |s.tables| == POLL_PARTITION
    ensures Counted(RecountIn(s))
    ensures Counted(s) && !a.CompactPart? ==> Counted(Partitioned(s, a))
    ensures Counted(s) && a.CompactPart? && a.p < POLL_PARTITION ==>
      (Counted(Partitioned(s, a)) <==> |LiveOnly(s.tables[a.p])| == |s.tables[a.p]|)
  {
    match a {
      case Do(op) =>
        if op.fd >= 0 {
          TotalAfterUpdate(s.tables, op.fd % POLL_PARTITION, RunOp(s.tables[op.fd % POLL_PARTITION], op));
        }
      case PollPart(p, happened) =>
        if p < POLL_PARTITION {
          TotalAfterUpdate(s.tables, p, Reported(s.tables[p], Seen(s.tables[p], happened)));
        }
      case CompactPart(p) =>
        if p < POLL_PARTITION {
          CompactedKeepsLive(s.tables[p]);
          TotalAfterUpdate(s.tables, p, Compacted(s.tables[p]));
        }
      case _ =>
    }
  }

  ghost predicate NothingDead(es: seq<Entry>) { LiveBelow(es, |es|) }

  /** When nothing waits to be removed, both loops report the same number of descriptors. */
  lemma CountsAgree(es: seq<Entry>, s: State)
    requires Agree(es, s) && Counted(s)
    requires NothingDead(es) && forall p | 0 <= p < POLL_PARTITION :: NothingDead(s.tables[p])
    ensures |es| == s.grand
  {
    FdsCount(es);
    FdsBelowCount(s.tables, POLL_PARTITION);
    assert s.tables[..POLL_PARTITION] == s.tables;
    forall fd
      ensures fd in Fds(es) <==> fd in FdsBelow(s.tables, POLL_PARTITION)
    {
      FdsAreRegistrations(es, fd);
      FdsBelowMembers(s.tables, POLL_PARTITION, fd);
      if fd >= 0 {
        FdsAreRegistrations(s.tables[fd % POLL_PARTITION], fd);
      }
    }
    assert Fds(es) == FdsBelow(s.tables, POLL_PARTITION);
  }

  // ---------------------------------------------------------------- the check on the total

  /** Registrations of descriptors 0, 8, 16, and so on. */
  function SamePartition(n: nat, cb: Callback, events: int): (ops: seq<Op>)
    ensures |ops| == n && NaturalOps(ops)
  {
    seq(n, k requires 0 <= k < n => Register(POLL_PARTITION * k, cb, events))
  }

  function NoDescriptors(): (s: State)
    ensures |s.tables| == POLL_PARTITION
  {
    State(seq(POLL_PARTITION, _ => []), 0)
  }

  lemma {:induction false} AllInPartitionZero(n: nat, cb: Callback, events: int)
    ensures var s := RunOpsIn(NoDescriptors(), SamePartition(n, cb, events));
      s.grand == |s.tables[0]| == n && forall q | 0 < q < POLL_PARTITION :: s.tables[q] == []
  {
    if n > 0 {
      var ops := SamePartition(n, cb, events);
      AllInPartitionZero(n - 1, cb, events);
      assert ops[..n - 1] == SamePartition(n - 1, cb, events);
      assert ops[n - 1].fd % POLL_PARTITION == 0;
    }
  }

  /** After as many of them as one partition holds, the next one still passes the check, and its partition is full. */
  lemma CheckPassesThoughFull(cap: nat, cb: Callback, events: int)
    requires cap > 0
    ensures var s := RunOpsIn(NoDescriptors(), SamePartition(cap, cb, events));
      PassesCheck(s, cap) && |s.tables[(POLL_PARTITION * cap) % POLL_PARTITION]| == cap
  {
    AllInPartitionZero(cap, cb, events);
    assert (POLL_PARTITION * cap) % POLL_PARTITION == 0;
  }

  lemma OneMoreTable(tables: seq<seq<Entry>>, k: nat)
    requires k < |tables|
    ensures TotalEntries(tables[..k + 1]) == TotalEntries(tables[..k]) + |tables[k]|
  {
    assert tables[..k + 1][..k] == tables[..k];
  }

  lemma TotalOfFour(t: seq<seq<Entry>>)
    requires |t| == POLL_PARTITION
    ensures TotalEntries(t[..4]) == |t[0]| + |t[1]| + |t[2]| + |t[3]|
  {
    assert t[..0] == [];
    OneMoreTable(t, 0);
    OneMoreTable(t, 1);
    OneMoreTable(t, 2);
    OneMoreTable(t, 3);
  }

  lemma TotalOfEight(t: seq<seq<Entry>>)
    requires |t| == POLL_PARTITION
    ensures TotalEntries(t) == |t[0]| + |t[1]| + |t[2]| + |t[3]| + |t[4]| + |t[5]| + |t[6]| + |t[7]|
  {
    assert t[..8] == t;
    TotalOfFour(t);
    OneMoreTable(t, 4);
    OneMoreTable(t, 5);
    OneMoreTable(t, 6);
    OneMoreTable(t, 7);
  }

  /** A registration passes the check and yet does not fit exactly when its partition is full and another has room. */
  lemma OverflowsExactlyWhen(s: State, cap: nat, fd: nat)
    requires |s.tables| == POLL_PARTITION && Counted(s) && (forall q | 0 <= q < POLL_PARTITION :: |s.tables[q]| <= cap)
    ensures RegisteringIn(s, fd, cap) == Overruns
        <==> |s.tables[fd % POLL_PARTITION]| == cap && exists q :: 0 <= q < POLL_PARTITION && |s.tables[q]| < cap
  {
    TotalOfEight(s.tables);
    if PassesCheck(s, cap) {
      assert |s.tables[0]| < cap || |s.tables[1]| < cap || |s.tables[2]| < cap || |s.tables[3]| < cap
          || |s.tables[4]| < cap || |s.tables[5]| < cap || |s.tables[6]| < cap || |s.tables[7]| < cap;
    }
  }

  ghost predicate AllFull(s: State, cap: nat) { forall q | 0 <= q < |s.tables| :: |s.tables[q]| == cap }

  ghost predicate NoneFull(s: State, cap: nat) { forall q | 0 <= q < |s.tables| :: |s.tables[q]| < cap }

  /** Every descriptor that passes the check fits into its partition. */
  ghost predicate CheckIsEnough(s: State, cap: nat)
    requires |s.tables| == POLL_PARTITION
  {
    forall fd: nat :: RegisteringIn(s, fd, cap) != Overruns
  }

  /** That is so exactly when the partitions are all full or none of them is. */
  lemma CheckIsEnoughExactlyWhen(s: State, cap: nat)
    requires |s.tables| == POLL_PARTITION && Counted(s) && (forall q | 0 <= q < POLL_PARTITION :: |s.tables[q]| <= cap)
    ensures CheckIsEnough(s, cap) <==> AllFull(s, cap) || NoneFull(s, cap)
  {
    TotalOfEight(s.tables);
    if CheckIsEnough(s, cap) && !NoneFull(s, cap) {
      var q: nat :| q < POLL_PARTITION && |s.tables[q]| >= cap;
      assert q % POLL_PARTITION == q;
      OverflowsExactlyWhen(s, cap, q);
    }
  }
}
