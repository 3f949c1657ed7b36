/** Cooperative scheduling of fibers in a fixed array (base/src/fiber.c). */
module Fiber {
  import opened Options

  datatype Status = Empty | Created | Activated | Deactivated | Destroyed

  /** A slot of the array; the function pointer is None when it is NULL. */
  datatype Slot = Slot(status: Status, fiber: Option<nat>)

  /** What happened in a slot: a fiber was registered there, or its function was called with a status. */
  datatype Event = Begun(slot: nat, fiber: nat) | Called(slot: nat, fiber: nat, status: Status)

  /** A registration, or the removal of a function together with what that function does when it is told so,
      while its slot is still its own. */
  datatype Op = Register(fiber: nat) | Unregister(fiber: nat, dying: seq<Op>)

  /** What a fiber does when it is called: it may register and unregister fibers, then it returns.
      Should its slot be given up because it returns -1, the function there does `dying` when it is told. */
  datatype Turn = Turn(ops: seq<Op>, ret: int, dying: seq<Op>)

  /** What fiber f does when it is called in slot i of this round. */
  type Script = (nat, nat) -> Turn

  /** The array, everything that has happened so far, and whether a NULL function was called, which ends the process. */
  datatype Fibers = Fibers(slots: seq<Slot>, log: seq<Event>, crashed: bool)

  const FREE := Slot(Empty, None)

  // ---------------------------------------------------------------- operations on values

  function FirstEmpty(slots: seq<Slot>, i: nat): (k: nat)
    requires i <= |slots|
    ensures i <= k <= |slots|
    ensures k < |slots| ==> slots[k].status == Empty
    ensures forall j | i <= j < k :: slots[j].status != Empty
    decreases |slots| - i
  {
    if i == |slots| || slots[i].status == Empty then i else FirstEmpty(slots, i + 1)
  }

  function FirstOf(slots: seq<Slot>, f: Option<nat>, i: nat): (k: nat)
    requires i <= |slots|
    ensures i <= k <= |slots|
    ensures k < |slots| ==> slots[k].fiber == f
    ensures forall j | i <= j < k :: slots[j].fiber != f
    decreases |slots| - i
  {
    if i == |slots| || slots[i].fiber == f then i else FirstOf(slots, f, i + 1)
  }

  /** register_fiber_full(); a full array fails its assertion and is left as it is. */
  function RegisterIn(s: Fibers, f: nat): (after: Fibers)
    ensures |after.slots| == |s.slots|
  {
    var k := FirstEmpty(s.slots, 0);
    if k == |s.slots| then s
    else s.(slots := s.slots[k := Slot(Created, Some(f))], log := s.log + [Begun(k, f)])
  }

  /** The function in slot k is called with DESTROYED. */
  function Told(s: Fibers, k: nat, f: nat): Fibers
  {
    s.(log := s.log + [Called(k, f, Destroyed)])
  }

  /** unregister_fiber(): the first slot with this function is told, the function does what it does,
      and then the slot is emptied. */
  function UnregisterIn(s: Fibers, f: nat, dying: seq<Op>): (after: Fibers)
    ensures |after.slots| == |s.slots|
    decreases dying, 1
  {
    var k := FirstOf(s.slots, Some(f), 0);
    if k == |s.slots| then s
    else
      var done := RunOps(Told(s, k, f), dying);
      done.(slots := done.slots[k := FREE])
  }

  function RunOp(s: Fibers, op: Op): (after: Fibers)
    ensures |after.slots| == |s.slots|
    decreases op, 0
  {
    match op
    case Register(f) => RegisterIn(s, f)
    case Unregister(f, dying) => UnregisterIn(s, f, dying)
  }

  function RunOps(s: Fibers, ops: seq<Op>): (after: Fibers)
    ensures |after.slots| == |s.slots|
    decreases ops, 0
  {
    if |ops| == 0 then s else RunOp(RunOps(s, ops[..|ops| - 1]), ops[|ops| - 1])
  }

  predicate Runnable(slot: Slot) { slot.status == Created || slot.status == Activated }

  /** The slot right after its fiber has been called and has done what it does. A fiber that removed itself and
      returns -1 makes the scheduler look for the function NULL, find an empty slot, and call it. */
  function Settled(s: Fibers, i: nat, ret: int, dying: seq<Op>): (after: Fibers)
    requires i < |s.slots|
    ensures |after.slots| == |s.slots|
  {
    if ret == -1 && s.slots[i].fiber.None? then s.(crashed := true)
    else
      var t :=
        if ret == -1 then UnregisterIn(s, s.slots[i].fiber.value, dying)
        else if ret == -2 then s.(slots := s.slots[i := s.slots[i].(status := Deactivated)])
        else s;
      if t.slots[i].status == Created then t.(slots := t.slots[i := t.slots[i].(status := Activated)]) else t
  }

  /** Only slots with a function are ever run, and an empty slot has none. */
  predicate CanRun(slots: seq<Slot>)
  {
    forall k | 0 <= k < |slots| ::
      (Runnable(slots[k]) ==> slots[k].fiber.Some?) && (slots[k].status == Empty ==> slots[k].fiber.None?)
  }

  /** The log with the call that a visit of slot i makes. */
  function CallOf(s: Fibers, i: nat): Fibers
    requires i < |s.slots| && s.slots[i].fiber.Some?
  {
    s.(log := s.log + [Called(i, s.slots[i].fiber.value, s.slots[i].status)])
  }

  /** The state in which the fiber of slot i returns. */
  function Returning(s: Fibers, i: nat, script: Script): (mid: Fibers)
    requires i < |s.slots| && s.slots[i].fiber.Some?
    ensures |mid.slots| == |s.slots|
  {
    RunOps(CallOf(s, i), script(i, s.slots[i].fiber.value).ops)
  }

  /** The slot has a turn: nothing has crashed, and its fiber is to be called. */
  predicate HasTurn(s: Fibers, i: nat)
    requires i < |s.slots|
  {
    !s.crashed && Runnable(s.slots[i])
  }

  /** One pass of the loop in fiber_module_step(). */
  function Visit(s: Fibers, i: nat, script: Script): (after: Fibers)
    requires i < |s.slots| && CanRun(s.slots)
    ensures |after.slots| == |s.slots| && CanRun(after.slots)
  {
    if !HasTurn(s, i) then s
    else
      var turn := script(i, s.slots[i].fiber.value);
      OpsKeepCanRun(CallOf(s, i), turn.ops);
      SettledCanRun(Returning(s, i, script), i, turn.ret, turn.dying);
      Settled(Returning(s, i, script), i, turn.ret, turn.dying)
  }

  lemma {:induction false} OpsKeepCanRun(s: Fibers, ops: seq<Op>)
    requires CanRun(s.slots)
    ensures CanRun(RunOps(s, ops).slots)
    decreases ops, 0
  {
    if |ops| > 0 {
      var before, op := RunOps(s, ops[..|ops| - 1]), ops[|ops| - 1];
      OpsKeepCanRun(s, ops[..|ops| - 1]);
      if op.Unregister? {
        UnregisterKeepsCanRun(before, op.fiber, op.dying);
      }
    }
  }

  lemma {:induction false} UnregisterKeepsCanRun(s: Fibers, f: nat, dying: seq<Op>)
    requires CanRun(s.slots)
    ensures CanRun(UnregisterIn(s, f, dying).slots)
    decreases dying, 1
  {
    OpsKeepCanRun(Told(s, FirstOf(s.slots, Some(f), 0), f), dying);
  }

  lemma OpKeepsCanRun(s: Fibers, op: Op)
    requires CanRun(s.slots)
    ensures CanRun(RunOp(s, op).slots)
  {
    if op.Unregister? {
      UnregisterKeepsCanRun(s, op.fiber, op.dying);
    }
  }

  lemma SettledCanRun(s: Fibers, i: nat, ret: int, dying: seq<Op>)
    requires i < |s.slots| && CanRun(s.slots)
    ensures CanRun(Settled(s, i, ret, dying).slots)
  {
    if ret == -1 && s.slots[i].fiber.Some? {
      UnregisterKeepsCanRun(s, s.slots[i].fiber.value, dying);
    }
  }

  /** The loop over slots from a up to b. */
  function Visits(s: Fibers, a: nat, b: nat, script: Script): (after: Fibers)
    requires a <= b <= |s.slots| && CanRun(s.slots)
    ensures |after.slots| == |s.slots| && CanRun(after.slots)
    decreases b - a
  {
    if a == b then s else Visit(Visits(s, a, b - 1, script), b - 1, script)
  }

  /** After a crash nothing happens any more. */
  lemma {:induction false} CrashedVisits(s: Fibers, a: nat, b: nat, c: nat, script: Script)
    requires a <= b <= c <= |s.slots| && CanRun(s.slots) && Visits(s, a, b, script).crashed
    ensures Visits(s, a, c, script) == Visits(s, a, b, script)
    decreases c - b
  {
    if b < c {
      CrashedVisits(s, a, b, c - 1, script);
    }
  }

  // ---------------------------------------------------------------- the array in place

  class FiberTable {
    const fibers: array<Slot>
    /** Everything that has happened so far. */
    var log: seq<Event>
    var crashed: bool

    ghost function Value(): Fibers
      reads this, fibers
    {
      Fibers(fibers[..], log, crashed)
    }

    /** fiber_module_init() */
    constructor (maxFibers: nat)
      ensures fresh(fibers) && Value() == Fibers(seq(maxFibers, _ => FREE), [], false)
    {
      fibers := new Slot[maxFibers](_ => FREE);
      log, crashed := [], false;
    }

    method RegisterFiber(f: nat) returns (ret: int)
      modifies this`log, fibers
      ensures Value() == RegisterIn(old(Value()), f)
      ensures ret == if FirstEmpty(old(fibers[..]), 0) == fibers.Length then -1 else 0
    {
      var i := 0;
      while i < fibers.Length
        invariant 0 <= i <= fibers.Length && Value() == old(Value())
        invariant FirstEmpty(fibers[..], 0) == FirstEmpty(fibers[..], i)
      {
        if fibers[i].status == Empty {
          fibers[i] := Slot(Created, Some(f));
          log := log + [Begun(i, f)];
          return 0;
        }
        i := i + 1;
      }
      return -1;
    }

    method UnregisterFiber(f: nat, dying: seq<Op>) returns (ret: int)
      modifies this`log, fibers
      ensures Value() == UnregisterIn(old(Value()), f, dying)
      ensures ret == if FirstOf(old(fibers[..]), Some(f), 0) == fibers.Length then -1 else 0
      decreases dying, 1
    {
      var i := 0;
      while i < fibers.Length
        invariant 0 <= i <= fibers.Length && Value() == old(Value())
        invariant FirstOf(fibers[..], Some(f), 0) == FirstOf(fibers[..], Some(f), i)
      {
        if fibers[i].fiber == Some(f) {
          log := log + [Called(i, f, Destroyed)];
          RunFiber(dying);
          fibers[i] := FREE;
          return 0;
        }
        i := i + 1;
      }
      return -1;
    }

    method RunFiber(ops: seq<Op>)
      modifies this`log, fibers
      ensures Value() == RunOps(old(Value()), ops)
      decreases ops, 0
    {
      var k := 0;
      while k < |ops|
        invariant 0 <= k <= |ops| && Value() == RunOps(old(Value()), ops[..k])
      {
        assert ops[..k + 1][..k] == ops[..k];
        var ret;
        match ops[k] {
          case Register(f) => ret := RegisterFiber(f);
          case Unregister(f, dying) => ret := UnregisterFiber(f, dying);
        }
        k := k + 1;
      }
      assert ops[..k] == ops;
    }

    method VisitSlot(i: nat, script: Script)
      requires i < fibers.Length && CanRun(fibers[..])
      modifies this`log, this`crashed, fibers
      ensures Value() == Visit(old(Value()), i, script)
    {
      if crashed || fibers[i].status == Empty || fibers[i].status == Deactivated || fibers[i].status == Destroyed {
        return;
      }
      assert Runnable(fibers[..][i]);
      var f := fibers[i].fiber.value;
      var turn := script(i, f);
      log := log + [Called(i, f, fibers[i].status)];
      RunFiber(turn.ops);
      if turn.ret == -1 {
        match fibers[i].fiber {
          case Some(g) => var ret := UnregisterFiber(g, turn.dying);
          case None =>
            crashed := true;
            return;
        }
      } else if turn.ret == -2 {
        fibers[i] := fibers[i].(status := Deactivated);
      }
      if fibers[i].status == Created {
        fibers[i] := fibers[i].(status := Activated);
      }
    }

    /** fiber_module_step() */
    method Step(script: Script)
      requires CanRun(fibers[..])
      modifies this`log, this`crashed, fibers
      ensures CanRun(fibers[..])
      ensures Value() == Visits(old(Value()), 0, fibers.Length, script)
    {
      var i := 0;
      while i < fibers.Length && !crashed
        invariant 0 <= i <= fibers.Length && CanRun(fibers[..])
        invariant Value() == Visits(old(Value()), 0, i, script)
      {
        VisitSlot(i, script);
        i := i + 1;
      }
      if crashed {
        CrashedVisits(old(Value()), 0, i, fibers.Length, script);
      }
    }
  }

  // ---------------------------------------------------------------- empty slots have no function

  ghost predicate SlotOk(slot: Slot) { (slot.status == Empty <==> slot.fiber == None) && slot.status != Destroyed }

  ghost predicate SlotsOk(slots: seq<Slot>)
  {
    forall k | 0 <= k < |slots| :: SlotOk(slots[k])
  }

  // ---------------------------------------------------------------- the life of a registration

  /** Where the registration in a slot stands, read off the log: none, not yet called, called; or it is nonsense. */
  datatype Phase = Free | Waiting(fiber: nat) | Running(fiber: nat) | Broken

  /** A registration is called with CREATED once, then with ACTIVATED any number of times, then at most once with
      DESTROYED, and all these calls are to the function that was registered. */
  function PhaseAfter(p: Phase, e: Event): Phase
  {
    match (p, e)
    case (Free, Begun(_, f)) => Waiting(f)
    case (Waiting(f), Called(_, g, Created)) => if f == g then Running(f) else Broken
    case (Running(f), Called(_, g, Activated)) => if f == g then p else Broken
    case (Waiting(f), Called(_, g, Destroyed)) => if f == g then Free else Broken
    case (Running(f), Called(_, g, Destroyed)) => if f == g then Free else Broken
    case _ => Broken
  }

  function PhaseOf(log: seq<Event>, k: nat): Phase
  {
    if |log| == 0 then Free
    else
      var before, e := PhaseOf(log[..|log| - 1], k), log[|log| - 1];
      if e.slot == k then PhaseAfter(before, e) else before
  }

  lemma PhaseSnoc(log: seq<Event>, e: Event, k: nat)
    ensures PhaseOf(log + [e], k) == if e.slot == k then PhaseAfter(PhaseOf(log, k), e) else PhaseOf(log, k)
  {
    assert (log + [e])[..|log|] == log;
  }

  /** The slot's status and its log agree. */
  ghost predicate LifeOk(s: Fibers, k: nat)
    requires k < |s.slots|
  {
    var slot := s.slots[k];
    SlotOk(slot) &&
    PhaseOf(s.log, k) == if slot.status == Empty then Free
                         else if slot.status == Created then Waiting(slot.fiber.value)
                         else Running(slot.fiber.value)
  }

  ghost predicate LivesOk(s: Fibers) { !s.crashed && forall k | 0 <= k < |s.slots| :: LifeOk(s, k) }

  /** The slot of the fiber that is being called: it counts as running, whatever its status still says. */
  ghost predicate RunningOk(s: Fibers, i: nat)
    requires i < |s.slots|
  {
    SlotOk(s.slots[i]) && s.slots[i].status != Empty && PhaseOf(s.log, i) == Running(s.slots[i].fiber.value)
  }

  /** The slot of a fiber that has been told DESTROYED and has not returned: its registration is over,
      yet the slot is still taken. */
  ghost predicate TellingOk(s: Fibers, k: nat)
    requires k < |s.slots|
  {
    SlotOk(s.slots[k]) && s.slots[k].status != Empty && PhaseOf(s.log, k) == Free
  }

  /** While the fiber of slot i is being called and those of the slots `telling` are being told: the registration in i
      goes on, or it has been removed and the slot is like any other, empty or taken anew. Without a call, i is the
      end of the array. */
  ghost predicate MidOk(s: Fibers, i: nat, telling: set<nat>)
  {
    !s.crashed && forall k | 0 <= k < |s.slots| ::
      if k in telling then TellingOk(s, k)
      else (LifeOk(s, k) && (k == i ==> !PhaseOf(s.log, k).Running?)) || (k == i && RunningOk(s, k))
  }

  /** The log of some slot makes no sense. */
  ghost predicate SomeBroken(s: Fibers)
  {
    exists k :: 0 <= k < |s.slots| && PhaseOf(s.log, k) == Broken
  }

  // ---------------------------------------------------------------- what happens while a fiber is told

  /** No function is told DESTROYED while it is being told, at whatever depth. */
  predicate OrderlyOp(s: Fibers, op: Op, telling: set<nat>)
    decreases op, 0
  {
    op.Unregister? ==>
      var k := FirstOf(s.slots, Some(op.fiber), 0);
      k < |s.slots| ==> k !in telling && Orderly(Told(s, k, op.fiber), op.dying, telling + {k})
  }

  predicate Orderly(s: Fibers, ops: seq<Op>, telling: set<nat>)
    decreases ops, 0
  {
    |ops| > 0 ==>
      && Orderly(s, ops[..|ops| - 1], telling)
      && OrderlyOp(RunOps(s, ops[..|ops| - 1]), ops[|ops| - 1], telling)
  }

  /** None of the operations removes the fiber of slot i, at whatever depth. */
  predicate StaysOp(s: Fibers, op: Op, i: nat)
    decreases op, 0
  {
    op.Unregister? ==>
      var k := FirstOf(s.slots, Some(op.fiber), 0);
      k < |s.slots| ==> k != i && Stays(Told(s, k, op.fiber), op.dying, i)
  }

  predicate Stays(s: Fibers, ops: seq<Op>, i: nat)
    decreases ops, 0
  {
    |ops| > 0 ==>
      Stays(s, ops[..|ops| - 1], i) && StaysOp(RunOps(s, ops[..|ops| - 1]), ops[|ops| - 1], i)
  }

  lemma {:induction false} BrokenStays(s: Fibers, ops: seq<Op>, k: nat)
    requires PhaseOf(s.log, k) == Broken
    ensures PhaseOf(RunOps(s, ops).log, k) == Broken
    decreases ops, 0
  {
    if |ops| > 0 {
      BrokenStays(s, ops[..|ops| - 1], k);
      OpStaysBroken(RunOps(s, ops[..|ops| - 1]), ops[|ops| - 1], k);
    }
  }

  lemma {:induction false} OpStaysBroken(s: Fibers, op: Op, k: nat)
    requires PhaseOf(s.log, k) == Broken
    ensures PhaseOf(RunOp(s, op).log, k) == Broken
    decreases op, 0
  {
    match op {
      case Register(f) => PhaseSnoc(s.log, Begun(FirstEmpty(s.slots, 0), f), k);
      case Unregister(f, dying) =>
        var j := FirstOf(s.slots, Some(f), 0);
        PhaseSnoc(s.log, Called(j, f, Destroyed), k);
        BrokenStays(Told(s, j, f), dying, k);
    }
  }

  /** The call with DESTROYED ends a registration, and breaks the log of a slot that is being told already. */
  lemma TellingOne(s: Fibers, f: nat, i: nat, telling: set<nat>)
    requires MidOk(s, i, telling) && FirstOf(s.slots, Some(f), 0) < |s.slots|
    ensures var k := FirstOf(s.slots, Some(f), 0);
      if k in telling then PhaseOf(Told(s, k, f).log, k) == Broken else MidOk(Told(s, k, f), i, telling + {k})
    ensures forall j | 0 <= j < |s.slots| ::
      RunningOk(Told(s, FirstOf(s.slots, Some(f), 0), f), j) <==> RunningOk(s, j) && j != FirstOf(s.slots, Some(f), 0)
  {
    var k := FirstOf(s.slots, Some(f), 0);
    forall j | 0 <= j < |s.slots|
      ensures PhaseOf(Told(s, k, f).log, j)
        == if j == k then PhaseAfter(PhaseOf(s.log, k), Called(k, f, Destroyed)) else PhaseOf(s.log, j)
    {
      PhaseSnoc(s.log, Called(k, f, Destroyed), j);
    }
  }

  lemma RegisterKeepsMid(s: Fibers, f: nat, i: nat, telling: set<nat>)
    requires MidOk(s, i, telling)
    ensures MidOk(RegisterIn(s, f), i, telling)
    ensures i < |s.slots| ==> (RunningOk(RegisterIn(s, f), i) <==> RunningOk(s, i))
  {
    var k := FirstEmpty(s.slots, 0);
    forall j | 0 <= j < |s.slots|
      ensures PhaseOf(s.log + [Begun(k, f)], j)
        == if j == k then PhaseAfter(PhaseOf(s.log, k), Begun(k, f)) else PhaseOf(s.log, j)
    {
      PhaseSnoc(s.log, Begun(k, f), j);
    }
  }

  /** One operation keeps everything in order, or some log makes no sense afterwards. */
  lemma {:induction false} OpKeepsMid(s: Fibers, op: Op, i: nat, telling: set<nat>)
    requires MidOk(s, i, telling)
    ensures if OrderlyOp(s, op, telling) then MidOk(RunOp(s, op), i, telling) else SomeBroken(RunOp(s, op))
    ensures OrderlyOp(s, op, telling) && i < |s.slots| ==>
      (RunningOk(RunOp(s, op), i) <==> RunningOk(s, i) && StaysOp(s, op, i))
    decreases op, 0
  {
    match op {
      case Register(f) => RegisterKeepsMid(s, f, i, telling);
      case Unregister(f, dying) =>
        var k := FirstOf(s.slots, Some(f), 0);
        if k < |s.slots| {
          TellingOne(s, f, i, telling);
          if k in telling {
            BrokenStays(Told(s, k, f), dying, k);
            assert PhaseOf(RunOp(s, op).log, k) == Broken;
          } else {
            OpsKeepMid(Told(s, k, f), dying, i, telling + {k});
            var done := RunOps(Told(s, k, f), dying);
            EmptiedKeepsMid(done, k, i, telling);
            assert RunOp(s, op) == done.(slots := done.slots[k := FREE]);
          }
        }
    }
  }

  lemma EmptiedKeepsMid(s: Fibers, k: nat, i: nat, telling: set<nat>)
    requires k < |s.slots| && k !in telling
    ensures MidOk(s, i, telling + {k}) ==> MidOk(s.(slots := s.slots[k := FREE]), i, telling)
    ensures MidOk(s, i, telling + {k}) && i < |s.slots| ==>
      (RunningOk(s.(slots := s.slots[k := FREE]), i) <==> RunningOk(s, i))
    ensures SomeBroken(s) ==> SomeBroken(s.(slots := s.slots[k := FREE]))
  {
    if SomeBroken(s) {
      var j :| 0 <= j < |s.slots| && PhaseOf(s.log, j) == Broken;
      assert PhaseOf(s.(slots := s.slots[k := FREE]).log, j) == Broken;
    }
  }

  lemma {:induction false} OpsKeepMid(s: Fibers, ops: seq<Op>, i: nat, telling: set<nat>)
    requires MidOk(s, i, telling)
    ensures if Orderly(s, ops, telling) then MidOk(RunOps(s, ops), i, telling) else SomeBroken(RunOps(s, ops))
    ensures Orderly(s, ops, telling) && i < |s.slots| ==>
      (RunningOk(RunOps(s, ops), i) <==> RunningOk(s, i) && Stays(s, ops, i))
    decreases ops, 0
  {
    if |ops| > 0 {
      var front, op := ops[..|ops| - 1], ops[|ops| - 1];
      OpsKeepMid(s, front, i, telling);
      if Orderly(s, front, telling) {
        OpKeepsMid(RunOps(s, front), op, i, telling);
      } else {
        var k :| 0 <= k < |s.slots| && PhaseOf(RunOps(s, front).log, k) == Broken;
        OpStaysBroken(RunOps(s, front), op, k);
        assert PhaseOf(RunOps(s, ops).log, k) == Broken;
      }
    }
  }

  /** A slot that is being told, or that comes behind one with the same function: no search can find it. */
  predicate Shielded(slots: seq<Slot>, telling: set<nat>, j: nat)
  {
    j < |slots| && slots[j].status != Empty
    && exists k | k in telling :: k <= j && slots[k].fiber == slots[j].fiber && slots[k].status != Empty
  }

  lemma {:induction false} ShieldedOpKept(s: Fibers, op: Op, telling: set<nat>)
    requires OrderlyOp(s, op, telling)
    ensures forall j: nat | Shielded(s.slots, telling, j) :: RunOp(s, op).slots[j] == s.slots[j] && StaysOp(s, op, j)
    decreases op, 0
  {
    if op.Unregister? && FirstOf(s.slots, Some(op.fiber), 0) < |s.slots| {
      var k := FirstOf(s.slots, Some(op.fiber), 0);
      ShieldedKept(Told(s, k, op.fiber), op.dying, telling + {k});
      forall j: nat | Shielded(s.slots, telling, j)
        ensures j != k && Shielded(s.slots, telling + {k}, j)
      {
        var m :| m in telling && m <= j && s.slots[m].fiber == s.slots[j].fiber && s.slots[m].status != Empty;
        assert m in telling + {k};
      }
    }
  }

  lemma {:induction false} ShieldedKept(s: Fibers, ops: seq<Op>, telling: set<nat>)
    requires Orderly(s, ops, telling)
    ensures forall j: nat | Shielded(s.slots, telling, j) :: RunOps(s, ops).slots[j] == s.slots[j] && Stays(s, ops, j)
    decreases ops, 0
  {
    if |ops| > 0 {
      var before := RunOps(s, ops[..|ops| - 1]);
      ShieldedKept(s, ops[..|ops| - 1], telling);
      ShieldedOpKept(before, ops[|ops| - 1], telling);
      forall j: nat | Shielded(s.slots, telling, j)
        ensures Shielded(before.slots, telling, j)
      {
        var m :| m in telling && m <= j && s.slots[m].fiber == s.slots[j].fiber && s.slots[m].status != Empty;
        assert Shielded(s.slots, telling, m);
      }
    }
  }

  // ---------------------------------------------------------------- what a fiber may do to itself

  /** The fiber still holds its slot when it returns; or it has given it up, the slot is empty, and it asks for nothing
      about it; or somebody has taken the slot, is the first with that function, and the fiber asks for its removal.
      And whoever is removed behaves when it is told. */
  predicate ReturnsFine(mid: Fibers, stays: bool, i: nat, ret: int, dying: seq<Op>)
    requires i < |mid.slots|
  {
    && (|| stays
        || (mid.slots[i] == FREE && ret != -1 && ret != -2)
        || (mid.slots[i].status == Created && ret == -1 && FirstOf(mid.slots, mid.slots[i].fiber, 0) == i))
    && (ret == -1 && mid.slots[i].fiber.Some? ==> OrderlyOp(mid, Unregister(mid.slots[i].fiber.value, dying), {}))
  }

  lemma SettledStaysBroken(s: Fibers, i: nat, ret: int, dying: seq<Op>)
    requires i < |s.slots| && SomeBroken(s)
    ensures SomeBroken(Settled(s, i, ret, dying)) && !LivesOk(Settled(s, i, ret, dying))
  {
    var k :| 0 <= k < |s.slots| && PhaseOf(s.log, k) == Broken;
    if ret == -1 && s.slots[i].fiber.Some? {
      OpStaysBroken(s, Unregister(s.slots[i].fiber.value, dying), k);
    }
    assert PhaseOf(Settled(s, i, ret, dying).log, k) == Broken;
    BrokenIsNotLive(Settled(s, i, ret, dying));
  }

  /** Only the own slot matters once everybody has behaved. */
  lemma SettledSlot(s: Fibers, i: nat, mark: Slot)
    requires i < |s.slots| && MidOk(s, i, {})
    ensures LivesOk(s.(slots := s.slots[i := mark])) <==> LifeOk(s.(slots := s.slots[i := mark]), i)
  {
    var after := s.(slots := s.slots[i := mark]);
    forall k | 0 <= k < |s.slots| && k != i
      ensures LifeOk(after, k)
    {
      assert LifeOk(s, k);
    }
  }

  /** The fiber of slot i is not touched while an earlier slot with the same function is given up. */
  lemma TwinKept(s: Fibers, i: nat, dying: seq<Op>)
    requires i < |s.slots| && MidOk(s, i, {}) && s.slots[i].fiber.Some?
    requires OrderlyOp(s, Unregister(s.slots[i].fiber.value, dying), {})
    ensures var op, k := Unregister(s.slots[i].fiber.value, dying), FirstOf(s.slots, s.slots[i].fiber, 0);
      k <= i && RunOp(s, op).slots[k] == FREE && (k != i ==> RunOp(s, op).slots[i] == s.slots[i] && StaysOp(s, op, i))
  {
    var f, k := s.slots[i].fiber.value, FirstOf(s.slots, s.slots[i].fiber, 0);
    assert {} + {k} == {k};
    ShieldedKept(Told(s, k, f), dying, {k});
    assert LifeOk(s, i) || RunningOk(s, i);
    assert LifeOk(s, k) || k == i;
    assert Shielded(s.slots, {k}, i) by { assert k in {k}; }
  }

  /** Whatever the log of a broken slot says, slots and log do not agree. */
  lemma BrokenIsNotLive(s: Fibers)
    requires SomeBroken(s)
    ensures !LivesOk(s)
  {
    var k :| 0 <= k < |s.slots| && PhaseOf(s.log, k) == Broken;
    assert !LifeOk(s, k);
  }

  lemma MinusOneIff(s: Fibers, i: nat, dying: seq<Op>)
    requires i < |s.slots| && MidOk(s, i, {}) && s.slots[i].fiber.Some?
    requires OrderlyOp(s, Unregister(s.slots[i].fiber.value, dying), {})
    ensures LivesOk(Settled(s, i, -1, dying)) <==> RunningOk(s, i) || FirstOf(s.slots, s.slots[i].fiber, 0) == i
  {
    var f, k := s.slots[i].fiber.value, FirstOf(s.slots, s.slots[i].fiber, 0);
    var op := Unregister(f, dying);
    var gone := RunOp(s, op);
    OpKeepsMid(s, op, i, {});
    TwinKept(s, i, dying);
    if k != i {
      assert gone.slots[i] == s.slots[i] && StaysOp(s, op, i);
    }
    var own := gone.slots[i];
    SettledSlot(gone, i, if own.status == Created then own.(status := Activated) else own);
    assert gone.slots[i := gone.slots[i]] == gone.slots;
  }

  /** The scheduler handles a return correctly exactly when it is fine. */
  lemma SettledKeepsLivesIff(s: Fibers, i: nat, ret: int, dying: seq<Op>)
    requires i < |s.slots| && MidOk(s, i, {})
    ensures LivesOk(Settled(s, i, ret, dying)) <==> ReturnsFine(s, RunningOk(s, i), i, ret, dying)
  {
    if ret == -1 && s.slots[i].fiber.Some? {
      var op := Unregister(s.slots[i].fiber.value, dying);
      if OrderlyOp(s, op, {}) {
        MinusOneIff(s, i, dying);
      } else {
        OpKeepsMid(s, op, i, {});
        var k :| 0 <= k < |s.slots| && PhaseOf(RunOp(s, op).log, k) == Broken;
        assert !LifeOk(Settled(s, i, ret, dying), k);
      }
    } else if ret != -1 {
      SettledSlot(s, i, Settled(s, i, ret, dying).slots[i]);
      assert s.slots[i := s.slots[i]] == s.slots;
    }
  }

  /** A visit in which the fiber that is called, if any, behaves and returns fine. */
  predicate VisitFine(s: Fibers, i: nat, script: Script)
    requires i < |s.slots| && CanRun(s.slots)
  {
    HasTurn(s, i) ==>
      var turn := script(i, s.slots[i].fiber.value);
      && Orderly(CallOf(s, i), turn.ops, {})
      && ReturnsFine(Returning(s, i, script), Stays(CallOf(s, i), turn.ops, i), i, turn.ret, turn.dying)
  }

  lemma CallIsRunning(s: Fibers, i: nat)
    requires i < |s.slots| && LivesOk(s) && Runnable(s.slots[i])
    ensures s.slots[i].fiber.Some? && MidOk(CallOf(s, i), i, {}) && RunningOk(CallOf(s, i), i)
  {
    assert LifeOk(s, i);
    var e := Called(i, s.slots[i].fiber.value, s.slots[i].status);
    forall k | 0 <= k < |s.slots| && k != i
      ensures LifeOk(CallOf(s, i), k)
    {
      assert LifeOk(s, k);
      PhaseSnoc(s.log, e, k);
    }
    PhaseSnoc(s.log, e, i);
  }

  lemma LivesCanRun(s: Fibers)
    requires LivesOk(s)
    ensures CanRun(s.slots) && SlotsOk(s.slots)
  {
    forall k | 0 <= k < |s.slots|
      ensures SlotOk(s.slots[k])
    {
      assert LifeOk(s, k);
    }
  }

  /** A visit keeps slots and log in agreement exactly when the fiber behaves and returns fine. */
  lemma VisitKeepsLivesIff(s: Fibers, i: nat, script: Script)
    requires i < |s.slots| && LivesOk(s)
    ensures CanRun(s.slots) && (LivesOk(Visit(s, i, script)) <==> VisitFine(s, i, script))
  {
    LivesCanRun(s);
    if HasTurn(s, i) {
      var turn := script(i, s.slots[i].fiber.value);
      CallIsRunning(s, i);
      OpsKeepMid(CallOf(s, i), turn.ops, i, {});
      if Orderly(CallOf(s, i), turn.ops, {}) {
        SettledKeepsLivesIff(Returning(s, i, script), i, turn.ret, turn.dying);
      } else {
        SettledStaysBroken(Returning(s, i, script), i, turn.ret, turn.dying);
      }
    }
  }

  // ---------------------------------------------------------------- whole runs

  /** Slots and log agree after each of the visits. */
  ghost predicate VisitsLive(s: Fibers, a: nat, b: nat, script: Script)
    requires a <= b <= |s.slots| && CanRun(s.slots)
    decreases b - a
  {
    LivesOk(Visits(s, a, b, script)) && (a < b ==> VisitsLive(s, a, b - 1, script))
  }

  predicate VisitsFine(s: Fibers, a: nat, b: nat, script: Script)
    requires a <= b <= |s.slots| && CanRun(s.slots)
    decreases b - a
  {
    a < b ==> VisitsFine(s, a, b - 1, script) && VisitFine(Visits(s, a, b - 1, script), b - 1, script)
  }

  lemma {:induction false} VisitsLiveIff(s: Fibers, a: nat, b: nat, script: Script)
    requires a <= b <= |s.slots| && LivesOk(s)
    ensures CanRun(s.slots) && (VisitsLive(s, a, b, script) <==> VisitsFine(s, a, b, script))
    decreases b - a
  {
    LivesCanRun(s);
    if a < b {
      VisitsLiveIff(s, a, b - 1, script);
      if VisitsLive(s, a, b - 1, script) {
        VisitKeepsLivesIff(Visits(s, a, b - 1, script), b - 1, script);
      }
    }
  }

  /** Fibers registered or unregistered from outside, and rounds of the scheduler. */
  datatype Action = Outside(op: Op) | Round(script: Script)

  function Act(s: Fibers, a: Action): (after: Fibers)
    requires CanRun(s.slots)
    ensures |after.slots| == |s.slots| && CanRun(after.slots)
  {
    match a
    case Outside(op) =>
      OpKeepsCanRun(s, op);
      if s.crashed then s else RunOp(s, op)
    case Round(script) => Visits(s, 0, |s.slots|, script)
  }

  function Run(s: Fibers, run: seq<Action>): (after: Fibers)
    requires CanRun(s.slots)
    ensures |after.slots| == |s.slots| && CanRun(after.slots)
  {
    if |run| == 0 then s else Act(Run(s, run[..|run| - 1]), run[|run| - 1])
  }

  function Start(maxFibers: nat): (s: Fibers)
    ensures |s.slots| == maxFibers && CanRun(s.slots)
  {
    Fibers(seq(maxFibers, _ => FREE), [], false)
  }

  /** Slots and log agree after each visit of each round. */
  ghost predicate AlwaysLive(s: Fibers, run: seq<Action>)
    requires CanRun(s.slots)
  {
    LivesOk(Run(s, run)) &&
    (|run| > 0 ==>
       var before, a := Run(s, run[..|run| - 1]), run[|run| - 1];
       AlwaysLive(s, run[..|run| - 1]) && (a.Round? ==> VisitsLive(before, 0, |before.slots|, a.script)))
  }

  /** Every fiber that is called in the run returns fine, and none is told DESTROYED a second time. */
  predicate AllReturnFine(s: Fibers, run: seq<Action>)
    requires CanRun(s.slots)
  {
    |run| > 0 ==>
      var before, a := Run(s, run[..|run| - 1]), run[|run| - 1];
      && AllReturnFine(s, run[..|run| - 1])
      && match a
         case Round(script) => VisitsFine(before, 0, |before.slots|, script)
         case Outside(op) => !before.crashed ==> OrderlyOp(before, op, {})
  }

  /** An operation from outside keeps slots and log in agreement exactly when no fiber is told a second time. */
  lemma OutsideKeepsLivesIff(s: Fibers, op: Op)
    requires LivesOk(s)
    ensures LivesOk(RunOp(s, op)) <==> OrderlyOp(s, op, {})
  {
    OpKeepsMid(s, op, |s.slots|, {});
    if !OrderlyOp(s, op, {}) {
      BrokenIsNotLive(RunOp(s, op));
    }
  }

  /** The discipline holds throughout a run exactly when every fiber that is called in it returns fine. */
  lemma {:induction false} LivesAlwaysIff(s: Fibers, run: seq<Action>)
    requires LivesOk(s)
    ensures CanRun(s.slots) && (AlwaysLive(s, run) <==> AllReturnFine(s, run))
  {
    LivesCanRun(s);
    if |run| > 0 {
      var front, a := run[..|run| - 1], run[|run| - 1];
      LivesAlwaysIff(s, front);
      if AlwaysLive(s, front) {
        var before := Run(s, front);
        match a {
          case Outside(op) => OutsideKeepsLivesIff(before, op);
          case Round(script) => VisitsLiveIff(before, 0, |before.slots|, script);
        }
      }
    }
  }

  /** In every run in which fibers return fine, a slot is EMPTY exactly when its function is NULL, and in every slot
      each registration is called with CREATED, then with ACTIVATED, and at most once with DESTROYED. */
  lemma RunsKeepLives(maxFibers: nat, run: seq<Action>)
    requires AllReturnFine(Start(maxFibers), run)
    ensures var s := Run(Start(maxFibers), run);
      && !s.crashed && SlotsOk(s.slots)
      && (forall k | 0 <= k < maxFibers :: LifeOk(s, k) && PhaseOf(s.log, k) != Broken)
  {
    assert LivesOk(Start(maxFibers));
    LivesAlwaysIff(Start(maxFibers), run);
    LivesCanRun(Run(Start(maxFibers), run));
    forall k | 0 <= k < maxFibers
      ensures LifeOk(Run(Start(maxFibers), run), k)
    {
    }
  }

  // ---------------------------------------------------------------- fibers that leave themselves alone

  /** None of the functions `names` is unregistered, and nobody who is told unregisters itself or one of those
      on whose account it is told. */
  predicate Polite(ops: seq<Op>, names: set<nat>)
    decreases ops, 0
  {
    |ops| > 0 ==> Polite(ops[..|ops| - 1], names) && PoliteOp(ops[|ops| - 1], names)
  }

  predicate PoliteOp(op: Op, names: set<nat>)
    decreases op, 0
  {
    op.Unregister? ==> op.fiber !in names && Polite(op.dying, names + {op.fiber})
  }

  /** The slots that are being told are taken by functions among the names. */
  predicate NamesCover(slots: seq<Slot>, telling: set<nat>, names: set<nat>)
  {
    forall k | k in telling ::
      k < |slots| && slots[k].status != Empty && slots[k].fiber.Some? && slots[k].fiber.value in names
  }

  lemma {:induction false} PoliteOpIsOrderly(s: Fibers, op: Op, telling: set<nat>, names: set<nat>)
    requires CanRun(s.slots) && PoliteOp(op, names) && NamesCover(s.slots, telling, names)
    ensures OrderlyOp(s, op, telling)
    decreases op, 0
  {
    if op.Unregister? && FirstOf(s.slots, Some(op.fiber), 0) < |s.slots| {
      var k := FirstOf(s.slots, Some(op.fiber), 0);
      PoliteIsOrderly(Told(s, k, op.fiber), op.dying, telling + {k}, names + {op.fiber});
    }
  }

  lemma {:induction false} PoliteIsOrderly(s: Fibers, ops: seq<Op>, telling: set<nat>, names: set<nat>)
    requires CanRun(s.slots) && Polite(ops, names) && NamesCover(s.slots, telling, names)
    ensures Orderly(s, ops, telling)
    ensures forall k | k in telling :: RunOps(s, ops).slots[k] == s.slots[k] && Stays(s, ops, k)
    decreases ops, 0
  {
    if |ops| > 0 {
      var front := ops[..|ops| - 1];
      PoliteIsOrderly(s, front, telling, names);
      OpsKeepCanRun(s, front);
      PoliteOpIsOrderly(RunOps(s, front), ops[|ops| - 1], telling, names);
    }
    ShieldedKept(s, ops, telling);
    assert forall k | k in telling :: Shielded(s.slots, telling, k);
  }

  /** No fiber unregisters itself while it runs or is told, nor does anybody who is told on its account. */
  ghost predicate NoSelf(script: Script)
  {
    forall i, f :: Polite(script(i, f).ops, {f}) && Polite(script(i, f).dying, {f})
  }

  lemma NoSelfVisitFine(s: Fibers, i: nat, script: Script)
    requires i < |s.slots| && CanRun(s.slots) && NoSelf(script)
    ensures VisitFine(s, i, script)
  {
    if HasTurn(s, i) {
      var f, called := s.slots[i].fiber.value, CallOf(s, i);
      var turn, mid := script(i, f), Returning(s, i, script);
      PoliteIsOrderly(called, turn.ops, {}, {f});
      PoliteIsOrderly(called, turn.ops, {i}, {f});
      assert i in {i};
      OpsKeepCanRun(called, turn.ops);
      assert mid.slots[i].fiber == Some(f);
      var k := FirstOf(mid.slots, Some(f), 0);
      PoliteIsOrderly(Told(mid, k, f), turn.dying, {k}, {f});
      assert {} + {k} == {k};
    }
  }

  lemma {:induction false} NoSelfVisitsFine(s: Fibers, a: nat, b: nat, script: Script)
    requires a <= b <= |s.slots| && CanRun(s.slots) && NoSelf(script)
    ensures VisitsFine(s, a, b, script)
    decreases b - a
  {
    if a < b {
      NoSelfVisitsFine(s, a, b - 1, script);
      NoSelfVisitFine(Visits(s, a, b - 1, script), b - 1, script);
    }
  }

  /** Fibers that never unregister themselves while they run or are told always return fine. */
  lemma {:induction false} NoSelfReturnsFine(s: Fibers, run: seq<Action>)
    requires CanRun(s.slots)
    requires forall j | 0 <= j < |run| ::
      match run[j] case Round(script) => NoSelf(script) case Outside(op) => PoliteOp(op, {})
    ensures AllReturnFine(s, run)
  {
    if |run| > 0 {
      var front, a := run[..|run| - 1], run[|run| - 1];
      NoSelfReturnsFine(s, front);
      match a {
        case Round(script) => NoSelfVisitsFine(Run(s, front), 0, |s.slots|, script);
        case Outside(op) => PoliteOpIsOrderly(Run(s, front), op, {}, {});
      }
    }
  }

  // ---------------------------------------------------------------- who is called, and how often

  /** A visit calls the fiber of a slot that is CREATED or ACTIVATED with that status, and passes over the others. */
  lemma VisitCalls(s: Fibers, i: nat, script: Script)
    requires i < |s.slots| && CanRun(s.slots)
    ensures var slot, after := s.slots[i], Visit(s, i, script);
      if !s.crashed && (slot.status == Created || slot.status == Activated)
      then slot.fiber.Some? && s.log + [Called(i, slot.fiber.value, slot.status)] <= after.log
      else after == s
  {
    if HasTurn(s, i) {
      var f := s.slots[i].fiber.value;
      var turn, mid := script(i, f), Returning(s, i, script);
      OpsAddToLog(CallOf(s, i), turn.ops);
      if turn.ret == -1 && mid.slots[i].fiber.Some? {
        OpAddsToLog(mid, Unregister(mid.slots[i].fiber.value, turn.dying));
      }
    }
  }

  lemma {:induction false} OpAddsToLog(s: Fibers, op: Op)
    ensures s.log <= RunOp(s, op).log
    decreases op, 0
  {
    if op.Unregister? {
      OpsAddToLog(Told(s, FirstOf(s.slots, Some(op.fiber), 0), op.fiber), op.dying);
    }
  }

  lemma {:induction false} OpsAddToLog(s: Fibers, ops: seq<Op>)
    ensures s.log <= RunOps(s, ops).log
    decreases ops, 0
  {
    if |ops| > 0 {
      OpsAddToLog(s, ops[..|ops| - 1]);
      OpAddsToLog(RunOps(s, ops[..|ops| - 1]), ops[|ops| - 1]);
    }
  }

  lemma {:induction false} VisitsAddToLog(s: Fibers, a: nat, b: nat, c: nat, script: Script)
    requires a <= b <= c <= |s.slots| && CanRun(s.slots)
    ensures Visits(s, a, b, script).log <= Visits(s, a, c, script).log
    decreases c - b
  {
    if b < c {
      VisitsAddToLog(s, a, b, c - 1, script);
      VisitCalls(Visits(s, a, c - 1, script), c - 1, script);
    }
  }

  /** In a round every slot that is CREATED or ACTIVATED when its turn comes has its fiber called with that status. */
  lemma RoundCalls(s: Fibers, j: nat, script: Script)
    requires j < |s.slots| && CanRun(s.slots)
    ensures var turn := Visits(s, 0, j, script);
      !turn.crashed && (turn.slots[j].status == Created || turn.slots[j].status == Activated) ==>
        turn.slots[j].fiber.Some?
        && turn.log + [Called(j, turn.slots[j].fiber.value, turn.slots[j].status)]
             <= Visits(s, 0, |s.slots|, script).log
  {
    VisitCalls(Visits(s, 0, j, script), j, script);
    VisitsAddToLog(s, 0, j + 1, |s.slots|, script);
  }

  /** What happened in one slot, in order. */
  function SlotLog(log: seq<Event>, j: nat): seq<Event>
  {
    if |log| == 0 then []
    else SlotLog(log[..|log| - 1], j) + if log[|log| - 1].slot == j then [log[|log| - 1]] else []
  }

  lemma SlotLogSnoc(log: seq<Event>, e: Event, j: nat)
    ensures SlotLog(log + [e], j) == SlotLog(log, j) + if e.slot == j then [e] else []
    ensures Removals(log + [e], j)
         == Removals(log, j) + if e.slot == j && e.Called? && e.status == Destroyed then 1 else 0
  {
    assert (log + [e])[..|log|] == log;
  }

  /** How often the fiber of slot j has been removed. */
  function Removals(log: seq<Event>, j: nat): nat
  {
    if |log| == 0 then 0
    else
      var e := log[|log| - 1];
      Removals(log[..|log| - 1], j) + if e.slot == j && e.Called? && e.status == Destroyed then 1 else 0
  }

  /** Operations that do not remove the fiber of a taken slot leave the slot and its log alone. */
  lemma {:induction false} OpLeavesSlot(s: Fibers, op: Op, j: nat)
    requires j < |s.slots| && s.slots[j].status != Empty
    ensures Removals(RunOp(s, op).log, j) >= Removals(s.log, j)
    ensures Removals(RunOp(s, op).log, j) == Removals(s.log, j) ==>
      RunOp(s, op).slots[j] == s.slots[j] && SlotLog(RunOp(s, op).log, j) == SlotLog(s.log, j)
    decreases op, 0
  {
    match op {
      case Register(f) => SlotLogSnoc(s.log, Begun(FirstEmpty(s.slots, 0), f), j);
      case Unregister(f, dying) =>
        var k := FirstOf(s.slots, Some(f), 0);
        if k < |s.slots| {
          SlotLogSnoc(s.log, Called(k, f, Destroyed), j);
          OpsLeaveSlot(Told(s, k, f), dying, j);
        }
    }
  }

  lemma {:induction false} OpsLeaveSlot(s: Fibers, ops: seq<Op>, j: nat)
    requires j < |s.slots| && s.slots[j].status != Empty
    ensures Removals(RunOps(s, ops).log, j) >= Removals(s.log, j)
    ensures Removals(RunOps(s, ops).log, j) == Removals(s.log, j) ==>
      RunOps(s, ops).slots[j] == s.slots[j] && SlotLog(RunOps(s, ops).log, j) == SlotLog(s.log, j)
    decreases ops, 0
  {
    if |ops| > 0 {
      var before := RunOps(s, ops[..|ops| - 1]);
      OpsLeaveSlot(s, ops[..|ops| - 1], j);
      OpAddsToLog(before, ops[|ops| - 1]);
      RemovalsGrow(before.log, RunOps(s, ops).log, j);
      if before.slots[j].status != Empty {
        OpLeavesSlot(before, ops[|ops| - 1], j);
      }
    }
  }

  lemma {:induction false} RemovalsGrow(log: seq<Event>, more: seq<Event>, j: nat)
    requires log <= more
    ensures Removals(log, j) <= Removals(more, j)
    decreases |more|
  {
    if |log| < |more| {
      RemovalsGrow(log, more[..|more| - 1], j);
    } else {
      assert log == more;
    }
  }

  /** The calls of n turns of a slot: with CREATED once if that is its status, then with ACTIVATED;
      none if it has any other status. */
  function CallsIn(j: nat, f: nat, status: Status, n: nat): seq<Event>
  {
    if n == 0 || (status != Created && status != Activated) then []
    else CallsIn(j, f, status, n - 1) + [Called(j, f, if n == 1 then status else Activated)]
  }

  function StatusAfter(status: Status, n: nat): Status { if status == Created && n > 0 then Activated else status }

  /** Slot j of s, taken by f, has gone through n of its turns, and nothing else has happened in it. */
  ghost predicate Steady(s: Fibers, after: Fibers, j: nat, f: nat, n: nat)
    requires j < |s.slots| == |after.slots|
  {
    && after.slots[j] == Slot(StatusAfter(s.slots[j].status, n), Some(f))
    && SlotLog(after.log, j) == SlotLog(s.log, j) + CallsIn(j, f, s.slots[j].status, n)
  }

  lemma VisitGrows(s: Fibers, i: nat, script: Script)
    requires i < |s.slots| && CanRun(s.slots)
    ensures s.log <= Visit(s, i, script).log && (s.crashed ==> Visit(s, i, script) == s)
  {
    VisitCalls(s, i, script);
  }

  lemma OtherVisitLeavesSlot(s: Fibers, i: nat, script: Script, j: nat)
    requires i < |s.slots| && j < |s.slots| && i != j && CanRun(s.slots) && s.slots[j].fiber.Some?
    requires Removals(Visit(s, i, script).log, j) == Removals(s.log, j)
    ensures Visit(s, i, script).slots[j] == s.slots[j] && SlotLog(Visit(s, i, script).log, j) == SlotLog(s.log, j)
  {
    if HasTurn(s, i) {
      var f := s.slots[i].fiber.value;
      var turn, mid := script(i, f), Returning(s, i, script);
      SlotLogSnoc(s.log, Called(i, f, s.slots[i].status), j);
      OpsLeaveSlot(CallOf(s, i), turn.ops, j);
      SettledAddsToLog(mid, i, turn.ret, turn.dying);
      RemovalsGrow(mid.log, Visit(s, i, script).log, j);
      SettledLeavesSlot(mid, i, turn.ret, turn.dying, j);
    }
  }

  lemma SettledAddsToLog(s: Fibers, i: nat, ret: int, dying: seq<Op>)
    requires i < |s.slots|
    ensures s.log <= Settled(s, i, ret, dying).log
  {
    if ret == -1 && s.slots[i].fiber.Some? {
      OpAddsToLog(s, Unregister(s.slots[i].fiber.value, dying));
    }
  }

  lemma SettledLeavesSlot(s: Fibers, i: nat, ret: int, dying: seq<Op>, j: nat)
    requires i < |s.slots| && j < |s.slots| && i != j && s.slots[j].status != Empty
    requires Removals(Settled(s, i, ret, dying).log, j) == Removals(s.log, j)
    ensures Settled(s, i, ret, dying).slots[j] == s.slots[j]
    ensures SlotLog(Settled(s, i, ret, dying).log, j) == SlotLog(s.log, j)
  {
    if ret == -1 && s.slots[i].fiber.Some? {
      OpLeavesSlot(s, Unregister(s.slots[i].fiber.value, dying), j);
    }
  }

  /** The turn of slot j itself: it is called and goes on as ACTIVATED, or as DEACTIVATED if it returns -2. */
  lemma OwnVisit(s: Fibers, j: nat, script: Script)
    requires j < |s.slots| && CanRun(s.slots) && s.slots[j].fiber.Some? && !s.crashed
    requires s.slots[j].status == Created || s.slots[j].status == Activated
    requires script(j, s.slots[j].fiber.value).ret != -1
    requires Removals(Visit(s, j, script).log, j) == Removals(s.log, j)
    ensures var f, status := s.slots[j].fiber.value, s.slots[j].status;
      && SlotLog(Visit(s, j, script).log, j) == SlotLog(s.log, j) + [Called(j, f, status)]
      && Visit(s, j, script).slots[j]
         == Slot(if script(j, f).ret == -2 then Deactivated else Activated, Some(f))
  {
    var f := s.slots[j].fiber.value;
    SlotLogSnoc(s.log, Called(j, f, s.slots[j].status), j);
    OpsLeaveSlot(CallOf(s, j), script(j, f).ops, j);
  }

  lemma MoreCalls(j: nat, f: nat, status: Status, n: nat)
    ensures CallsIn(j, f, status, n + 1) == CallsIn(j, f, status, n) + CallsIn(j, f, StatusAfter(status, n), 1)
  {
    assert CallsIn(j, f, StatusAfter(status, n), 0) == [];
  }

  lemma SteadyOn(s: Fibers, mid: Fibers, after: Fibers, j: nat, f: nat, n: nat, more: nat)
    requires j < |s.slots| == |mid.slots| == |after.slots| && more <= 1
    requires Steady(s, mid, j, f, n) && Steady(mid, after, j, f, more)
    ensures Steady(s, after, j, f, n + more)
  {
    if more == 1 {
      MoreCalls(j, f, s.slots[j].status, n);
    }
  }

  /** The fiber of slot j, if it is called at all, returns neither -1 nor -2. */
  predicate GoesOn(slot: Slot, script: Script, j: nat)
  {
    slot.fiber.Some? && (slot.status == Created || slot.status == Activated) ==>
      script(j, slot.fiber.value).ret != -1 && script(j, slot.fiber.value).ret != -2
  }

  lemma VisitIsSteady(s: Fibers, i: nat, script: Script, j: nat, f: nat)
    requires i < |s.slots| && j < |s.slots| && CanRun(s.slots) && s.slots[j].fiber == Some(f)
    requires GoesOn(s.slots[j], script, j) && !s.crashed
    requires Removals(Visit(s, i, script).log, j) == Removals(s.log, j)
    ensures Steady(s, Visit(s, i, script), j, f, if i == j then 1 else 0)
  {
    if i != j {
      OtherVisitLeavesSlot(s, i, script, j);
    } else if s.slots[j].status == Created || s.slots[j].status == Activated {
      OwnVisit(s, j, script);
      assert CallsIn(j, f, s.slots[j].status, 0) == [];
    }
  }

  /** The visits from slot a to slot b give slot j one turn if it is among them. */
  lemma {:induction false} VisitsAreSteady(s: Fibers, a: nat, b: nat, script: Script, j: nat, f: nat)
    requires a <= b <= |s.slots| && j < |s.slots| && CanRun(s.slots) && s.slots[j].fiber == Some(f)
    requires GoesOn(s.slots[j], script, j)
    requires !Visits(s, a, b, script).crashed && Removals(Visits(s, a, b, script).log, j) == Removals(s.log, j)
    ensures Steady(s, Visits(s, a, b, script), j, f, if a <= j < b then 1 else 0)
    decreases b - a
  {
    if a < b {
      var before, after := Visits(s, a, b - 1, script), Visits(s, a, b, script);
      VisitGrows(before, b - 1, script);
      VisitsAddToLog(s, a, a, b - 1, script);
      RemovalsGrow(s.log, before.log, j);
      RemovalsGrow(before.log, after.log, j);
      VisitsAreSteady(s, a, b - 1, script, j, f);
      VisitIsSteady(before, b - 1, script, j, f);
      SteadyOn(s, before, after, j, f, if a <= j < b - 1 then 1 else 0, if j == b - 1 then 1 else 0);
    }
  }

  function RoundsIn(run: seq<Action>): nat
  {
    if |run| == 0 then 0 else RoundsIn(run[..|run| - 1]) + if run[|run| - 1].Round? then 1 else 0
  }

  lemma ActGrows(s: Fibers, a: Action)
    requires CanRun(s.slots)
    ensures s.log <= Act(s, a).log && (s.crashed ==> Act(s, a) == s)
  {
    match a {
      case Outside(op) => OpAddsToLog(s, op);
      case Round(script) =>
        VisitsAddToLog(s, 0, 0, |s.slots|, script);
        if s.crashed {
          CrashedVisits(s, 0, 0, |s.slots|, script);
        }
    }
  }

  lemma {:induction false} RunGrows(s: Fibers, run: seq<Action>)
    requires CanRun(s.slots)
    ensures s.log <= Run(s, run).log
  {
    if |run| > 0 {
      RunGrows(s, run[..|run| - 1]);
      ActGrows(Run(s, run[..|run| - 1]), run[|run| - 1]);
    }
  }

  /** Whatever else happens: a registration that nobody removes, and that returns neither -1 nor -2, is called once in
      each round, first with CREATED if it has not been called before, and then with ACTIVATED; nothing else happens in
      its slot. One that has been deactivated is never called again. */
  lemma {:induction false} FiberIsCalledEachRound(s: Fibers, run: seq<Action>, j: nat, f: nat)
    requires j < |s.slots| && CanRun(s.slots) && s.slots[j].fiber == Some(f)
    requires s.slots[j].status == Created || s.slots[j].status == Activated ==>
      forall k | 0 <= k < |run| && run[k].Round? :: run[k].script(j, f).ret != -1 && run[k].script(j, f).ret != -2
    requires !Run(s, run).crashed && Removals(Run(s, run).log, j) == Removals(s.log, j)
    ensures Steady(s, Run(s, run), j, f, RoundsIn(run))
  {
    if |run| > 0 {
      var front, a := run[..|run| - 1], run[|run| - 1];
      var before := Run(s, front);
      ActGrows(before, a);
      RunGrows(s, front);
      RemovalsGrow(s.log, before.log, j);
      RemovalsGrow(before.log, Run(s, run).log, j);
      FiberIsCalledEachRound(s, front, j, f);
      match a {
        case Outside(op) => OpLeavesSlot(before, op, j);
        case Round(script) =>
          VisitsAreSteady(before, 0, |s.slots|, script, j, f);
          SteadyOn(s, before, Run(s, run), j, f, RoundsIn(front), 1);
      }
    }
  }

  lemma DeactivatedIsNotCalled(s: Fibers, run: seq<Action>, j: nat, f: nat)
    requires j < |s.slots| && CanRun(s.slots) && s.slots[j] == Slot(Deactivated, Some(f))
    requires !Run(s, run).crashed && Removals(Run(s, run).log, j) == Removals(s.log, j)
    ensures SlotLog(Run(s, run).log, j) == SlotLog(s.log, j) && Run(s, run).slots[j] == s.slots[j]
  {
    FiberIsCalledEachRound(s, run, j, f);
  }

  // ---------------------------------------------------------------- fairness

  /** How often the fiber in slot j has been run. */
  function RunsOf(log: seq<Event>, j: nat): nat
  {
    if |log| == 0 then 0
    else
      var e := log[|log| - 1];
      RunsOf(log[..|log| - 1], j) + if e.Called? && e.slot == j && e.status != Destroyed then 1 else 0
  }

  lemma RunsSnoc(log: seq<Event>, e: Event, j: nat)
    ensures RunsOf(log + [e], j) == RunsOf(log, j) + if e.Called? && e.slot == j && e.status != Destroyed then 1 else 0
  {
    assert (log + [e])[..|log|] == log;
  }

  lemma {:induction false} OpRunsNothing(s: Fibers, op: Op, j: nat)
    ensures RunsOf(RunOp(s, op).log, j) == RunsOf(s.log, j)
    decreases op, 0
  {
    match op {
      case Register(f) => RunsSnoc(s.log, Begun(FirstEmpty(s.slots, 0), f), j);
      case Unregister(f, dying) =>
        var k := FirstOf(s.slots, Some(f), 0);
        RunsSnoc(s.log, Called(k, f, Destroyed), j);
        OpsRunNothing(Told(s, k, f), dying, j);
    }
  }

  lemma {:induction false} OpsRunNothing(s: Fibers, ops: seq<Op>, j: nat)
    ensures RunsOf(RunOps(s, ops).log, j) == RunsOf(s.log, j)
    decreases ops, 0
  {
    if |ops| > 0 {
      OpsRunNothing(s, ops[..|ops| - 1], j);
      OpRunsNothing(RunOps(s, ops[..|ops| - 1]), ops[|ops| - 1], j);
    }
  }

  lemma VisitRuns(s: Fibers, i: nat, script: Script, j: nat)
    requires CanRun(s.slots) && i < |s.slots|
    ensures RunsOf(Visit(s, i, script).log, j) == RunsOf(s.log, j) + if j == i && HasTurn(s, i) then 1 else 0
  {
    if HasTurn(s, i) {
      var turn, done := script(i, s.slots[i].fiber.value), Returning(s, i, script);
      RunsSnoc(s.log, Called(i, s.slots[i].fiber.value, s.slots[i].status), j);
      OpsRunNothing(CallOf(s, i), turn.ops, j);
      if turn.ret == -1 && done.slots[i].fiber.Some? {
        OpRunsNothing(done, Unregister(done.slots[i].fiber.value, turn.dying), j);
      }
    }
  }

  lemma {:induction false} VisitsRun(s: Fibers, a: nat, b: nat, script: Script, j: nat)
    requires CanRun(s.slots) && a <= b <= |s.slots|
    ensures RunsOf(Visits(s, a, b, script).log, j)
         == RunsOf(s.log, j) + if a <= j < b && HasTurn(Visits(s, a, j, script), j) then 1 else 0
    decreases b - a
  {
    if a < b {
      VisitsRun(s, a, b - 1, script, j);
      VisitRuns(Visits(s, a, b - 1, script), b - 1, script, j);
    }
  }

  /** From the turn of slot i in one round up to its turn in the next, every slot has exactly one turn:
      its fiber runs once if it is runnable then, and not at all otherwise. */
  lemma EverySlotHasOneTurn(s: Fibers, i: nat, now: Script, next: Script, j: nat)
    requires CanRun(s.slots) && i < |s.slots| && j < |s.slots|
    ensures var u := Visits(s, i, |s.slots|, now);
      var v := Visits(u, 0, i, next);
      var turn := if j >= i then Visits(s, i, j, now) else Visits(u, 0, j, next);
      RunsOf(v.log, j) == RunsOf(s.log, j) +
        if !turn.crashed && (turn.slots[j].status == Created || turn.slots[j].status == Activated) then 1 else 0
  {
    VisitsRun(s, i, |s.slots|, now, j);
    VisitsRun(Visits(s, i, |s.slots|, now), 0, i, next, j);
  }

  // ---------------------------------------------------------------- where the source falls short of its intent

  /** Returning -1 ends the first registration of the fiber's function: the fiber's own exactly when no earlier slot
      holds the same function, and somebody else's, who did not ask, while the own one goes on, when one does. */
  lemma MinusOneEndsOwnSlot(s: Fibers, i: nat, dying: seq<Op>)
    requires i < |s.slots| && MidOk(s, i, {}) && RunningOk(s, i)
    requires OrderlyOp(s, Unregister(s.slots[i].fiber.value, dying), {})
    ensures var k, after := FirstOf(s.slots, s.slots[i].fiber, 0), Settled(s, i, -1, dying);
      && k <= i && after.slots[k] == FREE && PhaseOf(after.log, k) == Free
      && (after.slots[i] == FREE <==> k == i)
      && (k != i ==> PhaseOf(after.log, i) == Running(s.slots[i].fiber.value))
  {
    var after := Settled(s, i, -1, dying);
    var f, k := s.slots[i].fiber.value, FirstOf(s.slots, s.slots[i].fiber, 0);
    MinusOneIff(s, i, dying);
    assert LifeOk(after, k) && LifeOk(after, i);
    TwinKept(s, i, dying);
  }

  /** A fiber that replaces itself by another while it runs, and then returns ret. */
  function Replacing(ret: int): Script
  {
    (i, f) => if f == 1 then Turn([Unregister(1, []), Register(2)], ret, []) else Turn([], 0, [])
  }

  /** One registration, not yet called. */
  function OneFiber(): Fibers { RegisterIn(Start(1), 1) }

  lemma OneFiberLives()
    ensures OneFiber().slots == [Slot(Created, Some(1))] && LivesOk(OneFiber()) && HasTurn(OneFiber(), 0)
  {
    assert Start(1).slots == [FREE];
    assert LifeOk(Start(1), 0) && LivesOk(Start(1));
    OutsideKeepsLivesIff(Start(1), Register(1));
  }

  /** The only fiber is removed, and quietly so. */
  lemma Removed(s: Fibers, status: Status)
    requires s.slots == [Slot(status, Some(1))]
    ensures UnregisterIn(s, 1, []) == Told(s, 0, 1).(slots := [FREE])
    ensures !StaysOp(s, Unregister(1, []), 0) && OrderlyOp(s, Unregister(1, []), {})
  {
    assert FirstOf(s.slots, Some(1), 0) == 0;
    assert s.slots[0 := FREE] == [FREE];
  }

  /** The state in which the fiber returns: its slot belongs to the other one, which waits for its first call. */
  lemma Replaced(ret: int)
    ensures Returning(OneFiber(), 0, Replacing(ret)).slots == [Slot(Created, Some(2))]
    ensures var ops := [Unregister(1, []), Register(2)];
      !Stays(CallOf(OneFiber(), 0), ops, 0) && Orderly(CallOf(OneFiber(), 0), ops, {})
  {
    OneFiberLives();
    var called, ops := CallOf(OneFiber(), 0), [Unregister(1, []), Register(2)];
    Removed(called, Created);
    assert ops[..1] == [Unregister(1, [])] && ops[..1][..0] == [];
    assert RunOps(called, ops[..1]) == UnregisterIn(called, 1, []);
    assert RunOps(called, ops) == RegisterIn(UnregisterIn(called, 1, []), 2);
  }

  /** Then the newcomer is taken for the one that was called and misses its CREATED call, unless -1 is returned. */
  lemma SelfUnregisterFails(ret: int)
    ensures LivesOk(OneFiber()) && (LivesOk(Visit(OneFiber(), 0, Replacing(ret))) <==> ret == -1)
  {
    OneFiberLives();
    Replaced(ret);
    VisitKeepsLivesIff(OneFiber(), 0, Replacing(ret));
  }

  /** A fiber that only removes itself. */
  function Vanishing(ret: int): Script
  {
    (i: nat, f: nat) => Turn([Unregister(f, [])], ret, [])
  }

  /** It crashes the process when it returns -1, leaves a slot without a function when it returns -2,
      and is fine otherwise. */
  lemma VanishingFiber(ret: int)
    ensures var after := Visit(OneFiber(), 0, Vanishing(ret));
      && (after.crashed <==> ret == -1)
      && (after.slots == [Slot(Deactivated, None)] <==> ret == -2)
      && (LivesOk(after) <==> ret != -1 && ret != -2)
  {
    OneFiberLives();
    VisitKeepsLivesIff(OneFiber(), 0, Vanishing(ret));
    var called, ops := CallOf(OneFiber(), 0), [Unregister(1, [])];
    Removed(called, Created);
    assert ops[..0] == [];
    assert RunOps(called, ops) == UnregisterIn(called, 1, []);
  }

  /** A fiber that, when it is told DESTROYED, unregisters itself and then registers another: it is told a second time,
      and the other one, put into the slot that is about to be emptied, is gone without ever being called. */
  lemma ToldTwice()
    ensures var s, after := OneFiber(), RunOp(OneFiber(), Unregister(1, [Unregister(1, []), Register(2)]));
      && LivesOk(s) && !LivesOk(after) && after.slots == [FREE]
      && after.log == s.log + [Called(0, 1, Destroyed), Called(0, 1, Destroyed), Begun(0, 2)]
  {
    OneFiberLives();
    var s, dying := OneFiber(), [Unregister(1, []), Register(2)];
    var told := Told(s, 0, 1);
    Removed(told, Created);
    assert dying[..1] == [Unregister(1, [])] && dying[..1][..0] == [];
    assert RunOps(told, dying[..1]) == UnregisterIn(told, 1, []);
    assert RunOps(told, dying) == RegisterIn(UnregisterIn(told, 1, []), 2);
    assert FirstOf(s.slots, Some(1), 0) == 0;
    assert !OrderlyOp(told, Unregister(1, []), {0});
    OutsideKeepsLivesIff(s, Unregister(1, dying));
  }
}
