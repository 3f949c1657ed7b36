/** The poll loop's table as a list of entries, and what each operation does to that list. */
module PollEntries {
  import opened Sequences

  datatype PollFd = PollFd(fd: int, events: int, revents: int)

  /** A function pointer and the data handed to it. */
  datatype Callback = Callback(onEvent: int, eventData: int)

  datatype Entry = Entry(poll: PollFd, cb: Callback)

  /** What a caller may ask for, from outside or from within a callback. */
  datatype Op = Register(fd: int, cb: Callback, events: int) | Unregister(fd: int)

  /** An entry whose requested events were set to 0 only waits to be removed. */
  predicate Live(e: Entry) { e.poll.events != 0 }

  function LiveOnly(es: seq<Entry>): (live: seq<Entry>)
    ensures |live| <= |es|
  {
    if |es| == 0 then [] else
      LiveOnly(es[..|es| - 1]) + if Live(es[|es| - 1]) then [es[|es| - 1]] else []
  }

  /** The first live entry of a descriptor, or the length of the table. */
  function FirstLive(es: seq<Entry>, fd: int): (i: nat)
    ensures i <= |es|
    ensures i < |es| ==> es[i].poll.fd == fd && Live(es[i])
    ensures forall k | 0 <= k < i :: !(es[k].poll.fd == fd && Live(es[k]))
  {
    if |es| == 0 then 0
    else if es[0].poll.fd == fd && Live(es[0]) then 0
    else 1 + FirstLive(es[1..], fd)
  }

  lemma FirstLiveIs(es: seq<Entry>, fd: int, i: nat)
    requires i <= |es|
    requires i < |es| ==> es[i].poll.fd == fd && Live(es[i])
    requires forall k | 0 <= k < i :: !(es[k].poll.fd == fd && Live(es[k]))
    ensures FirstLive(es, fd) == i
  {
  }

  function Registered(es: seq<Entry>, fd: int, cb: Callback, events: int): seq<Entry>
  {
    es + [Entry(PollFd(fd, events, 0), cb)]
  }

  function Killed(e: Entry): Entry { e.(poll := e.poll.(events := 0)) }

  function Unregistered(es: seq<Entry>, fd: int): (after: seq<Entry>)
    ensures |after| == |es|
  {
    var i := FirstLive(es, fd);
    if i < |es| then es[i := Killed(es[i])] else es
  }

  function RunOp(es: seq<Entry>, op: Op): (after: seq<Entry>)
    ensures |after| >= |es|
  {
    match op
    case Register(fd, cb, events) => Registered(es, fd, cb, events)
    case Unregister(fd) => Unregistered(es, fd)
  }

  function RunOps(es: seq<Entry>, ops: seq<Op>): (after: seq<Entry>)
    ensures |after| >= |es|
  {
    if |ops| == 0 then es else RunOp(RunOps(es, ops[..|ops| - 1]), ops[|ops| - 1])
  }

  function Registers(ops: seq<Op>): nat
  {
    if |ops| == 0 then 0 else Registers(ops[..|ops| - 1]) + if ops[|ops| - 1].Register? then 1 else 0
  }

  lemma {:induction false} LiveOnlyAppend(a: seq<Entry>, b: seq<Entry>)
    ensures LiveOnly(a + b) == LiveOnly(a) + LiveOnly(b)
  {
    if |b| == 0 {
      assert a + b == a;
    } else {
      var front, last := b[..|b| - 1], b[|b| - 1];
      assert (a + b)[..|a + b| - 1] == a + front && (a + b)[|a + b| - 1] == last;
      LiveOnlyAppend(a, front);
      Associative(LiveOnly(a), LiveOnly(front), if Live(last) then [last] else []);
    }
  }

  lemma LiveOnlyOne(e: Entry)
    ensures LiveOnly([e]) == if Live(e) then [e] else []
  {
    assert LiveOnly([e]) == LiveOnly([e][..0]) + if Live(e) then [e] else [];
  }

  // ---------------------------------------------------------------- compaction

  /** The table without the dead entries at its end. */
  function Trimmed(es: seq<Entry>): (t: seq<Entry>)
    ensures |t| <= |es|
  {
    if |es| > 0 && !Live(es[|es| - 1]) then Trimmed(es[..|es| - 1]) else es
  }

  /** A dead entry is overwritten with the last one, which leaves its old place. */
  function Filled(es: seq<Entry>, i: nat): seq<Entry>
    requires i < |es| - 1
  {
    Trimmed(es[..|es| - 1][i := es[|es| - 1]])
  }

  /** Going on with the compaction from slot i. */
  function CompactedFrom(es: seq<Entry>, i: nat): seq<Entry>
    decreases |es| - i
  {
    if i >= |es| - 1 then es
    else if Live(es[i]) then CompactedFrom(es, i + 1)
    else CompactedFrom(Filled(es, i), i + 1)
  }

  function Compacted(es: seq<Entry>): seq<Entry> { CompactedFrom(Trimmed(es), 0) }

  lemma {:induction false} TrimmedKeepsLive(es: seq<Entry>)
    ensures LiveOnly(Trimmed(es)) == LiveOnly(es)
  {
    if |es| > 0 && !Live(es[|es| - 1]) {
      TrimmedKeepsLive(es[..|es| - 1]);
    }
  }

  lemma {:induction false} TrimmedIsPrefix(es: seq<Entry>)
    ensures forall k | 0 <= k < |Trimmed(es)| :: Trimmed(es)[k] == es[k]
    ensures forall k | |Trimmed(es)| <= k < |es| :: !Live(es[k])
    ensures Trimmed(es) == [] || Live(Trimmed(es)[|Trimmed(es)| - 1])
  {
    if |es| > 0 && !Live(es[|es| - 1]) {
      TrimmedIsPrefix(es[..|es| - 1]);
    }
  }

  /** Overwriting a dead entry with the last one and dropping the last keeps the live entries. */
  lemma MoveLast(es: seq<Entry>, i: nat)
    requires i < |es| - 1 && !Live(es[i])
    ensures multiset(LiveOnly(es[..|es| - 1][i := es[|es| - 1]])) == multiset(LiveOnly(es))
  {
    var n := |es| - 1;
    var a, d, b, x := es[..i], [es[i]], es[i + 1..n], [es[n]];
    LiveOnlyOne(es[i]);
    assert es[..n][i := es[n]] == a + x + b;
    assert es == a + d + b + x;
    LiveOnlyThree(a, x, b);
    LiveOnlyThree(a, d, b);
    LiveOnlyAppend(a + d + b, x);
  }

  lemma FilledKeepsMultiset(es: seq<Entry>, i: nat)
    requires i < |es| - 1 && !Live(es[i])
    ensures multiset(LiveOnly(Filled(es, i))) == multiset(LiveOnly(es))
  {
    MoveLast(es, i);
    TrimmedKeepsLive(es[..|es| - 1][i := es[|es| - 1]]);
  }

  /** Filling a hole keeps the live entries and leaves the slots up to it live. */
  lemma FilledKeepsLive(es: seq<Entry>, i: nat)
    requires i < |es| - 1 && !Live(es[i]) && Live(es[|es| - 1]) && LiveBelow(es, i)
    ensures multiset(LiveOnly(Filled(es, i))) == multiset(LiveOnly(es))
    ensures Filled(es, i) != [] && Live(Filled(es, i)[|Filled(es, i)| - 1]) && LiveBelow(Filled(es, i), i + 1)
  {
    FilledKeepsMultiset(es, i);
    var moved := es[..|es| - 1][i := es[|es| - 1]];
    assert moved[i] == es[|es| - 1];
    assert LiveBelow(moved, i + 1);
    TrimmedIsPrefix(moved);
  }

  lemma LiveOnlyThree(a: seq<Entry>, b: seq<Entry>, c: seq<Entry>)
    ensures multiset(LiveOnly(a + b + c)) == multiset(LiveOnly(a)) + multiset(LiveOnly(b)) + multiset(LiveOnly(c))
  {
    LiveOnlyAppend(a, b);
    LiveOnlyAppend(a + b, c);
  }

  /** Compaction keeps exactly the live entries, each with its own callback, and nothing dead. */
  lemma CompactedKeepsLive(es: seq<Entry>)
    ensures multiset(Compacted(es)) == multiset(LiveOnly(es))
    ensures forall k | 0 <= k < |Compacted(es)| :: Live(Compacted(es)[k])
    ensures |Compacted(es)| == |LiveOnly(es)|
  {
    TrimmedKeepsLive(es);
    TrimmedIsPrefix(es);
    CompactedFromKeepsLive(Trimmed(es), 0);
    AllLive(Compacted(es));
    assert |multiset(Compacted(es))| == |Compacted(es)|;
  }

  /** Live entries are kept, and all that is left is live. */
  ghost predicate OnlyLiveKept(es: seq<Entry>, after: seq<Entry>)
  {
    multiset(LiveOnly(after)) == multiset(LiveOnly(es)) && LiveBelow(after, |after|)
  }

  ghost predicate EndsLive(es: seq<Entry>) { es == [] || Live(es[|es| - 1]) }

  lemma {:induction false} CompactedFromKeepsLive(es: seq<Entry>, i: nat)
    requires EndsLive(es) && LiveBelow(es, i)
    ensures OnlyLiveKept(es, CompactedFrom(es, i))
    decreases |es| - i
  {
    if i < |es| - 1 {
      var next := NextTable(es, i);
      NextKeepsLive(es, i);
      CompactedFromKeepsLive(next, i + 1);
      KeptTwice(es, next, CompactedFrom(next, i + 1));
    } else {
      NothingToCompact(es, i);
    }
  }

  function NextTable(es: seq<Entry>, i: nat): seq<Entry>
    requires i < |es| - 1
  {
    if Live(es[i]) then es else Filled(es, i)
  }

  lemma NothingToCompact(es: seq<Entry>, i: nat)
    requires EndsLive(es) && LiveBelow(es, i) && i >= |es| - 1
    ensures CompactedFrom(es, i) == es && OnlyLiveKept(es, es)
  {
  }

  lemma KeptTwice(es: seq<Entry>, next: seq<Entry>, after: seq<Entry>)
    requires multiset(LiveOnly(next)) == multiset(LiveOnly(es)) && OnlyLiveKept(next, after)
    ensures OnlyLiveKept(es, after)
  {
  }

  lemma NextKeepsLive(es: seq<Entry>, i: nat)
    requires i < |es| - 1 && EndsLive(es) && LiveBelow(es, i)
    ensures var next := NextTable(es, i);
      && |next| <= |es| && EndsLive(next) && LiveBelow(next, i + 1)
      && multiset(LiveOnly(next)) == multiset(LiveOnly(es)) && CompactedFrom(es, i) == CompactedFrom(next, i + 1)
  {
    if !Live(es[i]) {
      FilledKeepsLive(es, i);
    }
  }

  lemma {:induction false} LiveOnlyMembers(es: seq<Entry>, e: Entry)
    ensures e in LiveOnly(es) <==> e in es && Live(e)
  {
    if |es| > 0 {
      LiveOnlyMembers(es[..|es| - 1], e);
      assert es == es[..|es| - 1] + [es[|es| - 1]];
    }
  }

  /** The first i entries, as far as there are so many, are live. */
  ghost predicate LiveBelow(es: seq<Entry>, i: nat) { forall k | 0 <= k < i && k < |es| :: Live(es[k]) }

  lemma {:induction false} AllLive(es: seq<Entry>)
    requires LiveBelow(es, |es|)
    ensures LiveOnly(es) == es
  {
    if |es| > 0 {
      AllLive(es[..|es| - 1]);
    }
  }

  // ---------------------------------------------------------------- dispatch

  /** One callback invocation: the slot it came from and what it was given. */
  datatype Call = Call(index: nat, fd: int, revents: int, cb: Callback)

  predicate Ready(e: Entry) { Live(e) && e.poll.revents != 0 }

  /** What poll() returns: the number of entries it reported something for. */
  function CountReported(es: seq<Entry>): nat
  {
    if |es| == 0 then 0 else (if es[0].poll.revents != 0 then 1 else 0) + CountReported(es[1..])
  }

  /** The table with what poll() saw on each descriptor. */
  function Reported(es: seq<Entry>, happened: seq<int>): (after: seq<Entry>)
    requires |happened| == |es|
    ensures |after| == |es|
  {
    seq(|es|, i requires 0 <= i < |es| => es[i].(poll := es[i].poll.(revents := happened[i])))
  }

  /** What the k-th callback of a step does. */
  function ScriptAt(script: seq<seq<Op>>, k: nat): seq<Op> { if k < |script| then script[k] else [] }

  /** The table after the first k callbacks. */
  function TableAfter(es: seq<Entry>, script: seq<seq<Op>>, k: nat): (after: seq<Entry>)
    ensures |after| >= |es|
  {
    if k == 0 then es else RunOps(TableAfter(es, script, k - 1), ScriptAt(script, k - 1))
  }

  /** How many registrations the callbacks from the k-th on make. */
  function RegistersFrom(script: seq<seq<Op>>, k: nat): nat
    decreases |script| - k
  {
    if k >= |script| then 0 else Registers(script[k]) + RegistersFrom(script, k + 1)
  }

  /** How many of the calls came from slots below i. */
  function CallsBelow(calls: seq<Call>, i: nat): (n: nat)
    ensures n <= |calls|
  {
    if |calls| == 0 then 0
    else CallsBelow(calls[..|calls| - 1], i) + if calls[|calls| - 1].index < i then 1 else 0
  }

  /** The calls one step may make on table es when its callbacks follow the script, looking at slots below the bound.
      Only slots that were ready when the step began are called, in slot order and so at most once each,
      with what the table held for them. A slot ready at the beginning is passed over
      exactly when the callbacks called before its turn unregistered it. */
  ghost predicate DispatchedBelow(es: seq<Entry>, script: seq<seq<Op>>, calls: seq<Call>, bound: nat)
  {
    InSlotOrder(calls, bound) && AllFit(es, script, calls) && SkipsExplained(es, script, calls, bound)
  }

  ghost predicate InSlotOrder(calls: seq<Call>, bound: nat)
  {
    && (forall k | 0 <= k < |calls| :: calls[k].index < bound)
    && (forall j, k | 0 <= j < k < |calls| :: calls[j].index < calls[k].index)
  }

  ghost predicate AllFit(es: seq<Entry>, script: seq<seq<Op>>, calls: seq<Call>)
  {
    forall k | 0 <= k < |calls| :: CallFits(es, script, k, calls[k])
  }

  ghost predicate SkipsExplained(es: seq<Entry>, script: seq<seq<Op>>, calls: seq<Call>, bound: nat)
  {
    forall i | 0 <= i < |es| && i < bound && Ready(es[i]) && !CallsSlot(calls, i) :: PassedOver(es, script, calls, i)
  }

  ghost predicate Dispatched(es: seq<Entry>, script: seq<seq<Op>>, calls: seq<Call>)
  {
    DispatchedBelow(es, script, calls, |es|)
  }

  /** The k-th call is for a slot that was ready at the beginning and is still live when its turn comes. */
  ghost predicate CallFits(es: seq<Entry>, script: seq<seq<Op>>, k: nat, c: Call)
  {
    && c.index < |es| && Ready(es[c.index]) && Live(TableAfter(es, script, k)[c.index])
    && c == Call(c.index, es[c.index].poll.fd, es[c.index].poll.revents, es[c.index].cb)
  }

  ghost predicate PassedOver(es: seq<Entry>, script: seq<seq<Op>>, calls: seq<Call>, i: nat)
    requires i < |es|
  {
    !Live(TableAfter(es, script, CallsBelow(calls, i))[i])
  }

  ghost predicate CallsSlot(calls: seq<Call>, i: nat)
  {
    exists k :: 0 <= k < |calls| && calls[k].index == i
  }

  lemma {:induction false} AllCallsBelow(calls: seq<Call>, i: nat)
    requires forall k | 0 <= k < |calls| :: calls[k].index < i
    ensures CallsBelow(calls, i) == |calls|
  {
    if |calls| > 0 {
      AllCallsBelow(calls[..|calls| - 1], i);
    }
  }

  /** The next slot is called. */
  lemma CallExtends(es: seq<Entry>, script: seq<seq<Op>>, calls: seq<Call>, i: nat, c: Call)
    requires DispatchedBelow(es, script, calls, i) && c.index == i && CallFits(es, script, |calls|, c)
    ensures DispatchedBelow(es, script, calls + [c], i + 1)
  {
    assert InSlotOrder(calls + [c], i + 1) && AllFit(es, script, calls + [c]);
    forall j | 0 <= j < |es| && j < i + 1 && Ready(es[j]) && !CallsSlot(calls + [c], j)
      ensures PassedOver(es, script, calls + [c], j)
    {
      NotCalledBefore(calls, c, j);
      assert PassedOver(es, script, calls, j);
    }
  }

  lemma NotCalledBefore(calls: seq<Call>, c: Call, j: nat)
    requires !CallsSlot(calls + [c], j) && j <= c.index
    ensures j < c.index && !CallsSlot(calls, j) && CallsBelow(calls + [c], j) == CallsBelow(calls, j)
  {
    var more := calls + [c];
    assert more[|calls|] == c && more[..|calls|] == calls;
    assert forall k | 0 <= k < |calls| :: more[k] == calls[k];
  }

  /** The next slot is passed over: it was not ready, or it no longer is. */
  lemma SkipExtends(es: seq<Entry>, script: seq<seq<Op>>, calls: seq<Call>, i: nat)
    requires DispatchedBelow(es, script, calls, i)
    requires i < |es| && Ready(es[i]) ==> !Live(TableAfter(es, script, |calls|)[i])
    ensures DispatchedBelow(es, script, calls, i + 1)
  {
    assert InSlotOrder(calls, i + 1);
    forall j | 0 <= j < |es| && j < i + 1 && Ready(es[j]) && !CallsSlot(calls, j)
      ensures PassedOver(es, script, calls, j)
    {
      if j == i {
        AllCallsBelow(calls, i);
      } else {
        assert PassedOver(es, script, calls, j);
      }
    }
  }

  /** Nothing reported behind slot i means nothing left to call. */
  lemma {:induction false} NothingReported(es: seq<Entry>, i: nat)
    requires i <= |es| && CountReported(es[i..]) == 0
    ensures forall j | i <= j < |es| :: es[j].poll.revents == 0
    decreases |es| - i
  {
    if i < |es| {
      assert es[i..][1..] == es[i + 1..];
      NothingReported(es, i + 1);
    }
  }

  /** The loop ends when the table is exhausted or when everything that was reported has been found. */
  lemma DispatchEnds(es: seq<Entry>, script: seq<seq<Op>>, calls: seq<Call>, i: nat, left: nat, size: nat)
    requires DispatchedBelow(es, script, calls, i) && |es| <= size && (i < size ==> left == 0)
    requires i < |es| ==> left >= CountReported(es[i..])
    ensures Dispatched(es, script, calls)
  {
    if i < |es| {
      NothingReported(es, i);
    }
  }

  /** What event_loop_step() of the plain loop makes of its table. */
  ghost predicate StepOf(es: seq<Entry>, after: seq<Entry>, happened: seq<int>, script: seq<seq<Op>>, calls: seq<Call>)
  {
    && |happened| == |es| && Dispatched(Reported(es, happened), script, calls)
    && after == if CountReported(Reported(es, happened)) == 0 then Reported(es, happened)
                else Compacted(TableAfter(Reported(es, happened), script, |calls|))
  }

  /** What a dispatch does for one slot, read off the two words of its entry. A call is made only if something is asked
      for and something was reported, and it gets what the entry holds; if none is made although both are the case, then
      the callbacks called before the slot's turn have switched the entry off. */
  lemma DispatchMeans(es: seq<Entry>, script: seq<seq<Op>>, calls: seq<Call>, i: nat)
    requires Dispatched(es, script, calls) && i < |es|
    ensures forall k | 0 <= k < |calls| && calls[k].index == i ::
      && es[i].poll.events != 0 && es[i].poll.revents != 0 && TableAfter(es, script, k)[i].poll.events != 0
      && calls[k] == Call(i, es[i].poll.fd, es[i].poll.revents, es[i].cb)
    ensures forall j, k | 0 <= j < k < |calls| :: calls[j].index < calls[k].index
    ensures es[i].poll.events != 0 && es[i].poll.revents != 0 && !CallsSlot(calls, i) ==>
      TableAfter(es, script, CallsBelow(calls, i))[i].poll.events == 0
  {
    forall k | 0 <= k < |calls| && calls[k].index == i
      ensures es[i].poll.events != 0 && es[i].poll.revents != 0 && TableAfter(es, script, k)[i].poll.events != 0
      ensures calls[k] == Call(i, es[i].poll.fd, es[i].poll.revents, es[i].cb)
    {
      assert CallFits(es, script, k, calls[k]);
    }
    if es[i].poll.events != 0 && es[i].poll.revents != 0 && !CallsSlot(calls, i) {
      assert PassedOver(es, script, calls, i);
    }
  }

  predicate OnlyRegisters(script: seq<seq<Op>>)
  {
    forall k, j | 0 <= k < |script| && 0 <= j < |script[k]| :: script[k][j].Register?
  }

  lemma {:induction false} RegistersKeepEntries(es: seq<Entry>, ops: seq<Op>)
    requires forall j | 0 <= j < |ops| :: ops[j].Register?
    ensures es <= RunOps(es, ops)
  {
    if |ops| > 0 {
      RegistersKeepEntries(es, ops[..|ops| - 1]);
    }
  }

  lemma {:induction false} RegisteringKeepsEntries(es: seq<Entry>, script: seq<seq<Op>>, k: nat)
    requires OnlyRegisters(script)
    ensures es <= TableAfter(es, script, k)
  {
    if k > 0 {
      RegisteringKeepsEntries(es, script, k - 1);
      RegistersKeepEntries(TableAfter(es, script, k - 1), ScriptAt(script, k - 1));
    }
  }

  /** The calls are those of the entries that ask for something and have something reported, in table order. */
  ghost predicate CallsAllReported(es: seq<Entry>, happened: seq<int>, calls: seq<Call>)
    requires |happened| == |es|
  {
    && (forall i | 0 <= i < |es| :: CallsSlot(calls, i) <==> es[i].poll.events != 0 && happened[i] != 0)
    && (forall c | c in calls ::
          c.index < |es| && c == Call(c.index, es[c.index].poll.fd, happened[c.index], es[c.index].cb))
    && (forall j, k | 0 <= j < k < |calls| :: calls[j].index < calls[k].index)
  }

  /** While nobody unregisters anything, all reported entries are called, each once and with what was reported. */
  lemma QuietDispatchCallsAll(es: seq<Entry>, happened: seq<int>, script: seq<seq<Op>>, calls: seq<Call>)
    requires |happened| == |es| && Dispatched(Reported(es, happened), script, calls) && OnlyRegisters(script)
    ensures CallsAllReported(es, happened, calls)
  {
    var seen := Reported(es, happened);
    forall i: nat | i < |es|
      ensures CallsSlot(calls, i) <==> es[i].poll.events != 0 && happened[i] != 0
    {
      DispatchMeans(seen, script, calls, i);
      RegisteringKeepsEntries(seen, script, CallsBelow(calls, i));
      assert TableAfter(seen, script, CallsBelow(calls, i))[i] == seen[i];
    }
    forall c | c in calls
      ensures c.index < |es| && c == Call(c.index, es[c.index].poll.fd, happened[c.index], es[c.index].cb)
    {
      var k :| 0 <= k < |calls| && calls[k] == c;
      assert CallFits(seen, script, k, calls[k]);
    }
  }

  lemma QuietStepCallsAll(es: seq<Entry>, after: seq<Entry>, happened: seq<int>, script: seq<seq<Op>>, calls: seq<Call>)
    requires StepOf(es, after, happened, script, calls) && OnlyRegisters(script)
    ensures CallsAllReported(es, happened, calls)
  {
    QuietDispatchCallsAll(es, happened, script, calls);
  }

  /** The calls of a step are determined by the table and what the callbacks do. */
  lemma {:induction false} DispatchedOnlyOneWay(es: seq<Entry>, script: seq<seq<Op>>, a: seq<Call>, b: seq<Call>,
                                                n: nat)
    requires Dispatched(es, script, a) && Dispatched(es, script, b) && n <= |a|
    ensures n <= |b| && a[..n] == b[..n]
  {
    if n > 0 {
      DispatchedOnlyOneWay(es, script, a, b, n - 1);
      SameNext(es, script, a, b, n - 1);
      TakeSnoc(a, n - 1);
      TakeSnoc(b, n - 1);
    }
  }

  /** Slots called at position k of either list: the lower one cannot have been passed over by the other list. */
  lemma SameNext(es: seq<Entry>, script: seq<seq<Op>>, a: seq<Call>, b: seq<Call>, k: nat)
    requires Dispatched(es, script, a) && Dispatched(es, script, b)
    requires k < |a| && k <= |b| && a[..k] == b[..k]
    ensures k < |b| && a[k] == b[k]
  {
    NotPassedOver(es, script, a, b, k);
    if k < |b| {
      NotPassedOver(es, script, b, a, k);
    }
  }

  lemma NotPassedOver(es: seq<Entry>, script: seq<seq<Op>>, a: seq<Call>, b: seq<Call>, k: nat)
    requires Dispatched(es, script, a) && Dispatched(es, script, b)
    requires k < |a| && k <= |b| && a[..k] == b[..k]
    ensures k < |b| && b[k].index <= a[k].index
  {
    var i := a[k].index;
    assert CallFits(es, script, k, a[k]);
    forall j | 0 <= j < k
      ensures b[j].index < i
    {
      assert b[..k][j] == a[..k][j];
    }
    if k == |b| || i < b[k].index {
      forall j | 0 <= j < |b|
        ensures b[j].index != i
      {
      }
      assert !CallsSlot(b, i);
      assert PassedOver(es, script, b, i);
      CallsBelowPrefix(b, k, i);
    }
  }

  lemma {:induction false} CallsBelowPrefix(calls: seq<Call>, k: nat, i: nat)
    requires k <= |calls|
    requires forall j | 0 <= j < k :: calls[j].index < i
    requires forall j | k <= j < |calls| :: calls[j].index >= i
    ensures CallsBelow(calls, i) == k
  {
    if k < |calls| {
      CallsBelowPrefix(calls[..|calls| - 1], k, i);
    } else {
      AllCallsBelow(calls, i);
    }
  }

  /** Slots never move during a step; an operation can only switch a slot's events off. */
  lemma OpKeepsSlots(es: seq<Entry>, op: Op)
    ensures forall i | 0 <= i < |es| :: RunOp(es, op)[i] == es[i] || RunOp(es, op)[i] == Killed(es[i])
    ensures forall i | |es| <= i < |RunOp(es, op)| :: RunOp(es, op)[i].poll.revents == 0
  {
  }

  ghost predicate SlotsKept(before: seq<Entry>, after: seq<Entry>)
  {
    && |before| <= |after|
    && (forall i | 0 <= i < |before| :: after[i] == before[i] || after[i] == Killed(before[i]))
    && (forall i | |before| <= i < |after| :: after[i].poll.revents == 0)
  }

  lemma {:induction false} OpsKeepSlots(es: seq<Entry>, ops: seq<Op>)
    ensures SlotsKept(es, RunOps(es, ops))
  {
    if |ops| > 0 {
      OpsKeepSlots(es, ops[..|ops| - 1]);
      OpKeepsSlots(RunOps(es, ops[..|ops| - 1]), ops[|ops| - 1]);
    }
  }

  lemma TableGrows(es: seq<Entry>, script: seq<seq<Op>>, k: nat)
    requires SlotsKept(es, TableAfter(es, script, k))
    ensures SlotsKept(es, TableAfter(es, script, k + 1))
  {
    var table, ops := TableAfter(es, script, k), ScriptAt(script, k);
    OpsKeepSlots(table, ops);
    SlotsKeptTwice(es, table, RunOps(table, ops));
  }

  lemma SlotsKeptTwice(a: seq<Entry>, b: seq<Entry>, c: seq<Entry>)
    requires SlotsKept(a, b) && SlotsKept(b, c)
    ensures SlotsKept(a, c)
  {
  }
}
