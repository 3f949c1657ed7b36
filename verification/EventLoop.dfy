/** The poll event loop (base/src/event_loop_poll.c). */
module EventLoop {
  import opened Sequences
  import opened PollEntries

  class PollTable {
    const fds: array<PollFd>
    const cbs: array<Callback>
    var nfds: nat

    ghost predicate Valid()
      reads this
    {
      fds.Length == cbs.Length && nfds <= fds.Length
    }

    ghost function EntriesTo(n: nat): (es: seq<Entry>)
      requires n <= fds.Length == cbs.Length
      reads fds, cbs
      ensures |es| == n
    {
      seq(n, k requires 0 <= k < n reads fds, cbs => Entry(fds[k], cbs[k]))
    }

    ghost function Entries(): seq<Entry>
      requires Valid()
      reads this, fds, cbs
    {
      EntriesTo(nfds)
    }

    constructor (capacity: nat)
      ensures Valid() && fresh(fds) && fresh(cbs) && fds.Length == capacity && Entries() == []
    {
      fds := new PollFd[capacity](_ => PollFd(0, 0, 0));
      cbs := new Callback[capacity](_ => Callback(0, 0));
      nfds := 0;
    }

    method RegisterFd(fd: int, cb: Callback, requestedEvents: int)
      requires Valid() && nfds < fds.Length
      modifies this`nfds, fds, cbs
      ensures Valid() && nfds == old(nfds) + 1
      ensures Entries() == Registered(old(Entries()), fd, cb, requestedEvents)
    {
      fds[nfds] := PollFd(fd, requestedEvents, 0);
      cbs[nfds] := cb;
      nfds := nfds + 1;
    }

    /** Lazy: the entry stays where it is with its events switched off. */
    method UnregisterFd(fd: int)
      requires Valid()
      modifies fds
      ensures Valid() && nfds == old(nfds)
      ensures Entries() == Unregistered(old(Entries()), fd)
    {
      ghost var before := Entries();
      var i := 0;
      while i < nfds
        invariant 0 <= i <= nfds && Entries() == before
        invariant forall k | 0 <= k < i :: !(before[k].poll.fd == fd && Live(before[k]))
      {
        if fds[i].fd == fd && fds[i].events != 0 {
          FirstLiveIs(before, fd, i);
          fds[i] := fds[i].(events := 0);
          assert Entries() == before[i := Killed(before[i])];
          return;
        }
        i := i + 1;
      }
      FirstLiveIs(before, fd, nfds);
    }

    /** Compaction in place: dead entries at the end are cut off, those before it are overwritten with the last one. */
    method BatchUnregister()
      requires Valid()
      modifies this`nfds, fds, cbs
      ensures Valid() && nfds <= old(nfds)
      ensures Entries() == Compacted(old(Entries()))
    {
      ghost var es := Trimmed(Entries());
      TrimmedIsPrefix(Entries());
      var last := TrimLast(nfds - 1, Entries());
      var i := 0;
      while i < last
        invariant 0 <= i && -1 <= last < nfds && nfds == old(nfds)
        invariant |es| == last + 1 && Mirrors(es)
        invariant CompactedFrom(es, i) == Compacted(old(Entries()))
        decreases last - i
      {
        if fds[i].events == 0 {
          last := FillHole(i, last, es);
          es := Filled(es, i);
        }
        i := i + 1;
      }
      nfds := last + 1;
      assert Entries() == es;
    }

    /** The dead entry i is overwritten with the last one, and dead entries before that are cut off. */
    method FillHole(i: nat, last: nat, ghost es: seq<Entry>) returns (newLast: int)
      requires Valid() && i < last < nfds && |es| == last + 1 && Mirrors(es)
      modifies fds, cbs
      ensures Valid() && Mirrors(Filled(es, i)) && newLast == |Filled(es, i)| - 1 < last
    {
      ghost var moved := es[..last][i := es[last]];
      TrimmedIsPrefix(moved);
      fds[i] := fds[last];
      cbs[i] := cbs[last];
      newLast := TrimLast(last - 1, moved);
    }

    /** es lists the first slots of the two arrays. */
    ghost predicate Mirrors(es: seq<Entry>)
      requires Valid()
      reads this, fds, cbs
    {
      |es| <= nfds && forall k | 0 <= k < |es| :: es[k] == Entry(fds[k], cbs[k])
    }

    /** The inner loop that steps back over dead entries. */
    method TrimLast(from: int, ghost es: seq<Entry>) returns (last: int)
      requires Valid() && -1 <= from < nfds && |es| == from + 1 && Mirrors(es)
      ensures last == |Trimmed(es)| - 1
    {
      last := from;
      ghost var left := es;
      while last >= 0 && fds[last].events == 0
        invariant -1 <= last <= from && left == es[..last + 1]
        invariant Trimmed(left) == Trimmed(es)
      {
        left := left[..last];
        last := last - 1;
      }
    }

    /** A callback registers and unregisters descriptors as it likes. */
    method RunCallback(ops: seq<Op>)
      requires Valid() && nfds + Registers(ops) <= fds.Length
      modifies this`nfds, fds, cbs
      ensures Valid() && nfds == old(nfds) + Registers(ops)
      ensures Entries() == RunOps(old(Entries()), ops)
    {
      var k := 0;
      while k < |ops|
        invariant 0 <= k <= |ops| && Valid()
        invariant nfds == old(nfds) + Registers(ops[..k])
        invariant Entries() == RunOps(old(Entries()), ops[..k])
      {
        assert ops[..k + 1][..k] == ops[..k];
        RegistersGrow(ops, k + 1);
        match ops[k] {
          case Register(fd, cb, events) => RegisterFd(fd, cb, events);
          case Unregister(fd) => UnregisterFd(fd);
        }
        k := k + 1;
      }
      assert ops[..k] == ops;
    }

    /** One callback invocation and everything it does to the table. */
    method CallSlot(i: nat, script: seq<seq<Op>>, calls: seq<Call>, ghost es: seq<Entry>) returns (more: seq<Call>)
      requires Valid() && i < nfds && Ready(Entries()[i])
      requires Entries() == TableAfter(es, script, |calls|) && SlotsKept(es, Entries())
      requires nfds + RegistersFrom(script, |calls|) <= fds.Length
      requires DispatchedBelow(es, script, calls, i)
      modifies this`nfds, fds, cbs
      ensures Valid() && nfds + RegistersFrom(script, |more|) <= fds.Length
      ensures |more| == |calls| + 1 && DispatchedBelow(es, script, more, i + 1)
      ensures Entries() == TableAfter(es, script, |more|)
    {
      var c := Call(i, fds[i].fd, fds[i].revents, cbs[i]);
      assert CallFits(es, script, |calls|, c);
      CallExtends(es, script, calls, i, c);
      RunCallback(ScriptAt(script, |calls|));
      more := calls + [c];
    }

    /** The dispatch loop: callbacks may change the table while it is walked, as the script says of each of them. */
    method StepHelper(count: nat, script: seq<seq<Op>>) returns (calls: seq<Call>)
      requires Valid() && count == CountReported(Entries())
      requires nfds + RegistersFrom(script, 0) <= fds.Length
      modifies this`nfds, fds, cbs
      ensures Valid() && Dispatched(old(Entries()), script, calls)
      ensures Entries() == Compacted(TableAfter(old(Entries()), script, |calls|))
    {
      ghost var es := Entries();
      var i, left: nat := 0, count;
      calls := [];
      assert es[0..] == es;
      while i < nfds && left > 0
        invariant Valid() && 0 <= i && Entries() == TableAfter(es, script, |calls|)
        invariant nfds + RegistersFrom(script, |calls|) <= fds.Length
        invariant SlotsKept(es, Entries())
        invariant DispatchedBelow(es, script, calls, i)
        invariant i < |es| ==> left >= CountReported(es[i..])
        decreases if i < |es| then |es| - i else 0, nfds - i
      {
        if fds[i].events == 0 || fds[i].revents == 0 {
          SkipExtends(es, script, calls, i);
        } else {
          left := left - 1;
          ghost var before := calls;
          calls := CallSlot(i, script, calls, es);
          TableGrows(es, script, |before|);
        }
        if i < |es| {
          DropHead(es, i);
        }
        i := i + 1;
      }
      DispatchEnds(es, script, calls, i, left, nfds);
      BatchUnregister();
    }

    /** poll() fills in what happened on each descriptor and counts the descriptors it reported on. */
    method Poll(happened: seq<int>) returns (count: nat)
      requires Valid() && |happened| == nfds
      modifies fds
      ensures Valid() && nfds == old(nfds) && Entries() == Reported(old(Entries()), happened)
      ensures count == CountReported(Entries())
    {
      forall i | 0 <= i < nfds {
        fds[i] := fds[i].(revents := happened[i]);
      }
      assert Entries() == Reported(old(Entries()), happened);
      count := 0;
      var i := nfds;
      assert Entries()[nfds..] == [];
      while i > 0
        invariant 0 <= i <= nfds && Entries() == Reported(old(Entries()), happened)
        invariant count == CountReported(Entries()[i..])
      {
        i := i - 1;
        DropHead(Entries(), i);
        if fds[i].revents != 0 {
          count := count + 1;
        }
      }
      assert Entries()[0..] == Entries();
    }

    /** One turn of the loop. */
    method Step(happened: seq<int>, script: seq<seq<Op>>) returns (calls: seq<Call>)
      requires Valid() && |happened| == nfds
      requires nfds + RegistersFrom(script, 0) <= fds.Length
      modifies this`nfds, fds, cbs
      ensures Valid() && StepOf(old(Entries()), Entries(), happened, script, calls)
    {
      calls := [];
      if nfds == 0 {
        return;
      }
      var count := Poll(happened);
      if count == 0 {
        NothingReported(Entries(), 0);
        assert Entries()[0..] == Entries();
        return;
      }
      calls := StepHelper(count, script);
    }
  }

  lemma {:induction false} RegistersGrow(ops: seq<Op>, k: nat)
    requires k <= |ops|
    ensures Registers(ops[..k]) <= Registers(ops)
    decreases |ops| - k
  {
    if k < |ops| {
      assert ops[..k + 1][..k] == ops[..k];
      RegistersGrow(ops, k + 1);
    } else {
      assert ops[..k] == ops;
    }
  }
}
