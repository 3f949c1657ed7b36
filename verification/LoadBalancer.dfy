/** Handing new connections to the workers in turn (apps/load_balancer/src/load_balancer_subsystem.c). */
module LoadBalancer {
  import opened Pipeline

  /** A full table: no slot is free and no process is in it twice. */
  ghost predicate Full(table: seq<int>)
  {
    && |table| >= 2
    && (forall i, j | 0 <= i < j < |table| :: table[i] != table[j])
  }

  /** The process chosen by the m-th call, counting from the master's own id. */
  function NidAfter(table: seq<int>, m: nat): (nid: int)
    requires |table| >= 2
    ensures nid in table
  {
    if m == 0 then table[0]
    else
      var last := NidAfter(table, m - 1);
      Found(table, last);
      table[NextWorkerSlot(|table|, IndexOf(table, last))]
  }

  class Balancer {
    const node: NodeTable
    var nid: int
    /** How many calls there were since the setup. */
    ghost var calls: nat

    ghost predicate Valid()
      reads this, node, node.nodes
    {
      node.nodes.Length >= 2 && nid == NidAfter(node.nodes[..], calls)
    }

    /** load_balancer_setup() in the master, once all workers are known. */
    constructor (node: NodeTable, pid: int)
      requires node.nodes.Length >= 2 && node.nodes[0] == pid
      ensures Valid() && this.node == node && calls == 0 && nid == pid
    {
      this.node := node;
      nid, calls := pid, 0;
    }

    /** load_balancer_next() */
    method Next() returns (chosen: int)
      requires Valid()
      modifies this
      ensures Valid() && calls == old(calls) + 1 && chosen == nid
      ensures chosen == NidAfter(node.nodes[..], calls)
    {
      nid := node.NextWorkerNid(nid);
      calls := calls + 1;
      return nid;
    }
  }

  // ---------------------------------------------------------------- fairness

  /** How often a process is chosen in the first m calls. */
  function Times(table: seq<int>, m: nat, nid: int): nat
    requires |table| >= 2
  {
    if m == 0 then 0 else Times(table, m - 1, nid) + if NidAfter(table, m) == nid then 1 else 0
  }

  /** The slot of the m-th choice, and how many times the last slot has been passed. */
  function Lap(n: nat, m: nat): (lap: (nat, nat))
    requires n >= 2
    ensures lap.0 < n && (m > 0 ==> lap.0 > 0)
  {
    if m == 0 then (0, 0)
    else
      var (slot, laps) := Lap(n, m - 1);
      (NextWorkerSlot(n, slot), if slot + 1 == n then laps + 1 else laps)
  }

  lemma {:induction false} ChosenSlot(table: seq<int>, m: nat)
    requires Full(table)
    ensures NidAfter(table, m) == table[Lap(|table|, m).0]
    ensures IndexOf(table, NidAfter(table, m)) == Lap(|table|, m).0
  {
    if m > 0 {
      ChosenSlot(table, m - 1);
    }
    var k := Lap(|table|, m).0;
    assert forall j | 0 <= j < k :: table[j] != table[k];
  }

  /** A worker has been chosen once in every full lap, and once more if the current lap has passed it. */
  lemma {:induction false} TimesByLap(table: seq<int>, m: nat, w: nat)
    requires Full(table) && 1 <= w < |table|
    ensures Times(table, m, table[w]) == Lap(|table|, m).1 + if w <= Lap(|table|, m).0 then 1 else 0
  {
    if m > 0 {
      TimesByLap(table, m - 1, w);
      ChosenSlot(table, m);
      var k := Lap(|table|, m).0;
      assert k != w ==> table[k] != table[w] by {
        assert k < w ==> table[k] != table[w];
        assert w < k ==> table[w] != table[k];
      }
    }
  }

  /** However many calls are made, each chooses a worker, and no worker gets more than one choice ahead of another. */
  lemma RoundRobinIsFair(table: seq<int>, m: nat, v: nat, w: nat)
    requires Full(table) && 1 <= v < |table| && 1 <= w < |table|
    ensures Times(table, m, table[v]) <= Times(table, m, table[w]) + 1
    ensures m > 0 ==> NidAfter(table, m) != table[0] && NidAfter(table, m) in table[1..]
    ensures Times(table, m, table[0]) == 0
  {
    TimesByLap(table, m, v);
    TimesByLap(table, m, w);
    NeverTheMaster(table, m);
    if m > 0 {
      ChosenSlot(table, m);
      assert table[1..][Lap(|table|, m).0 - 1] == NidAfter(table, m);
    }
  }

  lemma {:induction false} NeverTheMaster(table: seq<int>, m: nat)
    requires Full(table)
    ensures Times(table, m, table[0]) == 0
    ensures m > 0 ==> NidAfter(table, m) != table[0]
  {
    if m > 0 {
      NeverTheMaster(table, m - 1);
      ChosenSlot(table, m);
    }
  }
}
