/** Plugins registered under a space and called in a chain (base/src/plugin.c). */
module PluginChains {
  import opened Bytes
  import opened Options
  import opened Sequences

  datatype Category = CallbackPlugin | BridgePlugin | CompositePlugin

  /** A plugin and the function or container behind it. */
  datatype Plugin = Plugin(category: Category, action: nat)

  type Contents = map<seq<byte>, seq<Plugin>>

  function PluginsIn(c: Contents, space: seq<byte>): seq<Plugin> { if space in c then c[space] else [] }

  /** composite_plug_helper() on a value: behind the others of its space. */
  function Plugged(c: Contents, space: seq<byte>, p: Plugin): Contents { c[space := PluginsIn(c, space) + [p]] }

  datatype Registration = Registration(space: seq<byte>, plugin: Plugin)

  function AllPlugged(c: Contents, rs: seq<Registration>): Contents
  {
    if |rs| == 0 then c
    else Plugged(AllPlugged(c, rs[..|rs| - 1]), rs[|rs| - 1].space, rs[|rs| - 1].plugin)
  }

  /** What the functions of a chain register while they are called: the k-th one called registers plugs(k). */
  type Plugs = nat -> seq<Registration>

  function PluggedBy(plugs: Plugs, k: nat): seq<Registration> { plugs(k) }

  /** What is registered after n functions of a call have been called. */
  function After(c: Contents, plugs: Plugs, n: nat): Contents
  {
    if n == 0 then c else AllPlugged(After(c, plugs, n - 1), PluggedBy(plugs, n - 1))
  }

  function SpaceAfter(c: Contents, plugs: Plugs, space: seq<byte>, n: nat): seq<Plugin>
  {
    PluginsIn(After(c, plugs, n), space)
  }

  /** After n functions the walk stops: there is no further plugin, or the next one is of another kind. */
  predicate Stops(c: Contents, plugs: Plugs, space: seq<byte>, category: Category, n: nat)
  {
    var ps := SpaceAfter(c, plugs, space, n);
    |ps| <= n || ps[n].category != category
  }

  /** The walk stops after n functions and not before. */
  ghost predicate StopsFirst(c: Contents, plugs: Plugs, space: seq<byte>, category: Category, n: nat)
  {
    Stops(c, plugs, space, category, n) && forall k: nat | k < n :: !Stops(c, plugs, space, category, k)
  }

  class Node {
    const plugin: Plugin
    const space: seq<byte>
    var next: Node?

    constructor (plugin: Plugin, space: seq<byte>)
      ensures this.plugin == plugin && this.space == space && next == null
    {
      this.plugin, this.space, this.next := plugin, space, null;
    }
  }

  ghost function At(nodes: seq<Node>, i: nat): Node? { if i < |nodes| then nodes[i] else null }

  /** These nodes are linked one to the next and the last to none, and no node is in the list twice. */
  ghost predicate Chain(nodes: seq<Node>)
    reads nodes
  {
    && |nodes| > 0
    && (forall i {:trigger nodes[i].next} | 0 <= i < |nodes| :: nodes[i].next == At(nodes, i + 1))
    && (forall i, j | 0 <= i < j < |nodes| :: nodes[i] != nodes[j])
  }

  ghost predicate OfSpace(nodes: seq<Node>, space: seq<byte>)
  {
    forall i | 0 <= i < |nodes| :: nodes[i].space == space
  }

  ghost predicate Within(nodes: seq<Node>, all: set<Node>)
  {
    forall i | 0 <= i < |nodes| :: nodes[i] in all
  }

  /** A chain whose last node has been made to point to a further one. */
  lemma Extended(nodes: seq<Node>, last: Node, all: set<Node>)
    requires |nodes| > 0 && Within(nodes, all) && last !in all && last.next == null
    requires forall i | 0 <= i < |nodes| - 1 :: nodes[i].next == At(nodes, i + 1)
    requires nodes[|nodes| - 1].next == last
    requires forall i, j | 0 <= i < j < |nodes| :: nodes[i] != nodes[j]
    ensures Chain(nodes + [last])
  {
  }

  ghost function PluginsOf(nodes: seq<Node>): (ps: seq<Plugin>)
    ensures |ps| == |nodes|
  {
    seq(|nodes|, i requires 0 <= i < |nodes| => nodes[i].plugin)
  }

  ghost function ValueOf(chains: map<seq<byte>, seq<Node>>): Contents
  {
    map s | s in chains :: PluginsOf(chains[s])
  }

  /** One chain is a node longer, or new. */
  ghost function Longer(chains: map<seq<byte>, seq<Node>>, plugin: Node): map<seq<byte>, seq<Node>>
  {
    chains[plugin.space := (if plugin.space in chains then chains[plugin.space] else []) + [plugin]]
  }

  lemma PlugValue(was: map<seq<byte>, seq<Node>>, chains: map<seq<byte>, seq<Node>>, plugin: Node)
    requires chains == Longer(was, plugin)
    ensures ValueOf(chains) == Plugged(ValueOf(was), plugin.space, plugin.plugin)
  {
    var before := if plugin.space in was then was[plugin.space] else [];
    assert PluginsOf(before + [plugin]) == PluginsOf(before) + [plugin.plugin];
    assert PluginsOf([]) == [];
  }

  /** No chain has lost or moved a node. */
  ghost predicate OnlyLonger(was: map<seq<byte>, seq<Node>>, chains: map<seq<byte>, seq<Node>>)
  {
    forall s | s in was :: s in chains && was[s] <= chains[s]
  }

  lemma LongerStill(a: map<seq<byte>, seq<Node>>, b: map<seq<byte>, seq<Node>>, c: map<seq<byte>, seq<Node>>)
    requires OnlyLonger(a, b) && OnlyLonger(b, c)
    ensures OnlyLonger(a, c)
  {
  }

  class Composite {
    var table: map<seq<byte>, Node>
    /** The chain hanging from each entry of the table. */
    ghost var chains: map<seq<byte>, seq<Node>>

    ghost var nodes: set<Node>

    /** Every chain is acyclic, starts at its entry, and holds nodes of its own space only, so chains share no node. */
    ghost predicate Valid()
      reads this, nodes
    {
      && chains.Keys == table.Keys
      && (forall s | s in chains :: OfSpace(chains[s], s) && Within(chains[s], nodes))
      && (forall s | s in chains :: Chain(chains[s]) && chains[s][0] == table[s])
    }

    ghost function Value(): Contents
      reads this
    {
      ValueOf(chains)
    }

    constructor ()
      ensures Valid() && Value() == map[] && nodes == {}
    {
      table := map[];
      chains := map[];
      nodes := {};
    }

    /** The loop that looks for the end of a chain. */
    method LastOf(space: seq<byte>) returns (root: Node)
      requires Valid() && space in table
      ensures root == chains[space][|chains[space]| - 1]
    {
      root := table[space];
      ghost var k := 0;
      while root.next != null
        invariant 0 <= k < |chains[space]| && root == chains[space][k]
        decreases |chains[space]| - k
      {
        assert chains[space][k].next == At(chains[space], k + 1);
        root := root.next;
        k := k + 1;
      }
    }

    /** A new node goes behind the last one of its chain; all other chains stay as they are. */
    method Link(root: Node, plugin: Node)
      requires Valid() && plugin.space in table && root == chains[plugin.space][|chains[plugin.space]| - 1]
      requires root in nodes && plugin !in nodes && plugin.next == null
      modifies this`chains, this`nodes, root
      ensures Valid() && nodes == old(nodes) + {plugin}
      ensures chains == old(chains)[plugin.space := old(chains)[plugin.space] + [plugin]] && table == old(table)
    {
      ghost var space := plugin.space;
      assert OfSpace(chains[space], space) && Chain(chains[space]);
      forall s | s in chains && s != space
        ensures root !in chains[s] && Chain(chains[s]) && Within(chains[s], nodes + {plugin})
      {
        assert OfSpace(chains[s], s) && Within(chains[s], nodes);
      }
      root.next := plugin;
      Extended(old(chains)[space], plugin, nodes);
      chains := chains[space := chains[space] + [plugin]];
      nodes := nodes + {plugin};
      forall s | s in chains
        ensures OfSpace(chains[s], s) && Within(chains[s], nodes) && Chain(chains[s])
      {
        assert s != space ==> root !in chains[s];
      }
    }

    /** composite_plug_helper(): the first pointer that is not NULL decides what is registered. */
    method Plug(space: seq<byte>, callback: Option<nat>, bridge: Option<nat>, inner: Option<nat>)
      requires Valid() && (callback.Some? || bridge.Some? || inner.Some?)
      modifies this, nodes
      ensures Valid() && Value() == Plugged(old(Value()), space,
                                            if callback.Some? then Plugin(CallbackPlugin, callback.value)
                                            else if bridge.Some? then Plugin(BridgePlugin, bridge.value)
                                            else Plugin(CompositePlugin, inner.value))
      ensures fresh(nodes - old(nodes)) && OnlyLonger(old(chains), chains)
    {
      var what: Plugin;
      if callback.Some? {
        what := Plugin(CallbackPlugin, callback.value);
      } else if bridge.Some? {
        what := Plugin(BridgePlugin, bridge.value);
      } else {
        what := Plugin(CompositePlugin, inner.value);
      }
      var plugin := new Node(what, space);
      ghost var was := chains;
      Attach(plugin);
      PlugValue(was, chains, plugin);
    }

    /** What a function that is called registers, one after the other. */
    method PlugAll(rs: seq<Registration>)
      requires Valid()
      modifies this, nodes
      ensures Valid() && Value() == AllPlugged(old(Value()), rs)
      ensures fresh(nodes - old(nodes)) && OnlyLonger(old(chains), chains)
    {
      if |rs| > 0 {
        PlugAll(rs[..|rs| - 1]);
        ghost var was := chains;
        var last := rs[|rs| - 1];
        PlugOne(last.space, last.plugin);
        LongerStill(old(chains), was, chains);
      }
    }

    method PlugOne(space: seq<byte>, plugin: Plugin)
      requires Valid()
      modifies this, nodes
      ensures Valid() && Value() == Plugged(old(Value()), space, plugin)
      ensures fresh(nodes - old(nodes)) && OnlyLonger(old(chains), chains)
    {
      match plugin.category {
        case CallbackPlugin => Plug(space, Some(plugin.action), None, None);
        case BridgePlugin => Plug(space, None, Some(plugin.action), None);
        case CompositePlugin => Plug(space, None, None, Some(plugin.action));
      }
    }

    method Attach(plugin: Node)
      requires Valid() && plugin !in nodes && plugin.next == null
      modifies this, nodes
      ensures Valid() && nodes == old(nodes) + {plugin}
      ensures chains == Longer(old(chains), plugin)
    {
      if plugin.space in table {
        var root := LastOf(plugin.space);
        assert Within(chains[plugin.space], nodes);
        Link(root, plugin);
      } else {
        Begin(plugin);
        assert [] + [plugin] == [plugin];
      }
    }

    /** The first plugin of a space becomes its entry in the table. */
    method Begin(plugin: Node)
      requires Valid() && plugin.space !in table && plugin.next == null
      modifies this
      ensures Valid() && nodes == old(nodes) + {plugin}
      ensures chains == old(chains)[plugin.space := [plugin]]
    {
      table := table[plugin.space := plugin];
      chains := chains[plugin.space := [plugin]];
      nodes := nodes + {plugin};
      assert Chain([plugin]);
    }

    /** composite_plugin_call() and composite_plugin_bridge_call(): the k-th function called registers plugs(k) and
        returns answers(k). Functions registered in the space meanwhile are called as well. The assertion on the
        category ends the walk at the first plugin of another kind. A call that would never end is none; `bound` shows
        that this one does. */
    method Call(space: seq<byte>, category: Category, answers: nat -> bv32, plugs: Plugs, ghost bound: nat)
      returns (ret: bv32, called: seq<nat>, asserted: bool)
      requires Valid() && Stops(Value(), plugs, space, category, bound)
      modifies this, nodes
      ensures Valid() && Value() == After(old(Value()), plugs, |called|)
      ensures StopsFirst(old(Value()), plugs, space, category, |called|)
      ensures |called| <= |PluginsIn(Value(), space)| && called == Actions(PluginsIn(Value(), space))[..|called|]
      ensures asserted <==> |called| == |PluginsIn(Value(), space)|
      ensures ret == OrOf(answers, |called|)
      ensures fresh(nodes - old(nodes))
    {
      ghost var trace;
      ret, called, asserted, trace := Walk(space, category, answers, plugs, bound);
      TraceMeans(trace, called, plugs, space, category);
    }

    /** The loop of these functions, with the states it goes through. */
    method Walk(space: seq<byte>, category: Category, answers: nat -> bv32, plugs: Plugs, ghost bound: nat)
      returns (ret: bv32, called: seq<nat>, asserted: bool, ghost trace: seq<Contents>)
      requires Valid() && Stops(Value(), plugs, space, category, bound)
      modifies this, nodes
      ensures Valid() && IsTrace(trace, called, plugs, space, category) && fresh(nodes - old(nodes))
      ensures trace[0] == old(Value()) && trace[|called|] == Value() && ret == OrOf(answers, |called|)
      ensures asserted <==> |called| == |PluginsIn(Value(), space)|
      ensures asserted || (var ps := PluginsIn(Value(), space); |called| < |ps| && ps[|called|].category != category)
    {
      var plugin: Node? := if space in table then table[space] else null;
      ret, called, trace := 0, [], [Value()];
      ghost var list := ChainOf(space);
      while plugin != null
        invariant Valid() && IsTrace(trace, called, plugs, space, category) && fresh(nodes - old(nodes))
        invariant trace[0] == old(Value()) && trace[|called|] == Value() && ret == OrOf(answers, |called|)
        invariant list == ChainOf(space) && |called| <= |list| && plugin == At(list, |called|)
        decreases bound - |called|
      {
        var n := |called|;
        NextInChain(plugin, space, n);
        if plugin.plugin.category != category {
          return ret, called, false, trace;
        }
        OrMore(answers, n);
        OneMoreTurn(trace, called, plugs, space, category, bound);
        ret, called := Or(ret, AnswerOf(answers, n)), called + [plugin.plugin.action];
        trace := trace + [AllPlugged(trace[n], PluggedBy(plugs, n))];
        plugin, list := Turn(plugin, PluggedBy(plugs, n), space, n);
      }
      return ret, called, true, trace;
    }

    lemma NextInChain(node: Node, space: seq<byte>, n: nat)
      requires Valid() && node == At(ChainOf(space), n)
      ensures n < |PluginsIn(Value(), space)| && node.plugin == PluginsIn(Value(), space)[n]
    {
      assert PluginsOf(ChainOf(space))[n] == node.plugin;
    }

    /** The function of this node registers what it registers, and then its successor is looked up. */
    method Turn(node: Node, rs: seq<Registration>, ghost space: seq<byte>, ghost n: nat)
      returns (next: Node?, ghost list: seq<Node>)
      requires Valid() && node == At(ChainOf(space), n)
      modifies this, nodes
      ensures Valid() && Value() == AllPlugged(old(Value()), rs) && fresh(nodes - old(nodes))
      ensures list == ChainOf(space) && n + 1 <= |list| && next == At(list, n + 1)
    {
      ghost var was := ChainOf(space);
      assert space in chains;
      PlugAll(rs);
      list := ChainOf(space);
      assert was <= list;
      assert list[n].next == At(list, n + 1);
      next := node.next;
    }

    ghost function ChainOf(space: seq<byte>): (list: seq<Node>)
      requires Valid()
      reads this, nodes
      ensures PluginsOf(list) == PluginsIn(Value(), space)
      ensures list == [] || Chain(list)
      ensures At(list, 0) == if space in table then table[space] else null
    {
      if space in chains then chains[space] else []
    }

    /** composite_plugin_visit_all_helper() on one entry of the table. */
    method VisitChain(space: seq<byte>) returns (visited: seq<Plugin>)
      requires Valid() && space in table
      ensures visited == PluginsIn(Value(), space)
    {
      var plugin := table[space];
      visited := [plugin.plugin];
      while plugin.next != null
        invariant 0 < |visited| <= |chains[space]| && plugin == chains[space][|visited| - 1]
        invariant forall i | 0 <= i < |visited| :: visited[i] == chains[space][i].plugin
        decreases |chains[space]| - |visited|
      {
        assert chains[space][|visited| - 1].next == At(chains[space], |visited|);
        plugin := plugin.next;
        visited := visited + [plugin.plugin];
      }
    }
  }

  function Actions(ps: seq<Plugin>): (actions: seq<nat>)
    ensures |actions| == |ps|
  {
    seq(|ps|, i requires 0 <= i < |ps| => ps[i].action)
  }

  function Or(a: bv32, b: bv32): bv32 { a | b }

  function AnswerOf(answers: nat -> bv32, k: nat): bv32 { answers(k) }

  /** The OR of the first n results. */
  function OrOf(answers: nat -> bv32, n: nat): bv32
  {
    if n == 0 then 0 else Or(OrOf(answers, n - 1), AnswerOf(answers, n - 1))
  }

  lemma OrIsZero(a: bv32, b: bv32)
    ensures Or(a, b) == 0 <==> a == 0 && b == 0
  {
  }

  ghost predicate AllZero(answers: nat -> bv32, n: nat)
  {
    forall k: nat | k < n :: answers(k) == 0
  }

  lemma AllZeroGrows(answers: nat -> bv32, n: nat)
    ensures AllZero(answers, n + 1) <==> AllZero(answers, n) && answers(n) == 0
  {
  }

  /** A call succeeds exactly when every function in the chain did. */
  lemma {:induction false} ZeroIffAllZero(answers: nat -> bv32, n: nat)
    ensures OrOf(answers, n) == 0 <==> AllZero(answers, n)
  {
    if n > 0 {
      ZeroIffAllZero(answers, n - 1);
      OrIsZero(OrOf(answers, n - 1), answers(n - 1));
      AllZeroGrows(answers, n - 1);
    }
  }

  // ---------------------------------------------------------------- registrations

  function Registered(run: seq<Registration>): Contents { AllPlugged(map[], run) }

  /** What was registered in one space, in order. */
  function For(run: seq<Registration>, space: seq<byte>): seq<Plugin>
  {
    if |run| == 0 then []
    else For(run[..|run| - 1], space) + if run[|run| - 1].space == space then [run[|run| - 1].plugin] else []
  }

  lemma {:induction false} AllPluggedAppend(c: Contents, a: seq<Registration>, b: seq<Registration>)
    ensures AllPlugged(c, a + b) == AllPlugged(AllPlugged(c, a), b)
  {
    if |b| == 0 {
      assert a + b == a;
    } else {
      AllPluggedAppend(c, a, b[..|b| - 1]);
      assert (a + b)[..|a + b| - 1] == a + b[..|b| - 1];
    }
  }

  /** Registrations lengthen a space at its end, each by its own. */
  lemma {:induction false} PluginsGrow(c: Contents, rs: seq<Registration>, space: seq<byte>)
    ensures PluginsIn(AllPlugged(c, rs), space) == PluginsIn(c, space) + For(rs, space)
  {
    if |rs| > 0 {
      PluginsGrow(c, rs[..|rs| - 1], space);
    }
  }

  /** After any registrations a space holds exactly what was registered there, in order, and has an entry only then. */
  lemma {:induction false} HoldsWhatWasRegistered(run: seq<Registration>, space: seq<byte>)
    ensures PluginsIn(Registered(run), space) == For(run, space)
    ensures space in Registered(run) <==> exists k :: 0 <= k < |run| && run[k].space == space
  {
    if |run| > 0 {
      var front, last := run[..|run| - 1], run[|run| - 1];
      HoldsWhatWasRegistered(front, space);
      assert run == front + [last];
      assert last.space == space ==> run[|run| - 1].space == space;
    }
  }

  /** Each space is used for one category of plugins. */
  ghost predicate OneCategory(run: seq<Registration>, space: seq<byte>, category: Category)
  {
    forall k | 0 <= k < |run| && run[k].space == space :: run[k].plugin.category == category
  }

  lemma {:induction false} CategoriesOf(run: seq<Registration>, space: seq<byte>, category: Category)
    ensures (forall p | p in For(run, space) :: p.category == category) <==> OneCategory(run, space, category)
  {
    if |run| > 0 {
      var front, last := run[..|run| - 1], run[|run| - 1];
      CategoriesOf(front, space, category);
      assert run == front + [last];
      var here := if last.space == space then [last.plugin] else [];
      assert For(run, space) == For(front, space) + here;
      assert forall p :: p in For(run, space) <==> p in For(front, space) || p in here;
      assert OneCategory(run, space, category) <==>
        OneCategory(front, space, category) && (last.space == space ==> last.plugin.category == category);
    }
  }

  // ---------------------------------------------------------------- what a call reaches

  /** The function called next puts what it registers in the space behind everything else there. */
  lemma SpaceGrows(c: Contents, plugs: Plugs, space: seq<byte>, n: nat)
    ensures SpaceAfter(c, plugs, space, n + 1) == SpaceAfter(c, plugs, space, n) + For(PluggedBy(plugs, n), space)
  {
    PluginsGrow(After(c, plugs, n), PluggedBy(plugs, n), space);
  }

  /** There is a further plugin of the right kind, and its function registers rs. */
  predicate IsTurn(before: Contents, after: Contents, action: nat, rs: seq<Registration>, space: seq<byte>,
                   category: Category, k: nat)
  {
    var ps := PluginsIn(before, space);
    k < |ps| && ps[k].category == category && action == ps[k].action && after == AllPlugged(before, rs)
  }

  /** The states a call goes through, and the functions it calls. */
  ghost predicate IsTrace(trace: seq<Contents>, called: seq<nat>, plugs: Plugs, space: seq<byte>, category: Category)
  {
    |trace| == |called| + 1 && forall k: nat | k < |called| ::
      IsTurn(trace[k], trace[k + 1], called[k], PluggedBy(plugs, k), space, category, k)
  }

  lemma FrontOfTrace(trace: seq<Contents>, called: seq<nat>, plugs: Plugs, space: seq<byte>, category: Category)
    requires IsTrace(trace, called, plugs, space, category) && |called| > 0
    ensures IsTrace(trace[..|called|], called[..|called| - 1], plugs, space, category)
  {
    forall k: nat | k < |called| - 1
      ensures IsTurn(trace[..|called|][k], trace[..|called|][k + 1], called[..|called| - 1][k], PluggedBy(plugs, k),
                     space, category, k)
    {
      assert IsTurn(trace[k], trace[k + 1], called[k], PluggedBy(plugs, k), space, category, k);
    }
  }

  lemma ActionsFront(ps: seq<Plugin>, more: seq<Plugin>, n: nat)
    requires n < |ps|
    ensures Actions(ps + more)[..n + 1] == Actions(ps)[..n] + [ps[n].action]
  {
  }

  /** What a trace says about the call. */
  lemma {:induction false} TraceMeans(trace: seq<Contents>, called: seq<nat>, plugs: Plugs, space: seq<byte>,
                                      category: Category)
    requires IsTrace(trace, called, plugs, space, category)
    ensures trace[|called|] == After(trace[0], plugs, |called|)
    ensures forall k: nat | k < |called| :: !Stops(trace[0], plugs, space, category, k)
    ensures |called| <= |PluginsIn(trace[|called|], space)|
    ensures called == Actions(PluginsIn(trace[|called|], space))[..|called|]
  {
    if |called| > 0 {
      var n := |called| - 1;
      FrontOfTrace(trace, called, plugs, space, category);
      TraceMeans(trace[..n + 1], called[..n], plugs, space, category);
      assert IsTurn(trace[n], trace[n + 1], called[n], PluggedBy(plugs, n), space, category, n);
      assert called == called[..n] + [called[n]];
      ActionsFront(PluginsIn(trace[n], space), For(PluggedBy(plugs, n), space), n);
      SpaceGrows(trace[0], plugs, space, n);
    }
  }

  lemma OneMoreTurn(trace: seq<Contents>, called: seq<nat>, plugs: Plugs, space: seq<byte>, category: Category,
                    bound: nat)
    requires IsTrace(trace, called, plugs, space, category) && Stops(trace[0], plugs, space, category, bound)
    requires var n, ps := |called|, PluginsIn(trace[|called|], space); n < |ps| && ps[n].category == category
    ensures |called| < bound
    ensures var n := |called|;
      IsTrace(trace + [AllPlugged(trace[n], PluggedBy(plugs, n))], called + [PluginsIn(trace[n], space)[n].action],
              plugs, space, category)
  {
    TraceMeans(trace, called, plugs, space, category);
    var n := |called|;
    var longer, more := trace + [AllPlugged(trace[n], PluggedBy(plugs, n))],
        called + [PluginsIn(trace[n], space)[n].action];
    assert !Stops(trace[0], plugs, space, category, n);
    forall k: nat | k < |more|
      ensures IsTurn(longer[k], longer[k + 1], more[k], PluggedBy(plugs, k), space, category, k)
    {
      assert k < n ==> IsTurn(trace[k], trace[k + 1], called[k], PluggedBy(plugs, k), space, category, k);
    }
  }

  lemma OrMore(answers: nat -> bv32, n: nat)
    ensures OrOf(answers, n + 1) == Or(OrOf(answers, n), AnswerOf(answers, n))
  {
  }

  /** Later registrations leave the plugins at the front of the space where they are. */
  lemma {:induction false} FrontStays(c: Contents, plugs: Plugs, space: seq<byte>, k: nat, n: nat)
    requires k <= n
    ensures SpaceAfter(c, plugs, space, k) <= SpaceAfter(c, plugs, space, n)
  {
    if k < n {
      FrontStays(c, plugs, space, k, n - 1);
      SpaceGrows(c, plugs, space, n - 1);
    }
  }

  /** What the first n functions called have registered. */
  function Made(plugs: Plugs, n: nat): seq<Registration>
  {
    if n == 0 then [] else Made(plugs, n - 1) + PluggedBy(plugs, n - 1)
  }

  lemma RegisteredMore(run: seq<Registration>, made: seq<Registration>, more: seq<Registration>)
    ensures Registered(run + (made + more)) == AllPlugged(Registered(run + made), more)
  {
    AllPluggedAppend(map[], run + made, more);
    Associative(run, made, more);
  }

  lemma {:induction false} RegisteredAfter(run: seq<Registration>, plugs: Plugs, n: nat)
    ensures After(Registered(run), plugs, n) == Registered(run + Made(plugs, n))
  {
    if n == 0 {
      assert run + [] == run;
    } else {
      RegisteredAfter(run, plugs, n - 1);
      RegisteredMore(run, Made(plugs, n - 1), PluggedBy(plugs, n - 1));
    }
  }

  /** A call reaches every plugin of the space, those that its own functions register included, and its assertion holds
      throughout, exactly when before and during the call the space was used for plugins of that kind alone. */
  lemma CallReachesAllIff(run: seq<Registration>, plugs: Plugs, space: seq<byte>, category: Category, n: nat)
    requires StopsFirst(Registered(run), plugs, space, category, n)
    ensures |SpaceAfter(Registered(run), plugs, space, n)| == n <==> OneCategory(run + Made(plugs, n), space, category)
  {
    var c, all := Registered(run), run + Made(plugs, n);
    RegisteredAfter(run, plugs, n);
    HoldsWhatWasRegistered(all, space);
    CategoriesOf(all, space, category);
    var ps := For(all, space);
    assert ps == SpaceAfter(c, plugs, space, n);
    forall k: nat | k < n
      ensures k < |ps| && ps[k].category == category
    {
      assert !Stops(c, plugs, space, category, k);
      FrontStays(c, plugs, space, k, n);
    }
    assert n == 0 || (n - 1 < |ps| && ps[n - 1].category == category);
    if n < |ps| {
      assert ps[n] in ps && ps[n].category != category;
    } else {
      forall p | p in ps
        ensures p.category == category
      {
        var k: nat :| k < |ps| && ps[k] == p;
      }
    }
  }

  // ---------------------------------------------------------------- when a call ends

  /** Once nothing more is registered in the space the call ends. */
  lemma {:induction false} QuietCallEnds(c: Contents, plugs: Plugs, space: seq<byte>, category: Category, m: nat,
                                         n: nat)
    requires m <= n && (forall k: nat | m <= k :: For(PluggedBy(plugs, k), space) == [])
    ensures SpaceAfter(c, plugs, space, n) == SpaceAfter(c, plugs, space, m)
    ensures |SpaceAfter(c, plugs, space, m)| <= n ==> Stops(c, plugs, space, category, n)
  {
    if m < n {
      QuietCallEnds(c, plugs, space, category, m, n - 1);
      SpaceGrows(c, plugs, space, n - 1);
    }
  }

  /** As many registrations in the space as functions have been called. */
  function Added(plugs: Plugs, space: seq<byte>, n: nat): nat
  {
    if n == 0 then 0 else Added(plugs, space, n - 1) + |For(PluggedBy(plugs, n - 1), space)|
  }

  lemma {:induction false} SpaceLength(c: Contents, plugs: Plugs, space: seq<byte>, n: nat)
    ensures |SpaceAfter(c, plugs, space, n)| == |PluginsIn(c, space)| + Added(plugs, space, n)
  {
    if n > 0 {
      SpaceLength(c, plugs, space, n - 1);
      SpaceGrows(c, plugs, space, n - 1);
    }
  }

  /** All plugins of the space have been called once n have been. */
  predicate CaughtUp(c: Contents, plugs: Plugs, space: seq<byte>, n: nat)
  {
    |PluginsIn(c, space)| + Added(plugs, space, n) <= n
  }

  /** In a space for plugins of this kind alone, a call ends exactly when at some point its functions have registered
      so few plugins there that all have been called. */
  lemma CallEndsIff(c: Contents, plugs: Plugs, space: seq<byte>, category: Category)
    requires forall n: nat, p | p in SpaceAfter(c, plugs, space, n) :: p.category == category
    ensures (exists n: nat :: Stops(c, plugs, space, category, n))
      <==> (exists n: nat :: CaughtUp(c, plugs, space, n))
  {
    forall n: nat
      ensures Stops(c, plugs, space, category, n) <==> CaughtUp(c, plugs, space, n)
    {
      SpaceLength(c, plugs, space, n);
      var ps := SpaceAfter(c, plugs, space, n);
      assert n < |ps| ==> ps[n] in ps;
    }
  }

  /** If everyone who is called registers at least one such plugin there, the call goes on for ever. */
  lemma {:induction false} EndlessCall(c: Contents, plugs: Plugs, space: seq<byte>, category: Category, n: nat)
    requires PluginsIn(c, space) != [] && (forall k: nat :: For(PluggedBy(plugs, k), space) != [])
    requires forall k: nat, p | p in SpaceAfter(c, plugs, space, k) :: p.category == category
    ensures |SpaceAfter(c, plugs, space, n)| > n && !Stops(c, plugs, space, category, n)
  {
    if n > 0 {
      EndlessCall(c, plugs, space, category, n - 1);
      SpaceGrows(c, plugs, space, n - 1);
      assert For(PluggedBy(plugs, n - 1), space) != [];
    }
    assert SpaceAfter(c, plugs, space, n)[n] in SpaceAfter(c, plugs, space, n);
  }
}
