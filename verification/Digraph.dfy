/** Directed graphs, their cycles and orders, and the three-colour walk that looks for a cycle
    (internal/stackcmd/manifest.go). */
module Digraph {
  import opened Sets
  import opened Wrappers

  // ---- graphs ---------------------------------------------------------------------------

  /** Each node's successors in order; a node that is not a key has none. */
  type Graph<!N> = map<N, seq<N>>

  function Out<N(==)>(g: Graph<N>, n: N): seq<N> {
    if n in g then g[n] else []
  }

  predicate IsPath<N(==)>(g: Graph<N>, p: seq<N>) {
    p != [] && forall i | 0 <= i < |p| - 1 :: p[i + 1] in Out(g, p[i])
  }

  predicate IsCycle<N(==)>(g: Graph<N>, p: seq<N>) {
    |p| >= 2 && IsPath(g, p) && p[0] == p[|p| - 1]
  }

  ghost predicate HasCycle<N(!new)>(g: Graph<N>) {
    exists p :: IsCycle(g, p)
  }

  predicate NoRepeats<N(==)>(s: seq<N>) {
    forall i, j | 0 <= i < j < |s| :: s[i] != s[j]
  }

  /** Every successor of a listed node is listed before it. */
  predicate DepsFirst<N(==)>(g: Graph<N>, order: seq<N>) {
    forall i | 0 <= i < |order| :: forall d | d in Out(g, order[i]) :: d in order[..i]
  }

  /** An order of all nodes in which successors come first. */
  predicate Orders<N(==)>(g: Graph<N>, order: seq<N>) {
    NoRepeats(order) && DepsFirst(g, order) && forall n | n in g :: n in order
  }

  lemma PathSuffix<N>(g: Graph<N>, p: seq<N>, i: nat)
    requires IsPath(g, p) && i < |p|
    ensures IsPath(g, p[i..])
  {
    var q := p[i..];
    forall k | 0 <= k < |q| - 1
      ensures q[k + 1] in Out(g, q[k])
    {
      assert q[k] == p[i + k] && q[k + 1] == p[i + k + 1];
    }
  }

  lemma PathExtends<N>(g: Graph<N>, p: seq<N>, n: N)
    requires p != [] ==> IsPath(g, p) && n in Out(g, p[|p| - 1])
    ensures IsPath(g, p + [n])
  {
  }

  lemma PathPrepends<N>(g: Graph<N>, n: N, p: seq<N>)
    requires IsPath(g, p) && p[0] in Out(g, n)
    ensures IsPath(g, [n] + p)
  {
    var q := [n] + p;
    assert forall i | 1 <= i < |q| :: q[i] == p[i - 1];
  }

  lemma {:induction false} PathDescends<N>(g: Graph<N>, order: seq<N>, p: seq<N>, i: nat) returns (j: nat)
    requires DepsFirst(g, order) && IsPath(g, p) && i < |order| && order[i] == p[0]
    ensures j + |p| - 1 <= i && order[j] == p[|p| - 1]
    decreases |p|
  {
    if |p| == 1 {
      j := i;
    } else {
      assert p[0 + 1] in Out(g, order[i]);
      var m :| 0 <= m < i && order[..i][m] == p[1];
      PathSuffix(g, p, 1);
      j := PathDescends(g, order, p[1..], m);
    }
  }

  /** Along any path the position in an order falls, so no path closes. */
  lemma OrderedHasNoCycle<N(!new)>(g: Graph<N>, order: seq<N>)
    requires Orders(g, order)
    ensures !HasCycle(g)
  {
    if p :| IsCycle(g, p) {
      assert p[0 + 1] in Out(g, p[0]) && p[0] in g;
      var i :| 0 <= i < |order| && order[i] == p[0];
      var j := PathDescends(g, order, p, i);
      assert false;
    }
  }

  predicate Within<N(==)>(p: seq<N>, nodes: set<N>) {
    forall i | 0 <= i < |p| :: p[i] in nodes
  }

  /** Some successor of `n` is among `nodes`. */
  predicate StaysIn<N(==)>(g: Graph<N>, n: N, nodes: set<N>) {
    exists i | 0 <= i < |Out(g, n)| :: Out(g, n)[i] in nodes
  }

  /** Every node has a successor among the nodes. */
  predicate Trapped<N(==)>(g: Graph<N>, nodes: set<N>) {
    forall n | n in nodes :: StaysIn(g, n, nodes)
  }

  lemma TrappedStep<N>(g: Graph<N>, nodes: set<N>, n: N) returns (d: N)
    requires Trapped(g, nodes) && n in nodes
    ensures d in Out(g, n) && d in nodes
  {
    assert StaysIn(g, n, nodes);
    var k :| 0 <= k < |Out(g, n)| && Out(g, n)[k] in nodes;
    d := Out(g, n)[k];
  }

  lemma ClosedPathCycles<N(!new)>(g: Graph<N>, p: seq<N>, i: nat)
    requires IsPath(g, p) && i < |p| && p[i] in Out(g, p[|p| - 1])
    ensures HasCycle(g)
  {
    var q := p + [p[i]];
    PathExtends(g, p, p[i]);
    PathSuffix(g, q, i);
    assert IsCycle(g, q[i..]);
  }

  /** A path among `nodes` that can always go on inside `nodes` must revisit a node. */
  lemma {:induction false} TrappedPathCycles<N(!new)>(g: Graph<N>, nodes: set<N>, p: seq<N>)
    requires p != [] && IsPath(g, p) && NoRepeats(p) && Within(p, nodes)
    requires Trapped(g, nodes)
    ensures HasCycle(g)
    decreases |nodes| - |p|
  {
    hide Trapped, IsPath, HasCycle, Out;
    var d := TrappedStep(g, nodes, p[|p| - 1]);
    if i :| 0 <= i < |p| && p[i] == d {
      ClosedPathCycles(g, p, i);
    } else {
      PathExtends(g, p, d);
      DistinctWithin(p + [d], nodes);
      TrappedPathCycles(g, nodes, p + [d]);
    }
  }

  lemma {:induction false} DistinctWithin<N>(p: seq<N>, nodes: set<N>)
    requires NoRepeats(p) && Within(p, nodes)
    ensures |p| <= |nodes|
    decreases |p|
  {
    if p != [] {
      var n := |p| - 1;
      assert p[n] in nodes;
      DistinctWithin(p[..n], nodes - {p[n]});
    }
  }

  /** Every successor of a node outside `rest` is in `done`. */
  lemma {:induction false} ExtendOrder<N(!new)>(g: Graph<N>, done: seq<N>, rest: set<N>) returns (order: seq<N>)
    requires !HasCycle(g) && NoRepeats(done) && DepsFirst(g, done)
    requires forall n | n in Nodes(g) :: n in done || n in rest
    requires forall n | n in rest :: n !in done
    ensures Orders(g, order)
    decreases |rest|
  {
    hide HasCycle, Trapped;
    if rest == {} {
      DoneOrders(g, done);
      order := done;
    } else if n :| n in rest && !StaysIn(g, n, rest) {
      AllOutDone(g, done, rest, n);
      FinishLast(g, done, n);
      order := ExtendOrder(g, done + [n], rest - {n});
    } else {
      var n :| n in rest;
      assert Trapped(g, rest) by {
        AllStay(g, rest);
      }
      SingletonPath(g, rest, n);
      TrappedPathCycles(g, rest, [n]);
      order := [];
    }
  }

  lemma SingletonPath<N>(g: Graph<N>, nodes: set<N>, n: N)
    requires n in nodes
    ensures IsPath(g, [n]) && NoRepeats([n]) && Within([n], nodes)
  {
  }

  lemma AllStay<N>(g: Graph<N>, nodes: set<N>)
    requires forall n | n in nodes :: StaysIn(g, n, nodes)
    ensures Trapped(g, nodes)
  {
  }

  lemma DoneOrders<N>(g: Graph<N>, done: seq<N>)
    requires NoRepeats(done) && DepsFirst(g, done) && forall n | n in Nodes(g) :: n in done
    ensures Orders(g, done)
  {
  }

  lemma AllOutDone<N>(g: Graph<N>, done: seq<N>, rest: set<N>, n: N)
    requires !StaysIn(g, n, rest) && forall m | m in Nodes(g) :: m in done || m in rest
    ensures forall d | d in Out(g, n) :: d in done
  {
    forall d | d in Out(g, n)
      ensures d in done
    {
      var i :| 0 <= i < |Out(g, n)| && Out(g, n)[i] == d;
      assert n in g && d in g[n] && d in Nodes(g);
    }
  }

  function Nodes<N(==)>(g: Graph<N>): set<N> {
    g.Keys + set n, d | n in g && d in g[n] :: d
  }

  /** A graph has no cycle exactly when its nodes can be put in order. */
  lemma AcyclicExactlyWhenOrdered<N(!new)>(g: Graph<N>)
    ensures !HasCycle(g) <==> exists order :: Orders(g, order)
  {
    if !HasCycle(g) {
      var order := ExtendOrder(g, [], Nodes(g));
    } else if order :| Orders(g, order) {
      OrderedHasNoCycle(g, order);
    }
  }

  // ---- the three-colour walk ------------------------------------------------------------

  const GREY := 1
  const BLACK := 2

  /** The grey nodes form the path `stack`; every successor of a black node is black. */
  ghost predicate WalkInv<N(!new)>(graph: Graph<N>, state: map<N, int>, order: seq<N>, stack: seq<N>) {
    && state.Keys <= Nodes(graph)
    && (forall n | n in state :: state[n] == GREY || state[n] == BLACK)
    && (forall n :: (n in state && state[n] == GREY) <==> n in stack)
    && (forall n :: (n in state && state[n] == BLACK) <==> n in order)
    && (stack != [] ==> IsPath(graph, stack))
    && NoRepeats(order)
    && DepsFirst(graph, order)
  }

  lemma EnterKeepsInv<N(!new)>(graph: Graph<N>, state: map<N, int>, order: seq<N>, stack: seq<N>, name: N)
    requires WalkInv(graph, state, order, stack) && name in Nodes(graph) && name !in state
    requires stack != [] ==> name in Out(graph, stack[|stack| - 1])
    ensures WalkInv(graph, state[name := GREY], order, stack + [name]) && name !in stack
    ensures state[name := GREY].Keys == state.Keys + {name}
  {
    hide IsPath, NoRepeats, DepsFirst, Nodes, Out;
    PathExtends(graph, stack, name);
  }

  lemma FinishKeepsInv<N(!new)>(graph: Graph<N>, state: map<N, int>, order: seq<N>, stack: seq<N>, name: N)
    requires WalkInv(graph, state, order, stack + [name]) && name !in stack
    requires forall d | d in Out(graph, name) :: d in order
    ensures name in state && state[name := BLACK].Keys == state.Keys
    ensures WalkInv(graph, state[name := BLACK], order + [name], stack)
  {
    hide IsPath, NoRepeats, DepsFirst, Nodes, Out;
    var deeper := stack + [name];
    assert name in deeper && name in state && name !in order;
    assert forall n | n != name :: n in deeper <==> n in stack;
    assert deeper[..|stack|] == stack;
    if stack != [] {
      PathPrefix(graph, deeper, |stack|);
    }
    FinishLast(graph, order, name);
    NewIsLast(order, name);
  }

  class ColourWalk<N(==,!new)> {
    const graph: Graph<N>
    var state: map<N, int>
    ghost var order: seq<N>   // the black nodes as they were finished

    constructor (graph: Graph<N>)
      ensures this.graph == graph && state == map[] && order == []
    {
      this.graph := graph;
      state := map[];
      order := [];
    }

    ghost predicate Inv(stack: seq<N>)
      reads this
    {
      WalkInv(graph, state, order, stack)
    }

    lemma InvFacts(name: N, stack: seq<N>)
      requires Inv(stack)
      ensures state.Keys <= Nodes(graph)
      ensures name in state ==> (state[name] == GREY && name in stack) || (state[name] == BLACK && name in order)
    {
    }

    /** `state[name] = 1`: the node joins the path being walked. */
    method Enter(name: N, ghost stack: seq<N>)
      requires Inv(stack) && name in Nodes(graph) && name !in state
      requires stack != [] ==> name in Out(graph, stack[|stack| - 1])
      modifies this
      ensures Inv(stack + [name]) && name !in stack
      ensures state.Keys == old(state.Keys) + {name} && order == old(order)
    {
      hide WalkInv;
      EnterKeepsInv(graph, state, order, stack, name);
      state := state[name := GREY];
    }

    /** `state[name] = 2`: the node and everything below it is done. */
    method Finish(name: N, ghost stack: seq<N>)
      requires Inv(stack + [name]) && name !in stack && forall d | d in Out(graph, name) :: d in order
      modifies this
      ensures Inv(stack) && order == old(order) + [name] && state.Keys == old(state.Keys)
    {
      hide WalkInv;
      FinishKeepsInv(graph, state, order, stack, name);
      state := state[name := BLACK];
      order := order + [name];
    }

    /** Colours `name` and everything below it black, or reports a chain of successors from
        `name` whose last node repeats an earlier one. */
    method Visit(name: N, ghost stack: seq<N>) returns (chain: Option<seq<N>>)
      requires Inv(stack) && name in Nodes(graph)
      requires stack != [] ==> name in Out(graph, stack[|stack| - 1])
      modifies this
      ensures old(state.Keys) <= state.Keys && old(order) <= order
      ensures chain == None ==> Inv(stack) && name in order
      ensures chain.Some? ==> IsPath(graph, chain.value) && chain.value[0] == name && Repeats(stack + chain.value)
      decreases |Nodes(graph)| - |state.Keys|
    {
      hide IsPath, Nodes, Inv, Repeats, Out;
      InvFacts(name, stack);
      if name in state && state[name] == GREY {
        LoneChain(graph, stack, name);
        return Some([name]);
      }
      if name in state && state[name] == BLACK {
        return None;
      }
      Smaller(state.Keys, Nodes(graph), name);
      Enter(name, stack);
      ghost var deeper := stack + [name];
      var deps := Out(graph, name);
      for i := 0 to |deps|
        invariant Inv(deeper) && old(state.Keys) + {name} <= state.Keys && old(order) <= order
        invariant forall d | d in deps[..i] :: d in order
      {
        SuccessorIsNode(graph, name, deps[i]);
        InvFacts(name, deeper);
        SubsetIsSmaller(old(state.Keys) + {name}, state.Keys);
        var below := Visit(deps[i], deeper);
        if below.Some? {
          PrependChain(graph, stack, name, below.value);
          return Some([name] + below.value);
        }
        assert deps[..i + 1] == deps[..i] + [deps[i]];
      }
      assert deps[..|deps|] == deps;
      Finish(name, stack);
      return None;
    }
  }

  /** The last node occurs earlier as well. */
  predicate Repeats<N(==)>(p: seq<N>) {
    p != [] && p[|p| - 1] in p[..|p| - 1]
  }

  lemma LoneChain<N>(g: Graph<N>, stack: seq<N>, n: N)
    requires n in stack
    ensures IsPath(g, [n]) && Repeats(stack + [n])
  {
    assert (stack + [n])[..|stack|] == stack;
  }

  lemma PrependChain<N>(g: Graph<N>, stack: seq<N>, n: N, chain: seq<N>)
    requires IsPath(g, chain) && chain[0] in Out(g, n) && Repeats(stack + [n] + chain)
    ensures IsPath(g, [n] + chain) && Repeats(stack + ([n] + chain))
  {
    hide IsPath, Repeats, Out;
    PathPrepends(g, n, chain);
    assert stack + ([n] + chain) == stack + [n] + chain;
  }

  lemma SuccessorIsNode<N>(g: Graph<N>, n: N, d: N)
    requires d in Out(g, n)
    ensures d in Nodes(g)
  {
  }

  lemma NewIsLast<N>(s: seq<N>, n: N)
    requires NoRepeats(s) && n !in s
    ensures NoRepeats(s + [n])
  {
  }

  lemma PathPrefix<N>(g: Graph<N>, p: seq<N>, i: nat)
    requires IsPath(g, p) && 0 < i <= |p|
    ensures IsPath(g, p[..i])
  {
  }

  lemma Smaller<N(!new)>(a: set<N>, b: set<N>, x: N)
    requires a <= b && x in b && x !in a
    ensures |a + {x}| <= |b| && |a + {x}| == |a| + 1
  {
    SubsetIsSmaller(a + {x}, b);
  }

  lemma FinishLast<N>(g: Graph<N>, order: seq<N>, n: N)
    requires DepsFirst(g, order) && forall d | d in Out(g, n) :: d in order
    ensures DepsFirst(g, order + [n])
  {
    var next := order + [n];
    assert forall i | 0 <= i <= |order| :: next[..i] == order[..i];
  }

  lemma ChainShowsCycle<N(!new)>(g: Graph<N>, chain: seq<N>)
    requires IsPath(g, chain) && Repeats(chain)
    ensures HasCycle(g)
  {
    var i :| 0 <= i < |chain| - 1 && chain[..|chain| - 1][i] == chain[|chain| - 1];
    assert IsCycle(g, chain[i..]);
  }

  method CheckCycles<N(==,!new)>(graph: Graph<N>) returns (chain: Option<seq<N>>)
    ensures chain == None <==> !HasCycle(graph)
    ensures chain.Some? ==> IsPath(graph, chain.value) && Repeats(chain.value)
  {
    var walk := new ColourWalk(graph);
    var todo := graph.Keys;
    while todo != {}
      invariant walk.graph == graph && walk.Inv([])
      invariant todo <= graph.Keys && forall n | n in graph && n !in todo :: n in walk.order
    {
      var name :| name in todo;
      chain := walk.Visit(name, []);
      if chain.Some? {
        assert [] + chain.value == chain.value;
        ChainShowsCycle(graph, chain.value);
        return;
      }
      todo := todo - {name};
    }
    OrderedHasNoCycle(graph, walk.order);
    return None;
  }
}
