/** The start order of the runtime's processes (internal/stackcmd/process_launcher.go).

    The walk marks a process as seen only after its dependencies, so on its own it would not
    return from a cycle: it leans on the validator's verdict. */
module ProcessOrder {
  import opened Digraph
  import opened GoStrings
  import opened ProcessGraph
  import opened Wrappers

  // ---- the recursion, with its depth made explicit --------------------------------------

  /** The order after visiting `n`; None when that takes more than `depth` nested visits. */
  function Walk<N(==)>(g: Graph<N>, n: N, done: seq<N>, depth: nat): Option<seq<N>>
    decreases depth, 0
  {
    if n in done then Some(done)
    else if depth == 0 then None
    else
      match WalkAll(g, Out(g, n), done, depth - 1)
      case None => None
      case Some(below) => Some(below + [n])
  }

  function WalkAll<N(==)>(g: Graph<N>, nodes: seq<N>, done: seq<N>, depth: nat): Option<seq<N>>
    decreases depth, |nodes|
  {
    if nodes == [] then Some(done)
    else
      match Walk(g, nodes[0], done, depth)
      case None => None
      case Some(next) => WalkAll(g, nodes[1..], next, depth)
  }

  /** Visiting all of `nodes` ends. */
  ghost predicate Terminates<N>(g: Graph<N>, nodes: seq<N>) {
    exists depth :: WalkAll(g, nodes, [], depth).Some?
  }

  function Rank<N(==)>(order: seq<N>, n: N): (i: nat)
    requires n in order
    ensures i < |order| && order[i] == n
  {
    if order[0] == n then 0 else 1 + Rank(order[1..], n)
  }

  lemma RankIsUnique<N>(order: seq<N>, n: N, i: nat)
    requires NoRepeats(order) && i < |order| && order[i] == n
    ensures n in order && Rank(order, n) == i
  {
  }

  lemma SuccessorsRankLower<N>(g: Graph<N>, order: seq<N>, n: N)
    requires Orders(g, order) && n in order
    ensures forall d | d in Out(g, n) :: d in order && Rank(order, d) < Rank(order, n)
  {
    var i := Rank(order, n);
    forall d | d in Out(g, n)
      ensures d in order && Rank(order, d) < i
    {
      var j :| 0 <= j < i && order[..i][j] == d;
      RankIsUnique(order, d, j);
    }
  }

  predicate RanksBelow<N(==)>(order: seq<N>, nodes: seq<N>, bound: nat) {
    forall n | n in nodes :: n in order && Rank(order, n) < bound
  }

  /** What a walk adds to `done` ranks below `bound` and keeps successors first. */
  predicate Extends<N(==)>(g: Graph<N>, order: seq<N>, done: seq<N>, after: seq<N>, bound: nat) {
    && done <= after
    && NoRepeats(after) && DepsFirst(g, after)
    && (forall n | n in after :: n in done || (n in order && Rank(order, n) < bound))
  }

  lemma ExtendsTrans<N>(g: Graph<N>, order: seq<N>, a: seq<N>, b: seq<N>, c: seq<N>, low: nat, bound: nat)
    requires Extends(g, order, a, b, low) && Extends(g, order, b, c, bound) && low <= bound
    ensures Extends(g, order, a, c, bound)
  {
  }

  lemma {:induction false} WalkSucceeds<N>(g: Graph<N>, order: seq<N>, n: N, done: seq<N>, depth: nat)
    requires Orders(g, order) && n in order && Rank(order, n) < depth
    requires NoRepeats(done) && DepsFirst(g, done)
    ensures Walk(g, n, done, depth).Some?
    ensures var after := Walk(g, n, done, depth).value;
            n in after && Extends(g, order, done, after, Rank(order, n) + 1)
    decreases depth, 0
  {
    if n !in done {
      SuccessorsRankLower(g, order, n);
      WalkAllSucceeds(g, order, Out(g, n), done, depth - 1, Rank(order, n));
      var below := WalkAll(g, Out(g, n), done, depth - 1).value;
      FinishLast(g, below, n);
      NewIsLast(below, n);
    }
  }

  lemma {:induction false} WalkAllSucceeds<N>(g: Graph<N>, order: seq<N>, nodes: seq<N>, done: seq<N>, depth: nat,
                                              bound: nat)
    requires Orders(g, order) && RanksBelow(order, nodes, bound) && bound <= depth
    requires NoRepeats(done) && DepsFirst(g, done)
    ensures WalkAll(g, nodes, done, depth).Some?
    ensures var after := WalkAll(g, nodes, done, depth).value;
            (forall n | n in nodes :: n in after) && Extends(g, order, done, after, bound)
    decreases depth, |nodes|
  {
    hide DepsFirst, NoRepeats, Orders;
    if nodes != [] {
      assert nodes[0] in nodes;
      WalkSucceeds(g, order, nodes[0], done, depth);
      var next := Walk(g, nodes[0], done, depth).value;
      assert RanksBelow(order, nodes[1..], bound);
      WalkAllSucceeds(g, order, nodes[1..], next, depth, bound);
      var after := WalkAll(g, nodes[1..], next, depth).value;
      ExtendsTrans(g, order, done, next, after, Rank(order, nodes[0]) + 1, bound);
      assert nodes[0] in next && next <= after;
    }
  }

  predicate Avoids<N(==)>(done: seq<N>, bad: set<N>) {
    forall n | n in done :: n !in bad
  }

  lemma TrappedMeetsBad<N>(g: Graph<N>, bad: set<N>, n: N)
    requires Trapped(g, bad) && Avoids(Out(g, n), bad)
    ensures n !in bad
  {
    hide Trapped;
    if n in bad {
      var d := TrappedStep(g, bad, n);
      assert false;
    }
  }

  lemma AvoidsOneMore<N>(done: seq<N>, n: N, bad: set<N>)
    requires Avoids(done, bad) && n !in bad
    ensures Avoids(done + [n], bad)
  {
  }

  /** Below a node that can always go on inside `bad`, no depth is enough. */
  lemma {:induction false} WalkNeverLeaves<N(!new)>(g: Graph<N>, bad: set<N>, n: N, done: seq<N>, depth: nat)
    requires Trapped(g, bad) && Avoids(done, bad) && Walk(g, n, done, depth).Some?
    ensures n !in bad && Avoids(Walk(g, n, done, depth).value, bad)
    decreases depth, 0
  {
    if n in done {
      assert n !in bad;
    } else {
      hide Trapped, Avoids;
      WalkAllNeverLeaves(g, bad, Out(g, n), done, depth - 1);
      TrappedMeetsBad(g, bad, n);
      AvoidsOneMore(WalkAll(g, Out(g, n), done, depth - 1).value, n, bad);
    }
  }

  lemma {:induction false} WalkAllNeverLeaves<N(!new)>(g: Graph<N>, bad: set<N>, nodes: seq<N>, done: seq<N>,
                                                depth: nat)
    requires Trapped(g, bad) && Avoids(done, bad) && WalkAll(g, nodes, done, depth).Some?
    ensures Avoids(nodes, bad) && Avoids(WalkAll(g, nodes, done, depth).value, bad)
    decreases depth, |nodes|
  {
    hide Trapped;
    if nodes != [] {
      WalkNeverLeaves(g, bad, nodes[0], done, depth);
      WalkAllNeverLeaves(g, bad, nodes[1..], Walk(g, nodes[0], done, depth).value, depth);
      assert forall n | n in nodes :: n == nodes[0] || n in nodes[1..];
    }
  }

  lemma CycleTraps<N>(g: Graph<N>, p: seq<N>)
    requires IsCycle(g, p)
    ensures Trapped(g, set n | n in p)
  {
    var nodes := set n | n in p;
    forall n | n in nodes
      ensures StaysIn(g, n, nodes)
    {
      var i :| 0 <= i < |p| && p[i] == n;
      var k := if i < |p| - 1 then i else 0;
      assert p[k + 1] in Out(g, p[k]) && p[k] == n;
      var j :| 0 <= j < |Out(g, n)| && Out(g, n)[j] == p[k + 1];
      assert Out(g, n)[j] in nodes;
    }
  }

  lemma AcyclicWalkReturns<N(!new)>(g: Graph<N>, names: seq<N>)
    requires (forall n :: n in g <==> n in names) && !HasCycle(g)
    ensures Terminates(g, names)
  {
    hide HasCycle, Walk, DepsFirst, NoRepeats;
    AcyclicExactlyWhenOrdered(g);
    var order :| Orders(g, order);
    EmptyIsOrdered(g);
    assert RanksBelow(order, names, |order|) by {
      hide WalkAll;
    }
    WalkAllSucceeds(g, order, names, [], |order|, |order|);
  }

  lemma EmptyIsOrdered<N>(g: Graph<N>)
    ensures NoRepeats<N>([]) && DepsFirst(g, [])
  {
  }

  lemma CyclicWalkNeverReturns<N(!new)>(g: Graph<N>, names: seq<N>, p: seq<N>, depth: nat)
    requires (forall n :: n in g <==> n in names) && IsCycle(g, p)
    ensures WalkAll(g, names, [], depth) == None
  {
    hide Trapped, WalkAll;
    var bad := set n | n in p;
    CycleTraps(g, p);
    assert p[0 + 1] in Out(g, p[0]) && p[0] in g && p[0] in bad;
    if WalkAll(g, names, [], depth).Some? {
      WalkAllNeverLeaves(g, bad, names, [], depth);
      assert false;
    }
  }

  /** Visiting every node returns exactly on the graphs without a cycle. */
  lemma WalkTerminatesExactlyWhenAcyclic<N(!new)>(g: Graph<N>, names: seq<N>)
    requires forall n :: n in g <==> n in names
    ensures Terminates(g, names) <==> !HasCycle(g)
  {
    hide WalkAll, IsCycle;
    if !HasCycle(g) {
      AcyclicWalkReturns(g, names);
    } else {
      var p :| IsCycle(g, p);
      forall depth: nat
        ensures WalkAll(g, names, [], depth) == None
      {
        CyclicWalkNeverReturns(g, names, p, depth);
      }
    }
  }

  // ---- the order of the processes -------------------------------------------------------

  /** The dependencies the order walk follows: trimmed, blank ones skipped. */
  function TrimmedDeps(deps: seq<string>): seq<string> {
    if deps == [] then []
    else
      var rest := TrimmedDeps(deps[1..]);
      if TrimSpace(deps[0]) == "" then rest else [TrimSpace(deps[0])] + rest
  }

  function TrimmedGraph(byName: map<string, Process>): Graph<string> {
    map n | n in byName :: TrimmedDeps(byName[n].dependsOn)
  }

  function TrimmedNames(processes: seq<Process>): (names: seq<string>)
    ensures |names| == |processes| && forall i | 0 <= i < |names| :: names[i] == TrimSpace(processes[i].name)
  {
    seq(|processes|, i requires 0 <= i < |processes| => TrimSpace(processes[i].name))
  }

  /** Each process exactly once, each after everything it depends on. */
  ghost predicate StartOrder(processes: seq<Process>, order: seq<string>) {
    && NoRepeats(order)
    && (forall n :: n in order <==> n in TrimmedNames(processes))
    && DepsFirst(TrimmedGraph(ByName(processes)), order)
  }

  predicate Closed<N(==)>(g: Graph<N>) {
    forall n | n in g :: forall d | d in g[n] :: d in g
  }

  lemma {:induction false} TrimmedDepsAre(deps: seq<string>)
    ensures forall t :: t in TrimmedDeps(deps) <==> t != "" && exists d :: d in deps && TrimSpace(d) == t
  {
    hide TrimSpace;
    if deps != [] {
      TrimmedDepsAre(deps[1..]);
      assert forall d | d in deps :: d == deps[0] || d in deps[1..];
      assert deps[0] in deps && forall d | d in deps[1..] :: d in deps;
    }
  }

  lemma AcceptedIsClosed(processes: seq<Process>)
    requires DepsOk(processes)
    ensures Closed(TrimmedGraph(ByName(processes)))
  {
    hide TrimSpace, ByName, TrimmedDeps;
    var byName := ByName(processes);
    forall n | n in byName
      ensures forall d | d in TrimmedDeps(byName[n].dependsOn) :: d in byName
    {
      TrimmedDepsAre(byName[n].dependsOn);
      assert forall d | d in byName[n].dependsOn :: DepOk(byName, n, d);
    }
  }

  lemma {:induction false} NothingDropped(deps: seq<string>)
    ensures |TrimmedDeps(deps)| <= |deps|
    ensures |TrimmedDeps(deps)| == |deps| <==> forall d | d in deps :: TrimSpace(d) != ""
  {
    hide TrimSpace;
    if deps != [] {
      NothingDropped(deps[1..]);
      assert forall d | d in deps :: d == deps[0] || d in deps[1..];
      assert deps[0] in deps && forall d | d in deps[1..] :: d in deps;
    }
  }

  /** The dependencies are all right exactly when trimming blanks none of them, and the graph read
      with trimmed names is closed and has no edge from a process to itself. */
  lemma DepsOkExactly(processes: seq<Process>)
    ensures var byName, g := ByName(processes), TrimmedGraph(ByName(processes));
      DepsOk(processes) <==>
      && (forall n | n in byName :: |TrimmedDeps(byName[n].dependsOn)| == |byName[n].dependsOn|)
      && Closed(g) && forall n | n in g :: n !in g[n]
  {
    hide TrimSpace, ByName, TrimmedDeps;
    var byName := ByName(processes);
    var g := TrimmedGraph(byName);
    forall n | n in byName
      ensures (forall d | d in byName[n].dependsOn :: DepOk(byName, n, d)) <==>
              |TrimmedDeps(byName[n].dependsOn)| == |byName[n].dependsOn| &&
              (forall d | d in g[n] :: d in g) && n !in g[n]
    {
      DepsOkAt(byName, n);
    }
  }

  lemma DepsOkAt(byName: map<string, Process>, n: string)
    requires n in byName
    ensures var deps := byName[n].dependsOn;
      (forall d | d in deps :: DepOk(byName, n, d)) <==>
      |TrimmedDeps(deps)| == |deps| && (forall d | d in TrimmedDeps(deps) :: d in byName) && n !in TrimmedDeps(deps)
  {
    hide TrimSpace, TrimmedDeps;
    var deps := byName[n].dependsOn;
    NothingDropped(deps);
    TrimmedDepsAre(deps);
    forall d | d in deps && TrimSpace(d) != "" ensures TrimSpace(d) in TrimmedDeps(deps) {
    }
    if (forall d | d in deps :: TrimSpace(d) != "") && (forall d | d in TrimmedDeps(deps) :: d in byName) &&
       n !in TrimmedDeps(deps) {
      forall d | d in deps ensures DepOk(byName, n, d) {
        assert TrimSpace(d) in TrimmedDeps(deps);
      }
    }
  }

  class OrderWalk {
    const byName: map<string, Process>
    var seen: map<string, bool>
    var order: seq<string>

    constructor (byName: map<string, Process>)
      ensures this.byName == byName && seen == map[] && order == []
    {
      this.byName := byName;
      seen := map[];
      order := [];
    }

    ghost predicate Inv()
      reads this
    {
      && (forall n :: n in seen <==> n in order)
      && (forall n | n in seen :: seen[n])
      && NoRepeats(order) && DepsFirst(TrimmedGraph(byName), order)
    }

    /** `topo` bounds the recursion; the walk itself never consults it. */
    method Visit(name: string, ghost topo: seq<string>, ghost depth: nat) returns (known: bool)
      requires Inv() && Closed(TrimmedGraph(byName)) && Orders(TrimmedGraph(byName), topo)
      requires name in byName && name in topo && Rank(topo, name) < depth
      modifies this
      ensures Inv() && known
      ensures Walk(TrimmedGraph(byName), name, old(order), depth) == Some(order)
      decreases depth
    {
      hide TrimSpace, Orders, DepsFirst, NoRepeats, Closed, TrimmedGraph;
      if name in seen && seen[name] {
        return true;
      }
      if name !in byName {
        return false;
      }
      ghost var g := TrimmedGraph(byName);
      ghost var before := order;
      SuccessorsRankLower(g, topo, name);
      var deps := byName[name].dependsOn;
      TrimmedGraphOut(byName, name);
      for i := 0 to |deps|
        invariant Inv()
        invariant WalkAll(g, TrimmedDeps(deps), before, depth - 1) ==
                  WalkAll(g, TrimmedDeps(deps[i..]), order, depth - 1)
      {
        var dep := TrimSpace(deps[i]);
        assert deps[i..][1..] == deps[i + 1..];
        if dep == "" {
          continue;
        }
        DepIsListed(byName, name, deps[i]);
        var ok := Visit(dep, topo, depth - 1);
        if !ok {
          return false;
        }
      }
      WalkAddsLast(g, topo, name, before, order, depth);
      seen := seen[name := true];
      order := order + [name];
      return true;
    }
  }

  lemma TrimmedGraphOut(byName: map<string, Process>, name: string)
    requires name in byName
    ensures Out(TrimmedGraph(byName), name) == TrimmedDeps(byName[name].dependsOn)
  {
  }

  lemma DepIsListed(byName: map<string, Process>, name: string, dep: string)
    requires name in byName && dep in byName[name].dependsOn && TrimSpace(dep) != "" && Closed(TrimmedGraph(byName))
    ensures TrimSpace(dep) in Out(TrimmedGraph(byName), name) && TrimSpace(dep) in byName
  {
    TrimmedDepsAre(byName[name].dependsOn);
  }

  lemma WalkAddsLast(g: Graph<string>, topo: seq<string>, name: string, before: seq<string>, below: seq<string>,
                     depth: nat)
    requires Orders(g, topo) && name in topo && Rank(topo, name) < depth && name !in before
    requires NoRepeats(before) && DepsFirst(g, before)
    requires WalkAll(g, Out(g, name), before, depth - 1) == Some(below)
    ensures Walk(g, name, before, depth) == Some(below + [name])
    ensures name !in below && NoRepeats(below + [name]) && DepsFirst(g, below + [name])
  {
    WalkSucceeds(g, topo, name, before, depth);
    var after := below + [name];
    assert after[|below|] == name;
    assert forall i | 0 <= i < |below| :: after[i] == below[i];
  }

  /** The last loop of `resolveProcessOrder`. */
  method WalkProcesses(processes: seq<Process>, byName: map<string, Process>, ghost topo: seq<string>)
    returns (order: seq<string>)
    requires Closed(TrimmedGraph(byName)) && Orders(TrimmedGraph(byName), topo)
    requires forall i | 0 <= i < |processes| :: StartsAt(byName, topo, TrimSpace(processes[i].name))
    ensures WalkAll(TrimmedGraph(byName), TrimmedNames(processes), [], |topo|) == Some(order)
  {
    hide TrimSpace, Closed, Orders, TrimmedGraph;
    ghost var g, names := TrimmedGraph(byName), TrimmedNames(processes);
    var walk := new OrderWalk(byName);
    EmptyIsOrdered(g);
    for i := 0 to |processes|
      invariant walk.byName == byName && walk.Inv()
      invariant WalkAll(g, names, [], |topo|) == WalkAll(g, names[i..], walk.order, |topo|)
    {
      hide DepsFirst, NoRepeats, Walk;
      var name := TrimSpace(processes[i].name);
      assert names[i..][1..] == names[i + 1..];
      if name == "" {
        continue;
      }
      var known := walk.Visit(name, topo, |topo|);
    }
    return walk.order;
  }

  lemma StartsEverywhere(processes: seq<Process>, topo: seq<string>)
    requires NamesOk(processes) && Orders(TrimmedGraph(ByName(processes)), topo)
    ensures forall i | 0 <= i < |processes| :: StartsAt(ByName(processes), topo, TrimSpace(processes[i].name))
  {
    hide TrimSpace, ByName, DepsFirst, NoRepeats, TrimmedDeps;
    forall i | 0 <= i < |processes|
      ensures StartsAt(ByName(processes), topo, TrimSpace(processes[i].name))
    {
      assert TrimSpace(processes[i].name) in ByName(processes);
      assert TrimSpace(processes[i].name) in TrimmedGraph(ByName(processes));
    }
  }

  /** A process name from which the walk can start. */
  predicate StartsAt(byName: map<string, Process>, topo: seq<string>, name: string) {
    name != "" && name in byName && name in topo && Rank(topo, name) < |topo|
  }

  /** `resolveProcessOrder`, for the manifests on which it returns: it fails exactly when the
      validator rejects, and otherwise lists each process once and after its dependencies. */
  method ResolveProcessOrder(processes: seq<Process>) returns (r: Result<seq<string>, GraphError>)
    requires Accepted(processes) ==> !HasCycle(TrimmedGraph(ByName(processes)))
    ensures r.Ok? <==> Accepted(processes)
    ensures r.Err? ==> Justified(processes, r.error)
    ensures r.Ok? ==> StartOrder(processes, r.value)
    ensures r.Ok? ==> exists depth ::
            WalkAll(TrimmedGraph(ByName(processes)), TrimmedNames(processes), [], depth) == Some(r.value)
  {
    hide TrimSpace, ByName, HasCycle, Orders, TrimmedGraph, WalkAll, StartsAt, Closed;
    var error := ValidateProcessGraph(processes);
    if error.Some? {
      return Err(error.value);
    }
    var byName: map<string, Process> := map[];
    ByNameOfNone();
    for i := 0 to |processes|
      invariant byName == ByName(processes[..i])
    {
      ByNameStep(processes, i);
      byName := byName[TrimSpace(processes[i].name) := processes[i]];
    }
    assert processes[..|processes|] == processes;
    ghost var g := TrimmedGraph(byName);
    AcceptedIsClosed(processes);
    AcyclicExactlyWhenOrdered(g);
    ghost var topo :| Orders(g, topo);
    ghost var names := TrimmedNames(processes);
    StartsEverywhere(processes, topo);
    var order := WalkProcesses(processes, byName, topo);
    NamesAreKeys(processes);
    NamesAreListed(g, topo, names, order);
    return Ok(order);
  }

  lemma NamesAreListed(g: Graph<string>, topo: seq<string>, names: seq<string>, order: seq<string>)
    requires Orders(g, topo) && Closed(g) && (forall n :: n in g <==> n in names)
    requires WalkAll(g, names, [], |topo|) == Some(order)
    ensures NoRepeats(order) && DepsFirst(g, order)
    ensures forall n :: n in order <==> n in names
  {
    assert RanksBelow(topo, names, |topo|);
    WalkAllSucceeds(g, topo, names, [], |topo|, |topo|);
    WalkStaysInside(g, names, [], |topo|);
  }

  lemma {:induction false} WalkStaysInside(g: Graph<string>, nodes: seq<string>, done: seq<string>, depth: nat)
    requires Closed(g) && (forall n | n in nodes :: n in g) && (forall n | n in done :: n in g)
    requires WalkAll(g, nodes, done, depth).Some?
    ensures forall n | n in WalkAll(g, nodes, done, depth).value :: n in g
    decreases depth, |nodes|
  {
    if nodes != [] {
      assert nodes[0] in nodes;
      if nodes[0] !in done {
        WalkStaysInside(g, Out(g, nodes[0]), done, depth - 1);
      }
      WalkStaysInside(g, nodes[1..], Walk(g, nodes[0], done, depth).value, depth);
    }
  }

  // ---- where the two walks disagree -----------------------------------------------------

  predicate DepsAreTrimmed(processes: seq<Process>) {
    forall p | p in processes :: forall d | d in p.dependsOn :: TrimSpace(d) == d
  }

  lemma {:induction false} TrimmedDepsOfTrimmed(deps: seq<string>)
    requires forall d | d in deps :: TrimSpace(d) == d && d != ""
    ensures TrimmedDeps(deps) == deps
  {
    hide TrimSpace;
    if deps != [] {
      assert deps[0] in deps;
      TrimmedDepsOfTrimmed(deps[1..]);
      assert deps == [deps[0]] + deps[1..];
    }
  }

  /** With dependency names written without surrounding space, as the stack's own manifests
      write them, the walk returns on everything the validator accepts. */
  lemma AcceptedOrderTerminates(processes: seq<Process>)
    requires Accepted(processes) && DepsAreTrimmed(processes)
    ensures !HasCycle(TrimmedGraph(ByName(processes)))
    ensures Terminates(TrimmedGraph(ByName(processes)), TrimmedNames(processes))
  {
    hide TrimSpace, ByName, HasCycle, TrimmedDeps;
    var byName := ByName(processes);
    forall n | n in byName
      ensures TrimmedDeps(byName[n].dependsOn) == byName[n].dependsOn
    {
      assert byName[n] in processes;
      assert forall d | d in byName[n].dependsOn :: DepOk(byName, n, d);
      TrimmedDepsOfTrimmed(byName[n].dependsOn);
    }
    assert TrimmedGraph(byName) == RawGraph(byName);
    NamesAreKeys(processes);
    WalkTerminatesExactlyWhenAcyclic(TrimmedGraph(byName), TrimmedNames(processes));
  }

  lemma NamesAreKeys(processes: seq<Process>)
    ensures forall n :: n in TrimmedGraph(ByName(processes)) <==> n in TrimmedNames(processes)
  {
    hide TrimSpace, ByName;
    forall n
      ensures n in ByName(processes) <==> n in TrimmedNames(processes)
    {
      if n in ByName(processes) {
        var i :| 0 <= i < |processes| && TrimSpace(processes[i].name) == n;
        assert TrimmedNames(processes)[i] == n;
      }
    }
  }

  /** On an accepted manifest the walk returns exactly when the dependency graph, read with
      trimmed names, has no cycle. */
  lemma OrderTerminatesExactlyWhenAcyclic(processes: seq<Process>)
    ensures Terminates(TrimmedGraph(ByName(processes)), TrimmedNames(processes)) <==>
            !HasCycle(TrimmedGraph(ByName(processes)))
  {
    NamesAreKeys(processes);
    WalkTerminatesExactlyWhenAcyclic(TrimmedGraph(ByName(processes)), TrimmedNames(processes));
  }

  /** Two processes that name each other with surrounding space. */
  function SpacedPair(a: string, b: string, spacedA: string, spacedB: string): seq<Process> {
    [Process(a, "", [], [spacedB], ""), Process(b, "", [], [spacedA], "")]
  }

  predicate Spaced(a: string, spacedA: string) {
    a != "" && TrimSpace(a) == a && TrimSpace(spacedA) == a && spacedA != a
  }

  lemma SpacedPairByName(a: string, b: string, spacedA: string, spacedB: string)
    requires Spaced(a, spacedA) && Spaced(b, spacedB) && a != b
    ensures var processes := SpacedPair(a, b, spacedA, spacedB);
            && ByName(processes) == map[a := processes[0], b := processes[1]]
            && TrimmedGraph(ByName(processes)) == map[a := [b], b := [a]]
  {
    hide TrimSpace;
    var processes := SpacedPair(a, b, spacedA, spacedB);
    assert processes[..1] == [processes[0]] && [processes[0]][..0] == [];
    assert ByName([processes[0]]) == map[a := processes[0]];
    assert TrimmedDeps([spacedB]) == [b] && TrimmedDeps([spacedA]) == [a];
  }

  lemma UnlistedTargetsNoCycle<N(!new)>(a: N, b: N, x: N, y: N)
    requires a != b && x !in {a, b} && y !in {a, b} && x != y
    ensures !HasCycle(map[a := [y], b := [x]])
  {
    var g := map[a := [y], b := [x]];
    var order := [x, y, a, b];
    assert order[..2] == [x, y] && order[..3] == [x, y, a];
    OrderedHasNoCycle(g, order);
  }

  lemma RawPair(a: string, b: string, p: Process, q: Process)
    ensures RawGraph(map[a := p, b := q]) == map[a := p.dependsOn, b := q.dependsOn]
  {
  }

  lemma SpacedPairAccepted(a: string, b: string, spacedA: string, spacedB: string)
    requires Spaced(a, spacedA) && Spaced(b, spacedB) && a != b
    ensures Accepted(SpacedPair(a, b, spacedA, spacedB))
  {
    hide TrimSpace, ByName, HasCycle, TrimmedGraph, RawGraph;
    SpacedPairByName(a, b, spacedA, spacedB);
    var byName := ByName(SpacedPair(a, b, spacedA, spacedB));
    assert DepOk(byName, a, spacedB) && DepOk(byName, b, spacedA);
    assert spacedA != b && spacedB != a;
    RawPair(a, b, byName[a], byName[b]);
    UnlistedTargetsNoCycle(a, b, spacedA, spacedB);
  }

  /** Acceptance alone does not guarantee that: the validator walks dependency names as they are
      written, so a cycle spelled with surrounding space passes it, and on it the order walk
      never returns. */
  lemma AcceptanceIsNotEnough(a: string, b: string, spacedA: string, spacedB: string)
    requires Spaced(a, spacedA) && Spaced(b, spacedB) && a != b
    ensures var processes := SpacedPair(a, b, spacedA, spacedB);
            Accepted(processes) && !Terminates(TrimmedGraph(ByName(processes)), TrimmedNames(processes))
  {
    hide TrimSpace, ByName, Terminates, Accepted, TrimmedGraph, SpacedPair, HasCycle;
    SpacedPairAccepted(a, b, spacedA, spacedB);
    SpacedPairByName(a, b, spacedA, spacedB);
    PairCycles(a, b);
    OrderTerminatesExactlyWhenAcyclic(SpacedPair(a, b, spacedA, spacedB));
  }

  lemma PairCycles<N(!new)>(a: N, b: N)
    requires a != b
    ensures HasCycle(map[a := [b], b := [a]])
  {
    assert IsCycle(map[a := [b], b := [a]], [a, b, a]);
  }

  lemma SpaceInFront(name: string)
    requires name != "" && TrimSpace(name) == name
    ensures Spaced(name, " " + name)
  {
    assert (" " + name)[1..] == name;
    assert TrimLeft(" " + name) == TrimLeft(name);
  }

  /** For example `gateway` depending on " worker" and `worker` on " gateway". */
  lemma SpacedManifestIsNeverOrdered()
    ensures var processes := SpacedPair("gateway", "worker", " gateway", " worker");
            Accepted(processes) && !Terminates(TrimmedGraph(ByName(processes)), TrimmedNames(processes))
  {
    hide TrimSpace, Accepted, Terminates, SpacedPair, Spaced;
    TrimSpaceFixed("worker");
    TrimSpaceFixed("gateway");
    SpaceInFront("worker");
    SpaceInFront("gateway");
    assert " " + "worker" == " worker" && " " + "gateway" == " gateway";
    AcceptanceIsNotEnough("gateway", "worker", " gateway", " worker");
  }
}
