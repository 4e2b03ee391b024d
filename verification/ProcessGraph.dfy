/** The dependency graph of the runtime's processes and the three-colour walk that accepts or
    rejects it (internal/stackcmd/manifest.go). */
module ProcessGraph {
  import opened Digraph
  import opened GoStrings
  import opened Wrappers

  datatype Process = Process(name: string, binary: string, args: seq<string>, dependsOn: seq<string>, readyURL: string)

  datatype GraphError =
    | NameRequired
    | DuplicateProcess(name: string)
    | EmptyDependency(process: string)
    | SelfDependency(process: string)
    | UnknownDependency(process: string, dep: string)
    | CycleDetected(chain: seq<string>)

  // ---- the validator --------------------------------------------------------------------

  /** The processes by trimmed name; of two with one name the later. */
  function ByName(processes: seq<Process>): (m: map<string, Process>)
    ensures forall n :: n in m <==> exists i | 0 <= i < |processes| :: TrimSpace(processes[i].name) == n
    ensures forall n | n in m :: m[n] in processes && TrimSpace(m[n].name) == n
  {
    if processes == [] then map[]
    else
      var last := |processes| - 1;
      var before := ByName(processes[..last]);
      assert forall i | 0 <= i < last :: processes[..last][i] == processes[i];
      assert processes[last] in processes;
      before[TrimSpace(processes[last].name) := processes[last]]
  }

  predicate NamesOk(processes: seq<Process>) {
    && (forall i | 0 <= i < |processes| :: TrimSpace(processes[i].name) != "")
    && (forall i, j | 0 <= i < j < |processes| :: TrimSpace(processes[i].name) != TrimSpace(processes[j].name))
  }

  predicate DepOk(byName: map<string, Process>, name: string, dep: string) {
    TrimSpace(dep) != "" && TrimSpace(dep) != name && TrimSpace(dep) in byName
  }

  predicate DepsOk(processes: seq<Process>) {
    var byName := ByName(processes);
    forall n | n in byName :: forall d | d in byName[n].dependsOn :: DepOk(byName, n, d)
  }

  /** The graph that the colour walk follows: dependency names exactly as they are written. */
  function RawGraph(byName: map<string, Process>): Graph<string> {
    map n | n in byName :: byName[n].dependsOn
  }

  /** The names are all right exactly when each process has an entry of its own under its trimmed
      name, and none is blank. */
  lemma {:induction false} NamesOkExactly(processes: seq<Process>)
    ensures NamesOk(processes) <==> |ByName(processes)| == |processes| && "" !in ByName(processes)
    ensures |ByName(processes)| <= |processes|
    decreases |processes|
  {
    hide TrimSpace;
    if processes == [] {
      assert ByName(processes) == map[];
    } else {
      var last := |processes| - 1;
      var before := ByName(processes[..last]);
      NamesOkExactly(processes[..last]);
      NamesOkStep(processes);
      assert ByName(processes).Keys == before.Keys + {TrimSpace(processes[last].name)};
      assert |ByName(processes).Keys| == |ByName(processes)| && |before.Keys| == |before|;
    }
  }

  lemma NamesOkStep(processes: seq<Process>)
    requires processes != []
    ensures var last := |processes| - 1;
            NamesOk(processes) <==>
            NamesOk(processes[..last]) && TrimSpace(processes[last].name) != "" &&
            TrimSpace(processes[last].name) !in ByName(processes[..last])
  {
    hide TrimSpace;
    var last := |processes| - 1;
    var before := ByName(processes[..last]);
    assert forall i | 0 <= i < last :: processes[..last][i] == processes[i];
    assert TrimSpace(processes[last].name) in before <==>
           exists i | 0 <= i < last :: TrimSpace(processes[i].name) == TrimSpace(processes[last].name);
  }

  ghost predicate Accepted(processes: seq<Process>) {
    NamesOk(processes) && DepsOk(processes) && !HasCycle(RawGraph(ByName(processes)))
  }

  /** The complaint is true of the processes. */
  ghost predicate Justified(processes: seq<Process>, error: GraphError) {
    var byName := ByName(processes);
    match error
    case NameRequired => exists i | 0 <= i < |processes| :: TrimSpace(processes[i].name) == ""
    case DuplicateProcess(n) =>
      exists i, j | 0 <= i < j < |processes| :: TrimSpace(processes[i].name) == n && TrimSpace(processes[j].name) == n
    case EmptyDependency(n) => n in byName && exists d :: d in byName[n].dependsOn && TrimSpace(d) == ""
    case SelfDependency(n) => n in byName && exists d :: d in byName[n].dependsOn && TrimSpace(d) == n
    case UnknownDependency(n, dep) =>
      n in byName && dep !in byName && exists d :: d in byName[n].dependsOn && TrimSpace(d) == dep
    case CycleDetected(chain) =>
      IsPath(RawGraph(byName), chain) && Repeats(chain)
  }

  lemma ByNameOfNone()
    ensures ByName([]) == map[]
  {
  }

  lemma ByNameStep(processes: seq<Process>, i: nat)
    requires i < |processes|
    ensures ByName(processes[..i + 1]) == ByName(processes[..i])[TrimSpace(processes[i].name) := processes[i]]
  {
    assert processes[..i + 1][..i] == processes[..i];
  }

  method CheckNames(processes: seq<Process>) returns (r: Result<map<string, Process>, GraphError>)
    ensures r.Ok? <==> NamesOk(processes)
    ensures r.Ok? ==> r.value == ByName(processes)
    ensures r.Err? ==> Justified(processes, r.error)
  {
    hide TrimSpace, ByName;
    var byName: map<string, Process> := map[];
    ByNameOfNone();
    for i := 0 to |processes|
      invariant NamesOk(processes[..i]) && byName == ByName(processes[..i])
    {
      var name := TrimSpace(processes[i].name);
      ByNameStep(processes, i);
      if name == "" {
        return Err(NameRequired);
      }
      if name in byName {
        var j :| 0 <= j < i && TrimSpace(processes[..i][j].name) == name;
        assert TrimSpace(processes[j].name) == name;
        return Err(DuplicateProcess(name));
      }
      forall j | 0 <= j < i
        ensures TrimSpace(processes[j].name) != name
      {
        assert processes[..i][j] == processes[j];
      }
      byName := byName[name := processes[i]];
    }
    assert processes[..|processes|] == processes;
    return Ok(byName);
  }

  method CheckDeps(processes: seq<Process>, byName: map<string, Process>) returns (error: Option<GraphError>)
    requires byName == ByName(processes)
    ensures error == None <==> DepsOk(processes)
    ensures error.Some? ==> Justified(processes, error.value) && !error.value.CycleDetected?
  {
    hide TrimSpace, ByName;
    var todo := byName.Keys;
    while todo != {}
      invariant todo <= byName.Keys
      invariant forall n | n in byName && n !in todo :: forall d | d in byName[n].dependsOn :: DepOk(byName, n, d)
    {
      var name :| name in todo;
      var deps := byName[name].dependsOn;
      for i := 0 to |deps|
        invariant forall d | d in deps[..i] :: DepOk(byName, name, d)
      {
        assert deps[i] in deps;
        var dep := TrimSpace(deps[i]);
        if dep == "" {
          return Some(EmptyDependency(name));
        }
        if dep == name {
          return Some(SelfDependency(name));
        }
        if dep !in byName {
          return Some(UnknownDependency(name, dep));
        }
        assert deps[..i + 1] == deps[..i] + [deps[i]];
      }
      assert deps[..|deps|] == deps;
      todo := todo - {name};
    }
    return None;
  }

  /** `ValidateProcessGraph`: succeeds exactly on the processes with distinct non-blank names,
      known dependencies other than themselves and no cycle, whatever the order in which Go
      iterates over its maps; a complaint is always justified. */
  method ValidateProcessGraph(processes: seq<Process>) returns (error: Option<GraphError>)
    ensures error == None <==> Accepted(processes)
    ensures error.Some? ==> Justified(processes, error.value)
  {
    if |processes| == 0 {
      OrderedHasNoCycle(RawGraph(ByName(processes)), []);
      return None;
    }
    var names := CheckNames(processes);
    if names.Err? {
      return Some(names.error);
    }
    var byName := names.value;
    error := CheckDeps(processes, byName);
    if error.Some? {
      return;
    }
    var chain := CheckCycles(RawGraph(byName));
    if chain.Some? {
      return Some(CycleDetected(chain.value));
    }
    return None;
  }
}
