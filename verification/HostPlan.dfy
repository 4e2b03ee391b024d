/** The plan that host orchestrators start and stop the processes by, and its validator
    (internal/stackcmd/bundle.go). */
module HostPlan {
  import opened Digraph
  import opened GoStrings
  import opened ProcessGraph
  import opened ProcessOrder
  import opened Wrappers

  const NEVER := "never"
  const ON_FAILURE := "on-failure"
  const ALWAYS := "always"

  const MILLISECOND := 1_000_000

  const PLAN_VERSION := "v1"
  const UNIT_PREFIX := "deerflow-runtime-"

  /** Durations are in nanoseconds. */
  datatype BundleOptions = BundleOptions(
    restartPolicy: string, maxRestarts: int, restartDelay: int, dependencyTimeout: int, failureIsolation: bool)

  datatype RuntimePolicy = RuntimePolicy(
    restartPolicy: string, maxRestarts: int, restartDelayMilli: int, dependencyTimeoutMilli: int,
      failureIsolation: bool)

  datatype HostProcess = HostProcess(
    name: string, binary: string, args: seq<string>, dependsOn: seq<string>, readyURL: string, policy: RuntimePolicy)

  datatype SystemdService = SystemdService(
    name: string, afterUnits: seq<string>, wants: seq<string>, execStart: seq<string>, restart: string,
      restartDelayMilli: int)

  datatype HostPlan = HostPlan(
    version: string, policy: RuntimePolicy, processes: seq<HostProcess>, unitPrefix: string,
    services: seq<SystemdService>, startOrder: seq<string>, shutdownOrder: seq<string>)

  datatype ElectronProcess = ElectronProcess(
    name: string, command: seq<string>, dependsOn: seq<string>, readyURL: string, policy: RuntimePolicy)

  datatype ElectronBundle = ElectronBundle(
    version: string, startOrder: seq<string>, shutdownOrder: seq<string>, processes: seq<ElectronProcess>)

  function ParseRestartPolicy(raw: string): Option<string> {
    var word := ToLower(TrimSpace(raw));
    if word == "" || word == ON_FAILURE then Some(ON_FAILURE)
    else if word == NEVER then Some(NEVER)
    else if word == ALWAYS then Some(ALWAYS)
    else None
  }

  function NormalizeOptions(options: BundleOptions): Option<BundleOptions> {
    match ParseRestartPolicy(options.restartPolicy)
    case None => None
    case Some(policy) =>
      Some(BundleOptions(
        policy, options.maxRestarts,
        if options.restartDelay >= 0 then options.restartDelay else 500 * MILLISECOND,
        if options.dependencyTimeout > 0 then options.dependencyTimeout else 60_000 * MILLISECOND,
        options.failureIsolation))
  }

  lemma NormalizedPolicyParses(options: BundleOptions)
    requires NormalizeOptions(options).Some?
    ensures ParseRestartPolicy(NormalizeOptions(options).value.restartPolicy).Some?
  {
    hide TrimSpace, ToLower;
    WordPolicyParses(NormalizeOptions(options).value.restartPolicy);
  }

  lemma WordPolicyParses(word: string)
    requires word == ON_FAILURE || word == NEVER || word == ALWAYS
    ensures ParseRestartPolicy(word) == Some(word)
  {
    hide TrimSpace, ToLower;
    PlainWordIsFixed(word);
  }

  // ---- building -------------------------------------------------------------------------

  /** Go's `Duration.Milliseconds`, which drops the fraction. */
  function Milliseconds(duration: int): int {
    if duration >= 0 then duration / MILLISECOND else -(-duration / MILLISECOND)
  }

  function PolicyOf(options: BundleOptions): RuntimePolicy {
    RuntimePolicy(options.restartPolicy, options.maxRestarts, Milliseconds(options.restartDelay),
                  Milliseconds(options.dependencyTimeout), options.failureIsolation)
  }

  function ServiceName(process: string): string {
    UNIT_PREFIX + TrimSpace(process) + ".service"
  }

  function RestartMode(policy: string): string {
    if policy == NEVER then "no" else if policy == ALWAYS then "always" else "on-failure"
  }

  function UnitsOf(deps: seq<string>): seq<string> {
    if deps == [] then []
    else
      var rest := UnitsOf(deps[1..]);
      if TrimSpace(deps[0]) == "" then rest else [ServiceName(TrimSpace(deps[0]))] + rest
  }

  function ProcessPlan(p: Process, options: BundleOptions): HostProcess {
    HostProcess(p.name, p.binary, p.args, p.dependsOn, p.readyURL, PolicyOf(options))
  }

  function ServicePlan(p: Process, options: BundleOptions): SystemdService {
    SystemdService(ServiceName(p.name), UnitsOf(p.dependsOn), UnitsOf(p.dependsOn), [p.binary] + p.args,
                   RestartMode(options.restartPolicy), Milliseconds(options.restartDelay))
  }

  function Reversed(names: seq<string>): (r: seq<string>)
    ensures |r| == |names| && forall i | 0 <= i < |r| :: r[i] == names[|names| - 1 - i]
  {
    seq(|names|, i requires 0 <= i < |names| => names[|names| - 1 - i])
  }

  /** `plan` lists the processes in `order`, with their units, and stops them in reverse. */
  predicate PlansInOrder(byName: map<string, Process>, options: BundleOptions, order: seq<string>, plan: HostPlan) {
    && |plan.processes| == |plan.services| == |plan.startOrder| == |order|
    && (forall i | 0 <= i < |order| ::
          && order[i] in byName
          && plan.processes[i] == ProcessPlan(byName[order[i]], options)
          && plan.services[i] == ServicePlan(byName[order[i]], options)
          && plan.startOrder[i] == byName[order[i]].name)
    && plan.shutdownOrder == Reversed(plan.startOrder)
    && plan.policy == PolicyOf(options) && plan.version == PLAN_VERSION && plan.unitPrefix == UNIT_PREFIX
  }

  method BuildHostPlan(processes: seq<Process>, options: BundleOptions) returns (r: Result<HostPlan, GraphError>)
    requires Accepted(processes) ==> !HasCycle(TrimmedGraph(ByName(processes)))
    ensures r.Ok? <==> Accepted(processes)
    ensures r.Ok? ==> exists order ::
            StartOrder(processes, order) && PlansInOrder(ByName(processes), options, order, r.value)
  {
    hide TrimSpace, ByName, StartOrder, ProcessPlan, ServicePlan, PolicyOf, HasCycle, Accepted, Reversed;
    var resolved := ResolveProcessOrder(processes);
    if resolved.Err? {
      return Err(resolved.error);
    }
    var order := resolved.value;
    OrderNamesKnown(processes, order);
    var byName := ByName(processes);
    var plans, services, startOrder := PlanProcesses(byName, order, options);
    var shutdownOrder := Reverse(startOrder);
    r := Ok(HostPlan(PLAN_VERSION, PolicyOf(options), plans, UNIT_PREFIX, services, startOrder, shutdownOrder));
    assert PlansInOrder(byName, options, order, r.value);
  }

  /** The loop of `buildHostPlan` over the start order. */
  method PlanProcesses(byName: map<string, Process>, order: seq<string>, options: BundleOptions)
    returns (plans: seq<HostProcess>, services: seq<SystemdService>, startOrder: seq<string>)
    requires forall i | 0 <= i < |order| :: order[i] in byName
    ensures |plans| == |services| == |startOrder| == |order|
    ensures forall j | 0 <= j < |order| ::
      plans[j] == ProcessPlan(byName[order[j]], options) &&
      services[j] == ServicePlan(byName[order[j]], options) && startOrder[j] == byName[order[j]].name
  {
    hide TrimSpace, ProcessPlan, ServicePlan, PolicyOf;
    plans, services, startOrder := [], [], [];
    for i := 0 to |order|
      invariant |plans| == |services| == |startOrder| == i
      invariant forall j | 0 <= j < i ::
        plans[j] == ProcessPlan(byName[order[j]], options) &&
        services[j] == ServicePlan(byName[order[j]], options) && startOrder[j] == byName[order[j]].name
    {
      if order[i] !in byName {
        continue;
      }
      var process := byName[order[i]];
      plans := plans + [ProcessPlan(process, options)];
      startOrder := startOrder + [process.name];
      var service := BuildService(process, options);
      services := services + [service];
    }
  }

  method Reverse(names: seq<string>) returns (reversed: seq<string>)
    ensures reversed == Reversed(names)
  {
    reversed := [];
    for i := |names| downto 0
      invariant |reversed| == |names| - i
      invariant forall j | 0 <= j < |reversed| :: reversed[j] == names[|names| - 1 - j]
    {
      reversed := reversed + [names[i]];
    }
  }

  method BuildService(p: Process, options: BundleOptions) returns (service: SystemdService)
    ensures service == ServicePlan(p, options)
  {
    hide TrimSpace, UnitsOf, ServiceName, RestartMode;
    var units := Units(p.dependsOn);
    service := SystemdService(ServiceName(p.name), units, units, [p.binary] + p.args,
                              RestartMode(options.restartPolicy), Milliseconds(options.restartDelay));
  }

  method Units(deps: seq<string>) returns (units: seq<string>)
    ensures units == UnitsOf(deps)
  {
    hide TrimSpace, ServiceName;
    units := [];
    for i := 0 to |deps|
      invariant UnitsOf(deps) == units + UnitsOf(deps[i..])
    {
      assert deps[i..][1..] == deps[i + 1..];
      var trimmed := TrimSpace(deps[i]);
      if trimmed != "" {
        units := units + [ServiceName(trimmed)];
      }
    }
  }

  lemma OrderNamesKnown(processes: seq<Process>, order: seq<string>)
    requires StartOrder(processes, order)
    ensures forall i | 0 <= i < |order| :: order[i] in ByName(processes)
  {
    hide TrimSpace, ByName;
    forall i | 0 <= i < |order|
      ensures order[i] in ByName(processes)
    {
      assert order[i] in TrimmedNames(processes);
    }
  }

  // ---- validating -----------------------------------------------------------------------

  /** The trimmed names in `order` are those of the processes, each exactly once. */
  predicate OrderSetOk(order: seq<string>, known: set<string>) {
    && |order| == |known|
    && (forall i | 0 <= i < |order| :: TrimSpace(order[i]) != "" && TrimSpace(order[i]) in known)
    && (forall i, j | 0 <= i < j < |order| :: TrimSpace(order[i]) != TrimSpace(order[j]))
  }

  /** Known names, none twice, and policies that parse. */
  predicate HostsOk(byName: map<string, Process>, processes: seq<HostProcess>) {
    && (forall i | 0 <= i < |processes| :: HostOk(byName, processes[i]))
    && (forall i, j | 0 <= i < j < |processes| :: TrimSpace(processes[i].name) != TrimSpace(processes[j].name))
  }

  predicate HostOk(byName: map<string, Process>, p: HostProcess) {
    TrimSpace(p.name) != "" && TrimSpace(p.name) in byName && ParseRestartPolicy(p.policy.restartPolicy).Some?
  }

  predicate HostPlanOk(byName: map<string, Process>, plan: HostPlan) {
    && |plan.processes| == |byName.Keys|
    && ParseRestartPolicy(plan.policy.restartPolicy).Some?
    && HostsOk(byName, plan.processes)
    && OrderSetOk(plan.startOrder, byName.Keys)
    && OrderSetOk(plan.shutdownOrder, byName.Keys)
    && |plan.services| == |byName.Keys|
  }

  method ValidateOrderSet(order: seq<string>, known: set<string>) returns (ok: bool)
    ensures ok <==> OrderSetOk(order, known)
  {
    hide TrimSpace;
    if |order| != |known| {
      return false;
    }
    var seen: set<string> := {};
    for i := 0 to |order|
      invariant forall j | 0 <= j < i :: TrimSpace(order[j]) != "" && TrimSpace(order[j]) in known
      invariant forall j, k | 0 <= j < k < i :: TrimSpace(order[j]) != TrimSpace(order[k])
      invariant forall n :: n in seen <==> exists j | 0 <= j < i :: TrimSpace(order[j]) == n
    {
      var trimmed := TrimSpace(order[i]);
      if trimmed == "" || trimmed !in known || trimmed in seen {
        return false;
      }
      seen := seen + {trimmed};
    }
    return true;
  }

  /** Checking the count, the names and the repetitions is enough to know that every process is
      listed. */
  lemma OrderSetCovers(order: seq<string>, known: set<string>)
    requires OrderSetOk(order, known)
    ensures forall n | n in known :: exists i | 0 <= i < |order| :: TrimSpace(order[i]) == n
  {
    hide TrimSpace;
    var names := seq(|order|, i requires 0 <= i < |order| => TrimSpace(order[i]));
    forall n | n in known
      ensures exists i | 0 <= i < |order| :: TrimSpace(order[i]) == n
    {
      if forall i | 0 <= i < |names| :: names[i] != n {
        DistinctWithin(names, known - {n});
        assert false;
      }
      var i :| 0 <= i < |names| && names[i] == n;
    }
  }

  /** The loop of `validateHostPlan`; it stops at the first process it complains about. */
  method CheckHosts(byName: map<string, Process>, processes: seq<HostProcess>) returns (ok: bool, hosts: set<string>)
    ensures ok <==> HostsOk(byName, processes)
    ensures ok ==> forall n :: n in hosts <==> exists j | 0 <= j < |processes| :: TrimSpace(processes[j].name) == n
  {
    hide TrimSpace, ParseRestartPolicy;
    hosts := {};
    for i := 0 to |processes|
      invariant forall j | 0 <= j < i :: HostOk(byName, processes[j])
      invariant forall j, k | 0 <= j < k < i :: TrimSpace(processes[j].name) != TrimSpace(processes[k].name)
      invariant forall n :: n in hosts <==> exists j | 0 <= j < i :: TrimSpace(processes[j].name) == n
    {
      var name := TrimSpace(processes[i].name);
      if name == "" || name !in byName || name in hosts ||
         ParseRestartPolicy(processes[i].policy.restartPolicy) == None {
        return false, hosts;
      }
      hosts := hosts + {name};
    }
    return true, hosts;
  }

  /** `validateHostPlan` on the manifest's processes by name. */
  method ValidateHostPlan(byName: map<string, Process>, plan: HostPlan) returns (ok: bool)
    ensures ok <==> HostPlanOk(byName, plan)
  {
    hide TrimSpace, ParseRestartPolicy, OrderSetOk;
    if |plan.processes| != |byName.Keys| || ParseRestartPolicy(plan.policy.restartPolicy) == None {
      return false;
    }
    var hostsOk, hosts := CheckHosts(byName, plan.processes);
    if !hostsOk {
      return false;
    }
    HostsCover(byName, plan.processes, hosts);
    if byName.Keys != hosts {
      return false;
    }
    var startOk := ValidateOrderSet(plan.startOrder, byName.Keys);
    var shutdownOk := ValidateOrderSet(plan.shutdownOrder, byName.Keys);
    return startOk && shutdownOk && |plan.services| == |byName.Keys|;
  }

  /** The validator's own test that no process is missing can no longer fail where it stands. */
  lemma HostsCover(byName: map<string, Process>, processes: seq<HostProcess>, hosts: set<string>)
    requires |processes| == |byName.Keys|
    requires forall j | 0 <= j < |processes| :: TrimSpace(processes[j].name) in byName
    requires forall j, k | 0 <= j < k < |processes| :: TrimSpace(processes[j].name) != TrimSpace(processes[k].name)
    requires forall n :: n in hosts <==> exists j | 0 <= j < |processes| :: TrimSpace(processes[j].name) == n
    ensures hosts == byName.Keys
  {
    hide TrimSpace;
    var names := seq(|processes|, i requires 0 <= i < |processes| => TrimSpace(processes[i].name));
    assert hosts <= byName.Keys;
    forall n | n in byName.Keys
      ensures n in hosts
    {
      if n !in hosts {
        assert forall i | 0 <= i < |names| :: names[i] != n;
        DistinctWithin(names, byName.Keys - {n});
        assert false;
      }
    }
  }

  // ---- a built plan is valid ------------------------------------------------------------

  lemma OrderCoversKeys(processes: seq<Process>, order: seq<string>)
    requires StartOrder(processes, order)
    ensures |order| == |ByName(processes).Keys|
    ensures forall i | 0 <= i < |order| :: order[i] in ByName(processes)
  {
    hide TrimSpace, ByName, DepsFirst;
    OrderNamesKnown(processes, order);
    var keys := ByName(processes).Keys;
    forall n | n in keys
      ensures n in order
    {
      var i :| 0 <= i < |processes| && TrimSpace(processes[i].name) == n;
      assert TrimmedNames(processes)[i] == n;
    }
    DistinctCount(order, keys);
  }

  lemma {:induction false} DistinctCount(order: seq<string>, keys: set<string>)
    requires NoRepeats(order) && forall n :: n in order <==> n in keys
    ensures |order| == |keys|
    decreases |order|
  {
    if order != [] {
      var n := |order| - 1;
      assert order[n] in keys;
      forall x
        ensures x in order[..n] <==> x in keys - {order[n]}
      {
      }
      DistinctCount(order[..n], keys - {order[n]});
    } else {
      assert forall n :: n !in keys;
      assert keys == {};
    }
  }

  /** The names of `order`, perhaps with surrounding space. */
  predicate Spells(names: seq<string>, order: seq<string>) {
    |names| == |order| && forall i | 0 <= i < |order| :: TrimSpace(names[i]) == order[i] && order[i] != ""
  }

  lemma PlanSpellsOrder(processes: seq<Process>, options: BundleOptions, order: seq<string>, plan: HostPlan)
    requires NamesOk(processes) && PlansInOrder(ByName(processes), options, order, plan)
    ensures Spells(plan.startOrder, order)
  {
    hide TrimSpace, ByName, ServicePlan;
    var byName := ByName(processes);
    forall i | 0 <= i < |order|
      ensures TrimSpace(byName[order[i]].name) == order[i] && order[i] != ""
    {
      var k :| 0 <= k < |processes| && TrimSpace(processes[k].name) == order[i];
    }
  }

  lemma SpelledOrderOk(names: seq<string>, order: seq<string>, known: set<string>)
    requires Spells(names, order) && NoRepeats(order)
    requires |order| == |known| && forall i | 0 <= i < |order| :: order[i] in known
    ensures OrderSetOk(names, known)
  {
    hide TrimSpace;
  }

  lemma ReversedOrderOk(order: seq<string>, known: set<string>)
    requires OrderSetOk(order, known)
    ensures OrderSetOk(Reversed(order), known)
  {
    hide TrimSpace;
  }

  lemma PlannedHostsOk(processes: seq<Process>, options: BundleOptions, order: seq<string>, plan: HostPlan)
    requires PlansInOrder(ByName(processes), options, order, plan) && Spells(plan.startOrder, order)
    requires NoRepeats(order) && ParseRestartPolicy(options.restartPolicy).Some?
    ensures HostsOk(ByName(processes), plan.processes)
  {
    hide TrimSpace, ByName, ParseRestartPolicy, ServicePlan, Reversed;
    assert forall i | 0 <= i < |order| :: TrimSpace(plan.processes[i].name) == order[i];
  }

  /** Every plan built with normalised options passes the plan validator. */
  lemma BuiltPlanIsValid(processes: seq<Process>, options: BundleOptions, order: seq<string>, plan: HostPlan)
    requires NamesOk(processes) && StartOrder(processes, order)
    requires ParseRestartPolicy(options.restartPolicy).Some?
    requires PlansInOrder(ByName(processes), options, order, plan)
    ensures HostPlanOk(ByName(processes), plan)
  {
    hide TrimSpace, ByName, ParseRestartPolicy, DepsFirst, Reversed, NamesOk, NoRepeats, Spells, OrderSetOk, HostsOk;
    OrderCoversKeys(processes, order);
    PlanSpellsOrder(processes, options, order, plan);
    SpelledOrderOk(plan.startOrder, order, ByName(processes).Keys);
    ReversedOrderOk(plan.startOrder, ByName(processes).Keys);
    PlannedHostsOk(processes, options, order, plan);
  }

  predicate Planned(plan: HostPlan, name: string) {
    exists j | 0 <= j < |plan.processes| :: TrimSpace(plan.processes[j].name) == name
  }

  /** `e` runs `p` as the plan does: the same command line, dependencies, ready URL and policy. */
  predicate Runs(e: ElectronProcess, p: HostProcess) {
    && e.name == p.name && e.command == [p.binary] + p.args && e.dependsOn == p.dependsOn
    && e.readyURL == p.readyURL && e.policy == p.policy
  }

  predicate RunsPlanned(plan: HostPlan, e: ElectronProcess, name: string) {
    exists j | 0 <= j < |plan.processes| :: TrimSpace(plan.processes[j].name) == name && Runs(e, plan.processes[j])
  }

  /** The Electron bundle written for a plan: when every name of the start order is planned, one
      entry for each, in order, running the planned process of that name. */
  method WriteElectronBundle(plan: HostPlan) returns (bundle: ElectronBundle)
    ensures bundle.version == plan.version
    ensures bundle.startOrder == plan.startOrder && bundle.shutdownOrder == plan.shutdownOrder
    ensures |bundle.processes| <= |plan.startOrder|
    ensures (forall i | 0 <= i < |plan.startOrder| :: Planned(plan, TrimSpace(plan.startOrder[i]))) ==>
              |bundle.processes| == |plan.startOrder| &&
              forall i | 0 <= i < |bundle.processes| ::
                RunsPlanned(plan, bundle.processes[i], TrimSpace(plan.startOrder[i]))
  {
    hide TrimSpace, RunsPlanned;
    var byProcess := ByProcess(plan);
    var written: seq<ElectronProcess> := [];
    for i := 0 to |plan.startOrder|
      invariant |written| <= i
      invariant (forall k | 0 <= k < i :: Planned(plan, TrimSpace(plan.startOrder[k]))) ==>
                  |written| == i && forall k | 0 <= k < i ::
                    RunsPlanned(plan, written[k], TrimSpace(plan.startOrder[k]))
    {
      hide Planned;
      var name := TrimSpace(plan.startOrder[i]);
      if name !in byProcess {
        continue;
      }
      var p := byProcess[name];
      var e := ElectronProcess(p.name, [p.binary] + p.args, p.dependsOn, p.readyURL, p.policy);
      RunsWhatIsPlanned(plan, e, p, name);
      written := written + [e];
    }
    bundle := ElectronBundle(plan.version, plan.startOrder, plan.shutdownOrder, written);
  }

  /** The planned processes by trimmed name. */
  method ByProcess(plan: HostPlan) returns (byProcess: map<string, HostProcess>)
    ensures forall n :: n in byProcess <==> Planned(plan, n)
    ensures forall n | n in byProcess :: TrimSpace(byProcess[n].name) == n && byProcess[n] in plan.processes
  {
    hide TrimSpace;
    byProcess := map[];
    for i := 0 to |plan.processes|
      invariant forall n :: n in byProcess <==> exists j | 0 <= j < i :: TrimSpace(plan.processes[j].name) == n
      invariant forall n | n in byProcess :: TrimSpace(byProcess[n].name) == n && byProcess[n] in plan.processes
    {
      byProcess := byProcess[TrimSpace(plan.processes[i].name) := plan.processes[i]];
    }
  }

  lemma RunsWhatIsPlanned(plan: HostPlan, e: ElectronProcess, p: HostProcess, name: string)
    requires p in plan.processes && TrimSpace(p.name) == name && Runs(e, p)
    ensures RunsPlanned(plan, e, name)
  {
    hide TrimSpace;
    var j :| 0 <= j < |plan.processes| && plan.processes[j] == p;
  }

  predicate ElectronBundleOk(plan: HostPlan, bundle: ElectronBundle) {
    |bundle.processes| == |plan.startOrder| && bundle.startOrder == plan.startOrder &&
      bundle.shutdownOrder == plan.shutdownOrder
  }

  /** Nothing of a planned process is lost in the bundle. */
  lemma BundleKeepsProcess(plan: HostPlan, e: ElectronProcess, name: string)
    requires RunsPlanned(plan, e, name)
    ensures exists j | 0 <= j < |plan.processes| ::
      var p := plan.processes[j];
      TrimSpace(p.name) == name && e == ElectronProcess(p.name, [p.binary] + p.args, p.dependsOn, p.readyURL, p.policy)
  {
    hide TrimSpace;
  }

  /** A bundle accepted beside an accepted plan has as many processes as the manifest, starts each of
      them once and stops each of them once. */
  lemma AcceptedBundleCovers(byName: map<string, Process>, plan: HostPlan, bundle: ElectronBundle, name: string)
    requires HostPlanOk(byName, plan) && ElectronBundleOk(plan, bundle) && name in byName
    ensures |bundle.processes| == |byName|
    ensures exists i | 0 <= i < |bundle.startOrder| :: TrimSpace(bundle.startOrder[i]) == name
    ensures exists i | 0 <= i < |bundle.shutdownOrder| :: TrimSpace(bundle.shutdownOrder[i]) == name
    ensures OrderSetOk(bundle.startOrder, byName.Keys) && OrderSetOk(bundle.shutdownOrder, byName.Keys)
  {
    hide TrimSpace, HostsOk;
    OrderSetCovers(bundle.startOrder, byName.Keys);
    OrderSetCovers(bundle.shutdownOrder, byName.Keys);
  }

  method ValidateElectronBundle(plan: HostPlan, bundle: ElectronBundle) returns (ok: bool)
    ensures ok <==> ElectronBundleOk(plan, bundle)
  {
    if |bundle.processes| != |plan.startOrder| || |bundle.startOrder| != |plan.startOrder| ||
       |bundle.shutdownOrder| != |plan.shutdownOrder| {
      return false;
    }
    for i := 0 to |bundle.startOrder|
      invariant bundle.startOrder[..i] == plan.startOrder[..i]
    {
      if bundle.startOrder[i] != plan.startOrder[i] {
        return false;
      }
    }
    for i := 0 to |bundle.shutdownOrder|
      invariant bundle.shutdownOrder[..i] == plan.shutdownOrder[..i]
    {
      if bundle.shutdownOrder[i] != plan.shutdownOrder[i] {
        return false;
      }
    }
    return true;
  }

  /** Any manifest the bundle writer can order, with any options it accepts, is written as a
      bundle that passes both validators. */
  method WriteThenValidate(processes: seq<Process>, raw: BundleOptions) returns (written: bool, valid: bool)
    requires Accepted(processes) ==> !HasCycle(TrimmedGraph(ByName(processes)))
    ensures written <==> Accepted(processes) && NormalizeOptions(raw).Some?
    ensures written ==> valid
  {
    hide TrimSpace, ByName, ParseRestartPolicy, HasCycle, StartOrder, PlansInOrder;
    var options := NormalizeOptions(raw);
    if options == None {
      return false, false;
    }
    var built := BuildHostPlan(processes, options.value);
    if built.Err? {
      return false, false;
    }
    var plan := built.value;
    ghost var order :| StartOrder(processes, order) && PlansInOrder(ByName(processes), options.value, order, plan);
    NormalizedPolicyParses(raw);
    BuiltPlanIsValid(processes, options.value, order, plan);
    var planOk := ValidateHostPlan(ByName(processes), plan);
    StartedProcessesArePlanned(ByName(processes), plan);
    var bundle := WriteElectronBundle(plan);
    var electronOk := ValidateElectronBundle(plan, bundle);
    return true, planOk && electronOk;
  }

  lemma StartedProcessesArePlanned(byName: map<string, Process>, plan: HostPlan)
    requires HostPlanOk(byName, plan)
    ensures forall i | 0 <= i < |plan.startOrder| :: Planned(plan, TrimSpace(plan.startOrder[i]))
  {
    hide TrimSpace, ParseRestartPolicy;
    var hosts := set j | 0 <= j < |plan.processes| :: TrimSpace(plan.processes[j].name);
    HostsCover(byName, plan.processes, hosts);
    forall i | 0 <= i < |plan.startOrder|
      ensures Planned(plan, TrimSpace(plan.startOrder[i]))
    {
      assert TrimSpace(plan.startOrder[i]) in hosts;
    }
  }

  /** Unit `j` starts the process `order[j]` names, before unit `i`. */
  predicate EarlierUnit(plan: HostPlan, order: seq<string>, i: nat, j: nat, unit: string) {
    j < i && j < |plan.services| && j < |order| && plan.services[j].name == unit &&
    unit == UNIT_PREFIX + order[j] + ".service"
  }

  lemma {:induction false} UnitsOfDeps(deps: seq<string>)
    ensures forall u :: u in UnitsOf(deps) <==> exists d :: d in TrimmedDeps(deps) && u == ServiceName(d)
  {
    hide TrimSpace, ServiceName;
    if deps != [] {
      UnitsOfDeps(deps[1..]);
      var d := TrimSpace(deps[0]);
      forall u
        ensures u in UnitsOf(deps) <==> exists d :: d in TrimmedDeps(deps) && u == ServiceName(d)
      {
        if x :| x in TrimmedDeps(deps) && u == ServiceName(x) {
          assert x == d || x in TrimmedDeps(deps[1..]);
        }
        if x :| x in TrimmedDeps(deps[1..]) && u == ServiceName(x) {
          assert x in TrimmedDeps(deps);
        }
        if d != "" && u == ServiceName(d) {
          assert d in TrimmedDeps(deps);
        }
      }
    }
  }

  /** Each unit runs its own process's command line and waits for exactly the units of the processes
      it depends on, all of them earlier in the plan. */
  lemma ServiceWaitsForDependencies(processes: seq<Process>, options: BundleOptions, order: seq<string>,
                                    plan: HostPlan, i: nat)
    requires StartOrder(processes, order) && PlansInOrder(ByName(processes), options, order, plan) && i < |order|
    ensures var unit, p := plan.services[i], ByName(processes)[order[i]];
      && p in processes && TrimSpace(p.name) == order[i]
      && unit.name == UNIT_PREFIX + order[i] + ".service"
      && unit.execStart == [p.binary] + p.args && unit.afterUnits == unit.wants
      && (forall u | u in unit.afterUnits :: exists j :: EarlierUnit(plan, order, i, j, u))
      && forall dep | dep in TrimmedGraph(ByName(processes))[order[i]] ::
           UNIT_PREFIX + dep + ".service" in unit.afterUnits
  {
    hide ByName, TrimSpace, TrimmedDeps, UnitsOf, Reversed;
    var byName := ByName(processes);
    var g := TrimmedGraph(byName);
    UnitsOfDeps(byName[order[i]].dependsOn);
    forall dep | dep in g[order[i]]
      ensures TrimSpace(dep) == dep && exists j :: EarlierUnit(plan, order, i, j, ServiceName(dep))
      ensures ServiceName(dep) == UNIT_PREFIX + dep + ".service"
    {
      assert dep in Out(g, order[i]);
      var j :| 0 <= j < i && order[..i][j] == dep;
      assert TrimSpace(byName[order[j]].name) == order[j] == dep;
      TrimSpaceFixed(byName[order[j]].name);
      assert EarlierUnit(plan, order, i, j, ServiceName(dep));
    }
    TrimSpaceFixed(byName[order[i]].name);
  }

  /** Each planned process is one of the manifest's, command line, dependencies and all, and every plan
      and process carries the options' policy: limits as they are, unset times by default, and times
      in whole milliseconds. */
  lemma PlanKeepsProcesses(processes: seq<Process>, raw: BundleOptions, order: seq<string>, plan: HostPlan, i: nat)
    requires NormalizeOptions(raw).Some? && PlansInOrder(ByName(processes), NormalizeOptions(raw).value, order, plan)
    requires i < |order|
    ensures var planned, p := plan.processes[i], ByName(processes)[order[i]];
      && planned.name == p.name && planned.binary == p.binary && planned.args == p.args
      && planned.dependsOn == p.dependsOn && planned.readyURL == p.readyURL && planned.policy == plan.policy
    ensures plan.policy.maxRestarts == raw.maxRestarts && plan.policy.failureIsolation == raw.failureIsolation
    ensures Some(plan.policy.restartPolicy) == ParseRestartPolicy(raw.restartPolicy)
    ensures InMilliseconds(if raw.restartDelay >= 0 then raw.restartDelay else 500_000_000,
                           plan.policy.restartDelayMilli)
    ensures InMilliseconds(if raw.dependencyTimeout > 0 then raw.dependencyTimeout else 60_000_000_000,
                           plan.policy.dependencyTimeoutMilli)
  {
    hide TrimSpace, ToLower, UnitsOf, ByName, ParseRestartPolicy;
  }

  /** `milli` is a duration, which is not negative, in milliseconds without the fraction. */
  predicate InMilliseconds(duration: int, milli: int) {
    milli * 1_000_000 <= duration < (milli + 1) * 1_000_000
  }

  /** A unit's restart mode says what the policy says, in the unit file's words. */
  lemma RestartFollowsPolicy(raw: BundleOptions, p: Process)
    requires NormalizeOptions(raw).Some?
    ensures var service, word := ServicePlan(p, NormalizeOptions(raw).value), ToLower(TrimSpace(raw.restartPolicy));
      && (word == NEVER ==> service.restart == "no")
      && (word == ALWAYS ==> service.restart == "always")
      && (word == ON_FAILURE || word == "" ==> service.restart == "on-failure")
      && (word == NEVER || word == ALWAYS || word == ON_FAILURE || word == "")
      && var delay := if raw.restartDelay >= 0 then raw.restartDelay else 500 * MILLISECOND;
         InMilliseconds(delay, service.restartDelayMilli)
  {
    hide TrimSpace, ToLower, UnitsOf;
  }

  /** In the shutdown order every process comes before everything it depends on. */
  lemma ShutdownStopsDependentsFirst(processes: seq<Process>, options: BundleOptions, order: seq<string>,
                                     plan: HostPlan, i: nat, dep: string)
    requires StartOrder(processes, order) && PlansInOrder(ByName(processes), options, order, plan)
    requires i < |plan.shutdownOrder|
    requires dep in TrimmedGraph(ByName(processes))[TrimSpace(plan.shutdownOrder[i])]
    ensures exists j | i < j < |plan.shutdownOrder| :: TrimSpace(plan.shutdownOrder[j]) == dep
  {
    hide TrimSpace, ByName, TrimmedDeps, ServicePlan;
    var byName := ByName(processes);
    var g := TrimmedGraph(byName);
    var n := |order| - 1 - i;
    assert TrimSpace(plan.shutdownOrder[i]) == order[n];
    assert dep in Out(g, order[n]);
    var m :| 0 <= m < n && order[..n][m] == dep;
    assert TrimSpace(plan.shutdownOrder[|order| - 1 - m]) == order[m];
  }
}
