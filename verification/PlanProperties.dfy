/** What every successful plan guarantees the renderers, and what the vault
    selection means for the rewritten service manifests (main.go). */
module PlanProperties {
  import opened Wrappers
  import opened Ordering
  import opened Topology
  import opened ManagedServices
  import opened Handoffs
  import opened EnvironmentPlan

  lemma {:induction false} KeptMembers(services: seq<string>, managed: map<string, ManagedConfig>,
                                       withdrawn: set<string>)
    ensures forall s :: s in Kept(services, managed, withdrawn) <==>
                          s in services && s !in managed && s !in withdrawn
  {
    if services != [] {
      KeptMembers(services[1..], managed, withdrawn);
      assert forall s :: s in services <==> s == services[0] || s in services[1..];
    }
  }

  lemma SortedMembers(s: seq<string>)
    ensures forall x :: x in SortStrings(s) <==> x in s
  {
    SortStringsSorts(s);
    assert forall x :: x in s <==> x in multiset(s);
    assert forall x :: x in SortStrings(s) <==> x in multiset(SortStrings(s));
  }

  lemma InClusterMembers(env: Environment, services: seq<string>, withdrawn: set<string>)
    ensures forall s :: s in InCluster(env, services, withdrawn) <==>
                          s in services && s !in env.managed && s !in withdrawn
  {
    KeptMembers(services, env.managed, withdrawn);
    SortedMembers(Kept(services, env.managed, withdrawn));
  }

  predicate ExactlyOne(a: bool, b: bool, c: bool) { (a && !b && !c) || (!a && b && !c) || (!a && !b && c) }

  lemma Partition(env: Environment, services: seq<string>, withdrawn: set<string>, net: Net)
    requires AllManagedOk(env, services, withdrawn, net) && withdrawn <= Elements(services)
    ensures var kept := InCluster(env, services, withdrawn);
            && (forall s :: s in services ==> ExactlyOne(s in kept, s in env.managed, s in withdrawn))
            && (forall s :: s in kept || s in env.managed || s in withdrawn ==> s in services)
  {
    InClusterMembers(env, services, withdrawn);
    forall s | s in env.managed ensures s in services && s !in withdrawn {
      assert ManagedOk(s, env.managed[s], services, withdrawn, net);
    }
  }

  /** Every declared service is in exactly one of in-cluster, managed and withdrawn, and
      nothing else is in any of them. */
  lemma PlanPartition(env: Environment, services: seq<string>, t: Topo, capable: bool, net: Net)
    requires Plannable(env, services, t, capable, net)
    ensures var plan := PlanOf(env, services, t, capable, net);
            && (forall s :: s in services ==> ExactlyOne(s in plan.services, s in plan.managed, s in plan.withdrawn))
            && (forall s :: s in plan.services || s in plan.managed || s in plan.withdrawn ==> s in services)
  {
    Partition(env, services, ResolveKeyService(env.keyService, services).withdrawn, net);
  }

  /** The vault key service is selected exactly when the plan still holds a vault. */
  lemma VaultSelectedIffPlanned(env: Environment, services: seq<string>, t: Topo, capable: bool, net: Net)
    requires Plannable(env, services, t, capable, net)
    ensures var plan := PlanOf(env, services, t, capable, net);
            plan.keyService == VAULT <==> VAULT in plan.services || VAULT in plan.managed
  {
    PlanPartition(env, services, t, capable, net);
    var plan := PlanOf(env, services, t, capable, net);
    if VAULT in services { assert ExactlyOne(VAULT in plan.services, VAULT in plan.managed, VAULT in plan.withdrawn); }
  }

  predicate HoldsVault(plan: Plan) { VAULT in plan.services || VAULT in plan.managed }

  lemma NormalizedReach(c: ManagedConfig, net: Net)
    requires ManagedAuth(c, net).Yes? && ManagedEgress(c).Yes?
    ensures var n := Normalize(c, net); n.egressNamespace != "" ==> n.egressCidrs == [] && n.kind == CELL_VAULT
    ensures Normalize(c, net).authMode == "password" || Normalize(c, net).authMode == "external-identity"
  {
  }

  /** A managed dependency is reached by a namespace or by addresses, never by both or neither. */
  lemma ManagedEdgeReach(env: Environment, services: seq<string>, t: Topo, capable: bool, net: Net, s: Service,
                         d: Dependency)
    requires Plannable(env, services, t, capable, net) && s in t.services && d in s.dependencies
    requires d.service in PlanOf(env, services, t, capable, net).managed
    ensures var c := PlanOf(env, services, t, capable, net).managed[d.service];
            (c.egressNamespace != "") != (c.egressCidrs != [])
  {
    var withdrawn := ResolveKeyService(env.keyService, services).withdrawn;
    assert ManagedOk(d.service, env.managed[d.service], services, withdrawn, net);
    NormalizedReach(env.managed[d.service], net);
    var i :| 0 <= i < |t.services| && t.services[i] == s;
    var j :| 0 <= j < |s.dependencies| && s.dependencies[j] == d;
    assert ReachOk(t.services[i].dependencies[j], NormalizeAll(env.managed, net));
  }

  /** An edge always has somewhere to go, so policy rendering cannot miss a handoff. */
  lemma EdgeHasDestination(env: Environment, services: seq<string>, t: Topo, capable: bool, net: Net, s: Service,
                           d: Dependency)
    requires ValidTopology(t, services) && Plannable(env, services, t, capable, net)
    requires s in t.services && d in s.dependencies
    ensures var plan := PlanOf(env, services, t, capable, net);
            ExactlyOne(d.service in plan.services, d.service in plan.managed, d.service in plan.withdrawn)
  {
    DependencyTarget(t, services, s, d);
    var target := FindService(t.services, d.service).value;
    var i :| 0 <= i < |t.services| && t.services[i] == target;
    assert ServiceOk(t.services[i], services);
    PlanPartition(env, services, t, capable, net);
  }

  // ----- compositionSelectsVault -----

  datatype Selection = Invalid | Selects(vault: bool)

  function SelectsVault(envs: seq<Option<Environment>>, services: seq<string>, asked: bool): Selection
    decreases |envs|
  {
    if envs == [] then Selects(!asked && VAULT in services)
    else if envs[0].None? then SelectsVault(envs[1..], services, asked)
    else
      match ResolveKeyService(envs[0].value.keyService, services)
      case Unsupported => Invalid
      case Chosen(k, _) => if k == VAULT then Selects(true) else SelectsVault(envs[1..], services, true)
  }

  /** compositionSelectsVault: the first environment on the vault backend decides. */
  method CompositionSelectsVault(envs: seq<Option<Environment>>, services: seq<string>) returns (r: Selection)
    ensures r == SelectsVault(envs, services, false)
  {
    var asked := false;
    assert envs[0..] == envs;
    for i := 0 to |envs|
      invariant SelectsVault(envs, services, false) == SelectsVault(envs[i..], services, asked)
    {
      assert envs[i..][0] == envs[i] && envs[i..][1..] == envs[i+1..];
      if envs[i].Some? {
        asked := true;
        var choice := ResolveKeyService(envs[i].value.keyService, services);
        if choice.Unsupported? {
          return Invalid;
        }
        if choice.keyService == VAULT {
          return Selects(true);
        }
      }
    }
    assert envs[|envs|..] == [];
    return Selects(!asked && VAULT in services);
  }

  /** Every environment of the composition can be planned. */
  ghost predicate AllPlannable(envs: seq<Environment>, services: seq<string>, t: Topo, capable: Environment -> bool,
                               net: Net) {
    forall i :: 0 <= i < |envs| ==> Plannable(envs[i], services, t, capable(envs[i]), net)
  }

  function Present(envs: seq<Environment>): (r: seq<Option<Environment>>)
    ensures |r| == |envs| && forall i :: 0 <= i < |envs| ==> r[i] == Some(envs[i])
  {
    seq(|envs|, i requires 0 <= i < |envs| => Some(envs[i]))
  }

  predicate PicksVault(env: Environment, services: seq<string>) {
    var choice := ResolveKeyService(env.keyService, services);
    choice.Chosen? && choice.keyService == VAULT
  }

  lemma {:induction false} SelectionMeaning(envs: seq<Environment>, services: seq<string>, asked: bool)
    requires asked || envs != []
    requires forall i :: 0 <= i < |envs| ==> ResolveKeyService(envs[i].keyService, services).Chosen?
    ensures SelectsVault(Present(envs), services, asked)
         == Selects(exists i :: 0 <= i < |envs| && PicksVault(envs[i], services))
    decreases |envs|
  {
    if envs != [] {
      var rest := envs[1..];
      assert Present(envs)[0] == Some(envs[0]) && Present(envs)[1..] == Present(rest);
      SelectionMeaning(rest, services, true);
      if i :| 0 <= i < |rest| && PicksVault(rest[i], services) { assert PicksVault(envs[i+1], services); }
      if i :| 1 <= i < |envs| && PicksVault(envs[i], services) { assert PicksVault(rest[i-1], services); }
    }
  }

  /** The composition selects the vault exactly when some environment's plan holds one. */
  lemma CompositionHoldsVault(envs: seq<Environment>, services: seq<string>, t: Topo, capable: Environment -> bool,
                              net: Net)
    requires envs != [] && AllPlannable(envs, services, t, capable, net)
    ensures SelectsVault(Present(envs), services, false) == Selects(
              exists i :: 0 <= i < |envs| && HoldsVault(PlanOf(envs[i], services, t, capable(envs[i]), net)))
  {
    SelectionMeaning(envs, services, false);
    forall i | 0 <= i < |envs|
      ensures HoldsVault(PlanOf(envs[i], services, t, capable(envs[i]), net)) <==> PicksVault(envs[i], services)
    {
      VaultSelectedIffPlanned(envs[i], services, t, capable(envs[i]), net);
    }
  }

  // ----- regenerateServiceManifests -----

  function Filtered<T>(s: seq<T>, keep: T -> bool): seq<T> {
    if s == [] then []
    else
      var head := Filtered(s[..|s|-1], keep);
      if keep(s[|s|-1]) then head + [s[|s|-1]] else head
  }

  /** The `Content[:0]` idiom: kept nodes are written over the front of the same list
      while it is still being read. Returns how many are kept. */
  method FilterInPlace<T>(content: array<T>, keep: T -> bool) returns (kept: nat)
    modifies content
    ensures kept <= content.Length && content[..kept] == Filtered(old(content[..]), keep)
  {
    kept := 0;
    ghost var was := content[..];
    for i := 0 to content.Length
      invariant kept <= i && content[..kept] == Filtered(was[..i], keep)
      invariant content[i..] == was[i..]
    {
      assert was[..i+1][..i] == was[..i];
      assert content[i] == content[i..][0] == was[i];
      if keep(content[i]) {
        content[kept] := content[i];
        kept := kept + 1;
        assert content[..kept] == content[..kept-1] + [was[i]];
      }
      assert content[i+1..] == was[i..][1..];
    }
    assert was[..content.Length] == was;
  }

  lemma {:induction false} FilteredMembers<T>(s: seq<T>, keep: T -> bool)
    ensures forall x :: x in Filtered(s, keep) <==> x in s && keep(x)
  {
    if s != [] {
      var n := |s| - 1;
      FilteredMembers(s[..n], keep);
      assert forall x :: x in s <==> x in s[..n] || x == s[n];
    }
  }

  lemma {:induction false} FilteredCounts<T>(s: seq<T>, keep: T -> bool, x: T)
    requires keep(x)
    ensures multiset(Filtered(s, keep))[x] == multiset(s)[x]
  {
    if s != [] {
      var n := |s| - 1;
      FilteredCounts(s[..n], keep, x);
      assert s == s[..n] + [s[n]];
    }
  }

  /** A workspace-configuration group is dropped only when it is the vault's and nothing selects it. */
  function KeepGroup(vaultSelected: bool): string -> bool {
    (g: string) => vaultSelected || g != VAULT
  }

  /** In every service manifest the vault group survives exactly when some environment's plan
      holds a vault; every other group survives as it was. */
  lemma VaultGroupFollowsPlans(
    envs: seq<Environment>, services: seq<string>, t: Topo, capable: Environment -> bool, net: Net,
    groups: seq<string>, g: string)
    requires envs != [] && AllPlannable(envs, services, t, capable, net)
    ensures var selection := SelectsVault(Present(envs), services, false);
            var somePlan :=
              exists i :: 0 <= i < |envs| && HoldsVault(PlanOf(envs[i], services, t, capable(envs[i]), net));
            && selection.Selects?
            && multiset(Filtered(groups, KeepGroup(selection.vault)))[g]
               == (if g != VAULT || somePlan then multiset(groups)[g] else 0)
  {
    CompositionHoldsVault(envs, services, t, capable, net);
    var keep := KeepGroup(SelectsVault(Present(envs), services, false).vault);
    if keep(g) {
      FilteredCounts(groups, keep, g);
    } else {
      FilteredMembers(groups, keep);
      assert g !in Filtered(groups, keep);
    }
  }

  /** A service dependency as a manifest node carries it. */
  datatype DependencyNode = DependencyNode(name: Option<string>, moduleName: Option<string>)

  predicate External(d: DependencyNode, self: string) {
    d.moduleName.Some? && d.moduleName.value != "" && d.moduleName.value != self
  }

  function KeepDependency(declared: set<string>, self: string): DependencyNode -> bool {
    (d: DependencyNode) => External(d, self) || d.name.None? || d.name.value in declared
  }

  /** The rewrite and the loader agree: among the named dependencies inside the module the
      rewrite keeps, as often as they are stated, exactly those whose lookup the topology
      loader makes succeeds. */
  lemma KeptDependenciesLoad(t: Topo, declared: seq<string>, nodes: seq<DependencyNode>, self: string,
                             d: DependencyNode)
    requires ValidTopology(t, declared) && !External(d, self) && d.name.Some?
    ensures multiset(Filtered(nodes, KeepDependency(Elements(declared), self)))[d]
         == if FindService(t.services, d.name.value).Some? then multiset(nodes)[d] else 0
  {
    var keep := KeepDependency(Elements(declared), self);
    ServicesAreDeclared(t, declared, d.name.value);
    if keep(d) {
      FilteredCounts(nodes, keep, d);
    } else {
      FilteredMembers(nodes, keep);
      assert d !in Filtered(nodes, keep);
    }
  }

  lemma ServicesAreDeclared(t: Topo, declared: seq<string>, name: string)
    requires ValidTopology(t, declared)
    ensures FindService(t.services, name).Some? <==> name in declared
  {
    var found := FindService(t.services, name);
    if found.Some? {
      var i :| 0 <= i < |t.services| && t.services[i] == found.value;
      assert ServiceOk(t.services[i], declared);
    }
    if name in declared {
      var i :| 0 <= i < |declared| && declared[i] == name;
    }
  }

  /** Each handoff of a plan is on a service the plan manages and carries its stored
      declaration, each managed service has one, and they come in ascending order. */
  lemma PlanHandoffs(env: Environment, services: seq<string>, t: Topo, capable: bool, net: Net)
    requires Plannable(env, services, t, capable, net)
    ensures var plan := PlanOf(env, services, t, capable, net);
            && (forall i :: 0 <= i < |plan.handoffs| ==>
                  var s := plan.handoffs[i].service;
                  s in plan.managed && plan.handoffs[i] == HandoffFor(s, plan.managed[s]))
            && (forall s :: s in plan.managed ==> HandoffFor(s, plan.managed[s]) in plan.handoffs)
            && (forall i, j :: 0 <= i < j < |plan.handoffs| ==>
              Less(plan.handoffs[i].service, plan.handoffs[j].service))
  {
    HandoffPerService(NormalizeAll(env.managed, net));
  }
}
