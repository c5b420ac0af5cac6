/** planEnvironment (gitops.go): what one environment runs in the cluster, what it
    reaches as a managed service, and what its key-service selection withdraws. */
module EnvironmentPlan {
  import opened Ordering
  import opened Topology
  import opened ManagedServices
  import opened Handoffs

  // ----- declarations -----

  datatype IngressRoute = IngressRoute(name: string, service: string, endpoint: string, hosts: seq<string>)

  datatype Environment = Environment(
    name: string, namespace: string, keyService: string,
    managed: map<string, ManagedConfig>, ingress: seq<IngressRoute>)

  datatype RoutePlan = RoutePlan(
    name: string, service: string, endpoint: string, port: nat, servicePort: nat, hosts: seq<string>)

  datatype Plan = Plan(
    services: seq<string>, managed: map<string, ManagedConfig>, withdrawn: set<string>,
    keyService: string, ingress: seq<RoutePlan>, handoffs: seq<Handoff>)

  const VAULT := "vault"
  const KMS := "kms"

  // ----- resolveKeyService -----

  datatype KeyChoice = Unsupported | Chosen(keyService: string, withdrawn: set<string>)

  function ResolveKeyService(stated: string, services: seq<string>): KeyChoice {
    var composed := VAULT in services;
    var s := TrimSpace(stated);
    if s == "" then Chosen(if composed then VAULT else KMS, {})
    else if s == VAULT then (if composed then Chosen(VAULT, {}) else Unsupported)
    else if s == KMS then Chosen(KMS, if composed then {VAULT} else {})
    else Unsupported
  }

  predicate ReachOk(d: Dependency, managed: map<string, ManagedConfig>) {
    d.service in managed ==> managed[d.service].egressNamespace != "" || managed[d.service].egressCidrs != []
  }

  /** validateManagedDependencyCIDRs. */
  predicate ReachesOk(t: Topo, managed: map<string, ManagedConfig>) {
    forall i, j :: 0 <= i < |t.services| && 0 <= j < |t.services[i].dependencies| ==>
      ReachOk(t.services[i].dependencies[j], managed)
  }

  predicate AllManagedOk(env: Environment, services: seq<string>, withdrawn: set<string>, net: Net) {
    forall s :: s in env.managed ==> ManagedOk(s, env.managed[s], services, withdrawn, net)
  }

  // ----- in-cluster services -----

  function Kept(services: seq<string>, managed: map<string, ManagedConfig>, withdrawn: set<string>): seq<string> {
    if services == [] then []
    else
      var rest := Kept(services[1..], managed, withdrawn);
      if services[0] in managed || services[0] in withdrawn then rest else [services[0]] + rest
  }

  // ----- ingress -----

  predicate ExposesPublic(t: Topo, service: string, endpoint: string) {
    exists i :: 0 <= i < |t.exposed| && t.exposed[i] == Exposed(service, endpoint, "public")
  }

  predicate HostsOk(net: Net, hosts: seq<string>) {
    forall i :: 0 <= i < |hosts| ==> ValidExternalName(net, TrimSpace(hosts[i]))
  }

  predicate RouteOk(r: IngressRoute, services: seq<string>, t: Topo, net: Net) {
    && IsDnsLabel(r.name)
    && r.service in services
    && FindService(t.services, r.service).Some?
    && FindEndpoint(FindService(t.services, r.service).value.endpoints, r.endpoint).Some?
    && ExposesPublic(t, r.service, r.endpoint)
    && r.hosts != [] && HostsOk(net, r.hosts)
  }

  function TrimAll(hosts: seq<string>): seq<string> {
    if hosts == [] then [] else [TrimSpace(hosts[0])] + TrimAll(hosts[1..])
  }

  /** A lookup that fails yields Go's zero endpoint; RouteOk rules that out. */
  function RouteEndpoint(r: IngressRoute, t: Topo): Endpoint {
    match FindService(t.services, r.service)
    case None => Endpoint("", 0, 0)
    case Some(s) =>
      match FindEndpoint(s.endpoints, r.endpoint)
      case None => Endpoint("", 0, 0)
      case Some(e) => e
  }

  function PlanRoute(r: IngressRoute, t: Topo): RoutePlan {
    var e := RouteEndpoint(r, t);
    RoutePlan(r.name, r.service, r.endpoint, e.port, e.servicePort, TrimAll(r.hosts))
  }

  function PlanRoutes(routes: seq<IngressRoute>, t: Topo): seq<RoutePlan> {
    if routes == [] then [] else [PlanRoute(routes[0], t)] + PlanRoutes(routes[1..], t)
  }

  /** None of these hosts was met before, and none is met twice. */
  predicate HostsFresh(met: set<string>, hosts: seq<string>)
    decreases |hosts|
  {
    hosts == [] || (hosts[0] !in met && HostsFresh(met + {hosts[0]}, hosts[1..]))
  }

  function Elements(s: seq<string>): set<string> { set x | x in s }

  /** The route list read in order, with the names and hosts met so far. */
  predicate RoutesOk(routes: seq<IngressRoute>, names: set<string>, hosts: set<string>,
                     services: seq<string>, t: Topo, net: Net)
    decreases |routes|
  {
    routes == []
    || (&& RouteTaken(routes[0], names, hosts, services, t, net)
        && RoutesOk(routes[1..], names + {routes[0].name}, hosts + HostSet(routes[0]), services, t, net))
  }

  predicate RouteTaken(r: IngressRoute, names: set<string>, hosts: set<string>, services: seq<string>, t: Topo,
                       net: Net) {
    RouteOk(r, services, t, net) && r.name !in names && HostsFresh(hosts, TrimAll(r.hosts))
  }

  function HostSet(r: IngressRoute): set<string> { Elements(TrimAll(r.hosts)) }

  // ----- the plan -----

  function InCluster(env: Environment, services: seq<string>, withdrawn: set<string>): seq<string> {
    SortStrings(Kept(services, env.managed, withdrawn))
  }

  predicate Plannable(env: Environment, services: seq<string>, t: Topo, capable: bool, net: Net) {
    var choice := ResolveKeyService(env.keyService, services);
    && choice.Chosen?
    && (capable || env.managed == map[])
    && AllManagedOk(env, services, choice.withdrawn, net)
    && ReachesOk(t, NormalizeAll(env.managed, net))
    && RoutesOk(env.ingress, {}, {}, InCluster(env, services, choice.withdrawn), t, net)
  }

  ghost function PlanOf(env: Environment, services: seq<string>, t: Topo, capable: bool, net: Net): Plan
    requires Plannable(env, services, t, capable, net)
  {
    var choice := ResolveKeyService(env.keyService, services);
    var inCluster := InCluster(env, services, choice.withdrawn);
    Plan(inCluster, NormalizeAll(env.managed, net), choice.withdrawn, choice.keyService,
      PlanRoutes(env.ingress, t), HandoffList(NormalizeAll(env.managed, net)))
  }

  // ----- as it runs -----

  datatype PlanResult = Planned(plan: Plan) | Rejected

  /** The plan under construction, which the validators fill in place. */
  class Draft {
    var services: seq<string>
    var managed: map<string, ManagedConfig>
    var withdrawn: set<string>
    var keyService: string
    var ingress: seq<RoutePlan>
    var handoffs: seq<Handoff>

    constructor ()
      ensures services == [] && managed == map[] && withdrawn == {} && ingress == [] && handoffs == []
    {
      services, managed, withdrawn, keyService, ingress, handoffs := [], map[], {}, "", [], [];
    }

    function Value(): Plan
      reads this
    {
      Plan(services, managed, withdrawn, keyService, ingress, handoffs)
    }

    /** validateManagedServices. */
    method ValidateManagedServices(env: Environment, declared: seq<string>, t: Topo, capable: bool, net: Net)
      returns (ok: bool)
      requires managed == map[] && handoffs == []
      modifies this`managed, this`handoffs
      ensures ok <==> (capable || env.managed == map[]) && AllManagedOk(env, declared, withdrawn, net)
                      && ReachesOk(t, NormalizeAll(env.managed, net))
      ensures ok ==> managed == NormalizeAll(env.managed, net) && handoffs == HandoffList(managed)
    {
      if !capable && env.managed != map[] {
        return false;
      }
      ok, managed, handoffs := TakeManaged(env, declared, withdrawn, net);
      if ok {
        ok := CheckReaches(t, managed);
      }
    }

    /** The services that are neither managed nor withdrawn, sorted. */
    method KeepInCluster(declared: seq<string>)
      requires services == []
      modifies this`services
      ensures services == SortStrings(Kept(declared, managed, withdrawn))
    {
      assert declared[0..] == declared;
      for i := 0 to |declared|
        invariant services + Kept(declared[i..], managed, withdrawn) == Kept(declared, managed, withdrawn)
      {
        assert declared[i..][1..] == declared[i+1..];
        if declared[i] !in managed && declared[i] !in withdrawn {
          services := services + [declared[i]];
        }
      }
      assert services + [] == services;
      services := SortStrings(services);
    }

    /** validateIngressRoutes. */
    method ValidateIngressRoutes(env: Environment, t: Topo, net: Net) returns (ok: bool)
      requires ingress == []
      modifies this`ingress
      ensures ok <==> RoutesOk(env.ingress, {}, {}, services, t, net)
      ensures ok ==> ingress == PlanRoutes(env.ingress, t)
    {
      ok, ingress := TakeRoutes(env.ingress, services, t, net);
    }
  }

  method TakeRoutes(routes: seq<IngressRoute>, services: seq<string>, t: Topo, net: Net)
    returns (ok: bool, plans: seq<RoutePlan>)
    ensures ok <==> RoutesOk(routes, {}, {}, services, t, net)
    ensures ok ==> plans == PlanRoutes(routes, t)
  {
    var names: set<string>, hosts: set<string> := {}, {};
    plans := [];
    assert routes[0..] == routes;
    for i := 0 to |routes|
      invariant RoutesOk(routes, {}, {}, services, t, net) <==> RoutesOk(routes[i..], names, hosts, services, t, net)
      invariant plans + PlanRoutes(routes[i..], t) == PlanRoutes(routes, t)
    {
      RoutesStep(routes, i, names, hosts, services, t, net);
      var taken := TakeRoute(routes[i], names, hosts, services, t, net);
      if !taken {
        return false, plans;
      }
      PlanStep(plans, routes, i, t);
      names, hosts := names + {routes[i].name}, hosts + HostSet(routes[i]);
      plans := plans + [PlanRoute(routes[i], t)];
    }
    assert routes[|routes|..] == [] && plans + [] == plans;
    return true, plans;
  }

  lemma RoutesStep(routes: seq<IngressRoute>, i: nat, names: set<string>, hosts: set<string>,
                   services: seq<string>, t: Topo, net: Net)
    requires i < |routes|
    ensures var r := routes[i];
            RoutesOk(routes[i..], names, hosts, services, t, net) <==>
              RouteTaken(r, names, hosts, services, t, net)
              && RoutesOk(routes[i+1..], names + {r.name}, hosts + HostSet(r), services, t, net)
  {
    assert routes[i..][0] == routes[i] && routes[i..][1..] == routes[i+1..];
  }

  lemma PlanStep(plans: seq<RoutePlan>, routes: seq<IngressRoute>, i: nat, t: Topo)
    requires i < |routes|
    ensures plans + [PlanRoute(routes[i], t)] + PlanRoutes(routes[i+1..], t) == plans + PlanRoutes(routes[i..], t)
  {
    assert routes[i..][0] == routes[i] && routes[i..][1..] == routes[i+1..];
  }

  method TakeRoute(r: IngressRoute, names: set<string>, hosts: set<string>, services: seq<string>, t: Topo, net: Net)
    returns (ok: bool)
    ensures ok <==> RouteTaken(r, names, hosts, services, t, net)
  {
    if !RouteOk(r, services, t, net) || r.name in names {
      return false;
    }
    ok := TakeHosts(r.hosts, hosts);
  }

  function NormalizedBut(managed: map<string, ManagedConfig>, left: set<string>, net: Net): map<string, ManagedConfig> {
    map s | s in managed && s !in left :: Normalize(managed[s], net)
  }

  lemma NormalizeNext(managed: map<string, ManagedConfig>, left: set<string>, s: string, net: Net)
    requires s in left && s in managed
    ensures s !in NormalizedBut(managed, left, net)
    ensures NormalizedBut(managed, left - {s}, net) ==
            NormalizedBut(managed, left, net)[s := Normalize(managed[s], net)]
  {
  }

  /** One declaration: checked, normalized, stored, and stated as a handoff. */
  method TakeOne(service: string, c: ManagedConfig, declared: seq<string>, withdrawn: set<string>, net: Net,
                 managed0: map<string, ManagedConfig>, handoffs0: seq<Handoff>)
    returns (ok: bool, managed: map<string, ManagedConfig>, handoffs: seq<Handoff>)
    requires service !in managed0 && multiset(handoffs0) == multiset(HandoffSet(managed0))
    ensures ok <==> ManagedOk(service, c, declared, withdrawn, net)
    ensures ok ==> managed == managed0[service := Normalize(c, net)]
    ensures ok ==> multiset(handoffs) == multiset(HandoffSet(managed))
  {
    managed, handoffs := managed0, handoffs0;
    ok := CheckManaged(service, c, declared, withdrawn, net);
    if ok {
      var handoff := BuildHandoff(service, Normalize(c, net));
      StoreHandoff(managed, service, Normalize(c, net));
      managed := managed[service := Normalize(c, net)];
      handoffs := handoffs + [handoff];
    }
  }

  /** The declarations are a Go map: they are met in any order. */
  method TakeManaged(env: Environment, declared: seq<string>, withdrawn: set<string>, net: Net)
    returns (ok: bool, managed: map<string, ManagedConfig>, handoffs: seq<Handoff>)
    ensures ok <==> AllManagedOk(env, declared, withdrawn, net)
    ensures ok ==> managed == NormalizeAll(env.managed, net) && handoffs == HandoffList(managed)
  {
    ghost var refused;
    ok, managed, handoffs, refused := TakeEach(env.managed, declared, withdrawn, net);
    if ok {
      handoffs := SortHandoffs(handoffs, managed);
    }
  }

  method TakeEach(declarations: map<string, ManagedConfig>, declared: seq<string>, withdrawn: set<string>, net: Net)
    returns (ok: bool, managed: map<string, ManagedConfig>, handoffs: seq<Handoff>, ghost refused: string)
    ensures ok ==> forall s :: s in declarations ==> ManagedOk(s, declarations[s], declared, withdrawn, net)
    ensures !ok ==> refused in declarations && !ManagedOk(refused, declarations[refused], declared, withdrawn, net)
    ensures ok ==> managed == NormalizeAll(declarations, net) && multiset(handoffs) == multiset(HandoffSet(managed))
  {
    managed, handoffs := map[], [];
    var left := declarations.Keys;
    while left != {}
      invariant left <= declarations.Keys
      invariant multiset(handoffs) == multiset(HandoffSet(managed))
      invariant forall s :: s in declarations && s !in left ==> ManagedOk(s, declarations[s], declared, withdrawn, net)
      invariant managed == NormalizedBut(declarations, left, net)
      decreases left
    {
      var s :| s in left;
      NormalizeNext(declarations, left, s, net);
      ok, managed, handoffs := TakeOne(s, declarations[s], declared, withdrawn, net, managed, handoffs);
      if !ok {
        refused := s;
        return;
      }
      left := left - {s};
    }
    ok, refused := true, "";
  }

  method CheckReaches(t: Topo, managed: map<string, ManagedConfig>) returns (ok: bool)
    ensures ok <==> ReachesOk(t, managed)
  {
    for i := 0 to |t.services|
      invariant forall a, b :: 0 <= a < i && 0 <= b < |t.services[a].dependencies| ==>
                  ReachOk(t.services[a].dependencies[b], managed)
    {
      var ds := t.services[i].dependencies;
      for j := 0 to |ds|
        invariant forall b :: 0 <= b < j ==> ReachOk(ds[b], managed)
      {
        if !ReachOk(ds[j], managed) {
          assert !ReachOk(t.services[i].dependencies[j], managed);
          return false;
        }
      }
    }
    return true;
  }

  lemma {:induction false} TrimAllAt(hosts: seq<string>)
    ensures |TrimAll(hosts)| == |hosts|
    ensures forall i :: 0 <= i < |hosts| ==> TrimAll(hosts)[i] == TrimSpace(hosts[i])
  {
    if hosts != [] { TrimAllAt(hosts[1..]); }
  }

  /** The host loop of one route: every trimmed host must be new. */
  method TakeHosts(hosts: seq<string>, met: set<string>) returns (unmet: bool)
    ensures unmet <==> HostsFresh(met, TrimAll(hosts))
  {
    var seen := met;
    ghost var all := TrimAll(hosts);
    TrimAllAt(hosts);
    assert all[0..] == all;
    for i := 0 to |hosts|
      invariant HostsFresh(met, all) <==> HostsFresh(seen, all[i..])
    {
      assert all[i..][0] == all[i] && all[i..][1..] == all[i+1..];
      var host := TrimSpace(hosts[i]);
      assert host == all[i];
      if host in seen {
        return false;
      }
      seen := seen + {host};
    }
    return true;
  }

  /** planEnvironment. */
  method PlanEnvironment(env: Environment, services: seq<string>, t: Topo, capable: bool, net: Net)
    returns (r: PlanResult)
    ensures r.Planned? <==> Plannable(env, services, t, capable, net)
    ensures r.Planned? ==> r.plan == PlanOf(env, services, t, capable, net)
  {
    var draft := new Draft();
    var choice := ResolveKeyService(env.keyService, services);
    if choice.Unsupported? {
      return Rejected;
    }
    draft.keyService, draft.withdrawn := choice.keyService, choice.withdrawn;
    var ok := draft.ValidateManagedServices(env, services, t, capable, net);
    if !ok {
      return Rejected;
    }
    KeptNormalized(services, env.managed, net, draft.withdrawn);
    draft.KeepInCluster(services);
    ok := draft.ValidateIngressRoutes(env, t, net);
    if !ok {
      return Rejected;
    }
    return Planned(draft.Value());
  }

  lemma {:induction false} KeptNormalized(services: seq<string>, managed: map<string, ManagedConfig>, net: Net,
                                          withdrawn: set<string>)
    ensures Kept(services, NormalizeAll(managed, net), withdrawn) == Kept(services, managed, withdrawn)
  {
    if services != [] { KeptNormalized(services[1..], managed, net, withdrawn); }
  }
}
