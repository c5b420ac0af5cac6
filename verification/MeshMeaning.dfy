/** What the L4 AuthorizationPolicies admit, the ingress gateway's included (gitops.go), and
    what that means for the tunnelled traffic of an ambient mesh. */
module MeshMeaning {
  import opened Text
  import opened Ordering
  import opened Topology
  import opened EnvironmentPlan
  import opened NetworkPolicies
  import opened PolicyMeaning
  import opened MeshPolicies

  // ----- the policies that let the ingress gateway in -----

  const GATEWAY_NAMESPACE := "istio-system"
  const GATEWAY_ACCOUNT := "istio-ingressgateway-service-account"

  function GatewayPrincipal(): string { MeshPrincipal(GATEWAY_NAMESPACE, GATEWAY_ACCOUNT) }

  function RoutedAdds(routes: seq<RoutePlan>): Adds<nat> {
    if routes == [] then [] else [(routes[0].service, routes[0].port)] + RoutedAdds(routes[1..])
  }

  /** The policy of one routed service. */
  predicate GatewayPolicyFor(p: MeshPolicy, t: Topo, plan: Plan) {
    && p.app == AppLabel(ServiceOr0(t, p.target))
    && p.principals == [GatewayPrincipal()]
    && p.ports == EntryOf(Filled(RoutedAdds(plan.ingress)), p.target)
  }

  predicate GatewayRendered(ps: seq<MeshPolicy>, t: Topo, plan: Plan) {
    && (forall i, j :: 0 <= i < j < |ps| ==> Less(ps[i].target, ps[j].target))
    && (forall i :: 0 <= i < |ps| ==> GatewayPolicyFor(ps[i], t, plan))
    && (set i | 0 <= i < |ps| :: ps[i].target) == Filled(RoutedAdds(plan.ingress)).Keys
  }

  method CollectRoutedPorts(routes: seq<RoutePlan>) returns (m: Table<nat>)
    ensures m == Filled(RoutedAdds(routes))
  {
    m := map[];
    ghost var done: Adds<nat> := [];
    assert routes[0..] == routes;
    for i := 0 to |routes|
      invariant m == Filled(done) && done + RoutedAdds(routes[i..]) == RoutedAdds(routes)
    {
      assert routes[i..][0] == routes[i] && routes[i..][1..] == routes[i+1..];
      FilledSnoc(done, (routes[i].service, routes[i].port));
      m := Put(m, routes[i].service, routes[i].port);
      done := done + [(routes[i].service, routes[i].port)];
    }
    assert done == RoutedAdds(routes);
  }

  method GatewayAuthorizationPolicies(t: Topo, plan: Plan) returns (ps: seq<MeshPolicy>)
    ensures GatewayRendered(ps, t, plan)
  {
    var ports := CollectRoutedPorts(plan.ingress);
    var services := SortedKeys(ports.Keys);
    ps := [];
    for i := 0 to |services|
      invariant |ps| == i && forall j :: 0 <= j < i ==> ps[j].target == services[j] && GatewayPolicyFor(ps[j], t, plan)
    {
      var app := AppLabel(ServiceOr0(t, services[i]));
      ps := ps + [MeshPolicy(services[i], app, [GatewayPrincipal()], EntryOf(ports, services[i]))];
    }
    RenderedAll(ps, services, ports.Keys);
  }

  /** The L4 policies of the namespace, in the two parts they are appended in. */
  datatype L4 = L4(internal: seq<MeshPolicy>, gateway: seq<MeshPolicy>) {
    function All(): seq<MeshPolicy> { internal + gateway }
  }

  ghost predicate L4Rendered(mesh: L4, t: Topo, plan: Plan, ns: string) {
    MeshRendered(mesh.internal, t, plan, ns) && GatewayRendered(mesh.gateway, t, plan)
  }

  method AuthorizationPolicies(t: Topo, plan: Plan, ns: string) returns (mesh: L4)
    ensures L4Rendered(mesh, t, plan, ns)
  {
    var internal := InternalAuthorizationPolicies(t, plan, ns);
    var gateway := GatewayAuthorizationPolicies(t, plan);
    mesh := L4(internal, gateway);
  }

  // ----- what they admit -----

  /** Some route of the plan leads to this port of the target. */
  predicate RoutedTo(plan: Plan, target: Service, port: nat) {
    exists r :: r in plan.ingress && r.service == target.name && r.port == port
  }

  lemma {:induction false} RoutedAddsMeaning(routes: seq<RoutePlan>, name: string, port: nat)
    ensures (name, port) in RoutedAdds(routes) <==> exists r :: r in routes && r.service == name && r.port == port
  {
    if routes != [] {
      RoutedAddsMeaning(routes[1..], name, port);
      assert forall r :: r in routes <==> r == routes[0] || r in routes[1..];
      if routes[0].service == name && routes[0].port == port { assert routes[0] in routes; }
    }
  }

  lemma RoutedEntry(plan: Plan, target: Service, port: nat)
    ensures port in EntryOf(Filled(RoutedAdds(plan.ingress)), target.name) <==> RoutedTo(plan, target, port)
    ensures RoutedTo(plan, target, port) ==> target.name in Filled(RoutedAdds(plan.ingress))
  {
    FilledMeaning(RoutedAdds(plan.ingress));
    RoutedAddsMeaning(plan.ingress, target.name, port);
  }

  /** A gateway policy is some routed service's, and has a port. */
  lemma GatewayPolicyHasTarget(t: Topo, declared: seq<string>, plan: Plan, ps: seq<MeshPolicy>, p: MeshPolicy)
    returns (s: Service)
    requires Prepared(t, declared, plan) && GatewayRendered(ps, t, plan) && p in ps
    ensures s in t.services && s.name == p.target && ServiceOr0(t, p.target) == s
    ensures p.ports != {}
  {
    var i :| 0 <= i < |ps| && ps[i] == p;
    assert p.target in Filled(RoutedAdds(plan.ingress)).Keys;
    FilledMeaning(RoutedAdds(plan.ingress));
    var n :| n in Filled(RoutedAdds(plan.ingress))[p.target];
    RoutedAddsMeaning(plan.ingress, p.target, n);
    var r :| r in plan.ingress && r.service == p.target;
    s := FindService(t.services, r.service).value;
  }

  lemma GatewayAllowedIsRouted(t: Topo, declared: seq<string>, plan: Plan, ps: seq<MeshPolicy>, p: MeshPolicy,
                               target: Service, principal: string, port: nat)
    requires Prepared(t, declared, plan) && GatewayRendered(ps, t, plan) && target in t.services
    requires p in ps && MeshAdmits(p, principal, AppLabel(target), port)
    ensures principal == GatewayPrincipal() && RoutedTo(plan, target, port)
  {
    var s := GatewayPolicyHasTarget(t, declared, plan, ps, p);
    var i :| 0 <= i < |ps| && ps[i] == p;
    assert GatewayPolicyFor(ps[i], t, plan);
    SameApp(t.services, s, target);
    RoutedEntry(plan, target, port);
  }

  lemma RoutedIsGatewayAllowed(t: Topo, plan: Plan, ps: seq<MeshPolicy>, target: Service, port: nat)
    requires DistinctServices(t.services) && GatewayRendered(ps, t, plan) && target in t.services
    requires RoutedTo(plan, target, port)
    ensures MeshAllows(ps, GatewayPrincipal(), AppLabel(target), port)
  {
    RoutedEntry(plan, target, port);
    var i :| 0 <= i < |ps| && ps[i].target == target.name;
    assert GatewayPolicyFor(ps[i], t, plan);
    FindUnique(t.services, target);
    assert MeshAdmits(ps[i], GatewayPrincipal(), AppLabel(target), port);
  }

  lemma GatewayAllowsRoutes(t: Topo, declared: seq<string>, plan: Plan, ps: seq<MeshPolicy>,
                            target: Service, principal: string, port: nat)
    requires Prepared(t, declared, plan) && GatewayRendered(ps, t, plan) && target in t.services
    ensures MeshAllows(ps, principal, AppLabel(target), port) <==>
              principal == GatewayPrincipal() && RoutedTo(plan, target, port)
  {
    if p :| p in ps && MeshAdmits(p, principal, AppLabel(target), port) {
      GatewayAllowedIsRouted(t, declared, plan, ps, p, target, principal, port);
    }
    if RoutedTo(plan, target, port) { RoutedIsGatewayAllowed(t, plan, ps, target, port); }
  }

  lemma InternalAllowsProduct(t: Topo, declared: seq<string>, plan: Plan, ns: string, ps: seq<MeshPolicy>,
                              target: Service, principal: string, port: nat)
    requires ValidTopology(t, declared) && MeshRendered(ps, t, plan, ns) && target in t.services
    ensures MeshAllows(ps, principal, AppLabel(target), port) <==>
              PrincipalDeclared(t, plan, ns, target, principal) && PortDeclared(t, plan, target, port)
  {
    if p :| p in ps && MeshAdmits(p, principal, AppLabel(target), port) {
      var s := PolicyHasTarget(t, declared, plan, ns, ps, p);
      PolicyIsExact(t, declared, plan, ns, ps, p, s);
      SameApp(t.services, s, target);
    }
    if PrincipalDeclared(t, plan, ns, target, principal) && PortDeclared(t, plan, target, port) {
      TargetPorts(t, declared, plan, target, port);
      FilledMeaning(PortAdds(t, plan));
      assert target.name in Filled(PortAdds(t, plan)).Keys;
      var i :| 0 <= i < |ps| && ps[i].target == target.name;
      PolicyIsExact(t, declared, plan, ns, ps, ps[i], target);
      assert MeshAdmits(ps[i], principal, AppLabel(target), port);
    }
  }

  lemma AllowsConcat(a: seq<MeshPolicy>, b: seq<MeshPolicy>, principal: string, app: string, port: nat)
    ensures MeshAllows(a + b, principal, app, port) <==>
              MeshAllows(a, principal, app, port) || MeshAllows(b, principal, app, port)
  {
    assert forall p :: p in a + b <==> p in a || p in b;
  }

  lemma TwoProducts(t: Topo, declared: seq<string>, plan: Plan, ns: string, internal: seq<MeshPolicy>,
                    gateway: seq<MeshPolicy>, target: Service, principal: string, port: nat)
    requires Prepared(t, declared, plan) && target in t.services
    requires MeshRendered(internal, t, plan, ns) && GatewayRendered(gateway, t, plan)
    ensures MeshAllows(internal + gateway, principal, AppLabel(target), port) <==>
              || (PrincipalDeclared(t, plan, ns, target, principal) && PortDeclared(t, plan, target, port))
              || (principal == GatewayPrincipal() && RoutedTo(plan, target, port))
  {
    InternalAllowsProduct(t, declared, plan, ns, internal, target, principal, port);
    GatewayAllowsRoutes(t, declared, plan, gateway, target, principal, port);
    AllowsConcat(internal, gateway, principal, AppLabel(target), port);
  }

  /** What the mesh admits to a service is two products: its declared principals on its
      declared ports, whoever declared which, and the gateway on its routed ports. */
  lemma MeshMeansProducts(t: Topo, declared: seq<string>, plan: Plan, ns: string, mesh: L4,
                          target: Service, principal: string, port: nat)
    requires Prepared(t, declared, plan) && L4Rendered(mesh, t, plan, ns) && target in t.services
    ensures MeshAllows(mesh.All(), principal, AppLabel(target), port) <==>
              || (PrincipalDeclared(t, plan, ns, target, principal) && PortDeclared(t, plan, target, port))
              || (principal == GatewayPrincipal() && RoutedTo(plan, target, port))
  {
    TwoProducts(t, declared, plan, ns, mesh.internal, mesh.gateway, target, principal, port);
  }

  /** Every declared in-cluster edge is admitted. */
  lemma MeshAdmitsEdges(t: Topo, declared: seq<string>, plan: Plan, ns: string, mesh: L4,
                        caller: Service, target: Service, port: nat)
    requires Prepared(t, declared, plan) && L4Rendered(mesh, t, plan, ns)
    requires caller in t.services && target in t.services && DeclaredEdge(plan, caller, target, Tcp(port))
    ensures MeshAllows(mesh.All(), MeshPrincipal(ns, Account(caller)), AppLabel(target), port)
  {
    assert CallsBy(plan, ns, caller, target.name, MeshPrincipal(ns, Account(caller)));
    MeshMeansProducts(t, declared, plan, ns, mesh, target, MeshPrincipal(ns, Account(caller)), port);
  }

  /** A running deploy job writes over an edge its service declares, so the mesh already
      admits it under that service's identity. */
  lemma MeshAdmitsJobs(t: Topo, declared: seq<string>, plan: Plan, ns: string, mesh: L4, j: DeployJob)
    returns (runner: Service, target: Service)
    requires Prepared(t, declared, plan) && L4Rendered(mesh, t, plan, ns) && j in t.jobs && JobRuns(plan, j)
    ensures runner in t.services && runner.name == j.service && target in t.services && target.name == j.writesService
    ensures var port := EndpointPort(target, j.writesEndpoint);
            && DeclaredEdge(plan, runner, target, Tcp(port))
            && MeshAllows(mesh.All(), MeshPrincipal(ns, Account(runner)), AppLabel(target), port)
  {
    var k :| 0 <= k < |t.jobs| && t.jobs[k] == j;
    assert JobOk(t.services, t.jobs[k]);
    runner, target := FindService(t.services, j.service).value, FindService(t.services, j.writesService).value;
    var e := FindEndpoint(target.endpoints, j.writesEndpoint).value;
    var i :| 0 <= i < |runner.dependencies| && runner.dependencies[i].service == j.writesService
             && j.writesEndpoint in runner.dependencies[i].endpoints;
    assert Bound(target, runner.dependencies[i].endpoints, Tcp(e.port));
    assert runner.dependencies[i] in runner.dependencies;
    MeshAdmitsEdges(t, declared, plan, ns, mesh, runner, target, e.port);
  }

  // ----- tunnelled traffic -----

  /** The ambient mesh's tunnel is open between any two pods of the namespace, so on tunnelled
      traffic the network policies decide nothing. */
  lemma TunnelIsOpen(t: Topo, plan: Plan, ps: seq<Policy>, ns: string, src: Pod, dst: Pod, blocks: Blocks)
    requires RenderedPolicies(t, plan) == Policies(ps)
    ensures Allows(ps, ns, src, dst, Tcp(HBONE), blocks)
  {
    var rule := Rule([], {Port(TCP, HBONE)});
    assert BASELINE[3] in ps && AMBIENT == BASELINE[3];
    assert RuleMatches([rule][0], ns, src, Tcp(HBONE), blocks) && RuleMatches([rule][0], ns, dst, Tcp(HBONE), blocks);
    assert SomeRule(AMBIENT.ingress.value, ns, src, Tcp(HBONE), blocks);
    assert SomeRule(AMBIENT.egress.value, ns, dst, Tcp(HBONE), blocks);
    assert LabelsMatch(AMBIENT.selector, src.labels) && LabelsMatch(AMBIENT.selector, dst.labels);
  }

  /** Whom the destination sees: the waypoint once one fronts the namespace, else the caller. */
  function SeenIdentity(t: Topo, plan: Plan, ns: string, caller: Service): string {
    MeshPrincipal(ns, if NeedsWaypoint(t, plan) then WAYPOINT else Account(caller))
  }

  /** A tunnelled connection needs the tunnel between the pods and the mesh's consent. */
  predicate Tunnelled(t: Topo, plan: Plan, ns: string, policies: seq<Policy>, mesh: L4,
                      src: Pod, dst: Pod, caller: Service, target: Service, port: nat, blocks: Blocks)
  {
    && Allows(policies, ns, src, dst, Tcp(HBONE), blocks)
    && MeshAllows(mesh.All(), SeenIdentity(t, plan, ns, caller), AppLabel(target), port)
  }

  lemma BeforeSlash(u: string, v: string, x: string, y: string)
    requires '/' !in u && '/' !in x && u + ['/'] + v == x + ['/'] + y
    ensures u == x
  {
    CutAt(u, v, '/');
    CutAt(x, y, '/');
  }

  const TRUST := "cluster.local/ns/"
  const ACCOUNT_PART := "sa/"

  lemma PrincipalParts(ns: string, account: string)
    ensures MeshPrincipal(ns, account) == TRUST + (ns + ['/'] + (ACCOUNT_PART + account))
  {
    assert "/sa/" == ['/'] + ACCOUNT_PART;
  }

  lemma SameTail(head: string, a: string, b: string)
    requires head + a == head + b
    ensures a == b
  {
    assert (head + a)[|head|..] == a && (head + b)[|head|..] == b;
  }

  /** A principal determines its namespace. */
  lemma PrincipalNamespace(ns: string, a: string, other: string, b: string)
    requires '/' !in ns && '/' !in other && MeshPrincipal(ns, a) == MeshPrincipal(other, b)
    ensures ns == other
  {
    PrincipalParts(ns, a);
    PrincipalParts(other, b);
    SameTail(TRUST, ns + ['/'] + (ACCOUNT_PART + a), other + ['/'] + (ACCOUNT_PART + b));
    BeforeSlash(ns, ACCOUNT_PART + a, other, ACCOUNT_PART + b);
  }

  lemma GatewayIsNoService(ns: string, account: string)
    requires '/' !in ns && ns != GATEWAY_NAMESPACE
    ensures MeshPrincipal(ns, account) != GatewayPrincipal()
  {
    assert '/' !in GATEWAY_NAMESPACE;
    if MeshPrincipal(ns, account) == GatewayPrincipal() {
      PrincipalNamespace(ns, account, GATEWAY_NAMESPACE, GATEWAY_ACCOUNT);
    }
  }

  /** The destination's list holds the caller: through the waypoint, or under an account that
      a declared caller of this target runs as. */
  ghost predicate Recognized(t: Topo, plan: Plan, caller: Service, target: Service) {
    || NeedsWaypoint(t, plan)
    || exists c :: c in t.services && Account(c) == Account(caller) && Calls(plan, c, target.name)
  }

  lemma RecognizedPrincipal(t: Topo, plan: Plan, ns: string, caller: Service, target: Service)
    ensures PrincipalDeclared(t, plan, ns, target, SeenIdentity(t, plan, ns, caller)) <==>
            Recognized(t, plan, caller, target)
  {
    if !NeedsWaypoint(t, plan) {
      var p := MeshPrincipal(ns, Account(caller));
      if c :| c in t.services && CallsBy(plan, ns, c, target.name, p) {
        PrincipalInjective(ns, Account(c), Account(caller));
      }
      if c :| c in t.services && Account(c) == Account(caller) && Calls(plan, c, target.name) {
        assert CallsBy(plan, ns, c, target.name, p);
      }
    }
  }

  /** Between two service pods, for any rendered policies: a tunnelled connection is admitted
      on each declared port of a target, to each caller the target's list recognizes. */
  lemma TunnelledMeansProduct(t: Topo, declared: seq<string>, plan: Plan, ns: string,
                              policies: seq<Policy>, mesh: L4, src: Pod, dst: Pod,
                              caller: Service, target: Service, port: nat, blocks: Blocks)
    requires Prepared(t, declared, plan) && RenderedPolicies(t, plan) == Policies(policies)
    requires L4Rendered(mesh, t, plan, ns) && '/' !in ns && ns != GATEWAY_NAMESPACE
    requires target in t.services
    ensures Tunnelled(t, plan, ns, policies, mesh, src, dst, caller, target, port, blocks) <==>
              Recognized(t, plan, caller, target) && PortDeclared(t, plan, target, port)
  {
    TunnelIsOpen(t, plan, policies, ns, src, dst, blocks);
    GatewayIsNoService(ns, if NeedsWaypoint(t, plan) then WAYPOINT else Account(caller));
    MeshMeansProducts(t, declared, plan, ns, mesh, target, SeenIdentity(t, plan, ns, caller), port);
    RecognizedPrincipal(t, plan, ns, caller, target);
  }

  /** A caller that the target recognizes declares this port, if it is declared at all. */
  ghost predicate Shares(t: Topo, plan: Plan, caller: Service, target: Service, port: nat) {
    Recognized(t, plan, caller, target) && PortDeclared(t, plan, target, port) ==>
      DeclaredEdge(plan, caller, target, Tcp(port))
  }

  ghost predicate PortsAreShared(t: Topo, plan: Plan) {
    forall c, s, n :: c in t.services && c.name in plan.services && s in t.services ==> Shares(t, plan, c, s, n)
  }

  /** The tunnel admits this connection exactly when it is a declared edge. */
  ghost predicate TunnelAgrees(t: Topo, plan: Plan, ns: string, policies: seq<Policy>, mesh: L4,
                               src: Pod, dst: Pod, caller: Service, target: Service, port: nat, blocks: Blocks)
  {
    Tunnelled(t, plan, ns, policies, mesh, src, dst, caller, target, port, blocks) <==>
      DeclaredEdge(plan, caller, target, Tcp(port))
  }

  ghost predicate TunnelIsGraph(t: Topo, plan: Plan, ns: string, policies: seq<Policy>, mesh: L4,
                                src: Pod, dst: Pod, blocks: Blocks)
  {
    forall c, s, n :: c in t.services && c.name in plan.services && s in t.services ==>
      TunnelAgrees(t, plan, ns, policies, mesh, src, dst, c, s, n, blocks)
  }

  lemma AgreesIffShared(t: Topo, declared: seq<string>, plan: Plan, ns: string,
                        policies: seq<Policy>, mesh: L4, src: Pod, dst: Pod,
                        caller: Service, target: Service, port: nat, blocks: Blocks)
    requires Prepared(t, declared, plan) && RenderedPolicies(t, plan) == Policies(policies)
    requires L4Rendered(mesh, t, plan, ns) && '/' !in ns && ns != GATEWAY_NAMESPACE
    requires caller in t.services && target in t.services
    ensures TunnelAgrees(t, plan, ns, policies, mesh, src, dst, caller, target, port, blocks) <==>
              Shares(t, plan, caller, target, port)
  {
    TunnelledMeansProduct(t, declared, plan, ns, policies, mesh, src, dst, caller, target, port, blocks);
    if DeclaredEdge(plan, caller, target, Tcp(port)) { assert Calls(plan, caller, target.name); }
  }

  /** Nothing takes the product back: tunnelled traffic is the dependency graph exactly when
      the recognized callers of each target share all its ports. */
  lemma TunnelIsGraphIff(t: Topo, declared: seq<string>, plan: Plan, ns: string,
                         policies: seq<Policy>, mesh: L4, src: Pod, dst: Pod, blocks: Blocks)
    requires Prepared(t, declared, plan) && RenderedPolicies(t, plan) == Policies(policies)
    requires L4Rendered(mesh, t, plan, ns) && '/' !in ns && ns != GATEWAY_NAMESPACE
    ensures TunnelIsGraph(t, plan, ns, policies, mesh, src, dst, blocks) <==> PortsAreShared(t, plan)
  {
    forall c, s, n | c in t.services && c.name in plan.services && s in t.services
      ensures TunnelAgrees(t, plan, ns, policies, mesh, src, dst, c, s, n, blocks) <==> Shares(t, plan, c, s, n)
    {
      AgreesIffShared(t, declared, plan, ns, policies, mesh, src, dst, c, s, n, blocks);
    }
  }
}
