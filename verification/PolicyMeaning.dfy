/** The rendered NetworkPolicies mean exactly the declared dependency graph. */
module PolicyMeaning {
  import opened Wrappers
  import opened Ordering
  import opened Topology
  import opened ManagedServices
  import opened EnvironmentPlan
  import opened PlanProperties
  import opened NetworkPolicies

  // ----- what is in each section -----

  lemma {:induction false} CallerEdgeSource(t: Topo, c: Service, ds: seq<Dependency>, e: Edge) returns (d: Dependency)
    requires e in CallerEdges(t, c, ds)
    ensures d in ds && e == EdgeOf(t, c, d)
  {
    if e == EdgeOf(t, c, ds[0]) { d := ds[0]; } else { d := CallerEdgeSource(t, c, ds[1..], e); }
  }

  lemma {:induction false} EdgeSource(t: Topo, plan: Plan, callers: seq<Service>, e: Edge)
    returns (c: Service, d: Dependency)
    requires e in Edges(t, plan, callers)
    ensures c in callers && c.name in plan.services && d in c.dependencies && e == EdgeOf(t, c, d)
  {
    c := callers[0];
    if c.name in plan.services && e in CallerEdges(t, c, c.dependencies) {
      d := CallerEdgeSource(t, c, c.dependencies, e);
    } else {
      c, d := EdgeSource(t, plan, callers[1..], e);
    }
  }

  lemma {:induction false} CallerEdgeStays(t: Topo, c: Service, ds: seq<Dependency>, d: Dependency)
    requires d in ds
    ensures EdgeOf(t, c, d) in CallerEdges(t, c, ds)
  {
    if d != ds[0] { CallerEdgeStays(t, c, ds[1..], d); }
  }

  lemma {:induction false} EdgeStays(t: Topo, plan: Plan, callers: seq<Service>, c: Service, d: Dependency)
    requires c in callers && c.name in plan.services && d in c.dependencies
    ensures EdgeOf(t, c, d) in Edges(t, plan, callers)
  {
    if c == callers[0] {
      CallerEdgeStays(t, c, c.dependencies, d);
    } else {
      EdgeStays(t, plan, callers[1..], c, d);
    }
  }

  lemma {:induction false} EdgePolicySource(edges: seq<Edge>, plan: Plan, tokens: set<string>, p: Policy)
    returns (e: Edge, met: set<string>)
    requires EdgePolicies(edges, plan, tokens).Policies? && p in EdgePolicies(edges, plan, tokens).ps
    ensures e in edges && OutcomeOf(e, plan, met).Adds? && p in OutcomeOf(e, plan, met).own
    decreases |edges|
  {
    var outcome := OutcomeOf(edges[0], plan, tokens);
    if p in outcome.own {
      e, met := edges[0], tokens;
    } else {
      e, met := EdgePolicySource(edges[1..], plan, outcome.tokens, p);
    }
  }

  lemma {:induction false} EdgePolicyStays(edges: seq<Edge>, plan: Plan, tokens: set<string>, e: Edge)
    requires EdgePolicies(edges, plan, tokens).Policies? && e in edges && e.target in plan.services
    ensures EdgeIngress(e) in EdgePolicies(edges, plan, tokens).ps
            && EdgeEgress(e) in EdgePolicies(edges, plan, tokens).ps
    decreases |edges|
  {
    var outcome := OutcomeOf(edges[0], plan, tokens);
    if e != edges[0] { EdgePolicyStays(edges[1..], plan, outcome.tokens, e); }
  }

  lemma {:induction false} BootstrapSource(plan: Plan, services: seq<Service>, p: Policy) returns (s: Service)
    requires p in BootstrapPolicies(plan, services)
    ensures s in services && s.bootstrap != [] && s.name in plan.services
            && (p == BootstrapIngress(s) || p == BootstrapEgress(s))
  {
    s := services[0];
    if !(s.bootstrap != [] && s.name in plan.services && (p == BootstrapIngress(s) || p == BootstrapEgress(s))) {
      s := BootstrapSource(plan, services[1..], p);
    }
  }

  lemma {:induction false} BootstrapStays(plan: Plan, services: seq<Service>, s: Service)
    requires s in services && s.bootstrap != [] && s.name in plan.services
    ensures BootstrapIngress(s) in BootstrapPolicies(plan, services)
            && BootstrapEgress(s) in BootstrapPolicies(plan, services)
  {
    if s != services[0] { BootstrapStays(plan, services[1..], s); }
  }

  predicate JobRuns(plan: Plan, j: DeployJob) { j.service in plan.services && j.writesService in plan.services }

  lemma {:induction false} JobSource(t: Topo, plan: Plan, jobs: seq<DeployJob>, p: Policy) returns (j: DeployJob)
    requires p in JobPolicies(t, plan, jobs)
    ensures j in jobs && JobRuns(plan, j)
    ensures p == JobIngress(j, ServiceOr0(t, j.writesService)) || p == JobEgress(j, ServiceOr0(t, j.writesService))
  {
    j := jobs[0];
    var target := ServiceOr0(t, j.writesService);
    if !(JobRuns(plan, j) && (p == JobIngress(j, target) || p == JobEgress(j, target))) {
      j := JobSource(t, plan, jobs[1..], p);
    }
  }

  lemma {:induction false} JobStays(t: Topo, plan: Plan, jobs: seq<DeployJob>, j: DeployJob)
    requires j in jobs && JobRuns(plan, j)
    ensures JobIngress(j, ServiceOr0(t, j.writesService)) in JobPolicies(t, plan, jobs)
    ensures JobEgress(j, ServiceOr0(t, j.writesService)) in JobPolicies(t, plan, jobs)
  {
    if j != jobs[0] { JobStays(t, plan, jobs[1..], j); }
  }

  lemma {:induction false} RoutedMembers(routes: seq<RoutePlan>, name: string)
    ensures name in RoutedServices(routes) <==> exists r :: r in routes && r.service == name
  {
    if routes != [] {
      RoutedMembers(routes[1..], name);
      assert forall r :: r in routes <==> r == routes[0] || r in routes[1..];
      if name == routes[0].service { assert routes[0] in routes; }
    }
  }

  lemma {:induction false} GatewaySource(t: Topo, routes: seq<RoutePlan>, names: seq<string>, p: Policy)
    returns (n: string)
    requires p in GatewayPolicies(t, routes, names)
    ensures n in names && p == GatewayIngress(ServiceOr0(t, n), RoutedPorts(routes, n))
  {
    n := names[0];
    if p != GatewayIngress(ServiceOr0(t, n), RoutedPorts(routes, n)) { n := GatewaySource(t, routes, names[1..], p); }
  }

  lemma {:induction false} GatewayStays(t: Topo, routes: seq<RoutePlan>, names: seq<string>, n: string)
    requires n in names
    ensures GatewayIngress(ServiceOr0(t, n), RoutedPorts(routes, n)) in GatewayPolicies(t, routes, names)
  {
    if n != names[0] { GatewayStays(t, routes, names[1..], n); }
  }

  lemma {:induction false} PublicSource(plan: Plan, services: seq<Service>, p: Policy) returns (s: Service)
    requires p in PublicPolicies(plan, services)
    ensures s in services && s.publicEgressPorts != [] && s.name in plan.services
    ensures p == PublicEgress(s, IPV4_EXCLUDED, IPV6_EXCLUDED)
  {
    s := services[0];
    if s.publicEgressPorts == [] || s.name !in plan.services || p != PublicEgress(s, IPV4_EXCLUDED, IPV6_EXCLUDED) {
      s := PublicSource(plan, services[1..], p);
    }
  }

  // ----- where a rendered policy comes from -----

  datatype Origin =
    | Baseline
    | OfEdge(caller: Service, d: Dependency, met: set<string>)
    | OfBootstrap(s: Service)
    | OfJob(j: DeployJob)
    | OfRoute(name: string)
    | OfPublic(s: Service)

  ghost predicate Explains(t: Topo, plan: Plan, p: Policy, o: Origin) {
    match o
    case Baseline => p in BASELINE
    case OfEdge(c, d, met) =>
      && c in t.services && c.name in plan.services && d in c.dependencies
      && OutcomeOf(EdgeOf(t, c, d), plan, met).Adds? && p in OutcomeOf(EdgeOf(t, c, d), plan, met).own
    case OfBootstrap(s) =>
      && s in t.services && s.name in plan.services && s.bootstrap != []
      && (p == BootstrapIngress(s) || p == BootstrapEgress(s))
    case OfJob(j) =>
      && j in t.jobs && JobRuns(plan, j)
      && (p == JobIngress(j, ServiceOr0(t, j.writesService)) || p == JobEgress(j, ServiceOr0(t, j.writesService)))
    case OfRoute(n) =>
      && (exists r :: r in plan.ingress && r.service == n)
      && p == GatewayIngress(ServiceOr0(t, n), RoutedPorts(plan.ingress, n))
    case OfPublic(s) =>
      && s in t.services && s.publicEgressPorts != [] && s.name in plan.services
      && p == PublicEgress(s, IPV4_EXCLUDED, IPV6_EXCLUDED)
  }

  lemma Classify(t: Topo, plan: Plan, ps: seq<Policy>, p: Policy) returns (o: Origin)
    requires RenderedPolicies(t, plan) == Policies(ps) && p in ps
    ensures Explains(t, plan, p, o)
  {
    var edges := Edges(t, plan, t.services);
    var names := SortStrings(RoutedServices(plan.ingress));
    if p in BASELINE {
      o := Baseline;
    } else if p in EdgePolicies(edges, plan, {}).ps {
      var e, met := EdgePolicySource(edges, plan, {}, p);
      var c, d := EdgeSource(t, plan, t.services, e);
      o := OfEdge(c, d, met);
    } else if p in BootstrapPolicies(plan, t.services) {
      var s := BootstrapSource(plan, t.services, p);
      o := OfBootstrap(s);
    } else if p in JobPolicies(t, plan, t.jobs) {
      var j := JobSource(t, plan, t.jobs, p);
      o := OfJob(j);
    } else if p in GatewayPolicies(t, plan.ingress, names) {
      var n := GatewaySource(t, plan.ingress, names, p);
      SortedMembers(RoutedServices(plan.ingress));
      RoutedMembers(plan.ingress, n);
      o := OfRoute(n);
    } else {
      var s := PublicSource(plan, t.services, p);
      o := OfPublic(s);
    }
  }

  // ----- rendering never misses a handoff -----

  /** Everything the renderers are given was checked: topology and plan fit together. */
  ghost predicate Prepared(t: Topo, declared: seq<string>, plan: Plan) {
    && ValidTopology(t, declared)
    && (forall s, d :: s in t.services && d in s.dependencies ==>
          ExactlyOne(d.service in plan.services, d.service in plan.managed, d.service in plan.withdrawn))
    && (forall s, d :: s in t.services && d in s.dependencies && d.service in plan.managed ==>
          (plan.managed[d.service].egressNamespace != "") != (plan.managed[d.service].egressCidrs != []))
    && (forall r :: r in plan.ingress ==> FindService(t.services, r.service).Some?)
  }

  lemma {:induction false} RoutesNameServices(routes: seq<IngressRoute>, names: set<string>, hosts: set<string>,
                                              services: seq<string>, t: Topo, net: Net)
    requires RoutesOk(routes, names, hosts, services, t, net)
    ensures forall r :: r in PlanRoutes(routes, t) ==> FindService(t.services, r.service).Some?
    decreases |routes|
  {
    if routes != [] {
      RoutesNameServices(routes[1..], names + {routes[0].name}, hosts + HostSet(routes[0]), services, t, net);
    }
  }

  lemma PlansArePrepared(env: Environment, declared: seq<string>, t: Topo, capable: bool, net: Net)
    requires ValidTopology(t, declared) && Plannable(env, declared, t, capable, net)
    ensures Prepared(t, declared, PlanOf(env, declared, t, capable, net))
  {
    var plan := PlanOf(env, declared, t, capable, net);
    forall s, d | s in t.services && d in s.dependencies
      ensures ExactlyOne(d.service in plan.services, d.service in plan.managed, d.service in plan.withdrawn)
      ensures d.service in plan.managed ==>
                (plan.managed[d.service].egressNamespace != "") != (plan.managed[d.service].egressCidrs != [])
    {
      EdgeHasDestination(env, declared, t, capable, net, s, d);
      if d.service in plan.managed { ManagedEdgeReach(env, declared, t, capable, net, s, d); }
    }
    RoutesNameServices(env.ingress, {}, {}, plan.services, t, net);
  }

  /** The edge of a declared dependency names its target and at least one port of it. */
  lemma EdgeIsReal(t: Topo, declared: seq<string>, c: Service, d: Dependency)
    requires ValidTopology(t, declared) && c in t.services && d in c.dependencies
    ensures var e := EdgeOf(t, c, d); e.target == d.service && e.ports != {}
    ensures ServiceOr0(t, d.service) in t.services && ServiceOr0(t, d.service).name == d.service
  {
    DependencyTarget(t, declared, c, d);
    var target := ServiceOr0(t, d.service);
    assert Tcp(EndpointPort(target, d.endpoints[0])) in PortsOf(target, d.endpoints);
  }

  lemma {:induction false} EdgesRender(edges: seq<Edge>, plan: Plan, tokens: set<string>)
    requires forall e :: e in edges ==>
                           e.target in plan.services || e.target in plan.managed || e.target in plan.withdrawn
    ensures EdgePolicies(edges, plan, tokens).Policies?
    decreases |edges|
  {
    if edges != [] {
      assert edges[0] in edges;
      EdgesRender(edges[1..], plan, OutcomeOf(edges[0], plan, tokens).tokens);
    }
  }

  /** Policy rendering never reaches its missing-handoff error. */
  lemma RenderingSucceeds(t: Topo, declared: seq<string>, plan: Plan)
    requires Prepared(t, declared, plan)
    ensures RenderedPolicies(t, plan).Policies?
  {
    var edges := Edges(t, plan, t.services);
    forall e | e in edges ensures e.target in plan.services || e.target in plan.managed || e.target in plan.withdrawn {
      var c, d := EdgeSource(t, plan, t.services, e);
      EdgeIsReal(t, declared, c, d);
      assert ExactlyOne(d.service in plan.services, d.service in plan.managed, d.service in plan.withdrawn);
    }
    EdgesRender(edges, plan, {});
  }

  // ----- who may reach whom -----

  predicate Labelled(pod: Pod, key: string, value: string) { key in pod.labels && pod.labels[key] == value }

  /** The caller declares a dependency on the target through an endpoint bound to this port. */
  ghost predicate DeclaredEdge(plan: Plan, caller: Service, target: Service, port: Port) {
    && caller.name in plan.services && target.name in plan.services
    && exists d :: d in caller.dependencies && d.service == target.name && Bound(target, d.endpoints, port)
  }

  /** Some endpoint on the list is one of the service's, bound to this TCP port. */
  ghost predicate Bound(target: Service, names: seq<string>, port: Port) {
    exists e :: e in target.endpoints && e.name in names && port == Tcp(e.port)
  }

  ghost predicate FromCaller(t: Topo, plan: Plan, src: Pod, target: Service, port: Port) {
    exists c :: c in t.services && Labelled(src, APP, AppLabel(c)) && DeclaredEdge(plan, c, target, port)
  }

  ghost predicate FromBootstrap(plan: Plan, src: Pod, target: Service, port: Port) {
    Labelled(src, BOOTSTRAP, target.name) && target.name in plan.services && Bound(target, target.bootstrap, port)
  }

  /** The running deploy job whose labels the pod carries writes this endpoint. */
  predicate JobWrites(plan: Plan, j: DeployJob, src: Pod, target: Service, port: Port) {
    && JobRuns(plan, j) && Labelled(src, JOB, j.name) && Labelled(src, JOB_NAME, j.name)
    && j.writesService == target.name
    && exists e :: e in target.endpoints && e.name == j.writesEndpoint && port == Tcp(e.port)
  }

  predicate FromJob(t: Topo, plan: Plan, src: Pod, target: Service, port: Port) {
    exists j :: j in t.jobs && JobWrites(plan, j, src, target, port)
  }

  predicate FromGateway(plan: Plan, src: Pod, target: Service, port: Port) {
    && src.namespace == "istio-system" && Labelled(src, "istio", "ingressgateway")
    && exists r :: r in plan.ingress && r.service == target.name && port == Tcp(r.port)
  }

  /** Everyone who may open this port of the target: the declarations, and nothing else. */
  ghost predicate MayReach(t: Topo, plan: Plan, ns: string, src: Pod, target: Service, port: Port) {
    || (src.namespace == ns && (|| FromCaller(t, plan, src, target, port)
                                || FromBootstrap(plan, src, target, port)
                                || FromJob(t, plan, src, target, port)))
    || FromGateway(plan, src, target, port)
  }

  /** Endpoint names are unique, so the port found by name is the only one of that name. */
  lemma EndpointUnique(t: Topo, declared: seq<string>, s: Service, e: Endpoint)
    requires ValidTopology(t, declared) && s in t.services && e in s.endpoints
    ensures FindEndpoint(s.endpoints, e.name) == Some(e)
  {
    var k :| 0 <= k < |t.services| && t.services[k] == s;
    assert ServiceOk(t.services[k], declared);
    var found := FindEndpoint(s.endpoints, e.name).value;
    var i :| 0 <= i < |s.endpoints| && s.endpoints[i] == e;
    var j :| 0 <= j < |s.endpoints| && s.endpoints[j] == found;
    assert i == j;
  }

  lemma PortsAreBound(t: Topo, declared: seq<string>, s: Service, names: seq<string>, port: Port)
    requires ValidTopology(t, declared) && s in t.services
    requires forall n :: n in names ==> FindEndpoint(s.endpoints, n).Some?
    ensures port in PortsOf(s, names) <==> Bound(s, names, port)
  {
    if port in PortsOf(s, names) {
      var n :| n in names && port == Tcp(EndpointPort(s, n));
      var e := FindEndpoint(s.endpoints, n).value;
      assert e in s.endpoints && e.name in names && port == Tcp(e.port);
    }
    if e :| e in s.endpoints && e.name in names && port == Tcp(e.port) {
      EndpointUnique(t, declared, s, e);
      assert port == Tcp(EndpointPort(s, e.name));
    }
  }

  lemma DependencyPorts(t: Topo, declared: seq<string>, c: Service, d: Dependency, target: Service, port: Port)
    requires ValidTopology(t, declared) && c in t.services && d in c.dependencies
    requires target in t.services && d.service == target.name
    ensures ServiceOr0(t, d.service) == target
    ensures port in EdgeOf(t, c, d).ports <==> Bound(target, d.endpoints, port)
  {
    DependencyTarget(t, declared, c, d);
    FindUnique(t.services, target);
    forall n | n in d.endpoints ensures FindEndpoint(target.endpoints, n).Some? {
      var i :| 0 <= i < |d.endpoints| && d.endpoints[i] == n;
    }
    PortsAreBound(t, declared, target, d.endpoints, port);
  }

  lemma BootstrapPorts(t: Topo, declared: seq<string>, s: Service, port: Port)
    requires ValidTopology(t, declared) && s in t.services
    ensures port in PortsOf(s, s.bootstrap) <==> Bound(s, s.bootstrap, port)
  {
    var k :| 0 <= k < |t.services| && t.services[k] == s;
    assert ServiceOk(t.services[k], declared);
    forall n | n in s.bootstrap ensures FindEndpoint(s.endpoints, n).Some? {
      var i :| 0 <= i < |s.bootstrap| && s.bootstrap[i] == n;
    }
    PortsAreBound(t, declared, s, s.bootstrap, port);
  }

  lemma JobPort(t: Topo, declared: seq<string>, j: DeployJob, target: Service, port: Port)
    requires ValidTopology(t, declared) && j in t.jobs && target in t.services && j.writesService == target.name
    ensures ServiceOr0(t, j.writesService) == target
    ensures port == Tcp(EndpointPort(target, j.writesEndpoint)) <==>
              exists e :: e in target.endpoints && e.name == j.writesEndpoint && port == Tcp(e.port)
  {
    var k :| 0 <= k < |t.jobs| && t.jobs[k] == j;
    assert JobOk(t.services, t.jobs[k]);
    FindUnique(t.services, target);
    var found := FindEndpoint(target.endpoints, j.writesEndpoint).value;
    assert found in target.endpoints && found.name == j.writesEndpoint;
    if e :| e in target.endpoints && e.name == j.writesEndpoint && port == Tcp(e.port) {
      EndpointUnique(t, declared, target, e);
    }
  }

  /** A job's target, whether or not its policies are rendered, is a service of the topology. */
  lemma JobTarget(t: Topo, declared: seq<string>, j: DeployJob)
    requires ValidTopology(t, declared) && j in t.jobs
    ensures ServiceOr0(t, j.writesService) in t.services && ServiceOr0(t, j.writesService).name == j.writesService
  {
    var k :| 0 <= k < |t.jobs| && t.jobs[k] == j;
    assert JobOk(t.services, t.jobs[k]);
  }

  // ----- one rendered ingress rule -----

  /** The policy admits this connection to this pod. */
  predicate Admits(p: Policy, ns: string, src: Pod, dst: Pod, port: Port, blocks: Blocks) {
    p.ingress.Some? && LabelsMatch(p.selector, dst.labels) && SomeRule(p.ingress.value, ns, src, port, blocks)
  }

  predicate Releases(p: Policy, ns: string, src: Pod, dst: Pod, port: Port, blocks: Blocks) {
    p.egress.Some? && LabelsMatch(p.selector, src.labels) && SomeRule(p.egress.value, ns, dst, port, blocks)
  }

  /** What a rendered rule of one peer and some ports says. */
  lemma OneRule(peer: Peer, ports: set<Port>, ns: string, pod: Pod, port: Port, blocks: Blocks)
    ensures SomeRule([Rule([peer], ports)], ns, pod, port, blocks) <==>
              PeerMatches(peer, ns, pod, blocks) && (ports == {} || port in ports)
  {
    var rule := Rule([peer], ports);
    assert [rule][0] == rule && [peer][0] == peer;
    if PeerMatches(peer, ns, pod, blocks) && (ports == {} || port in ports) {
      assert PeerMatches(rule.peers[0], ns, pod, blocks);
      assert RuleMatches([rule][0], ns, pod, port, blocks);
    }
  }

  lemma SelectsApp(app: string, pod: Pod)
    ensures LabelsMatch(AppIs(app), pod.labels) <==> Labelled(pod, APP, app)
  {
    assert APP in AppIs(app);
  }

  lemma SelectsJob(job: string, pod: Pod)
    ensures LabelsMatch(JobLabels(job), pod.labels) <==> Labelled(pod, JOB, job) && Labelled(pod, JOB_NAME, job)
  {
    assert JOB in JobLabels(job) && JOB_NAME in JobLabels(job);
  }

  lemma SelectsBootstrap(s: string, pod: Pod)
    ensures LabelsMatch(map[BOOTSTRAP := s], pod.labels) <==> Labelled(pod, BOOTSTRAP, s)
  {
    assert BOOTSTRAP in map[BOOTSTRAP := s];
  }

  lemma SelectsGateway(pod: Pod)
    ensures LabelsMatch(GATEWAY_LABELS, pod.labels) <==> Labelled(pod, "istio", "ingressgateway")
  {
    assert "istio" in GATEWAY_LABELS;
  }

  lemma BaselineAdmitsOnlyMesh(p: Policy, ns: string, src: Pod, dst: Pod, port: Port, blocks: Blocks)
    requires p in BASELINE && port != Tcp(HBONE)
    ensures !Admits(p, ns, src, dst, port, blocks)
  {
  }

  lemma EdgeAdmits(e: Edge, ns: string, src: Pod, dst: Pod, port: Port, blocks: Blocks)
    requires e.ports != {}
    ensures Admits(EdgeIngress(e), ns, src, dst, port, blocks) <==>
              Labelled(dst, APP, e.targetApp) && src.namespace == ns && Labelled(src, APP, e.callerApp)
                && port in e.ports
    ensures Releases(EdgeEgress(e), ns, src, dst, port, blocks) <==>
              Labelled(src, APP, e.callerApp) && dst.namespace == ns && Labelled(dst, APP, e.targetApp)
                && port in e.ports
  {
    SelectsApp(e.targetApp, dst); SelectsApp(e.callerApp, src);
    OneRule(Pods(AppIs(e.callerApp)), e.ports, ns, src, port, blocks);
    OneRule(Pods(AppIs(e.targetApp)), e.ports, ns, dst, port, blocks);
  }

  lemma BootstrapAdmits(s: Service, ns: string, src: Pod, dst: Pod, port: Port, blocks: Blocks)
    requires s.bootstrap != []
    ensures Admits(BootstrapIngress(s), ns, src, dst, port, blocks) <==>
              Labelled(dst, APP, AppLabel(s)) && src.namespace == ns && Labelled(src, BOOTSTRAP, s.name)
              && port in PortsOf(s, s.bootstrap)
    ensures Releases(BootstrapEgress(s), ns, src, dst, port, blocks) <==>
              Labelled(src, BOOTSTRAP, s.name) && dst.namespace == ns && Labelled(dst, APP, AppLabel(s))
              && port in PortsOf(s, s.bootstrap)
  {
    assert Tcp(EndpointPort(s, s.bootstrap[0])) in PortsOf(s, s.bootstrap);
    SelectsApp(AppLabel(s), dst); SelectsBootstrap(s.name, src);
    OneRule(Pods(map[BOOTSTRAP := s.name]), PortsOf(s, s.bootstrap), ns, src, port, blocks);
    OneRule(Pods(AppIs(AppLabel(s))), PortsOf(s, s.bootstrap), ns, dst, port, blocks);
  }

  lemma JobAdmits(j: DeployJob, target: Service, ns: string, src: Pod, dst: Pod, port: Port, blocks: Blocks)
    ensures Admits(JobIngress(j, target), ns, src, dst, port, blocks) <==>
              Labelled(dst, APP, AppLabel(target)) && src.namespace == ns && Labelled(src, JOB, j.name)
              && Labelled(src, JOB_NAME, j.name) && port == Tcp(EndpointPort(target, j.writesEndpoint))
    ensures Releases(JobEgress(j, target), ns, src, dst, port, blocks) <==>
              Labelled(src, JOB, j.name) && Labelled(src, JOB_NAME, j.name) && dst.namespace == ns
              && Labelled(dst, APP, AppLabel(target)) && port == Tcp(EndpointPort(target, j.writesEndpoint))
  {
    var ports := {Tcp(EndpointPort(target, j.writesEndpoint))};
    SelectsApp(AppLabel(target), dst); SelectsJob(j.name, src);
    OneRule(Pods(JobLabels(j.name)), ports, ns, src, port, blocks);
    OneRule(Pods(AppIs(AppLabel(target))), ports, ns, dst, port, blocks);
  }

  lemma GatewayAdmits(s: Service, ports: set<Port>, ns: string, src: Pod, dst: Pod, port: Port, blocks: Blocks)
    requires ports != {}
    ensures Admits(GatewayIngress(s, ports), ns, src, dst, port, blocks) <==>
              Labelled(dst, APP, AppLabel(s)) && src.namespace == "istio-system"
              && Labelled(src, "istio", "ingressgateway") && port in ports
  {
    SelectsApp(AppLabel(s), dst); SelectsGateway(src);
    OneRule(PodsIn("istio-system", GATEWAY_LABELS), ports, ns, src, port, blocks);
  }

  // ----- soundness: an admitted connection was declared -----

  lemma AdmittedWasDeclared(t: Topo, declared: seq<string>, plan: Plan, ps: seq<Policy>, p: Policy, ns: string,
                            src: Pod, dst: Pod, target: Service, port: Port, blocks: Blocks)
    requires Prepared(t, declared, plan) && RenderedPolicies(t, plan) == Policies(ps) && p in ps
    requires target in t.services && Labelled(dst, APP, AppLabel(target)) && port != Tcp(HBONE)
    requires Admits(p, ns, src, dst, port, blocks)
    ensures MayReach(t, plan, ns, src, target, port)
  {
    var o := Classify(t, plan, ps, p);
    match o {
      case Baseline => BaselineAdmitsOnlyMesh(p, ns, src, dst, port, blocks);
      case OfEdge(c, d, met) => EdgeWasDeclared(t, declared, plan, p, c, d, met, ns, src, dst, target, port, blocks);
      case OfBootstrap(s) =>
        assert p == BootstrapIngress(s);
        BootstrapAdmits(s, ns, src, dst, port, blocks);
        SameApp(t.services, s, target);
        BootstrapPorts(t, declared, s, port);
      case OfJob(j) =>
        JobTarget(t, declared, j);
        assert p == JobIngress(j, ServiceOr0(t, j.writesService));
        JobAdmits(j, ServiceOr0(t, j.writesService), ns, src, dst, port, blocks);
        SameApp(t.services, ServiceOr0(t, j.writesService), target);
        JobPort(t, declared, j, target, port);
        assert JobWrites(plan, j, src, target, port);
      case OfRoute(n) => RouteWasDeclared(t, declared, plan, n, ns, src, dst, target, port, blocks);
      case OfPublic(s) =>
    }
  }

  lemma OnlyInClusterEdgesAdmit(e: Edge, plan: Plan, met: set<string>, p: Policy)
    requires OutcomeOf(e, plan, met).Adds? && p in OutcomeOf(e, plan, met).own && p.ingress.Some?
    ensures e.target in plan.services && p == EdgeIngress(e)
  {
  }

  lemma EdgeWasDeclared(t: Topo, declared: seq<string>, plan: Plan, p: Policy, c: Service, d: Dependency,
                        met: set<string>,
                        ns: string, src: Pod, dst: Pod, target: Service, port: Port, blocks: Blocks)
    requires Prepared(t, declared, plan) && Explains(t, plan, p, OfEdge(c, d, met))
    requires target in t.services && Labelled(dst, APP, AppLabel(target))
    requires Admits(p, ns, src, dst, port, blocks)
    ensures src.namespace == ns && FromCaller(t, plan, src, target, port)
  {
    var e := EdgeOf(t, c, d);
    EdgeIsReal(t, declared, c, d);
    OnlyInClusterEdgesAdmit(e, plan, met, p);
    EdgeAdmits(e, ns, src, dst, port, blocks);
    SameApp(t.services, ServiceOr0(t, d.service), target);
    DependencyPorts(t, declared, c, d, target, port);
    assert DeclaredEdge(plan, c, target, port);
  }

  lemma RouteWasDeclared(t: Topo, declared: seq<string>, plan: Plan, n: string, ns: string,
                         src: Pod, dst: Pod, target: Service, port: Port, blocks: Blocks)
    requires Prepared(t, declared, plan) && exists r :: r in plan.ingress && r.service == n
    requires target in t.services && Labelled(dst, APP, AppLabel(target))
    requires Admits(GatewayIngress(ServiceOr0(t, n), RoutedPorts(plan.ingress, n)), ns, src, dst, port, blocks)
    ensures FromGateway(plan, src, target, port)
  {
    var r :| r in plan.ingress && r.service == n;
    assert Tcp(r.port) in RoutedPorts(plan.ingress, n);
    GatewayAdmits(ServiceOr0(t, n), RoutedPorts(plan.ingress, n), ns, src, dst, port, blocks);
    SameApp(t.services, ServiceOr0(t, n), target);
  }

  // ----- completeness: a declared connection is admitted -----

  /** A declaration is rendered as a pair: one policy lets the connection in, and, when the
      source is governed by the same namespace, another lets it out. */
  lemma DeclaredIsAdmitted(t: Topo, declared: seq<string>, plan: Plan, ps: seq<Policy>, ns: string,
                           src: Pod, dst: Pod, target: Service, port: Port, blocks: Blocks)
                             returns (p: Policy, q: Policy)
    requires Prepared(t, declared, plan) && RenderedPolicies(t, plan) == Policies(ps)
    requires target in t.services && Labelled(dst, APP, AppLabel(target)) && dst.namespace == ns
    requires src.namespace == ns && MayReach(t, plan, ns, src, target, port) && !FromGateway(plan, src, target, port)
    ensures p in ps && Admits(p, ns, src, dst, port, blocks)
    ensures q in ps && Releases(q, ns, src, dst, port, blocks)
  {
    if FromCaller(t, plan, src, target, port) {
      var c :| c in t.services && Labelled(src, APP, AppLabel(c)) && DeclaredEdge(plan, c, target, port);
      var d :| d in c.dependencies && d.service == target.name && Bound(target, d.endpoints, port);
      var e := EdgeOf(t, c, d);
      DependencyPorts(t, declared, c, d, target, port);
      EdgeStays(t, plan, t.services, c, d);
      EdgePolicyStays(Edges(t, plan, t.services), plan, {}, e);
      EdgeAdmits(e, ns, src, dst, port, blocks);
      p, q := EdgeIngress(e), EdgeEgress(e);
    } else if FromBootstrap(plan, src, target, port) {
      BootstrapPorts(t, declared, target, port);
      BootstrapStays(plan, t.services, target);
      BootstrapAdmits(target, ns, src, dst, port, blocks);
      p, q := BootstrapIngress(target), BootstrapEgress(target);
    } else {
      var j :| j in t.jobs && JobWrites(plan, j, src, target, port);
      JobPort(t, declared, j, target, port);
      JobStays(t, plan, t.jobs, j);
      JobAdmits(j, target, ns, src, dst, port, blocks);
      p, q := JobIngress(j, target), JobEgress(j, target);
    }
  }

  lemma RoutedIsAdmitted(t: Topo, declared: seq<string>, plan: Plan, ps: seq<Policy>, ns: string,
                         src: Pod, dst: Pod, target: Service, port: Port, blocks: Blocks) returns (p: Policy)
    requires Prepared(t, declared, plan) && RenderedPolicies(t, plan) == Policies(ps)
    requires target in t.services && Labelled(dst, APP, AppLabel(target)) && FromGateway(plan, src, target, port)
    ensures p in ps && Admits(p, ns, src, dst, port, blocks)
  {
    var n, names := target.name, SortStrings(RoutedServices(plan.ingress));
    var ports := RoutedPorts(plan.ingress, n);
    assert port in ports;
    FindUnique(t.services, target);
    RoutedMembers(plan.ingress, n);
    SortedMembers(RoutedServices(plan.ingress));
    GatewayStays(t, plan.ingress, names, n);
    GatewayAdmits(target, ports, ns, src, dst, port, blocks);
    p := GatewayIngress(target, ports);
  }

  // ----- the main results -----

  /** Into a service pod: the rendered policies admit exactly what was declared. The mesh's
      own tunnel port is the one exception. */
  lemma IngressMeansDeclarations(t: Topo, declared: seq<string>, plan: Plan, ps: seq<Policy>, ns: string,
                                 src: Pod, dst: Pod, target: Service, port: Port, blocks: Blocks)
    requires Prepared(t, declared, plan) && RenderedPolicies(t, plan) == Policies(ps)
    requires target in t.services && Labelled(dst, APP, AppLabel(target)) && dst.namespace == ns && port != Tcp(HBONE)
    ensures IngressAllowed(ps, ns, src, dst, port, blocks) <==>
              MayReach(t, plan, ns, src, target, port)
  {
    assert BASELINE[0] in ps && LabelsMatch(DENY_ALL.selector, dst.labels);
    if IngressAllowed(ps, ns, src, dst, port, blocks) {
      var p :| p in ps && Admits(p, ns, src, dst, port, blocks);
      AdmittedWasDeclared(t, declared, plan, ps, p, ns, src, dst, target, port, blocks);
    }
    if FromGateway(plan, src, target, port) {
      var p := RoutedIsAdmitted(t, declared, plan, ps, ns, src, dst, target, port, blocks);
    } else if MayReach(t, plan, ns, src, target, port) {
      var p, q := DeclaredIsAdmitted(t, declared, plan, ps, ns, src, dst, target, port, blocks);
    }
  }

  /** Between two pods of the namespace, both directions of enforcement together: any pod,
      with any labels except the gateway's, reaches a service pod exactly as declared. */
  lemma PoliciesMeanDeclarations(t: Topo, declared: seq<string>, plan: Plan, ps: seq<Policy>, ns: string,
                                 src: Pod, dst: Pod, target: Service, port: Port, blocks: Blocks)
    requires Prepared(t, declared, plan) && RenderedPolicies(t, plan) == Policies(ps)
    requires target in t.services && Labelled(dst, APP, AppLabel(target)) && port != Tcp(HBONE)
    requires src.namespace == dst.namespace == ns
    requires !FromGateway(plan, src, target, port)
    ensures Allows(ps, ns, src, dst, port, blocks) <==>
              MayReach(t, plan, ns, src, target, port)
  {
    IngressMeansDeclarations(t, declared, plan, ps, ns, src, dst, target, port, blocks);
    if MayReach(t, plan, ns, src, target, port) {
      var p, q := DeclaredIsAdmitted(t, declared, plan, ps, ns, src, dst, target, port, blocks);
    }
  }

  /** A pod carries its service's app label and none of the labels of jobs and the gateway. */
  predicate ServicePod(pod: Pod, s: Service, ns: string) {
    && pod.namespace == ns && Labelled(pod, APP, AppLabel(s))
    && BOOTSTRAP !in pod.labels && JOB !in pod.labels && "istio" !in pod.labels
  }

  lemma ServicePodReach(t: Topo, declared: seq<string>, plan: Plan, src: Pod, caller: Service, target: Service,
                        port: Port, ns: string)
    requires ValidTopology(t, declared) && caller in t.services && ServicePod(src, caller, ns)
    ensures MayReach(t, plan, ns, src, target, port) <==> DeclaredEdge(plan, caller, target, port)
    ensures !FromGateway(plan, src, target, port)
  {
    if c :| c in t.services && Labelled(src, APP, AppLabel(c)) && DeclaredEdge(plan, c, target, port) {
      SameApp(t.services, c, caller);
    }
  }

  /** For every environment that can be planned, its policies are the dependency graph:
      a pod of one service opens a port of another exactly when the first declares it. */
  lemma ServicePodsFollowGraph(env: Environment, declared: seq<string>, t: Topo, capable: bool, net: Net,
                               src: Pod, dst: Pod, caller: Service, target: Service, port: Port, ns: string,
                               blocks: Blocks)
    requires ValidTopology(t, declared) && Plannable(env, declared, t, capable, net)
    requires caller in t.services && target in t.services && port != Tcp(HBONE)
    requires ServicePod(src, caller, ns) && ServicePod(dst, target, ns)
    ensures var plan := PlanOf(env, declared, t, capable, net);
            && RenderedPolicies(t, plan).Policies?
            && (Allows(RenderedPolicies(t, plan).ps, ns, src, dst, port, blocks) <==>
                  DeclaredEdge(plan, caller, target, port))
  {
    PlansArePrepared(env, declared, t, capable, net);
    GraphOfPlan(t, declared, PlanOf(env, declared, t, capable, net), src, dst, caller, target, port, ns, blocks);
  }

  lemma GraphOfPlan(t: Topo, declared: seq<string>, plan: Plan,
                    src: Pod, dst: Pod, caller: Service, target: Service, port: Port, ns: string, blocks: Blocks)
    requires Prepared(t, declared, plan)
    requires caller in t.services && target in t.services && port != Tcp(HBONE)
    requires ServicePod(src, caller, ns) && ServicePod(dst, target, ns)
    ensures RenderedPolicies(t, plan).Policies?
    ensures Allows(RenderedPolicies(t, plan).ps, ns, src, dst, port, blocks) <==>
              DeclaredEdge(plan, caller, target, port)
  {
    RenderingSucceeds(t, declared, plan);
    ServicePodReach(t, declared, plan, src, caller, target, port, ns);
    PoliciesMeanDeclarations(t, declared, plan, RenderedPolicies(t, plan).ps, ns, src, dst, target, port, blocks);
  }

  lemma KeysDiffer()
    ensures APP !in {BOOTSTRAP, JOB, JOB_NAME, "istio"} && BOOTSTRAP !in {JOB, "istio"} && "istio" !in {JOB, JOB_NAME}
  {
    assert |APP| == 3 && |BOOTSTRAP| == 29 && |JOB| == 22 && |JOB_NAME| == 8 && |"istio"| == 5;
  }

  lemma SameName(services: seq<Service>, a: Service, b: Service)
    requires DistinctServices(services) && a in services && b in services && a.name == b.name
    ensures a == b
  {
    FindUnique(services, a);
    FindUnique(services, b);
  }

  lemma BootstrapPodReach(t: Topo, plan: Plan, src: Pod, owner: Service, target: Service, port: Port, ns: string)
    requires DistinctServices(t.services) && owner in t.services && target in t.services
    requires src.namespace == ns && src.labels == map[BOOTSTRAP := owner.name]
    ensures MayReach(t, plan, ns, src, target, port) <==>
              owner == target && target.name in plan.services && Bound(target, target.bootstrap, port)
    ensures !FromGateway(plan, src, target, port)
  {
    KeysDiffer();
    assert APP !in src.labels && JOB !in src.labels && "istio" !in src.labels;
    assert src.labels[BOOTSTRAP] == owner.name;
    if owner.name == target.name { SameName(t.services, owner, target); }
  }

  /** A bootstrap job reaches its own service's bootstrap endpoints and nothing else. */
  lemma BootstrapPodsReachTheirService(t: Topo, declared: seq<string>, plan: Plan, ps: seq<Policy>, ns: string,
                                       src: Pod, dst: Pod, owner: Service, target: Service, port: Port, blocks: Blocks)
    requires Prepared(t, declared, plan) && RenderedPolicies(t, plan) == Policies(ps)
    requires owner in t.services && ServicePod(dst, target, ns) && target in t.services && port != Tcp(HBONE)
    requires src.namespace == ns && src.labels == map[BOOTSTRAP := owner.name]
    ensures Allows(ps, ns, src, dst, port, blocks) <==>
              owner == target && target.name in plan.services && Bound(target, target.bootstrap, port)
  {
    BootstrapPodReach(t, plan, src, owner, target, port, ns);
    PoliciesMeanDeclarations(t, declared, plan, ps, ns, src, dst, target, port, blocks);
  }

  lemma SameJob(services: seq<Service>, jobs: seq<DeployJob>, a: DeployJob, b: DeployJob)
    requires JobsOk(services, jobs) && a in jobs && b in jobs && a.name == b.name
    ensures a == b
  {
    var i :| 0 <= i < |jobs| && jobs[i] == a;
    var k :| 0 <= k < |jobs| && jobs[k] == b;
    assert i == k;
  }

  lemma OnlyJob(t: Topo, plan: Plan, src: Pod, job: DeployJob, target: Service, port: Port)
    requires JobsOk(t.services, t.jobs) && job in t.jobs && Labelled(src, JOB, job.name)
    ensures FromJob(t, plan, src, target, port) <==> JobWrites(plan, job, src, target, port)
  {
    if j :| j in t.jobs && JobWrites(plan, j, src, target, port) { SameJob(t.services, t.jobs, j, job); }
  }

  lemma JobPodReach(t: Topo, plan: Plan, src: Pod, job: DeployJob, target: Service, port: Port, ns: string)
    requires JobsOk(t.services, t.jobs) && job in t.jobs
    requires src.namespace == ns && src.labels == JobLabels(job.name)
    ensures MayReach(t, plan, ns, src, target, port) <==> JobWrites(plan, job, src, target, port)
    ensures !FromGateway(plan, src, target, port)
  {
    KeysDiffer();
    OnlyJob(t, plan, src, job, target, port);
  }

  /** A deploy job's pod reaches the endpoint the job declares to write and nothing else. */
  lemma JobPodsReachWhatTheyWrite(t: Topo, declared: seq<string>, plan: Plan, ps: seq<Policy>, ns: string,
                                  src: Pod, dst: Pod, job: DeployJob, target: Service, port: Port, blocks: Blocks)
    requires Prepared(t, declared, plan) && RenderedPolicies(t, plan) == Policies(ps)
    requires job in t.jobs && ServicePod(dst, target, ns) && target in t.services && port != Tcp(HBONE)
    requires src.namespace == ns && src.labels == JobLabels(job.name)
    ensures Allows(ps, ns, src, dst, port, blocks) <==>
              JobWrites(plan, job, src, target, port)
  {
    JobPodReach(t, plan, src, job, target, port, ns);
    PoliciesMeanDeclarations(t, declared, plan, ps, ns, src, dst, target, port, blocks);
  }

  // ----- the empty-list trap -----

  /** To Kubernetes an empty peer or port list means everyone or everything. */
  predicate BoundedRule(r: Rule) { r.peers != [] && r.ports != {} }

  predicate BoundedPolicy(p: Policy) {
    && (p.ingress.Some? ==> forall i :: 0 <= i < |p.ingress.value| ==> BoundedRule(p.ingress.value[i]))
    && (p.egress.Some? ==> forall i :: 0 <= i < |p.egress.value| ==> BoundedRule(p.egress.value[i]))
  }

  lemma BaselineBounded(p: Policy)
    requires p in BASELINE
    ensures BoundedPolicy(p) || p == AMBIENT
  {
    assert Port(UDP, 53) in {Port(UDP, 53), Port(TCP, 53)};
    assert Port(TCP, 15012) in {Port(TCP, 15012), Port(TCP, 15014)};
    assert BoundedPolicy(DENY_ALL) && BoundedPolicy(DNS) && BoundedPolicy(CONTROL_PLANE);
  }

  lemma EdgeBounded(t: Topo, declared: seq<string>, plan: Plan, c: Service, d: Dependency, met: set<string>, p: Policy)
    requires Prepared(t, declared, plan) && Explains(t, plan, p, OfEdge(c, d, met))
    ensures BoundedPolicy(p)
  {
    var e := EdgeOf(t, c, d);
    EdgeIsReal(t, declared, c, d);
    if d.service in plan.managed {
      assert (plan.managed[d.service].egressNamespace != "") != (plan.managed[d.service].egressCidrs != []);
    }
    OutcomeBounded(e, plan, met, p);
  }

  lemma OutcomeBounded(e: Edge, plan: Plan, met: set<string>, p: Policy)
    requires e.ports != {} && OutcomeOf(e, plan, met).Adds? && p in OutcomeOf(e, plan, met).own
    requires e.target in plan.managed ==>
               plan.managed[e.target].egressNamespace != "" || plan.managed[e.target].egressCidrs != []
    ensures BoundedPolicy(p)
  {
    if e.target in plan.managed {
      var cidrs := plan.managed[e.target].egressCidrs;
      assert |BlockPeers(cidrs)| == |cidrs|;
    }
    assert Port(TCP, 80) in {Port(TCP, 80)};
  }

  lemma OneBounded(peer: Peer, ports: set<Port>)
    requires ports != {}
    ensures forall s: Labels ::
              BoundedPolicy(Inbound(s, [Rule([peer], ports)])) && BoundedPolicy(Outbound(s, [Rule([peer], ports)]))
  {
  }

  lemma BootstrapBounded(s: Service)
    requires s.bootstrap != []
    ensures BoundedPolicy(BootstrapIngress(s)) && BoundedPolicy(BootstrapEgress(s))
  {
    assert Tcp(EndpointPort(s, s.bootstrap[0])) in PortsOf(s, s.bootstrap);
    OneBounded(Pods(map[BOOTSTRAP := s.name]), PortsOf(s, s.bootstrap));
    OneBounded(Pods(AppIs(AppLabel(s))), PortsOf(s, s.bootstrap));
  }

  lemma JobBounded(j: DeployJob, target: Service)
    ensures BoundedPolicy(JobIngress(j, target)) && BoundedPolicy(JobEgress(j, target))
  {
    var ports := {Tcp(EndpointPort(target, j.writesEndpoint))};
    OneBounded(Pods(JobLabels(j.name)), ports);
    OneBounded(Pods(AppIs(AppLabel(target))), ports);
  }

  lemma PublicBounded(s: Service)
    requires s.publicEgressPorts != []
    ensures BoundedPolicy(PublicEgress(s, IPV4_EXCLUDED, IPV6_EXCLUDED))
  {
    assert s.publicEgressPorts[0] in s.publicEgressPorts;
    assert Tcp(s.publicEgressPorts[0]) in PublicPorts(s);
  }

  /** No rendered rule falls into it, save the ambient mesh's own tunnel. */
  lemma NoUnboundedRule(t: Topo, declared: seq<string>, plan: Plan, ps: seq<Policy>, p: Policy)
    requires Prepared(t, declared, plan) && RenderedPolicies(t, plan) == Policies(ps) && p in ps
    ensures BoundedPolicy(p) || p == AMBIENT
  {
    var o := Classify(t, plan, ps, p);
    match o {
      case Baseline => BaselineBounded(p);
      case OfEdge(c, d, met) => EdgeBounded(t, declared, plan, c, d, met, p);
      case OfBootstrap(s) => BootstrapBounded(s);
      case OfJob(j) => JobBounded(j, ServiceOr0(t, j.writesService));
      case OfRoute(n) =>
        var r :| r in plan.ingress && r.service == n;
        assert Tcp(r.port) in RoutedPorts(plan.ingress, n);
        OneBounded(PodsIn("istio-system", GATEWAY_LABELS), RoutedPorts(plan.ingress, n));
      case OfPublic(s) => PublicBounded(s);
    }
  }
}
