/** topologyNetworkPolicies (gitops.go) and the Kubernetes meaning of what it renders. */
module NetworkPolicies {
  import opened Wrappers
  import opened Ordering
  import opened Topology
  import opened EnvironmentPlan

  // ----- the output language -----

  datatype Protocol = TCP | UDP
  datatype Port = Port(protocol: Protocol, number: nat)

  type Labels = map<string, string>

  datatype Peer =
    | Pods(labels: Labels)
    | PodsIn(namespace: string, labels: Labels)
    | Everyone(namespace: string)
    | Block(cidr: string, excluded: seq<string>)

  /** An empty list of peers or ports means all of them, as it does to Kubernetes. */
  datatype Rule = Rule(peers: seq<Peer>, ports: set<Port>)

  datatype Policy = Policy(selector: Labels, ingress: Option<seq<Rule>>, egress: Option<seq<Rule>>)

  datatype Pod = Pod(namespace: string, labels: Labels, ip: string)

  /** How addresses fall into CIDR blocks; the results hold for any answer. */
  type Blocks = (string, string, seq<string>) -> bool

  predicate LabelsMatch(selector: Labels, labels: Labels) {
    forall k :: k in selector ==> k in labels && labels[k] == selector[k]
  }

  predicate PeerMatches(peer: Peer, ns: string, pod: Pod, blocks: Blocks) {
    match peer
    case Pods(labels) => pod.namespace == ns && LabelsMatch(labels, pod.labels)
    case PodsIn(other, labels) => pod.namespace == other && LabelsMatch(labels, pod.labels)
    case Everyone(other) => pod.namespace == other
    case Block(cidr, excluded) => blocks(pod.ip, cidr, excluded)
  }

  predicate RuleMatches(rule: Rule, ns: string, pod: Pod, port: Port, blocks: Blocks) {
    && (rule.peers == [] || exists i :: 0 <= i < |rule.peers| && PeerMatches(rule.peers[i], ns, pod, blocks))
    && (rule.ports == {} || port in rule.ports)
  }

  predicate SomeRule(rules: seq<Rule>, ns: string, pod: Pod, port: Port, blocks: Blocks) {
    exists i :: 0 <= i < |rules| && RuleMatches(rules[i], ns, pod, port, blocks)
  }

  /** A pod no ingress policy selects accepts anything; otherwise some rule must match. */
  predicate IngressAllowed(policies: seq<Policy>, ns: string, src: Pod, dst: Pod, port: Port, blocks: Blocks) {
    (forall p :: p in policies ==> !(p.ingress.Some? && LabelsMatch(p.selector, dst.labels)))
    || exists p :: p in policies && p.ingress.Some? && LabelsMatch(p.selector, dst.labels)
                   && SomeRule(p.ingress.value, ns, src, port, blocks)
  }

  predicate EgressAllowed(policies: seq<Policy>, ns: string, src: Pod, dst: Pod, port: Port, blocks: Blocks) {
    (forall p :: p in policies ==> !(p.egress.Some? && LabelsMatch(p.selector, src.labels)))
    || exists p :: p in policies && p.egress.Some? && LabelsMatch(p.selector, src.labels)
                   && SomeRule(p.egress.value, ns, dst, port, blocks)
  }

  /** Both pods live in the namespace the policies are applied to. */
  predicate Allows(policies: seq<Policy>, ns: string, src: Pod, dst: Pod, port: Port, blocks: Blocks) {
    EgressAllowed(policies, ns, src, dst, port, blocks) && IngressAllowed(policies, ns, src, dst, port, blocks)
  }

  // ----- the policies -----

  const APP := "app"
  const BOOTSTRAP := "codefly.dev/bootstrap-service"
  const JOB := "codefly.dev/deploy-job"
  const JOB_NAME := "job-name"
  const HBONE: nat := 15008

  function Tcp(n: nat): Port { Port(TCP, n) }

  function AppIs(app: string): Labels { map[APP := app] }

  function Inbound(selector: Labels, rules: seq<Rule>): Policy { Policy(selector, Some(rules), None) }

  function Outbound(selector: Labels, rules: seq<Rule>): Policy { Policy(selector, None, Some(rules)) }

  const DENY_ALL: Policy := Policy(map[], Some([]), Some([]))

  const DNS: Policy :=
    Outbound(map[], [Rule([PodsIn("kube-system", map["k8s-app" := "kube-dns"])], {Port(UDP, 53), Port(TCP, 53)})])

  const CONTROL_PLANE: Policy :=
    Outbound(map[], [Rule([PodsIn("istio-system", map[APP := "istiod"])], {Port(TCP, 15012), Port(TCP, 15014)})])

  const AMBIENT: Policy := Policy(map[], Some([Rule([], {Port(TCP, HBONE)})]), Some([Rule([], {Port(TCP, HBONE)})]))

  const BASELINE: seq<Policy> := [DENY_ALL, DNS, CONTROL_PLANE, AMBIENT]

  datatype Edge = Edge(caller: string, callerApp: string, target: string, targetApp: string, ports: set<Port>)

  function EdgeIngress(e: Edge): Policy { Inbound(AppIs(e.targetApp), [Rule([Pods(AppIs(e.callerApp))], e.ports)]) }

  function EdgeEgress(e: Edge): Policy { Outbound(AppIs(e.callerApp), [Rule([Pods(AppIs(e.targetApp))], e.ports)]) }

  function NamespaceEgress(e: Edge, namespace: string): Policy {
    Outbound(AppIs(e.callerApp), [Rule([Everyone(namespace)], e.ports)])
  }

  function BlockPeers(cidrs: seq<string>): (r: seq<Peer>)
    ensures |r| == |cidrs| && forall i :: 0 <= i < |cidrs| ==> r[i] == Block(cidrs[i], [])
  {
    seq(|cidrs|, i requires 0 <= i < |cidrs| => Block(cidrs[i], []))
  }

  function AddressEgress(e: Edge, cidrs: seq<string>): Policy {
    Outbound(AppIs(e.callerApp), [Rule(BlockPeers(cidrs), e.ports)])
  }

  function TokenEgress(e: Edge): Policy {
    Outbound(AppIs(e.callerApp), [Rule([Block("169.254.169.254/32", [])], {Port(TCP, 80)})])
  }

  function BootstrapIngress(s: Service): Policy {
    Inbound(AppIs(AppLabel(s)), [Rule([Pods(map[BOOTSTRAP := s.name])], PortsOf(s, s.bootstrap))])
  }

  function BootstrapEgress(s: Service): Policy {
    Outbound(map[BOOTSTRAP := s.name], [Rule([Pods(AppIs(AppLabel(s)))], PortsOf(s, s.bootstrap))])
  }

  function JobLabels(job: string): Labels { map[JOB := job, JOB_NAME := job] }

  function JobIngress(j: DeployJob, target: Service): Policy {
    Inbound(AppIs(AppLabel(target)), [Rule([Pods(JobLabels(j.name))], {Tcp(EndpointPort(target, j.writesEndpoint))})])
  }

  function JobEgress(j: DeployJob, target: Service): Policy {
    Outbound(JobLabels(j.name), [Rule([Pods(AppIs(AppLabel(target)))], {Tcp(EndpointPort(target, j.writesEndpoint))})])
  }

  const GATEWAY_LABELS: Labels := map["istio" := "ingressgateway"]

  function GatewayIngress(s: Service, ports: set<Port>): Policy {
    Inbound(AppIs(AppLabel(s)), [Rule([PodsIn("istio-system", GATEWAY_LABELS)], ports)])
  }

  function PublicPorts(s: Service): set<Port> { set n | n in s.publicEgressPorts :: Tcp(n) }

  function PublicEgress(s: Service, v4: seq<string>, v6: seq<string>): Policy {
    Outbound(AppIs(AppLabel(s)), [Rule([Block("0.0.0.0/0", v4), Block("::/0", v6)], PublicPorts(s))])
  }

  const IPV4_EXCLUDED: seq<string> := [
    "0.0.0.0/8", "10.0.0.0/8", "100.64.0.0/10", "127.0.0.0/8", "169.254.0.0/16", "172.16.0.0/12",
    "192.0.0.0/24", "192.0.2.0/24", "192.31.196.0/24", "192.52.193.0/24", "192.88.99.0/24", "192.168.0.0/16",
    "192.175.48.0/24", "198.18.0.0/15", "198.51.100.0/24", "203.0.113.0/24", "224.0.0.0/4", "240.0.0.0/4"]

  const IPV6_EXCLUDED: seq<string> := [
    "::/128", "::1/128", "64:ff9b::/96", "64:ff9b:1::/48", "100::/64", "2001::/23", "2001:db8::/32",
    "2002::/16", "fc00::/7", "fe80::/10", "ff00::/8"]

  // ----- lookups that ignore failure, as the renderer does -----

  const NO_SERVICE: Service := Service("", None, "", [], [], [], [], [])

  function ServiceOr0(t: Topo, name: string): Service {
    match FindService(t.services, name) case Some(s) => s case None => NO_SERVICE
  }

  function EndpointPort(s: Service, name: string): nat {
    match FindEndpoint(s.endpoints, name) case Some(e) => e.port case None => 0
  }

  function PortsOf(s: Service, endpoints: seq<string>): set<Port> {
    set n | n in endpoints :: Tcp(EndpointPort(s, n))
  }

  // ----- what is rendered, section by section -----

  function EdgeOf(t: Topo, caller: Service, d: Dependency): Edge {
    var target := ServiceOr0(t, d.service);
    Edge(caller.name, AppLabel(caller), target.name, AppLabel(target), PortsOf(target, d.endpoints))
  }

  function CallerEdges(t: Topo, caller: Service, ds: seq<Dependency>): seq<Edge> {
    if ds == [] then [] else [EdgeOf(t, caller, ds[0])] + CallerEdges(t, caller, ds[1..])
  }

  function Edges(t: Topo, plan: Plan, callers: seq<Service>): seq<Edge> {
    if callers == [] then []
    else
      var rest := Edges(t, plan, callers[1..]);
      if callers[0].name in plan.services then CallerEdges(t, callers[0], callers[0].dependencies) + rest else rest
  }

  datatype Rendered = MissingHandoff | Policies(ps: seq<Policy>)

  function Before(ps: seq<Policy>, rest: Rendered): Rendered {
    match rest case MissingHandoff => MissingHandoff case Policies(qs) => Policies(ps + qs)
  }

  /** One edge: the policies it adds and the callers that already have a token policy. */
  datatype EdgeOutcome = NoHandoff | Adds(own: seq<Policy>, tokens: set<string>)

  function OutcomeOf(e: Edge, plan: Plan, tokens: set<string>): EdgeOutcome {
    if e.target in plan.services then Adds([EdgeIngress(e), EdgeEgress(e)], tokens)
    else if e.target in plan.withdrawn then Adds([], tokens)
    else if e.target !in plan.managed then NoHandoff
    else
      var c := plan.managed[e.target];
      if c.egressNamespace != "" then Adds([NamespaceEgress(e, c.egressNamespace)], tokens)
      else if c.authMode == "external-identity" && e.caller !in tokens then
        Adds([AddressEgress(e, c.egressCidrs), TokenEgress(e)], tokens + {e.caller})
      else Adds([AddressEgress(e, c.egressCidrs)], tokens)
  }

  function EdgePolicies(edges: seq<Edge>, plan: Plan, tokens: set<string>): Rendered
    decreases |edges|
  {
    if edges == [] then Policies([])
    else
      match OutcomeOf(edges[0], plan, tokens)
      case NoHandoff => MissingHandoff
      case Adds(own, next) => Before(own, EdgePolicies(edges[1..], plan, next))
  }

  function BootstrapPolicies(plan: Plan, services: seq<Service>): seq<Policy> {
    if services == [] then []
    else
      var s, rest := services[0], BootstrapPolicies(plan, services[1..]);
      if s.bootstrap != [] && s.name in plan.services then [BootstrapIngress(s), BootstrapEgress(s)] + rest else rest
  }

  function JobPolicies(t: Topo, plan: Plan, jobs: seq<DeployJob>): seq<Policy> {
    if jobs == [] then []
    else
      var j, rest := jobs[0], JobPolicies(t, plan, jobs[1..]);
      if j.service in plan.services && j.writesService in plan.services then
        [JobIngress(j, ServiceOr0(t, j.writesService)), JobEgress(j, ServiceOr0(t, j.writesService))] + rest
      else rest
  }

  function RoutedServices(routes: seq<RoutePlan>): seq<string> {
    if routes == [] then []
    else
      var rest := RoutedServices(routes[1..]);
      if routes[0].service in rest then rest else [routes[0].service] + rest
  }

  function RoutedPorts(routes: seq<RoutePlan>, service: string): set<Port> {
    set r | r in routes && r.service == service :: Tcp(r.port)
  }

  function GatewayPolicies(t: Topo, routes: seq<RoutePlan>, names: seq<string>): seq<Policy> {
    if names == [] then []
    else
      var own := GatewayIngress(ServiceOr0(t, names[0]), RoutedPorts(routes, names[0]));
      [own] + GatewayPolicies(t, routes, names[1..])
  }

  function PublicPolicies(plan: Plan, services: seq<Service>): seq<Policy> {
    if services == [] then []
    else
      var s, rest := services[0], PublicPolicies(plan, services[1..]);
      if s.publicEgressPorts != [] && s.name in plan.services
      then [PublicEgress(s, IPV4_EXCLUDED, IPV6_EXCLUDED)] + rest else rest
  }

  function AfterEdges(t: Topo, plan: Plan): seq<Policy> {
    BootstrapPolicies(plan, t.services) + JobPolicies(t, plan, t.jobs)
    + GatewayPolicies(t, plan.ingress, SortStrings(RoutedServices(plan.ingress))) + PublicPolicies(plan, t.services)
  }

  function RenderedPolicies(t: Topo, plan: Plan): Rendered {
    match EdgePolicies(Edges(t, plan, t.services), plan, {})
    case MissingHandoff => MissingHandoff
    case Policies(edges) => Policies(BASELINE + edges + AfterEdges(t, plan))
  }

  // ----- as it runs -----

  method CollectEdges(t: Topo, plan: Plan) returns (edges: seq<Edge>)
    ensures edges == Edges(t, plan, t.services)
  {
    edges := [];
    assert t.services[0..] == t.services;
    for i := 0 to |t.services|
      invariant edges + Edges(t, plan, t.services[i..]) == Edges(t, plan, t.services)
    {
      var caller := t.services[i];
      assert t.services[i..][1..] == t.services[i+1..];
      if caller.name in plan.services {
        var own := CollectCallerEdges(t, caller);
        edges := edges + own;
      }
    }
    assert t.services[|t.services|..] == [];
  }

  method CollectCallerEdges(t: Topo, caller: Service) returns (edges: seq<Edge>)
    ensures edges == CallerEdges(t, caller, caller.dependencies)
  {
    edges := [];
    var ds := caller.dependencies;
    assert ds[0..] == ds;
    for j := 0 to |ds|
      invariant edges + CallerEdges(t, caller, ds[j..]) == CallerEdges(t, caller, ds)
    {
      assert ds[j..][1..] == ds[j+1..];
      edges := edges + [EdgeOf(t, caller, ds[j])];
    }
    assert ds[|ds|..] == [];
  }

  lemma BeforeBefore(a: seq<Policy>, b: seq<Policy>, r: Rendered)
    ensures Before(a, Before(b, r)) == Before(a + b, r)
  {
    if r.Policies? { assert a + (b + r.ps) == a + b + r.ps; }
  }

  method RenderEdges(edges: seq<Edge>, plan: Plan) returns (r: Rendered)
    ensures r == EdgePolicies(edges, plan, {})
  {
    var ps: seq<Policy>, tokens: set<string> := [], {};
    assert edges[0..] == edges;
    for i := 0 to |edges|
      invariant Before(ps, EdgePolicies(edges[i..], plan, tokens)) == EdgePolicies(edges, plan, {})
    {
      assert edges[i..][0] == edges[i] && edges[i..][1..] == edges[i+1..];
      var missing, own, next := RenderEdge(edges[i], plan, tokens);
      if missing {
        return MissingHandoff;
      }
      BeforeBefore(ps, own, EdgePolicies(edges[i+1..], plan, next));
      ps, tokens := ps + own, next;
    }
    assert edges[|edges|..] == [];
    return Policies(ps);
  }

  method RenderEdge(e: Edge, plan: Plan, tokens: set<string>)
    returns (missing: bool, own: seq<Policy>, next: set<string>)
    ensures OutcomeOf(e, plan, tokens) == if missing then NoHandoff else Adds(own, next)
  {
    missing, own, next := false, [], tokens;
    if e.target in plan.services {
      own := [EdgeIngress(e), EdgeEgress(e)];
    } else if e.target in plan.withdrawn {
    } else if e.target !in plan.managed {
      missing := true;
    } else {
      var config := plan.managed[e.target];
      if config.egressNamespace != "" {
        own := [NamespaceEgress(e, config.egressNamespace)];
      } else {
        own := [AddressEgress(e, config.egressCidrs)];
        if config.authMode == "external-identity" && e.caller !in tokens {
          next := tokens + {e.caller};
          own := own + [TokenEgress(e)];
        }
      }
    }
  }

  method RenderRest(t: Topo, plan: Plan) returns (ps: seq<Policy>)
    ensures ps == AfterEdges(t, plan)
  {
    var bootstrap := RenderBootstrap(plan, t.services);
    var jobs := RenderJobs(t, plan);
    var names := SortStrings(RoutedServices(plan.ingress));
    var gateway := RenderGateway(t, plan.ingress, names);
    var public := RenderPublic(plan, t.services);
    ps := bootstrap + jobs + gateway + public;
  }

  method RenderBootstrap(plan: Plan, services: seq<Service>) returns (ps: seq<Policy>)
    ensures ps == BootstrapPolicies(plan, services)
  {
    ps := [];
    assert services[0..] == services;
    for i := 0 to |services|
      invariant ps + BootstrapPolicies(plan, services[i..]) == BootstrapPolicies(plan, services)
    {
      assert services[i..][1..] == services[i+1..];
      if services[i].bootstrap != [] && services[i].name in plan.services {
        ps := ps + [BootstrapIngress(services[i]), BootstrapEgress(services[i])];
      }
    }
    assert services[|services|..] == [];
  }

  method RenderJobs(t: Topo, plan: Plan) returns (ps: seq<Policy>)
    ensures ps == JobPolicies(t, plan, t.jobs)
  {
    ps := [];
    var jobs := t.jobs;
    assert jobs[0..] == jobs;
    for i := 0 to |jobs|
      invariant ps + JobPolicies(t, plan, jobs[i..]) == JobPolicies(t, plan, jobs)
    {
      assert jobs[i..][1..] == jobs[i+1..];
      if jobs[i].service in plan.services && jobs[i].writesService in plan.services {
        var target := ServiceOr0(t, jobs[i].writesService);
        ps := ps + [JobIngress(jobs[i], target), JobEgress(jobs[i], target)];
      }
    }
    assert jobs[|jobs|..] == [];
  }

  method RenderGateway(t: Topo, routes: seq<RoutePlan>, names: seq<string>) returns (ps: seq<Policy>)
    ensures ps == GatewayPolicies(t, routes, names)
  {
    ps := [];
    assert names[0..] == names;
    for i := 0 to |names|
      invariant ps + GatewayPolicies(t, routes, names[i..]) == GatewayPolicies(t, routes, names)
    {
      assert names[i..][1..] == names[i+1..];
      ps := ps + [GatewayIngress(ServiceOr0(t, names[i]), RoutedPorts(routes, names[i]))];
    }
    assert names[|names|..] == [];
  }

  method RenderPublic(plan: Plan, services: seq<Service>) returns (ps: seq<Policy>)
    ensures ps == PublicPolicies(plan, services)
  {
    ps := [];
    assert services[0..] == services;
    for i := 0 to |services|
      invariant ps + PublicPolicies(plan, services[i..]) == PublicPolicies(plan, services)
    {
      assert services[i..][1..] == services[i+1..];
      if services[i].publicEgressPorts != [] && services[i].name in plan.services {
        ps := ps + [PublicEgress(services[i], IPV4_EXCLUDED, IPV6_EXCLUDED)];
      }
    }
    assert services[|services|..] == [];
  }

  /** topologyNetworkPolicies. */
  method TopologyNetworkPolicies(t: Topo, plan: Plan) returns (r: Rendered)
    ensures r == RenderedPolicies(t, plan)
  {
    var edges := CollectEdges(t, plan);
    r := RenderEdges(edges, plan);
    if r.Policies? {
      var rest := RenderRest(t, plan);
      r := Policies(BASELINE + r.ps + rest);
    }
  }
}
