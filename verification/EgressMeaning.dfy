/** What the rendered NetworkPolicies let a service pod open, anywhere: the dual of who may
    reach it (gitops.go). */
module EgressMeaning {
  import opened Topology
  import opened ManagedServices
  import opened EnvironmentPlan
  import opened PlanProperties
  import opened NetworkPolicies
  import opened PolicyMeaning

  // ----- where a service may go -----

  predicate ToDns(dst: Pod, port: Port) {
    dst.namespace == "kube-system" && Labelled(dst, "k8s-app", "kube-dns") && port in {Port(UDP, 53), Port(TCP, 53)}
  }

  predicate ToControlPlane(dst: Pod, port: Port) {
    && dst.namespace == "istio-system" && Labelled(dst, APP, "istiod")
    && port in {Port(TCP, 15012), Port(TCP, 15014)}
  }

  /** A pod of a service in the namespace, over a declared edge. */
  ghost predicate ToDeclared(t: Topo, plan: Plan, ns: string, s: Service, dst: Pod, port: Port) {
    && dst.namespace == ns
    && exists target ::
         target in t.services && Labelled(dst, APP, AppLabel(target)) && DeclaredEdge(plan, s, target, port)
  }

  ghost predicate ManagedDependency(plan: Plan, s: Service, d: Dependency) {
    s.name in plan.services && d in s.dependencies && d.service in plan.managed
  }

  /** A managed service is found in its namespace, or at its addresses. */
  predicate Located(c: ManagedConfig, dst: Pod, blocks: Blocks) {
    if c.egressNamespace != "" then dst.namespace == c.egressNamespace
    else exists i :: 0 <= i < |c.egressCidrs| && blocks(dst.ip, c.egressCidrs[i], [])
  }

  /** The dependency goes through an endpoint bound to this port. */
  ghost predicate BoundTo(t: Topo, d: Dependency, port: Port) {
    exists target :: target in t.services && target.name == d.service && Bound(target, d.endpoints, port)
  }

  ghost predicate ToManaged(t: Topo, plan: Plan, s: Service, dst: Pod, port: Port, blocks: Blocks) {
    exists d :: ManagedDependency(plan, s, d) && BoundTo(t, d, port) && Located(plan.managed[d.service], dst, blocks)
  }

  const TOKEN_BLOCK := "169.254.169.254/32"

  predicate NeedsToken(c: ManagedConfig) { c.egressNamespace == "" && c.authMode == "external-identity" }

  /** The workload-identity token endpoint, for a caller that must fetch one. */
  ghost predicate ToToken(plan: Plan, s: Service, dst: Pod, port: Port, blocks: Blocks) {
    && port == Tcp(80) && blocks(dst.ip, TOKEN_BLOCK, [])
    && exists d :: ManagedDependency(plan, s, d) && NeedsToken(plan.managed[d.service])
  }

  /** A public egress port is a TCP port. */
  predicate PublicPort(s: Service, port: Port) { exists n :: n in s.publicEgressPorts && port == Port(TCP, n) }

  predicate ToPublic(plan: Plan, s: Service, dst: Pod, port: Port, blocks: Blocks) {
    && s.name in plan.services && PublicPort(s, port)
    && (blocks(dst.ip, "0.0.0.0/0", IPV4_EXCLUDED) || blocks(dst.ip, "::/0", IPV6_EXCLUDED))
  }

  /** Everywhere a pod of the service may open a connection. */
  ghost predicate MayOpen(t: Topo, plan: Plan, ns: string, s: Service, dst: Pod, port: Port, blocks: Blocks) {
    || port == Tcp(HBONE)
    || ToDns(dst, port)
    || ToControlPlane(dst, port)
    || ToDeclared(t, plan, ns, s, dst, port)
    || ToManaged(t, plan, s, dst, port, blocks)
    || ToToken(plan, s, dst, port, blocks)
    || ToPublic(plan, s, dst, port, blocks)
  }

  // ----- what each kind of policy lets out -----

  lemma SelectsOne(key: string, value: string, pod: Pod)
    ensures LabelsMatch(map[key := value], pod.labels) <==> Labelled(pod, key, value)
  {
    assert key in map[key := value];
  }

  lemma DnsReleases(ns: string, src: Pod, dst: Pod, port: Port, blocks: Blocks)
    ensures Releases(DNS, ns, src, dst, port, blocks) <==> ToDns(dst, port)
  {
    var labels := map["k8s-app" := "kube-dns"];
    var ports := {Port(UDP, 53), Port(TCP, 53)};
    SelectsOne("k8s-app", "kube-dns", dst);
    OneRule(PodsIn("kube-system", labels), ports, ns, dst, port, blocks);
    assert Port(UDP, 53) in ports;
  }

  lemma ControlPlaneReleases(ns: string, src: Pod, dst: Pod, port: Port, blocks: Blocks)
    ensures Releases(CONTROL_PLANE, ns, src, dst, port, blocks) <==> ToControlPlane(dst, port)
  {
    var labels := map[APP := "istiod"];
    var ports := {Port(TCP, 15012), Port(TCP, 15014)};
    SelectsOne(APP, "istiod", dst);
    OneRule(PodsIn("istio-system", labels), ports, ns, dst, port, blocks);
    assert Port(TCP, 15012) in ports;
  }

  lemma TunnelReleases(ns: string, src: Pod, dst: Pod, port: Port, blocks: Blocks)
    ensures Releases(AMBIENT, ns, src, dst, port, blocks) <==> port == Tcp(HBONE)
  {
    var rule := Rule([], {Port(TCP, HBONE)});
    assert AMBIENT.egress.value == [rule] && [rule][0] == rule;
    assert Port(TCP, HBONE) in rule.ports;
    if port == Tcp(HBONE) { assert RuleMatches([rule][0], ns, dst, port, blocks); }
  }

  lemma NamespaceReleases(e: Edge, other: string, ns: string, src: Pod, dst: Pod, port: Port, blocks: Blocks)
    requires e.ports != {}
    ensures Releases(NamespaceEgress(e, other), ns, src, dst, port, blocks) <==>
              Labelled(src, APP, e.callerApp) && dst.namespace == other && port in e.ports
  {
    SelectsApp(e.callerApp, src);
    OneRule(Everyone(other), e.ports, ns, dst, port, blocks);
  }

  lemma ManyBlocks(cidrs: seq<string>, ports: set<Port>, ns: string, pod: Pod, port: Port, blocks: Blocks)
    requires cidrs != [] && ports != {}
    ensures SomeRule([Rule(BlockPeers(cidrs), ports)], ns, pod, port, blocks) <==>
              port in ports && exists i :: 0 <= i < |cidrs| && blocks(pod.ip, cidrs[i], [])
  {
    var rule := Rule(BlockPeers(cidrs), ports);
    assert [rule][0] == rule;
    if i :| 0 <= i < |cidrs| && blocks(pod.ip, cidrs[i], []) {
      assert PeerMatches(rule.peers[i], ns, pod, blocks);
      if port in ports { assert RuleMatches([rule][0], ns, pod, port, blocks); }
    }
  }

  lemma AddressReleases(e: Edge, cidrs: seq<string>, ns: string, src: Pod, dst: Pod, port: Port, blocks: Blocks)
    requires e.ports != {} && cidrs != []
    ensures Releases(AddressEgress(e, cidrs), ns, src, dst, port, blocks) <==>
              Labelled(src, APP, e.callerApp) && port in e.ports
              && exists i :: 0 <= i < |cidrs| && blocks(dst.ip, cidrs[i], [])
  {
    SelectsApp(e.callerApp, src);
    ManyBlocks(cidrs, e.ports, ns, dst, port, blocks);
  }

  lemma TokenReleases(e: Edge, ns: string, src: Pod, dst: Pod, port: Port, blocks: Blocks)
    ensures Releases(TokenEgress(e), ns, src, dst, port, blocks) <==>
              Labelled(src, APP, e.callerApp) && port == Tcp(80) && blocks(dst.ip, TOKEN_BLOCK, [])
  {
    SelectsApp(e.callerApp, src);
    OneRule(Block(TOKEN_BLOCK, []), {Port(TCP, 80)}, ns, dst, port, blocks);
    assert Port(TCP, 80) in {Port(TCP, 80)};
  }

  lemma TwoBlocks(a: Peer, b: Peer, ports: set<Port>, ns: string, pod: Pod, port: Port, blocks: Blocks)
    requires ports != {}
    ensures SomeRule([Rule([a, b], ports)], ns, pod, port, blocks) <==>
              port in ports && (PeerMatches(a, ns, pod, blocks) || PeerMatches(b, ns, pod, blocks))
  {
    var rule := Rule([a, b], ports);
    assert [rule][0] == rule && rule.peers[0] == a && rule.peers[1] == b;
    if port in ports && (PeerMatches(a, ns, pod, blocks) || PeerMatches(b, ns, pod, blocks)) {
      assert PeerMatches(rule.peers[0], ns, pod, blocks) || PeerMatches(rule.peers[1], ns, pod, blocks);
      assert RuleMatches([rule][0], ns, pod, port, blocks);
    }
  }

  lemma PublicReleases(s: Service, ns: string, src: Pod, dst: Pod, port: Port, blocks: Blocks)
    requires s.publicEgressPorts != []
    ensures Releases(PublicEgress(s, IPV4_EXCLUDED, IPV6_EXCLUDED), ns, src, dst, port, blocks) <==>
              Labelled(src, APP, AppLabel(s)) && PublicPort(s, port)
              && (blocks(dst.ip, "0.0.0.0/0", IPV4_EXCLUDED) || blocks(dst.ip, "::/0", IPV6_EXCLUDED))
  {
    SelectsApp(AppLabel(s), src);
    assert s.publicEgressPorts[0] in s.publicEgressPorts;
    assert Tcp(s.publicEgressPorts[0]) in PublicPorts(s);
    if n :| n in s.publicEgressPorts && port == Port(TCP, n) { assert Tcp(n) in PublicPorts(s); }
    TwoBlocks(Block("0.0.0.0/0", IPV4_EXCLUDED), Block("::/0", IPV6_EXCLUDED), PublicPorts(s), ns, dst, port, blocks);
  }

  // ----- soundness: an opened connection was declared -----

  /** The edge of a managed dependency: its ports, and where its target is. */
  lemma ManagedEdge(t: Topo, declared: seq<string>, plan: Plan, s: Service, d: Dependency, port: Port)
    requires Prepared(t, declared, plan) && s in t.services && ManagedDependency(plan, s, d)
    ensures var e, c := EdgeOf(t, s, d), plan.managed[d.service];
            && e.target == d.service && e.callerApp == AppLabel(s) && e.caller == s.name && e.ports != {}
            && (port in e.ports <==> BoundTo(t, d, port))
            && d.service !in plan.services && d.service !in plan.withdrawn
            && (c.egressNamespace != "") != (c.egressCidrs != [])
  {
    EdgeIsReal(t, declared, s, d);
    var target := ServiceOr0(t, d.service);
    DependencyPorts(t, declared, s, d, target, port);
    assert ExactlyOne(d.service in plan.services, d.service in plan.managed, d.service in plan.withdrawn);
    if x :| x in t.services && x.name == d.service && Bound(x, d.endpoints, port) { SameName(t.services, x, target); }
  }

  lemma EdgeReleased(t: Topo, declared: seq<string>, plan: Plan, p: Policy, d: Dependency, met: set<string>,
                     s: Service, ns: string, src: Pod, dst: Pod, port: Port, blocks: Blocks)
    requires Prepared(t, declared, plan) && Explains(t, plan, p, OfEdge(s, d, met))
    requires s in t.services && Labelled(src, APP, AppLabel(s)) && Releases(p, ns, src, dst, port, blocks)
    ensures MayOpen(t, plan, ns, s, dst, port, blocks)
  {
    var e := EdgeOf(t, s, d);
    EdgeIsReal(t, declared, s, d);
    if d.service in plan.services {
      var target := ServiceOr0(t, d.service);
      assert p == EdgeEgress(e);
      EdgeAdmits(e, ns, src, dst, port, blocks);
      DependencyPorts(t, declared, s, d, target, port);
      assert DeclaredEdge(plan, s, target, port);
    } else {
      ManagedReleased(t, declared, plan, p, d, met, s, ns, src, dst, port, blocks);
    }
  }

  /** The three kinds of policy an edge to a managed service adds. */
  lemma ManagedOwn(e: Edge, plan: Plan, met: set<string>, p: Policy)
    requires e.target !in plan.services && e.target in plan.managed
    requires OutcomeOf(e, plan, met).Adds? && p in OutcomeOf(e, plan, met).own
    ensures var c := plan.managed[e.target];
            || (c.egressNamespace != "" && p == NamespaceEgress(e, c.egressNamespace))
            || (c.egressNamespace == "" && p == AddressEgress(e, c.egressCidrs))
            || (NeedsToken(c) && p == TokenEgress(e))
  {
  }

  lemma ManagedReleased(t: Topo, declared: seq<string>, plan: Plan, p: Policy, d: Dependency, met: set<string>,
                        s: Service, ns: string, src: Pod, dst: Pod, port: Port, blocks: Blocks)
    requires Prepared(t, declared, plan) && Explains(t, plan, p, OfEdge(s, d, met))
    requires d.service !in plan.services && EdgeOf(t, s, d).target == d.service
    requires s in t.services && Labelled(src, APP, AppLabel(s)) && Releases(p, ns, src, dst, port, blocks)
    ensures ToManaged(t, plan, s, dst, port, blocks) || ToToken(plan, s, dst, port, blocks)
  {
    var e := EdgeOf(t, s, d);
    WithdrawnAddsNothing(e, plan, met, p);
    assert ManagedDependency(plan, s, d);
    ManagedEdge(t, declared, plan, s, d, port);
    ManagedOwn(e, plan, met, p);
    ManagedPolicyReleased(t, plan, p, d, e, s, ns, src, dst, port, blocks);
  }

  lemma WithdrawnAddsNothing(e: Edge, plan: Plan, met: set<string>, p: Policy)
    requires e.target !in plan.services && OutcomeOf(e, plan, met).Adds? && p in OutcomeOf(e, plan, met).own
    ensures e.target !in plan.withdrawn && e.target in plan.managed
  {
  }

  lemma ManagedPolicyReleased(t: Topo, plan: Plan, p: Policy, d: Dependency, e: Edge, s: Service,
                              ns: string, src: Pod, dst: Pod, port: Port, blocks: Blocks)
    requires ManagedDependency(plan, s, d) && e.ports != {} && (port in e.ports <==> BoundTo(t, d, port))
    requires var c := plan.managed[d.service];
             || (c.egressNamespace != "" && p == NamespaceEgress(e, c.egressNamespace))
             || (c.egressNamespace == "" && c.egressCidrs != [] && p == AddressEgress(e, c.egressCidrs))
             || (NeedsToken(c) && p == TokenEgress(e))
    requires Releases(p, ns, src, dst, port, blocks)
    ensures ToManaged(t, plan, s, dst, port, blocks) || ToToken(plan, s, dst, port, blocks)
  {
    var c := plan.managed[d.service];
    if c.egressNamespace != "" {
      NamespaceReleases(e, c.egressNamespace, ns, src, dst, port, blocks);
    } else if p == AddressEgress(e, c.egressCidrs) && c.egressCidrs != [] {
      AddressReleases(e, c.egressCidrs, ns, src, dst, port, blocks);
    } else {
      TokenReleases(e, ns, src, dst, port, blocks);
    }
  }

  lemma BaselineReleased(p: Policy, ns: string, src: Pod, dst: Pod, port: Port, blocks: Blocks)
    requires p in BASELINE && Releases(p, ns, src, dst, port, blocks)
    ensures port == Tcp(HBONE) || ToDns(dst, port) || ToControlPlane(dst, port)
  {
    DnsReleases(ns, src, dst, port, blocks);
    ControlPlaneReleases(ns, src, dst, port, blocks);
    TunnelReleases(ns, src, dst, port, blocks);
  }

  lemma EdgeCaller(t: Topo, plan: Plan, p: Policy, c: Service, d: Dependency, met: set<string>,
                   ns: string, src: Pod, dst: Pod, port: Port, blocks: Blocks)
    requires Explains(t, plan, p, OfEdge(c, d, met)) && Releases(p, ns, src, dst, port, blocks)
    ensures Labelled(src, APP, AppLabel(c))
  {
    SelectsApp(AppLabel(c), src);
  }

  lemma BootstrapSelectsOther(b: Service, p: Policy, ns: string, src: Pod, dst: Pod, port: Port, blocks: Blocks)
    requires (p == BootstrapIngress(b) || p == BootstrapEgress(b)) && BOOTSTRAP !in src.labels
    ensures !Releases(p, ns, src, dst, port, blocks)
  {
    SelectsBootstrap(b.name, src);
  }

  lemma JobSelectsOther(j: DeployJob, target: Service, p: Policy, ns: string, src: Pod, dst: Pod, port: Port,
                        blocks: Blocks)
    requires (p == JobIngress(j, target) || p == JobEgress(j, target)) && JOB !in src.labels
    ensures !Releases(p, ns, src, dst, port, blocks)
  {
    SelectsJob(j.name, src);
  }

  lemma ReleasedWasDeclared(t: Topo, declared: seq<string>, plan: Plan, ps: seq<Policy>, p: Policy, ns: string,
                            s: Service, src: Pod, dst: Pod, port: Port, blocks: Blocks)
    requires Prepared(t, declared, plan) && RenderedPolicies(t, plan) == Policies(ps) && p in ps
    requires s in t.services && ServicePod(src, s, ns) && Releases(p, ns, src, dst, port, blocks)
    ensures MayOpen(t, plan, ns, s, dst, port, blocks)
  {
    var o := Classify(t, plan, ps, p);
    match o {
      case Baseline => BaselineReleased(p, ns, src, dst, port, blocks);
      case OfEdge(c, d, met) =>
        EdgeCaller(t, plan, p, c, d, met, ns, src, dst, port, blocks);
        SameApp(t.services, c, s);
        EdgeReleased(t, declared, plan, p, d, met, s, ns, src, dst, port, blocks);
      case OfBootstrap(b) => BootstrapSelectsOther(b, p, ns, src, dst, port, blocks);
      case OfJob(j) => JobSelectsOther(j, ServiceOr0(t, j.writesService), p, ns, src, dst, port, blocks);
      case OfRoute(n) =>
      case OfPublic(x) =>
        PublicReleases(x, ns, src, dst, port, blocks);
        SameApp(t.services, x, s);
    }
  }

  // ----- completeness: each way out is rendered -----

  lemma {:induction false} ManagedStays(edges: seq<Edge>, plan: Plan, tokens: set<string>, e: Edge)
    requires EdgePolicies(edges, plan, tokens).Policies? && e in edges
    requires e.target !in plan.services && e.target !in plan.withdrawn && e.target in plan.managed
    ensures var c, ps := plan.managed[e.target], EdgePolicies(edges, plan, tokens).ps;
            if c.egressNamespace != "" then NamespaceEgress(e, c.egressNamespace) in ps
            else AddressEgress(e, c.egressCidrs) in ps
    decreases |edges|
  {
    if e != edges[0] { ManagedStays(edges[1..], plan, OutcomeOf(edges[0], plan, tokens).tokens, e); }
  }

  /** A caller that needs a token has one token policy, from the first edge that asks. */
  lemma {:induction false} TokenStays(edges: seq<Edge>, plan: Plan, tokens: set<string>, e: Edge) returns (first: Edge)
    requires EdgePolicies(edges, plan, tokens).Policies? && e in edges && e.caller !in tokens
    requires e.target !in plan.services && e.target !in plan.withdrawn && e.target in plan.managed
    requires NeedsToken(plan.managed[e.target])
    ensures first in edges && first.caller == e.caller && TokenEgress(first) in EdgePolicies(edges, plan, tokens).ps
    decreases |edges|
  {
    var next := OutcomeOf(edges[0], plan, tokens).tokens;
    if e.caller in next {
      first := edges[0];
    } else {
      first := TokenStays(edges[1..], plan, next, e);
    }
  }

  lemma {:induction false} PublicStays(plan: Plan, services: seq<Service>, s: Service)
    requires s in services && s.publicEgressPorts != [] && s.name in plan.services
    ensures PublicEgress(s, IPV4_EXCLUDED, IPV6_EXCLUDED) in PublicPolicies(plan, services)
  {
    if s != services[0] { PublicStays(plan, services[1..], s); }
  }

  lemma ManagedIsReleased(t: Topo, declared: seq<string>, plan: Plan, ps: seq<Policy>, ns: string,
                          s: Service, src: Pod, dst: Pod, port: Port, blocks: Blocks) returns (p: Policy)
    requires Prepared(t, declared, plan) && RenderedPolicies(t, plan) == Policies(ps)
    requires s in t.services && Labelled(src, APP, AppLabel(s)) && ToManaged(t, plan, s, dst, port, blocks)
    ensures p in ps && Releases(p, ns, src, dst, port, blocks)
  {
    var d :| ManagedDependency(plan, s, d) && BoundTo(t, d, port) && Located(plan.managed[d.service], dst, blocks);
    var e, c := EdgeOf(t, s, d), plan.managed[d.service];
    ManagedEdge(t, declared, plan, s, d, port);
    EdgeStays(t, plan, t.services, s, d);
    ManagedStays(Edges(t, plan, t.services), plan, {}, e);
    if c.egressNamespace != "" {
      p := NamespaceEgress(e, c.egressNamespace);
      NamespaceReleases(e, c.egressNamespace, ns, src, dst, port, blocks);
    } else {
      p := AddressEgress(e, c.egressCidrs);
      AddressReleases(e, c.egressCidrs, ns, src, dst, port, blocks);
    }
  }

  lemma TokenIsReleased(t: Topo, declared: seq<string>, plan: Plan, ps: seq<Policy>, ns: string,
                        s: Service, src: Pod, dst: Pod, port: Port, blocks: Blocks) returns (p: Policy)
    requires Prepared(t, declared, plan) && RenderedPolicies(t, plan) == Policies(ps)
    requires s in t.services && Labelled(src, APP, AppLabel(s)) && ToToken(plan, s, dst, port, blocks)
    ensures p in ps && Releases(p, ns, src, dst, port, blocks)
  {
    var d :| ManagedDependency(plan, s, d) && NeedsToken(plan.managed[d.service]);
    var e, edges := EdgeOf(t, s, d), Edges(t, plan, t.services);
    ManagedEdge(t, declared, plan, s, d, port);
    EdgeStays(t, plan, t.services, s, d);
    var first := TokenStays(edges, plan, {}, e);
    var c, d0 := EdgeSource(t, plan, t.services, first);
    SameName(t.services, c, s);
    TokenReleases(first, ns, src, dst, port, blocks);
    p := TokenEgress(first);
  }

  lemma DeclaredIsReleased(t: Topo, declared: seq<string>, plan: Plan, ps: seq<Policy>, ns: string,
                           s: Service, src: Pod, dst: Pod, port: Port, blocks: Blocks) returns (p: Policy)
    requires Prepared(t, declared, plan) && RenderedPolicies(t, plan) == Policies(ps)
    requires s in t.services && Labelled(src, APP, AppLabel(s)) && ToDeclared(t, plan, ns, s, dst, port)
    ensures p in ps && Releases(p, ns, src, dst, port, blocks)
  {
    var target :| target in t.services && Labelled(dst, APP, AppLabel(target)) && DeclaredEdge(plan, s, target, port);
    var d :| d in s.dependencies && d.service == target.name && Bound(target, d.endpoints, port);
    var e := EdgeOf(t, s, d);
    DependencyPorts(t, declared, s, d, target, port);
    EdgeStays(t, plan, t.services, s, d);
    EdgePolicyStays(Edges(t, plan, t.services), plan, {}, e);
    EdgeAdmits(e, ns, src, dst, port, blocks);
    p := EdgeEgress(e);
  }

  lemma PublicIsReleased(t: Topo, plan: Plan, ps: seq<Policy>, ns: string,
                         s: Service, src: Pod, dst: Pod, port: Port, blocks: Blocks) returns (p: Policy)
    requires RenderedPolicies(t, plan) == Policies(ps)
    requires s in t.services && Labelled(src, APP, AppLabel(s)) && ToPublic(plan, s, dst, port, blocks)
    ensures p in ps && Releases(p, ns, src, dst, port, blocks)
  {
    var n :| n in s.publicEgressPorts && port == Port(TCP, n);
    PublicStays(plan, t.services, s);
    PublicReleases(s, ns, src, dst, port, blocks);
    p := PublicEgress(s, IPV4_EXCLUDED, IPV6_EXCLUDED);
  }

  lemma BaselineIsReleased(t: Topo, plan: Plan, ps: seq<Policy>, ns: string, src: Pod, dst: Pod, port: Port,
                           blocks: Blocks)
    returns (p: Policy)
    requires RenderedPolicies(t, plan) == Policies(ps)
    requires port == Tcp(HBONE) || ToDns(dst, port) || ToControlPlane(dst, port)
    ensures p in ps && Releases(p, ns, src, dst, port, blocks)
  {
    DnsReleases(ns, src, dst, port, blocks);
    ControlPlaneReleases(ns, src, dst, port, blocks);
    TunnelReleases(ns, src, dst, port, blocks);
    assert BASELINE[1] in ps && BASELINE[2] in ps && BASELINE[3] in ps;
    p := if port == Tcp(HBONE) then AMBIENT else if ToDns(dst, port) then DNS else CONTROL_PLANE;
  }

  // ----- the main results -----

  /** Out of a service pod, to any destination on any port: exactly the tunnel, DNS, the
      control plane, the declared edges, the managed dependencies, the token endpoint of a
      caller that needs it, and the declared public ports. */
  lemma EgressMeansDeclarations(t: Topo, declared: seq<string>, plan: Plan, ps: seq<Policy>, ns: string,
                                s: Service, src: Pod, dst: Pod, port: Port, blocks: Blocks)
    requires Prepared(t, declared, plan) && RenderedPolicies(t, plan) == Policies(ps)
    requires s in t.services && ServicePod(src, s, ns)
    ensures EgressAllowed(ps, ns, src, dst, port, blocks) <==> MayOpen(t, plan, ns, s, dst, port, blocks)
  {
    assert BASELINE[0] in ps && LabelsMatch(DENY_ALL.selector, src.labels);
    if EgressAllowed(ps, ns, src, dst, port, blocks) {
      var p :| p in ps && Releases(p, ns, src, dst, port, blocks);
      ReleasedWasDeclared(t, declared, plan, ps, p, ns, s, src, dst, port, blocks);
    }
    if MayOpen(t, plan, ns, s, dst, port, blocks) {
      var p := OpenIsReleased(t, declared, plan, ps, ns, s, src, dst, port, blocks);
    }
  }

  lemma OpenIsReleased(t: Topo, declared: seq<string>, plan: Plan, ps: seq<Policy>, ns: string,
                       s: Service, src: Pod, dst: Pod, port: Port, blocks: Blocks) returns (p: Policy)
    requires Prepared(t, declared, plan) && RenderedPolicies(t, plan) == Policies(ps)
    requires s in t.services && ServicePod(src, s, ns) && MayOpen(t, plan, ns, s, dst, port, blocks)
    ensures p in ps && Releases(p, ns, src, dst, port, blocks)
  {
    if ToDeclared(t, plan, ns, s, dst, port) {
      p := DeclaredIsReleased(t, declared, plan, ps, ns, s, src, dst, port, blocks);
    } else if ToManaged(t, plan, s, dst, port, blocks) {
      p := ManagedIsReleased(t, declared, plan, ps, ns, s, src, dst, port, blocks);
    } else if ToToken(plan, s, dst, port, blocks) {
      p := TokenIsReleased(t, declared, plan, ps, ns, s, src, dst, port, blocks);
    } else if ToPublic(plan, s, dst, port, blocks) {
      p := PublicIsReleased(t, plan, ps, ns, s, src, dst, port, blocks);
    } else {
      p := BaselineIsReleased(t, plan, ps, ns, src, dst, port, blocks);
    }
  }

  lemma NothingDeclared(t: Topo, plan: Plan, ns: string, s: Service, dst: Pod, port: Port, blocks: Blocks)
    requires s.publicEgressPorts == []
    requires forall d :: d in s.dependencies ==> d.service !in plan.managed && d.service !in plan.services
    ensures !ToDeclared(t, plan, ns, s, dst, port) && !ToManaged(t, plan, s, dst, port, blocks)
    ensures !ToToken(plan, s, dst, port, blocks) && !ToPublic(plan, s, dst, port, blocks)
  {
  }

  lemma WithdrawnIsNowhere(t: Topo, declared: seq<string>, plan: Plan, s: Service)
    requires Prepared(t, declared, plan) && s in t.services
    requires forall d :: d in s.dependencies ==> d.service in plan.withdrawn
    ensures forall d :: d in s.dependencies ==> d.service !in plan.managed && d.service !in plan.services
  {
    forall d | d in s.dependencies ensures d.service !in plan.managed && d.service !in plan.services {
      assert ExactlyOne(d.service in plan.services, d.service in plan.managed, d.service in plan.withdrawn);
    }
  }

  /** A withdrawn dependency opens nothing: a service whose every dependency is withdrawn, and
      that asks for no public port, reaches only what every pod reaches. */
  lemma WithdrawnOpensNothing(t: Topo, declared: seq<string>, plan: Plan, ps: seq<Policy>, ns: string,
                              s: Service, src: Pod, dst: Pod, port: Port, blocks: Blocks)
    requires Prepared(t, declared, plan) && RenderedPolicies(t, plan) == Policies(ps)
    requires s in t.services && ServicePod(src, s, ns) && s.publicEgressPorts == []
    requires forall d :: d in s.dependencies ==> d.service in plan.withdrawn
    ensures EgressAllowed(ps, ns, src, dst, port, blocks) <==>
              port == Tcp(HBONE) || ToDns(dst, port) || ToControlPlane(dst, port)
  {
    EgressMeansDeclarations(t, declared, plan, ps, ns, s, src, dst, port, blocks);
    WithdrawnIsNowhere(t, declared, plan, s);
    NothingDeclared(t, plan, ns, s, dst, port, blocks);
  }
}
