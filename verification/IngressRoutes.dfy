/** The ingress host routes of topologyIstioResources (gitops.go): each host becomes an
    authority regex, and the routes are read as one dispatch over authorities. */
module IngressRoutes {
  import opened Text
  import opened RouteRegex
  import opened PathTemplates
  import opened Ordering
  import opened Topology
  import opened ManagedServices
  import opened EnvironmentPlan
  import opened PlanProperties
  import opened NetworkPolicies

  // ----- the authority regex -----

  const PORT_SUFFIX := "(:[0-9]+)?$"

  /** Escape is regexp.QuoteMeta: both escape the same fourteen characters. */
  function AuthorityRegex(host: string): string { "^" + Escape(host) + PORT_SUFFIX }

  predicate Digit(c: char) { '0' <= c <= '9' }

  /** The optional numeric port and the end, as the reader spells them. */
  const READS_PORT := "(:[0-9]+)?$"

  /** What `(:[0-9]+)?` matches. */
  predicate OptionalPort(s: string) {
    s == "" || (|s| >= 2 && s[0] == ':' && forall i :: 1 <= i < |s| ==> Digit(s[i]))
  }

  /** How a regex engine reads such a regex: a body, then the optional port, then the end. */
  predicate AuthorityMatches(r: string, s: string) {
    var n := |r| - |READS_PORT|;
    && n >= 1 && r[0] == '^' && r[n..] == READS_PORT
    && var p := ParseBody(r[1..n]);
       p.Tokens? && exists k :: 0 <= k <= |s| && Match(p.ts, s[..k]) && OptionalPort(s[k..])
  }

  /** The authority is this host, with or without a numeric port. */
  predicate Addresses(s: string, host: string) { host <= s && OptionalPort(s[|host|..]) }

  /** The regex of any host at all means that host, whatever characters it holds. */
  lemma RegexMeansHost(host: string, s: string)
    ensures AuthorityMatches(AuthorityRegex(host), s) <==> Addresses(s, host)
  {
    var r := AuthorityRegex(host);
    var n := |r| - |PORT_SUFFIX|;
    assert r[n..] == PORT_SUFFIX && r[1..n] == Escape(host);
    ParseEscaped(host, "", []);
    assert Escape(host) + "" == Escape(host) && Lits(host) + [] == Lits(host);
    if k :| 0 <= k <= |s| && Match(Lits(host), s[..k]) && OptionalPort(s[k..]) { MatchLits(host, s[..k]); }
    if Addresses(s, host) {
      var k := |host|;
      MatchLits(host, s[..k]);
      assert Match(Lits(host), s[..k]) && OptionalPort(s[k..]);
    }
  }

  /** A longer reading of an authority swallows the colon before the port. */
  lemma LongerHost(s: string, a: string, b: string)
    requires Addresses(s, a) && b <= s && |a| < |b|
    ensures ':' in b
  {
    assert b[|a|] == s[|a|] == s[|a|..][0];
  }

  /** An authority addresses at most one host, when hosts hold no colon. */
  lemma OneHost(s: string, a: string, b: string)
    requires ':' !in a && ':' !in b && Addresses(s, a) && Addresses(s, b)
    ensures a == b
  {
    if |a| < |b| {
      LongerHost(s, a, b);
    } else if |b| < |a| {
      LongerHost(s, b, a);
    } else {
      assert a == s[..|a|] && b == s[..|b|];
    }
  }

  // ----- what is rendered -----

  datatype HttpRoute = HttpRoute(name: string, authorities: seq<string>, destination: string, port: nat)

  datatype Ingress =
    | NoIngress
    | AnyHost(name: string, destination: string, port: nat)
    | ByHost(hosts: seq<string>, routes: seq<HttpRoute>)

  function ClusterHost(t: Topo, service: string, ns: string): string {
    KubeName(ServiceOr0(t, service)) + "." + ns + ".svc.cluster.local"
  }

  function Regexes(hosts: seq<string>): seq<string> {
    if hosts == [] then [] else [AuthorityRegex(hosts[0])] + Regexes(hosts[1..])
  }

  function RouteFor(t: Topo, ns: string, r: RoutePlan): HttpRoute {
    HttpRoute(r.name, Regexes(r.hosts), ClusterHost(t, r.service, ns), r.servicePort)
  }

  function RoutesFor(t: Topo, ns: string, routes: seq<RoutePlan>): seq<HttpRoute> {
    if routes == [] then [] else [RouteFor(t, ns, routes[0])] + RoutesFor(t, ns, routes[1..])
  }

  /** The hosts not met before, in the order they are met. */
  function NewHosts(met: set<string>, hosts: seq<string>): seq<string>
    decreases |hosts|
  {
    if hosts == [] then []
    else if hosts[0] in met then NewHosts(met, hosts[1..])
    else [hosts[0]] + NewHosts(met + {hosts[0]}, hosts[1..])
  }

  function GatewayHosts(met: set<string>, routes: seq<RoutePlan>): seq<string>
    decreases |routes|
  {
    if routes == [] then []
    else NewHosts(met, routes[0].hosts) + GatewayHosts(met + Elements(routes[0].hosts), routes[1..])
  }

  function IngressFor(t: Topo, plan: Plan, ns: string): Ingress {
    if plan.ingress == [] then NoIngress
    else if plan.ingress[0].hosts == [] then
      AnyHost(plan.ingress[0].name, ClusterHost(t, plan.ingress[0].service, ns), plan.ingress[0].servicePort)
    else ByHost(SortStrings(GatewayHosts({}, plan.ingress)), RoutesFor(t, ns, plan.ingress))
  }

  // ----- as it runs -----

  method CollectHosts(met: set<string>, hosts: seq<string>)
    returns (added: seq<string>, seen: set<string>, regexes: seq<string>)
    ensures added == NewHosts(met, hosts) && seen == met + Elements(hosts) && regexes == Regexes(hosts)
  {
    added, seen, regexes := [], met, [];
    assert hosts[0..] == hosts;
    for i := 0 to |hosts|
      invariant seen == met + Elements(hosts[..i])
      invariant added + NewHosts(seen, hosts[i..]) == NewHosts(met, hosts)
      invariant regexes + Regexes(hosts[i..]) == Regexes(hosts)
    {
      assert hosts[i..][0] == hosts[i] && hosts[i..][1..] == hosts[i+1..];
      assert hosts[..i+1] == hosts[..i] + [hosts[i]];
      if hosts[i] !in seen {
        seen, added := seen + {hosts[i]}, added + [hosts[i]];
      }
      regexes := regexes + [AuthorityRegex(hosts[i])];
    }
    assert hosts[..|hosts|] == hosts;
  }

  method RenderIngress(t: Topo, plan: Plan, ns: string) returns (r: Ingress)
    ensures r == IngressFor(t, plan, ns)
  {
    var routes := plan.ingress;
    if routes == [] {
      return NoIngress;
    }
    if routes[0].hosts == [] {
      return AnyHost(routes[0].name, ClusterHost(t, routes[0].service, ns), routes[0].servicePort);
    }
    var hosts, http := CollectRoutes(t, ns, routes);
    return ByHost(SortStrings(hosts), http);
  }

  method CollectRoutes(t: Topo, ns: string, routes: seq<RoutePlan>) returns (hosts: seq<string>, http: seq<HttpRoute>)
    ensures hosts == GatewayHosts({}, routes) && http == RoutesFor(t, ns, routes)
  {
    hosts, http := [], [];
    var met: set<string> := {};
    RoutesForAt(t, ns, routes);
    assert routes[0..] == routes;
    for i := 0 to |routes|
      invariant hosts + GatewayHosts(met, routes[i..]) == GatewayHosts({}, routes)
      invariant |http| == i && forall j :: 0 <= j < i ==> http[j] == RouteFor(t, ns, routes[j])
    {
      GatewayHostsStep(hosts, met, routes, i);
      var own, seen, route := CollectRoute(t, ns, met, routes[i]);
      hosts, met := hosts + own, seen;
      http := http + [route];
    }
    assert routes[|routes|..] == [] && hosts + [] == hosts;
  }

  lemma GatewayHostsStep(hosts: seq<string>, met: set<string>, routes: seq<RoutePlan>, i: nat)
    requires i < |routes|
    ensures hosts + NewHosts(met, routes[i].hosts) + GatewayHosts(met + Elements(routes[i].hosts), routes[i+1..])
         == hosts + GatewayHosts(met, routes[i..])
  {
    assert routes[i..][0] == routes[i] && routes[i..][1..] == routes[i+1..];
  }

  method CollectRoute(t: Topo, ns: string, met: set<string>, r: RoutePlan)
    returns (own: seq<string>, seen: set<string>, route: HttpRoute)
    ensures own == NewHosts(met, r.hosts) && seen == met + Elements(r.hosts) && route == RouteFor(t, ns, r)
  {
    var regexes;
    own, seen, regexes := CollectHosts(met, r.hosts);
    route := HttpRoute(r.name, regexes, ClusterHost(t, r.service, ns), r.servicePort);
  }

  // ----- what the Gateway's hosts are -----

  lemma {:induction false} NewHostsMembers(met: set<string>, hosts: seq<string>, h: string)
    ensures h in NewHosts(met, hosts) <==> h in hosts && h !in met
    decreases |hosts|
  {
    if hosts != [] {
      NewHostsMembers(met, hosts[1..], h);
      NewHostsMembers(met + {hosts[0]}, hosts[1..], h);
      assert h in hosts <==> h == hosts[0] || h in hosts[1..];
    }
  }

  ghost predicate SomeRouteHas(routes: seq<RoutePlan>,
                               h: string) { exists i :: 0 <= i < |routes| && h in routes[i].hosts }

  lemma {:induction false} GatewayHostsMembers(met: set<string>, routes: seq<RoutePlan>, h: string)
    ensures h in GatewayHosts(met, routes) <==> h !in met && SomeRouteHas(routes, h)
    decreases |routes|
  {
    if routes != [] {
      var rest := routes[1..];
      NewHostsMembers(met, routes[0].hosts, h);
      GatewayHostsMembers(met + Elements(routes[0].hosts), rest, h);
      if i :| 0 <= i < |rest| && h in rest[i].hosts { assert h in routes[i+1].hosts; }
      if i :| 1 <= i < |routes| && h in routes[i].hosts { assert h in rest[i-1].hosts; }
    }
  }

  lemma {:induction false} RegexesAt(hosts: seq<string>)
    ensures |Regexes(hosts)| == |hosts|
    ensures forall i :: 0 <= i < |hosts| ==> Regexes(hosts)[i] == AuthorityRegex(hosts[i])
  {
    if hosts != [] { RegexesAt(hosts[1..]); }
  }

  lemma {:induction false} RoutesForAt(t: Topo, ns: string, routes: seq<RoutePlan>)
    ensures |RoutesFor(t, ns, routes)| == |routes|
    ensures forall i :: 0 <= i < |routes| ==> RoutesFor(t, ns, routes)[i] == RouteFor(t, ns, routes[i])
  {
    if routes != [] { RoutesForAt(t, ns, routes[1..]); }
  }

  // ----- what a validated route list guarantees -----

  lemma {:induction false} TrimRightKeeps(s: string)
    ensures TrimRight(s) <= s && (TrimRight(s) == "" || !IsSpace(TrimRight(s)[|TrimRight(s)|-1]))
  {
    if s != "" && IsSpace(s[|s|-1]) { TrimRightKeeps(s[..|s|-1]); }
  }

  lemma {:induction false} TrimLeftStarts(s: string)
    ensures TrimLeft(s) == "" || !IsSpace(TrimLeft(s)[0])
  {
    if s != "" && IsSpace(s[0]) { TrimLeftStarts(s[1..]); }
  }

  lemma TrimTwice(s: string)
    ensures TrimSpace(TrimSpace(s)) == TrimSpace(s)
  {
    TrimLeftStarts(s);
    TrimRightKeeps(TrimLeft(s));
  }

  /** A host that passed validation holds no colon. */
  lemma HostHasNoColon(net: Net, h: string)
    requires ValidExternalName(net, TrimSpace(h))
    ensures ':' !in TrimSpace(h)
  {
    TrimTwice(h);
    var host := TrimSpace(h);
    var name := TrimDot(host);
    forall i | 0 <= i < |Split(name, '.')| ensures ':' !in Split(name, '.')[i] {
      assert IsDnsLabel(Split(name, '.')[i]);
    }
    JoinAvoids(Split(name, '.'), '.', ':');
    JoinSplit(name, '.');
    assert host == name || host == name + ".";
  }

  lemma {:induction false} FreshApart(met: set<string>, hosts: seq<string>)
    requires HostsFresh(met, hosts)
    ensures forall h :: h in hosts ==> h !in met
    decreases |hosts|
  {
    if hosts != [] {
      FreshApart(met + {hosts[0]}, hosts[1..]);
      assert forall h :: h in hosts <==> h == hosts[0] || h in hosts[1..];
    }
  }

  /** Routes as the plan holds them: hosts present, colon-free and never shared. */
  ghost predicate Disjoint(routes: seq<RoutePlan>, met: set<string>) {
    && (forall i, h :: 0 <= i < |routes| && h in routes[i].hosts ==> h !in met && ':' !in h)
    && (forall i :: 0 <= i < |routes| ==> routes[i].hosts != [])
    && (forall i, j, h :: 0 <= i < j < |routes| && h in routes[i].hosts ==> h !in routes[j].hosts)
  }

  lemma RouteHostsOk(r: IngressRoute, names: set<string>, met: set<string>, services: seq<string>, t: Topo, net: Net)
    requires RouteTaken(r, names, met, services, t, net)
    ensures PlanRoute(r, t).hosts == TrimAll(r.hosts) != []
    ensures forall h :: h in TrimAll(r.hosts) ==> h !in met && ':' !in h
  {
    TrimAllAt(r.hosts);
    FreshApart(met, TrimAll(r.hosts));
    forall i | 0 <= i < |r.hosts| ensures ':' !in TrimAll(r.hosts)[i] { HostHasNoColon(net, r.hosts[i]); }
  }

  lemma {:induction false} RoutesAreDisjoint(routes: seq<IngressRoute>, names: set<string>, met: set<string>,
                                             services: seq<string>, t: Topo, net: Net)
    requires RoutesOk(routes, names, met, services, t, net)
    ensures Disjoint(PlanRoutes(routes, t), met)
    decreases |routes|
  {
    if routes != [] {
      var r, rest := routes[0], PlanRoutes(routes[1..], t);
      RouteHostsOk(r, names, met, services, t, net);
      RoutesAreDisjoint(routes[1..], names + {r.name}, met + HostSet(r), services, t, net);
      DisjointCons(PlanRoute(r, t), rest, met, HostSet(r));
    }
  }

  lemma DisjointCons(r: RoutePlan, rest: seq<RoutePlan>, met: set<string>, own: set<string>)
    requires Disjoint(rest, met + own) && r.hosts != [] && own == Elements(r.hosts)
    requires forall h :: h in r.hosts ==> h !in met && ':' !in h
    ensures Disjoint([r] + rest, met)
  {
    var all := [r] + rest;
    assert forall i :: 1 <= i < |all| ==> all[i] == rest[i-1];
  }

  // ----- the main results -----

  predicate RouteTakes(r: HttpRoute, authority: string) {
    exists i :: 0 <= i < |r.authorities| && AuthorityMatches(r.authorities[i], authority)
  }

  lemma RouteTakesMeaning(t: Topo, ns: string, r: RoutePlan, authority: string)
    ensures RouteTakes(RouteFor(t, ns, r), authority) <==> exists h :: h in r.hosts && Addresses(authority, h)
  {
    RegexesAt(r.hosts);
    var route := RouteFor(t, ns, r);
    if i :| 0 <= i < |route.authorities| && AuthorityMatches(route.authorities[i], authority) {
      RegexMeansHost(r.hosts[i], authority);
      assert r.hosts[i] in r.hosts;
    }
    if h :| h in r.hosts && Addresses(authority, h) {
      var i :| 0 <= i < |r.hosts| && r.hosts[i] == h;
      RegexMeansHost(h, authority);
      assert AuthorityMatches(route.authorities[i], authority);
    }
  }

  /** Every planned environment with routes is rendered by host: the wildcard is never used. */
  lemma NeverAnyHost(env: Environment, services: seq<string>, t: Topo, capable: bool, net: Net, ns: string)
    requires Plannable(env, services, t, capable, net)
    ensures var plan := PlanOf(env, services, t, capable, net);
            && Disjoint(plan.ingress, {})
            && (if env.ingress == [] then IngressFor(t, plan, ns) == NoIngress else IngressFor(t, plan, ns).ByHost?)
  {
    RoutesAreDisjoint(env.ingress, {}, {}, PlanOf(env, services, t, capable, net).services, t, net);
  }

  /** At most one route takes an authority. */
  lemma AtMostOneRoute(t: Topo, plan: Plan, ns: string, i: nat, j: nat, authority: string)
    requires Disjoint(plan.ingress, {}) && IngressFor(t, plan, ns).ByHost?
    requires i < |IngressFor(t, plan, ns).routes| && j < |IngressFor(t, plan, ns).routes|
    requires RouteTakes(IngressFor(t, plan, ns).routes[i], authority)
    requires RouteTakes(IngressFor(t, plan, ns).routes[j], authority)
    ensures i == j
  {
    var routes := plan.ingress;
    RoutesForAt(t, ns, routes);
    RouteTakesMeaning(t, ns, routes[i], authority);
    RouteTakesMeaning(t, ns, routes[j], authority);
    var a :| a in routes[i].hosts && Addresses(authority, a);
    var b :| b in routes[j].hosts && Addresses(authority, b);
    OneHost(authority, a, b);
  }

  /** Some route takes an authority exactly when it is one of the Gateway's hosts, with an
      optional numeric port. */
  lemma RoutedIffGatewayHost(t: Topo, plan: Plan, ns: string, authority: string)
    requires IngressFor(t, plan, ns).ByHost?
    ensures var r := IngressFor(t, plan, ns);
            (exists i :: 0 <= i < |r.routes| && RouteTakes(r.routes[i], authority)) <==>
              exists h :: h in r.hosts && Addresses(authority, h)
  {
    var r, routes := IngressFor(t, plan, ns), plan.ingress;
    RoutesForAt(t, ns, routes);
    forall h ensures h in r.hosts <==> SomeRouteHas(routes, h) {
      GatewayHostsMembers({}, routes, h);
      SortedMembers(GatewayHosts({}, routes));
    }
    if i :| 0 <= i < |r.routes| && RouteTakes(r.routes[i], authority) {
      RouteTakesMeaning(t, ns, routes[i], authority);
      var h :| h in routes[i].hosts && Addresses(authority, h);
      assert SomeRouteHas(routes, h);
    }
    if h :| h in r.hosts && Addresses(authority, h) {
      var i :| 0 <= i < |routes| && h in routes[i].hosts;
      RouteTakesMeaning(t, ns, routes[i], authority);
      assert RouteTakes(r.routes[i], authority);
    }
  }

  /** The route that takes an authority leads to the service whose plan names that host. */
  lemma RouteLeadsToItsService(t: Topo, plan: Plan, ns: string, i: nat, host: string, authority: string)
    requires Disjoint(plan.ingress, {}) && IngressFor(t, plan, ns).ByHost?
    requires i < |plan.ingress| && host in plan.ingress[i].hosts && Addresses(authority, host)
    ensures |IngressFor(t, plan, ns).routes| == |plan.ingress|
    ensures forall j :: 0 <= j < |plan.ingress| ==>
              (RouteTakes(IngressFor(t, plan, ns).routes[j], authority) <==> j == i)
    ensures IngressFor(t, plan, ns).routes[i].destination == ClusterHost(t, plan.ingress[i].service, ns)
  {
    var routes := IngressFor(t, plan, ns).routes;
    RoutesForAt(t, ns, plan.ingress);
    RouteTakesMeaning(t, ns, plan.ingress[i], authority);
    assert RouteTakes(routes[i], authority);
    forall j | 0 <= j < |plan.ingress| && RouteTakes(routes[j], authority) ensures j == i {
      AtMostOneRoute(t, plan, ns, i, j, authority);
    }
  }
}
