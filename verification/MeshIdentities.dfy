/** Who the mesh's L4 policies name, read back from the principals as a mesh reads them
    (gitops.go): trust domain, namespace and service account. */
module MeshIdentities {
  import opened Text
  import opened Topology
  import opened EnvironmentPlan
  import opened MeshPolicies
  import opened MeshMeaning

  /** The principal of a service account, part by part. */
  predicate Names(principal: string, ns: string, account: string) {
    Split(principal, '/') == ["cluster.local", "ns", ns, "sa", account]
  }

  lemma PrincipalReads(ns: string, account: string, principal: string)
    requires '/' !in ns && '/' !in account
    ensures principal == MeshPrincipal(ns, account) <==> Names(principal, ns, account)
  {
    var parts := ["cluster.local", "ns", ns, "sa", account];
    assert '/' !in "cluster.local" && '/' !in "ns" && '/' !in "sa";
    SplitJoin(parts, '/');
    JoinSplit(principal, '/');
    JoinedParts(ns, account);
  }

  lemma JoinedParts(ns: string, account: string)
    ensures Join(["cluster.local", "ns", ns, "sa", account], '/') == MeshPrincipal(ns, account)
  {
    var parts := ["cluster.local", "ns", ns, "sa", account];
    assert parts[1..] == ["ns", ns, "sa", account] && parts[1..][1..] == [ns, "sa", account]
           && parts[1..][1..][1..] == ["sa", account] && parts[1..][1..][1..][1..] == [account];
    assert Join(["sa", account], '/') == "sa/" + account;
    assert Join([ns, "sa", account], '/') == ns + ['/'] + ("sa/" + account);
    assert Join(["ns", ns, "sa", account], '/') == "ns/" + (ns + ['/'] + ("sa/" + account));
    assert Join(parts, '/') == "cluster.local/" + ("ns/" + (ns + ['/'] + ("sa/" + account)));
  }

  /** A service runs as the account it names, and as the namespace's default when it names none. */
  predicate RunsAs(s: Service, account: string) {
    (account == s.serviceAccount && account != "") || (account == "default" && s.serviceAccount == "")
  }

  ghost predicate IsCaller(t: Topo, plan: Plan, target: Service, c: Service) {
    && c in t.services && c.name in plan.services && target.name in plan.services
    && ((exists d :: d in c.dependencies && d.service == target.name) || (c.name == target.name && c.bootstrap != []))
  }

  /** Some in-cluster service has an internal surface for the waypoint to guard. */
  ghost predicate Fronted(t: Topo, plan: Plan) {
    exists name :: name in plan.services && HasSurface(t, name)
  }

  ghost predicate HasSurface(t: Topo, name: string) {
    name in t.internalMethods || exists s :: s in t.services && s.name == name && s.internalRoutes != []
  }

  lemma FrontedMeaning(t: Topo, plan: Plan)
    ensures NeedsWaypoint(t, plan) <==> Fronted(t, plan)
  {
    if m :| m in t.internalMethods && m in plan.services { assert HasSurface(t, m); }
    if s :| s in t.services && s.name in plan.services && s.internalRoutes != [] { assert HasSurface(t, s.name); }
    if name :| name in plan.services && HasSurface(t, name) {
      assert name in t.internalMethods || exists s :: s in t.services && s.name == name && s.internalRoutes != [];
    }
  }

  predicate PlainAccounts(services: seq<Service>) { forall s :: s in services ==> '/' !in s.serviceAccount }

  lemma AccountReads(ns: string, s: Service, principal: string)
    requires '/' !in ns && '/' !in s.serviceAccount
    ensures principal == MeshPrincipal(ns, Account(s)) <==>
              exists account :: Names(principal, ns, account) && RunsAs(s, account)
  {
    assert '/' !in "default" && "default" != "";
    PrincipalReads(ns, Account(s), principal);
    if account :| Names(principal, ns, account) && RunsAs(s, account) { assert account == Account(s); }
    if Names(principal, ns, Account(s)) { assert RunsAs(s, Account(s)); }
  }

  ghost predicate NamesCaller(t: Topo, plan: Plan, ns: string, target: Service, x: string) {
    exists c, account :: IsCaller(t, plan, target, c) && RunsAs(c, account) && Names(x, ns, account)
  }

  lemma CallersRead(t: Topo, plan: Plan, ns: string, target: Service, x: string)
    requires '/' !in ns && PlainAccounts(t.services)
    ensures (exists c :: c in t.services && CallsBy(plan, ns, c, target.name, x)) <==>
              NamesCaller(t, plan, ns, target, x)
  {
    if c :| c in t.services && CallsBy(plan, ns, c, target.name, x) {
      AccountReads(ns, c, x);
      assert IsCaller(t, plan, target, c);
    }
    if c, account :| IsCaller(t, plan, target, c) && RunsAs(c, account) && Names(x, ns, account) {
      AccountReads(ns, c, x);
      assert CallsBy(plan, ns, c, target.name, x);
    }
  }

  lemma WaypointReads(ns: string, x: string)
    requires '/' !in ns
    ensures x == MeshPrincipal(ns, WAYPOINT) <==> Names(x, ns, "waypoint")
  {
    assert '/' !in "waypoint";
    PrincipalReads(ns, "waypoint", x);
  }

  /** The list of one target: the accounts its in-cluster callers run as, and the waypoint's
      where some in-cluster service has an internal surface. */
  lemma PolicyNamesCallers(t: Topo, declared: seq<string>, plan: Plan, ns: string, ps: seq<MeshPolicy>, p: MeshPolicy,
                           target: Service, x: string)
    requires ValidTopology(t, declared) && MeshRendered(ps, t, plan, ns) && '/' !in ns && PlainAccounts(t.services)
    requires p in ps && target in t.services && p.target == target.name
    ensures x in p.principals <==>
              NamesCaller(t, plan, ns, target, x) || (Fronted(t, plan) && Names(x, ns, "waypoint"))
  {
    PolicyIsExact(t, declared, plan, ns, ps, p, target);
    assert x in p.principals <==> PrincipalDeclared(t, plan, ns, target, x);
    FrontedMeaning(t, plan);
    WaypointReads(ns, x);
    CallersRead(t, plan, ns, target, x);
  }

  lemma GatewayReads(x: string)
    ensures x == GatewayPrincipal() <==> Names(x, "istio-system", "istio-ingressgateway-service-account")
  {
    NoSlashes();
    PrincipalReads("istio-system", "istio-ingressgateway-service-account", x);
  }

  lemma NoSlashes()
    ensures '/' !in "istio-system" && '/' !in "istio-ingressgateway-service-account"
  {
  }

  lemma GatewayList(t: Topo, plan: Plan, ps: seq<MeshPolicy>, p: MeshPolicy)
    requires GatewayRendered(ps, t, plan) && p in ps
    ensures p.principals == [GatewayPrincipal()]
  {
    var i :| 0 <= i < |ps| && ps[i] == p;
    assert GatewayPolicyFor(ps[i], t, plan);
  }

  /** And a routed service is open to the ingress gateway's account alone. */
  lemma PolicyNamesGateway(t: Topo, plan: Plan, ps: seq<MeshPolicy>, p: MeshPolicy, x: string)
    requires GatewayRendered(ps, t, plan) && p in ps
    ensures x in p.principals <==> Names(x, "istio-system", "istio-ingressgateway-service-account")
  {
    GatewayList(t, plan, ps, p);
    GatewayReads(x);
  }
}
