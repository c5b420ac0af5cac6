/** Small inputs that meet the hypotheses of the main theorems, carried through to what the
    theorems say about them. */
module Example {
  import opened Wrappers
  import opened Topology
  import opened ManagedServices
  import opened EnvironmentPlan
  import opened PlanProperties
  import opened NetworkPolicies
  import opened PolicyMeaning
  import opened MeshPolicies
  import opened MeshMeaning

  const API := Service("api", None, "", [Endpoint("http", 8080, 80)], [], [Dependency("db", ["tcp"])], [], [])
  const DB := Service("db", None, "", [Endpoint("tcp", 5432, 5432)], [], [], [], [])
  const TOPOLOGY := Topo([API, DB], [], [], "api", {})
  const DECLARED: seq<string> := ["api", "db"]
  const ENVIRONMENT := Environment("test", "shop", "", map[], [])

  lemma Names()
    ensures IsDnsLabel("api") && IsDnsLabel("db") && "api" != "db"
  {
    assert "api"[0] == 'a' && "db"[0] == 'd';
  }

  lemma Lookups()
    ensures FindService(TOPOLOGY.services, "api") == Some(API) && FindService(TOPOLOGY.services, "db") == Some(DB)
    ensures FindEndpoint(DB.endpoints, "tcp") == Some(Endpoint("tcp", 5432, 5432))
  {
    Names();
    assert TOPOLOGY.services[1..] == [DB];
  }

  lemma TopologyIsValid()
    ensures ValidTopology(TOPOLOGY, DECLARED)
  {
    Names();
    Lookups();
    assert ServiceOk(API, DECLARED) && ServiceOk(DB, DECLARED) && Apart(API, DB);
    assert DependencyOk(TOPOLOGY.services, API.dependencies[0]);
    assert DependenciesOk(TOPOLOGY.services, API) && DependenciesOk(TOPOLOGY.services, DB);
  }

  lemma NothingStated()
    ensures TrimSpace("") == "" && VAULT !in DECLARED
  {
    assert |VAULT| == 5;
  }

  lemma EnvironmentIsPlannable(net: Net)
    ensures Plannable(ENVIRONMENT, DECLARED, TOPOLOGY, false, net)
    ensures var plan := PlanOf(ENVIRONMENT, DECLARED, TOPOLOGY, false, net);
            "api" in plan.services && "db" in plan.services && plan.keyService == KMS
  {
    NothingStated();
    InClusterMembers(ENVIRONMENT, DECLARED, {});
    assert "api" == DECLARED[0] && "db" == DECLARED[1];
  }

  /** The declared edge is open in one direction and on one port. */
  lemma OneWay(net: Net, api: Pod, db: Pod, blocks: Blocks)
    requires ServicePod(api, API, "shop") && ServicePod(db, DB, "shop")
    ensures var policies := RenderedPolicies(TOPOLOGY, PlanOf(ENVIRONMENT, DECLARED, TOPOLOGY, false, net));
            && policies.Policies?
            && Allows(policies.ps, "shop", api, db, Tcp(5432), blocks)
            && !Allows(policies.ps, "shop", api, db, Tcp(8080), blocks)
            && !Allows(policies.ps, "shop", db, api, Tcp(8080), blocks)
  {
    TopologyIsValid();
    EnvironmentIsPlannable(net);
    Edges(PlanOf(ENVIRONMENT, DECLARED, TOPOLOGY, false, net));
    ServicePodsFollowGraph(ENVIRONMENT, DECLARED, TOPOLOGY, false, net, api, db, API, DB, Tcp(5432), "shop", blocks);
    ServicePodsFollowGraph(ENVIRONMENT, DECLARED, TOPOLOGY, false, net, api, db, API, DB, Tcp(8080), "shop", blocks);
    ServicePodsFollowGraph(ENVIRONMENT, DECLARED, TOPOLOGY, false, net, db, api, DB, API, Tcp(8080), "shop", blocks);
  }

  lemma Edges(plan: Plan)
    requires "api" in plan.services && "db" in plan.services
    ensures DeclaredEdge(plan, API, DB, Tcp(5432))
    ensures !DeclaredEdge(plan, API, DB, Tcp(8080)) && !DeclaredEdge(plan, DB, API, Tcp(8080))
  {
    var d, e := API.dependencies[0], DB.endpoints[0];
    assert d in API.dependencies && e in DB.endpoints && "tcp" in d.endpoints;
    assert Bound(DB, d.endpoints, Tcp(5432));
  }

  // ----- two callers of one store, each with its own port -----

  const WEB := Service("web", None, "web", [Endpoint("http", 8080, 80)], [], [Dependency("store", ["read"])], [], [])
  const ADMIN :=
    Service("admin", None, "admin", [Endpoint("http", 8081, 80)], [], [Dependency("store", ["write"])], [], [])
  const STORE :=
    Service("store", None, "store", [Endpoint("read", 7000, 7000), Endpoint("write", 7001, 7001)], [], [], [], [])
  const SHARED := Topo([WEB, ADMIN, STORE], [], [], "web", {})
  const THREE: seq<string> := ["web", "admin", "store"]

  lemma ThreeNames()
    ensures IsDnsLabel("web") && IsDnsLabel("admin") && IsDnsLabel("store")
    ensures "web" != "admin" && "web" != "store" && "admin" != "store" && "read" != "write"
  {
    assert "web"[0] == 'w' && "admin"[0] == 'a' && "store"[0] == 's' && "read"[0] == 'r' && "write"[0] == 'w';
  }

  lemma SharedLookups()
    ensures FindService(SHARED.services, "web") == Some(WEB) && FindService(SHARED.services, "admin") == Some(ADMIN)
    ensures FindService(SHARED.services, "store") == Some(STORE)
    ensures FindEndpoint(STORE.endpoints, "read").Some? && FindEndpoint(STORE.endpoints, "write").Some?
  {
    ThreeNames();
    assert SHARED.services[1..] == [ADMIN, STORE] && SHARED.services[1..][1..] == [STORE];
    assert STORE.endpoints[1..] == [Endpoint("write", 7001, 7001)];
  }

  lemma SharedServicesOk()
    ensures ServiceOk(WEB, THREE) && ServiceOk(ADMIN, THREE) && ServiceOk(STORE, THREE)
    ensures DistinctServices(SHARED.services)
  {
    ThreeNames();
    assert "web" == THREE[0] && "admin" == THREE[1] && "store" == THREE[2];
    assert Apart(WEB, ADMIN) && Apart(WEB, STORE) && Apart(ADMIN, STORE);
  }

  lemma SharedIsValid()
    ensures ValidTopology(SHARED, THREE)
  {
    SharedServicesOk();
    SharedLookups();
    assert DependencyOk(SHARED.services, WEB.dependencies[0]) && DependencyOk(SHARED.services, ADMIN.dependencies[0]);
    assert DependenciesOk(SHARED.services, WEB) && DependenciesOk(SHARED.services, ADMIN)
           && DependenciesOk(SHARED.services, STORE);
  }

  lemma SharedIsPlannable(net: Net)
    ensures Plannable(ENVIRONMENT, THREE, SHARED, false, net)
    ensures var plan := PlanOf(ENVIRONMENT, THREE, SHARED, false, net);
            "web" in plan.services && "admin" in plan.services && "store" in plan.services
  {
    assert TrimSpace("") == "" && VAULT !in THREE by { assert VAULT[0] == 'v'; }
    InClusterMembers(ENVIRONMENT, THREE, {});
    assert "web" == THREE[0] && "admin" == THREE[1] && "store" == THREE[2];
  }

  lemma StoreEdges(plan: Plan)
    requires "web" in plan.services && "admin" in plan.services && "store" in plan.services
    ensures DeclaredEdge(plan, ADMIN, STORE, Tcp(7001)) && !DeclaredEdge(plan, WEB, STORE, Tcp(7001))
    ensures Calls(plan, WEB, "store")
  {
    ThreeNames();
    var d, e := ADMIN.dependencies[0], STORE.endpoints[1];
    assert d in ADMIN.dependencies && e in STORE.endpoints && d.endpoints[0] == "write" && "write" in d.endpoints;
    assert Bound(STORE, d.endpoints, Tcp(7001));
    assert WEB.dependencies[0] in WEB.dependencies;
    assert !Bound(STORE, WEB.dependencies[0].endpoints, Tcp(7001));
  }

  /** The mesh admits an undeclared pair on tunnelled traffic: the web service may open the
      port that only the admin service declares. */
  lemma TunnelAdmitsUndeclared(net: Net, mesh: L4, src: Pod, dst: Pod, blocks: Blocks)
    requires L4Rendered(mesh, SHARED, PlanOf(ENVIRONMENT, THREE, SHARED, false, net), "shop")
    ensures var plan := PlanOf(ENVIRONMENT, THREE, SHARED, false, net);
            var policies := RenderedPolicies(SHARED, plan);
            && policies.Policies?
            && Tunnelled(SHARED, plan, "shop", policies.ps, mesh, src, dst, WEB, STORE, 7001, blocks)
            && !DeclaredEdge(plan, WEB, STORE, Tcp(7001))
            && !PortsAreShared(SHARED, plan)
  {
    SharedIsPlannable(net);
    SharedIsValid();
    PlansArePrepared(ENVIRONMENT, THREE, SHARED, false, net);
    UndeclaredPair(PlanOf(ENVIRONMENT, THREE, SHARED, false, net), mesh, src, dst, blocks);
  }

  lemma WebIsRecognized(plan: Plan)
    requires "web" in plan.services && "admin" in plan.services && "store" in plan.services
    ensures WEB in SHARED.services && STORE in SHARED.services && Recognized(SHARED, plan, WEB, STORE)
    ensures PortDeclared(SHARED, plan, STORE, 7001) && !DeclaredEdge(plan, WEB, STORE, Tcp(7001))
  {
    StoreEdges(plan);
    assert WEB == SHARED.services[0] && ADMIN == SHARED.services[1] && STORE == SHARED.services[2];
  }

  lemma NotShared(plan: Plan)
    requires "web" in plan.services && "admin" in plan.services && "store" in plan.services
    ensures !PortsAreShared(SHARED, plan)
  {
    WebIsRecognized(plan);
    assert !Shares(SHARED, plan, WEB, STORE, 7001);
  }

  lemma ShopIsApart()
    ensures "shop" != GATEWAY_NAMESPACE && '/' !in "shop"
  {
    assert |"shop"| == 4;
  }

  lemma RecognizedIsAdmitted(t: Topo, declared: seq<string>, plan: Plan, ns: string, mesh: L4,
                             src: Pod, dst: Pod, caller: Service, target: Service, port: nat, blocks: Blocks)
    requires Prepared(t, declared, plan) && L4Rendered(mesh, t, plan, ns) && '/' !in ns && ns != GATEWAY_NAMESPACE
    requires target in t.services && Recognized(t, plan, caller, target) && PortDeclared(t, plan, target, port)
    ensures RenderedPolicies(t, plan).Policies?
    ensures Tunnelled(t, plan, ns, RenderedPolicies(t, plan).ps, mesh, src, dst, caller, target, port, blocks)
  {
    RenderingSucceeds(t, declared, plan);
    var policies := RenderedPolicies(t, plan).ps;
    TunnelledMeansProduct(t, declared, plan, ns, policies, mesh, src, dst, caller, target, port, blocks);
  }

  lemma UndeclaredPair(plan: Plan, mesh: L4, src: Pod, dst: Pod, blocks: Blocks)
    requires Prepared(SHARED, THREE, plan) && L4Rendered(mesh, SHARED, plan, "shop")
    requires "web" in plan.services && "admin" in plan.services && "store" in plan.services
    ensures RenderedPolicies(SHARED, plan).Policies?
    ensures Tunnelled(SHARED, plan, "shop", RenderedPolicies(SHARED, plan).ps, mesh, src, dst, WEB, STORE, 7001, blocks)
    ensures !DeclaredEdge(plan, WEB, STORE, Tcp(7001)) && !PortsAreShared(SHARED, plan)
  {
    WebIsRecognized(plan);
    NotShared(plan);
    ShopIsApart();
    RecognizedIsAdmitted(SHARED, THREE, plan, "shop", mesh, src, dst, WEB, STORE, 7001, blocks);
  }
}
