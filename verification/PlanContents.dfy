/** What a plan says, field by field, in terms of the environment and the topology it was made
    from (gitops.go), and where its ingress routes then lead. */
module PlanContents {
  import opened Wrappers
  import opened Ordering
  import opened Topology
  import opened ManagedServices
  import opened Handoffs
  import opened EnvironmentPlan
  import opened PlanProperties
  import opened IngressRoutes

  // ----- trimmed text -----

  predicate Spaces(s: string) { forall i :: 0 <= i < |s| ==> IsSpace(s[i]) }

  lemma SpaceSpelled(c: char)
    ensures IsSpace(c) <==> c as int in {9, 10, 11, 12, 13, 32}
  {
  }

  lemma {:induction false} TrimLeftMeaning(s: string) returns (a: string)
    ensures s == a + TrimLeft(s) && Spaces(a)
  {
    if s != "" && IsSpace(s[0]) {
      a := TrimLeftMeaning(s[1..]);
      a := [s[0]] + a;
      assert s == [s[0]] + s[1..];
    } else {
      a := "";
    }
  }

  lemma {:induction false} TrimRightMeaning(s: string) returns (b: string)
    ensures s == TrimRight(s) + b && Spaces(b)
  {
    if s != "" && IsSpace(s[|s|-1]) {
      b := TrimRightMeaning(s[..|s|-1]);
      b := b + [s[|s|-1]];
      assert s == s[..|s|-1] + [s[|s|-1]];
    } else {
      b := "";
    }
  }

  /** Trimming takes the white space off both ends and nothing else. */
  lemma TrimMeaning(s: string) returns (a: string, b: string)
    ensures s == a + TrimSpace(s) + b && Spaces(a) && Spaces(b)
    ensures TrimSpace(s) == "" || (!IsSpace(TrimSpace(s)[0]) && !IsSpace(TrimSpace(s)[|TrimSpace(s)|-1]))
  {
    a := TrimLeftMeaning(s);
    b := TrimRightMeaning(TrimLeft(s));
    TrimLeftStarts(s);
    TrimRightKeeps(TrimLeft(s));
  }

  // ----- the key service -----

  /** Unstated, the inventory answers; stated, only the two known backends are, and the vault
      only when there is one. Selecting the other withdraws it. */
  lemma KeyServiceMeaning(stated: string, services: seq<string>)
    ensures var choice, said := ResolveKeyService(stated, services), TrimSpace(stated);
            && (choice == Unsupported <==> said !in {"", "vault", "kms"} || (said == "vault" && "vault" !in services))
            && (choice == Chosen("vault", {}) <==> said in {"", "vault"} && "vault" in services)
            && (choice == Chosen("kms", {"vault"}) <==> said == "kms" && "vault" in services)
            && (choice == Chosen("kms", {}) <==> said in {"", "kms"} && "vault" !in services)
  {
    assert |"vault"| == 5 && |"kms"| == 3;
  }

  // ----- managed services -----

  /** How a declaration is authenticated: the rule of each kind. */
  lemma ManagedAuthRules(c: ManagedConfig, net: Net)
    ensures var mode, instance := TrimSpace(c.authMode), TrimSpace(c.instance);
            ManagedAuth(c, net).Yes? <==>
              && mode in {"", "password", "external-identity"}
              && (c.kind == "cell-vault" ==> mode == "external-identity")
              && (if c.kind == "cloud-sql-postgres" then mode != "" && net.isInstance(instance) else instance == "")
              && (mode == "external-identity" ==> c.secretRefs == [])
    ensures ManagedAuth(c, net).Yes? ==>
              ManagedAuth(c, net).value ==
                (if TrimSpace(c.authMode) == "external-identity" then "external-identity" else "password",
                 TrimSpace(c.instance))
  {
    assert |"password"| == 8 && |"external-identity"| == 17 && |"cell-vault"| == 10 && |"cloud-sql-postgres"| == 18;
  }

  /** How it is reached: a cell-vault by namespace alone, every other kind without one. */
  lemma ManagedEgressRules(c: ManagedConfig)
    ensures var namespace := TrimSpace(c.egressNamespace);
            ManagedEgress(c).Yes? <==>
              if c.kind == "cell-vault" then IsDnsLabel(namespace) && c.egressCidrs == [] else namespace == ""
    ensures ManagedEgress(c).Yes? ==> ManagedEgress(c).value == TrimSpace(c.egressNamespace)
  {
  }

  /** What a plan stores of a declaration: the three trimmed or defaulted fields, and the rest
      as it was written. */
  lemma StoredDeclaration(env: Environment, services: seq<string>, t: Topo, capable: bool, net: Net, s: string)
    requires Plannable(env, services, t, capable, net) && s in env.managed
    ensures var was, c := env.managed[s], NormalizeAll(env.managed, net)[s];
            && c.kind == was.kind && c.externalName == was.externalName
            && c.egressCidrs == was.egressCidrs && c.secretRefs == was.secretRefs
            && c.instance == TrimSpace(was.instance) && c.egressNamespace == TrimSpace(was.egressNamespace)
            && c.authMode ==
                 if TrimSpace(was.authMode) == "external-identity" then "external-identity" else "password"
  {
    var withdrawn := ResolveKeyService(env.keyService, services).withdrawn;
    assert ManagedOk(s, env.managed[s], services, withdrawn, net);
    ManagedAuthRules(env.managed[s], net);
    ManagedEgressRules(env.managed[s]);
  }

  lemma {:induction false} SecretNamesAt(refs: seq<SecretRef>)
    ensures |SecretNames(refs)| == |refs|
    ensures forall i :: 0 <= i < |refs| ==> SecretNames(refs)[i] == refs[i].name
  {
    if refs != [] { SecretNamesAt(refs[1..]); }
  }

  /** A handoff, field by field, for the service it is on. */
  lemma HandoffFields(managed: map<string, ManagedConfig>, i: nat)
    requires i < |HandoffList(managed)|
    ensures var h := HandoffList(managed)[i];
            && h.service in managed
            && var c := managed[h.service];
               && h.kind == c.kind && h.externalName == c.externalName && h.egressNamespace == c.egressNamespace
               && h.instance == c.instance && h.authMode == (if c.authMode == "password" then "" else c.authMode)
               && |h.secretNames| == |c.secretRefs|
               && (forall k :: 0 <= k < |c.secretRefs| ==> h.secretNames[k] == c.secretRefs[k].name)
  {
    HandoffPerService(managed);
    SecretNamesAt(managed[HandoffList(managed)[i].service].secretRefs);
  }

  /** The services run in the cluster are listed in ascending order. */
  lemma InClusterInOrder(env: Environment, services: seq<string>, t: Topo, capable: bool, net: Net)
    requires Plannable(env, services, t, capable, net)
    ensures Sorted(PlanOf(env, services, t, capable, net).services, Less)
  {
    SortStringsSorts(Kept(services, env.managed, ResolveKeyService(env.keyService, services).withdrawn));
  }

  // ----- ingress routes -----

  /** The name under which a service answers in the cluster. */
  function ServiceHost(s: Service): string {
    match s.kubernetes case None => s.name case Some(identity) => identity.serviceName
  }

  lemma {:induction false} PlanRoutesAt(routes: seq<IngressRoute>, t: Topo)
    ensures |PlanRoutes(routes, t)| == |routes|
    ensures forall i :: 0 <= i < |routes| ==> PlanRoutes(routes, t)[i] == PlanRoute(routes[i], t)
  {
    if routes != [] { PlanRoutesAt(routes[1..], t); }
  }

  lemma {:induction false} RouteWasOk(routes: seq<IngressRoute>, i: nat, names: set<string>, hosts: set<string>,
                                      services: seq<string>, t: Topo, net: Net)
    requires RoutesOk(routes, names, hosts, services, t, net) && i < |routes|
    ensures RouteOk(routes[i], services, t, net)
    decreases |routes|
  {
    if i > 0 {
      RouteWasOk(routes[1..], i - 1, names + {routes[0].name}, hosts + HostSet(routes[0]), services, t, net);
    }
  }

  /** Each planned route is a declared one on an endpoint of its in-cluster service that the
      module exposes publicly: its two ports are that endpoint's, and its hosts the declared
      ones trimmed. */
  lemma PlannedRoute(env: Environment, services: seq<string>, t: Topo, capable: bool, net: Net, i: nat)
    returns (s: Service, e: Endpoint)
    requires Plannable(env, services, t, capable, net) && i < |env.ingress|
    ensures var plan, route := PlanOf(env, services, t, capable, net), env.ingress[i];
            && |plan.ingress| == |env.ingress|
            && s in t.services && s.name == route.service && e in s.endpoints && e.name == route.endpoint
            && s.name in plan.services && Exposed(s.name, e.name, "public") in t.exposed
            && plan.ingress[i].name == route.name && plan.ingress[i].service == s.name
            && plan.ingress[i].endpoint == e.name
            && plan.ingress[i].port == e.port && plan.ingress[i].servicePort == e.servicePort
            && |plan.ingress[i].hosts| == |route.hosts| > 0
            && forall j :: 0 <= j < |route.hosts| ==> plan.ingress[i].hosts[j] == TrimSpace(route.hosts[j])
  {
    var plan, route := PlanOf(env, services, t, capable, net), env.ingress[i];
    RouteWasOk(env.ingress, i, {}, {}, plan.services, t, net);
    PlanRoutesAt(env.ingress, t);
    TrimAllAt(route.hosts);
    s := FindService(t.services, route.service).value;
    e := FindEndpoint(s.endpoints, route.endpoint).value;
    var k :| 0 <= k < |t.exposed| && t.exposed[k] == Exposed(route.service, route.endpoint, "public");
  }

  /** And it is rendered to lead there: the service's own host in the namespace, its service
      port, and one authority per declared host. */
  lemma RouteForwardsTo(env: Environment, services: seq<string>, t: Topo, capable: bool, net: Net, ns: string, i: nat)
    returns (s: Service, e: Endpoint)
    requires ValidTopology(t, services) && Plannable(env, services, t, capable, net) && i < |env.ingress|
    ensures var ingress, route := IngressFor(t, PlanOf(env, services, t, capable, net), ns), env.ingress[i];
            && s in t.services && s.name == route.service && e in s.endpoints && e.name == route.endpoint
            && ingress.ByHost? && |ingress.routes| == |env.ingress|
            && var r := ingress.routes[i];
               && r.name == route.name && r.port == e.servicePort
               && r.destination == ServiceHost(s) + "." + ns + ".svc.cluster.local"
               && |r.authorities| == |route.hosts|
               && forall j, x :: 0 <= j < |route.hosts| ==>
                    (AuthorityMatches(r.authorities[j], x) <==> Addresses(x, TrimSpace(route.hosts[j])))
  {
    var plan := PlanOf(env, services, t, capable, net);
    NeverAnyHost(env, services, t, capable, net, ns);
    s, e := PlannedRoute(env, services, t, capable, net, i);
    RoutesForAt(t, ns, plan.ingress);
    FindUnique(t.services, s);
    RenderedAuthorities(plan.ingress[i].hosts);
  }

  lemma RenderedAuthorities(hosts: seq<string>)
    ensures |Regexes(hosts)| == |hosts|
    ensures forall j, x :: 0 <= j < |hosts| ==> (AuthorityMatches(Regexes(hosts)[j], x) <==> Addresses(x, hosts[j]))
  {
    RegexesAt(hosts);
    forall j, x | 0 <= j < |hosts| ensures AuthorityMatches(Regexes(hosts)[j], x) <==> Addresses(x, hosts[j]) {
      RegexMeansHost(hosts[j], x);
    }
  }

  /** The Gateway lists each host once, in order. */
  lemma GatewayHostsInOrder(t: Topo, plan: Plan, ns: string)
    requires IngressFor(t, plan, ns).ByHost?
    ensures Sorted(IngressFor(t, plan, ns).hosts, Less)
  {
    SortStringsSorts(GatewayHosts({}, plan.ingress));
  }

  /** A first route without hosts becomes the one route of every host, to the same place. */
  lemma WildcardForwardsTo(t: Topo, declared: seq<string>, plan: Plan, ns: string, s: Service)
    requires ValidTopology(t, declared) && s in t.services
    requires plan.ingress != [] && plan.ingress[0].hosts == [] && plan.ingress[0].service == s.name
    ensures var r := plan.ingress[0];
            IngressFor(t, plan, ns) == AnyHost(r.name, ServiceHost(s) + "." + ns + ".svc.cluster.local", r.servicePort)
  {
    FindUnique(t.services, s);
  }

  // ----- the composition's manifests -----

  /** A dependency node is kept when it is of another module, has no name, or names a declared
      service; a module name that is empty or this module's own is no other module. */
  lemma DependencyKept(declared: set<string>, self: string, d: DependencyNode)
    ensures KeepDependency(declared, self)(d) <==>
              || d.name == None || d.name.value in declared
              || exists m :: m !in {"", self} && d.moduleName == Some(m)
  {
    if d.moduleName.Some? { assert d.moduleName == Some(d.moduleName.value); }
  }

  /** Without a single environment the declared inventory answers. */
  lemma {:induction false} InventoryDecides(envs: seq<Option<Environment>>, services: seq<string>)
    requires forall i :: 0 <= i < |envs| ==> envs[i] == None
    ensures SelectsVault(envs, services, false) == Selects("vault" in services)
  {
    if envs != [] { InventoryDecides(envs[1..], services); }
  }

  predicate Bad(env: Option<Environment>, services: seq<string>) {
    env.Some? && TrimSpace(env.value.keyService) !in {"", "kms"}
    && !(TrimSpace(env.value.keyService) == "vault" && "vault" in services)
  }

  predicate Asks(env: Option<Environment>, services: seq<string>) {
    env.Some? && TrimSpace(env.value.keyService) in {"", "vault"} && "vault" in services
  }

  /** A bad environment, with none before it that asks for the vault. */
  ghost predicate BadFirst(envs: seq<Option<Environment>>, services: seq<string>) {
    exists i :: 0 <= i < |envs| && Bad(envs[i], services) && forall j :: 0 <= j < i ==> !Asks(envs[j], services)
  }

  lemma BadFirstNext(envs: seq<Option<Environment>>, services: seq<string>)
    requires envs != []
    ensures BadFirst(envs, services) <==>
              Bad(envs[0], services) || (!Asks(envs[0], services) && BadFirst(envs[1..], services))
  {
    var rest := envs[1..];
    if i :| 0 < i < |envs| && Bad(envs[i], services) && forall j :: 0 <= j < i ==> !Asks(envs[j], services) {
      assert rest[i-1] == envs[i] && forall j :: 0 <= j < i - 1 ==> rest[j] == envs[j+1];
    }
    if i :| 0 <= i < |rest| && Bad(rest[i], services) && forall j :: 0 <= j < i ==> !Asks(rest[j], services) {
      assert envs[i+1] == rest[i] && forall j :: 0 < j < i + 1 ==> envs[j] == rest[j-1];
    }
  }

  /** The first environment that asks for the vault, or that states what cannot be had, decides:
      a bad one after it is never looked at. */
  lemma {:induction false} FirstDecides(envs: seq<Option<Environment>>, services: seq<string>, asked: bool)
    ensures SelectsVault(envs, services, asked) == Invalid <==> BadFirst(envs, services)
    decreases |envs|
  {
    if envs != [] {
      FirstDecides(envs[1..], services, envs[0].Some? || asked);
      if envs[0].Some? { KeyServiceMeaning(envs[0].value.keyService, services); }
      BadFirstNext(envs, services);
    }
  }
}
