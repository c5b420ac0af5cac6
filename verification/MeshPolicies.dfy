/** The L4 AuthorizationPolicies of the mesh (gitops.go): which workload identities may
    open which ports of a dependency target. */
module MeshPolicies {
  import opened Ordering
  import opened Topology
  import opened EnvironmentPlan
  import opened PlanProperties
  import opened NetworkPolicies
  import opened PolicyMeaning

  // ----- the output language -----

  datatype MeshPolicy = MeshPolicy(target: string, app: string, principals: seq<string>, ports: set<nat>)

  /** An empty list is an absent field, and an absent field matches everything. */
  predicate MeshAdmits(p: MeshPolicy, principal: string, app: string, port: nat) {
    && p.app == app
    && (p.principals == [] || principal in p.principals)
    && (p.ports == {} || port in p.ports)
  }

  /** The namespace's default-deny leaves the union of the allow policies that select a
      workload; each is judged by the identity the destination sees. */
  predicate MeshAllows(ps: seq<MeshPolicy>, principal: string, app: string, port: nat) {
    exists p :: p in ps && MeshAdmits(p, principal, app, port)
  }

  // ----- identities -----

  const WAYPOINT := "waypoint"

  function Account(s: Service): string { if s.serviceAccount == "" then "default" else s.serviceAccount }

  function MeshPrincipal(ns: string, account: string): string { "cluster.local/ns/" + ns + "/sa/" + account }

  /** Within one namespace an identity is its service account. */
  lemma PrincipalInjective(ns: string, a: string, b: string)
    requires MeshPrincipal(ns, a) == MeshPrincipal(ns, b)
    ensures a == b
  {
    var p := "cluster.local/ns/" + ns + "/sa/";
    assert (p + a)[|p|..] == a && (p + b)[|p|..] == b;
  }

  // ----- sorted, duplicate-free lists -----

  predicate Strict(s: seq<string>) { forall i, j :: 0 <= i < j < |s| ==> Less(s[i], s[j]) }

  predicate NoDuplicates(s: seq<string>) { forall i, j :: 0 <= i < j < |s| ==> s[i] != s[j] }

  lemma {:induction false} CountOnce(s: seq<string>, x: string)
    requires NoDuplicates(s)
    ensures multiset(s)[x] <= 1
  {
    if s != [] {
      assert s == [s[0]] + s[1..];
      CountOnce(s[1..], x);
      if x == s[0] { assert x !in multiset(s[1..]); }
    }
  }

  lemma RepeatIsCounted(s: seq<string>)
    ensures NoDuplicates(s) || exists x :: multiset(s)[x] > 1
  {
    if i, j :| 0 <= i < j < |s| && s[i] == s[j] {
      TwoPlaces(s, i, j);
    }
  }

  lemma ElementsSnoc(s: seq<string>, x: string)
    ensures Elements(s + [x]) == Elements(s) + {x}
  {
    assert forall y :: y in s + [x] <==> y in s || y == x;
  }

  lemma SortsStrictly(s: seq<string>)
    requires NoDuplicates(s)
    ensures Strict(SortStrings(s)) && Elements(SortStrings(s)) == Elements(s)
  {
    var r := SortStrings(s);
    SortStringsSorts(s);
    forall x ensures multiset(r)[x] <= 1 { CountOnce(s, x); }
    RepeatIsCounted(r);
    forall i, j | 0 <= i < j < |r| ensures Less(r[i], r[j]) { LessTotal(r[i], r[j]); }
    SortedMembers(s);
  }

  /** The keys of a Go map, collected in whatever order they come, then sorted. */
  method SortedKeys(keys: set<string>) returns (r: seq<string>)
    ensures Strict(r) && Elements(r) == keys
  {
    r := [];
    var left := keys;
    while left != {}
      invariant left <= keys && Elements(r) == keys - left && NoDuplicates(r)
      decreases left
    {
      var k :| k in left;
      assert k !in Elements(r);
      ElementsSnoc(r, k);
      left, r := left - {k}, r + [k];
    }
    SortsStrictly(r);
    r := SortStrings(r);
  }

  /** slices.Compact: each run of equal neighbours becomes one. */
  method Compact(s: seq<string>) returns (r: seq<string>)
    requires Sorted(s, Less)
    ensures Strict(r) && Elements(r) == Elements(s)
  {
    r := [];
    for i := 0 to |s|
      invariant Strict(r) && Elements(r) == Elements(s[..i])
      invariant if i == 0 then r == [] else r != [] && r[|r|-1] == s[i-1]
    {
      assert s[..i+1] == s[..i] + [s[i]];
      ElementsSnoc(s[..i], s[i]);
      if i == 0 || s[i] != s[i-1] {
        if i > 0 {
          LessTotal(s[i-1], s[i]);
          AppendStrict(r, s[i]);
        }
        ElementsSnoc(r, s[i]);
        r := r + [s[i]];
      } else {
        assert s[i] in r;
      }
    }
    assert s[..|s|] == s;
  }

  method SortCompact(s: seq<string>) returns (r: seq<string>)
    ensures Strict(r) && Elements(r) == Elements(s)
  {
    SortStringsSorts(s);
    SortedMembers(s);
    r := Compact(SortStrings(s));
  }

  lemma AppendStrict(r: seq<string>, x: string)
    requires Strict(r) && r != [] && Less(r[|r|-1], x)
    ensures Strict(r + [x])
  {
    forall i | 0 <= i < |r| ensures Less(r[i], x) {
      if i < |r| - 1 { LessTransitive(r[i], r[|r|-1], x); }
    }
  }

  /** portAllowPrincipals. */
  method PortAllowPrincipals(callers: seq<string>, waypoint: string) returns (r: seq<string>)
    requires Strict(callers)
    ensures Strict(r) && Elements(r) == Elements(callers) + (if waypoint == "" then {} else {waypoint})
  {
    if waypoint == "" {
      return callers;
    }
    ElementsSnoc(callers, waypoint);
    r := SortCompact(callers + [waypoint]);
  }

  // ----- tables of sets, as the collectors fill them -----

  type Adds<T> = seq<(string, T)>
  type Table<T> = map<string, set<T>>

  function Put<T>(m: Table<T>, k: string, v: T): Table<T> {
    m[k := (if k in m then m[k] else {}) + {v}]
  }

  function Filled<T>(adds: Adds<T>): Table<T> {
    if adds == [] then map[] else Put(Filled(adds[..|adds|-1]), adds[|adds|-1].0, adds[|adds|-1].1)
  }

  lemma FilledSnoc<T>(adds: Adds<T>, a: (string, T))
    ensures Filled(adds + [a]) == Put(Filled(adds), a.0, a.1)
  {
    assert (adds + [a])[..|adds|] == adds;
  }

  lemma {:induction false} FilledMeaning<T>(adds: Adds<T>)
    ensures forall k :: k in Filled(adds) ==> Filled(adds)[k] != {}
    ensures forall k, v :: (k in Filled(adds) && v in Filled(adds)[k]) <==> (k, v) in adds
  {
    if adds != [] {
      var rest, a := adds[..|adds|-1], adds[|adds|-1];
      FilledMeaning(rest);
      assert adds == rest + [a];
      forall k | k in Filled(adds) ensures Filled(adds)[k] != {} {
        if k == a.0 { assert a.1 in Filled(adds)[k]; }
      }
    }
  }

  // ----- topologyTargetCallerPrincipals -----

  function DependencyCallers(plan: Plan, principal: string, ds: seq<Dependency>): Adds<string> {
    if ds == [] then []
    else if ds[0].service in plan.services then
      [(ds[0].service, principal)] + DependencyCallers(plan, principal, ds[1..])
    else DependencyCallers(plan, principal, ds[1..])
  }

  function CallersAmong(plan: Plan, ns: string, services: seq<Service>): Adds<string> {
    if services == [] then []
    else
      var s, rest := services[0], CallersAmong(plan, ns, services[1..]);
      if s.name in plan.services
      then DependencyCallers(plan, MeshPrincipal(ns, Account(s)), s.dependencies) + rest
      else rest
  }

  function BootstrapCallers(plan: Plan, ns: string, services: seq<Service>): Adds<string> {
    if services == [] then []
    else
      var s, rest := services[0], BootstrapCallers(plan, ns, services[1..]);
      if s.name in plan.services && s.bootstrap != [] then [(s.name, MeshPrincipal(ns, Account(s)))] + rest else rest
  }

  function CallerAdds(t: Topo, plan: Plan, ns: string): Adds<string> {
    CallersAmong(plan, ns, t.services) + BootstrapCallers(plan, ns, t.services)
  }

  method CollectCallers(t: Topo, plan: Plan, ns: string) returns (m: Table<string>)
    ensures m == Filled(CallerAdds(t, plan, ns))
  {
    m := CollectDeclaredCallers(plan, ns, t.services);
    m := AddBootstrapCallers(m, CallersAmong(plan, ns, t.services), plan, ns, t.services);
  }

  method CollectDeclaredCallers(plan: Plan, ns: string, services: seq<Service>) returns (m: Table<string>)
    ensures m == Filled(CallersAmong(plan, ns, services))
  {
    m := map[];
    ghost var done: Adds<string> := [];
    ghost var all := CallersAmong(plan, ns, services);
    assert services[0..] == services;
    for i := 0 to |services|
      invariant m == Filled(done) && done + CallersAmong(plan, ns, services[i..]) == all
    {
      assert services[i..][1..] == services[i+1..];
      if services[i].name in plan.services {
        var principal := MeshPrincipal(ns, Account(services[i]));
        m := AddDependencyCallers(m, done, plan, principal, services[i].dependencies);
        done := done + DependencyCallers(plan, principal, services[i].dependencies);
      }
    }
    assert done == all;
  }

  method AddBootstrapCallers(m0: Table<string>, ghost own: Adds<string>, plan: Plan, ns: string, services: seq<Service>)
    returns (m: Table<string>)
    requires m0 == Filled(own)
    ensures m == Filled(own + BootstrapCallers(plan, ns, services))
  {
    m := m0;
    ghost var done, all := own, own + BootstrapCallers(plan, ns, services);
    assert services[0..] == services;
    for i := 0 to |services|
      invariant m == Filled(done) && done + BootstrapCallers(plan, ns, services[i..]) == all
    {
      assert services[i..][1..] == services[i+1..];
      if services[i].name in plan.services && services[i].bootstrap != [] {
        var principal := MeshPrincipal(ns, Account(services[i]));
        FilledSnoc(done, (services[i].name, principal));
        m := Put(m, services[i].name, principal);
        done := done + [(services[i].name, principal)];
      }
    }
    assert done == all;
  }

  method AddDependencyCallers(m: Table<string>, ghost done: Adds<string>, plan: Plan, principal: string,
                              ds: seq<Dependency>)
    returns (r: Table<string>)
    requires m == Filled(done)
    ensures r == Filled(done + DependencyCallers(plan, principal, ds))
  {
    r := m;
    ghost var all := done + DependencyCallers(plan, principal, ds);
    ghost var now := done;
    assert ds[0..] == ds;
    for i := 0 to |ds|
      invariant r == Filled(now) && now + DependencyCallers(plan, principal, ds[i..]) == all
    {
      assert ds[i..][1..] == ds[i+1..];
      if ds[i].service in plan.services {
        FilledSnoc(now, (ds[i].service, principal));
        r := Put(r, ds[i].service, principal);
        now := now + [(ds[i].service, principal)];
      }
    }
    assert now == all;
  }

  // ----- the ports of topologyInternalAuthorizationPolicies -----

  function EndpointPorts(s: Service, names: seq<string>): Adds<nat> {
    if names == [] then [] else [(s.name, EndpointPort(s, names[0]))] + EndpointPorts(s, names[1..])
  }

  function DependencyPortAdds(t: Topo, plan: Plan, ds: seq<Dependency>): Adds<nat> {
    if ds == [] then []
    else
      var rest := DependencyPortAdds(t, plan, ds[1..]);
      if ds[0].service in plan.services
      then EndpointPorts(ServiceOr0(t, ds[0].service), ds[0].endpoints) + rest
      else rest
  }

  function PortsAmong(t: Topo, plan: Plan, services: seq<Service>): Adds<nat> {
    if services == [] then []
    else
      var s, rest := services[0], PortsAmong(t, plan, services[1..]);
      if s.name in plan.services then DependencyPortAdds(t, plan, s.dependencies) + rest else rest
  }

  function BootstrapPortAdds(plan: Plan, services: seq<Service>): Adds<nat> {
    if services == [] then []
    else
      var s, rest := services[0], BootstrapPortAdds(plan, services[1..]);
      if s.name in plan.services then EndpointPorts(s, s.bootstrap) + rest else rest
  }

  function PortAdds(t: Topo, plan: Plan): Adds<nat> {
    PortsAmong(t, plan, t.services) + BootstrapPortAdds(plan, t.services)
  }

  method CollectPorts(t: Topo, plan: Plan) returns (m: Table<nat>)
    ensures m == Filled(PortAdds(t, plan))
  {
    m := CollectDependencyPorts(t, plan, t.services);
    m := AddBootstrapPorts(m, PortsAmong(t, plan, t.services), plan, t.services);
  }

  method CollectDependencyPorts(t: Topo, plan: Plan, services: seq<Service>) returns (m: Table<nat>)
    ensures m == Filled(PortsAmong(t, plan, services))
  {
    m := map[];
    ghost var done: Adds<nat> := [];
    ghost var all := PortsAmong(t, plan, services);
    assert services[0..] == services;
    for i := 0 to |services|
      invariant m == Filled(done) && done + PortsAmong(t, plan, services[i..]) == all
    {
      assert services[i..][1..] == services[i+1..];
      if services[i].name in plan.services {
        m := AddDependencyPorts(m, done, t, plan, services[i].dependencies);
        done := done + DependencyPortAdds(t, plan, services[i].dependencies);
      }
    }
    assert done == all;
  }

  method AddBootstrapPorts(m0: Table<nat>, ghost own: Adds<nat>, plan: Plan, services: seq<Service>)
    returns (m: Table<nat>)
    requires m0 == Filled(own)
    ensures m == Filled(own + BootstrapPortAdds(plan, services))
  {
    m := m0;
    ghost var done, all := own, own + BootstrapPortAdds(plan, services);
    assert services[0..] == services;
    for i := 0 to |services|
      invariant m == Filled(done) && done + BootstrapPortAdds(plan, services[i..]) == all
    {
      assert services[i..][1..] == services[i+1..];
      if services[i].name in plan.services {
        m := AddEndpointPorts(m, done, services[i], services[i].bootstrap);
        done := done + EndpointPorts(services[i], services[i].bootstrap);
      }
    }
    assert done == all;
  }

  method AddDependencyPorts(m: Table<nat>, ghost done: Adds<nat>, t: Topo, plan: Plan, ds: seq<Dependency>)
    returns (r: Table<nat>)
    requires m == Filled(done)
    ensures r == Filled(done + DependencyPortAdds(t, plan, ds))
  {
    r := m;
    ghost var all := done + DependencyPortAdds(t, plan, ds);
    ghost var now := done;
    assert ds[0..] == ds;
    for i := 0 to |ds|
      invariant r == Filled(now) && now + DependencyPortAdds(t, plan, ds[i..]) == all
    {
      assert ds[i..][1..] == ds[i+1..];
      if ds[i].service in plan.services {
        var target := ServiceOr0(t, ds[i].service);
        r := AddEndpointPorts(r, now, target, ds[i].endpoints);
        now := now + EndpointPorts(target, ds[i].endpoints);
      }
    }
    assert now == all;
  }

  method AddEndpointPorts(m: Table<nat>, ghost done: Adds<nat>, s: Service, names: seq<string>) returns (r: Table<nat>)
    requires m == Filled(done)
    ensures r == Filled(done + EndpointPorts(s, names))
  {
    r := m;
    ghost var all := done + EndpointPorts(s, names);
    ghost var now := done;
    assert names[0..] == names;
    for i := 0 to |names|
      invariant r == Filled(now) && now + EndpointPorts(s, names[i..]) == all
    {
      assert names[i..][1..] == names[i+1..];
      var port := EndpointPort(s, names[i]);
      FilledSnoc(now, (s.name, port));
      r := Put(r, s.name, port);
      now := now + [(s.name, port)];
    }
    assert now == all;
  }

  // ----- topologyRequiresWaypoint -----

  /** Some in-cluster service has an internal surface: authority methods or HTTP routes. */
  predicate NeedsWaypoint(t: Topo, plan: Plan) {
    || (exists m :: m in t.internalMethods && m in plan.services)
    || (exists s :: s in t.services && s.name in plan.services && s.internalRoutes != [])
  }

  method RequiresWaypoint(t: Topo, plan: Plan) returns (r: bool)
    ensures r <==> NeedsWaypoint(t, plan)
  {
    var left := t.internalMethods;
    while left != {}
      invariant left <= t.internalMethods
      invariant forall m :: m in t.internalMethods && m in plan.services ==> m in left
      decreases left
    {
      var m :| m in left;
      if m in plan.services {
        return true;
      }
      left := left - {m};
    }
    for i := 0 to |t.services|
      invariant forall j :: 0 <= j < i && t.services[j].name in plan.services ==> t.services[j].internalRoutes == []
    {
      if t.services[i].name in plan.services && t.services[i].internalRoutes != [] {
        return true;
      }
    }
    return false;
  }

  // ----- topologyInternalAuthorizationPolicies -----

  function WaypointPrincipals(t: Topo, plan: Plan, ns: string): set<string> {
    if NeedsWaypoint(t, plan) then {MeshPrincipal(ns, WAYPOINT)} else {}
  }

  function EntryOf<T>(m: Table<T>, k: string): set<T> { if k in m then m[k] else {} }

  /** The policy of one target, as the collected tables determine it. */
  predicate PolicyFor(p: MeshPolicy, t: Topo, plan: Plan, ns: string) {
    && p.app == AppLabel(ServiceOr0(t, p.target))
    && Strict(p.principals)
    && Elements(p.principals) == EntryOf(Filled(CallerAdds(t, plan, ns)), p.target) + WaypointPrincipals(t, plan, ns)
    && p.ports == EntryOf(Filled(PortAdds(t, plan)), p.target)
  }

  predicate MeshRendered(ps: seq<MeshPolicy>, t: Topo, plan: Plan, ns: string) {
    && (forall i, j :: 0 <= i < j < |ps| ==> Less(ps[i].target, ps[j].target))
    && (forall i :: 0 <= i < |ps| ==> PolicyFor(ps[i], t, plan, ns))
    && (set i | 0 <= i < |ps| :: ps[i].target) == Filled(PortAdds(t, plan)).Keys
  }

  method InternalAuthorizationPolicies(t: Topo, plan: Plan, ns: string) returns (ps: seq<MeshPolicy>)
    ensures MeshRendered(ps, t, plan, ns)
  {
    var ports := CollectPorts(t, plan);
    var targets := SortedKeys(ports.Keys);
    var callers := CollectCallers(t, plan, ns);
    var required := RequiresWaypoint(t, plan);
    var waypoint := if required then MeshPrincipal(ns, WAYPOINT) else "";
    ps := RenderPolicies(t, plan, ns, targets, callers, ports, waypoint);
    RenderedAll(ps, targets, ports.Keys);
  }

  lemma RenderedAll(ps: seq<MeshPolicy>, targets: seq<string>, keys: set<string>)
    requires |ps| == |targets| && (forall j :: 0 <= j < |ps| ==> ps[j].target == targets[j])
             && Elements(targets) == keys
    ensures (set i | 0 <= i < |ps| :: ps[i].target) == keys
  {
    forall k ensures k in (set i | 0 <= i < |ps| :: ps[i].target) <==> k in keys {
      assert k in keys <==> k in targets;
      if k in targets {
        var i :| 0 <= i < |targets| && targets[i] == k;
        assert ps[i].target == k;
      }
    }
  }

  method RenderPolicies(t: Topo, plan: Plan, ns: string, targets: seq<string>, callers: Table<string>,
                        ports: Table<nat>,
                        waypoint: string) returns (ps: seq<MeshPolicy>)
    requires callers == Filled(CallerAdds(t, plan, ns)) && ports == Filled(PortAdds(t, plan))
    requires waypoint == if NeedsWaypoint(t, plan) then MeshPrincipal(ns, WAYPOINT) else ""
    ensures |ps| == |targets|
    ensures forall j :: 0 <= j < |ps| ==> ps[j].target == targets[j] && PolicyFor(ps[j], t, plan, ns)
  {
    ps := [];
    for i := 0 to |targets|
      invariant |ps| == i && forall j :: 0 <= j < i ==> ps[j].target == targets[j] && PolicyFor(ps[j], t, plan, ns)
    {
      var own := SortedKeys(EntryOf(callers, targets[i]));
      var principals := PortAllowPrincipals(own, waypoint);
      var p := MeshPolicy(targets[i], AppLabel(ServiceOr0(t, targets[i])), principals, EntryOf(ports, targets[i]));
      assert PolicyFor(p, t, plan, ns);
      ps := ps + [p];
    }
  }

  // ----- what the tables hold -----

  /** The caller is declared to talk to the target, or is the target and bootstraps itself. */
  ghost predicate Calls(plan: Plan, c: Service, target: string) {
    && c.name in plan.services && target in plan.services
    && ((exists d :: d in c.dependencies && d.service == target) || (c.name == target && c.bootstrap != []))
  }

  lemma {:induction false} DependencyCallersMeaning(plan: Plan, principal: string, ds: seq<Dependency>,
                                                    target: string, p: string)
    ensures (target, p) in DependencyCallers(plan, principal, ds) <==>
              p == principal && target in plan.services && exists d :: d in ds && d.service == target
  {
    if ds != [] {
      DependencyCallersMeaning(plan, principal, ds[1..], target, p);
      assert forall d :: d in ds <==> d == ds[0] || d in ds[1..];
      if ds[0].service == target { assert ds[0] in ds; }
    }
  }

  ghost predicate CallsBy(plan: Plan, ns: string, c: Service, target: string, p: string) {
    p == MeshPrincipal(ns, Account(c)) && Calls(plan, c, target)
  }

  lemma {:induction false} CallerAddsMeaning(plan: Plan, ns: string, services: seq<Service>, target: string, p: string)
    ensures (target, p) in CallersAmong(plan, ns, services) || (target, p) in BootstrapCallers(plan, ns, services) <==>
              exists c :: c in services && CallsBy(plan, ns, c, target, p)
  {
    if services != [] {
      var s := services[0];
      CallerAddsMeaning(plan, ns, services[1..], target, p);
      assert forall c :: c in services <==> c == s || c in services[1..];
      DependencyCallersMeaning(plan, MeshPrincipal(ns, Account(s)), s.dependencies, target, p);
      if CallsBy(plan, ns, s, target, p) { assert s in services; }
    }
  }

  lemma {:induction false} EndpointPortsMeaning(s: Service, names: seq<string>, target: string, n: nat)
    ensures (target, n) in EndpointPorts(s, names) <==> target == s.name && Tcp(n) in PortsOf(s, names)
  {
    if names != [] {
      EndpointPortsMeaning(s, names[1..], target, n);
      assert PortsOf(s, names) == {Tcp(EndpointPort(s, names[0]))} + PortsOf(s, names[1..]);
    }
  }

  ghost predicate PortOfDependency(t: Topo, plan: Plan, d: Dependency, target: string, n: nat) {
    d.service in plan.services && ServiceOr0(t, d.service).name == target
      && Tcp(n) in PortsOf(ServiceOr0(t, d.service), d.endpoints)
  }

  lemma {:induction false} DependencyPortAddsMeaning(t: Topo, plan: Plan, ds: seq<Dependency>, target: string, n: nat)
    ensures (target, n) in DependencyPortAdds(t, plan, ds) <==>
              exists d :: d in ds && PortOfDependency(t, plan, d, target, n)
  {
    if ds != [] {
      DependencyPortAddsMeaning(t, plan, ds[1..], target, n);
      EndpointPortsMeaning(ServiceOr0(t, ds[0].service), ds[0].endpoints, target, n);
      assert forall d :: d in ds <==> d == ds[0] || d in ds[1..];
      if PortOfDependency(t, plan, ds[0], target, n) { assert ds[0] in ds; }
    }
  }

  ghost predicate PortByCaller(t: Topo, plan: Plan, c: Service, target: string, n: nat) {
    || (c.name in plan.services && exists d :: d in c.dependencies && PortOfDependency(t, plan, d, target, n))
    || (c.name in plan.services && c.name == target && Tcp(n) in PortsOf(c, c.bootstrap))
  }

  lemma {:induction false} PortAddsMeaning(t: Topo, plan: Plan, services: seq<Service>, target: string, n: nat)
    ensures (target, n) in PortsAmong(t, plan, services) || (target, n) in BootstrapPortAdds(plan, services) <==>
              exists c :: c in services && PortByCaller(t, plan, c, target, n)
  {
    if services != [] {
      var s := services[0];
      PortAddsMeaning(t, plan, services[1..], target, n);
      DependencyPortAddsMeaning(t, plan, s.dependencies, target, n);
      EndpointPortsMeaning(s, s.bootstrap, target, n);
      assert forall c :: c in services <==> c == s || c in services[1..];
      if PortByCaller(t, plan, s, target, n) { assert s in services; }
    }
  }

  // ----- the main results -----

  /** Someone may open this port of the target: a declared caller or its own bootstrap job. */
  ghost predicate PortDeclared(t: Topo, plan: Plan, target: Service, n: nat) {
    || (exists c :: c in t.services && DeclaredEdge(plan, c, target, Tcp(n)))
    || (target.name in plan.services && Bound(target, target.bootstrap, Tcp(n)))
  }

  ghost predicate PrincipalDeclared(t: Topo, plan: Plan, ns: string, target: Service, p: string) {
    || (exists c :: c in t.services && CallsBy(plan, ns, c, target.name, p))
    || (NeedsWaypoint(t, plan) && p == MeshPrincipal(ns, WAYPOINT))
  }

  lemma TargetPorts(t: Topo, declared: seq<string>, plan: Plan, target: Service, n: nat)
    requires ValidTopology(t, declared) && target in t.services
    ensures (target.name, n) in PortAdds(t, plan) <==> PortDeclared(t, plan, target, n)
  {
    PortAddsMeaning(t, plan, t.services, target.name, n);
    if c :| c in t.services && PortByCaller(t, plan, c, target.name, n) {
      PortIsDeclared(t, declared, plan, c, target, n);
    }
    if c :| c in t.services && DeclaredEdge(plan, c, target, Tcp(n)) {
      var d :| d in c.dependencies && d.service == target.name && Bound(target, d.endpoints, Tcp(n));
      DependencyPorts(t, declared, c, d, target, Tcp(n));
      assert PortOfDependency(t, plan, d, target.name, n);
      assert PortByCaller(t, plan, c, target.name, n);
    }
    if target.name in plan.services && Bound(target, target.bootstrap, Tcp(n)) {
      BootstrapPorts(t, declared, target, Tcp(n));
      assert PortByCaller(t, plan, target, target.name, n);
    }
  }

  lemma PortIsDeclared(t: Topo, declared: seq<string>, plan: Plan, c: Service, target: Service, n: nat)
    requires ValidTopology(t, declared) && target in t.services && c in t.services
    requires PortByCaller(t, plan, c, target.name, n)
    ensures PortDeclared(t, plan, target, n)
  {
    if d :| d in c.dependencies && PortOfDependency(t, plan, d, target.name, n) && c.name in plan.services {
      EdgeIsReal(t, declared, c, d);
      DependencyPorts(t, declared, c, d, target, Tcp(n));
      assert DeclaredEdge(plan, c, target, Tcp(n));
    } else {
      SameName(t.services, c, target);
      BootstrapPorts(t, declared, target, Tcp(n));
    }
  }

  lemma TargetPrincipals(t: Topo, plan: Plan, ns: string, target: Service, p: string)
    ensures p in EntryOf(Filled(CallerAdds(t, plan, ns)), target.name) + WaypointPrincipals(t, plan, ns) <==>
              PrincipalDeclared(t, plan, ns, target, p)
  {
    FilledMeaning(CallerAdds(t, plan, ns));
    CallerAddsMeaning(plan, ns, t.services, target.name, p);
    assert p in EntryOf(Filled(CallerAdds(t, plan, ns)), target.name) <==> (target.name, p) in CallerAdds(t, plan, ns);
  }

  /** A declared port always comes with a declared principal. */
  lemma PortHasCaller(t: Topo, declared: seq<string>, plan: Plan, ns: string, target: Service, n: nat)
    returns (p: string)
    requires ValidTopology(t, declared) && target in t.services && PortDeclared(t, plan, target, n)
    ensures PrincipalDeclared(t, plan, ns, target, p)
  {
    if c :| c in t.services && DeclaredEdge(plan, c, target, Tcp(n)) {
      p := MeshPrincipal(ns, Account(c));
      assert CallsBy(plan, ns, c, target.name, p);
    } else {
      p := MeshPrincipal(ns, Account(target));
      assert CallsBy(plan, ns, target, target.name, p);
    }
  }

  /** The policy of a target, for any validated topology and plan: its principals are its
      in-cluster callers, itself when it bootstraps, and the waypoint when one is required;
      its ports are the declared ones; neither list is ever empty. */
  lemma PolicyIsExact(t: Topo, declared: seq<string>, plan: Plan, ns: string, ps: seq<MeshPolicy>, p: MeshPolicy,
                      target: Service)
    requires ValidTopology(t, declared) && MeshRendered(ps, t, plan, ns)
    requires p in ps && target in t.services && p.target == target.name
    ensures p.app == AppLabel(target)
    ensures p.principals != [] && p.ports != {}
    ensures forall x :: x in p.principals <==> PrincipalDeclared(t, plan, ns, target, x)
    ensures forall n :: n in p.ports <==> PortDeclared(t, plan, target, n)
  {
    FindUnique(t.services, target);
    FilledMeaning(PortAdds(t, plan));
    var i :| 0 <= i < |ps| && ps[i] == p;
    assert PolicyFor(ps[i], t, plan, ns);
    assert p.target in Filled(PortAdds(t, plan)).Keys;
    forall n: nat ensures n in p.ports <==> PortDeclared(t, plan, target, n) {
      TargetPorts(t, declared, plan, target, n);
    }
    forall x ensures x in p.principals <==> PrincipalDeclared(t, plan, ns, target, x) {
      TargetPrincipals(t, plan, ns, target, x);
      assert x in p.principals <==> x in Elements(p.principals);
    }
    var n :| n in p.ports;
    var x := PortHasCaller(t, declared, plan, ns, target, n);
    assert x in p.principals;
  }

  /** Every rendered policy is some service's. */
  lemma PolicyHasTarget(t: Topo, declared: seq<string>, plan: Plan, ns: string, ps: seq<MeshPolicy>, p: MeshPolicy)
    returns (s: Service)
    requires ValidTopology(t, declared) && MeshRendered(ps, t, plan, ns) && p in ps
    ensures s in t.services && s.name == p.target
  {
    var i :| 0 <= i < |ps| && ps[i] == p;
    assert p.target in Filled(PortAdds(t, plan)).Keys;
    FilledMeaning(PortAdds(t, plan));
    var n :| n in Filled(PortAdds(t, plan))[p.target];
    PortAddsMeaning(t, plan, t.services, p.target, n);
    var c :| c in t.services && PortByCaller(t, plan, c, p.target, n);
    if d :| d in c.dependencies && PortOfDependency(t, plan, d, p.target, n) {
      EdgeIsReal(t, declared, c, d);
      s := ServiceOr0(t, d.service);
    } else {
      s := c;
    }
  }
}
