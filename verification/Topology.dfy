/** The deployment topology (gitops.go): services, the endpoints they serve and the
    dependencies they declare, with the checks loadDeploymentTopology makes. */
module Topology {
  import opened Text
  import opened Wrappers

  datatype Endpoint = Endpoint(name: string, port: nat, servicePort: nat)
  datatype Dependency = Dependency(service: string, endpoints: seq<string>)
  datatype Identity = Identity(serviceName: string, appLabel: string)

  datatype Service = Service(
    name: string, kubernetes: Option<Identity>, serviceAccount: string,
    endpoints: seq<Endpoint>, bootstrap: seq<string>, dependencies: seq<Dependency>,
    internalRoutes: seq<string>, publicEgressPorts: seq<nat>)

  /** `present` says whether the catalog file exists. */
  datatype DeployJob = DeployJob(
    name: string, service: string, command: string, catalog: string, present: bool,
    writesService: string, writesEndpoint: string, after: seq<string>)

  datatype Exposed = Exposed(service: string, endpoint: string, visibility: string)

  datatype Topo = Topo(
    services: seq<Service>, jobs: seq<DeployJob>, exposed: seq<Exposed>,
    serviceEntry: string, internalMethods: set<string>)

  /** topologyKubernetesServiceName and topologyKubernetesAppLabel. */
  function KubeName(s: Service): string {
    if s.kubernetes.None? then s.name else s.kubernetes.value.serviceName
  }

  function AppLabel(s: Service): string {
    if s.kubernetes.None? then s.name else s.kubernetes.value.appLabel
  }

  /** `^[a-z0-9](?:[-a-z0-9]*[a-z0-9])?$` */
  predicate LabelChar(c: char) { 'a' <= c <= 'z' || '0' <= c <= '9' || c == '-' }

  predicate IsDnsLabel(s: string) {
    && 1 <= |s| <= 63 && s[0] != '-' && s[|s|-1] != '-'
    && forall i :: 0 <= i < |s| ==> LabelChar(s[i])
  }

  /** topologyServiceByName: the first service of that name. */
  function FindService(services: seq<Service>, name: string): (r: Option<Service>)
    ensures r.Some? ==> r.value in services && r.value.name == name
    ensures r.None? ==> forall s :: s in services ==> s.name != name
  {
    if services == [] then None
    else if services[0].name == name then Some(services[0])
    else FindService(services[1..], name)
  }

  /** topologyEndpointByName. */
  function FindEndpoint(endpoints: seq<Endpoint>, name: string): (r: Option<Endpoint>)
    ensures r.Some? ==> r.value in endpoints && r.value.name == name
    ensures r.None? ==> forall e :: e in endpoints ==> e.name != name
  {
    if endpoints == [] then None
    else if endpoints[0].name == name then Some(endpoints[0])
    else FindEndpoint(endpoints[1..], name)
  }

  // ----- the checks -----

  predicate PortOk(p: nat) { 1 <= p <= 65535 }

  predicate EndpointsOk(es: seq<Endpoint>) {
    && es != []
    && (forall i :: 0 <= i < |es| ==> PortOk(es[i].port) && PortOk(es[i].servicePort))
    && (forall i, j :: 0 <= i < j < |es| ==> es[i].name != es[j].name)
  }

  predicate ServiceOk(s: Service, declared: seq<string>) {
    && s.name in declared
    && IsDnsLabel(KubeName(s)) && IsDnsLabel(AppLabel(s))
    && EndpointsOk(s.endpoints)
    && forall i :: 0 <= i < |s.bootstrap| ==> FindEndpoint(s.endpoints, s.bootstrap[i]).Some?
  }

  predicate DependencyOk(services: seq<Service>, d: Dependency) {
    var target := FindService(services, d.service);
    && target.Some?
    && d.endpoints != []
    && forall i :: 0 <= i < |d.endpoints| ==> FindEndpoint(target.value.endpoints, d.endpoints[i]).Some?
  }

  /** serviceDependsOn. */
  predicate DependsOn(s: Service, service: string, endpoint: string) {
    exists i :: 0 <= i < |s.dependencies| && s.dependencies[i].service == service
      && endpoint in s.dependencies[i].endpoints
  }

  /** cleanRelativeFilesystemPath: a canonical path that stays below its root. */
  predicate CleanLocalPath(path: string) {
    && path != "" && '\0' !in path && '\\' !in path
    && (path == "." || forall i :: 0 <= i < |Split(path, '/')| ==> Split(path, '/')[i] !in {"", ".", ".."})
  }

  predicate JobOk(services: seq<Service>, j: DeployJob) {
    var runner, target := FindService(services, j.service), FindService(services, j.writesService);
    && IsDnsLabel(j.name) && runner.Some? && j.command != "" && CleanLocalPath(j.catalog) && j.present
    && target.Some? && FindEndpoint(target.value.endpoints, j.writesEndpoint).Some?
    && DependsOn(runner.value, j.writesService, j.writesEndpoint)
    && (target.value.bootstrap != [] ==> j.writesService in j.after)
    && forall i :: 0 <= i < |j.after| ==> FindService(services, j.after[i]).Some?
  }

  predicate Apart(a: Service, b: Service) {
    a.name != b.name && KubeName(a) != KubeName(b) && AppLabel(a) != AppLabel(b)
  }

  predicate DistinctServices(services: seq<Service>) {
    forall i, j :: 0 <= i < j < |services| ==> Apart(services[i], services[j])
  }

  predicate DependenciesOk(services: seq<Service>, s: Service) {
    forall i :: 0 <= i < |s.dependencies| ==> DependencyOk(services, s.dependencies[i])
  }

  predicate JobsOk(services: seq<Service>, jobs: seq<DeployJob>) {
    && (forall i :: 0 <= i < |jobs| ==> JobOk(services, jobs[i]))
    && (forall i, j :: 0 <= i < j < |jobs| ==> jobs[i].name != jobs[j].name)
  }

  predicate ValidTopology(t: Topo, declared: seq<string>) {
    && (forall i :: 0 <= i < |t.services| ==> ServiceOk(t.services[i], declared))
    && DistinctServices(t.services)
    && (forall i :: 0 <= i < |declared| ==> FindService(t.services, declared[i]).Some?)
    && FindService(t.services, t.serviceEntry).Some?
    && (forall i :: 0 <= i < |t.services| ==> DependenciesOk(t.services, t.services[i]))
    && JobsOk(t.services, t.jobs)
  }

  // ----- as they run -----

  method CheckEndpoints(es: seq<Endpoint>) returns (ok: bool)
    ensures ok <==> EndpointsOk(es)
  {
    if es == [] {
      return false;
    }
    var names: set<string> := {};
    for i := 0 to |es|
      invariant names == set j | 0 <= j < i :: es[j].name
      invariant forall j :: 0 <= j < i ==> PortOk(es[j].port) && PortOk(es[j].servicePort)
      invariant forall j, k :: 0 <= j < k < i ==> es[j].name != es[k].name
    {
      if !PortOk(es[i].port) || !PortOk(es[i].servicePort) || es[i].name in names {
        return false;
      }
      names := names + {es[i].name};
    }
    return true;
  }

  method CheckService(s: Service, declared: seq<string>) returns (ok: bool)
    ensures ok <==> ServiceOk(s, declared)
  {
    if s.name !in declared || !IsDnsLabel(KubeName(s)) || !IsDnsLabel(AppLabel(s)) {
      return false;
    }
    ok := CheckEndpoints(s.endpoints);
    if ok {
      for i := 0 to |s.bootstrap|
        invariant forall j :: 0 <= j < i ==> FindEndpoint(s.endpoints, s.bootstrap[j]).Some?
      {
        if FindEndpoint(s.endpoints, s.bootstrap[i]).None? {
          return false;
        }
      }
    }
  }

  /** The names, Kubernetes names and app labels of the services met so far. */
  datatype Met = Met(names: set<string>, kubeNames: set<string>, apps: set<string>) {
    predicate Clashes(s: Service) { s.name in names || KubeName(s) in kubeNames || AppLabel(s) in apps }

    function Add(s: Service): Met { Met(names + {s.name}, kubeNames + {KubeName(s)}, apps + {AppLabel(s)}) }
  }

  predicate NoClash(met: Met, services: seq<Service>)
    decreases |services|
  {
    services == [] || (!met.Clashes(services[0]) && NoClash(met.Add(services[0]), services[1..]))
  }

  lemma {:induction false} NoClashMeaning(met: Met, services: seq<Service>)
    ensures NoClash(met, services) <==>
              DistinctServices(services) && forall i :: 0 <= i < |services| ==> !met.Clashes(services[i])
    decreases |services|
  {
    if services != [] {
      var s, rest := services[0], services[1..];
      NoClashMeaning(met.Add(s), rest);
      assert forall i :: 0 <= i < |rest| ==> rest[i] == services[i+1];
      forall i | 0 <= i < |rest|
        ensures met.Add(s).Clashes(rest[i]) <==> met.Clashes(rest[i]) || !Apart(s, rest[i])
      {
      }
      if DistinctServices(services) {
        forall i | 0 <= i < |rest| ensures Apart(s, rest[i]) { assert Apart(services[0], services[i+1]); }
      }
    }
  }

  method CheckServices(services: seq<Service>, declared: seq<string>) returns (ok: bool)
    ensures ok <==> (forall i :: 0 <= i < |services| ==> ServiceOk(services[i], declared)) && DistinctServices(services)
  {
    var met := Met({}, {}, {});
    NoClashMeaning(met, services);
    assert services[0..] == services;
    for i := 0 to |services|
      invariant forall j :: 0 <= j < i ==> ServiceOk(services[j], declared)
      invariant NoClash(met, services[i..]) <==> DistinctServices(services)
    {
      assert services[i..][1..] == services[i+1..];
      ok := CheckService(services[i], declared);
      if !ok || met.Clashes(services[i]) {
        return false;
      }
      met := met.Add(services[i]);
    }
    return true;
  }

  method CheckDependencies(services: seq<Service>) returns (ok: bool)
    ensures ok <==> forall i :: 0 <= i < |services| ==> DependenciesOk(services, services[i])
  {
    for i := 0 to |services|
      invariant forall j :: 0 <= j < i ==> DependenciesOk(services, services[j])
    {
      var ds := services[i].dependencies;
      for k := 0 to |ds|
        invariant forall j :: 0 <= j < k ==> DependencyOk(services, ds[j])
      {
        if !DependencyOk(services, ds[k]) {
          assert !DependenciesOk(services, services[i]);
          return false;
        }
      }
    }
    return true;
  }

  /** validateDeployJobs. */
  method CheckJobs(services: seq<Service>, jobs: seq<DeployJob>) returns (ok: bool)
    ensures ok <==> JobsOk(services, jobs)
  {
    var names: set<string> := {};
    for i := 0 to |jobs|
      invariant names == set j | 0 <= j < i :: jobs[j].name
      invariant forall j :: 0 <= j < i ==> JobOk(services, jobs[j])
      invariant forall j, k :: 0 <= j < k < i ==> jobs[j].name != jobs[k].name
    {
      if jobs[i].name in names || !JobOk(services, jobs[i]) {
        return false;
      }
      names := names + {jobs[i].name};
    }
    return true;
  }

  /** The checks of loadDeploymentTopology. */
  method CheckTopology(t: Topo, declared: seq<string>) returns (ok: bool)
    ensures ok <==> ValidTopology(t, declared)
  {
    ok := CheckServices(t.services, declared);
    if !ok { return false; }
    for i := 0 to |declared|
      invariant forall j :: 0 <= j < i ==> FindService(t.services, declared[j]).Some?
    {
      if FindService(t.services, declared[i]).None? {
        return false;
      }
    }
    if FindService(t.services, t.serviceEntry).None? {
      return false;
    }
    ok := CheckDependencies(t.services);
    if !ok { return false; }
    ok := CheckJobs(t.services, t.jobs);
  }

  // ----- what validity gives the renderers -----

  lemma FindUnique(services: seq<Service>, s: Service)
    requires DistinctServices(services) && s in services
    ensures FindService(services, s.name) == Some(s)
  {
    var found := FindService(services, s.name).value;
    var i :| 0 <= i < |services| && services[i] == s;
    var j :| 0 <= j < |services| && services[j] == found;
    assert i == j;
  }

  lemma SameApp(services: seq<Service>, a: Service, b: Service)
    requires DistinctServices(services) && a in services && b in services && AppLabel(a) == AppLabel(b)
    ensures a == b
  {
    var i :| 0 <= i < |services| && services[i] == a;
    var j :| 0 <= j < |services| && services[j] == b;
    assert i == j;
  }

  /** A declared dependency always names a service and endpoints of it. */
  lemma DependencyTarget(t: Topo, declared: seq<string>, s: Service, d: Dependency)
    requires ValidTopology(t, declared) && s in t.services && d in s.dependencies
    ensures DependencyOk(t.services, d)
  {
    var i :| 0 <= i < |t.services| && t.services[i] == s;
    var j :| 0 <= j < |s.dependencies| && s.dependencies[j] == d;
    assert DependenciesOk(t.services, t.services[i]);
  }
}
