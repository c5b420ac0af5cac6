/** What a deployment topology must be to load (gitops.go), said of its members rather than of
    the lookups that check it. */
module TopologyRules {
  import opened Wrappers
  import opened Topology
  import opened CleanPaths
  import opened Patterns
  import opened NamePatterns

  ghost predicate Serves(s: Service, name: string) { exists e :: e in s.endpoints && e.name == name }

  lemma ServesMeaning(s: Service, name: string)
    ensures FindEndpoint(s.endpoints, name).Some? <==> Serves(s, name)
  {
  }

  /** The names a service has in the cluster: its own, unless an identity gives it others. */
  predicate Called(s: Service, serviceName: string, app: string) {
    s.kubernetes == Some(Identity(serviceName, app)) || (s.kubernetes == None && serviceName == s.name && app == s.name)
  }

  lemma CalledMeaning(s: Service, serviceName: string, app: string)
    ensures Called(s, serviceName, app) <==> serviceName == KubeName(s) && app == AppLabel(s)
  {
    if s.kubernetes.Some? { assert s.kubernetes == Some(Identity(KubeName(s), AppLabel(s))); }
  }

  ghost predicate IsLabel(name: string) { |name| <= 63 && Matches(Ended(LOWER_DIGIT, LABEL_CHARS), name) }

  ghost predicate ServiceSound(s: Service, declared: seq<string>) {
    && s.name in declared
    && (forall kube, app :: Called(s, kube, app) ==> IsLabel(kube) && IsLabel(app))
    && s.endpoints != []
    && (forall e :: e in s.endpoints ==> 1 <= e.port <= 65535 && 1 <= e.servicePort <= 65535)
    && (forall i, j :: 0 <= i < j < |s.endpoints| ==> s.endpoints[i].name != s.endpoints[j].name)
    && (forall b :: b in s.bootstrap ==> Serves(s, b))
  }

  lemma ServiceMeaning(s: Service, declared: seq<string>)
    ensures ServiceOk(s, declared) <==> ServiceSound(s, declared)
  {
    forall name ensures IsDnsLabel(name) <==> IsLabel(name) { DnsLabelPattern(name); }
    forall kube, app ensures Called(s, kube, app) <==> kube == KubeName(s) && app == AppLabel(s) {
      CalledMeaning(s, kube, app);
    }
    EndpointsMeaning(s.endpoints);
    BootstrapMeaning(s);
    assert Called(s, KubeName(s), AppLabel(s));
  }

  lemma EndpointsMeaning(es: seq<Endpoint>)
    ensures EndpointsOk(es) <==>
              && es != [] && (forall e :: e in es ==> 1 <= e.port <= 65535 && 1 <= e.servicePort <= 65535)
              && (forall i, j :: 0 <= i < j < |es| ==> es[i].name != es[j].name)
  {
    if EndpointsOk(es) {
      forall e | e in es ensures PortOk(e.port) && PortOk(e.servicePort) {
        var i :| 0 <= i < |es| && es[i] == e;
      }
    }
  }

  lemma BootstrapMeaning(s: Service)
    ensures (forall i :: 0 <= i < |s.bootstrap| ==> FindEndpoint(s.endpoints, s.bootstrap[i]).Some?) <==>
              forall b :: b in s.bootstrap ==> Serves(s, b)
  {
    forall b ensures FindEndpoint(s.endpoints, b).Some? <==> Serves(s, b) { ServesMeaning(s, b); }
    if forall i :: 0 <= i < |s.bootstrap| ==> FindEndpoint(s.endpoints, s.bootstrap[i]).Some? {
      forall b | b in s.bootstrap ensures Serves(s, b) { var i :| 0 <= i < |s.bootstrap| && s.bootstrap[i] == b; }
    }
    if forall b :: b in s.bootstrap ==> Serves(s, b) {
      forall i | 0 <= i < |s.bootstrap| ensures FindEndpoint(s.endpoints, s.bootstrap[i]).Some? {
        assert s.bootstrap[i] in s.bootstrap;
      }
    }
  }

  /** No two services share a name, a Kubernetes name or an app label. */
  ghost predicate NamesApart(services: seq<Service>) {
    forall i, j, kubeI, appI, kubeJ, appJ ::
      && 0 <= i < j < |services| && Called(services[i], kubeI, appI) && Called(services[j], kubeJ, appJ)
      ==> services[i].name != services[j].name && kubeI != kubeJ && appI != appJ
  }

  lemma ApartMeaning(services: seq<Service>)
    ensures DistinctServices(services) <==> NamesApart(services)
  {
    forall s, kube, app ensures Called(s, kube, app) <==> kube == KubeName(s) && app == AppLabel(s) {
      CalledMeaning(s, kube, app);
    }
    if NamesApart(services) {
      forall i, j | 0 <= i < j < |services| ensures Apart(services[i], services[j]) {
        assert Called(services[i], KubeName(services[i]), AppLabel(services[i]));
        assert Called(services[j], KubeName(services[j]), AppLabel(services[j]));
      }
    }
    if DistinctServices(services) {
      forall i, j, kubeI, appI, kubeJ, appJ
        | 0 <= i < j < |services| && Called(services[i], kubeI, appI) && Called(services[j], kubeJ, appJ)
        ensures services[i].name != services[j].name && kubeI != kubeJ && appI != appJ
      {
        assert Apart(services[i], services[j]);
      }
    }
  }

  // ----- references -----

  ghost predicate Exists(services: seq<Service>, name: string) { exists s :: s in services && s.name == name }

  /** The services of this name serve all these endpoints, and there is such a service. */
  ghost predicate AllServed(services: seq<Service>, name: string, endpoints: seq<string>) {
    exists s :: s in services && s.name == name && forall e :: e in endpoints ==> Serves(s, e)
  }

  ghost predicate DependencySound(services: seq<Service>, d: Dependency) {
    d.endpoints != [] && AllServed(services, d.service, d.endpoints)
  }

  lemma Found(services: seq<Service>, name: string)
    requires DistinctServices(services)
    ensures FindService(services, name).Some? <==> Exists(services, name)
    ensures forall s :: s in services && s.name == name ==> FindService(services, name) == Some(s)
  {
    forall s | s in services && s.name == name ensures FindService(services, name) == Some(s) {
      FindUnique(services, s);
    }
  }

  lemma DependencyMeaning(services: seq<Service>, d: Dependency)
    requires DistinctServices(services)
    ensures DependencyOk(services, d) <==> DependencySound(services, d)
  {
    Found(services, d.service);
    if Exists(services, d.service) {
      var s := FindService(services, d.service).value;
      forall e ensures FindEndpoint(s.endpoints, e).Some? <==> Serves(s, e) { ServesMeaning(s, e); }
      if DependencyOk(services, d) {
        forall e | e in d.endpoints ensures Serves(s, e) {
          var i :| 0 <= i < |d.endpoints| && d.endpoints[i] == e;
        }
      }
      if DependencySound(services, d) {
        forall i | 0 <= i < |d.endpoints| ensures FindEndpoint(s.endpoints, d.endpoints[i]).Some? {
          assert d.endpoints[i] in d.endpoints;
        }
      }
    }
  }

  // ----- deploy jobs -----

  /** Some service of this name declares that it uses this endpoint of that service. */
  ghost predicate Declares(services: seq<Service>, name: string, target: string, endpoint: string) {
    exists s, d ::
      s in services && s.name == name && d in s.dependencies && d.service == target && endpoint in d.endpoints
  }

  ghost predicate Bootstraps(services: seq<Service>, name: string) {
    exists s :: s in services && s.name == name && s.bootstrap != []
  }

  ghost predicate JobSound(services: seq<Service>, j: DeployJob) {
    && IsLabel(j.name) && Exists(services, j.service) && j.command != ""
    && j.catalog != "" && '\0' !in j.catalog && '\\' !in j.catalog
    && IsLocal(j.catalog) && Clean(j.catalog) == j.catalog
    && j.present
    && AllServed(services, j.writesService, [j.writesEndpoint])
    && Declares(services, j.service, j.writesService, j.writesEndpoint)
    && (Bootstraps(services, j.writesService) ==> j.writesService in j.after)
    && (forall a :: a in j.after ==> Exists(services, a))
  }

  lemma DeclaresMeaning(services: seq<Service>, name: string, target: string, endpoint: string)
    requires DistinctServices(services) && Exists(services, name)
    ensures DependsOn(FindService(services, name).value, target, endpoint) <==>
            Declares(services, name, target, endpoint)
  {
    Found(services, name);
    var s := FindService(services, name).value;
    if DependsOn(s, target, endpoint) {
      var i :| 0 <= i < |s.dependencies| && s.dependencies[i].service == target
               && endpoint in s.dependencies[i].endpoints;
      assert s.dependencies[i] in s.dependencies;
    }
    if d :| d in s.dependencies && d.service == target && endpoint in d.endpoints {
      var i :| 0 <= i < |s.dependencies| && s.dependencies[i] == d;
    }
  }

  lemma TargetMeaning(services: seq<Service>, name: string, endpoint: string)
    requires DistinctServices(services)
    ensures AllServed(services, name, [endpoint]) <==>
              && FindService(services, name).Some?
              && FindEndpoint(FindService(services, name).value.endpoints, endpoint).Some?
    ensures FindService(services, name).Some? ==>
              (Bootstraps(services, name) <==> FindService(services, name).value.bootstrap != [])
  {
    Found(services, name);
    if Exists(services, name) {
      var s := FindService(services, name).value;
      ServesMeaning(s, endpoint);
      if AllServed(services, name, [endpoint]) { assert endpoint in [endpoint]; }
    }
  }

  lemma JobMeaning(services: seq<Service>, j: DeployJob)
    requires DistinctServices(services)
    ensures JobOk(services, j) <==> JobSound(services, j)
  {
    DnsLabelPattern(j.name);
    CleanLocalMeaning(j.catalog);
    Found(services, j.service);
    TargetMeaning(services, j.writesService, j.writesEndpoint);
    if Exists(services, j.service) { DeclaresMeaning(services, j.service, j.writesService, j.writesEndpoint); }
    AfterMeaning(services, j.after);
  }

  lemma AfterMeaning(services: seq<Service>, names: seq<string>)
    requires DistinctServices(services)
    ensures (forall i :: 0 <= i < |names| ==> FindService(services, names[i]).Some?) <==>
              forall a :: a in names ==> Exists(services, a)
  {
    forall a ensures FindService(services, a).Some? <==> Exists(services, a) { Found(services, a); }
    if forall i :: 0 <= i < |names| ==> FindService(services, names[i]).Some? {
      forall a | a in names ensures Exists(services, a) { var i :| 0 <= i < |names| && names[i] == a; }
    }
    if forall a :: a in names ==> Exists(services, a) {
      forall i | 0 <= i < |names| ensures FindService(services, names[i]).Some? { assert names[i] in names; }
    }
  }

  // ----- the whole topology -----

  ghost predicate ServicesSound(t: Topo, declared: seq<string>) {
    && (forall s :: s in t.services ==> ServiceSound(s, declared)) && NamesApart(t.services)
    && (forall s, d :: s in t.services && d in s.dependencies ==> DependencySound(t.services, d))
  }

  ghost predicate JobsSound(t: Topo) {
    && (forall j :: j in t.jobs ==> JobSound(t.services, j))
    && (forall i, j :: 0 <= i < j < |t.jobs| ==> t.jobs[i].name != t.jobs[j].name)
  }

  lemma AllServicesMeaning(services: seq<Service>, declared: seq<string>)
    ensures (forall i :: 0 <= i < |services| ==> ServiceOk(services[i], declared)) <==>
              forall s :: s in services ==> ServiceSound(s, declared)
  {
    forall s ensures ServiceOk(s, declared) <==> ServiceSound(s, declared) { ServiceMeaning(s, declared); }
    if forall s :: s in services ==> ServiceSound(s, declared) {
      forall i | 0 <= i < |services| ensures ServiceOk(services[i], declared) { assert services[i] in services; }
    }
  }

  lemma AllDependenciesMeaning(services: seq<Service>)
    requires DistinctServices(services)
    ensures (forall i :: 0 <= i < |services| ==> DependenciesOk(services, services[i])) <==>
              forall s, d :: s in services && d in s.dependencies ==> DependencySound(services, d)
  {
    forall d ensures DependencyOk(services, d) <==> DependencySound(services, d) { DependencyMeaning(services, d); }
    if forall i :: 0 <= i < |services| ==> DependenciesOk(services, services[i]) {
      forall s, d | s in services && d in s.dependencies ensures DependencySound(services, d) {
        var i :| 0 <= i < |services| && services[i] == s;
        var k :| 0 <= k < |s.dependencies| && s.dependencies[k] == d;
        assert DependenciesOk(services, services[i]);
      }
    }
    if forall s, d :: s in services && d in s.dependencies ==> DependencySound(services, d) {
      forall i | 0 <= i < |services| ensures DependenciesOk(services, services[i]) {
        forall k | 0 <= k < |services[i].dependencies| ensures DependencyOk(services, services[i].dependencies[k]) {
          assert services[i] in services && services[i].dependencies[k] in services[i].dependencies;
        }
      }
    }
  }

  lemma AllJobsMeaning(t: Topo)
    requires DistinctServices(t.services)
    ensures JobsOk(t.services, t.jobs) <==> JobsSound(t)
  {
    if forall j :: j in t.jobs ==> JobSound(t.services, j) {
      forall i | 0 <= i < |t.jobs| ensures JobOk(t.services, t.jobs[i]) {
        assert t.jobs[i] in t.jobs;
        JobMeaning(t.services, t.jobs[i]);
      }
    }
    if forall i :: 0 <= i < |t.jobs| ==> JobOk(t.services, t.jobs[i]) {
      forall j | j in t.jobs ensures JobSound(t.services, j) {
        var i :| 0 <= i < |t.jobs| && t.jobs[i] == j;
        assert JobOk(t.services, t.jobs[i]);
        JobMeaning(t.services, j);
      }
    }
  }

  /** A topology loads exactly when its services and jobs are sound and every declared service,
      the entry included, is among them. */
  lemma LoadsIff(t: Topo, declared: seq<string>)
    ensures ValidTopology(t, declared) <==>
              && ServicesSound(t, declared) && JobsSound(t)
              && (forall name :: name in declared ==> Exists(t.services, name)) && Exists(t.services, t.serviceEntry)
  {
    AllServicesMeaning(t.services, declared);
    ApartMeaning(t.services);
    if DistinctServices(t.services) {
      AllDependenciesMeaning(t.services);
      AllJobsMeaning(t);
      AfterMeaning(t.services, declared);
      Found(t.services, t.serviceEntry);
    }
  }
}
