/** When an environment can be planned (gitops.go), said of its declarations: one condition per
    refusal of planEnvironment and of the validators it calls. */
module PlanRules {
  import opened Text
  import opened Topology
  import opened ManagedServices
  import opened EnvironmentPlan
  import opened PlanProperties
  import opened PlanContents
  import opened NamePatterns
  import opened TopologyRules

  // ----- host names -----

  /** A DNS name, given with or without its final dot. */
  ghost predicate NamesHost(net: Net, value: string) {
    exists name :: (TrimSpace(value) == name || TrimSpace(value) == name + ".") && IsHost(net, name)
  }

  ghost predicate IsHost(net: Net, name: string) {
    && name != "" && !net.isIp(name) && |name| <= 253
    && forall part :: part in Split(name, '.') ==> IsLabel(part)
  }

  lemma LabelsMeaning(labels: seq<string>)
    ensures (forall i :: 0 <= i < |labels| ==> IsDnsLabel(labels[i])) <==>
              forall part :: part in labels ==> IsLabel(part)
  {
    forall part ensures IsDnsLabel(part) <==> IsLabel(part) { DnsLabelPattern(part); }
    if forall i :: 0 <= i < |labels| ==> IsDnsLabel(labels[i]) {
      forall part | part in labels ensures IsLabel(part) { var i :| 0 <= i < |labels| && labels[i] == part; }
    }
    if forall part :: part in labels ==> IsLabel(part) {
      forall i | 0 <= i < |labels| ensures IsDnsLabel(labels[i]) { assert labels[i] in labels; }
    }
  }

  lemma {:induction false} SplitEnds(s: string)
    ensures Split(s + ".", '.') == Split(s, '.') + [""]
  {
    var t := s + ".";
    if s == "" {
      assert t[1..] == "";
    } else {
      assert t[1..] == s[1..] + "." && t[0] == s[0];
      SplitEnds(s[1..]);
      var rest := Split(s[1..], '.');
      if s[0] != '.' { assert [[s[0]] + rest[0]] + (rest + [""])[1..] == ([[s[0]] + rest[0]] + rest[1..]) + [""]; }
    }
  }

  lemma NoFinalDot(net: Net, name: string)
    requires IsHost(net, name)
    ensures name[|name|-1] != '.'
  {
    var n := |name| - 1;
    if name[n] == '.' {
      assert name == name[..n] + ".";
      SplitEnds(name[..n]);
      assert "" in Split(name, '.');
      DnsLabelPattern("");
    }
  }

  lemma HostMeaning(net: Net, value: string)
    ensures ValidExternalName(net, value) <==> NamesHost(net, value)
  {
    var trimmed := TrimSpace(value);
    LabelsMeaning(Split(TrimDot(trimmed), '.'));
    if trimmed != "" && trimmed[|trimmed|-1] == '.' { assert trimmed == TrimDot(trimmed) + "."; }
    if name :| (trimmed == name || trimmed == name + ".") && IsHost(net, name) {
      NoFinalDot(net, name);
      if trimmed == name + "." { assert trimmed[..|trimmed|-1] == name; }
      assert TrimDot(trimmed) == name;
    }
  }

  // ----- managed services -----

  predicate SecretSound(r: SecretRef) {
    && IsDnsLabel(r.name) && TrimSpace(r.remoteKey) != "" && TrimSpace(r.storeName) != ""
    && (forall c :: c in r.remoteKey ==> c != '\r' && c != '\n')
    && r.storeKind in {"SecretStore", "ClusterSecretStore"}
  }

  lemma SecretMeaning(r: SecretRef)
    ensures SecretOk(r) <==> SecretSound(r)
  {
  }

  lemma SecretsMeaning(refs: seq<SecretRef>)
    ensures SecretsOk(refs) <==>
              && (forall r :: r in refs ==> SecretSound(r))
              && (forall i, j :: 0 <= i < j < |refs| ==> refs[i].name != refs[j].name)
  {
    forall r ensures SecretOk(r) <==> SecretSound(r) { SecretMeaning(r); }
    if SecretsOk(refs) {
      forall r | r in refs ensures SecretSound(r) { var i :| 0 <= i < |refs| && refs[i] == r; }
    }
  }

  lemma KindMeaning(kind: string)
    ensures KindOk(kind) <==>
              kind in {"elasticache", "rds-postgresql", "s3", "secrets-manager", "azure-postgres-flexible",
                       "cloud-sql-postgres", "cell-vault"}
  {
  }

  /** Authentication and reach, as the two validators rule them. */
  predicate Authenticates(c: ManagedConfig, net: Net) {
    var mode, instance := TrimSpace(c.authMode), TrimSpace(c.instance);
    && mode in {"", "password", "external-identity"}
    && (c.kind == "cell-vault" ==> mode == "external-identity")
    && (if c.kind == "cloud-sql-postgres" then mode != "" && net.isInstance(instance) else instance == "")
    && (mode == "external-identity" ==> c.secretRefs == [])
  }

  predicate Reachable(c: ManagedConfig, net: Net) {
    && (if c.kind == "cell-vault" then IsDnsLabel(TrimSpace(c.egressNamespace)) && c.egressCidrs == []
        else TrimSpace(c.egressNamespace) == "")
    && (forall cidr :: cidr in c.egressCidrs ==> net.isCidr(cidr))
  }

  ghost predicate ManagedSound(c: ManagedConfig, net: Net) {
    && KindOk(c.kind) && NamesHost(net, c.externalName) && Authenticates(c, net) && Reachable(c, net)
    && (forall r :: r in c.secretRefs ==> SecretSound(r))
    && (forall i, j :: 0 <= i < j < |c.secretRefs| ==> c.secretRefs[i].name != c.secretRefs[j].name)
  }

  lemma ReachableMeaning(c: ManagedConfig, net: Net)
    ensures Reachable(c, net) <==>
              ManagedEgress(c).Yes? && forall i :: 0 <= i < |c.egressCidrs| ==> net.isCidr(c.egressCidrs[i])
  {
    ManagedEgressRules(c);
    if forall i :: 0 <= i < |c.egressCidrs| ==> net.isCidr(c.egressCidrs[i]) {
      forall cidr | cidr in c.egressCidrs ensures net.isCidr(cidr) {
        var i :| 0 <= i < |c.egressCidrs| && c.egressCidrs[i] == cidr;
      }
    }
  }

  /** A declaration is taken when its service is declared and not withdrawn, and it is sound. */
  lemma ManagedMeaning(s: string, c: ManagedConfig, services: seq<string>, withdrawn: set<string>, net: Net)
    ensures ManagedOk(s, c, services, withdrawn, net) <==> s in services && s !in withdrawn && ManagedSound(c, net)
  {
    HostMeaning(net, c.externalName);
    ManagedAuthRules(c, net);
    ReachableMeaning(c, net);
    SecretsMeaning(c.secretRefs);
  }

  /** A dependency on a managed service needs a way there: the namespace of a cell-vault, or an
      address. */
  ghost predicate WaysOut(env: Environment, t: Topo) {
    forall s, d :: s in t.services && d in s.dependencies && d.service in env.managed ==>
      env.managed[d.service].kind == "cell-vault" || env.managed[d.service].egressCidrs != []
  }

  lemma WayOut(env: Environment, services: seq<string>, withdrawn: set<string>, net: Net, d: Dependency)
    requires AllManagedOk(env, services, withdrawn, net) && d.service in env.managed
    ensures ReachOk(d, NormalizeAll(env.managed, net)) <==>
              env.managed[d.service].kind == "cell-vault" || env.managed[d.service].egressCidrs != []
  {
    var c := env.managed[d.service];
    assert ManagedOk(d.service, c, services, withdrawn, net);
    ManagedEgressRules(c);
    assert NormalizeAll(env.managed, net)[d.service] == Normalize(c, net);
    assert |"cell-vault"| == 10;
  }

  lemma WaysOutMeaning(env: Environment, services: seq<string>, withdrawn: set<string>, t: Topo, net: Net)
    requires AllManagedOk(env, services, withdrawn, net)
    ensures ReachesOk(t, NormalizeAll(env.managed, net)) <==> WaysOut(env, t)
  {
    var managed := NormalizeAll(env.managed, net);
    if ReachesOk(t, managed) {
      forall s, d | s in t.services && d in s.dependencies && d.service in env.managed
        ensures env.managed[d.service].kind == "cell-vault" || env.managed[d.service].egressCidrs != []
      {
        var i :| 0 <= i < |t.services| && t.services[i] == s;
        var j :| 0 <= j < |s.dependencies| && s.dependencies[j] == d;
        assert ReachOk(t.services[i].dependencies[j], managed);
        WayOut(env, services, withdrawn, net, d);
      }
    }
    if WaysOut(env, t) {
      forall i, j | 0 <= i < |t.services| && 0 <= j < |t.services[i].dependencies|
        ensures ReachOk(t.services[i].dependencies[j], managed)
      {
        var d := t.services[i].dependencies[j];
        assert t.services[i] in t.services && d in t.services[i].dependencies;
        if d.service in env.managed { WayOut(env, services, withdrawn, net, d); }
      }
    }
  }

  // ----- ingress routes -----

  ghost predicate RouteSound(r: IngressRoute, services: seq<string>, t: Topo, net: Net) {
    && IsLabel(r.name) && r.service in services
    && Exposed(r.service, r.endpoint, "public") in t.exposed
    && AllServed(t.services, r.service, [r.endpoint])
    && r.hosts != [] && forall h :: h in r.hosts ==> NamesHost(net, TrimSpace(h))
  }

  lemma RouteMeaning(r: IngressRoute, services: seq<string>, t: Topo, net: Net)
    requires DistinctServices(t.services)
    ensures RouteOk(r, services, t, net) <==> RouteSound(r, services, t, net)
  {
    DnsLabelPattern(r.name);
    TargetMeaning(t.services, r.service, r.endpoint);
    HostsMeaning(net, r.hosts);
    if Exposed(r.service, r.endpoint, "public") in t.exposed {
      var i :| 0 <= i < |t.exposed| && t.exposed[i] == Exposed(r.service, r.endpoint, "public");
    }
  }

  lemma HostsMeaning(net: Net, hosts: seq<string>)
    ensures HostsOk(net, hosts) <==> forall h :: h in hosts ==> NamesHost(net, TrimSpace(h))
  {
    forall h ensures ValidExternalName(net, h) <==> NamesHost(net, h) { HostMeaning(net, h); }
    if HostsOk(net, hosts) {
      forall h | h in hosts ensures NamesHost(net, TrimSpace(h)) { var i :| 0 <= i < |hosts| && hosts[i] == h; }
    }
  }

  /** The trimmed host at one place of the route list. */
  predicate HostAt(routes: seq<IngressRoute>, i: nat, j: nat, host: string) {
    i < |routes| && j < |routes[i].hosts| && TrimSpace(routes[i].hosts[j]) == host
  }

  ghost predicate HostsApart(routes: seq<IngressRoute>) {
    forall i, j, k, m, h :: HostAt(routes, i, j, h) && HostAt(routes, k, m, h) ==> i == k && j == m
  }

  ghost predicate HostsClear(routes: seq<IngressRoute>, met: set<string>) {
    forall i, j, h :: HostAt(routes, i, j, h) ==> h !in met
  }

  predicate NamesClear(routes: seq<IngressRoute>, met: set<string>) {
    && (forall i :: 0 <= i < |routes| ==> routes[i].name !in met)
    && (forall i, j :: 0 <= i < j < |routes| ==> routes[i].name != routes[j].name)
  }

  lemma {:induction false} FreshMeaning(met: set<string>, hosts: seq<string>)
    ensures HostsFresh(met, hosts) <==>
              && (forall j :: 0 <= j < |hosts| ==> hosts[j] !in met)
              && (forall j, m :: 0 <= j < m < |hosts| ==> hosts[j] != hosts[m])
    decreases |hosts|
  {
    if hosts != [] {
      var rest := hosts[1..];
      FreshMeaning(met + {hosts[0]}, rest);
      assert forall j :: 0 <= j < |rest| ==> rest[j] == hosts[j+1];
      if HostsFresh(met, hosts) {
        forall j, m | 0 <= j < m < |hosts| ensures hosts[j] != hosts[m] {
          assert hosts[m] == rest[m-1];
          if j > 0 { assert hosts[j] == rest[j-1]; }
        }
        forall j | 0 <= j < |hosts| ensures hosts[j] !in met { if j > 0 { assert hosts[j] == rest[j-1]; } }
      }
    }
  }

  lemma OwnHosts(r: IngressRoute, met: set<string>)
    ensures HostsFresh(met, TrimAll(r.hosts)) <==> HostsClear([r], met) && HostsApart([r])
    ensures forall h :: h in HostSet(r) <==> exists j :: HostAt([r], 0, j, h)
  {
    var all := TrimAll(r.hosts);
    TrimAllAt(r.hosts);
    FreshMeaning(met, all);
    assert forall j: nat, h :: HostAt([r], 0, j, h) <==> j < |all| && all[j] == h;
    forall h ensures h in HostSet(r) <==> exists j :: HostAt([r], 0, j, h) {
      if h in all {
        var j: nat :| j < |all| && all[j] == h;
        assert HostAt([r], 0, j, h);
      }
    }
    if HostsClear([r], met) && HostsApart([r]) {
      forall j: nat | 0 <= j < |all| ensures all[j] !in met { assert HostAt([r], 0, j, all[j]); }
      forall j: nat, m: nat | 0 <= j < m < |all| ensures all[j] != all[m] {
        assert HostAt([r], 0, j, all[j]) && HostAt([r], 0, m, all[m]);
      }
    }
  }

  lemma HostsCons(r: IngressRoute, rest: seq<IngressRoute>, met: set<string>)
    ensures HostsClear([r] + rest, met) && HostsApart([r] + rest) <==>
              && HostsClear([r], met) && HostsApart([r])
              && HostsClear(rest, met + HostSet(r)) && HostsApart(rest)
  {
    var all := [r] + rest;
    OwnHosts(r, met);
    forall i: nat, j: nat, h
      ensures HostAt(rest, i, j, h) <==> HostAt(all, i + 1, j, h)
      ensures HostAt([r], i, j, h) <==> i == 0 && HostAt(all, 0, j, h)
    {
    }
    if HostsClear(all, met) && HostsApart(all) { HostsUncons(r, rest, met); }
    if HostsClear([r], met) && HostsApart([r]) && HostsClear(rest, met + HostSet(r)) && HostsApart(rest) {
      HostsJoin(r, rest, met);
    }
  }

  lemma HostsUncons(r: IngressRoute, rest: seq<IngressRoute>, met: set<string>)
    requires HostsClear([r] + rest, met) && HostsApart([r] + rest)
    requires forall i: nat, j: nat, h :: HostAt(rest, i, j, h) <==> HostAt([r] + rest, i + 1, j, h)
    requires forall i: nat, j: nat, h :: HostAt([r], i, j, h) <==> i == 0 && HostAt([r] + rest, 0, j, h)
    requires forall h :: h in HostSet(r) <==> exists j :: HostAt([r], 0, j, h)
    ensures HostsClear([r], met) && HostsApart([r])
    ensures HostsClear(rest, met + HostSet(r)) && HostsApart(rest)
  {
    forall i: nat, j: nat, h | HostAt(rest, i, j, h) ensures h !in met + HostSet(r) {
      assert HostAt([r] + rest, i + 1, j, h);
      forall m: nat ensures !HostAt([r], 0, m, h) { assert !HostAt([r] + rest, 0, m, h); }
    }
    forall i: nat, j: nat, k: nat, m: nat, h | HostAt(rest, i, j, h) && HostAt(rest, k, m, h) ensures i == k && j == m {
      assert HostAt([r] + rest, i + 1, j, h) && HostAt([r] + rest, k + 1, m, h);
    }
  }

  lemma HostsJoin(r: IngressRoute, rest: seq<IngressRoute>, met: set<string>)
    requires HostsClear([r], met) && HostsApart([r])
    requires HostsClear(rest, met + HostSet(r)) && HostsApart(rest)
    requires forall h :: h in HostSet(r) <==> exists j :: HostAt([r], 0, j, h)
    ensures HostsClear([r] + rest, met) && HostsApart([r] + rest)
  {
    var all := [r] + rest;
    forall i: nat, j: nat, h | HostAt(all, i, j, h)
      ensures if i == 0 then HostAt([r], 0, j, h) else HostAt(rest, i - 1, j, h)
    {
    }
    forall i: nat, j: nat, h | HostAt(rest, i, j, h) ensures forall m: nat :: !HostAt([r], 0, m, h) {
      assert h !in HostSet(r);
    }
    forall i: nat, j: nat, k: nat, m: nat, h | HostAt(all, i, j, h) && HostAt(all, k, m, h) ensures i == k && j == m {
    }
  }

  lemma NamesCons(r: IngressRoute, rest: seq<IngressRoute>, met: set<string>)
    ensures NamesClear([r] + rest, met) <==> r.name !in met && NamesClear(rest, met + {r.name})
  {
    var all := [r] + rest;
    assert all[0] == r && forall i :: 0 <= i < |rest| ==> all[i+1] == rest[i];
    if NamesClear(all, met) {
      assert all[0].name !in met;
      forall i, j | 0 <= i < j < |rest| ensures rest[i].name != rest[j].name { assert all[i+1].name != all[j+1].name; }
      forall i | 0 <= i < |rest| ensures rest[i].name !in met + {r.name} { assert all[0].name != all[i+1].name; }
    }
  }

  /** The list read in order, with what was met so far, says this of the whole list. */
  lemma {:induction false} RoutesMeaning(routes: seq<IngressRoute>, names: set<string>, hosts: set<string>,
                                         services: seq<string>, t: Topo, net: Net)
    ensures RoutesOk(routes, names, hosts, services, t, net) <==>
              && (forall i :: 0 <= i < |routes| ==> RouteOk(routes[i], services, t, net))
              && NamesClear(routes, names) && HostsClear(routes, hosts) && HostsApart(routes)
    decreases |routes|
  {
    if routes != [] {
      var r, rest := routes[0], routes[1..];
      assert routes == [r] + rest;
      RoutesMeaning(rest, names + {r.name}, hosts + HostSet(r), services, t, net);
      NamesCons(r, rest, names);
      HostsCons(r, rest, hosts);
      OwnHosts(r, hosts);
      RoutesOkCons(r, rest, services, t, net);
    }
  }

  lemma RoutesOkCons(r: IngressRoute, rest: seq<IngressRoute>, services: seq<string>, t: Topo, net: Net)
    ensures (forall i :: 0 <= i < |[r] + rest| ==> RouteOk(([r] + rest)[i], services, t, net)) <==>
              RouteOk(r, services, t, net) && forall i :: 0 <= i < |rest| ==> RouteOk(rest[i], services, t, net)
  {
    var all := [r] + rest;
    if forall i :: 0 <= i < |all| ==> RouteOk(all[i], services, t, net) {
      assert RouteOk(all[0], services, t, net);
      forall i | 0 <= i < |rest| ensures RouteOk(rest[i], services, t, net) { assert rest[i] == all[i+1]; }
    }
  }

  ghost predicate RoutesSound(env: Environment, services: seq<string>, t: Topo, net: Net) {
    && (forall r :: r in env.ingress ==> RouteSound(r, services, t, net))
    && NamesClear(env.ingress, {}) && HostsApart(env.ingress)
  }

  lemma AllRoutesMeaning(env: Environment, services: seq<string>, t: Topo, net: Net)
    requires DistinctServices(t.services)
    ensures RoutesOk(env.ingress, {}, {}, services, t, net) <==> RoutesSound(env, services, t, net)
  {
    var routes := env.ingress;
    RoutesMeaning(routes, {}, {}, services, t, net);
    if forall i :: 0 <= i < |routes| ==> RouteOk(routes[i], services, t, net) {
      forall r | r in routes ensures RouteSound(r, services, t, net) {
        var i :| 0 <= i < |routes| && routes[i] == r;
        RouteMeaning(r, services, t, net);
      }
    }
    if forall r :: r in routes ==> RouteSound(r, services, t, net) {
      forall i | 0 <= i < |routes| ensures RouteOk(routes[i], services, t, net) {
        assert routes[i] in routes;
        RouteMeaning(routes[i], services, t, net);
      }
    }
  }

  // ----- the whole environment -----

  /** The services an environment runs in the cluster: the declared ones that are not managed,
      without the vault when another key service is stated. */
  ghost predicate RunsIn(env: Environment, services: seq<string>, inCluster: seq<string>) {
    forall s :: s in inCluster <==>
      s in services && s !in env.managed && !(s == "vault" && TrimSpace(env.keyService) == "kms")
  }

  lemma WithdrawnMeaning(env: Environment, services: seq<string>, s: string)
    requires ResolveKeyService(env.keyService, services).Chosen? && s in services
    ensures s in ResolveKeyService(env.keyService, services).withdrawn <==>
              s == "vault" && TrimSpace(env.keyService) == "kms"
  {
    KeyServiceMeaning(env.keyService, services);
    assert |"kms"| == 3 && |"vault"| == 5;
  }

  lemma RunsInMeaning(env: Environment, services: seq<string>)
    requires ResolveKeyService(env.keyService, services).Chosen?
    ensures RunsIn(env, services, InCluster(env, services, ResolveKeyService(env.keyService, services).withdrawn))
  {
    var withdrawn := ResolveKeyService(env.keyService, services).withdrawn;
    InClusterMembers(env, services, withdrawn);
    forall s | s in services
      ensures s in withdrawn <==> s == "vault" && TrimSpace(env.keyService) == "kms"
    {
      WithdrawnMeaning(env, services, s);
    }
  }

  predicate KeyServiceSound(env: Environment, services: seq<string>) {
    TrimSpace(env.keyService) in {"", "kms"} || (TrimSpace(env.keyService) == "vault" && "vault" in services)
  }

  ghost predicate AllManagedSound(env: Environment, services: seq<string>, capable: bool, net: Net) {
    && (capable || env.managed == map[])
    && forall s :: s in env.managed ==>
         && s in services && !(s == "vault" && TrimSpace(env.keyService) == "kms")
         && ManagedSound(env.managed[s], net)
  }

  lemma AllManagedMeaning(env: Environment, services: seq<string>, net: Net)
    requires ResolveKeyService(env.keyService, services).Chosen?
    ensures AllManagedOk(env, services, ResolveKeyService(env.keyService, services).withdrawn, net) <==>
            AllManagedSound(env, services, true, net)
  {
    var withdrawn := ResolveKeyService(env.keyService, services).withdrawn;
    forall s | s in env.managed
      ensures ManagedOk(s, env.managed[s], services, withdrawn, net) <==>
                && s in services && !(s == "vault" && TrimSpace(env.keyService) == "kms")
                && ManagedSound(env.managed[s], net)
    {
      ManagedMeaning(s, env.managed[s], services, withdrawn, net);
      if s in services { WithdrawnMeaning(env, services, s); }
    }
  }

  /** An environment is planned exactly when its key service is known, its managed services and
      its ingress routes are sound, and its dependencies have a way out. */
  lemma PlansIff(env: Environment, services: seq<string>, t: Topo, capable: bool, net: Net)
    requires DistinctServices(t.services)
    ensures Plannable(env, services, t, capable, net) <==>
              && KeyServiceSound(env, services) && AllManagedSound(env, services, capable, net) && WaysOut(env, t)
              && exists inCluster :: RunsIn(env, services, inCluster) && RoutesSound(env, inCluster, t, net)
  {
    KeyServiceMeaning(env.keyService, services);
    var choice := ResolveKeyService(env.keyService, services);
    if choice.Chosen? {
      var own := InCluster(env, services, choice.withdrawn);
      RunsInMeaning(env, services);
      AllManagedMeaning(env, services, net);
      if AllManagedOk(env, services, choice.withdrawn, net) { WaysOutMeaning(env, services, choice.withdrawn, t, net); }
      AllRoutesMeaning(env, own, t, net);
      forall inCluster | RunsIn(env, services, inCluster)
        ensures RoutesSound(env, inCluster, t, net) <==> RoutesSound(env, own, t, net)
      {
        SameInventory(env, inCluster, own, t, net);
      }
    }
  }

  lemma SameInventory(env: Environment, a: seq<string>, b: seq<string>, t: Topo, net: Net)
    requires forall s :: s in a <==> s in b
    ensures RoutesSound(env, a, t, net) <==> RoutesSound(env, b, t, net)
  {
    forall r ensures RouteSound(r, a, t, net) <==> RouteSound(r, b, t, net) { }
  }
}
