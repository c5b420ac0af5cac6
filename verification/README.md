# Verification of the SaaS starter's compilers and perimeter

Dafny models of the parts of the repository whose correctness is decided by code, with proofs
about them. `dafny verify dfyconfig.toml` checks everything.

| modules | what they model |
|---|---|
| `Topology`, `TopologyRules`, `ManagedServices`, `Handoffs`, `EnvironmentPlan`, `PlanProperties`, `PlanContents`, `PlanRules` | the deployment topology, the plan of one environment, the key-service selection and the manifest rewrite |
| `NetworkPolicies`, `PolicyMeaning`, `EgressMeaning`, `PublicReach`, `Example` | the NetworkPolicy compiler and the Kubernetes meaning of what it emits, into and out of a pod |
| `MeshPolicies`, `MeshMeaning`, `MeshIdentities`, `IngressRoutes` | the L4 AuthorizationPolicies and the ingress host routes |
| `RouteRegex`, `PathTemplates`, `PlaceholderSyntax`, `RouterAgreement` | the path-template compiler, its regexes, and the gateway's own matcher |
| `Headers`, `HopByHop`, `SolutionPaths`, `ExtAuthz`, `Admission`, `TokenAnswer`, `Gateway`, `GatewayIdentity`, `GatewayForwarding`, `GatewayGates` | the identity pipeline of a catalog-routed request |
| `EventCatalog`, `EventBuild`, `CatalogOrder`, `CatalogRuns`, `CatalogNamespaces`, `SchemaVersions`, `CatalogClaims`, `CatalogRules`, `CatalogMeaning`, `PartitionKeys`, `AsyncApi`, `AsyncApiClosure`, `AsyncApiContents` | the event catalog, runs of composes, partition keys, and the AsyncAPI document |
| `SettingsFields`, `SettingsRules`, `ComposeLayers`, `FixturePaths` | settings field numbers, and the maps a compose layers over a base |
| `Patterns`, `NamePatterns`, `CleanPaths` | the name patterns as regular expressions, and canonical paths |
| `RetentionTelemetry` | the retention gauge |
| `Wrappers`, `Text`, `Ordering` | options, and strings and sorting as the Go sources use them |

Each renderer and validator is stated twice: once as the function its loops compute, and once, in
the modules named `…Meaning`, `…Rules`, `…Contents`, `…Gates`, `…Answer`, as what its output says of
its input, in terms of the input.

Code that changes things step by step is a class or a method with loops, tied to a function of
its inputs; the theorems are about those functions. Sorting is specified as any sorted permutation,
because `sort.Slice` is not stable, and Go map iteration as any order.

## Where the code differs from what it says

- `pathToRegex` replaces a private sentinel after escaping. A template that spells the sentinel
  next to a placeholder compiles to another language; `PathTemplates.RegexMeansTemplate` gives the
  exact condition and `RouterAgreement.SentinelTemplateFails` an instance.
- `isSolutionToolRequestPath` does not look at the solution id, `solutionIDFromPath` does. A tool
  path with a malformed id is therefore not held to the tool rule and admits an unbound token
  (`Admission.LawHoldsAt`, `Admission.MalformedToolPath`). The HTTP gateway answers such a path
  with 404 before it asks (gateway_solutions.go:88-92), so only a caller of the authorization
  listener sees the difference. The comment on `solutionMCPSegment` speaks of one segment without
  children; the code takes the whole subtree, and so does the model.
- `removeCallerConnectionOptions` says that it removes what the proxy would have removed. It also
  removes `TE` when Connection names it, before the proxy reads `TE: trailers` to put it back
  (`HopByHop.SameAsProxyAlone`, with the request of `HopByHop.TrailersAreLost`).
- `buildEventCatalog` says that two contributions cannot own one resource type. Namespaces may
  contain dots, so `a` and `a.b` both own `a.b.c`, and in general a namespace and its dotted
  extensions share types (`CatalogNamespaces.OwnersNest`); the duplicate check refuses such a pair
  (`CatalogNamespaces.SharedResourceRefused`).
- The network policies are exactly the declared graph on every port but the mesh's tunnel, which
  they open between all pods. Tunnelled traffic is therefore decided by the L4 mesh policies alone,
  and those admit a product of callers and ports. `MeshMeaning.TunnelIsGraphIff` says exactly when
  that is the declared graph, and `Example.TunnelAdmitsUndeclared` shows a topology where it is not.
  Once a waypoint is required, its identity stands for every caller at this layer.
- `ResolvePartition` says that a resolved key is always scoped to one tenant. Among tenant ids of one
  length it is (`PartitionKeys.KeyIsOneTenants`), and so it is for any ids when the template does not
  name the boundary; a template that names the boundary once gives two tenants with ids of different
  lengths one key (`PartitionKeys.OneBoundaryCollides`).
- The edge route and the gateway matcher read a placeholder that does not start its segment
  differently (`RouterAgreement.RoutersAgree`).

## Assumptions

- Pods, labels, peers and ports mean what the Kubernetes NetworkPolicy documentation says: default
  deny once a policy selects a pod, union of rules, and an empty peer or port list meaning all. In an
  ambient mesh traffic between service pods travels in the tunnel on port 15008 and is judged at the
  destination by the identity of whoever opened it, the waypoint's once one fronts the namespace.
  Membership of an address in a CIDR block is an arbitrary predicate; results hold for any, except
  that `PublicReach` takes an exclusion to exclude.
- Header names are lower-case ASCII, as an HTTP server delivers them up to case. `ReverseProxy`
  follows `net/http/httputil`: hop-by-hop removal, `TE: trailers`, protocol upgrades.
- Given answers, in the results for any value: IP and CIDR syntax and the instance-name pattern
  (`Net`), token parsing, revocation storage, API-key validation and URL syntax (`World`), the Work
  Context verifier, cross-origin pass, rate limiter, origin parser and solution registry (`Edge`),
  protobuf message lookup (`Sources`).

## Model

| member | source | states |
|---|---|---|
| `Topology.CheckTopology` | gitops.go:1950-2052 | the loader accepts exactly the topologies with declared, pairwise distinct services (name, Kubernetes name, app label), valid unique endpoints, resolvable dependencies and well-formed deploy jobs |
| `Topology.CheckServices` | gitops.go:1962-2014 | the per-service pass, with its three sets of names met so far, accepts exactly the pairwise distinct lists of valid services |
| `Topology.CheckEndpoints` | gitops.go:1998-2007 | an endpoint list is accepted iff it is non-empty, all ports lie in 1..65535 and no name repeats |
| `Topology.CheckDependencies` | gitops.go:2023-2042 | accepted iff every dependency names a service, at least one endpoint, and only endpoints that service has |
| `Topology.CheckJobs` | gitops.go:2060-2119 | accepted iff job names are distinct labels and each job has a command, a canonical and present catalog, and writes an endpoint its own service depends on, after a migrating target |
| `Topology.FindUnique` | gitops.go:2169-2176 | in an accepted topology, lookup by name finds that very service: it is the only one of its name |
| `Topology.SameApp` | gitops.go:1989-1997 | in an accepted topology two services with one app label are one service |
| `Topology.DependencyTarget` | gitops.go:2023-2042 | the lookups whose failure the renderers ignore cannot fail on a declared dependency |
| `EnvironmentPlan.PlanEnvironment` | gitops.go:684-718 | planning succeeds exactly on plannable environments and yields one plan, its handoff list included, whatever order the managed-service map is met in |
| `EnvironmentPlan.Draft.ValidateManagedServices` | gitops.go:814-907 | the plan filled in place: accepted iff every managed declaration is valid and reachable, and what is stored are the normalized declarations and their sorted handoffs |
| `EnvironmentPlan.Draft.KeepInCluster` | gitops.go:704-713 | the in-cluster list is the sorted list of services that are neither managed nor withdrawn |
| `EnvironmentPlan.Draft.ValidateIngressRoutes` | gitops.go:720-804 | accepted iff each route is new, public and in-cluster and each trimmed host is a DNS name never met before; the planned routes carry the resolved ports |
| `ManagedServices.CheckManaged` | gitops.go:828-899 | one managed service is accepted iff declared, not withdrawn, of a known kind, addressed, authenticated, with valid CIDRs and complete, distinct secret references |
| `EnvironmentPlan.TakeManaged` | gitops.go:828-905 | any iteration order over the declarations gives the same verdict, the same stored map and the same sorted handoff list |
| `EnvironmentPlan.TakeOne` | gitops.go:828-902 | one declaration is checked, stored normalized, and stated as one more handoff |
| `Handoffs.BuildHandoff` | gitops.go:870-901 | the handoff states the stored values, the mode only when it is not the default, and the secret names in order |
| `Handoffs.SortHandoffs` | gitops.go:903-905 | whatever order they were appended in and whatever the unstable sort does, one list comes out |
| `Handoffs.HandoffsUnique` | gitops.go:864-905 | a list of the handoffs of these services sorted by service is the one list, and no other is |
| `Handoffs.HandoffPerService` | gitops.go:864-905 | one handoff per managed service, strictly ascending by service, each carrying the stored declaration |
| `PlanProperties.PlanHandoffs` | gitops.go:2669-2671 | the lookup of a handoff's service in the plan never fails, and each managed service has its handoff |
| `EnvironmentPlan.TakeHosts` | gitops.go:779-800 | the hosts of one route are taken iff none was met before and none repeats, after trimming |
| `PlanProperties.PlanPartition` | gitops.go:684-718 | in every plan each declared service is in exactly one of in-cluster, managed and withdrawn, and nothing undeclared is in any |
| `PlanProperties.VaultSelectedIffPlanned` | gitops.go:994-1041 | the vault key service is selected exactly when vault is in the plan, in-cluster or managed |
| `PlanProperties.ManagedEdgeReach` | gitops.go:1103-1121 | a managed dependency is reached by a namespace or by CIDRs, never both and never neither |
| `PlanProperties.NormalizedReach` | gitops.go:1103-1164 | a validated declaration that names an egress namespace is a cell-vault and has no CIDRs; the stored mode is one of two |
| `PlanProperties.EdgeHasDestination` | gitops.go:2312-2347 | every declared dependency has exactly one destination in every plan |
| `PlanProperties.CompositionSelectsVault` | gitops.go:1057-1080 | the loop over environments returns the first error or the first vault selection, and the inventory when nothing was asked |
| `PlanProperties.CompositionHoldsVault` | gitops.go:1057-1080 | with at least one environment the composition selects the vault exactly when some environment's plan holds one |
| `PlanProperties.FilterInPlace` | main.go:471-498 | the Content[:0] filter, run over one array while it is read, leaves exactly the kept nodes in order |
| `PlanProperties.VaultGroupFollowsPlans` | main.go:284-290 | in a rewritten manifest the vault group keeps its multiplicity when some plan holds a vault and is gone otherwise; every other group is untouched |
| `PlanProperties.KeptDependenciesLoad` | main.go:471-485 | among named dependencies inside the module the rewrite keeps, as often as stated, exactly those the topology loader's lookup accepts |
| `NetworkPolicies.TopologyNetworkPolicies` | gitops.go:2201-2431 | the rendered list is the baseline, the edge policies in order, then bootstrap, job, ingress and public egress policies; or the missing-handoff error |
| `NetworkPolicies.RenderEdges` | gitops.go:2312-2347 | each edge adds an ingress/egress pair, one managed egress, or nothing when withdrawn; a caller gets at most one token policy |
| `NetworkPolicies.CollectEdges` | gitops.go:2286-2311 | one edge per dependency of each in-cluster caller, with the ports of its endpoints |
| `PolicyMeaning.Classify` | gitops.go:2201-2431 | every rendered policy comes from the baseline or from one declared edge, bootstrap job, deploy job, route or egress port |
| `PolicyMeaning.PlansArePrepared` | gitops.go:684-718 | every plan of a validated topology gives the renderers all that they take for granted |
| `PolicyMeaning.RenderingSucceeds` | gitops.go:2328-2331 | the missing-handoff error is unreachable for validated topologies and plans |
| `PolicyMeaning.AdmittedWasDeclared` | gitops.go:2433-2540 | soundness: whatever one rendered policy lets into a service pod was declared |
| `PolicyMeaning.DeclaredIsAdmitted` | gitops.go:2433-2540 | completeness: every declaration is rendered as a policy that lets it in and one that lets it out |
| `PolicyMeaning.IngressMeansDeclarations` | gitops.go:2201-2431 | under Kubernetes meaning, any pod at all may open a TCP or UDP port other than the tunnel's on a service pod iff an edge, a bootstrap job, a deploy job or a route declares it |
| `PolicyMeaning.PoliciesMeanDeclarations` | gitops.go:2201-2431 | the same for both directions of enforcement together, between two pods of the namespace |
| `PolicyMeaning.ServicePodsFollowGraph` | gitops.go:2201-2347 | for every plannable environment the network policies let a pod of one service open a port of another, the tunnel's apart, iff the first declares a dependency on the second through an endpoint bound to that port and both are in-cluster |
| `PolicyMeaning.BootstrapPodsReachTheirService` | gitops.go:2348-2369 | a bootstrap job's pod reaches its own service's bootstrap endpoints and no other service |
| `PolicyMeaning.JobPodsReachWhatTheyWrite` | gitops.go:2374-2387 | a deploy job's pod reaches exactly the endpoint it declares to write |
| `PolicyMeaning.NoUnboundedRule` | gitops.go:2433-2660 | no rendered rule has an empty peer or port list (which Kubernetes reads as everyone), save the ambient tunnel |
| `Example.OneWay` | gitops.go:2286-2347 | an example: a two-service topology is planned and rendered, and its one edge is open in one direction on one port |
| `EgressMeaning.EgressMeansDeclarations` | gitops.go:2201-2431 | a service pod may open a connection, to any destination on any port, iff it is the tunnel, DNS, the control plane, a declared edge, a managed dependency at its place and port, the token endpoint of a caller that needs it, or a declared public port |
| `EgressMeaning.ReleasedWasDeclared` | gitops.go:2542-2660 | soundness: whatever one rendered policy lets out of a service pod was declared |
| `EgressMeaning.TokenStays` | gitops.go:2312-2346 | a caller with several external-identity dependencies has its token policy, from the first of them |
| `EgressMeaning.WithdrawnOpensNothing` | gitops.go:2321-2327 | a service whose dependencies are all withdrawn, and that asks for no public port, reaches only what every pod reaches |
| `MeshPolicies.InternalAuthorizationPolicies` | gitops.go:1668-1760 | one L4 policy per target with a declared port, sorted by target, principals strictly sorted, from the collected tables |
| `MeshPolicies.CollectCallers` | gitops.go:1622-1666 | the caller table holds one principal per in-cluster dependency and per bootstrapping service |
| `MeshPolicies.CollectPorts` | gitops.go:1674-1707 | the port table holds the ports of in-cluster dependencies and of bootstrap endpoints |
| `MeshPolicies.PortAllowPrincipals` | gitops.go:1762-1772 | the callers plus the waypoint, sorted, without duplicates |
| `MeshPolicies.Compact` | gitops.go:1769-1771 | compaction of a sorted list is strictly sorted and keeps the members |
| `MeshPolicies.RequiresWaypoint` | gitops.go:1866-1885 | true iff some in-cluster service has internal methods or internal routes |
| `MeshPolicies.PolicyIsExact` | gitops.go:1668-1760 | a target's principals are exactly its in-cluster callers, itself when it bootstraps, and the waypoint when required; its ports exactly the declared ones; neither is empty |
| `MeshMeaning.GatewayAuthorizationPolicies` | gitops.go:1452-1494 | one policy per routed service, sorted, admitting the ingress gateway's principal on the routed ports |
| `MeshMeaning.AuthorizationPolicies` | gitops.go:1421-1494 | the internal policies followed by the gateway's |
| `MeshMeaning.MeshMeansProducts` | gitops.go:1421-1494 | the mesh admits to a service exactly its declared principals on its declared ports, whoever declared which, and the gateway on its routed ports |
| `MeshMeaning.MeshAdmitsEdges` | gitops.go:1622-1666 | every declared in-cluster edge is admitted |
| `MeshMeaning.MeshAdmitsJobs` | gitops.go:2054-2059 | a running deploy job writes over an edge the mesh already admits for its service |
| `MeshMeaning.TunnelIsOpen` | gitops.go:2255-2273 | between any two pods of the namespace the network policies admit the tunnel, so they decide nothing about tunnelled traffic |
| `MeshMeaning.TunnelledMeansProduct` | gitops.go:1717-1727 | a tunnelled connection, judged by the identity the destination sees (the waypoint's once one is required), is admitted iff the caller is recognized and the port declared |
| `MeshMeaning.TunnelIsGraphIff` | gitops.go:1668-1760 | tunnelled traffic is exactly the declared edges iff every in-cluster caller a target recognizes declares every port declared for that target |
| `MeshMeaning.PrincipalNamespace` | gitops.go:1611-1613 | a principal determines its namespace, so no service is taken for the gateway |
| `Example.TunnelAdmitsUndeclared` | gitops.go:1668-1760 | two callers and two ports: one caller is admitted on the port only the other declares |
| `MeshPolicies.PrincipalInjective` | gitops.go:1611-1613 | within a namespace a principal determines the service account |
| `IngressRoutes.RenderIngress` | gitops.go:1496-1538 | the host routes and the sorted, de-duplicated Gateway hosts |
| `IngressRoutes.CollectRoutes` | gitops.go:1512-1537 | each new host once, in the order met, and one route per planned route with a regex per host |
| `IngressRoutes.RegexMeansHost` | gitops.go:1525 | for every host string the emitted regex matches exactly that host with an optional numeric port |
| `IngressRoutes.AtMostOneRoute` | gitops.go:1515-1536 | no authority is taken by two routes of a planned environment |
| `IngressRoutes.RoutedIffGatewayHost` | gitops.go:1512-1537 | some route takes an authority iff it is a Gateway host with an optional port |
| `IngressRoutes.NeverAnyHost` | gitops.go:1496-1510 | no planned environment reaches the wildcard branch; its hosts are present, colon-free and never shared |
| `IngressRoutes.RouteLeadsToItsService` | gitops.go:1528-1536 | an authority of a planned host is taken by that host's route alone and goes to its service |
| `IngressRoutes.HostHasNoColon` | gitops.go:1192-1203 | a validated host holds no colon, so the port suffix is unambiguous |
| `PathTemplates.PathToRegex` | module/services/auth-gateway/code/envoy.go:230-251 | the loop emits the anchored join of the segment regexes |
| `PathTemplates.SegmentToRegex` | module/services/auth-gateway/code/envoy.go:234-248 | the three cases of one segment |
| `PathTemplates.RegexEscapeLiteral` | module/services/auth-gateway/code/envoy.go:254-266 | escapes character by character |
| `PathTemplates.RegexForParses` | module/services/auth-gateway/code/envoy.go:230-251 | whatever the template, the emitted string parses as a regex of literals and `[^/]+` |
| `PathTemplates.RegexMeansTemplate` | module/services/auth-gateway/code/envoy.go:230-251 | regex and template denote the same paths iff no segment mixes a placeholder with text that reads as the internal sentinel |
| `PathTemplates.SentinelDecides` | module/services/auth-gateway/code/envoy.go:240-244 | for a mixed segment, the replaced text equals the intended tokens iff it carries no sentinel text |
| `PathTemplates.IntendedMeaning` | module/services/auth-gateway/code/envoy.go:226-229 | the reference meaning: as many segments, each placeholder non-empty and slash-free, the rest literal |
| `RouteRegex.LanguageDeterminesTokens` | module/services/auth-gateway/code/envoy.go:230-251 | two such regexes accept the same strings only if they are the same token list |
| `RouterAgreement.RouteMeansTemplate` | module/services/auth-gateway/code/envoy.go:433-447 | the route, regex or exact path, matches exactly the template's paths, under the same condition |
| `RouterAgreement.SentinelTemplateFails` | module/services/auth-gateway/code/envoy.go:240-244 | a concrete template on which the regex and the template differ |
| `RouterAgreement.MatchSegments` | module/services/auth-gateway/code/routing.go:297-313 | the loop accepts exactly the equally long lists whose segments fit one by one |
| `RouterAgreement.MatchPath` | module/services/auth-gateway/code/routing.go:297-313 | so the gateway accepts exactly the paths of the template as it reads it |
| `RouterAgreement.RoutersAgree` | module/services/auth-gateway/code/routing.go:297-329 | the edge route and the gateway matcher accept the same paths iff every segment is plain text or one leading placeholder with a plain suffix |
| `RouterAgreement.RoutersDisagreeExample` | module/services/auth-gateway/code/routing.go:320-329 | a template (a placeholder after literal text) on which they differ |
| `Headers.Stripped` | module/services/auth-gateway/code/gateway.go:846-855 | stripping removes exactly the owned names and the grpc-metadata- names |
| `Headers.DeleteGrpc` | module/services/auth-gateway/code/gateway.go:850-854 | deletion while ranging, in any order |
| `Headers.RemoveConnectionOptions` | module/services/auth-gateway/code/gateway.go:650-669 | the in-place loops remove exactly the named headers that are not owned and leave Connection naming Upgrade or nothing |
| `Headers.IsGatewayOwnedHeader` | module/services/auth-gateway/code/gateway.go:674-681 | case-insensitive membership in the owned list |
| `Headers.AppliedMeaning` | module/services/auth-gateway/code/gateway.go:771-781 | after injection a name carries the last value given for it, or what it had |
| `Headers.CanonicalAreOwned` | module/services/auth-gateway/code/ext_authz.go:729-747 | every header the check stamps is one the gateway strips |
| `HopByHop.OwnedSurvive` | module/services/auth-gateway/code/gateway.go:633-669 | no Connection value removes an owned header from the relayed request |
| `HopByHop.SameAsProxyAlone` | module/services/auth-gateway/code/gateway.go:644-647 | removal followed by the proxy equals the proxy alone on every other header iff Connection does not name TE while TE asks for trailers |
| `HopByHop.TrailersAreLost` | module/services/auth-gateway/code/gateway.go:644-647 | a request with `TE: trailers` named in Connection, on which the two differ |
| `HopByHop.ProxyAloneRemovesOwned` | module/services/auth-gateway/code/gateway.go:636-642 | without the removal a caller could name an owned header away |
| `Gateway.Request.StripAllIdentityHeaders` | module/services/auth-gateway/code/gateway.go:846-855 | the new header map, in place |
| `Gateway.Request.InjectHeaders` | module/services/auth-gateway/code/gateway.go:771-781 | the new header map: stripped, then the answer |
| `Gateway.Request.TrustFrontendOrigin` | module/services/auth-gateway/code/gateway.go:685-700 | both credentials are consumed; the origin is kept only beside an accepted token |
| `Gateway.Request.ConfineMint` | module/services/auth-gateway/code/gateway_solutions.go:583-646 | refuses, passes or stamps the installation, and changes nothing else |
| `Gateway.Request.ProxyTo` | module/services/auth-gateway/code/gateway.go:428-544 | limits, removes options, stamps and relays |
| `Gateway.Request.CheckThenProxy` | module/services/auth-gateway/code/gateway.go:317-392 | public and required dispatch |
| `Gateway.Request.Serve` | module/services/auth-gateway/code/gateway.go:253-425 | the outcome of a catalog-routed request as a function of its header map |
| `GatewayIdentity.UpstreamIdentity` | module/services/auth-gateway/code/gateway.go:307-419 | under every owned name the upstream receives exactly the check's answer and the gateway's stamps |
| `GatewayIdentity.Noninterference` | module/services/auth-gateway/code/gateway.go:841-902 | two requests with one credential and one trusted origin look alike upstream under every owned name, whatever their other headers and Connection options say |
| `GatewayIdentity.NoGrpcNames` | module/services/auth-gateway/code/gateway.go:857-865 | no grpc-metadata- name reaches an upstream |
| `GatewayIdentity.ReachedOnlyIfGranted` | module/services/auth-gateway/code/gateway.go:317-392 | an upstream is reached only with a granted credential, or with none on a public route |
| `GatewayIdentity.TokenStaysWithAccounts` | module/services/auth-gateway/code/gateway.go:486-498 | the gateway credential reaches accounts routes and no others |
| `GatewayIdentity.ConfinedMintIsHeld` | module/services/auth-gateway/code/gateway_solutions.go:583-646 | a resource-bound credential reaches the mint only with exactly its resource and the installation its solution has for this person |
| `GatewayForwarding.CallersHeadersPass` | module/services/auth-gateway/code/gateway.go:644-647 | the upstream sees every other end-to-end header of the caller exactly as sent, unless Connection names it |
| `GatewayForwarding.GrantedIsForwarded` | module/services/auth-gateway/code/gateway.go:307-425 | with the outer gates open a granted request is forwarded iff its upgrade is printable and, on a guarded route, the confinement of the mint does not refuse it |
| `GatewayForwarding.ConfinedMintForwarded` | module/services/auth-gateway/code/gateway_solutions.go:583-646 | a resource-bound mint is forwarded iff the solution its resource names is installed for this person, under a real installation |
| `GatewayForwarding.ClaimedIdentityIsReplaced` | module/services/auth-gateway/code/gateway.go:304-307 | an example: a caller claiming another user is forwarded as the user its credential names |
| `SolutionPaths.ResourceRoundTrip` | module/services/auth-gateway/code/gateway_mcp_resource.go:327-343 | reading an identifier back inverts composing it and accepts nothing else |
| `SolutionPaths.ResourceInjective` | module/services/auth-gateway/code/gateway_mcp_resource.go:200-203 | one identifier names one solution |
| `SolutionPaths.MintIsNoSolution` | module/services/auth-gateway/code/gateway_mcp_resource.go:142-145 | the mint path is neither a solution path nor a tool path |
| `SolutionPaths.SolutionPathShape` | module/services/auth-gateway/code/gateway_mcp_resource.go:78-86 | on `/solutions/<id>/<sub>` the tool test looks at the sub-path only and the solution test at the id |
| `ExtAuthz.Check` | module/services/auth-gateway/code/ext_authz.go:182-227 | the whole decision, as the specified verdict |
| `ExtAuthz.CheckJwt` | module/services/auth-gateway/code/ext_authz.go:253-551 | the decision on a token |
| `ExtAuthz.CheckResource` | module/services/auth-gateway/code/ext_authz.go:364-476 | the confinement branches agree with one rule on binding and path |
| `ExtAuthz.CheckRevocation` | module/services/auth-gateway/code/ext_authz.go:307-362 | the first lookup that blocks decides, in the order token, session, family |
| `ExtAuthz.CheckApiKey` | module/services/auth-gateway/code/ext_authz.go:644-679 | refused without a gateway credential, on failure, when invalid, or when a scope holds the separator |
| `ExtAuthz.Allow` | module/services/auth-gateway/code/ext_authz.go:683-727 | the answer names every canonical header and asks to remove every other owned one |
| `ExtAuthz.ClassifyResourceAudience` | module/services/auth-gateway/code/ext_authz.go:573-594 | the loop classifies as the specification does |
| `ExtAuthz.BindingMeaning` | module/services/auth-gateway/code/ext_authz.go:568-594 | bound to r iff the audience is r once, well formed, and otherwise only the host, in any order; unbound iff it names the host alone |
| `ExtAuthz.RebuiltValue` | module/services/auth-gateway/code/ext_authz.go:683-694 | each canonical header carries the last value given for it or the empty string, and no other header is named |
| `ExtAuthz.ForwardedResource` | module/services/auth-gateway/code/ext_authz.go:489-508 | the resource header survives the rebuild and is exactly the confinement |
| `Admission.TokenAdmission` | module/services/auth-gateway/code/ext_authz.go:253-551 | a token is admitted iff it is genuine, unrevoked (or failing open) and within its confinement |
| `Admission.TokenUnavailability` | module/services/auth-gateway/code/ext_authz.go:271-362 | 503 is answered exactly for missing keys and for a failed lookup when failing closed; everything else is 401 |
| `Admission.AdmittedCases` | module/services/auth-gateway/code/ext_authz.go:364-476 | an admission is one of the three intended cases iff it is not an unbound token on a tool path with a malformed solution id |
| `Admission.LawHoldsAt` | module/services/auth-gateway/code/ext_authz.go:438-476 | at a path, the three-case law holds for all configurations and credentials iff a tool path there carries a well-formed id |
| `Admission.MalformedToolPath` | module/services/auth-gateway/code/gateway_mcp_resource.go:78-86 | a path of the failing family |
| `Admission.ToolNeedsItsResource` | module/services/auth-gateway/code/ext_authz.go:441-475 | a well-formed tool endpoint admits only a token that names that endpoint |
| `Admission.ScopesRoundTrip` | module/services/auth-gateway/code/ext_authz.go:659-673 | splitting the scopes header gives back the admitted key's scopes, except that no scopes read as one empty scope |
| `Admission.AnswerOwnsHeaders` | module/services/auth-gateway/code/ext_authz.go:704-717 | applied by Envoy, an allow leaves each owned header exactly as answered |
| `EventCatalog.MajorFromSchema` | module/tools/composition/composition_events.go:513-524 | the last version directory on the path decides |
| `EventCatalog.CheckBreakingChange` | module/tools/composition/composition_events.go:432-451 | refused iff the prior entry has the same major and some (number, type) pair of it is gone |
| `EventBuild.BuildEventCatalog` | module/tools/composition/composition_events.go:155-378 | succeeds iff the contributions are acceptable over the prior catalog, and then lists exactly what they state, in comparator order |
| `EventBuild.AddContribution` | module/tools/composition/composition_events.go:173-331 | one contribution is taken iff its rules hold and it claims no name already claimed |
| `EventBuild.AddFollow` | module/tools/composition/composition_events.go:244-298 | one followable resource, with each event claimed for it alone |
| `EventBuild.AddConsume` | module/tools/composition/composition_events.go:300-330 | one consume, claimed once per namespace, type and queue |
| `CatalogNamespaces.OwnersNest` | module/tools/composition/composition_events.go:248-264 | two namespaces can own one resource type iff one is a dotted extension of the other |
| `CatalogNamespaces.NestedNamespaces` | module/tools/composition/composition_events.go:259-264 | two namespaces that own one resource type |
| `CatalogNamespaces.SharedResourceRefused` | module/tools/composition/composition_events.go:262-264 | two contributions that declare one resource type are refused |
| `EventBuild.CheckRegistered` | module/tools/composition/composition_events.go:333-343 | every consumed type is a published one |
| `EventBuild.CheckFollowRetraction` | module/tools/composition/composition_events.go:406-427 | accepted iff every prior resource is still declared with all its events |
| `EventBuild.RetractionMeaning` | module/tools/composition/composition_events.go:406-427 | the check on lists is the order-free statement about what is stated |
| `EventBuild.AllCovered` | module/tools/composition/composition_events.go:324-328 | every catalog entry owns a claimed name, so no two entries can tie |
| `EventBuild.ConsumeLessTotal` | module/tools/composition/composition_events.go:359-371 | the consume comparator is a strict total order |
| `EventBuild.SortCatalog` | module/tools/composition/composition_events.go:358-376 | sorting permutes each list into comparator order |
| `CatalogOrder.AcceptanceIgnoresOrder` | module/tools/composition/composition_events.go:155-378 | permuting contributions, or entries inside them, changes no verdict |
| `CatalogOrder.CatalogIgnoresOrder` | module/tools/composition/composition_events.go:349-377 | and any two results, by any unstable sort, are one catalog |
| `CatalogOrder.CatalogUnique` | module/tools/composition/composition_events.go:349-377 | what is stated determines the sorted catalog |
| `Ordering.SortedUnique` | module/tools/composition/composition_events.go:349-357 | a sorted permutation is unique when ties are equal elements |
| `CatalogRuns.FollowableIndex` | module/tools/composition/composition_events.go:383-391 | the nested loops build the specified index |
| `CatalogRuns.IndexIsExact` | module/tools/composition/composition_events.go:380-391 | in a composed catalog the index maps an event to the one resource that lists it |
| `CatalogRuns.ComposedCoherent` | module/tools/composition/composition_events.go:244-298 | every composed catalog has one entry per type, one target per event, and follows only tenant-visible published events |
| `CatalogRuns.RunCoherent` | module/tools/composition/composition.go:364-401 | so has every catalog of every run |
| `CatalogRuns.FollowableForever` | module/tools/composition/composition_events.go:393-427 | over every run, an event once followable keeps its target and stays published to tenants |
| `CatalogRuns.FieldsKept` | module/tools/composition/composition_events.go:429-451 | while a type stays published at one major no (number, type) pair is lost |
| `AsyncApi.RenderAsyncApi` | module/tools/composition/composition_events.go:689-758 | a document, or a collision exactly when two different references share a component key |
| `AsyncApi.EventEnvelopeSchema` | module/tools/composition/composition_events.go:763-769 | the loop builds the schema property by property, later fields over earlier ones |
| `AsyncApi.ReferencesResolve` | module/tools/composition/composition_events.go:715-739 | each channel leads to its own message and on to the schema of its own event's fields |
| `AsyncApi.ChannelsArePublished` | module/tools/composition/composition_events.go:731-739 | there is a channel for exactly the published types |
| `AsyncApi.OperationsComplete` | module/tools/composition/composition_events.go:740-755 | one send per published type and one receive per consume: nothing lost, merged or added |
| `AsyncApiClosure.EnvelopeMeaning` | module/tools/composition/composition_events.go:763-769 | a schema has a property for exactly the field names, each typed by the last field of its name |
| `AsyncApiClosure.DocumentIsClosed` | module/tools/composition/composition_events.go:689-758 | no channel, message, send or receive of the document has a dangling reference |
| `AsyncApiClosure.NothingStray` | module/tools/composition/composition_events.go:689-758 | each channel, message, schema and operation belongs to an entry of the catalog |
| `AsyncApi.SanitizeType` | module/tools/composition/composition_events.go:796-804 | sanitizing is the identity on event types |
| `SettingsFields.ValidateSettings` | module/tools/composition/composition.go:908-948 | accepted iff well formed with distinct namespaces and names and disjoint ranges: the duplicate-number check and the 1-999 entry refuse nothing more |
| `SettingsFields.CheckSetting` | module/tools/composition/composition.go:917-943 | one setting is taken iff it is well formed, in range and apart from every setting before it |
| `SettingsFields.NumberInRange` | module/tools/composition/composition.go:933-943 | a repeated number always means overlapping ranges |
| `SettingsFields.AcceptedNumbers` | module/tools/composition/composition.go:908-948 | accepted numbers and ranges never meet each other, 1-999 or 19000-19999, nor exceed 536870911 |
| `SettingsFields.StableNumberRange` | module/tools/composition/composition.go:478-483 | in uint32 arithmetic nothing wraps and exactly 20000..536870911 is produced |
| `SettingsFields.DerivedAccepted` | module/tools/composition/composition.go:459-476 | digest-numbered settings are refused only for names or a digest collision |
| `ComposeLayers.Projection.Compose` | module/tools/composition/composition.go:317-341 | one compose over the stored maps and catalogs |
| `ComposeLayers.Projection.UpdateFrontendInstallGraph` | module/tools/composition/composition.go:679-719 | the previous contributions are withdrawn, the new ones added, a base collision refused with the map unchanged |
| `ComposeLayers.Projection.StageFixtures` | module/tools/composition/composition.go:578-590 | succeeds iff every new path is free once the managed files are gone |
| `ComposeLayers.Projection.RemoveManagedFixtureFiles` | module/tools/composition/composition.go:594-641 | removes exactly the listed files, refusing a path outside the fixtures directory |
| `ComposeLayers.AddAllMeaning` | module/tools/composition/composition.go:702-707 | additions succeed iff keys are new and distinct, and give both layers side by side |
| `ComposeLayers.ComposeIsFresh` | module/tools/composition/composition.go:538-641 | on a clean projection a compose behaves as if none had come before |
| `ComposeLayers.RunsAreIndependent` | module/tools/composition/composition.go:679-719 | a run succeeds iff each input fits the base, and ends as its last compose alone would |
| `ComposeLayers.LayersStayDisjoint` | module/tools/composition/composition.go:1079-1082 | the final maps are the base plus exactly the latest contributions, disjoint |
| `ComposeLayers.StagedPathsAreManaged` | module/tools/composition/composition.go:621-624 | every staged fixture path passes the removal check of the next compose |
| `RetentionTelemetry.Telemetry.Report` | module/services/accounts/code/retention_telemetry.go:72-96 | one report, for any iteration order |
| `RetentionTelemetry.Telemetry.ReportAll` | module/services/accounts/code/retention_telemetry.go:72-96 | any sequence of reports on a new instrument |
| `RetentionTelemetry.GaugeTellsHistory` | module/services/accounts/code/retention_telemetry.go:33-40 | the gauge reads 1 iff the last run failed the part, 0 iff only earlier runs did, and is unset iff none did |
| `TopologyRules.LoadsIff` | gitops.go:1950-2119 | a topology loads iff, said of its members and not of lookups, its services, dependencies and jobs are sound, no two share a name of any kind, and every declared service and the entry exist |
| `TopologyRules.JobMeaning` | gitops.go:2060-2119 | one deploy job: label, existing service, command, canonical local catalog, a served endpoint its own service declares, and its order after a bootstrapping target |
| `PlanRules.PlansIff` | gitops.go:684-907 | an environment is planned iff its key service is known, its managed declarations and ingress routes are sound, hosts and route names occur at one place, and its managed dependencies have a way out |
| `PlanRules.HostMeaning` | gitops.go:1192-1203 | a host is accepted iff, with or without one final dot, it is dot-separated labels, no address, and at most 253 long |
| `PlanRules.ManagedMeaning` | gitops.go:828-899 | one managed declaration: declared, not withdrawn, a listed kind, authenticated and reachable by the rule of that kind, its secrets complete and distinct |
| `PlanContents.KeyServiceMeaning` | gitops.go:994-1041 | what each stated key service selects and withdraws, or that it is refused |
| `PlanContents.StoredDeclaration` | gitops.go:864-902 | what a plan stores of a declaration, field by field |
| `PlanContents.HandoffFields` | gitops.go:870-901 | what a handoff states of it, field by field |
| `PlanContents.PlannedRoute` | gitops.go:728-804 | a planned route carries the two ports of its public endpoint and the trimmed hosts |
| `PlanContents.RouteForwardsTo` | gitops.go:1512-1537 | the rendered route goes to the service's own cluster host on the endpoint's service port, with one authority regex per declared host |
| `PlanContents.WildcardForwardsTo` | gitops.go:1496-1510 | the wildcard branch goes to the same place |
| `PlanContents.TrimMeaning` | gitops.go:774-780 | trimming takes white space off both ends and nothing else |
| `PlanContents.DependencyKept` | main.go:471-485 | which dependency nodes the rewrite keeps |
| `PlanContents.InventoryDecides` | gitops.go:1057-1080 | without environments the declared inventory selects |
| `MeshIdentities.PolicyNamesCallers` | gitops.go:1595-1666 | read part by part, the principals of a target are the accounts its in-cluster callers run as (the namespace's default when unnamed), and the waypoint's iff some in-cluster service has an internal surface |
| `MeshIdentities.PolicyNamesGateway` | gitops.go:1479-1490 | a routed service is open to the ingress gateway's account alone |
| `PlaceholderSyntax.LengthMeaning` | module/services/auth-gateway/code/envoy.go:218-219 | a segment begins with a placeholder of this length iff that part is a brace, characters that are no closing brace, and a closing brace |
| `PlaceholderSyntax.HoldsMeaning` | module/services/auth-gateway/code/envoy.go:222-224 | a text holds a placeholder iff some part of it is one |
| `PlaceholderSyntax.ParamMeaning` | module/services/auth-gateway/code/routing.go:315-329 | a segment is a parameter iff it is one placeholder |
| `GatewayForwarding.ForwardedIff` | module/services/auth-gateway/code/gateway.go:317-425 | with the outer gates open, for every verdict: forwarded iff the upgrade is printable and either a grant passes its ceiling or the route is public and nothing was presented |
| `GatewayForwarding.StoppedWithCode` | module/services/auth-gateway/code/gateway.go:333-343 | every other denial is answered with its own code |
| `GatewayForwarding.DeniedForwarded` | module/services/auth-gateway/code/gateway.go:340-343 | a call without a credential on a public route is forwarded without identity |
| `GatewayForwarding.RefusedByCeiling` | module/services/auth-gateway/code/gateway_solutions.go:583-646 | a grant that its ceiling refuses is answered with the ceiling's code |
| `GatewayGates.OuterGates` | module/services/auth-gateway/code/gateway.go:253-316 | what is answered before any credential is looked at, in order |
| `GatewayGates.ProxyGates` | module/services/auth-gateway/code/gateway.go:428-447 | the limiter and the upgrade are all that can stop a proxied request |
| `GatewayGates.CeilingCodes` | module/services/auth-gateway/code/gateway_solutions.go:583-646 | which code each failure of the mint's confinement gives |
| `GatewayGates.OriginNeedsToken` | module/services/auth-gateway/code/gateway.go:685-700 | a claimed origin counts only beside the current or previous internal token |
| `GatewayGates.OriginStaysWithAccounts` | module/services/auth-gateway/code/gateway.go:486-498 | and reaches accounts routes only, beside the gateway credential |
| `GatewayGates.SecretsNeverArrive` | module/services/auth-gateway/code/gateway.go:867-902 | no caller can hand an upstream a credential header of the platform |
| `GatewayGates.HopsEndHere` | module/services/auth-gateway/code/gateway.go:633-647 | hop-by-hop headers end at the gateway |
| `GatewayGates.CookieStaysHome` | module/services/auth-gateway/code/gateway.go:500-507 | a registered upstream never receives the cookie |
| `GatewayGates.TokensMeaning` | module/services/auth-gateway/code/gateway.go:650-669 | an option of Connection is a comma-separated part of some value, trimmed, in any case |
| `TokenAnswer.AnswerStatesClaims` | module/services/auth-gateway/code/ext_authz.go:477-549 | under every name, the answer to a token is the claim that name stands for, or nothing when the claim is absent |
| `TokenAnswer.AnswerStatesKey` | module/services/auth-gateway/code/ext_authz.go:670-678 | the same for an API key |
| `TokenAnswer.GrantStates` | module/services/auth-gateway/code/ext_authz.go:182-227 | so for every grant, whatever the credential |
| `TokenAnswer.UpstreamReadsClaims` | module/services/auth-gateway/code/gateway.go:307-419 | and the upstream of a granted request reads exactly that under each canonical name |
| `Admission.KeyAdmission` | module/services/auth-gateway/code/ext_authz.go:644-679 | a key is admitted iff the gateway has a credential, accounts confirms the key, and no scope holds the separator |
| `Admission.CredentialDecides` | module/services/auth-gateway/code/ext_authz.go:182-227 | which of the two admissions a bearer is held to, and that anything else is refused |
| `SolutionPaths.QueryIgnored` | module/services/auth-gateway/code/gateway_mcp_resource.go:78-145 | no path reader looks at a query |
| `SolutionPaths.OtherPaths` | module/services/auth-gateway/code/gateway_mcp_resource.go:78-86 | a path that does not begin with the solutions prefix is neither a tool nor a solution path |
| `SolutionPaths.MintPath` | module/services/auth-gateway/code/gateway_mcp_resource.go:142-145 | the mint is one path |
| `SchemaVersions.MajorOfPath` | module/tools/composition/composition_events.go:513-524 | the major of a schema is the number of the last version directory on its path, whatever the message |
| `SchemaVersions.MajorIsOne` | module/tools/composition/composition_events.go:513-524 | and 1 when there is none |
| `SchemaVersions.SecondVersion` | module/tools/composition/composition_events.go:513-524 | an example: a v2 path |
| `CatalogClaims.ClaimedOnceMeaning` | module/tools/composition/composition_events.go:183-331 | no name is counted twice over all contributions iff no namespace, event type, resource type, followed event or subscription is claimed at two places |
| `CatalogMeaning.AcceptanceMeaning` | module/tools/composition/composition_events.go:155-378 | a compose accepts iff each contribution obeys its rules, no name is claimed at two places, everything consumed is published, and every followable resource keeps its events |
| `CatalogMeaning.CatalogPublishes` | module/tools/composition/composition_events.go:233-242 | the published entries are exactly the declared ones, with the namespace, major and fields of each |
| `CatalogMeaning.CatalogConsumes` | module/tools/composition/composition_events.go:333-343 | the consumes are exactly the declared ones, each with its namespace as subscriber |
| `CatalogMeaning.CatalogFollows` | module/tools/composition/composition_events.go:283-297 | the followable resources are exactly the declared ones, each with its events sorted |
| `CatalogRules.PublishRules` | module/tools/composition/composition_events.go:201-232 | the rules of one published type |
| `CatalogRules.FollowRules` | module/tools/composition/composition_events.go:244-282 | the rules of one followable resource: events of the same contribution that are visible to tenants |
| `CatalogRules.ConsumeRules` | module/tools/composition/composition_events.go:300-318 | the rules of one consume |
| `CatalogRules.HeaderRules` | module/tools/composition/composition_events.go:173-193 | the rules of a contribution as a whole |
| `CatalogRules.ReservedMeaning` | module/tools/composition/composition.go:1018-1025 | a reserved namespace covers itself, what lies under it at a slash, dot or colon, and, ending in a dash, all it begins |
| `CatalogRules.BreakingMeaning` | module/tools/composition/composition_events.go:432-451 | refused iff the last prior entry of the type has this major and a field that is gone or re-typed |
| `PartitionKeys.TemplateMeaning` | module/tools/composition/composition_events.go:48-62 | a partition template is accepted iff it is empty, or resolves a tenant and names only the two known fields |
| `PartitionKeys.PlaceholderIsReplaced` | module/services/accounts/code/pkg/eventcatalog/lookup.go:171-176 | each placeholder is replaced by the field it names, wherever it stands |
| `PartitionKeys.KeyIsOneTenants` | module/services/accounts/code/pkg/eventcatalog/lookup.go:167-176 | tenants with ids of one length never share the key of an accepted template |
| `PartitionKeys.TenantsAlone` | module/services/accounts/code/pkg/eventcatalog/lookup.go:167-176 | a template without the boundary keeps tenants of any ids apart |
| `PartitionKeys.OneBoundaryCollides` | module/services/accounts/code/pkg/eventcatalog/lookup.go:167-176 | a template naming the boundary once gives one key to two tenants whose ids differ in length |
| `AsyncApiContents.PublishedStated` | module/tools/composition/composition_events.go:731-744 | a published type's channel and send operation, field by field |
| `AsyncApiContents.MessageStated` | module/tools/composition/composition_events.go:725-734 | its message, and the two references on the way to the payload schema |
| `AsyncApiContents.FollowableStated` | module/tools/composition/composition_events.go:383-391 | a channel is followable under a resource type iff a declaration in the catalog says so |
| `AsyncApiContents.ConsumedStated` | module/tools/composition/composition_events.go:747-755 | a consume's receive operation, field by field |
| `AsyncApiContents.ReceiveKeyReads` | module/tools/composition/composition_events.go:748 | the key of a receive operation reads back as its event, subscriber and queue |
| `AsyncApiContents.SingleType` | module/tools/composition/composition_events.go:776-793 | what each protobuf type becomes |
| `AsyncApiContents.RepeatedType` | module/tools/composition/composition_events.go:772-775 | a list type becomes an array of what its element type becomes |
| `AsyncApiContents.SanitizeMeaning` | module/tools/composition/composition_events.go:802-804 | sanitizing keeps letters, digits, dot, dash and underscore and replaces each other character |
| `NamePatterns.LogicalIdPattern` | module/tools/composition/composition.go:46 | the identifier predicate accepts exactly the language of its regular expression |
| `NamePatterns.EventTypePattern` | module/tools/composition/composition_events.go:26 | likewise for event types |
| `NamePatterns.ProtoNamePattern` | module/tools/composition/composition.go:50 | likewise for protobuf names |
| `NamePatterns.FieldNamePattern` | module/tools/composition/composition.go:51 | likewise for field names |
| `NamePatterns.VersionDirPattern` | module/tools/composition/composition_events.go:28 | likewise for version directories, with a number that parses |
| `NamePatterns.DnsLabelPattern` | gitops.go:26 | likewise for DNS labels, beside the length check |
| `NamePatterns.SolutionIdPattern` | module/services/auth-gateway/code/gateway_solutions.go:59-62 | likewise for solution ids |
| `NamePatterns.FixtureNamePattern` | module/tools/composition/composition.go:48 | every fixture name of its pattern is one the composes of the model take |
| `CleanPaths.SafeRelativeMeaning` | module/tools/composition/composition.go:1046-1052 | a path is safe iff it is relative, its own canonical form, without a backslash, and neither "." nor at or above the parent |
| `CleanPaths.CleanLocalMeaning` | gitops.go:2877-2886 | a catalog path is accepted iff it is local and its own canonical form, without backslash or NUL |
| `FixturePaths.ManagedPathMeaning` | module/tools/composition/composition.go:621-624 | a listed path is managed iff it is safe and lies directly in the fixtures directory |
| `FixturePaths.FixturePathReads` | module/tools/composition/composition.go:525-532 | where a contributed fixture is staged |
| `SettingsRules.FormMeaning` | module/tools/composition/composition.go:917-932 | one settings contribution, by its source patterns and the reserved namespaces |
| `SettingsRules.RangeMeaning` | module/tools/composition/composition.go:930-932 | its number lies in its range, of which every number is usable |
| `SettingsRules.AcceptedMeaning` | module/tools/composition/composition.go:908-948 | the list is accepted iff each is sound, its field name free, and no two share a namespace, a field name or a number |
| `PublicReach.PublicMeansPublic` | gitops.go:2604-2660 | with address arithmetic in which an exclusion excludes, a declared public port reaches, over TCP, exactly the addresses of either family that are neither local nor special |
| `GatewayGates.OwnedNames` | module/services/auth-gateway/code/gateway.go:867-902 | which names the gateway keeps from callers and which an answer names |
| `GatewayGates.PutBack` | module/services/auth-gateway/code/gateway.go:530-544 | what the proxy puts back behind the hop-by-hop headers: the upgrade asked for and the interest in trailers |
| `PlanContents.FirstDecides` | gitops.go:1057-1080 | the selection fails iff some environment states what cannot be had and none before it asks for the vault |
| `PlanContents.InClusterInOrder` | gitops.go:704-713 | the in-cluster list ascends |
| `CatalogMeaning.CatalogAscends` | module/tools/composition/composition_events.go:358-376 | published types and resource types ascend; consumes ascend by type, subscriber, queue and delivery |
| `Ordering.LessMeaning` | module/tools/composition/composition_events.go:358-376 | strings are compared at their first difference |
| `RetentionTelemetry.PartsMeaning` | module/services/accounts/code/retention_telemetry.go:72-96 | the parts a run fails in; a run that fails as a whole fails in one part of its own |

## Left out

- Errors: which error is returned and its text; only success, refusal, and the HTTP code where there is one.
- File system, staging, git, npm, YAML, JSON and protobuf parsing, Go formatting, digests and signatures: plumbing and foreign libraries.
- Names, labels and order of rendered Kubernetes objects beyond what selects pods; ports are sets where the source sorts a list. The objects written for a handoff, and destination rules.
- The L7 waypoint policies: their meaning depends on mesh behaviour outside the repository.
- Topology.CheckTopology: does not load internal method paths; the set of services that have some, and whether a catalog file is present, are inputs.
- Topology.CheckJobs: whether the catalog file is present is an input.
- Unicode white space and case folding: strings are ASCII where the source trims or folds.
- `X-Forwarded-For` and `User-Agent`, which the proxy adds after the steps modelled; URL rewriting.
- The revocation cache that a logout request forgets, logging and metrics of rejections.
- Solution, module and hop routes, CORS preflight: only catalog-routed requests are followed to the upstream. The `mfa_pending` branch of the dispatch is not modelled, because `authMode` yields only public and required.
- A compose that fails midway leaves staged files behind: the law of layers is about successful composes.
- ComposeLayers.Projection.Compose: takes fixture names and bodies; the copied package trees and contributed protobuf files are not followed.
- PartitionKeys.OneBoundaryCollides: templates that name the boundary more than once are covered by the equal-length result alone.
- PlanRules.PlansIff: the instance-name pattern and IP and CIDR syntax are given answers.
- Permission, role, topology-binding and plugin checks of `validate`: duplicates and grammars of the same kind as those proved.
- The frontend's external plugin dependencies appended during the manifest rewrite.
- Module resolution of environments (`classifyEnvironment`), promotion bundles and image handling.
