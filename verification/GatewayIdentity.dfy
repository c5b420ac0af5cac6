/** What an upstream learns about identity and trust from a catalog-routed request, for all
    header maps: the gateway's own verdict and stamps, and nothing the caller wrote. */
module GatewayIdentity {
  import opened Text
  import opened Wrappers
  import opened Headers
  import opened HopByHop
  import opened SolutionPaths
  import opened ExtAuthz
  import opened Admission
  import opened Gateway

  // ----- the expected view -----

  /** The credential as the check reads it: Authorization is not an owned header. */
  function Presented(h: Headers): string { Join(Values(h, AUTHORIZATION), ',') }

  /** The header a granted answer puts under a name: its canonical value, or nothing. */
  function Granted(d: Decision, k: string): seq<string> {
    if d.Grant? && k in CANONICAL then [OrEmpty(LastValue(d.given, k))] else []
  }

  function First(vs: seq<string>): string { if vs == [] then "" else vs[0] }

  function InstallationUnder(ceiling: Ceiling): seq<string> { if ceiling.Holds? then [ceiling.installation] else [] }

  /** The installation stamped on a confined mint, or none. */
  function Installation(c: Config, e: Edge, r: Route, d: Decision, path: string): seq<string> {
    if r.guarded
    then InstallationUnder(CeilingFor(c, e, d, path))
    else []
  }

  /** The ceiling that the answer's own resource, organization and user come under. */
  function CeilingFor(c: Config, e: Edge, d: Decision, path: string): Ceiling {
    CeilingOf(c, e, First(Granted(d, RESOURCE)), First(Granted(d, ORG)), First(Granted(d, USER)), path)
  }

  /** Everything an upstream may be told under an owned name. */
  function Expected(c: Config, e: Edge, r: Route, d: Decision, origin: Option<string>, path: string,
                    k: string): seq<string> {
    if k == GATEWAY_TOKEN then (if Vouches(c, r) then [c.gatewayToken] else [])
    else if k == PUBLIC_ORIGIN then (if Vouches(c, r) && origin.Some? && origin.value != "" then [origin.value] else [])
    else if k == INTERNAL_TOKEN then []
    else if k == INSTALLATION then Installation(c, e, r, d, path)
    else Granted(d, k)
  }

  // ----- the steps, one owned name at a time -----

  lemma StampsApart()
    ensures GATEWAY_TOKEN != INTERNAL_TOKEN && GATEWAY_TOKEN != PUBLIC_ORIGIN && INTERNAL_TOKEN != PUBLIC_ORIGIN
    ensures INSTALLATION !in {GATEWAY_TOKEN, INTERNAL_TOKEN, PUBLIC_ORIGIN, RESOURCE}
  {
    assert |GATEWAY_TOKEN| == 23 && |INTERNAL_TOKEN| == 24 && |PUBLIC_ORIGIN| == 23 && |INSTALLATION| == 25
           && |RESOURCE| == 18;
    assert GATEWAY_TOKEN[10] == 'g' && PUBLIC_ORIGIN[10] == 'p';
  }

  lemma StampsAreNotCanonical()
    ensures GATEWAY_TOKEN !in CANONICAL && PUBLIC_ORIGIN !in CANONICAL && INTERNAL_TOKEN !in CANONICAL
            && INSTALLATION !in CANONICAL
  {
    assert forall i :: 0 <= i < |CANONICAL| ==>
                         |CANONICAL[i]| !in {23, 25} && (|CANONICAL[i]| == 24 ==> CANONICAL[i][2] != 'c');
    assert |GATEWAY_TOKEN| == 23 && |PUBLIC_ORIGIN| == 23 && |INSTALLATION| == 25 && |INTERNAL_TOKEN| == 24
           && INTERNAL_TOKEN[2] == 'c';
  }

  lemma CookieIsNotOwned()
    ensures !Owned(COOKIE) && COOKIE != CONNECTION && !Owned(AUTHORIZATION) && !GrpcName(AUTHORIZATION)
  {
    if Owned(COOKIE) { OwnedStart(COOKIE); }
    if Owned(AUTHORIZATION) { OwnedStart(AUTHORIZATION); }
    assert |AUTHORIZATION| == 13 && |GRPC_PREFIX| == 14;
  }

  /** Stripping forgets every owned name and leaves the credential. */
  lemma StripForgets(h: Headers, k: string)
    ensures Owned(k) || GrpcName(k) ==> k !in Stripped(h)
    ensures !Owned(k) && !GrpcName(k) ==> Values(Stripped(h), k) == Values(h, k)
  {
  }

  lemma InjectionAt(h: Headers, given: Answer, k: string)
    requires Owned(k)
    ensures Values(Injected(h, Rebuilt(given)), k) == Granted(Grant(given), k)
  {
    StripForgets(h, k);
    AppliedMeaning(Stripped(h), Rebuilt(given), k);
    RebuiltValue(given, k);
  }

  /** The stamps replace the three credentials and touch nothing else that is owned. */
  lemma StampAt(c: Config, r: Route, h: Headers, origin: Option<string>, k: string)
    requires Owned(k)
    ensures Values(Stamped(c, r, h, origin), k) ==
              if k == GATEWAY_TOKEN then (if Vouches(c, r) then [c.gatewayToken] else [])
              else if k == PUBLIC_ORIGIN then
                if Vouches(c, r) && origin.Some? && origin.value != "" then [origin.value] else []
              else if k == INTERNAL_TOKEN then []
              else Values(h, k)
  {
    StampsApart();
    CookieIsNotOwned();
  }

  lemma StampKeeps(c: Config, r: Route, h: Headers, origin: Option<string>, k: string)
    requires !Owned(k) && k != COOKIE
    ensures Values(Stamped(c, r, h, origin), k) == Values(h, k)
    ensures k in Stamped(c, r, h, origin) <==> k in h
  {
    StampsAreOwned();
  }

  /** From the headers handed to the proxy to the headers the upstream receives. */
  lemma ProxyAt(c: Config, e: Edge, r: Route, h: Headers, origin: Option<string>, k: string)
    requires Owned(k) && Proxied(c, e, r, h, origin).Upstream?
    ensures Values(Proxied(c, e, r, h, origin).headers, k) == Values(Stamped(c, r, h, origin), k)
  {
    var reduced := OptionsRemoved(h);
    HopNames();
    CookieIsNotOwned();
    ReducedConnection(h);
    StampKeeps(c, r, reduced, origin, CONNECTION);
    RelayKeepsOwned(Stamped(c, r, reduced, origin), k);
    OptionsRemovedAt(h, k);
    StampAt(c, r, reduced, origin, k);
    StampAt(c, r, h, origin, k);
  }

  lemma OrgAndUserAreCanonical()
    ensures ORG in CANONICAL && USER in CANONICAL && RESOURCE in CANONICAL
  {
    assert CANONICAL[0] == USER && CANONICAL[1] == ORG && CANONICAL[21] == RESOURCE;
  }

  lemma InjectedValue(h: Headers, given: Answer, k: string)
    requires k in CANONICAL
    ensures Get(Injected(h, Rebuilt(given)), k) == First(Granted(Grant(given), k))
  {
    CanonicalAreOwned();
    InjectionAt(h, given, k);
  }

  lemma MintAt(ceiling: Ceiling, h: Headers, k: string)
    requires MintUnder(ceiling, h).MintGoesOn? && INSTALLATION !in h
    ensures Values(MintUnder(ceiling, h).headers, k) ==
              if k == INSTALLATION then InstallationUnder(ceiling) else Values(h, k)
  {
  }

  lemma NoInstallationYet(h: Headers, given: Answer)
    ensures INSTALLATION !in Injected(h, Rebuilt(given))
  {
    StampsAreOwned();
    StampsAreNotCanonical();
    StripForgets(h, INSTALLATION);
    AppliedMeaning(Stripped(h), Rebuilt(given), INSTALLATION);
    RebuiltValue(given, INSTALLATION);
  }

  /** The mint confinement adds the installation and nothing else. */
  lemma ConfinementAt(c: Config, e: Edge, r: Route, h: Headers, given: Answer, path: string, k: string)
    requires Owned(k) && r.guarded && MintConfined(c, e, Injected(h, Rebuilt(given)), path).MintGoesOn?
    ensures Values(MintConfined(c, e, Injected(h, Rebuilt(given)), path).headers, k) ==
              if k == INSTALLATION then Installation(c, e, r, Grant(given), path) else Granted(Grant(given), k)
  {
    var injected := Injected(h, Rebuilt(given));
    NoInstallationYet(h, given);
    MintAt(CeilingOf(c, e, Get(injected, RESOURCE), Get(injected, ORG), Get(injected, USER), path), injected, k);
    OrgAndUserAreCanonical();
    InjectionAt(h, given, k);
    InjectedValue(h, given, RESOURCE);
    InjectedValue(h, given, ORG);
    InjectedValue(h, given, USER);
  }

  // ----- the main results -----

  /** The headers handed to the proxy, when the request gets that far. */
  lemma HandedToProxy(c: Config, w: World, e: Edge, r: Route, h: Headers, path: string, origin: Option<string>)
    returns (given: Headers)
    requires Checked(c, w, e, r, Stripped(h), path, origin).Upstream?
    ensures Checked(c, w, e, r, Stripped(h), path, origin) == Proxied(c, e, r, given, origin)
    ensures forall k :: Owned(k) ==>
              Values(given, k) ==
                if k == INSTALLATION then Installation(c, e, r, Answered(c, w, Stripped(h), path), path)
                else Granted(Answered(c, w, Stripped(h), path), k)
  {
    var s := Stripped(h);
    var d := Answered(c, w, s, path);
    match d {
      case Deny(code) =>
        given := Stripped(s);
        forall k | Owned(k) ensures Values(given, k) == [] { StripForgets(s, k); }
      case Grant(answer) =>
        if r.guarded {
          given := MintConfined(c, e, Injected(s, Rebuilt(answer)), path).headers;
          forall k | Owned(k)
            ensures Values(given, k) == if k == INSTALLATION then Installation(c, e, r, d, path) else Granted(d, k)
          {
            ConfinementAt(c, e, r, s, answer, path, k);
          }
        } else {
          given := Injected(s, Rebuilt(answer));
          StampsAreNotCanonical();
          forall k | Owned(k) ensures Values(given, k) == Granted(d, k) { InjectionAt(s, answer, k); }
        }
    }
  }

  lemma AuthorizationSurvives(h: Headers)
    ensures Values(Stripped(h - {PUBLIC_ORIGIN} - {INTERNAL_TOKEN}), AUTHORIZATION) == Values(h, AUTHORIZATION)
  {
    CookieIsNotOwned();
    StampsAreOwned();
    StripForgets(h - {PUBLIC_ORIGIN} - {INTERNAL_TOKEN}, AUTHORIZATION);
  }

  lemma CheckedIdentity(c: Config, w: World, e: Edge, r: Route, bare: Headers, path: string, origin: Option<string>,
                        k: string)
    requires Checked(c, w, e, r, Stripped(bare), path, origin).Upstream? && Owned(k)
    ensures Values(Checked(c, w, e, r, Stripped(bare), path, origin).headers, k) ==
              Expected(c, e, r, Answered(c, w, Stripped(bare), path), origin, path, k)
  {
    var given := HandedToProxy(c, w, e, r, bare, path, origin);
    StampsApart();
    ProxyAt(c, e, r, given, origin, k);
    StampAt(c, r, given, origin, k);
  }

  /** Under every owned name the upstream receives exactly the expected value: the check's
      answer to the presented credential, the gateway's credential and the trusted origin on
      accounts routes, and the installation of a confined mint. */
  lemma UpstreamIdentity(c: Config, w: World, e: Edge, r: Route, h: Headers, path: string, k: string)
    requires Served(c, w, e, Some(r), h, path).Upstream? && Owned(k)
    ensures Values(Served(c, w, e, Some(r), h, path).headers, k) ==
              Expected(c, e, r, Verdict(c, w, Presented(h), PlaceOf(path)), TrustedOrigin(c, e, h), path, k)
  {
    AuthorizationSurvives(h);
    CheckedIdentity(c, w, e, r, h - {PUBLIC_ORIGIN} - {INTERNAL_TOKEN}, path, TrustedOrigin(c, e, h), k);
  }

  /** What a caller can vary without being seen: two requests that present the same
      credential, and neither or both the frontend's origin, look alike upstream under every
      owned name, whatever else their headers say. */
  lemma Noninterference(c: Config, w: World, e: Edge, r: Route, a: Headers, b: Headers, path: string, k: string)
    requires Served(c, w, e, Some(r), a, path).Upstream? && Served(c, w, e, Some(r), b, path).Upstream?
    requires Values(a, AUTHORIZATION) == Values(b, AUTHORIZATION) && TrustedOrigin(c, e, a) == TrustedOrigin(c, e, b)
    requires Owned(k)
    ensures Values(Served(c, w, e, Some(r), a, path).headers, k) == Values(Served(c, w, e, Some(r), b, path).headers, k)
  {
    UpstreamIdentity(c, w, e, r, a, path, k);
    UpstreamIdentity(c, w, e, r, b, path, k);
  }

  lemma NotGrpc(k: string)
    requires Owned(k) || k == CONNECTION || k == UPGRADE || k == TE
    ensures !GrpcName(k)
  {
    if Owned(k) { OwnedStart(k); }
    assert |k| >= |GRPC_PREFIX| ==> ToLower(k[..|GRPC_PREFIX|])[0] == Lower(k[0]);
    assert GRPC_PREFIX[0] == 'g' && CONNECTION[0] == 'c' && UPGRADE[0] == 'u' && TE[0] == 't';
  }

  lemma InjectedGrpc(h: Headers, given: Answer, k: string)
    requires GrpcName(k)
    ensures k !in Injected(h, Rebuilt(given))
  {
    CanonicalAreOwned();
    if k in CANONICAL { NotGrpc(k); }
    StripForgets(h, k);
    AppliedMeaning(Stripped(h), Rebuilt(given), k);
    RebuiltValue(given, k);
  }

  lemma StampedGrpc(c: Config, r: Route, h: Headers, origin: Option<string>, k: string)
    requires GrpcName(k) && k !in h
    ensures k !in Stamped(c, r, h, origin)
  {
    StampsAreOwned();
    NotGrpc(GATEWAY_TOKEN);
    NotGrpc(PUBLIC_ORIGIN);
  }

  lemma RelayedGrpc(h: Headers, k: string)
    requires GrpcName(k) && k !in h && Relayed(h).Some?
    ensures k !in Relayed(h).value
  {
    NotGrpc(CONNECTION);
    NotGrpc(UPGRADE);
    NotGrpc(TE);
  }

  lemma ProxiedGrpc(c: Config, e: Edge, r: Route, h: Headers, origin: Option<string>, k: string)
    requires GrpcName(k) && k !in h && Proxied(c, e, r, h, origin).Upstream?
    ensures k !in Proxied(c, e, r, h, origin).headers
  {
    NotGrpc(CONNECTION);
    OptionsRemovedAt(h, k);
    StampedGrpc(c, r, OptionsRemoved(h), origin, k);
    RelayedGrpc(Stamped(c, r, OptionsRemoved(h), origin), k);
  }

  lemma MintGrpc(ceiling: Ceiling, h: Headers, k: string)
    requires GrpcName(k) && k !in h && MintUnder(ceiling, h).MintGoesOn?
    ensures k !in MintUnder(ceiling, h).headers
  {
    StampsAreOwned();
    NotGrpc(INSTALLATION);
  }

  lemma CheckedGrpc(c: Config, w: World, e: Edge, r: Route, h: Headers, path: string, origin: Option<string>, k: string)
    requires GrpcName(k) && Checked(c, w, e, r, h, path, origin).Upstream?
    ensures k !in Checked(c, w, e, r, h, path, origin).headers
  {
    StripForgets(h, k);
    match Answered(c, w, h, path) {
      case Deny(_) => ProxiedGrpc(c, e, r, Stripped(h), origin, k);
      case Grant(given) =>
        var injected := Injected(h, Rebuilt(given));
        InjectedGrpc(h, given, k);
        if r.guarded {
          var ceiling := CeilingOf(c, e, Get(injected, RESOURCE), Get(injected, ORG), Get(injected, USER), path);
          MintGrpc(ceiling, injected, k);
          ProxiedGrpc(c, e, r, MintConfined(c, e, injected, path).headers, origin, k);
        } else {
          ProxiedGrpc(c, e, r, injected, origin, k);
        }
    }
  }

  /** No grpc-metadata- name reaches an upstream, so identity has one spelling there. */
  lemma NoGrpcNames(c: Config, w: World, e: Edge, r: Route, h: Headers, path: string, k: string)
    requires Served(c, w, e, Some(r), h, path).Upstream? && GrpcName(k)
    ensures k !in Served(c, w, e, Some(r), h, path).headers
  {
    CheckedGrpc(c, w, e, r, Stripped(h - {PUBLIC_ORIGIN} - {INTERNAL_TOKEN}), path, TrustedOrigin(c, e, h), k);
  }

  lemma AnsweredIsVerdict(c: Config, w: World, h: Headers, path: string)
    ensures var bare := Stripped(h - {PUBLIC_ORIGIN} - {INTERNAL_TOKEN});
            Answered(c, w, bare, path) == Verdict(c, w, Presented(h), PlaceOf(path))
  {
    AuthorizationSurvives(h);
  }

  lemma ServedShape(c: Config, w: World, e: Edge, r: Route, h: Headers, path: string)
    requires Served(c, w, e, Some(r), h, path).Upstream?
    ensures Checked(c, w, e, r, Stripped(h - {PUBLIC_ORIGIN} - {INTERNAL_TOKEN}), path, TrustedOrigin(c, e, h))
         == Served(c, w, e, Some(r), h, path)
  {
  }

  lemma SameFirst(a: Headers, b: Headers, k: string)
    requires Values(a, k) == Values(b, k)
    ensures Get(a, k) == Get(b, k)
  {
    GetIsFirst(a, k);
    GetIsFirst(b, k);
  }

  /** The upstream is reached through the check, which reads the credential the caller sent. */
  lemma ServedIsChecked(c: Config, w: World, e: Edge, r: Route, h: Headers, path: string)
    requires Served(c, w, e, Some(r), h, path).Upstream?
    ensures var bare := Stripped(h - {PUBLIC_ORIGIN} - {INTERNAL_TOKEN});
            && Checked(c, w, e, r, bare, path, TrustedOrigin(c, e, h)) == Served(c, w, e, Some(r), h, path)
            && Answered(c, w, bare, path) == Verdict(c, w, Presented(h), PlaceOf(path))
            && Get(bare, AUTHORIZATION) == Get(h, AUTHORIZATION)
  {
    ServedShape(c, w, e, r, h, path);
    AnsweredIsVerdict(c, w, h, path);
    AuthorizationSurvives(h);
    SameFirst(Stripped(h - {PUBLIC_ORIGIN} - {INTERNAL_TOKEN}), h, AUTHORIZATION);
  }

  lemma GetIsFirst(h: Headers, k: string)
    ensures Get(h, k) == First(Values(h, k))
  {
  }

  lemma CheckedReach(c: Config, w: World, e: Edge, r: Route, h: Headers, path: string, origin: Option<string>)
    requires Checked(c, w, e, r, h, path, origin).Upstream?
    ensures Answered(c, w, h, path).Grant? || (!r.guarded && Get(h, AUTHORIZATION) == "")
  {
  }

  /** A guarded route is reached only by a granted credential, and an open one with a bad
      credential is not reached at all. */
  lemma ReachedOnlyIfGranted(c: Config, w: World, e: Edge, r: Route, h: Headers, path: string)
    requires Served(c, w, e, Some(r), h, path).Upstream?
    ensures Verdict(c, w, Presented(h), PlaceOf(path)).Grant? || (!r.guarded && Get(h, AUTHORIZATION) == "")
  {
    ServedIsChecked(c, w, e, r, h, path);
    CheckedReach(c, w, e, r, Stripped(h - {PUBLIC_ORIGIN} - {INTERNAL_TOKEN}), path, TrustedOrigin(c, e, h));
  }

  /** The gateway's credential reaches accounts and no one else. */
  lemma TokenStaysWithAccounts(c: Config, w: World, e: Edge, r: Route, h: Headers, path: string)
    requires Served(c, w, e, Some(r), h, path).Upstream?
    ensures Values(Served(c, w, e, Some(r), h, path).headers, GATEWAY_TOKEN) ==
              if r.service in {"accounts", "accounts_connect"} && c.gatewayToken != "" then [c.gatewayToken] else []
  {
    StampsAreOwned();
    UpstreamIdentity(c, w, e, r, h, path, GATEWAY_TOKEN);
  }

  // ----- a resource-bound credential at the mint, end to end -----

  lemma GrantedCeiling(c: Config, w: World, e: Edge, r: Route, h: Headers, path: string, origin: Option<string>)
    requires r.guarded && Checked(c, w, e, r, h, path, origin).Upstream?
    ensures var d := Answered(c, w, h, path);
            && d.Grant?
            && !CeilingFor(c, e, d, path).Refuses?
  {
    var d := Answered(c, w, h, path);
    OrgAndUserAreCanonical();
    InjectedValue(h, d.given, RESOURCE);
    InjectedValue(h, d.given, ORG);
    InjectedValue(h, d.given, USER);
  }

  /** A token's answer carries the resource it is confined to. */
  lemma GrantedResource(c: Config, w: World, auth: string, path: string, resource: string)
    requires Verdict(c, w, auth, PlaceOf(path)).Grant? && IsMint(path) && NamedResource(c, w, auth) == Some(resource)
    ensures Granted(Verdict(c, w, auth, PlaceOf(path)), RESOURCE) == [resource]
  {
    var token := auth[|BEARER|..];
    BearerPrefixes(auth);
    OrgAndUserAreCanonical();
    TokenAdmission(c, w, token, path);
    ForwardedResource(w.parse(token).claims, resource);
    RebuiltValue(ClaimHeaders(w.parse(token).claims, resource), RESOURCE);
  }

  lemma ExpectedAtMint(c: Config, e: Edge, r: Route, d: Decision, origin: Option<string>, path: string)
    requires r.guarded
    ensures Expected(c, e, r, d, origin, path, RESOURCE) == Granted(d, RESOURCE)
    ensures Expected(c, e, r, d, origin, path, INSTALLATION) ==
              InstallationUnder(CeilingFor(c, e, d, path))
  {
    StampsApart();
    StampsAreNotCanonical();
    OrgAndUserAreCanonical();
  }

  lemma HeldAt(e: Edge, id: Option<string>, org: string, user: string)
    requires !CeilingAt(e, true, id, org, user).Refuses?
    ensures id.Some? && e.consumer(id.value, org, user).Installed?
    ensures var i := e.consumer(id.value, org, user).installation;
            i != "" && CeilingAt(e, true, id, org, user) == Holds(i)
  {
  }

  lemma HeldCeiling(c: Config, e: Edge, resource: string, org: string, user: string, path: string)
    returns (id: string, installation: string)
    requires resource != "" && IsMint(path) && !CeilingOf(c, e, resource, org, user, path).Refuses?
    ensures resource == McpResource(c.publicBase, id) && installation != ""
    ensures e.consumer(id, org, user) == Installed(installation)
    ensures CeilingOf(c, e, resource, org, user, path) == Holds(installation)
  {
    var found := IdFromResource(resource, c.publicBase);
    HeldAt(e, found, org, user);
    id := found.value;
    ResourceRoundTrip(resource, c.publicBase, id);
    installation := e.consumer(id, org, user).installation;
  }

  lemma ServedCeiling(c: Config, w: World, e: Edge, r: Route, h: Headers, path: string)
    requires r.guarded && Served(c, w, e, Some(r), h, path).Upstream?
    ensures var d := Verdict(c, w, Presented(h), PlaceOf(path)); d.Grant? && !CeilingFor(c, e, d, path).Refuses?
  {
    ServedIsChecked(c, w, e, r, h, path);
    GrantedCeiling(c, w, e, r, Stripped(h - {PUBLIC_ORIGIN} - {INTERNAL_TOKEN}), path, TrustedOrigin(c, e, h));
  }

  lemma MintIdentity(c: Config, w: World, e: Edge, r: Route, h: Headers, path: string)
    requires r.guarded && Served(c, w, e, Some(r), h, path).Upstream?
    ensures var out, d := Served(c, w, e, Some(r), h, path).headers, Verdict(c, w, Presented(h), PlaceOf(path));
            && Values(out, RESOURCE) == Granted(d, RESOURCE)
            && Values(out, INSTALLATION) == InstallationUnder(CeilingFor(c, e, d, path))
  {
    StampsAreOwned();
    UpstreamIdentity(c, w, e, r, h, path, RESOURCE);
    UpstreamIdentity(c, w, e, r, h, path, INSTALLATION);
    ExpectedAtMint(c, e, r, Verdict(c, w, Presented(h), PlaceOf(path)), TrustedOrigin(c, e, h), path);
  }

  /** When a resource-bound credential reaches the guarded mint, accounts is told exactly that
      resource and the one installation the named solution has for this person. */
  lemma ConfinedMintIsHeld(c: Config, w: World, e: Edge, r: Route, h: Headers, path: string, resource: string)
    returns (id: string, installation: string)
    requires Served(c, w, e, Some(r), h, path).Upstream? && r.guarded && IsMint(path)
    requires NamedResource(c, w, Presented(h)) == Some(resource) && resource != ""
    ensures var out, d := Served(c, w, e, Some(r), h, path).headers, Verdict(c, w, Presented(h), PlaceOf(path));
            && resource == McpResource(c.publicBase, id)
            && e.consumer(id, First(Granted(d, ORG)), First(Granted(d, USER))) == Installed(installation)
            && Values(out, RESOURCE) == [resource] && Values(out, INSTALLATION) == [installation]
  {
    var d := Verdict(c, w, Presented(h), PlaceOf(path));
    ServedCeiling(c, w, e, r, h, path);
    GrantedResource(c, w, Presented(h), path, resource);
    id, installation := HeldCeiling(c, e, resource, First(Granted(d, ORG)), First(Granted(d, USER)), path);
    MintIdentity(c, w, e, r, h, path);
  }
}
