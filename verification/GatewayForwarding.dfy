/** What else happens to a catalog-routed request: which ones are forwarded, and what the
    upstream sees under the names the gateway does not own. */
module GatewayForwarding {
  import opened Text
  import opened Wrappers
  import opened Headers
  import opened HopByHop
  import opened SolutionPaths
  import opened ExtAuthz
  import opened Gateway
  import opened GatewayIdentity

  /** A name the caller may use: not the gateway's, under neither spelling. */
  predicate Callers(k: string) { !Owned(k) && !GrpcName(k) }

  lemma InjectionKeeps(h: Headers, given: Answer, k: string)
    requires Callers(k)
    ensures Values(Injected(h, Rebuilt(given)), k) == Values(h, k)
  {
    CanonicalAreOwned();
    StripForgets(h, k);
    AppliedMeaning(Stripped(h), Rebuilt(given), k);
    RebuiltValue(given, k);
  }

  lemma MintKeeps(ceiling: Ceiling, h: Headers, k: string)
    requires Callers(k) && MintUnder(ceiling, h).MintGoesOn?
    ensures Values(MintUnder(ceiling, h).headers, k) == Values(h, k)
  {
    StampsAreOwned();
  }

  lemma ConnectionIsCallers()
    ensures Callers(CONNECTION) && Callers(UPGRADE)
  {
    HopNames();
    NotGrpc(CONNECTION);
    NotGrpc(UPGRADE);
  }

  /** Stripping, injection and confinement leave the caller's own names as they were. */
  lemma CheckedKeeps(c: Config, w: World, e: Edge, r: Route, h: Headers, path: string, origin: Option<string>)
    returns (given: Headers)
    requires Checked(c, w, e, r, h, path, origin).Upstream?
    ensures Checked(c, w, e, r, h, path, origin) == Proxied(c, e, r, given, origin)
    ensures forall k :: Callers(k) ==> Values(given, k) == Values(h, k)
  {
    match Answered(c, w, h, path) {
      case Deny(_) =>
        given := Stripped(h);
        forall k | Callers(k) ensures Values(given, k) == Values(h, k) { StripForgets(h, k); }
      case Grant(answer) =>
        given := Injected(h, Rebuilt(answer));
        forall k | Callers(k) ensures Values(given, k) == Values(h, k) { InjectionKeeps(h, answer, k); }
        if r.guarded {
          var injected := given;
          var ceiling := CeilingOf(c, e, Get(injected, RESOURCE), Get(injected, ORG), Get(injected, USER), path);
          given := MintUnder(ceiling, injected).headers;
          forall k | Callers(k) ensures Values(given, k) == Values(h, k) { MintKeeps(ceiling, injected, k); }
        }
    }
  }

  predicate Named(h: Headers, k: string) { k in Tokens(Values(h, CONNECTION)) && k != "" }

  /** The proxy passes on a caller's end-to-end header unless Connection names it. */
  lemma ProxyPasses(c: Config, e: Edge, r: Route, h: Headers, origin: Option<string>, k: string)
    requires Proxied(c, e, r, h, origin).Upstream? && Callers(k) && k !in HOP && k != COOKIE
    ensures Values(Proxied(c, e, r, h, origin).headers, k) == if Named(h, k) then [] else Values(h, k)
  {
    var reduced := OptionsRemoved(h);
    var stamped := Stamped(c, r, reduced, origin);
    HopNames();
    CookieIsNotOwned();
    ReducedConnection(h);
    StampKeeps(c, r, reduced, origin, CONNECTION);
    StampKeeps(c, r, reduced, origin, k);
    OptionsRemovedAt(h, k);
    RelayPasses(stamped, k);
  }

  lemma RelayPasses(h: Headers, k: string)
    requires Relayed(h).Some? && Tokens(Values(h, CONNECTION)) in {[], [UPGRADE]} && k !in HOP
    ensures Values(Relayed(h).value, k) == Values(h, k)
  {
    HopNames();
  }

  /** The upstream sees every end-to-end header of the caller, the cookie apart, exactly as
      sent, unless Connection names it. */
  lemma CallersHeadersPass(c: Config, w: World, e: Edge, r: Route, h: Headers, path: string, k: string)
    requires Served(c, w, e, Some(r), h, path).Upstream? && Callers(k) && k !in HOP && k != COOKIE
    ensures Values(Served(c, w, e, Some(r), h, path).headers, k) == if Named(h, k) then [] else Values(h, k)
  {
    var bare, origin := h - {PUBLIC_ORIGIN} - {INTERNAL_TOKEN}, TrustedOrigin(c, e, h);
    ServedIsChecked(c, w, e, r, h, path);
    var given := CheckedKeeps(c, w, e, r, Stripped(bare), path, origin);
    ConnectionIsCallers();
    BareKeeps(h, k);
    BareKeeps(h, CONNECTION);
    ProxyPasses(c, e, r, given, origin, k);
  }

  lemma BareKeeps(h: Headers, k: string)
    requires Callers(k)
    ensures Values(Stripped(h - {PUBLIC_ORIGIN} - {INTERNAL_TOKEN}), k) == Values(h, k)
  {
    StampsAreOwned();
    StripForgets(h - {PUBLIC_ORIGIN} - {INTERNAL_TOKEN}, k);
  }

  // ----- which requests are forwarded -----

  lemma UpgradeSurvives(c: Config, r: Route, h: Headers, origin: Option<string>)
    ensures UpgradeType(Stamped(c, r, OptionsRemoved(h), origin)) == UpgradeType(h)
  {
    HopNames();
    CookieIsNotOwned();
    UpgradeKept(h);
    assert COOKIE[2] == 'o' && UPGRADE[2] == 'g';
    StampKeeps(c, r, OptionsRemoved(h), origin, CONNECTION);
    StampKeeps(c, r, OptionsRemoved(h), origin, UPGRADE);
    GetIsFirst(OptionsRemoved(h), UPGRADE);
    GetIsFirst(Stamped(c, r, OptionsRemoved(h), origin), UPGRADE);
  }

  lemma SameUpgrade(a: Headers, b: Headers)
    requires Values(a, CONNECTION) == Values(b, CONNECTION) && Values(a, UPGRADE) == Values(b, UPGRADE)
    ensures UpgradeType(a) == UpgradeType(b)
  {
    GetIsFirst(a, UPGRADE);
    GetIsFirst(b, UPGRADE);
  }

  /** Once every gate is open the proxy turns a request away only for its upgrade. */
  lemma OpenProxy(c: Config, e: Edge, r: Route, h: Headers, origin: Option<string>)
    requires e.passes(h)
    ensures Proxied(c, e, r, h, origin).Upstream? <==> Printable(UpgradeType(h))
  {
    UpgradeSurvives(c, r, h, origin);
  }

  /** Nothing outside the check stands in the way. */
  ghost predicate Open(e: Edge, r: Route, h: Headers) {
    && r.service in e.upstreams && r.service != "self"
    && !e.contextRefused(h - {PUBLIC_ORIGIN} - {INTERNAL_TOKEN}) && forall x :: e.passes(x)
  }

  lemma InjectionKeepsUpgrade(h: Headers, given: Answer)
    ensures UpgradeType(Injected(Stripped(h - {PUBLIC_ORIGIN} - {INTERNAL_TOKEN}), Rebuilt(given))) == UpgradeType(h)
  {
    var bare := Stripped(h - {PUBLIC_ORIGIN} - {INTERNAL_TOKEN});
    ConnectionIsCallers();
    BareKeeps(h, CONNECTION);
    BareKeeps(h, UPGRADE);
    InjectionKeeps(bare, given, CONNECTION);
    InjectionKeeps(bare, given, UPGRADE);
    SameUpgrade(Injected(bare, Rebuilt(given)), h);
  }

  /** The confinement of a guarded route reads what the check has just answered. */
  lemma InjectedCeiling(c: Config, e: Edge, h: Headers, given: Answer, path: string)
    ensures MintConfined(c, e, Injected(h, Rebuilt(given)), path)
         == MintUnder(CeilingFor(c, e, Grant(given), path), Injected(h, Rebuilt(given)))
  {
    OrgAndUserAreCanonical();
    InjectedValue(h, given, RESOURCE);
    InjectedValue(h, given, ORG);
    InjectedValue(h, given, USER);
  }

  /** What is handed to the proxy after a grant, under this ceiling. */
  function AfterGrant(r: Route, ceiling: Ceiling, injected: Headers): Mint {
    if r.guarded then MintUnder(ceiling, injected) else MintGoesOn(injected)
  }

  lemma GrantIsProxied(c: Config, w: World, e: Edge, r: Route, h: Headers, path: string, origin: Option<string>)
    requires Answered(c, w, h, path).Grant?
    ensures var d := Answered(c, w, h, path);
            var given := AfterGrant(r, CeilingFor(c, e, d, path), Injected(h, Rebuilt(d.given)));
            Checked(c, w, e, r, h, path, origin) ==
              match given case MintRefused(code) => Turned(code) case MintGoesOn(hs) => Proxied(c, e, r, hs, origin)
  {
    InjectedCeiling(c, e, h, Answered(c, w, h, path).given, path);
  }

  lemma AfterGrantKeepsUpgrade(r: Route, ceiling: Ceiling, h: Headers)
    requires AfterGrant(r, ceiling, h).MintGoesOn?
    ensures UpgradeType(AfterGrant(r, ceiling, h).headers) == UpgradeType(h)
  {
    ConnectionIsCallers();
    if r.guarded {
      MintKeeps(ceiling, h, CONNECTION);
      MintKeeps(ceiling, h, UPGRADE);
      SameUpgrade(MintUnder(ceiling, h).headers, h);
    }
  }

  lemma OpenIsChecked(c: Config, w: World, e: Edge, r: Route, h: Headers, path: string)
    requires Open(e, r, h)
    ensures Served(c, w, e, Some(r), h, path) ==
              Checked(c, w, e, r, Stripped(h - {PUBLIC_ORIGIN} - {INTERNAL_TOKEN}), path, TrustedOrigin(c, e, h))
  {
  }

  lemma GrantOutcome(c: Config, e: Edge, r: Route, ceiling: Ceiling, injected: Headers, origin: Option<string>)
    requires forall x :: e.passes(x)
    ensures var o := match AfterGrant(r, ceiling, injected)
                     case MintRefused(code) => Turned(code)
                     case MintGoesOn(hs) => Proxied(c, e, r, hs, origin);
            o.Upstream? <==> Printable(UpgradeType(injected)) && (r.guarded ==> !ceiling.Refuses?)
  {
    if AfterGrant(r, ceiling, injected).MintGoesOn? {
      AfterGrantKeepsUpgrade(r, ceiling, injected);
      OpenProxy(c, e, r, AfterGrant(r, ceiling, injected).headers, origin);
    }
  }

  /** With every outer gate open, a granted request is forwarded, whatever else its headers
      hold, exactly when its upgrade is printable and, on a guarded route, the confinement of
      the mint does not refuse it. */
  lemma GrantedIsForwarded(c: Config, w: World, e: Edge, r: Route, h: Headers, path: string)
    requires Open(e, r, h) && Verdict(c, w, Presented(h), PlaceOf(path)).Grant?
    ensures Served(c, w, e, Some(r), h, path).Upstream? <==>
              && Printable(UpgradeType(h))
              && (r.guarded ==> !CeilingFor(c, e, Verdict(c, w, Presented(h), PlaceOf(path)), path).Refuses?)
  {
    var bare, origin := Stripped(h - {PUBLIC_ORIGIN} - {INTERNAL_TOKEN}), TrustedOrigin(c, e, h);
    OpenIsChecked(c, w, e, r, h, path);
    AnsweredIsVerdict(c, w, h, path);
    GrantIsProxied(c, w, e, r, bare, path, origin);
    var d := Answered(c, w, bare, path);
    InjectionKeepsUpgrade(h, d.given);
    GrantOutcome(c, e, r, CeilingFor(c, e, d, path), Injected(bare, Rebuilt(d.given)), origin);
  }

  lemma StrippedKeepsUpgrade(h: Headers)
    ensures UpgradeType(Stripped(Stripped(h - {PUBLIC_ORIGIN} - {INTERNAL_TOKEN}))) == UpgradeType(h)
  {
    var bare := Stripped(h - {PUBLIC_ORIGIN} - {INTERNAL_TOKEN});
    ConnectionIsCallers();
    BareKeeps(h, CONNECTION);
    BareKeeps(h, UPGRADE);
    StripForgets(bare, CONNECTION);
    StripForgets(bare, UPGRADE);
    SameUpgrade(Stripped(bare), h);
  }

  /** Whether a verdict lets the request on: a grant within its ceiling, or a denial on an
      open route to a caller that presented nothing. */
  predicate LetOn(c: Config, e: Edge, r: Route, d: Decision, h: Headers, path: string) {
    match d
    case Grant(_) => !r.guarded || !CeilingFor(c, e, d, path).Refuses?
    case Deny(_) => !r.guarded && Get(h, "authorization") == ""
  }

  lemma DenialOutcome(c: Config, w: World, e: Edge, r: Route, h: Headers, path: string, origin: Option<string>)
    requires Answered(c, w, h, path).Deny?
    ensures var code := Answered(c, w, h, path).code;
            Checked(c, w, e, r, h, path, origin) ==
              if r.guarded || Get(h, "authorization") != "" then Turned(code) else Proxied(c, e, r, Stripped(h), origin)
  {
  }

  /** With every outer gate open, for every verdict: the request is forwarded exactly when the
      verdict lets it on and its upgrade is printable. A public call without a credential is. */
  lemma ForwardedIff(c: Config, w: World, e: Edge, r: Route, h: Headers, path: string)
    requires Open(e, r, h)
    ensures Served(c, w, e, Some(r), h, path).Upstream? <==>
              Printable(UpgradeType(h)) && LetOn(c, e, r, Verdict(c, w, Presented(h), PlaceOf(path)), h, path)
  {
    if Verdict(c, w, Presented(h), PlaceOf(path)).Grant? {
      GrantedIsForwarded(c, w, e, r, h, path);
    } else {
      DeniedForwarded(c, w, e, r, h, path);
    }
  }

  lemma DeniedForwarded(c: Config, w: World, e: Edge, r: Route, h: Headers, path: string)
    requires Open(e, r, h) && Verdict(c, w, Presented(h), PlaceOf(path)).Deny?
    ensures var code := Verdict(c, w, Presented(h), PlaceOf(path)).code;
            if r.guarded || Get(h, "authorization") != "" then Served(c, w, e, Some(r), h, path) == Turned(code)
            else Served(c, w, e, Some(r), h, path).Upstream? <==> Printable(UpgradeType(h))
  {
    var bare, origin := Stripped(h - {PUBLIC_ORIGIN} - {INTERNAL_TOKEN}), TrustedOrigin(c, e, h);
    OpenIsChecked(c, w, e, r, h, path);
    AnsweredIsVerdict(c, w, h, path);
    AuthorizationSurvives(h);
    GetIsFirst(h, AUTHORIZATION);
    GetIsFirst(bare, AUTHORIZATION);
    DenialOutcome(c, w, e, r, bare, path, origin);
    StrippedKeepsUpgrade(h);
    OpenProxy(c, e, r, Stripped(bare), origin);
  }

  /** A request that is not let on is answered with the code of what stopped it: the denial's,
      or the ceiling's. */
  lemma StoppedWithCode(c: Config, w: World, e: Edge, r: Route, h: Headers, path: string)
    requires Open(e, r, h) && !LetOn(c, e, r, Verdict(c, w, Presented(h), PlaceOf(path)), h, path)
    ensures var d := Verdict(c, w, Presented(h), PlaceOf(path));
            Served(c, w, e, Some(r), h, path) == Turned(if d.Deny? then d.code else CeilingFor(c, e, d, path).code)
  {
    if Verdict(c, w, Presented(h), PlaceOf(path)).Deny? {
      DeniedForwarded(c, w, e, r, h, path);
    } else {
      RefusedByCeiling(c, w, e, r, h, path);
    }
  }

  lemma RefusedByCeiling(c: Config, w: World, e: Edge, r: Route, h: Headers, path: string)
    requires Open(e, r, h) && Verdict(c, w, Presented(h), PlaceOf(path)).Grant?
    requires r.guarded && CeilingFor(c, e, Verdict(c, w, Presented(h), PlaceOf(path)), path).Refuses?
    ensures Served(c, w, e, Some(r), h, path)
         == Turned(CeilingFor(c, e, Verdict(c, w, Presented(h), PlaceOf(path)), path).code)
  {
    OpenIsChecked(c, w, e, r, h, path);
    AnsweredIsVerdict(c, w, h, path);
    var bare := Stripped(h - {PUBLIC_ORIGIN} - {INTERNAL_TOKEN});
    GrantIsProxied(c, w, e, r, bare, path, TrustedOrigin(c, e, h));
  }

  /** The solution that a resource names is installed for this person, under a real name. */
  predicate InstalledFor(c: Config, e: Edge, resource: string, org: string, user: string) {
    InstalledAs(e, IdFromResource(resource, c.publicBase), org, user)
  }

  predicate InstalledAs(e: Edge, id: Option<string>, org: string, user: string) {
    id.Some? && e.consumer(id.value, org, user).Installed? && e.consumer(id.value, org, user).installation != ""
  }

  lemma CeilingAtMeaning(e: Edge, confined: bool, id: Option<string>, org: string, user: string)
    ensures !CeilingAt(e, confined, id, org, user).Refuses? <==> !confined || InstalledAs(e, id, org, user)
  {
  }

  lemma CeilingMeaning(c: Config, e: Edge, resource: string, org: string, user: string, path: string)
    ensures !CeilingOf(c, e, resource, org, user, path).Refuses? <==>
              resource == "" || !IsMint(path) || InstalledFor(c, e, resource, org, user)
  {
    CeilingAtMeaning(e, resource != "" && IsMint(path), IdFromResource(resource, c.publicBase), org, user);
  }

  /** A resource-bound credential's mint is forwarded exactly when the solution its resource
      names is installed for the person it belongs to. */
  lemma ConfinedMintForwarded(c: Config, w: World, e: Edge, r: Route, h: Headers, path: string, resource: string)
    requires Open(e, r, h) && r.guarded && IsMint(path) && Printable(UpgradeType(h))
    requires Verdict(c, w, Presented(h), PlaceOf(path)).Grant?
    requires Admission.NamedResource(c, w, Presented(h)) == Some(resource) && resource != ""
    ensures var d := Verdict(c, w, Presented(h), PlaceOf(path));
            Served(c, w, e, Some(r), h, path).Upstream? <==>
              InstalledFor(c, e, resource, First(Granted(d, ORG)), First(Granted(d, USER)))
  {
    var d := Verdict(c, w, Presented(h), PlaceOf(path));
    GrantedIsForwarded(c, w, e, r, h, path);
    GrantedResource(c, w, Presented(h), path, resource);
    CeilingMeaning(c, e, resource, First(Granted(d, ORG)), First(Granted(d, USER)), path);
  }

  // ----- an example: a caller who claims to be someone else -----

  const ACCOUNTS := Route("accounts", true, false)
  const CLAIMS_ROOT: Headers := map[AUTHORIZATION := ["Bearer t"], USER := ["root"]]

  function OpenEdge(): Edge { Edge({"accounts"}, _ => false, _ => true, _ => None, (_, _, _) => Unavailable) }

  /** The upstream is told who the credential belongs to. */
  lemma ClaimedIdentityIsReplaced(path: string)
    requires SolutionId(path).None? && !IsMint(path)
    ensures var o := Served(Admission.SampleConfig(), Admission.SampleWorld(), OpenEdge(), Some(ACCOUNTS),
            CLAIMS_ROOT, path);
            o.Upstream? && Values(o.headers, USER) == ["u"] && Values(o.headers, GATEWAY_TOKEN) == ["g"]
  {
    var c, w, e := Admission.SampleConfig(), Admission.SampleWorld(), OpenEdge();
    OrgAndUserAreCanonical();
    CanonicalAreOwned();
    SampleCredential();
    Admission.SampleIsAdmitted(path);
    SampleForwarded(c, w, e, path);
    UpstreamIdentity(c, w, e, ACCOUNTS, CLAIMS_ROOT, path, USER);
    TokenStaysWithAccounts(c, w, e, ACCOUNTS, CLAIMS_ROOT, path);
    SampleUser(path);
  }

  lemma SampleCredential()
    ensures Presented(CLAIMS_ROOT) == Admission.SAMPLE && Values(CLAIMS_ROOT, CONNECTION) == []
  {
    assert AUTHORIZATION[0] == 'a' && USER[0] == 'x' && CONNECTION[0] == 'c';
  }

  lemma SampleForwarded(c: Config, w: World, e: Edge, path: string)
    requires e == OpenEdge() && !IsMint(path) && Verdict(c, w, Presented(CLAIMS_ROOT), PlaceOf(path)).Grant?
    ensures Served(c, w, e, Some(ACCOUNTS), CLAIMS_ROOT, path).Upstream?
  {
    SampleCredential();
    assert "accounts" != "self" by { assert |"self"| == 4; }
    assert Tokens([]) == [];
    var d := Verdict(c, w, Presented(CLAIMS_ROOT), PlaceOf(path));
    CeilingMeaning(c, e, First(Granted(d, RESOURCE)), First(Granted(d, ORG)), First(Granted(d, USER)), path);
    GrantedIsForwarded(c, w, e, ACCOUNTS, CLAIMS_ROOT, path);
  }

  lemma SampleUser(path: string)
    requires SolutionId(path).None? && !IsMint(path)
    requires Verdict(Admission.SampleConfig(), Admission.SampleWorld(), Admission.SAMPLE, PlaceOf(path)).Grant?
    ensures Expected(Admission.SampleConfig(), OpenEdge(), ACCOUNTS,
                     Verdict(Admission.SampleConfig(), Admission.SampleWorld(), Admission.SAMPLE, PlaceOf(path)),
                             None, path, USER) == ["u"]
  {
    var c, w, token := Admission.SampleConfig(), Admission.SampleWorld(), Admission.SAMPLE[|BEARER|..];
    OrgAndUserAreCanonical();
    StampsAreNotCanonical();
    Admission.TokenAdmission(c, w, token, path);
    UserHeader(Admission.SampleClaims(), Admission.Carried(Admission.BindingIn(c, w, token), PlaceOf(path)));
  }

  lemma UserInBase(claims: Claims)
    ensures LastValue(BaseHeaders(claims), USER) == Some(claims.subject)
  {
    var hs := BaseHeaders(claims);
    Missing(hs[1..], USER);
    LastValueConcat([hs[0]], hs[1..], USER);
    assert hs == [hs[0]] + hs[1..];
    LastValueOne(hs[0], USER);
    assert ToLower(USER) == USER;
  }

  lemma UserNotInSession(claims: Claims)
    ensures LastValue(SessionHeaders(claims), USER) == None
  {
    Missing(SessionHeaders(claims), USER);
  }

  lemma UserNotInGrants(claims: Claims)
    ensures LastValue(GrantHeaders(claims), USER) == None
  {
    Missing(GrantHeaders(claims), USER);
  }

  lemma UserNotInField(present: bool, value: string)
    ensures LastValue(Field(present, RESOURCE, value), USER) == None
  {
    Missing(Field(present, RESOURCE, value), USER);
  }

  /** The user of a token's answer is its subject. */
  lemma UserHeader(claims: Claims, confined: string)
    ensures LastValue(ClaimHeaders(claims, confined), USER) == Some(claims.subject)
  {
    var base, mid := BaseHeaders(claims), Field(confined != "", RESOURCE, confined);
    UserInBase(claims);
    UserNotInField(confined != "", confined);
    UserNotInSession(claims);
    UserNotInGrants(claims);
    LastValueConcat(base + mid + SessionHeaders(claims), GrantHeaders(claims), USER);
    LastValueConcat(base + mid, SessionHeaders(claims), USER);
    LastValueConcat(base, mid, USER);
  }
}
