/** A catalog-routed request through the gateway (gateway.go): its header map is stripped,
    checked, stamped and relayed in place. */
module Gateway {
  import opened Text
  import opened Wrappers
  import opened Headers
  import opened HopByHop
  import opened SolutionPaths
  import opened ExtAuthz

  const AUTHORIZATION := "authorization"
  const COOKIE := "cookie"

  datatype Route = Route(service: string, guarded: bool, registered: bool)

  datatype Consumer = Unavailable | NotEntitled | Installed(installation: string)

  /** What the rest of the gateway decides: the Work Context verifier, the cross-origin pass
      and the limiter, the origin parser, the solution registry with the entitlements. */
  datatype Edge = Edge(
    upstreams: set<string>, contextRefused: Headers -> bool, passes: Headers -> bool,
    canonicalOrigin: string -> Option<string>, consumer: (string, string, string) -> Consumer)

  datatype Outcome = NotRouted | SelfServed | Turned(code: nat) | Upstream(headers: Headers)

  // ----- the steps, on values -----

  /** acceptsInternalToken. */
  predicate AcceptsInternal(c: Config, candidate: string) {
    candidate != "" && (candidate == c.internalToken || candidate == c.previousInternalToken)
  }

  function TrustedOrigin(c: Config, e: Edge, h: Headers): Option<string> {
    if AcceptsInternal(c, Get(h, INTERNAL_TOKEN)) then e.canonicalOrigin(Get(h, PUBLIC_ORIGIN)) else None
  }

  function Injected(h: Headers, answer: Answer): Headers { Applied(Stripped(h), answer) }

  predicate IsAccounts(r: Route) { r.service == "accounts" || r.service == "accounts_connect" }

  predicate Vouches(c: Config, r: Route) { IsAccounts(r) && c.gatewayToken != "" }

  function Stamped(c: Config, r: Route, h: Headers, origin: Option<string>): Headers {
    var bare := h - {GATEWAY_TOKEN} - {INTERNAL_TOKEN} - {PUBLIC_ORIGIN};
    var token := if Vouches(c, r) then bare[GATEWAY_TOKEN := [c.gatewayToken]] else bare;
    var known := Vouches(c, r) && origin.Some? && origin.value != "";
    var origined := if known then token[PUBLIC_ORIGIN := [origin.value]] else token;
    if r.registered then origined - {COOKIE} else origined
  }

  /** rateLimitThenProxy. */
  function Proxied(c: Config, e: Edge, r: Route, h: Headers, origin: Option<string>): Outcome {
    if !e.passes(h) then Turned(429)
    else
      match Relayed(Stamped(c, r, OptionsRemoved(h), origin))
      case None => Turned(502)
      case Some(out) => Upstream(out)
  }

  /** What a resource-confined request to the mint is held to. */
  datatype Ceiling = NoCeiling | Refuses(code: nat) | Holds(installation: string)

  function CeilingOf(c: Config, e: Edge, resource: string, org: string, user: string, path: string): Ceiling {
    CeilingAt(e, resource != "" && IsMint(path), IdFromResource(resource, c.publicBase), org, user)
  }

  /** For a credential that is confined here, by the solution its resource names. */
  function CeilingAt(e: Edge, confined: bool, id: Option<string>, org: string, user: string): Ceiling {
    if !confined then NoCeiling
    else
      match id
      case None => Refuses(401)
      case Some(id) =>
        match e.consumer(id, org, user)
        case Unavailable => Refuses(503)
        case NotEntitled => Refuses(403)
        case Installed(i) => if i == "" then Refuses(503) else Holds(i)
  }

  datatype Mint = MintRefused(code: nat) | MintGoesOn(headers: Headers)

  function MintUnder(ceiling: Ceiling, h: Headers): Mint {
    match ceiling
    case NoCeiling => MintGoesOn(h)
    case Refuses(code) => MintRefused(code)
    case Holds(i) => MintGoesOn(h[INSTALLATION := [i]])
  }

  const ORG := "x-org-id"
  const USER := "x-user-id"

  /** confineResourceMintToItsConsumer. */
  function MintConfined(c: Config, e: Edge, h: Headers, path: string): Mint {
    MintUnder(CeilingOf(c, e, Get(h, RESOURCE), Get(h, ORG), Get(h, USER), path), h)
  }

  function Answered(c: Config, w: World, h: Headers, path: string): Decision {
    Verdict(c, w, Join(Values(h, AUTHORIZATION), ','), PlaceOf(path))
  }

  function Checked(c: Config, w: World, e: Edge, r: Route, h: Headers, path: string, origin: Option<string>): Outcome {
    match Answered(c, w, h, path)
    case Deny(code) =>
      if r.guarded || Get(h, AUTHORIZATION) != "" then Turned(code) else Proxied(c, e, r, Stripped(h), origin)
    case Grant(given) =>
      var injected := Injected(h, Rebuilt(given));
      if !r.guarded then Proxied(c, e, r, injected, origin)
      else
        match MintConfined(c, e, injected, path)
        case MintRefused(code) => Turned(code)
        case MintGoesOn(h4) => Proxied(c, e, r, h4, origin)
  }

  function Served(c: Config, w: World, e: Edge, route: Option<Route>, h: Headers, path: string): Outcome {
    var bare := h - {PUBLIC_ORIGIN} - {INTERNAL_TOKEN};
    if route.None? then NotRouted
    else if e.contextRefused(bare) then Turned(401)
    else if route.value.service == "self" then SelfServed
    else if route.value.service !in e.upstreams then Turned(502)
    else Checked(c, w, e, route.value, Stripped(bare), path, TrustedOrigin(c, e, h))
  }

  method FindCeiling(c: Config, e: Edge, resource: string, org: string, user: string, path: string) returns (r: Ceiling)
    ensures r == CeilingOf(c, e, resource, org, user, path)
  {
    if resource == "" || !IsMint(path) {
      return NoCeiling;
    }
    var id := IdFromResource(resource, c.publicBase);
    if id.None? {
      return Refuses(401);
    }
    match e.consumer(id.value, org, user) {
      case Unavailable => return Refuses(503);
      case NotEntitled => return Refuses(403);
      case Installed(i) => return if i == "" then Refuses(503) else Holds(i);
    }
  }

  // ----- the request, edited in place -----

  class Request {
    const path: string
    var header: Headers
    var origin: Option<string>

    constructor (path: string, header: Headers)
      ensures this.path == path && this.header == header && origin == None
    {
      this.path, this.header, origin := path, header, None;
    }

    /** withTrustedFrontendOrigin. */
    method TrustFrontendOrigin(c: Config, e: Edge)
      requires origin == None
      modifies this
      ensures header == old(header) - {PUBLIC_ORIGIN} - {INTERNAL_TOKEN}
      ensures origin == TrustedOrigin(c, e, old(header))
    {
      var claimed, presented := Get(header, PUBLIC_ORIGIN), Get(header, INTERNAL_TOKEN);
      header := header - {PUBLIC_ORIGIN};
      header := header - {INTERNAL_TOKEN};
      if AcceptsInternal(c, presented) {
        origin := e.canonicalOrigin(claimed);
      }
    }

    /** stripAllIdentityHeaders. */
    method StripAllIdentityHeaders()
      modifies this`header
      ensures header == Stripped(old(header))
    {
      header := DeleteAll(header, OWNED);
      header := DeleteGrpc(header);
    }

    /** injectHeaders. */
    method InjectHeaders(answer: Answer)
      modifies this`header
      ensures header == Injected(old(header), answer)
    {
      StripAllIdentityHeaders();
      header := SetAll(header, answer);
    }

    /** confineResourceMintToItsConsumer. */
    method ConfineMint(c: Config, e: Edge) returns (refused: Option<nat>)
      modifies this`header
      ensures MintConfined(c, e, old(header), path) ==
                if refused.Some? then MintRefused(refused.value) else MintGoesOn(header)
    {
      var ceiling := FindCeiling(c, e, Get(header, RESOURCE), Get(header, ORG), Get(header, USER), path);
      match ceiling {
        case NoCeiling => return None;
        case Refuses(code) => return Some(code);
        case Holds(i) =>
          header := header[INSTALLATION := [i]];
          return None;
      }
    }

    /** rateLimitThenProxy and proxyTo. */
    method ProxyTo(c: Config, e: Edge, r: Route) returns (o: Outcome)
      modifies this`header
      ensures o == Proxied(c, e, r, old(header), origin)
    {
      if !e.passes(header) {
        return Turned(429);
      }
      header := RemoveConnectionOptions(header);
      header := header - {GATEWAY_TOKEN};
      header := header - {INTERNAL_TOKEN};
      header := header - {PUBLIC_ORIGIN};
      if IsAccounts(r) && c.gatewayToken != "" {
        header := header[GATEWAY_TOKEN := [c.gatewayToken]];
        if origin.Some? && origin.value != "" {
          header := header[PUBLIC_ORIGIN := [origin.value]];
        }
      }
      if r.registered {
        header := header - {COOKIE};
      }
      var out := Relayed(header);
      return if out.Some? then Upstream(out.value) else Turned(502);
    }

    /** The authorization switch of ServeHTTP. */
    method CheckThenProxy(c: Config, w: World, e: Edge, r: Route) returns (o: Outcome)
      modifies this`header
      ensures o == Checked(c, w, e, r, old(header), path, origin)
    {
      var response := Check(c, w, Join(Values(header, AUTHORIZATION), ','), path);
      var presented := Get(header, AUTHORIZATION) != "";
      match response {
        case Denied(code) =>
          if r.guarded || presented {
            return Turned(code);
          }
          StripAllIdentityHeaders();
          o := ProxyTo(c, e, r);
        case Allowed(answer, _) =>
          InjectHeaders(answer);
          if r.guarded {
            var refused := ConfineMint(c, e);
            if refused.Some? {
              return Turned(refused.value);
            }
          }
          o := ProxyTo(c, e, r);
      }
    }

    /** ServeHTTP, from the catalog match on. */
    method Serve(c: Config, w: World, e: Edge, route: Option<Route>) returns (o: Outcome)
      requires origin == None
      modifies this
      ensures o == Served(c, w, e, route, old(header), path)
    {
      TrustFrontendOrigin(c, e);
      if route.None? {
        return NotRouted;
      }
      if e.contextRefused(header) {
        return Turned(401);
      }
      if route.value.service == "self" {
        return SelfServed;
      }
      StripAllIdentityHeaders();
      if route.value.service !in e.upstreams {
        return Turned(502);
      }
      o := CheckThenProxy(c, w, e, route.value);
    }
  }

  method SetAll(h: Headers, answer: Answer) returns (r: Headers)
    ensures r == Applied(h, answer)
  {
    r := h;
    assert answer[0..] == answer;
    for i := 0 to |answer|
      invariant Applied(r, answer[i..]) == Applied(h, answer)
    {
      assert answer[i..][0] == answer[i] && answer[i..][1..] == answer[i+1..];
      if answer[i].0 != "" {
        r := r[ToLower(answer[i].0) := [answer[i].1]];
      }
    }
    assert answer[|answer|..] == [];
  }
}
