/** The gates around the identity pipeline (gateway.go): what each one answers, which tokens
    and names it knows, and which of the caller's headers can never get past it. */
module GatewayGates {
  import opened Text
  import opened Wrappers
  import opened Headers
  import opened HopByHop
  import opened SolutionPaths
  import opened ExtAuthz
  import opened Gateway
  import opened GatewayIdentity
  import opened GatewayForwarding

  // ----- answers -----

  /** Before the credential is looked at: no route, a refused capability, the gateway's own
      endpoints, and a service without an upstream, in this order. */
  lemma OuterGates(c: Config, w: World, e: Edge, r: Route, h: Headers, path: string)
    ensures Served(c, w, e, None, h, path) == NotRouted
    ensures var seen := h - {"x-codefly-public-origin", "x-codefly-internal-token"};
            && (e.contextRefused(seen) ==> Served(c, w, e, Some(r), h, path) == Turned(401))
            && (!e.contextRefused(seen) && r.service == "self" ==> Served(c, w, e, Some(r), h, path) == SelfServed)
            && (!e.contextRefused(seen) && r.service != "self" && r.service !in e.upstreams ==>
                  Served(c, w, e, Some(r), h, path) == Turned(502))
  {
    assert h - {PUBLIC_ORIGIN} - {INTERNAL_TOKEN} == h - {"x-codefly-public-origin", "x-codefly-internal-token"};
  }

  /** The limiter answers 429 and an unprintable upgrade 502; nothing else stops the proxy. */
  lemma ProxyGates(c: Config, e: Edge, r: Route, h: Headers, origin: Option<string>)
    ensures !e.passes(h) ==> Proxied(c, e, r, h, origin) == Turned(429)
    ensures e.passes(h) && !Printable(UpgradeType(h)) ==> Proxied(c, e, r, h, origin) == Turned(502)
    ensures e.passes(h) && Printable(UpgradeType(h)) ==> Proxied(c, e, r, h, origin).Upstream?
  {
    UpgradeSurvives(c, r, h, origin);
  }

  /** The confinement of the mint: 401 for a resource that names no solution here, 403 for one
      this person may not use, 503 for what could not be asked or has no name. */
  lemma CeilingCodes(c: Config, e: Edge, resource: string, org: string, user: string, path: string)
    requires CeilingOf(c, e, resource, org, user, path).Refuses?
    ensures resource != "" && IsMint(path)
    ensures var id := IdFromResource(resource, c.publicBase);
            CeilingOf(c, e, resource, org, user, path).code ==
              if id.None? then 401 else if e.consumer(id.value, org, user) == NotEntitled then 403 else 503
  {
    CeilingAtCodes(e, IdFromResource(resource, c.publicBase), org, user);
  }

  lemma CeilingAtCodes(e: Edge, id: Option<string>, org: string, user: string)
    requires CeilingAt(e, true, id, org, user).Refuses?
    ensures CeilingAt(e, true, id, org, user).code ==
              if id.None? then 401 else if e.consumer(id.value, org, user) == NotEntitled then 403 else 503
  {
  }

  // ----- the frontend's origin -----

  /** The origin a caller claims counts only beside the current or the previous internal
      token; an empty one never matches. */
  lemma OriginNeedsToken(c: Config, e: Edge, h: Headers)
    ensures var presented := Get(h, "x-codefly-internal-token");
            TrustedOrigin(c, e, h) ==
              if presented != "" && presented in {c.internalToken, c.previousInternalToken}
              then e.canonicalOrigin(Get(h, "x-codefly-public-origin")) else None
  {
  }

  /** Accounts alone learns the origin, and only beside the gateway's own credential. */
  lemma OriginStaysWithAccounts(c: Config, w: World, e: Edge, r: Route, h: Headers, path: string)
    requires Served(c, w, e, Some(r), h, path).Upstream?
    ensures var origin := TrustedOrigin(c, e, h);
            Values(Served(c, w, e, Some(r), h, path).headers, "x-codefly-public-origin") ==
              if (&& r.service in {"accounts", "accounts_connect"} && c.gatewayToken != ""
                  && origin.Some? && origin.value != "")
              then [origin.value] else []
  {
    StampsAreOwned();
    StampsApart();
    UpstreamIdentity(c, w, e, r, h, path, PUBLIC_ORIGIN);
  }

  // ----- names that never arrive -----

  /** The trust credentials of other surfaces, and the assertions the gateway no longer makes. */
  const SECRETS: seq<string> := [
    "x-codefly-workload-presenter", "x-codefly-internal-token", "x-codefly-module-secret",
    "x-codefly-solution-secret", "x-codefly-solution-registration", "x-codefly-solution-id",
    "x-codefly-solution-publisher"]

  lemma SecretsAreOwned()
    ensures forall i :: 0 <= i < |SECRETS| ==> Owned(SECRETS[i])
  {
    assert SECRETS[0] == OWNED[0] && SECRETS[1] == OWNED[22] && SECRETS[2] == OWNED[24] && SECRETS[3] == OWNED[25];
    assert SECRETS[4] == OWNED[26] && SECRETS[5] == OWNED[27] && SECRETS[6] == OWNED[28];
  }

  lemma SecretsAreNotStamped(k: string)
    requires k in SECRETS
    ensures k !in {GATEWAY_TOKEN, PUBLIC_ORIGIN, INSTALLATION}
  {
    assert |GATEWAY_TOKEN| == 23 && |PUBLIC_ORIGIN| == 23 && |INSTALLATION| == 25;
    assert forall i :: 0 <= i < |SECRETS| && |SECRETS[i]| == 23 ==> SECRETS[i][10] == 'm';
    assert forall i :: 0 <= i < |SECRETS| && |SECRETS[i]| == 25 ==> SECRETS[i][10] == 's';
    assert GATEWAY_TOKEN[10] == 'g' && PUBLIC_ORIGIN[10] == 'p' && INSTALLATION[10] == 'i';
  }

  lemma SecretsAreNotCanonical(k: string)
    requires k in SECRETS
    ensures k !in CANONICAL
  {
    assert forall i :: 0 <= i < |SECRETS| ==> |SECRETS[i]| > 18 && SECRETS[i][2] == 'c' && SECRETS[i][3] == 'o';
    assert forall i :: 0 <= i < |CANONICAL| ==> |CANONICAL[i]| <= 18 || CANONICAL[i][2] != 'c';
  }

  /** No caller can hand one of them to an upstream. */
  lemma SecretsNeverArrive(c: Config, w: World, e: Edge, r: Route, h: Headers, path: string, k: string)
    requires Served(c, w, e, Some(r), h, path).Upstream? && k in SECRETS
    ensures Values(Served(c, w, e, Some(r), h, path).headers, k) == []
  {
    SecretsAreOwned();
    SecretsAreNotStamped(k);
    SecretsAreNotCanonical(k);
    UpstreamIdentity(c, w, e, r, h, path, k);
  }

  /** The grpc-metadata- spelling, in any case. */
  lemma GrpcSpelling(k: string)
    ensures GrpcName(k) <==> "grpc-metadata-" <= ToLower(k)
  {
    var n := |"grpc-metadata-"|;
    if |k| >= n {
      assert ToLower(k)[..n] == ToLower(k[..n]);
      assert "grpc-metadata-" <= ToLower(k) <==> ToLower(k)[..n] == "grpc-metadata-";
    }
  }

  /** Hop-by-hop headers end here, whether or not Connection names them. */
  lemma HopsEndHere(h: Headers, k: string)
    requires Relayed(h).Some?
    requires EndsHere(k)
    ensures k !in Relayed(h).value
  {
    HopSpellings();
    HopNames();
  }

  /** What is put back behind them: the upgrade that was asked for, and an interest in trailers,
      each in one fixed spelling. */
  lemma PutBack(h: Headers)
    requires Relayed(h).Some?
    ensures var out, up := Relayed(h).value, UpgradeType(h);
            && (up != "" ==> Values(out, "connection") == ["Upgrade"] && Values(out, "upgrade") == [up])
            && (up == "" ==> "connection" !in out && "upgrade" !in out)
            && Values(out, "te") == if WantsTrailers(h) then ["trailers"] else []
  {
    HopNames();
  }

  /** An upgrade is asked for when an option of Connection says so, and is printable ASCII. */
  lemma UpgradeAsked(h: Headers)
    ensures UpgradeType(h) == if "upgrade" in Tokens(Values(h, "connection")) then Get(h, "upgrade") else ""
    ensures Printable(UpgradeType(h)) <==>
              forall i :: 0 <= i < |UpgradeType(h)| ==> 32 <= UpgradeType(h)[i] as int < 127
    ensures WantsTrailers(h) <==> "trailers" in Tokens(Values(h, "te"))
  {
  }

  predicate EndsHere(k: string) {
    k in {"proxy-connection", "keep-alive", "proxy-authenticate", "proxy-authorization", "trailer", "transfer-encoding"}
  }

  lemma HopSpellings()
    ensures forall k :: EndsHere(k) ==> k in HOP && k !in {"te", "connection", "upgrade"}
  {
    assert HOP[1] == "proxy-connection" && HOP[2] == "keep-alive" && HOP[3] == "proxy-authenticate";
    assert HOP[4] == "proxy-authorization" && HOP[6] == "trailer" && HOP[7] == "transfer-encoding";
    assert |"te"| == 2 && |"upgrade"| == 7 && |"connection"| == 10 && |"keep-alive"| == 10 && |"trailer"| == 7;
    assert "keep-alive"[0] == 'k' && "trailer"[0] == 't';
  }

  /** The cookie passes to the host's own services and to no registered upstream. */
  lemma CookieStaysHome(c: Config, w: World, e: Edge, r: Route, h: Headers, path: string)
    requires Served(c, w, e, Some(r), h, path).Upstream? && r.registered
    ensures "cookie" !in Served(c, w, e, Some(r), h, path).headers
  {
    var bare, origin := h - {PUBLIC_ORIGIN} - {INTERNAL_TOKEN}, TrustedOrigin(c, e, h);
    ServedIsChecked(c, w, e, r, h, path);
    var given := CheckedKeeps(c, w, e, r, Stripped(bare), path, origin);
    CookieIsDropped(c, e, r, given, origin);
  }

  lemma CookieIsDropped(c: Config, e: Edge, r: Route, h: Headers, origin: Option<string>)
    requires Proxied(c, e, r, h, origin).Upstream? && r.registered
    ensures "cookie" !in Proxied(c, e, r, h, origin).headers
  {
    assert |"cookie"| == 6 && |CONNECTION| == 10 && |UPGRADE| == 7 && |TE| == 2;
  }

  // ----- the names that are kept from callers -----

  /** What a person, a session and a grant are called upstream. */
  const IDENTITY: seq<string> := [
    "x-user-id", "x-org-id", "x-org-role", "x-platform-role", "x-roles", "x-scoped-roles",
    "x-scoped-roles-truncated", "x-auth-id", "x-user-email", "x-user-name", "x-session-id",
    "x-acting-as-user-id", "x-act", "x-scopes", "x-credential-kind", "x-mfa-satisfied",
    "x-authentication-methods", "x-auth-time", "x-assurance-level", "x-mfa-verified-at", "x-client-id"]

  /** The platform's own credentials and markers. */
  const PLATFORM: seq<string> := [
    "x-codefly-workload-presenter", "x-codefly-gateway-token", "x-codefly-internal-token",
    "x-codefly-public-origin", "x-codefly-module-secret", "x-codefly-solution-secret",
    "x-codefly-solution-registration", "x-codefly-solution-id", "x-codefly-solution-publisher",
    "x-codefly-resource", "x-codefly-installation-id"]

  lemma OwnedParts()
    ensures OWNED == PLATFORM[..1] + IDENTITY[..20] + PLATFORM[1..9] + IDENTITY[20..] + PLATFORM[9..]
    ensures CANONICAL == IDENTITY + PLATFORM[9..10]
  {
  }

  lemma Slices(a: seq<string>, p: seq<string>, k: string)
    requires |a| == 21 && |p| == 11
    ensures k in p[..1] + a[..20] + p[1..9] + a[20..] + p[9..] <==> k in a || k in p
  {
    assert a == a[..20] + a[20..] && p == p[..1] + p[1..9] + p[9..];
  }

  /** The gateway keeps both kinds from callers, and an answer names the first kind and the
      resource. */
  lemma OwnedNames(k: string)
    ensures Owned(k) <==> k in IDENTITY || k in PLATFORM
    ensures k in CANONICAL <==> k in IDENTITY || k == "x-codefly-resource"
  {
    OwnedParts();
    Slices(IDENTITY, PLATFORM, k);
    assert PLATFORM[9..10] == ["x-codefly-resource"];
  }

  // ----- how Connection is read -----

  predicate Blanks(s: string) { forall i :: 0 <= i < |s| ==> Blank(s[i]) }

  lemma BlankSpelled(c: char)
    ensures Blank(c) <==> c in " \t\r\n"
  {
  }

  predicate Trims(s: string, a: string, trimmed: string, b: string) {
    s == a + trimmed + b && Blanks(a) && Blanks(b)
  }

  lemma BlankInFront(s: string, a: string, trimmed: string, b: string)
    requires s != "" && Blank(s[0]) && Trims(s[1..], a, trimmed, b)
    ensures Trims(s, [s[0]] + a, trimmed, b)
  {
    assert s == [s[0]] + s[1..];
  }

  lemma BlankBehind(s: string, a: string, trimmed: string, b: string)
    requires s != "" && Blank(s[|s|-1]) && Trims(s[..|s|-1], a, trimmed, b)
    ensures Trims(s, a, trimmed, b + [s[|s|-1]])
  {
    assert s == s[..|s|-1] + [s[|s|-1]];
  }

  /** Trimming takes the blanks off both ends and nothing else. */
  lemma {:induction false} TrimMeaning(s: string) returns (a: string, b: string)
    ensures Trims(s, a, Trim(s), b)
    ensures Trim(s) == "" || (!Blank(Trim(s)[0]) && !Blank(Trim(s)[|Trim(s)|-1]))
    decreases |s|
  {
    if s != "" && Blank(s[0]) {
      a, b := TrimMeaning(s[1..]);
      BlankInFront(s, a, Trim(s[1..]), b);
      a := [s[0]] + a;
    } else if s != "" && Blank(s[|s|-1]) {
      a, b := TrimMeaning(s[..|s|-1]);
      BlankBehind(s, a, Trim(s[..|s|-1]), b);
      b := b + [s[|s|-1]];
    } else {
      a, b := "", "";
    }
  }

  lemma {:induction false} TokensOfMeaning(parts: seq<string>, t: string)
    ensures t in TokensOf(parts) <==> exists p :: p in parts && t == ToLower(Trim(p))
  {
    if parts != [] {
      TokensOfMeaning(parts[1..], t);
      assert forall p :: p in parts <==> p == parts[0] || p in parts[1..];
      if t == ToLower(Trim(parts[0])) { assert parts[0] in parts; }
    }
  }

  ghost predicate Lists(value: string, t: string) { exists p :: p in Split(value, ',') && t == ToLower(Trim(p)) }

  /** An option is a comma-separated part of some value, trimmed, in any case. */
  lemma {:induction false} TokensMeaning(values: seq<string>, t: string)
    ensures t in Tokens(values) <==> exists v :: v in values && Lists(v, t)
  {
    if values != [] {
      TokensMeaning(values[1..], t);
      TokensOfMeaning(Split(values[0], ','), t);
      assert forall v :: v in values <==> v == values[0] || v in values[1..];
      if Lists(values[0], t) { assert values[0] in values; }
    }
  }

  /** ASCII letters lose their case and nothing else changes. */
  lemma LowerMeaning(s: string, i: nat)
    requires i < |s|
    ensures |ToLower(s)| == |s|
    ensures ToLower(s)[i] == if 65 <= s[i] as int <= 90 then (s[i] as int + 32) as char else s[i]
  {
  }
}
