/** Exactly which credentials the external authorization check admits, and where. */
module Admission {
  import opened Text
  import opened Wrappers
  import opened Headers
  import opened SolutionPaths
  import opened ExtAuthz

  // ----- tokens -----

  /** A named issuer: the one minting today, or one still accepted. */
  predicate TrustedIssuer(c: Config, issuer: string) { issuer != "" && issuer in [c.issuer] + c.acceptedIssuers }

  /** The bearer is a token of this host: it verifies, comes from an accepted issuer, and no
      revocation lookup stops it. */
  predicate Genuine(c: Config, w: World, token: string) {
    && w.keysConfigured && w.parse(token).Parsed?
    && TrustedIssuer(c, w.parse(token).claims.issuer)
    && NotStopped(c, w, w.parse(token).claims)
  }

  predicate Passes(l: Lookup, failOpen: bool) { (l.Failed? && failOpen) || l == Known(false) }

  predicate NotStopped(c: Config, w: World, claims: Claims) {
    && (claims.id == "" || Passes(w.revoked(claims.id), c.failOpen))
    && (claims.sessionId == "" || Passes(w.revokedSession(claims.sessionId), c.failOpen))
    && (claims.familyId == "" || Passes(w.revokedSession(claims.familyId), c.failOpen))
  }

  lemma RevocationMeaning(c: Config, w: World, claims: Claims)
    ensures RevocationBlocked(c, w, claims).None? <==> NotStopped(c, w, claims)
  {
    SessionsOfTwo(c, w, claims.sessionId, claims.familyId);
  }

  /** A resource-bound token acts at the solution its resource names and at the mint; an
      unbound one everywhere but a solution's tool endpoint. */
  predicate Within(c: Config, binding: Binding, at: Place) {
    match binding
    case Ambiguous => false
    case Unbound => !(at.id.Some? && at.tool)
    case Bound(r) => c.publicBase != "" && (at.mint || (at.id.Some? && IdFromResource(r, c.publicBase) == at.id))
  }

  /** What is carried onward: the resource, at the mint. */
  function Carried(binding: Binding, at: Place): string {
    if binding.Bound? && at.mint then binding.resource else ""
  }

  function BindingIn(c: Config, w: World, token: string): Binding
    requires w.parse(token).Parsed?
  {
    BindingOf(w.parse(token).claims.audience, c.audience, w.wellFormed)
  }

  lemma ConfineMeaning(c: Config, binding: Binding, path: string)
    ensures var at := PlaceOf(path);
            Confine(c, binding, at) == if Within(c, binding, at) then Admitted(Carried(binding, at)) else Refused
  {
    MintApart(path);
    var at := PlaceOf(path);
    if binding.Bound? && at.id.Some? {
      ResourceRoundTrip(binding.resource, c.publicBase, at.id.value);
    }
  }

  /** A token is admitted exactly when it is genuine and within its confinement. */
  lemma TokenAdmission(c: Config, w: World, token: string, path: string)
    ensures JwtDecision(c, w, token, PlaceOf(path)).Grant? <==>
              Genuine(c, w, token) && Within(c, BindingIn(c, w, token), PlaceOf(path))
    ensures JwtDecision(c, w, token, PlaceOf(path)).Grant? ==>
              JwtDecision(c, w, token, PlaceOf(path)).given
              == ClaimHeaders(w.parse(token).claims, Carried(BindingIn(c, w, token), PlaceOf(path)))
  {
    if w.parse(token).Parsed? {
      RevocationMeaning(c, w, w.parse(token).claims);
      ConfineMeaning(c, BindingIn(c, w, token), path);
    }
  }

  /** Availability failures, and only they, answer 503: the keys, or, failing closed, the
      first revocation lookup that does not pass. */
  predicate Unavailable(c: Config, w: World, token: string) {
    || !w.keysConfigured
    || w.parse(token).NoKeys?
    || (w.parse(token).Parsed? && TrustedIssuer(c, w.parse(token).claims.issuer)
        && FirstStop(c, w, w.parse(token).claims) == Failed)
  }

  function FirstStop(c: Config, w: World, claims: Claims): Lookup {
    if claims.id != "" && !Passes(w.revoked(claims.id), c.failOpen) then w.revoked(claims.id)
    else if claims.sessionId != "" && !Passes(w.revokedSession(claims.sessionId), c.failOpen)
      then w.revokedSession(claims.sessionId)
    else if claims.familyId != "" && !Passes(w.revokedSession(claims.familyId), c.failOpen)
      then w.revokedSession(claims.familyId)
    else Known(false)
  }

  lemma TokenUnavailability(c: Config, w: World, token: string, at: Place)
    ensures JwtDecision(c, w, token, at) == Deny(503) <==> Unavailable(c, w, token)
    ensures JwtDecision(c, w, token, at).Deny? ==> JwtDecision(c, w, token, at).code in {401, 503}
  {
    if w.parse(token).Parsed? {
      var claims := w.parse(token).claims;
      SessionsOfTwo(c, w, claims.sessionId, claims.familyId);
    }
  }

  // ----- the whole check -----

  predicate IsKey(auth: string) { "Bearer cfly_sk_" <= auth }

  predicate IsToken(auth: string) { "Bearer " <= auth && !IsKey(auth) }

  lemma BearerPrefixes(auth: string)
    ensures IsKey(auth) <==> BEARER <= auth && KEY_PREFIX <= auth[|BEARER|..]
    ensures IsToken(auth) <==> BEARER <= auth && !(KEY_PREFIX <= auth[|BEARER|..])
  {
    assert BEARER + KEY_PREFIX == "Bearer cfly_sk_";
    if "Bearer cfly_sk_" <= auth {
      assert auth[..|BEARER|] == "Bearer cfly_sk_"[..|BEARER|] == BEARER;
      assert auth[|BEARER|..][..|KEY_PREFIX|] == KEY_PREFIX;
    }
    if BEARER <= auth && KEY_PREFIX <= auth[|BEARER|..] {
      assert auth == BEARER + KEY_PREFIX + auth[|BEARER| + |KEY_PREFIX|..];
    }
  }

  /** The credential names a resource; an API key never does. */
  function NamedResource(c: Config, w: World, auth: string): Option<string> {
    if IsToken(auth) && w.parse(auth[|BEARER|..]).Parsed? then
      ResourceOf(BindingIn(c, w, auth[|BEARER|..]))
    else None
  }

  /** The resource header of the answer. */
  function Forwarded(d: Decision): Option<string>
    requires d.Grant?
  {
    LastValue(Rebuilt(d.given), RESOURCE)
  }

  /** What an admission should mean: no resource and no tool endpoint, the named resource's
      own solution, or the mint with that resource forwarded. */
  predicate OneOfThree(named: Option<string>, forwarded: Option<string>, base: string, at: Place) {
    || (named.None? && !at.tool && forwarded == Some(""))
    || (named.Some? && at.id.Some? && named.value == McpResource(base, at.id.value) && forwarded == Some(""))
    || (named.Some? && at.mint && forwarded == named)
  }

  predicate ThreeCases(c: Config, w: World, auth: string, at: Place)
    requires Verdict(c, w, auth, at).Grant?
  {
    OneOfThree(NamedResource(c, w, auth), Forwarded(Verdict(c, w, auth, at)), c.publicBase, at)
  }

  lemma KeyForwardsNothing(user: string, org: string, scopes: seq<string>)
    ensures LastValue(Rebuilt(KeyHeaders(user, org, scopes)), RESOURCE) == Some("")
  {
    ResourceIsCanonical();
    Missing(KeyHeaders(user, org, scopes), RESOURCE);
    RebuiltValue(KeyHeaders(user, org, scopes), RESOURCE);
  }

  lemma KeyCases(c: Config, w: World, auth: string, at: Place)
    requires IsKey(auth) && Verdict(c, w, auth, at).Grant?
    ensures ThreeCases(c, w, auth, at) && !at.tool
  {
    BearerPrefixes(auth);
    var answer := w.validateKey(auth[|BEARER|..]);
    KeyForwardsNothing(answer.user, answer.org, answer.scopes);
  }

  function ResourceOf(binding: Binding): Option<string> { if binding.Bound? then Some(binding.resource) else None }

  lemma WithinCases(c: Config, binding: Binding, path: string)
    requires Within(c, binding, PlaceOf(path))
    ensures var at := PlaceOf(path);
            OneOfThree(ResourceOf(binding), Some(Carried(binding, at)), c.publicBase, at) <==> !(at.tool && at.id.None?)
  {
    var at := PlaceOf(path);
    MintApart(path);
    if at.id.Some? && binding.Bound? {
      ResourceRoundTrip(binding.resource, c.publicBase, at.id.value);
    }
  }

  lemma TokenCases(c: Config, w: World, auth: string, path: string)
    requires IsToken(auth) && Verdict(c, w, auth, PlaceOf(path)).Grant?
    ensures ThreeCases(c, w, auth, PlaceOf(path)) <==> !(PlaceOf(path).tool && PlaceOf(path).id.None?)
  {
    var token, at := auth[|BEARER|..], PlaceOf(path);
    BearerPrefixes(auth);
    TokenAdmission(c, w, token, path);
    var binding := BindingIn(c, w, token);
    ForwardedResource(w.parse(token).claims, Carried(binding, at));
    WithinCases(c, binding, path);
  }

  /** One admission falls into the three cases exactly unless an unbound token was let
      through to a tool path whose solution id is malformed. */
  lemma AdmittedCases(c: Config, w: World, auth: string, path: string)
    requires Verdict(c, w, auth, PlaceOf(path)).Grant?
    ensures ThreeCases(c, w, auth, PlaceOf(path)) <==> !(IsTool(path) && SolutionId(path).None?)
  {
    BearerPrefixes(auth);
    if IsKey(auth) { KeyCases(c, w, auth, PlaceOf(path)); } else { TokenCases(c, w, auth, path); }
  }

  /** The law holds at a path, for every configuration, world and credential, exactly when
      a tool path there carries a well-formed solution id. */
  lemma LawHoldsAt(path: string)
    ensures (forall c, w, auth :: Verdict(c, w, auth, PlaceOf(path)).Grant? ==>
            ThreeCases(c, w, auth, PlaceOf(path))) <==>
              (IsTool(path) ==> SolutionId(path).Some?)
  {
    var at := PlaceOf(path);
    forall c, w, auth | Verdict(c, w, auth, at).Grant?
      ensures ThreeCases(c, w, auth, at) <==> !(IsTool(path) && SolutionId(path).None?)
    {
      AdmittedCases(c, w, auth, path);
    }
    if IsTool(path) && SolutionId(path).None? {
      var c, w := SampleConfig(), SampleWorld();
      SampleIsAdmitted(path);
      assert Verdict(c, w, SAMPLE, at).Grant? && !ThreeCases(c, w, SAMPLE, at);
    }
  }

  const SAMPLE := "Bearer t"

  function SampleConfig(): Config { Config("i", [], "host", "https://h", "", "", "g", false) }

  function SampleClaims(): Claims {
    Claims("", "i", "u", ["host"], "", "", "", "", "", false, [], None, "", None, "", "", None, None, false)
  }

  function SampleWorld(): World {
    World(true, _ => Parsed(SampleClaims()), _ => Known(false), _ => Known(false), _ => KeyInvalid, _ => true)
  }

  lemma SampleIsAdmitted(path: string)
    requires SolutionId(path).None?
    ensures Verdict(SampleConfig(), SampleWorld(), SAMPLE, PlaceOf(path)).Grant?
  {
    var c, w, token := SampleConfig(), SampleWorld(), SAMPLE[|BEARER|..];
    assert token == "t" && !(KEY_PREFIX <= token);
    RevocationMeaning(c, w, SampleClaims());
    BindingMeaning(["host"], "host", w.wellFormed, "");
    TokenAdmission(c, w, token, path);
  }

  /** Such a path exists. */
  lemma MalformedToolPath()
    ensures var p := "/solutions/" + "BAD" + "/" + "mcp"; IsTool(p) && SolutionId(p).None?
  {
    assert !ValidId("BAD");
    SolutionPathShape("BAD", "mcp");
  }

  /** No credential reaches a well-formed tool endpoint unless it names that endpoint. */
  lemma ToolNeedsItsResource(c: Config, w: World, auth: string, path: string)
    requires Verdict(c, w, auth, PlaceOf(path)).Grant? && IsTool(path) && SolutionId(path).Some?
    ensures IsToken(auth) && NamedResource(c, w, auth) == Some(McpResource(c.publicBase, SolutionId(path).value))
  {
    BearerPrefixes(auth);
    AdmittedCases(c, w, auth, path);
    MintApart(path);
  }

  // ----- API keys, and no credential at all -----

  predicate CommaFree(scopes: seq<string>) { forall s :: s in scopes ==> ',' !in s }

  /** A key is admitted exactly when this hop can vouch for it, accounts knows it, and its
      scopes can be told apart; what cannot be asked is a 503, everything else a 401. */
  lemma KeyAdmission(c: Config, w: World, key: string)
    ensures KeyDecision(c, w, key).Grant? <==>
              c.gatewayToken != "" && w.validateKey(key).KeyValid? && CommaFree(w.validateKey(key).scopes)
    ensures KeyDecision(c, w, key).Deny? ==>
              KeyDecision(c, w, key).code ==
                if c.gatewayToken == "" || w.validateKey(key).Unreachable? then 503 else 401
  {
    if w.validateKey(key).KeyValid? {
      var scopes := w.validateKey(key).scopes;
      if NoCommas(scopes) {
        forall s | s in scopes ensures ',' !in s { var i :| 0 <= i < |scopes| && scopes[i] == s; }
      }
      if CommaFree(scopes) { forall i | 0 <= i < |scopes| ensures ',' !in scopes[i] { assert scopes[i] in scopes; } }
    }
  }

  /** The credential decides which rules apply: a key anywhere but at a tool endpoint, a token
      everywhere, and nothing else is a credential. */
  lemma CredentialDecides(c: Config, w: World, auth: string, at: Place)
    ensures IsKey(auth) ==> Verdict(c, w, auth, at) == if at.tool then Deny(401) else KeyDecision(c, w, auth[7..])
    ensures IsToken(auth) ==> Verdict(c, w, auth, at) == JwtDecision(c, w, auth[7..], at)
    ensures !IsKey(auth) && !IsToken(auth) ==> Verdict(c, w, auth, at) == Deny(401)
  {
    BearerPrefixes(auth);
  }

  // ----- scopes -----

  const SCOPES := "x-scopes"

  lemma KeyScopes(user: string, org: string, scopes: seq<string>)
    ensures LastValue(KeyHeaders(user, org, scopes), SCOPES) == Some(Join(scopes, ','))
  {
    var hs := KeyHeaders(user, org, scopes);
    var tail := [("x-credential-kind", "api_key")];
    Missing(tail, SCOPES);
    assert hs == hs[..2] + [hs[2]] + tail;
    LastValueConcat(hs[..2] + [hs[2]], tail, SCOPES);
    LastValueConcat(hs[..2], [hs[2]], SCOPES);
    LastValueOne(hs[2], SCOPES);
    assert ToLower(SCOPES) == SCOPES;
  }

  lemma ScopesAreCanonical()
    ensures SCOPES in CANONICAL
  {
    assert CANONICAL[13] == SCOPES;
  }

  /** The scopes of an admitted key survive the trip through one header, except that a lone
      empty scope and no scopes at all look alike. */
  lemma ScopesRoundTrip(c: Config, w: World, key: string, user: string, org: string, scopes: seq<string>)
    requires w.validateKey(key) == KeyValid(user, org, scopes) && KeyDecision(c, w, key).Grant?
    ensures LastValue(Rebuilt(KeyDecision(c, w, key).given), SCOPES) == Some(Join(scopes, ','))
    ensures Split(Join(scopes, ','), ',') == if scopes == [] then [""] else scopes
  {
    RebuiltValue(KeyHeaders(user, org, scopes), SCOPES);
    ScopesAreCanonical();
    KeyScopes(user, org, scopes);
    if scopes != [] { SplitJoin(scopes, ','); }
  }

  // ----- the answer replaces whatever the caller sent -----

  /** How Envoy applies an allow: the headers are set, then the rest of the list removed. */
  function EnvoyApplied(h: Headers, r: Response): Headers
    requires r.Allowed?
  {
    Without(Applied(h, r.headers), r.remove)
  }

  lemma {:induction false} NotInMeaning(names: seq<string>, stamped: seq<string>, k: string)
    ensures k in NotIn(names, stamped) <==> k in names && k !in stamped
  {
    if names != [] { NotInMeaning(names[1..], stamped, k); }
  }

  /** After an allow, each gateway-owned header is exactly what the answer says: its
      canonical value, or nothing, whatever the caller sent. */
  lemma AnswerOwnsHeaders(h: Headers, given: Answer, k: string)
    requires Owned(k)
    ensures Values(EnvoyApplied(h, AllowedWith(given)), k) ==
              if k in CANONICAL then [OrEmpty(LastValue(given, k))] else []
  {
    RebuiltValue(given, k);
    AppliedMeaning(h, Rebuilt(given), k);
    NotInMeaning(OWNED, CANONICAL, k);
  }
}
