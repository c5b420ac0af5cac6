/** The external authorization decision (ext_authz.go): what credential is admitted where,
    and which identity headers the answer carries. */
module ExtAuthz {
  import opened Text
  import opened Wrappers
  import opened Headers
  import opened SolutionPaths

  // ----- what the decision reads -----

  datatype Config = Config(
    issuer: string, acceptedIssuers: seq<string>, audience: string, publicBase: string,
    internalToken: string, previousInternalToken: string, gatewayToken: string, failOpen: bool)

  /** Numbers and JSON values are carried already rendered. */
  datatype Claims = Claims(
    id: string, issuer: string, subject: string, audience: seq<string>,
    orgId: string, orgRole: string, platformRole: string, sessionId: string, familyId: string,
    mfa: bool, methods: seq<string>, authTime: Option<string>, assurance: string, mfaAt: Option<string>,
    actingAs: string, party: string, act: Option<string>, scopedRoles: Option<string>, rolesTruncated: bool)

  datatype TokenParse = NoKeys | UnknownKey | AmbiguousKey | BadToken | Parsed(claims: Claims)

  datatype Lookup = Failed | Known(revoked: bool)

  datatype KeyAnswer = Unreachable | KeyInvalid | KeyValid(user: string, org: string, scopes: seq<string>)

  /** Token parsing, revocation storage, accounts and URL syntax, as given answers. */
  datatype World = World(
    keysConfigured: bool, parse: string -> TokenParse, revoked: string -> Lookup,
    revokedSession: string -> Lookup, validateKey: string -> KeyAnswer, wellFormed: string -> bool)

  datatype Response = Denied(code: nat) | Allowed(headers: Answer, remove: seq<string>)

  // ----- the answer -----

  function OrEmpty(v: Option<string>): string { if v.Some? then v.value else "" }

  function RebuiltFor(names: seq<string>, given: Answer): Answer {
    if names == [] then [] else [(names[0], OrEmpty(LastValue(given, names[0])))] + RebuiltFor(names[1..], given)
  }

  /** Every canonical header, in the list's order, empty where nothing was given. */
  function Rebuilt(given: Answer): Answer { RebuiltFor(CANONICAL, given) }

  function NotIn(names: seq<string>, stamped: seq<string>): seq<string> {
    if names == [] then []
    else if names[0] in stamped then NotIn(names[1..], stamped)
    else [names[0]] + NotIn(names[1..], stamped)
  }

  /** What was decided: a denial, or the headers given to the answer. */
  datatype Decision = Deny(code: nat) | Grant(given: Answer)

  function Respond(d: Decision): Response {
    match d case Deny(code) => Denied(code) case Grant(given) => AllowedWith(given)
  }

  function AllowedWith(given: Answer): Response { Allowed(Rebuilt(given), NotIn(OWNED, CANONICAL)) }

  /** The map of lower-cased names, later values over earlier ones. */
  method ValueMap(given: Answer) returns (m: map<string, string>)
    ensures forall k :: k != "" ==> (if k in m then Some(m[k]) else None) == LastValue(given, k)
  {
    m := map[];
    for i := 0 to |given|
      invariant forall k :: k != "" ==> (if k in m then Some(m[k]) else None) == LastValue(given[..i], k)
    {
      m := m[ToLower(given[i].0) := given[i].1];
      assert given[..i+1] == given[..i] + [given[i]];
      forall k | k != "" ensures (if k in m then Some(m[k]) else None) == LastValue(given[..i+1], k) {
        LastValueConcat(given[..i], [given[i]], k);
        LastValueOne(given[i], k);
        if given[i].0 == "" { assert ToLower(given[i].0) == ""; } else { assert |ToLower(given[i].0)| > 0; }
      }
    }
    assert given[..|given|] == given;
  }

  lemma LastValueOne(p: (string, string), k: string)
    ensures LastValue([p], k) == if p.0 != "" && ToLower(p.0) == k then Some(p.1) else None
  {
    assert [p][1..] == [];
  }

  lemma {:induction false} LastValueConcat(a: Answer, b: Answer, k: string)
    ensures LastValue(a + b, k) == if LastValue(b, k).Some? then LastValue(b, k) else LastValue(a, k)
  {
    if a == [] {
      assert a + b == b;
    } else {
      assert (a + b)[0] == a[0] && (a + b)[1..] == a[1..] + b;
      LastValueConcat(a[1..], b, k);
    }
  }

  method Rebuild(names: seq<string>, given: Answer) returns (r: Answer)
    requires "" !in names
    ensures r == RebuiltFor(names, given)
  {
    var values := ValueMap(given);
    r := [];
    assert names[0..] == names;
    for i := 0 to |names|
      invariant r + RebuiltFor(names[i..], given) == RebuiltFor(names, given)
    {
      assert names[i..][0] == names[i] && names[i..][1..] == names[i+1..];
      assert names[i] in names;
      r := r + [(names[i], if names[i] in values then values[names[i]] else "")];
    }
    assert names[|names|..] == [];
  }

  method Unstamped(names: seq<string>, stamped: seq<string>) returns (r: seq<string>)
    ensures r == NotIn(names, stamped)
  {
    r := [];
    assert names[0..] == names;
    for i := 0 to |names|
      invariant r + NotIn(names[i..], stamped) == NotIn(names, stamped)
    {
      assert names[i..][0] == names[i] && names[i..][1..] == names[i+1..];
      if names[i] !in stamped {
        r := r + [names[i]];
      }
    }
    assert names[|names|..] == [];
  }

  lemma CanonicalNamed()
    ensures "" !in CANONICAL
  {
    CanonicalAreOwned();
    if "" in CANONICAL {
      var i :| 0 <= i < |CANONICAL| && CANONICAL[i] == "";
      OwnedStart(CANONICAL[i]);
    }
  }

  /** allow. */
  method Allow(given: Answer) returns (r: Response)
    ensures r == AllowedWith(given)
  {
    CanonicalNamed();
    var headers := Rebuild(CANONICAL, given);
    var remove := Unstamped(OWNED, CANONICAL);
    return Allowed(headers, remove);
  }

  // ----- resource audiences -----

  datatype Binding = Unbound | Bound(resource: string) | Ambiguous

  function Resources(audience: seq<string>, host: string): seq<string> {
    if audience == [] then []
    else if audience[0] == host then Resources(audience[1..], host)
    else [audience[0]] + Resources(audience[1..], host)
  }

  function BindingOf(audience: seq<string>, host: string, wellFormed: string -> bool): Binding {
    var rs := Resources(audience, host);
    if rs == [] then Unbound
    else if |rs| == 1 && wellFormed(rs[0]) then Bound(rs[0])
    else Ambiguous
  }

  /** classifyResourceAudience. */
  method ClassifyResourceAudience(audience: seq<string>, host: string, wellFormed: string -> bool) returns (b: Binding)
    ensures b == BindingOf(audience, host, wellFormed)
  {
    var resources: seq<string> := [];
    assert audience[0..] == audience;
    for i := 0 to |audience|
      invariant resources + Resources(audience[i..], host) == Resources(audience, host)
    {
      assert audience[i..][0] == audience[i] && audience[i..][1..] == audience[i+1..];
      if audience[i] != host {
        resources := resources + [audience[i]];
      }
    }
    assert resources + [] == resources;
    if |resources| == 0 {
      return Unbound;
    } else if |resources| == 1 {
      return if wellFormed(resources[0]) then Bound(resources[0]) else Ambiguous;
    }
    return Ambiguous;
  }

  lemma {:induction false} ResourcesMeaning(audience: seq<string>, host: string)
    ensures multiset(Resources(audience, host)) == multiset(audience)[host := 0]
  {
    if audience != [] {
      ResourcesMeaning(audience[1..], host);
      assert audience == [audience[0]] + audience[1..];
    }
  }

  /** A token is bound to a resource exactly when its audience is that resource, once, and
      otherwise only the host; the order does not matter. */
  lemma BindingMeaning(audience: seq<string>, host: string, wellFormed: string -> bool, r: string)
    ensures BindingOf(audience, host, wellFormed) == Bound(r) <==>
              wellFormed(r) && multiset(audience)[host := 0] == multiset{r}
    ensures BindingOf(audience, host, wellFormed) == Unbound <==> forall a :: a in audience ==> a == host
  {
    var rs := Resources(audience, host);
    ResourcesMeaning(audience, host);
    OneElement(rs, r);
    if rs != [] { assert rs[0] in multiset(rs) && rs[0] in audience && rs[0] != host; }
    if a :| a in audience && a != host { assert a in multiset(rs); }
  }

  lemma OneElement(s: seq<string>, x: string)
    ensures s == [x] <==> multiset(s) == multiset{x}
  {
    if multiset(s) == multiset{x} {
      assert |s| == |multiset(s)| == 1 && s[0] in multiset(s);
    }
  }

  // ----- the parts of checkJWT -----

  /** acceptsIssuer. */
  predicate AcceptsIssuer(c: Config, issuer: string) {
    issuer != "" && (issuer in c.acceptedIssuers || issuer == c.issuer)
  }

  /** The code a revocation lookup denies with; a failed one admits only when failing open. */
  function Blocked(l: Lookup, failOpen: bool): Option<nat> {
    if l.Failed? then (if failOpen then None else Some(503)) else if l.revoked then Some(401) else None
  }

  function SessionsBlocked(c: Config, w: World, keys: seq<string>): Option<nat> {
    if keys == [] then None
    else
      var own := if keys[0] == "" then None else Blocked(w.revokedSession(keys[0]), c.failOpen);
      if own.Some? then own else SessionsBlocked(c, w, keys[1..])
  }

  function RevocationBlocked(c: Config, w: World, claims: Claims): Option<nat> {
    var own := if claims.id == "" then None else Blocked(w.revoked(claims.id), c.failOpen);
    if own.Some? then own else SessionsBlocked(c, w, [claims.sessionId, claims.familyId])
  }

  lemma SessionsOfTwo(c: Config, w: World, a: string, b: string)
    ensures SessionsBlocked(c, w, [a, b]) ==
              if a != "" && Blocked(w.revokedSession(a), c.failOpen).Some? then Blocked(w.revokedSession(a), c.failOpen)
              else if b != "" then Blocked(w.revokedSession(b), c.failOpen)
              else None
  {
    assert [a, b][1..] == [b] && [b][1..] == [];
    assert SessionsBlocked(c, w, []) == None;
    assert SessionsBlocked(c, w, [b]) == if b != "" then Blocked(w.revokedSession(b), c.failOpen) else None;
  }

  method CheckRevocation(c: Config, w: World, claims: Claims) returns (code: Option<nat>)
    ensures code == RevocationBlocked(c, w, claims)
  {
    if claims.id != "" {
      code := Blocked(w.revoked(claims.id), c.failOpen);
      if code.Some? {
        return;
      }
    }
    var keys := [claims.sessionId, claims.familyId];
    assert keys[0..] == keys;
    for i := 0 to |keys|
      invariant SessionsBlocked(c, w, keys) == SessionsBlocked(c, w, keys[i..])
    {
      assert keys[i..][0] == keys[i] && keys[i..][1..] == keys[i+1..];
      if keys[i] != "" {
        code := Blocked(w.revokedSession(keys[i]), c.failOpen);
        if code.Some? {
          return;
        }
      }
    }
    return None;
  }

  /** Where a binding may act: denied, or admitted and carrying this resource onward. */
  datatype Confinement = Refused | Admitted(confined: string)

  function Confine(c: Config, binding: Binding, at: Place): Confinement {
    match binding
    case Ambiguous => Refused
    case Unbound => if at.id.Some? && at.tool then Refused else Admitted("")
    case Bound(r) =>
      if c.publicBase == "" then Refused
      else if at.id.Some? && ResourceAdmits(r, at.id.value, c.publicBase) then Admitted("")
      else if at.mint then Admitted(r)
      else Refused
  }

  // ----- the identity headers of a token -----

  function Field(present: bool, name: string, value: string): Answer { if present then [(name, value)] else [] }

  function BaseHeaders(claims: Claims): Answer {
    [("x-user-id", claims.subject), ("x-org-id", claims.orgId), ("x-org-role", claims.orgRole),
     ("x-platform-role", claims.platformRole), ("x-session-id", claims.sessionId), ("x-credential-kind", "session")]
  }

  function SessionHeaders(claims: Claims): Answer {
    Field(claims.mfa, "x-mfa-satisfied", "true")
    + Field(claims.methods != [], "x-authentication-methods", Join(claims.methods, ','))
    + Field(claims.authTime.Some?, "x-auth-time", OrEmpty(claims.authTime))
    + Field(claims.assurance != "", "x-assurance-level", claims.assurance)
    + Field(claims.mfaAt.Some?, "x-mfa-verified-at", OrEmpty(claims.mfaAt))
  }

  function GrantHeaders(claims: Claims): Answer {
    Field(claims.actingAs != "", "x-acting-as-user-id", claims.actingAs)
    + Field(claims.party != "", CLIENT_ID, claims.party)
    + Field(claims.act.Some?, "x-act", OrEmpty(claims.act))
    + Field(claims.scopedRoles.Some?, "x-scoped-roles", OrEmpty(claims.scopedRoles))
    + Field(claims.rolesTruncated, "x-scoped-roles-truncated", "true")
  }

  function ClaimHeaders(claims: Claims, confined: string): Answer {
    BaseHeaders(claims) + Field(confined != "", RESOURCE, confined) + SessionHeaders(claims) + GrantHeaders(claims)
  }

  // ----- the decisions -----

  function ResourceDecision(c: Config, w: World, claims: Claims, at: Place): Decision {
    match Confine(c, BindingOf(claims.audience, c.audience, w.wellFormed), at)
    case Refused => Deny(401)
    case Admitted(confined) => Grant(ClaimHeaders(claims, confined))
  }

  function ClaimsDecision(c: Config, w: World, claims: Claims, at: Place): Decision {
    if !AcceptsIssuer(c, claims.issuer) then Deny(401)
    else
      var blocked := RevocationBlocked(c, w, claims);
      if blocked.Some? then Deny(blocked.value) else ResourceDecision(c, w, claims, at)
  }

  function JwtDecision(c: Config, w: World, token: string, at: Place): Decision {
    if !w.keysConfigured then Deny(503)
    else
      match w.parse(token)
      case NoKeys => Deny(503)
      case UnknownKey => Deny(401)
      case AmbiguousKey => Deny(401)
      case BadToken => Deny(401)
      case Parsed(claims) => ClaimsDecision(c, w, claims, at)
  }

  /** checkJWT. */
  method CheckJwt(c: Config, w: World, token: string, path: string) returns (r: Response)
    ensures r == Respond(JwtDecision(c, w, token, PlaceOf(path)))
  {
    if !w.keysConfigured {
      return Denied(503);
    }
    match w.parse(token) {
      case NoKeys => return Denied(503);
      case UnknownKey => return Denied(401);
      case AmbiguousKey => return Denied(401);
      case BadToken => return Denied(401);
      case Parsed(claims) =>
        if !AcceptsIssuer(c, claims.issuer) {
          return Denied(401);
        }
        var blocked := CheckRevocation(c, w, claims);
        if blocked.Some? {
          return Denied(blocked.value);
        }
        r := CheckResource(c, w, claims, path);
    }
  }

  method CheckResource(c: Config, w: World, claims: Claims, path: string) returns (r: Response)
    ensures r == Respond(ResourceDecision(c, w, claims, PlaceOf(path)))
  {
    var binding := ClassifyResourceAudience(claims.audience, c.audience, w.wellFormed);
    if binding.Ambiguous? || (binding.Bound? && c.publicBase == "") {
      return Denied(401);
    }
    var confined := "";
    var id := SolutionId(path);
    if binding.Bound? {
      if id.Some? && ResourceAdmits(binding.resource, id.value, c.publicBase) {
      } else if IsMint(path) {
        confined := binding.resource;
      } else {
        return Denied(401);
      }
    }
    if id.Some? && IsTool(path) {
      if c.publicBase == "" || binding.Unbound? {
        return Denied(401);
      }
    }
    r := Allow(ClaimHeaders(claims, confined));
  }

  function KeyHeaders(user: string, org: string, scopes: seq<string>): Answer {
    [("x-user-id", user), ("x-org-id", org), ("x-scopes", Join(scopes, ',')), ("x-credential-kind", "api_key")]
  }

  predicate NoCommas(scopes: seq<string>) { forall i :: 0 <= i < |scopes| ==> ',' !in scopes[i] }

  function KeyDecision(c: Config, w: World, key: string): Decision {
    if c.gatewayToken == "" then Deny(503)
    else
      match w.validateKey(key)
      case Unreachable => Deny(503)
      case KeyInvalid => Deny(401)
      case KeyValid(user, org, scopes) =>
        if NoCommas(scopes) then Grant(KeyHeaders(user, org, scopes)) else Deny(401)
  }

  /** checkAPIKey. */
  method CheckApiKey(c: Config, w: World, key: string) returns (r: Response)
    ensures r == Respond(KeyDecision(c, w, key))
  {
    if c.gatewayToken == "" {
      return Denied(503);
    }
    match w.validateKey(key) {
      case Unreachable => return Denied(503);
      case KeyInvalid => return Denied(401);
      case KeyValid(user, org, scopes) =>
        for i := 0 to |scopes|
          invariant forall j :: 0 <= j < i ==> ',' !in scopes[j]
        {
          if ',' in scopes[i] {
            return Denied(401);
          }
        }
        r := Allow(KeyHeaders(user, org, scopes));
    }
  }

  const BEARER := "Bearer "
  const KEY_PREFIX := "cfly_sk_"

  function Verdict(c: Config, w: World, auth: string, at: Place): Decision {
    if !(BEARER <= auth) then Deny(401)
    else
      var token := auth[|BEARER|..];
      if KEY_PREFIX <= token then (if at.tool then Deny(401) else KeyDecision(c, w, token))
      else JwtDecision(c, w, token, at)
  }

  /** Check. Every refusal without a bearer is a 401, whether or not a cookie was sent. */
  method Check(c: Config, w: World, auth: string, path: string) returns (r: Response)
    ensures r == Respond(Verdict(c, w, auth, PlaceOf(path)))
  {
    if auth != "" && BEARER <= auth {
      var token := auth[|BEARER|..];
      if KEY_PREFIX <= token {
        if IsTool(path) {
          return Denied(401);
        }
        r := CheckApiKey(c, w, token);
      } else {
        r := CheckJwt(c, w, token, path);
      }
    } else {
      r := Denied(401);
    }
  }

  // ----- what an answer carries -----

  lemma {:induction false} RebuiltForValue(names: seq<string>, given: Answer, k: string)
    requires forall n :: n in names ==> n != "" && ToLower(n) == n
    ensures LastValue(RebuiltFor(names, given), k) == if k in names then Some(OrEmpty(LastValue(given, k))) else None
  {
    if names != [] {
      assert forall n :: n in names <==> n == names[0] || n in names[1..];
      RebuiltForValue(names[1..], given, k);
    }
  }

  /** An answer names every canonical header, with the value given for it or empty, and
      no other header. */
  lemma RebuiltValue(given: Answer, k: string)
    ensures LastValue(Rebuilt(given), k) == if k in CANONICAL then Some(OrEmpty(LastValue(given, k))) else None
  {
    CanonicalAreOwned();
    forall n | n in CANONICAL ensures n != "" && ToLower(n) == n {
      var i :| 0 <= i < |CANONICAL| && CANONICAL[i] == n;
      OwnedStart(CANONICAL[i]);
      OwnedLower(n);
    }
    RebuiltForValue(CANONICAL, given, k);
  }

  lemma ResourceIsCanonical()
    ensures RESOURCE in CANONICAL
  {
    assert CANONICAL[21] == RESOURCE;
  }

  lemma {:induction false} Missing(given: Answer, k: string)
    requires forall p :: p in given ==> |p.0| != |k|
    ensures LastValue(given, k) == None
  {
    if given != [] {
      Missing(given[1..], k);
      assert given[0] in given;
    }
  }

  /** No other header of the answer is as long as x-codefly-resource. */
  lemma BaseIsNotResource(claims: Claims)
    ensures LastValue(BaseHeaders(claims), RESOURCE) == None
  {
    Missing(BaseHeaders(claims), RESOURCE);
  }

  lemma SessionIsNotResource(claims: Claims)
    ensures LastValue(SessionHeaders(claims), RESOURCE) == None
  {
    Missing(SessionHeaders(claims), RESOURCE);
  }

  lemma GrantIsNotResource(claims: Claims)
    ensures LastValue(GrantHeaders(claims), RESOURCE) == None
  {
    Missing(GrantHeaders(claims), RESOURCE);
  }

  /** The resource header of a token's answer is exactly the confinement it was admitted under. */
  lemma ForwardedResource(claims: Claims, confined: string)
    ensures LastValue(Rebuilt(ClaimHeaders(claims, confined)), RESOURCE) == Some(confined)
  {
    var mid := Field(confined != "", RESOURCE, confined);
    ResourceIsCanonical();
    RebuiltValue(ClaimHeaders(claims, confined), RESOURCE);
    BaseIsNotResource(claims);
    SessionIsNotResource(claims);
    GrantIsNotResource(claims);
    LastValueConcat(BaseHeaders(claims) + mid + SessionHeaders(claims), GrantHeaders(claims), RESOURCE);
    LastValueConcat(BaseHeaders(claims) + mid, SessionHeaders(claims), RESOURCE);
    LastValueConcat(BaseHeaders(claims), mid, RESOURCE);
    StampsAreOwned();
    OwnedLower(RESOURCE);
    assert mid == [] || mid[1..] == [];
  }
}
