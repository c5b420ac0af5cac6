/** What each header of an answer says of the credential it was given for (ext_authz.go), and
    what the upstream is then told. */
module TokenAnswer {
  import opened Text
  import opened Wrappers
  import opened Headers
  import opened SolutionPaths
  import opened ExtAuthz
  import opened Admission
  import opened Gateway
  import opened GatewayIdentity

  // ----- by name -----

  /** The claims a token's answer always states. */
  function IdentityClaim(claims: Claims, k: string): Option<string> {
    if k == "x-credential-kind" then Some("session")
    else if k == "x-session-id" then Some(claims.sessionId)
    else if k == "x-platform-role" then Some(claims.platformRole)
    else if k == "x-org-role" then Some(claims.orgRole)
    else if k == "x-org-id" then Some(claims.orgId)
    else if k == "x-user-id" then Some(claims.subject)
    else None
  }

  /** How and when the person authenticated, as far as the token says. */
  function SessionClaim(claims: Claims, k: string): Option<string> {
    if k == "x-mfa-verified-at" && claims.mfaAt.Some? then claims.mfaAt
    else if k == "x-assurance-level" && claims.assurance != "" then Some(claims.assurance)
    else if k == "x-auth-time" && claims.authTime.Some? then claims.authTime
    else if k == "x-authentication-methods" && claims.methods != [] then Some(Join(claims.methods, ','))
    else if k == "x-mfa-satisfied" && claims.mfa then Some("true")
    else None
  }

  /** On whose behalf, through which client, and with which grants. */
  function GrantClaim(claims: Claims, k: string): Option<string> {
    if k == "x-scoped-roles-truncated" && claims.rolesTruncated then Some("true")
    else if k == "x-scoped-roles" && claims.scopedRoles.Some? then claims.scopedRoles
    else if k == "x-act" && claims.act.Some? then claims.act
    else if k == "x-client-id" && claims.party != "" then Some(claims.party)
    else if k == "x-acting-as-user-id" && claims.actingAs != "" then Some(claims.actingAs)
    else None
  }

  function ClaimFor(claims: Claims, confined: string, k: string): Option<string> {
    if GrantClaim(claims, k).Some? then GrantClaim(claims, k)
    else if SessionClaim(claims, k).Some? then SessionClaim(claims, k)
    else if k == "x-codefly-resource" && confined != "" then Some(confined)
    else IdentityClaim(claims, k)
  }

  // ----- the list, read by name -----

  lemma CanonicalLower(k: string)
    requires k in CANONICAL
    ensures k != "" && ToLower(k) == k
  {
    CanonicalAreOwned();
    OwnedStart(k);
    OwnedLower(k);
  }

  lemma FieldValue(present: bool, name: string, value: string, k: string)
    requires name in CANONICAL
    ensures LastValue(Field(present, name, value), k) == if present && k == name then Some(value) else None
  {
    CanonicalLower(name);
    LastValueOne((name, value), k);
  }

  lemma FrontValue(name: string, value: string, rest: Answer, k: string)
    requires name in CANONICAL
    ensures LastValue([(name, value)] + rest, k) ==
              if LastValue(rest, k).Some? then LastValue(rest, k)
              else if k == name then Some(value) else None
  {
    CanonicalLower(name);
    LastValueOne((name, value), k);
    LastValueConcat([(name, value)], rest, k);
  }

  lemma IdentityNames()
    ensures "x-user-id" in CANONICAL && "x-org-id" in CANONICAL && "x-org-role" in CANONICAL
    ensures "x-platform-role" in CANONICAL && "x-session-id" in CANONICAL && "x-credential-kind" in CANONICAL
    ensures "x-scopes" in CANONICAL
  {
    assert CANONICAL[0] == "x-user-id" && CANONICAL[1] == "x-org-id" && CANONICAL[2] == "x-org-role";
    assert CANONICAL[3] == "x-platform-role" && CANONICAL[10] == "x-session-id" && CANONICAL[13] == "x-scopes";
    assert CANONICAL[14] == "x-credential-kind";
  }

  lemma SessionNames()
    ensures "x-mfa-satisfied" in CANONICAL && "x-authentication-methods" in CANONICAL && "x-auth-time" in CANONICAL
    ensures "x-assurance-level" in CANONICAL && "x-mfa-verified-at" in CANONICAL
  {
    assert CANONICAL[15] == "x-mfa-satisfied" && CANONICAL[16] == "x-authentication-methods";
    assert CANONICAL[17] == "x-auth-time" && CANONICAL[18] == "x-assurance-level"
           && CANONICAL[19] == "x-mfa-verified-at";
  }

  lemma GrantNames()
    ensures "x-acting-as-user-id" in CANONICAL && "x-client-id" in CANONICAL && "x-act" in CANONICAL
    ensures "x-scoped-roles" in CANONICAL && "x-scoped-roles-truncated" in CANONICAL
    ensures "x-codefly-resource" in CANONICAL
  {
    assert CANONICAL[5] == "x-scoped-roles" && CANONICAL[6] == "x-scoped-roles-truncated";
    assert CANONICAL[11] == "x-acting-as-user-id" && CANONICAL[12] == "x-act";
    assert CANONICAL[20] == "x-client-id" && CANONICAL[21] == "x-codefly-resource";
  }

  lemma IdentityValue(claims: Claims, k: string)
    ensures LastValue(BaseHeaders(claims), k) == IdentityClaim(claims, k)
  {
    IdentityNames();
    SixValues(("x-user-id", claims.subject), ("x-org-id", claims.orgId), ("x-org-role", claims.orgRole),
      ("x-platform-role", claims.platformRole), ("x-session-id", claims.sessionId),
      ("x-credential-kind", "session"), k);
  }

  lemma FourValues(c: (string, string), d: (string, string), e: (string, string), f: (string, string), k: string)
    requires c.0 in CANONICAL && d.0 in CANONICAL && e.0 in CANONICAL && f.0 in CANONICAL
    ensures LastValue([c, d, e, f], k) ==
              if k == f.0 then Some(f.1) else if k == e.0 then Some(e.1) else if k == d.0 then Some(d.1)
              else if k == c.0 then Some(c.1) else None
  {
    assert [c, d, e, f] == [c] + [d, e, f] && [d, e, f] == [d] + [e, f] && [e, f] == [e] + [f] && [f] == [f] + [];
    FrontValue(f.0, f.1, [], k);
    FrontValue(e.0, e.1, [f], k);
    FrontValue(d.0, d.1, [e, f], k);
    FrontValue(c.0, c.1, [d, e, f], k);
  }

  lemma SixValues(a: (string, string), b: (string, string), c: (string, string), d: (string, string),
                  e: (string, string), f: (string, string), k: string)
    requires a.0 in CANONICAL && b.0 in CANONICAL && c.0 in CANONICAL && d.0 in CANONICAL
    requires e.0 in CANONICAL && f.0 in CANONICAL
    ensures LastValue([a, b, c, d, e, f], k) ==
              if k == f.0 then Some(f.1) else if k == e.0 then Some(e.1) else if k == d.0 then Some(d.1)
              else if k == c.0 then Some(c.1) else if k == b.0 then Some(b.1) else if k == a.0 then Some(a.1) else None
  {
    assert [a, b, c, d, e, f] == [a] + [b, c, d, e, f] && [b, c, d, e, f] == [b] + [c, d, e, f];
    FourValues(c, d, e, f, k);
    FrontValue(b.0, b.1, [c, d, e, f], k);
    FrontValue(a.0, a.1, [b, c, d, e, f], k);
  }

  lemma SessionValue(claims: Claims, k: string)
    ensures LastValue(SessionHeaders(claims), k) == SessionClaim(claims, k)
  {
    SessionNames();
    var a := Field(claims.mfa, "x-mfa-satisfied", "true");
    var b := Field(claims.methods != [], "x-authentication-methods", Join(claims.methods, ','));
    var c := Field(claims.authTime.Some?, "x-auth-time", OrEmpty(claims.authTime));
    var d := Field(claims.assurance != "", "x-assurance-level", claims.assurance);
    var e := Field(claims.mfaAt.Some?, "x-mfa-verified-at", OrEmpty(claims.mfaAt));
    FieldValue(claims.mfa, "x-mfa-satisfied", "true", k);
    FieldValue(claims.methods != [], "x-authentication-methods", Join(claims.methods, ','), k);
    FieldValue(claims.authTime.Some?, "x-auth-time", OrEmpty(claims.authTime), k);
    FieldValue(claims.assurance != "", "x-assurance-level", claims.assurance, k);
    FieldValue(claims.mfaAt.Some?, "x-mfa-verified-at", OrEmpty(claims.mfaAt), k);
    FiveParts(a, b, c, d, e, k);
    assert SessionHeaders(claims) == a + b + c + d + e;
  }

  /** Read from the back, the first part that has the name. */
  lemma FiveParts(a: Answer, b: Answer, c: Answer, d: Answer, e: Answer, k: string)
    ensures LastValue(a + b + c + d + e, k) ==
              if LastValue(e, k).Some? then LastValue(e, k)
              else if LastValue(d, k).Some? then LastValue(d, k)
              else if LastValue(c, k).Some? then LastValue(c, k)
              else if LastValue(b, k).Some? then LastValue(b, k)
              else LastValue(a, k)
  {
    LastValueConcat(a + b + c + d, e, k);
    LastValueConcat(a + b + c, d, k);
    LastValueConcat(a + b, c, k);
    LastValueConcat(a, b, k);
  }

  lemma GrantValue(claims: Claims, k: string)
    ensures LastValue(GrantHeaders(claims), k) == GrantClaim(claims, k)
  {
    GrantNames();
    var a := Field(claims.actingAs != "", "x-acting-as-user-id", claims.actingAs);
    var b := Field(claims.party != "", "x-client-id", claims.party);
    var c := Field(claims.act.Some?, "x-act", OrEmpty(claims.act));
    var d := Field(claims.scopedRoles.Some?, "x-scoped-roles", OrEmpty(claims.scopedRoles));
    var e := Field(claims.rolesTruncated, "x-scoped-roles-truncated", "true");
    FieldValue(claims.actingAs != "", "x-acting-as-user-id", claims.actingAs, k);
    FieldValue(claims.party != "", "x-client-id", claims.party, k);
    FieldValue(claims.act.Some?, "x-act", OrEmpty(claims.act), k);
    FieldValue(claims.scopedRoles.Some?, "x-scoped-roles", OrEmpty(claims.scopedRoles), k);
    FieldValue(claims.rolesTruncated, "x-scoped-roles-truncated", "true", k);
    FiveParts(a, b, c, d, e, k);
    assert GrantHeaders(claims) == a + b + c + d + e;
  }

  /** Every header of a token's answer carries the claim of its name, or none. */
  lemma AnswerStatesClaims(claims: Claims, confined: string, k: string)
    ensures LastValue(ClaimHeaders(claims, confined), k) == ClaimFor(claims, confined, k)
  {
    var base, mid := BaseHeaders(claims), Field(confined != "", "x-codefly-resource", confined);
    GrantNames();
    IdentityValue(claims, k);
    SessionValue(claims, k);
    GrantValue(claims, k);
    FieldValue(confined != "", "x-codefly-resource", confined, k);
    LastValueConcat(base + mid + SessionHeaders(claims), GrantHeaders(claims), k);
    LastValueConcat(base + mid, SessionHeaders(claims), k);
    LastValueConcat(base, mid, k);
  }

  // ----- API keys -----

  function KeyFor(user: string, org: string, scopes: seq<string>, k: string): Option<string> {
    if k == "x-credential-kind" then Some("api_key")
    else if k == "x-scopes" then Some(Join(scopes, ','))
    else if k == "x-org-id" then Some(org)
    else if k == "x-user-id" then Some(user)
    else None
  }

  /** An API key's answer states its user, organization, scopes and kind, and nothing else. */
  lemma AnswerStatesKey(user: string, org: string, scopes: seq<string>, k: string)
    ensures LastValue(KeyHeaders(user, org, scopes), k) == KeyFor(user, org, scopes, k)
  {
    IdentityNames();
    FourValues(("x-user-id", user), ("x-org-id", org), ("x-scopes", Join(scopes, ',')),
      ("x-credential-kind", "api_key"), k);
  }

  // ----- at the upstream -----

  /** What the credential itself says under a name. */
  function Stated(c: Config, w: World, auth: string, at: Place, k: string): Option<string> {
    var credential := if "Bearer " <= auth then auth[7..] else "";
    if IsKey(auth) then
      match w.validateKey(credential)
      case KeyValid(user, org, scopes) => KeyFor(user, org, scopes, k)
      case _ => None
    else if IsToken(auth) && w.parse(credential).Parsed? then
      ClaimFor(w.parse(credential).claims, Carried(BindingIn(c, w, credential), at), k)
    else None
  }

  lemma GrantStates(c: Config, w: World, auth: string, path: string, k: string)
    requires Verdict(c, w, auth, PlaceOf(path)).Grant?
    ensures LastValue(Verdict(c, w, auth, PlaceOf(path)).given, k) == Stated(c, w, auth, PlaceOf(path), k)
  {
    var credential := auth[7..];
    BearerPrefixes(auth);
    CredentialDecides(c, w, auth, PlaceOf(path));
    if IsKey(auth) {
      var answer := w.validateKey(credential);
      AnswerStatesKey(answer.user, answer.org, answer.scopes, k);
    } else {
      TokenAdmission(c, w, credential, path);
      AnswerStatesClaims(w.parse(credential).claims, Carried(BindingIn(c, w, credential), PlaceOf(path)), k);
    }
  }

  /** Under each identity header the upstream of a granted request reads what its credential
      says there, or the empty string. */
  lemma UpstreamReadsClaims(c: Config, w: World, e: Edge, r: Route, h: Headers, path: string, k: string)
    requires Served(c, w, e, Some(r), h, path).Upstream? && k in CANONICAL
    requires Verdict(c, w, Presented(h), PlaceOf(path)).Grant?
    ensures Values(Served(c, w, e, Some(r), h, path).headers, k) ==
              [OrEmpty(Stated(c, w, Presented(h), PlaceOf(path), k))]
  {
    CanonicalAreOwned();
    StampsAreNotCanonical();
    GrantStates(c, w, Presented(h), path, k);
    UpstreamIdentity(c, w, e, r, h, path, k);
  }
}
