/** The header map of a request and the edits the gateway makes to it in place
    (gateway.go). Names are lower-case ASCII. */
module Headers {
  import opened Text
  import opened Wrappers

  type Headers = map<string, seq<string>>

  // ----- the names only the gateway may set -----

  const GATEWAY_TOKEN := "x-codefly-gateway-token"
  const INTERNAL_TOKEN := "x-codefly-internal-token"
  const PUBLIC_ORIGIN := "x-codefly-public-origin"
  const RESOURCE := "x-codefly-resource"
  const INSTALLATION := "x-codefly-installation-id"
  const CLIENT_ID := "x-client-id"

  /** canonicalUpstreamAuthHeaders. */
  const CANONICAL: seq<string> := [
    "x-user-id", "x-org-id", "x-org-role", "x-platform-role", "x-roles", "x-scoped-roles",
    "x-scoped-roles-truncated", "x-auth-id", "x-user-email", "x-user-name", "x-session-id",
    "x-acting-as-user-id", "x-act", "x-scopes", "x-credential-kind", "x-mfa-satisfied",
    "x-authentication-methods", "x-auth-time", "x-assurance-level", "x-mfa-verified-at", CLIENT_ID, RESOURCE]

  /** untrustedAuthHeaders. */
  const OWNED: seq<string> := [
    "x-codefly-workload-presenter",
    "x-user-id", "x-org-id", "x-org-role", "x-platform-role", "x-roles", "x-scoped-roles",
    "x-scoped-roles-truncated", "x-auth-id", "x-user-email", "x-user-name", "x-session-id",
    "x-acting-as-user-id", "x-act", "x-scopes", "x-credential-kind", "x-mfa-satisfied",
    "x-authentication-methods", "x-auth-time", "x-assurance-level", "x-mfa-verified-at",
    GATEWAY_TOKEN, INTERNAL_TOKEN, PUBLIC_ORIGIN,
    "x-codefly-module-secret", "x-codefly-solution-secret", "x-codefly-solution-registration",
    "x-codefly-solution-id", "x-codefly-solution-publisher", CLIENT_ID, RESOURCE, INSTALLATION]

  const GRPC_PREFIX := "grpc-metadata-"

  predicate Owned(k: string) { k in OWNED }

  predicate GrpcName(k: string) { |k| >= |GRPC_PREFIX| && ToLower(k[..|GRPC_PREFIX|]) == GRPC_PREFIX }

  lemma CanonicalAreOwned()
    ensures forall i :: 0 <= i < |CANONICAL| ==> Owned(CANONICAL[i])
  {
    assert forall i :: 0 <= i < 20 ==> CANONICAL[i] == OWNED[i+1];
    assert CANONICAL[20] == OWNED[29] && CANONICAL[21] == OWNED[30];
  }

  lemma StampsAreOwned()
    ensures Owned(GATEWAY_TOKEN) && Owned(INTERNAL_TOKEN) && Owned(PUBLIC_ORIGIN) && Owned(INSTALLATION)
            && Owned(RESOURCE)
  {
    assert OWNED[21] == GATEWAY_TOKEN && OWNED[22] == INTERNAL_TOKEN && OWNED[23] == PUBLIC_ORIGIN;
    assert OWNED[30] == RESOURCE && OWNED[31] == INSTALLATION;
  }

  /** Every owned name begins with "x-". */
  lemma OwnedStart(k: string)
    requires Owned(k)
    ensures |k| > 1 && k[0] == 'x' && k[1] == '-'
  {
    assert forall i :: 0 <= i < |OWNED| ==> |OWNED[i]| > 1 && OWNED[i][0] == 'x' && OWNED[i][1] == '-';
  }

  predicate NoUpper(s: string) { forall j :: 0 <= j < |s| ==> !('A' <= s[j] <= 'Z') }

  lemma FirstOwnedLower()
    ensures forall i :: 0 <= i < 7 ==> NoUpper(OWNED[i])
  {
  }

  lemma NextOwnedLower()
    ensures forall i :: 7 <= i < 12 ==> NoUpper(OWNED[i])
  {
  }

  lemma SecondOwnedLower()
    ensures forall i :: 12 <= i < 17 ==> NoUpper(OWNED[i])
  {
  }

  lemma ThirdOwnedLower()
    ensures forall i :: 17 <= i < 22 ==> NoUpper(OWNED[i])
  {
  }

  lemma FifthOwnedLower()
    ensures forall i :: 22 <= i < 27 ==> NoUpper(OWNED[i])
  {
  }

  lemma LastOwnedLower()
    ensures forall i :: 27 <= i < 32 ==> NoUpper(OWNED[i])
  {
  }

  lemma OwnedLower(k: string)
    requires Owned(k)
    ensures ToLower(k) == k
  {
    var i :| 0 <= i < |OWNED| && OWNED[i] == k;
    FirstOwnedLower();
    NextOwnedLower();
    SecondOwnedLower();
    ThirdOwnedLower();
    FifthOwnedLower();
    LastOwnedLower();
    assert NoUpper(OWNED[i]);
    assert forall j :: 0 <= j < |k| ==> ToLower(k)[j] == k[j];
  }

  // ----- reading and editing -----

  function Values(h: Headers, k: string): seq<string> { if k in h then h[k] else [] }

  /** Header.Get: the first value. */
  function Get(h: Headers, k: string): string { if k in h && h[k] != [] then h[k][0] else "" }

  function Without(h: Headers, names: seq<string>): Headers { map k | k in h && k !in names :: h[k] }

  function WithoutGrpc(h: Headers): Headers { map k | k in h && !GrpcName(k) :: h[k] }

  /** stripAllIdentityHeaders: what is left of the caller's headers. */
  function Stripped(h: Headers): (r: Headers)
    ensures forall k :: k in r <==> k in h && !Owned(k) && !GrpcName(k)
    ensures forall k :: k in r ==> r[k] == h[k]
  {
    WithoutGrpc(Without(h, OWNED))
  }

  type Answer = seq<(string, string)>

  function SetOne(h: Headers, k: string, v: string): Headers { if k == "" then h else h[ToLower(k) := [v]] }

  /** Header.Set for each pair in order; pairs without a name are skipped. */
  function Applied(h: Headers, answer: Answer): Headers
    decreases |answer|
  {
    if answer == [] then h else Applied(SetOne(h, answer[0].0, answer[0].1), answer[1..])
  }

  /** The value the last pair of that name carries. */
  function LastValue(answer: Answer, k: string): Option<string> {
    if answer == [] then None
    else
      var later := LastValue(answer[1..], k);
      if later.Some? then later
      else if answer[0].0 != "" && ToLower(answer[0].0) == k then Some(answer[0].1)
      else None
  }

  lemma {:induction false} AppliedMeaning(h: Headers, answer: Answer, k: string)
    ensures Values(Applied(h, answer), k) ==
              if LastValue(answer, k).Some? then [LastValue(answer, k).value] else Values(h, k)
    ensures k in Applied(h, answer) <==> k in h || LastValue(answer, k).Some?
    decreases |answer|
  {
    if answer != [] { AppliedMeaning(SetOne(h, answer[0].0, answer[0].1), answer[1..], k); }
  }

  method DeleteAll(h: Headers, names: seq<string>) returns (r: Headers)
    ensures r == Without(h, names)
  {
    r := h;
    for i := 0 to |names|
      invariant r == Without(h, names[..i])
    {
      assert names[..i+1] == names[..i] + [names[i]];
      r := r - {names[i]};
    }
    assert names[..|names|] == names;
  }

  /** Go allows deleting from a map while ranging over it. */
  method DeleteGrpc(h: Headers) returns (r: Headers)
    ensures r == WithoutGrpc(h)
  {
    r := h;
    var left := h.Keys;
    while left != {}
      invariant left <= h.Keys
      invariant r == map k | k in h && (k in left || !GrpcName(k)) :: h[k]
      decreases left
    {
      var k :| k in left;
      if GrpcName(k) {
        r := r - {k};
      }
      left := left - {k};
    }
  }

  // ----- the Connection header -----

  predicate Blank(c: char) { c == ' ' || c == '\t' || c == '\n' || c == '\r' }

  /** textproto.TrimString. */
  function Trim(s: string): string {
    if s != "" && Blank(s[0]) then Trim(s[1..])
    else if s != "" && Blank(s[|s|-1]) then Trim(s[..|s|-1])
    else s
  }

  function TokensOf(parts: seq<string>): seq<string> {
    if parts == [] then [] else [ToLower(Trim(parts[0]))] + TokensOf(parts[1..])
  }

  /** The comma-separated options of a list of header values, lower-cased; an empty one is "". */
  function Tokens(values: seq<string>): seq<string> {
    if values == [] then [] else TokensOf(Split(values[0], ',')) + Tokens(values[1..])
  }

  const CONNECTION := "connection"
  const UPGRADE := "upgrade"

  predicate Drops(tokens: seq<string>, k: string) { k in tokens && k != "" && k != UPGRADE && !Owned(k) }

  function Dropped(h: Headers, tokens: seq<string>): Headers { map k | k in h && !Drops(tokens, k) :: h[k] }

  /** removeCallerConnectionOptions. */
  function OptionsRemoved(h: Headers): Headers {
    var tokens := Tokens(Values(h, CONNECTION));
    var kept := Dropped(h, tokens) - {CONNECTION};
    if UPGRADE in tokens then kept[CONNECTION := ["Upgrade"]] else kept
  }

  /** isGatewayOwnedHeader; strings.EqualFold on ASCII. */
  method IsGatewayOwnedHeader(name: string) returns (owned: bool)
    ensures owned <==> Owned(ToLower(name))
  {
    var names := OWNED;
    for i := 0 to |names|
      invariant forall j :: 0 <= j < i ==> names[j] != ToLower(name)
    {
      OwnedLower(names[i]);
      if ToLower(name) == ToLower(names[i]) {
        return true;
      }
    }
    return false;
  }

  method RemoveOption(h: Headers, option: string, ghost done: seq<string>, ghost was: Headers)
    returns (r: Headers, upgrade: bool)
    requires h == Dropped(was, done)
    ensures r == Dropped(was, done + [ToLower(Trim(option))])
    ensures upgrade <==> ToLower(Trim(option)) == UPGRADE
  {
    var token := ToLower(Trim(option));
    r, upgrade := h, false;
    var owned := IsGatewayOwnedHeader(Trim(option));
    if token == "" {
    } else if token == UPGRADE {
      upgrade := true;
    } else if owned {
    } else {
      r := h - {token};
    }
  }

  method RemoveOptionsOf(h: Headers, value: string, ghost done: seq<string>, ghost was: Headers)
    returns (r: Headers, upgrade: bool)
    requires h == Dropped(was, done)
    ensures r == Dropped(was, done + TokensOf(Split(value, ',')))
    ensures upgrade <==> UPGRADE in TokensOf(Split(value, ','))
  {
    var parts := Split(value, ',');
    ghost var now, all := done, done + TokensOf(parts);
    r, upgrade := h, false;
    assert parts[0..] == parts;
    for i := 0 to |parts|
      invariant r == Dropped(was, now) && now + TokensOf(parts[i..]) == all
      invariant UPGRADE in TokensOf(parts) <==> upgrade || UPGRADE in TokensOf(parts[i..])
    {
      assert parts[i..][0] == parts[i] && parts[i..][1..] == parts[i+1..];
      var asked;
      r, asked := RemoveOption(r, parts[i], now, was);
      upgrade := upgrade || asked;
      now := now + [ToLower(Trim(parts[i]))];
    }
    assert now == all;
  }

  method RemoveConnectionOptions(h: Headers) returns (r: Headers)
    ensures r == OptionsRemoved(h)
  {
    var upgrade;
    r, upgrade := DropOptions(h, Values(h, CONNECTION));
    r := r - {CONNECTION};
    if upgrade {
      r := r[CONNECTION := ["Upgrade"]];
    }
  }

  method DropOptions(h: Headers, values: seq<string>) returns (r: Headers, upgrade: bool)
    ensures r == Dropped(h, Tokens(values))
    ensures upgrade <==> UPGRADE in Tokens(values)
  {
    ghost var now: seq<string>, all := [], Tokens(values);
    r, upgrade := h, false;
    assert values[0..] == values;
    for i := 0 to |values|
      invariant r == Dropped(h, now) && now + Tokens(values[i..]) == all
      invariant UPGRADE in all <==> upgrade || UPGRADE in Tokens(values[i..])
    {
      assert values[i..][0] == values[i] && values[i..][1..] == values[i+1..];
      var asked;
      r, asked := RemoveOptionsOf(r, values[i], now, h);
      upgrade := upgrade || asked;
      now := now + TokensOf(Split(values[i], ','));
    }
    assert now == all;
  }
}
