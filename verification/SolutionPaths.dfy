/** Solution paths and resource identifiers (gateway_mcp_resource.go). */
module SolutionPaths {
  import opened Text
  import opened Wrappers

  const PREFIX := "/solutions/"
  const PROXY_BASE := "/api/solutions/"
  const PROXY_MID := "/proxy"
  const MCP := "mcp"
  const MINT := "/saas.accounts.v1.WorkContextService/StartTask"

  predicate Alphanumeric(c: char) { 'a' <= c <= 'z' || '0' <= c <= '9' }

  /** `^[a-z0-9](?:[a-z0-9_-]*[a-z0-9])?$` */
  predicate ValidId(s: string) {
    && s != "" && Alphanumeric(s[0]) && Alphanumeric(s[|s|-1])
    && forall i :: 0 <= i < |s| ==> Alphanumeric(s[i]) || s[i] == '_' || s[i] == '-'
  }

  function PathOnly(path: string): string { Cut(path, '?').0 }

  /** solutionIDFromPath. */
  function SolutionId(path: string): Option<string> {
    var p := PathOnly(path);
    if !(PREFIX <= p) then None
    else
      var id := Cut(p[|PREFIX|..], '/').0;
      if ValidId(id) then Some(id) else None
  }

  predicate IsMcp(sub: string) { sub == MCP || MCP + "/" <= sub }

  /** isSolutionToolRequestPath: the id is not looked at. */
  predicate IsTool(path: string) {
    var p := PathOnly(path);
    && PREFIX <= p
    && var (_, sub, found) := Cut(p[|PREFIX|..], '/');
       found && IsMcp(sub)
  }

  predicate IsMint(path: string) { PathOnly(path) == MINT }

  lemma MintPrefix()
    ensures !(PREFIX <= MINT)
  {
    assert MINT[2] == 'a' && PREFIX[2] == 'o';
  }

  lemma MintIsNoSolution(path: string)
    requires IsMint(path)
    ensures SolutionId(path).None? && !IsTool(path)
  {
    MintPrefix();
  }

  /** solutionMCPResource. */
  function McpResource(base: string, id: string): string { base + PROXY_BASE + id + PROXY_MID + "/" + MCP }

  /** resourceAudienceAdmits. */
  predicate ResourceAdmits(resource: string, id: string, base: string) {
    base != "" && resource == McpResource(base, id)
  }

  /** solutionIDFromResource: take the candidate out, rebuild, compare. */
  function IdFromResource(resource: string, base: string): Option<string> {
    if base == "" || !(base + PROXY_BASE <= resource) then None
    else
      var (id, _, found) := Cut(resource[|base + PROXY_BASE|..], '/');
      if !found || !ValidId(id) || McpResource(base, id) != resource then None else Some(id)
  }

  /** Reading an identifier back inverts composing it, and accepts nothing else. */
  lemma ResourceRoundTrip(resource: string, base: string, id: string)
    ensures IdFromResource(resource, base) == Some(id) <==>
              base != "" && ValidId(id) && resource == McpResource(base, id)
  {
    if base != "" && ValidId(id) && resource == McpResource(base, id) {
      var head := base + PROXY_BASE;
      assert resource == head + (id + "/" + "proxy/mcp");
      assert resource[|head|..] == id + "/" + "proxy/mcp";
      CutAt(id, "proxy/mcp", '/');
    }
  }

  /** One identifier names one solution. */
  lemma ResourceInjective(base: string, a: string, b: string)
    requires ValidId(a) && ValidId(b) && base != "" && McpResource(base, a) == McpResource(base, b)
    ensures a == b
  {
    ResourceRoundTrip(McpResource(base, a), base, a);
    ResourceRoundTrip(McpResource(base, a), base, b);
  }

  lemma PathsAlone(p: string, query: string)
    requires '?' !in p
    ensures PathOnly(p) == p && PathOnly(p + "?" + query) == p
  {
    CutNone(p, '?');
    CutAt(p, query, '?');
  }

  /** None of the readers looks at a query. */
  lemma QueryIgnored(p: string, query: string)
    requires '?' !in p
    ensures IsTool(p + "?" + query) <==> IsTool(p)
    ensures SolutionId(p + "?" + query) == SolutionId(p)
    ensures IsMint(p + "?" + query) <==> IsMint(p)
  {
    PathsAlone(p, query);
  }

  lemma SolutionRest(id: string, sub: string)
    requires '?' !in id && '?' !in sub
    ensures var p := "/solutions/" + id + "/" + sub;
            '?' !in p && PREFIX <= p && p[|PREFIX|..] == id + ['/'] + sub
  {
    assert PREFIX == "/solutions/" && '?' !in PREFIX && "/" == ['/'];
  }

  /** What the two readers see in `/solutions/<id>/<sub>`: only one of them checks the id, and
      the tool endpoint is the whole subtree. */
  lemma SolutionPathShape(id: string, sub: string)
    requires '/' !in id && '?' !in id && '?' !in sub
    ensures var p := "/solutions/" + id + "/" + sub;
            && (IsTool(p) <==> sub == "mcp" || "mcp/" <= sub)
            && SolutionId(p) == if ValidId(id) then Some(id) else None
  {
    SolutionRest(id, sub);
    PathsAlone("/solutions/" + id + "/" + sub, "");
    CutAt(id, sub, '/');
    assert MCP + "/" == "mcp/";
  }

  /** A path that does not begin so is neither. */
  lemma OtherPaths(p: string)
    requires '?' !in p && !("/solutions/" <= p)
    ensures !IsTool(p) && SolutionId(p) == None
  {
    PathsAlone(p, "");
  }

  /** The mint is one path. */
  lemma MintPath(p: string)
    requires '?' !in p
    ensures IsMint(p) <==> p == "/saas.accounts.v1.WorkContextService/StartTask"
  {
    PathsAlone(p, "");
  }

  lemma ResourceShape(base: string, id: string)
    ensures McpResource(base, id) == base + "/api/solutions/" + id + "/proxy/mcp"
  {
    assert PROXY_MID + "/" + MCP == "/proxy/mcp";
  }

  /** What the authorization check reads off a path. */
  datatype Place = Place(id: Option<string>, tool: bool, mint: bool)

  function PlaceOf(path: string): Place { Place(SolutionId(path), IsTool(path), IsMint(path)) }

  lemma MintApart(path: string)
    ensures PlaceOf(path).mint ==> PlaceOf(path).id.None? && !PlaceOf(path).tool
    ensures PlaceOf(path).id.Some? ==> ValidId(PlaceOf(path).id.value)
  {
    if IsMint(path) { MintIsNoSolution(path); }
  }
}
