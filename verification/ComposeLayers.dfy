/** What a compose layers over a projection it does not own (composition.go): contributed
    packages in the frontend's dependency map, and fixture files in its fixtures directory. */
module ComposeLayers {
  import opened Wrappers

  type Map = map<string, string>
  type Adds = seq<(string, string)>

  function Without(m: Map, keys: set<string>): Map { m - keys }

  /** Additions in order, refusing one whose key is already there. */
  function AddAll(m: Map, adds: Adds): Option<Map>
    decreases |adds|
  {
    if adds == [] then Some(m)
    else if adds[0].0 in m then None
    else AddAll(m[adds[0].0 := adds[0].1], adds[1..])
  }

  function Keys(adds: Adds): set<string> { set a | a in adds :: a.0 }

  function AsMap(adds: Adds): Map {
    if adds == [] then map[] else AsMap(adds[1..])[adds[0].0 := adds[0].1]
  }

  predicate Distinct(adds: Adds) { forall i, j :: 0 <= i < j < |adds| ==> adds[i].0 != adds[j].0 }

  lemma {:induction false} AsMapKeys(adds: Adds)
    ensures AsMap(adds).Keys == Keys(adds)
  {
    if adds != [] {
      AsMapKeys(adds[1..]);
      assert forall a :: a in adds <==> a == adds[0] || a in adds[1..];
      assert Keys(adds) == {adds[0].0} + Keys(adds[1..]);
    }
  }

  lemma DistinctTail(adds: Adds)
    requires adds != []
    ensures Distinct(adds) <==> Distinct(adds[1..]) && adds[0].0 !in Keys(adds[1..])
    ensures Keys(adds) == {adds[0].0} + Keys(adds[1..])
  {
    var rest := adds[1..];
    assert forall a :: a in adds <==> a == adds[0] || a in rest;
    assert forall i :: 0 <= i < |rest| ==> rest[i] == adds[i+1];
    if adds[0].0 !in Keys(rest) && Distinct(rest) {
      forall j | 0 < j < |adds| ensures adds[0].0 != adds[j].0 { assert adds[j] == rest[j-1] && rest[j-1] in rest; }
    }
  }

  lemma UpdateMoves(m: Map, k: string, v: string, rest: Map)
    requires k !in rest
    ensures m[k := v] + rest == m + rest[k := v]
  {
  }

  /** Additions succeed exactly when their keys are new and distinct, and then the result is
      the two layers side by side. */
  lemma {:induction false} AddAllMeaning(m: Map, adds: Adds)
    ensures AddAll(m, adds).Some? <==> Distinct(adds) && Keys(adds) !! m.Keys
    ensures AddAll(m, adds).Some? ==> AddAll(m, adds).value == m + AsMap(adds)
    decreases |adds|
  {
    if adds != [] {
      var k, rest := adds[0].0, adds[1..];
      DistinctTail(adds);
      AsMapKeys(rest);
      if k !in m {
        AddAllMeaning(m[k := adds[0].1], rest);
        if k !in Keys(rest) { UpdateMoves(m, k, adds[0].1, AsMap(rest)); }
      }
    }
  }

  // ----- fixture paths -----

  const FIXTURES := "fixtures/"

  predicate NameChar(c: char) { 'a' <= c <= 'z' || '0' <= c <= '9' || c == '-' || c == '_' }

  /** Every name `^[a-z][a-z0-9]*(?:[-_][a-z0-9]+)*$` accepts is of this shape. */
  predicate FixtureName(name: string) {
    name != "" && 'a' <= name[0] <= 'z' && forall i :: 0 <= i < |name| ==> NameChar(name[i])
  }

  function FixturePath(name: string): string { FIXTURES + name + ".yaml" }

  /** safeRelativePath, and directly inside the fixtures directory. */
  predicate ManagedPath(path: string) {
    && |path| > |FIXTURES| && FIXTURES <= path
    && '/' !in path[|FIXTURES|..] && '\\' !in path && path[|FIXTURES|..] !in {".", ".."}
  }

  lemma StagedPathsAreManaged(name: string)
    requires FixtureName(name)
    ensures ManagedPath(FixturePath(name))
  {
    var p := FixturePath(name);
    assert p[|FIXTURES|..] == name + ".yaml";
    assert '/' !in ".yaml" && '\\' !in ".yaml" && '\\' !in FIXTURES;
    assert '/' !in name && '\\' !in name;
    assert p == FIXTURES + name + ".yaml";
  }

  function FixtureAdds(fixtures: Adds): Adds {
    if fixtures == [] then [] else [(FixturePath(fixtures[0].0), fixtures[0].1)] + FixtureAdds(fixtures[1..])
  }

  function Paths(adds: Adds): seq<string> {
    if adds == [] then [] else [adds[0].0] + Paths(adds[1..])
  }

  lemma {:induction false} PathsKeys(adds: Adds)
    ensures |Paths(adds)| == |adds| && (forall i :: 0 <= i < |adds| ==> Paths(adds)[i] == adds[i].0)
  {
    if adds != [] { PathsKeys(adds[1..]); }
  }

  lemma {:induction false} FixtureAddsAt(fixtures: Adds)
    ensures |FixtureAdds(fixtures)| == |fixtures|
    ensures forall i :: 0 <= i < |fixtures| ==> FixtureAdds(fixtures)[i] == (FixturePath(fixtures[i].0), fixtures[i].1)
  {
    if fixtures != [] { FixtureAddsAt(fixtures[1..]); }
  }

  predicate AllManaged(paths: seq<string>) { forall i :: 0 <= i < |paths| ==> ManagedPath(paths[i]) }

  predicate NamesOk(fixtures: Adds) { forall i :: 0 <= i < |fixtures| ==> FixtureName(fixtures[i].0) }

  // ----- one compose -----

  /** The frontend's dependencies and its install catalog; the files and the fixture catalog. */
  datatype State = State(dependencies: Map, installed: Map, files: Map, catalog: seq<string>)

  datatype Input = Input(frontends: Adds, fixtures: Adds)

  function PathSet(paths: seq<string>): set<string> { set p | p in paths }

  function Composed(s: State, i: Input): Option<State> {
    if !AllManaged(s.catalog) then None
    else
      var files := AddAll(Without(s.files, PathSet(s.catalog)), FixtureAdds(i.fixtures));
      var dependencies := AddAll(Without(s.dependencies, s.installed.Keys), i.frontends);
      if files.None? || dependencies.None? then None
      else Some(State(dependencies.value, AsMap(i.frontends), files.value, Paths(FixtureAdds(i.fixtures))))
  }

  class Projection {
    var dependencies: Map
    var installed: Map
    var files: Map
    var catalog: seq<string>

    function Value(): State
      reads this
    {
      State(dependencies, installed, files, catalog)
    }

    constructor (base: Map, files: Map)
      ensures Value() == State(base, map[], files, [])
    {
      dependencies, installed, this.files, catalog := base, map[], files, [];
    }

    /** removeManagedFixtureFiles. A listed file that is gone is skipped. */
    method RemoveManagedFixtureFiles() returns (ok: bool)
      modifies this`files
      ensures ok <==> AllManaged(catalog)
      ensures ok ==> files == Without(old(files), PathSet(catalog))
    {
      for i := 0 to |catalog|
        invariant forall j :: 0 <= j < i ==> ManagedPath(catalog[j])
        invariant files == Without(old(files), PathSet(catalog[..i]))
      {
        if !ManagedPath(catalog[i]) {
          return false;
        }
        assert catalog[..i+1] == catalog[..i] + [catalog[i]];
        files := files - {catalog[i]};
      }
      assert catalog[..|catalog|] == catalog;
      return true;
    }

    /** stageContributionSources, for the fixtures. */
    method StageFixtures(fixtures: Adds) returns (ok: bool)
      modifies this`files
      ensures ok <==> AllManaged(catalog) && AddAll(Without(old(files), PathSet(catalog)), FixtureAdds(fixtures)).Some?
      ensures ok ==> files == AddAll(Without(old(files), PathSet(catalog)), FixtureAdds(fixtures)).value
    {
      ok := RemoveManagedFixtureFiles();
      if ok {
        ok, files := PutAll(files, FixtureAdds(fixtures));
      }
    }

    /** updateFrontendInstallGraph. */
    method UpdateFrontendInstallGraph(frontends: Adds) returns (ok: bool)
      modifies this`dependencies
      ensures ok <==> AddAll(Without(old(dependencies), installed.Keys), frontends).Some?
      ensures dependencies ==
                if ok then AddAll(Without(old(dependencies), installed.Keys), frontends).value
                else old(dependencies)
    {
      var left := dependencies;
      left := left - installed.Keys;
      var merged;
      ok, merged := PutAll(left, frontends);
      if ok {
        dependencies := merged;
      }
    }

    /** The part of a compose that stages, merges and, last of all, writes the catalogs. */
    method Compose(i: Input) returns (ok: bool)
      modifies this
      ensures ok <==> Composed(old(Value()), i).Some?
      ensures ok ==> Value() == Composed(old(Value()), i).value
    {
      ok := StageFixtures(i.fixtures);
      if !ok {
        return;
      }
      ok := UpdateFrontendInstallGraph(i.frontends);
      if !ok {
        return;
      }
      installed, catalog := AsMap(i.frontends), Paths(FixtureAdds(i.fixtures));
    }
  }

  method PutAll(m: Map, adds: Adds) returns (ok: bool, r: Map)
    ensures ok <==> AddAll(m, adds).Some?
    ensures ok ==> r == AddAll(m, adds).value
  {
    r := m;
    assert adds[0..] == adds;
    for i := 0 to |adds|
      invariant AddAll(r, adds[i..]) == AddAll(m, adds)
    {
      assert adds[i..][0] == adds[i] && adds[i..][1..] == adds[i+1..];
      if adds[i].0 in r {
        return false, r;
      }
      r := r[adds[i].0 := adds[i].1];
    }
    assert adds[|adds|..] == [];
    return true, r;
  }

  // ----- every run of composes -----

  /** Two layers side by side: the base is still all there, and can be had back. */
  ghost predicate Layered(m: Map, base: Map, top: Map) { m == base + top && base.Keys !! top.Keys }

  lemma BaseComesBack(m: Map, base: Map, top: Map)
    requires Layered(m, base, top)
    ensures Without(m, top.Keys) == base
  {
  }

  /** What holds of a projection, given what it held before the first compose. */
  ghost predicate Clean(s: State, base: State) {
    && Layered(s.dependencies, base.dependencies, s.installed)
    && AllManaged(s.catalog)
    && exists fixtures :: Layered(s.files, base.files, fixtures) && fixtures.Keys == PathSet(s.catalog)
  }

  /** When a compose of these contributions succeeds on a clean projection: a fact about the
      base and the contributions alone. */
  predicate Fits(base: State, i: Input) {
    && Distinct(i.frontends) && Keys(i.frontends) !! base.dependencies.Keys
    && Distinct(FixtureAdds(i.fixtures)) && Keys(FixtureAdds(i.fixtures)) !! base.files.Keys
  }

  /** What it then leaves: the base with these contributions over it. */
  function Latest(base: State, i: Input): State {
    State(base.dependencies + AsMap(i.frontends), AsMap(i.frontends),
          base.files + AsMap(FixtureAdds(i.fixtures)), Paths(FixtureAdds(i.fixtures)))
  }

  lemma ComposeIsFresh(s: State, base: State, i: Input)
    requires Clean(s, base)
    ensures Composed(s, i) == if Fits(base, i) then Some(Latest(base, i)) else None
  {
    var fixtures :| Layered(s.files, base.files, fixtures) && fixtures.Keys == PathSet(s.catalog);
    BaseComesBack(s.dependencies, base.dependencies, s.installed);
    BaseComesBack(s.files, base.files, fixtures);
    AddAllMeaning(base.dependencies, i.frontends);
    AddAllMeaning(base.files, FixtureAdds(i.fixtures));
  }

  lemma LatestIsClean(base: State, i: Input)
    requires Fits(base, i) && NamesOk(i.fixtures)
    ensures Clean(Latest(base, i), base)
  {
    var adds := FixtureAdds(i.fixtures);
    AsMapKeys(i.frontends);
    AsMapKeys(adds);
    PathsKeys(adds);
    FixtureAddsAt(i.fixtures);
    forall k | 0 <= k < |adds| ensures ManagedPath(Paths(adds)[k]) { StagedPathsAreManaged(i.fixtures[k].0); }
    forall p ensures p in PathSet(Paths(adds)) <==> p in Keys(adds) {
      if p in Paths(adds) {
        var k :| 0 <= k < |adds| && Paths(adds)[k] == p;
        assert adds[k] in adds;
      }
      if a :| a in adds && a.0 == p {
        var k :| 0 <= k < |adds| && adds[k] == a;
        assert Paths(adds)[k] == p;
      }
    }
    assert Layered(Latest(base, i).files, base.files, AsMap(adds));
  }

  function ComposedAll(s: State, inputs: seq<Input>): Option<State>
    decreases |inputs|
  {
    if inputs == [] then Some(s)
    else
      match Composed(s, inputs[0])
      case None => None
      case Some(next) => ComposedAll(next, inputs[1..])
  }

  predicate AllFit(base: State, inputs: seq<Input>) { forall k :: 0 <= k < |inputs| ==> Fits(base, inputs[k]) }

  lemma AllFitCons(base: State, inputs: seq<Input>)
    requires inputs != []
    ensures AllFit(base, inputs) <==> Fits(base, inputs[0]) && AllFit(base, inputs[1..])
  {
    var rest := inputs[1..];
    assert forall k :: 0 <= k < |rest| ==> rest[k] == inputs[k+1];
    if AllFit(base, rest) && Fits(base, inputs[0]) {
      forall k | 0 <= k < |inputs| ensures Fits(base, inputs[k]) { if k > 0 { assert Fits(base, rest[k-1]); } }
    }
  }

  /** Over every run of composes: it succeeds exactly when each input fits the base, and it
      ends as if the last compose had been the first and only one. */
  lemma {:induction false} RunsAreIndependent(s: State, base: State, inputs: seq<Input>)
    requires Clean(s, base) && inputs != []
    requires forall k :: 0 <= k < |inputs| ==> NamesOk(inputs[k].fixtures)
    ensures ComposedAll(s, inputs) ==
              if AllFit(base, inputs) then Some(Latest(base, inputs[|inputs|-1])) else None
    decreases |inputs|
  {
    var first, rest := inputs[0], inputs[1..];
    ComposeIsFresh(s, base, first);
    AllFitCons(base, inputs);
    if Fits(base, first) {
      LatestIsClean(base, first);
      if rest != [] { RunsAreIndependent(Latest(base, first), base, rest); }
    }
  }

  /** The state a projection starts in is clean. */
  lemma StartIsClean(base: Map, files: Map)
    ensures Clean(State(base, map[], files, []), State(base, map[], files, []))
  {
    assert Layered(files, files, map[]);
  }

  /** The latest contributions and the base never share a key. */
  lemma LayersStayDisjoint(base: State, inputs: seq<Input>)
    requires Clean(base, base) && inputs != []
    requires forall k :: 0 <= k < |inputs| ==> NamesOk(inputs[k].fixtures)
    requires ComposedAll(base, inputs).Some?
    ensures var s, last := ComposedAll(base, inputs).value, inputs[|inputs|-1];
            && Layered(s.dependencies, base.dependencies, AsMap(last.frontends))
            && Layered(s.files, base.files, AsMap(FixtureAdds(last.fixtures)))
  {
    RunsAreIndependent(base, base, inputs);
    var last := inputs[|inputs|-1];
    assert Fits(base, last);
    AsMapKeys(last.frontends);
    AsMapKeys(FixtureAdds(last.fixtures));
  }
}
