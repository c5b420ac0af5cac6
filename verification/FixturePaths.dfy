/** Which paths a previous fixture catalog may name (composition.go): the guard, element by
    element, before a listed file is removed. */
module FixturePaths {
  import opened Text
  import opened SettingsFields
  import opened ComposeLayers

  /** A managed path is a safe path of two elements, of which the first is the fixtures
      directory: a file directly inside it. */
  lemma ManagedPathMeaning(path: string)
    ensures ManagedPath(path) <==>
              SafeRelativePath(path) && |Split(path, '/')| == 2 && Split(path, '/')[0] == "fixtures"
  {
    if "fixtures/" <= path && '/' !in path[9..] {
      InDirectory(path, path[9..]);
    }
    var parts := Split(path, '/');
    if |parts| == 2 && parts[0] == "fixtures" {
      JoinSplit(path, '/');
      assert parts == ["fixtures", parts[1]] && parts[1..] == [parts[1]];
      assert path == "fixtures" + ['/'] + parts[1];
      InDirectory(path, parts[1]);
      assert SafeRelativePath(path) ==> parts[1] !in {"", ".", ".."};
    }
  }

  lemma InDirectory(path: string, name: string)
    requires path == "fixtures" + ['/'] + name && '/' !in name
    ensures Split(path, '/') == ["fixtures", name]
    ensures "fixtures/" <= path && path[9..] == name
  {
    assert '/' !in "fixtures";
    SplitAt("fixtures", name, '/');
    SplitNone(name, '/');
  }

  /** Where a contributed fixture is staged. */
  lemma FixturePathReads(name: string)
    requires FixtureName(name)
    ensures Split(FixturePath(name), '/') == ["fixtures", name + ".yaml"]
  {
    assert '/' !in ".yaml" && '/' !in name;
    assert FixturePath(name) == "fixtures" + ['/'] + (name + ".yaml");
    InDirectory(FixturePath(name), name + ".yaml");
  }
}
