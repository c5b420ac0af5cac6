/** Paths as Go's filepath.Clean canonicalizes them, and the two guards of this repository that
    compare a path with its canonical form (composition.go, gitops.go). */
module CleanPaths {
  import opened Text
  import opened Topology
  import opened SettingsFields

  // ----- filepath.Clean -----

  /** One more element: empty and "." elements go, ".." takes its parent with it, and at the
      root there is no parent to leave. */
  function Enter(stack: seq<string>, element: string, rooted: bool): seq<string> {
    if element == "" || element == "." then stack
    else if element != ".." then stack + [element]
    else if stack != [] && stack[|stack|-1] != ".." then stack[..|stack|-1]
    else if rooted then stack
    else stack + [".."]
  }

  function Walk(stack: seq<string>, elements: seq<string>, rooted: bool): seq<string>
    decreases |elements|
  {
    if elements == [] then stack else Walk(Enter(stack, elements[0], rooted), elements[1..], rooted)
  }

  predicate IsAbs(path: string) { path != "" && path[0] == '/' }

  function Clean(path: string): string {
    var stack := Walk([], Split(path, '/'), IsAbs(path));
    if IsAbs(path) then "/" + Join(stack, '/') else if stack == [] then "." else Join(stack, '/')
  }

  predicate Escapes(path: string) { path == ".." || "../" <= path }

  /** filepath.IsLocal. */
  predicate IsLocal(path: string) { path != "" && !IsAbs(path) && !Escapes(Clean(path)) }

  // ----- what a walk leaves -----

  predicate Plain(elements: seq<string>) {
    forall i :: 0 <= i < |elements| ==> elements[i] !in {"", ".", ".."}
  }

  predicate Walked(stack: seq<string>) {
    && (forall i :: 0 <= i < |stack| ==> stack[i] !in {"", "."} && '/' !in stack[i])
    && (forall i :: 0 <= i < |stack| && stack[i] == ".." ==> stack[0] == "..")
  }

  lemma EnterWalked(stack: seq<string>, element: string, rooted: bool)
    requires Walked(stack) && '/' !in element
    ensures Walked(Enter(stack, element, rooted))
  {
    if stack != [] { assert stack[|stack|-1] == ".." ==> stack[0] == ".."; }
  }

  lemma {:induction false} WalkWalked(stack: seq<string>, elements: seq<string>, rooted: bool)
    requires Walked(stack) && forall i :: 0 <= i < |elements| ==> '/' !in elements[i]
    ensures Walked(Walk(stack, elements, rooted))
    decreases |elements|
  {
    if elements != [] {
      EnterWalked(stack, elements[0], rooted);
      WalkWalked(Enter(stack, elements[0], rooted), elements[1..], rooted);
    }
  }

  lemma {:induction false} WalkPlain(stack: seq<string>, elements: seq<string>, rooted: bool)
    requires Plain(elements)
    ensures Walk(stack, elements, rooted) == stack + elements
    decreases |elements|
  {
    if elements != [] {
      WalkPlain(stack + [elements[0]], elements[1..], rooted);
      assert stack + [elements[0]] + elements[1..] == stack + elements;
    } else {
      assert stack + elements == stack;
    }
  }

  /** A relative path is canonical and stays below its root exactly when it is "." or each of
      its elements is a name. */
  lemma CleanMeaning(path: string)
    requires !IsAbs(path)
    ensures Clean(path) == path && !Escapes(path) <==> path == "." || Plain(Split(path, '/'))
  {
    var elements := Split(path, '/');
    var stack := Walk([], elements, false);
    WalkWalked([], elements, false);
    JoinSplit(path, '/');
    if Plain(elements) {
      WalkPlain([], elements, false);
      assert [] + elements == elements;
      if Escapes(path) { EscapeIsParent(path); }
    }
    if Clean(path) == path && stack != [] {
      SplitJoin(stack, '/');
      if stack[0] == ".." { ParentEscapes(stack); }
    }
    SplitNone(".", '/');
    if path == "." { assert Walk([], ["."], false) == Walk([], ["."][1..], false) == []; }
  }

  lemma ParentEscapes(stack: seq<string>)
    requires stack != [] && stack[0] == ".."
    ensures Escapes(Join(stack, '/'))
  {
    if |stack| > 1 {
      var rest := Join(stack[1..], '/');
      assert Join(stack, '/') == ".." + ['/'] + rest;
      assert (".." + ['/'] + rest)[..3] == "../";
    }
  }

  lemma EscapeIsParent(path: string)
    requires Escapes(path)
    ensures Split(path, '/')[0] == ".."
  {
    assert '/' !in "..";
    if path == ".." {
      SplitNone("..", '/');
    } else {
      assert path[..3] == "../" && path[..2] == ".." && path[2] == '/';
      assert path == ".." + ['/'] + path[3..];
      SplitAt("..", path[3..], '/');
    }
  }

  // ----- the two guards -----

  lemma RootedIsNotPlain(path: string)
    requires IsAbs(path)
    ensures Split(path, '/')[0] == ""
  {
    assert path == "" + ['/'] + path[1..];
    SplitAt("", path[1..], '/');
  }

  /** safeRelativePath, in the terms its code is written in. */
  lemma SafeRelativeMeaning(path: string)
    ensures SafeRelativePath(path) <==>
              && path != "" && !IsAbs(path) && '\\' !in path
              && Clean(path) == path && path != "." && path != ".." && !("../" <= path)
  {
    if IsAbs(path) { RootedIsNotPlain(path); } else { CleanMeaning(path); }
    SplitNone("", '/');
    SplitNone(".", '/');
  }

  /** cleanRelativeFilesystemPath, likewise. */
  lemma CleanLocalMeaning(path: string)
    ensures CleanLocalPath(path) <==>
              path != "" && '\0' !in path && '\\' !in path && IsLocal(path) && Clean(path) == path
  {
    if IsAbs(path) { RootedIsNotPlain(path); } else { CleanMeaning(path); }
    SplitNone(".", '/');
  }
}
