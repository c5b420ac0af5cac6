/** What a placeholder of a path template is (envoy.go, routing.go): a brace, one or more
    characters that are not a closing brace, and a closing brace. */
module PlaceholderSyntax {
  import opened Text
  import opened PathTemplates

  ghost predicate Names(s: string, name: string) { s == ['{'] + name + ['}'] && name != "" && '}' !in name }

  /** The string is one placeholder. */
  ghost predicate IsPlaceholder(s: string) { exists name :: Names(s, name) }

  lemma NamedHead(seg: string, name: string, rest: string)
    requires seg == ['{'] + name + ['}'] + rest && name != "" && '}' !in name
    ensures PlaceholderLength(seg) == |name| + 2
  {
    assert seg[1..] == name + ['}'] + rest;
    CutAt(name, rest, '}');
    assert seg[|name|+1] == '}';
  }

  /** The length that is found is that of a placeholder. */
  lemma HeadIsPlaceholder(seg: string)
    requires PlaceholderLength(seg) > 0
    ensures IsPlaceholder(seg[..PlaceholderLength(seg)])
  {
    var (name, rest, _) := Cut(seg[1..], '}');
    assert seg[1..] == name + ['}'] + rest;
    assert seg == ['{'] + name + ['}'] + rest;
    assert seg[..|name|+2] == ['{'] + name + ['}'];
    assert Names(seg[..PlaceholderLength(seg)], name);
  }

  lemma NamedPart(seg: string, n: nat, name: string)
    requires n <= |seg| && Names(seg[..n], name)
    ensures PlaceholderLength(seg) == n
  {
    assert seg == seg[..n] + seg[n..];
    NamedHead(seg, name, seg[n..]);
  }

  /** A segment begins with at most one placeholder, and its length is the one found. */
  lemma LengthMeaning(seg: string, n: nat)
    requires 0 < n <= |seg|
    ensures PlaceholderLength(seg) == n <==> IsPlaceholder(seg[..n])
  {
    if PlaceholderLength(seg) == n { HeadIsPlaceholder(seg); }
    if IsPlaceholder(seg[..n]) {
      var name :| Names(seg[..n], name);
      NamedPart(seg, n, name);
    }
  }

  lemma {:induction false} PlaceholderFound(s: string) returns (i: nat, j: nat)
    requires HasPlaceholder(s)
    ensures i < j <= |s| && IsPlaceholder(s[i..j])
  {
    if PlaceholderLength(s) > 0 {
      HeadIsPlaceholder(s);
      i, j := 0, PlaceholderLength(s);
      assert s[0..j] == s[..j];
    } else {
      i, j := PlaceholderFound(s[1..]);
      assert s[1..][i..j] == s[i+1..j+1];
      i, j := i + 1, j + 1;
    }
  }

  lemma {:induction false} PlaceholderCounts(s: string, i: nat, j: nat)
    requires i < j <= |s| && IsPlaceholder(s[i..j])
    ensures HasPlaceholder(s)
  {
    if i == 0 {
      assert s[0..j] == s[..j];
      LengthMeaning(s, j);
    } else {
      assert s[1..][i-1..j-1] == s[i..j];
      PlaceholderCounts(s[1..], i - 1, j - 1);
    }
  }

  /** A text holds a placeholder when some part of it is one. */
  lemma HoldsMeaning(s: string)
    ensures HasPlaceholder(s) <==> exists i, j :: 0 <= i < j <= |s| && IsPlaceholder(s[i..j])
  {
    if HasPlaceholder(s) { var i, j := PlaceholderFound(s); }
    if i, j :| 0 <= i < j <= |s| && IsPlaceholder(s[i..j]) { PlaceholderCounts(s, i, j); }
  }

  /** A segment is a parameter when all of it is one placeholder. */
  lemma ParamMeaning(seg: string)
    ensures IsParam(seg) <==> IsPlaceholder(seg)
  {
    if seg != "" {
      LengthMeaning(seg, |seg|);
      assert seg[..|seg|] == seg;
    }
  }
}
