/** Strings as the Go sources use them: splitting, joining and prefix tests. */
module Text {

  /** strings.Split for a one-character separator: never empty. */
  function Split(s: string, sep: char): (parts: seq<string>)
    ensures |parts| >= 1
    ensures forall i :: 0 <= i < |parts| ==> sep !in parts[i]
  {
    if s == "" then [""]
    else
      var rest := Split(s[1..], sep);
      if s[0] == sep then [""] + rest
      else [[s[0]] + rest[0]] + rest[1..]
  }

  /** strings.Join for a one-character separator. */
  function Join(parts: seq<string>, sep: char): string {
    if parts == [] then ""
    else if |parts| == 1 then parts[0]
    else parts[0] + [sep] + Join(parts[1..], sep)
  }

  lemma {:induction false} SplitNone(s: string, sep: char)
    requires sep !in s
    ensures Split(s, sep) == [s]
  {
    if s != "" {
      SplitNone(s[1..], sep);
      assert [s[0]] + s[1..] == s;
    }
  }

  /** The first separator is where the first part ends. */
  lemma {:induction false} SplitAt(u: string, v: string, sep: char)
    requires sep !in u
    ensures Split(u + [sep] + v, sep) == [u] + Split(v, sep)
  {
    var s := u + [sep] + v;
    if u == "" {
      assert s[1..] == v;
    } else {
      SplitAt(u[1..], v, sep);
      assert s[1..] == u[1..] + [sep] + v;
      assert [u[0]] + u[1..] == u;
    }
  }

  lemma {:induction false} SplitJoin(parts: seq<string>, sep: char)
    requires parts != []
    requires forall i :: 0 <= i < |parts| ==> sep !in parts[i]
    ensures Split(Join(parts, sep), sep) == parts
  {
    if |parts| == 1 {
      SplitNone(parts[0], sep);
    } else {
      SplitJoin(parts[1..], sep);
      SplitAt(parts[0], Join(parts[1..], sep), sep);
    }
  }

  lemma {:induction false} JoinSplit(s: string, sep: char)
    ensures Join(Split(s, sep), sep) == s
  {
    if s != "" {
      var rest := Split(s[1..], sep);
      JoinSplit(s[1..], sep);
      if s[0] == sep {
        assert ([""] + rest)[1..] == rest;
      } else {
        var parts := [[s[0]] + rest[0]] + rest[1..];
        assert parts[1..] == rest[1..];
        assert s == [s[0]] + s[1..];
      }
    }
  }

  lemma {:induction false} JoinAvoids(parts: seq<string>, sep: char, c: char)
    requires c != sep && forall i :: 0 <= i < |parts| ==> c !in parts[i]
    ensures c !in Join(parts, sep)
  {
    if |parts| > 1 { JoinAvoids(parts[1..], sep, c); }
  }

  /** Where a string holding the separator breaks for the first time. */
  lemma {:induction false} FirstBreak(s: string, sep: char) returns (u: string, v: string)
    requires sep in s
    ensures s == u + [sep] + v && sep !in u
  {
    if s[0] == sep {
      u, v := "", s[1..];
    } else {
      u, v := FirstBreak(s[1..], sep);
      u := [s[0]] + u;
    }
  }

  /** strings.Cut at one character: what precedes it and, when present, what follows. */
  function Cut(s: string, sep: char): (r: (string, string, bool))
    ensures r.2 <==> sep in s
    ensures sep !in r.0
    ensures s == if r.2 then r.0 + [sep] + r.1 else r.0
  {
    if s == "" then ("", "", false)
    else if s[0] == sep then ("", s[1..], true)
    else
      var (before, after, found) := Cut(s[1..], sep);
      ([s[0]] + before, after, found)
  }

  lemma {:induction false} CutAt(u: string, v: string, sep: char)
    requires sep !in u
    ensures Cut(u + [sep] + v, sep) == (u, v, true)
  {
    var s := u + [sep] + v;
    if u == "" {
      assert s[1..] == v;
    } else {
      assert s[1..] == u[1..] + [sep] + v;
      CutAt(u[1..], v, sep);
      assert [u[0]] + u[1..] == u;
    }
  }

  lemma {:induction false} CutNone(s: string, sep: char)
    requires sep !in s
    ensures Cut(s, sep) == (s, "", false)
  {
    if s != "" { CutNone(s[1..], sep); }
  }

  function Lower(c: char): char {
    if 'A' <= c <= 'Z' then c - 'A' + 'a' else c
  }

  function ToLower(s: string): (r: string)
    ensures |r| == |s|
    ensures forall i :: 0 <= i < |s| ==> r[i] == Lower(s[i])
  {
    seq(|s|, i requires 0 <= i < |s| => Lower(s[i]))
  }

  lemma ConsPrefix(c: char, r: string, s: string)
    ensures [c] + r <= s <==> s != "" && s[0] == c && r <= s[1..]
  {
    assert ([c] + r)[1..] == r;
    if s != "" && s[0] == c && r <= s[1..] {
      assert s == [c] + s[1..];
    }
  }
}
