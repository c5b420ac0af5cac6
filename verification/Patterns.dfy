/** The name patterns of the sources, written as the regular expressions they are, and the
    predicates of the model proved to match the same strings. */
module Patterns {
  import opened Text

  // ----- regular expressions -----

  /** `Chars` is a bracket expression: the ranges in it. */
  datatype Pattern =
    | Chars(ranges: seq<(char, char)>)
    | Then(first: Pattern, second: Pattern)
    | Many(body: Pattern)
    | Maybe(body: Pattern)

  function Some1(body: Pattern): Pattern { Then(body, Many(body)) }

  predicate InRanges(ranges: seq<(char, char)>, c: char) {
    exists i :: 0 <= i < |ranges| && ranges[i].0 <= c <= ranges[i].1
  }

  /** The whole string is in the language of the pattern. */
  ghost predicate Matches(p: Pattern, s: string)
    decreases p, |s|
  {
    match p
    case Chars(ranges) => |s| == 1 && InRanges(ranges, s[0])
    case Then(first, second) => exists i :: 0 <= i <= |s| && Matches(first, s[..i]) && Matches(second, s[i..])
    case Many(body) => s == "" || exists i :: 0 < i <= |s| && Matches(body, s[..i]) && Matches(p, s[i..])
    case Maybe(body) => s == "" || Matches(body, s)
  }

  predicate AllIn(ranges: seq<(char, char)>, s: string) { forall i :: 0 <= i < |s| ==> InRanges(ranges, s[i]) }

  lemma {:induction false} ManyChars(ranges: seq<(char, char)>, s: string)
    ensures Matches(Many(Chars(ranges)), s) <==> AllIn(ranges, s)
    decreases |s|
  {
    var p := Many(Chars(ranges));
    if s != "" {
      ManyChars(ranges, s[1..]);
      assert s == [s[0]] + s[1..] && s[..1] == [s[0]];
      if AllIn(ranges, s) { assert Matches(Chars(ranges), s[..1]) && Matches(p, s[1..]); }
      if Matches(p, s) {
        var i :| 0 < i <= |s| && Matches(Chars(ranges), s[..i]) && Matches(p, s[i..]);
        assert i == 1;
      }
    }
  }

  lemma ThenChar(ranges: seq<(char, char)>, rest: Pattern, s: string)
    ensures Matches(Then(Chars(ranges), rest), s) <==> s != "" && InRanges(ranges, s[0]) && Matches(rest, s[1..])
  {
    if i :| 0 <= i <= |s| && Matches(Chars(ranges), s[..i]) && Matches(rest, s[i..]) { assert i == 1; }
    if s != "" && InRanges(ranges, s[0]) && Matches(rest, s[1..]) { assert Matches(Chars(ranges), s[..1]); }
  }

  lemma SomeChars(ranges: seq<(char, char)>, s: string)
    ensures Matches(Some1(Chars(ranges)), s) <==> s != "" && AllIn(ranges, s)
  {
    ThenChar(ranges, Many(Chars(ranges)), s);
    if s != "" {
      ManyChars(ranges, s[1..]);
      assert s == [s[0]] + s[1..];
    }
  }

  // ----- names in parts -----

  /** `(?:S B+)*` and what it says: no part after a separator is empty. */
  function Parts(separators: seq<(char, char)>, body: seq<(char, char)>): Pattern {
    Then(Chars(separators), Some1(Chars(body)))
  }

  predicate InParts(separators: seq<(char, char)>, body: seq<(char, char)>, s: string) {
    && AllIn(separators + body, s)
    && forall i :: 0 <= i < |s| && InRanges(separators, s[i]) ==> i + 1 < |s| && InRanges(body, s[i+1])
  }

  predicate Disjoint(a: seq<(char, char)>, b: seq<(char, char)>) { forall c :: !(InRanges(a, c) && InRanges(b, c)) }

  lemma {:induction false} RunOf(ranges: seq<(char, char)>, s: string) returns (n: nat)
    ensures n <= |s| && AllIn(ranges, s[..n]) && (n < |s| ==> !InRanges(ranges, s[n]))
  {
    n := 0;
    if s != "" && InRanges(ranges, s[0]) {
      n := RunOf(ranges, s[1..]);
      n := n + 1;
      assert forall i :: 0 < i < |s| ==> s[i] == s[1..][i-1];
    }
  }

  lemma InBoth(a: seq<(char, char)>, b: seq<(char, char)>, c: char)
    ensures InRanges(a + b, c) <==> InRanges(a, c) || InRanges(b, c)
  {
    if i :| 0 <= i < |a| && a[i].0 <= c <= a[i].1 { assert (a + b)[i] == a[i]; }
    if i :| 0 <= i < |b| && b[i].0 <= c <= b[i].1 { assert (a + b)[|a| + i] == b[i]; }
  }

  lemma PartMeaning(separators: seq<(char, char)>, body: seq<(char, char)>, s: string)
    ensures Matches(Parts(separators, body), s) <==>
              |s| > 1 && InRanges(separators, s[0]) && AllIn(body, s[1..])
  {
    ThenChar(separators, Some1(Chars(body)), s);
    if s != "" { SomeChars(body, s[1..]); }
  }

  /** A run of body characters in front changes nothing, and neither does a whole part. */
  lemma InPartsAfter(separators: seq<(char, char)>, body: seq<(char, char)>, s: string, i: nat)
    requires Disjoint(separators, body) && i <= |s|
    requires AllIn(body, s[..i]) || Matches(Parts(separators, body), s[..i])
    requires i < |s| ==> InParts(separators, body, s[i..]) ==> InRanges(separators, s[i])
    ensures InParts(separators, body, s) <==> InParts(separators, body, s[i..])
  {
    PartMeaning(separators, body, s[..i]);
    forall c ensures InRanges(separators + body, c) <==> InRanges(separators, c) || InRanges(body, c) {
      InBoth(separators, body, c);
    }
    assert forall j :: 0 <= j < |s| - i ==> s[i..][j] == s[i+j];
    assert forall j :: 0 <= j < i ==> s[..i][j] == s[j];
    assert |s[..i]| > 1 ==> forall j :: 1 <= j < i ==> s[..i][1..][j-1] == s[j];
    if InParts(separators, body, s) {
      forall j | 0 <= j < |s[i..]| ensures InRanges(separators + body, s[i..][j]) { assert s[i..][j] == s[i+j]; }
      forall j | 0 <= j < |s[i..]| && InRanges(separators, s[i..][j])
        ensures j + 1 < |s[i..]| && InRanges(body, s[i..][j+1])
      {
        assert s[i..][j] == s[i+j];
        assert s[i..][j+1] == s[i+j+1];
      }
    }
    if InParts(separators, body, s[i..]) {
      forall j | 0 <= j < |s| ensures InRanges(separators + body, s[j]) { if j >= i { assert s[j] == s[i..][j-i]; } }
      forall j | 0 <= j < |s| && InRanges(separators, s[j]) ensures j + 1 < |s| && InRanges(body, s[j+1]) {
        if j >= i { assert s[j] == s[i..][j-i]; }
      }
    }
  }

  lemma {:induction false} ManyParts(separators: seq<(char, char)>, body: seq<(char, char)>, s: string)
    requires Disjoint(separators, body)
    ensures Matches(Many(Parts(separators, body)), s) <==>
              InParts(separators, body, s) && (s == "" || InRanges(separators, s[0]))
    decreases |s|
  {
    var part, p := Parts(separators, body), Many(Parts(separators, body));
    if s != "" {
      if i :| 0 < i <= |s| && Matches(part, s[..i]) && Matches(p, s[i..]) {
        ManyParts(separators, body, s[i..]);
        InPartsAfter(separators, body, s, i);
        PartMeaning(separators, body, s[..i]);
      }
      if InParts(separators, body, s) && InRanges(separators, s[0]) { PartsMany(separators, body, s); }
    }
  }

  lemma {:induction false} PartsMany(separators: seq<(char, char)>, body: seq<(char, char)>, s: string)
    requires Disjoint(separators, body) && s != ""
    requires InParts(separators, body, s) && InRanges(separators, s[0])
    ensures Matches(Many(Parts(separators, body)), s)
    decreases |s|, 0
  {
    var n := RunOf(body, s[1..]);
    var i := n + 1;
    assert s[..i][1..] == s[1..][..n];
    PartMeaning(separators, body, s[..i]);
    assert InRanges(body, s[1]);
    if i < |s| {
      assert s[1..][n] == s[i];
      InBoth(separators, body, s[i]);
      InPartsAfter(separators, body, s, i);
      PartsMany(separators, body, s[i..]);
    }
  }

  /** `B*(?:S B+)*`. */
  lemma RunThenParts(separators: seq<(char, char)>, body: seq<(char, char)>, s: string)
    requires Disjoint(separators, body)
    ensures Matches(Then(Many(Chars(body)), Many(Parts(separators, body))), s) <==> InParts(separators, body, s)
  {
    var first, rest := Many(Chars(body)), Many(Parts(separators, body));
    if i :| 0 <= i <= |s| && Matches(first, s[..i]) && Matches(rest, s[i..]) {
      ManyChars(body, s[..i]);
      ManyParts(separators, body, s[i..]);
      InPartsAfter(separators, body, s, i);
    }
    if InParts(separators, body, s) {
      var i := RunBeforeParts(separators, body, s);
    }
  }

  lemma RunBeforeParts(separators: seq<(char, char)>, body: seq<(char, char)>, s: string) returns (i: nat)
    requires Disjoint(separators, body) && InParts(separators, body, s)
    ensures i <= |s| && AllIn(body, s[..i]) && (i < |s| ==> InRanges(separators, s[i]))
    ensures Matches(Many(Chars(body)), s[..i]) && Matches(Many(Parts(separators, body)), s[i..])
  {
    i := RunOf(body, s);
    if i < |s| { InBoth(separators, body, s[i]); }
    InPartsAfter(separators, body, s, i);
    ManyChars(body, s[..i]);
    ManyParts(separators, body, s[i..]);
  }

  ghost predicate HasSeparator(separators: seq<(char, char)>, s: string) {
    exists i :: 0 <= i < |s| && InRanges(separators, s[i])
  }

  lemma SeparatorFollows(separators: seq<(char, char)>, body: seq<(char, char)>, s: string)
    requires Disjoint(separators, body) && InParts(separators, body, s) && HasSeparator(separators, s)
    ensures Matches(Then(Many(Chars(body)), Some1(Parts(separators, body))), s)
  {
    var i := RunBeforeParts(separators, body, s);
    var j :| 0 <= j < |s| && InRanges(separators, s[j]);
    forall k | 0 <= k < i ensures InRanges(body, s[k]) { assert s[..i][k] == s[k]; }
    SomePartsBegin(separators, body, s[i..]);
  }

  /** `B*(?:S B+)+`: the same with at least one separator. */
  lemma RunThenSomeParts(separators: seq<(char, char)>, body: seq<(char, char)>, s: string)
    requires Disjoint(separators, body)
    ensures Matches(Then(Many(Chars(body)), Some1(Parts(separators, body))), s) <==>
              InParts(separators, body, s) && HasSeparator(separators, s)
  {
    var first, part := Many(Chars(body)), Parts(separators, body);
    if i :| 0 <= i <= |s| && Matches(first, s[..i]) && Matches(Some1(part), s[i..]) {
      SomePartsBegin(separators, body, s[i..]);
      RunThenParts(separators, body, s);
      assert s[i..][0] == s[i];
    }
    if InParts(separators, body, s) && HasSeparator(separators, s) { SeparatorFollows(separators, body, s); }
  }

  lemma SomePartsBegin(separators: seq<(char, char)>, body: seq<(char, char)>, s: string)
    ensures Matches(Some1(Parts(separators, body)), s) <==> s != "" && Matches(Many(Parts(separators, body)), s)
    ensures Matches(Some1(Parts(separators, body)), s) ==> InRanges(separators, s[0])
  {
    var part, rest := Parts(separators, body), Many(Parts(separators, body));
    if i :| 0 <= i <= |s| && Matches(part, s[..i]) && Matches(rest, s[i..]) {
      PartMeaning(separators, body, s[..i]);
    }
  }

  // ----- names with an end of their own -----

  /** `A(?:B*A)?`. */
  function Ended(ends: seq<(char, char)>, body: seq<(char, char)>): Pattern {
    Then(Chars(ends), Maybe(Then(Many(Chars(body)), Chars(ends))))
  }

  lemma RunThenEnd(ends: seq<(char, char)>, body: seq<(char, char)>, s: string)
    ensures Matches(Then(Many(Chars(body)), Chars(ends)), s) <==>
              s != "" && AllIn(body, s[..|s|-1]) && InRanges(ends, s[|s|-1])
  {
    var run, end := Many(Chars(body)), Chars(ends);
    if i :| 0 <= i <= |s| && Matches(run, s[..i]) && Matches(end, s[i..]) {
      assert i == |s| - 1 && s[i..][0] == s[i];
      ManyChars(body, s[..i]);
    }
    if s != "" {
      var n := |s| - 1;
      ManyChars(body, s[..n]);
      assert s[n..] == [s[n]];
      if AllIn(body, s[..n]) && InRanges(ends, s[n]) { assert Matches(run, s[..n]) && Matches(end, s[n..]); }
    }
  }

  lemma EndedMeaning(ends: seq<(char, char)>, body: seq<(char, char)>, s: string)
    requires forall c :: InRanges(ends, c) ==> InRanges(body, c)
    ensures Matches(Ended(ends, body), s) <==>
              s != "" && AllIn(body, s) && InRanges(ends, s[0]) && InRanges(ends, s[|s|-1])
  {
    ThenChar(ends, Maybe(Then(Many(Chars(body)), Chars(ends))), s);
    if |s| > 1 {
      var t, n := s[1..], |s| - 1;
      RunThenEnd(ends, body, t);
      assert t[n-1] == s[n] && t[..n-1] == s[1..n];
      AllInMiddle(body, s);
    }
  }

  lemma AllInMiddle(ranges: seq<(char, char)>, s: string)
    requires |s| > 1
    ensures AllIn(ranges, s) <==>
              InRanges(ranges, s[0]) && AllIn(ranges, s[1..|s|-1]) && InRanges(ranges, s[|s|-1])
  {
    var n := |s| - 1;
    if AllIn(ranges, s[1..n]) {
      forall i | 0 < i < n ensures InRanges(ranges, s[i]) { assert s[1..n][i-1] == s[i]; }
    }
  }

  // ----- names split at one character -----

  ghost predicate Lacks(part: Pattern, sep: char) { forall s :: Matches(part, s) ==> sep !in s }

  ghost predicate AllMatch(part: Pattern, pieces: seq<string>) {
    forall i :: 0 <= i < |pieces| ==> Matches(part, pieces[i])
  }

  /** `(?:sep P)*`, one separator and one piece at a time. */
  function Separated(part: Pattern, sep: char): Pattern { Many(Then(Chars([(sep, sep)]), part)) }

  lemma PieceMeaning(part: Pattern, sep: char, s: string)
    ensures Matches(Then(Chars([(sep, sep)]), part), s) <==> s != "" && s[0] == sep && Matches(part, s[1..])
  {
    var ranges := [(sep, sep)];
    assert ranges[0] == (sep, sep);
    ThenChar(ranges, part, s);
  }

  lemma PieceFirst(sep: char, s: string, i: nat)
    requires 0 < i <= |s| && sep !in s[1..i] && (i < |s| ==> s[i] == sep)
    ensures Split(s[1..], sep) == [s[1..i]] + if i < |s| then Split(s[i+1..], sep) else []
  {
    if i < |s| {
      assert s[1..] == s[1..i] + [sep] + s[i+1..];
      SplitAt(s[1..i], s[i+1..], sep);
    } else {
      assert s[1..] == s[1..i];
      SplitNone(s[1..], sep);
    }
  }

  lemma {:induction false} PiecesOfMatch(part: Pattern, sep: char, s: string)
    requires Lacks(part, sep) && s != "" && Matches(Separated(part, sep), s)
    ensures s[0] == sep && AllMatch(part, Split(s[1..], sep))
    decreases |s|
  {
    var one := Then(Chars([(sep, sep)]), part);
    var i :| 0 < i <= |s| && Matches(one, s[..i]) && Matches(Separated(part, sep), s[i..]);
    PieceMeaning(part, sep, s[..i]);
    assert s[..i][1..] == s[1..i];
    if i < |s| {
      PiecesOfMatch(part, sep, s[i..]);
      assert s[i..][1..] == s[i+1..];
    }
    PieceFirst(sep, s, i);
  }

  /** Where the first piece after a leading separator ends. */
  lemma FirstPiece(sep: char, s: string) returns (i: nat)
    requires s != ""
    ensures 0 < i <= |s| && sep !in s[1..i] && (i < |s| ==> s[i] == sep)
  {
    var t := s[1..];
    if sep in t {
      var u, v := FirstBreak(t, sep);
      i := 1 + |u|;
      assert t[..|u|] == u && s[1..i] == u && s[i] == t[|u|];
    } else {
      i := |s|;
      assert s[1..i] == t;
    }
  }

  lemma {:induction false} PiecesMatch(part: Pattern, sep: char, s: string)
    requires s != "" && s[0] == sep && AllMatch(part, Split(s[1..], sep))
    ensures Matches(Separated(part, sep), s)
    decreases |s|
  {
    var pieces := Split(s[1..], sep);
    var i := FirstPiece(sep, s);
    PieceFirst(sep, s, i);
    assert pieces[0] == s[1..i] && s[..i][1..] == s[1..i];
    PieceMeaning(part, sep, s[..i]);
    if i < |s| {
      assert s[i..][1..] == s[i+1..] && Split(s[i+1..], sep) == pieces[1..];
      PiecesMatch(part, sep, s[i..]);
    }
  }

  /** `(?:sep P)+`. */
  lemma SomePieces(part: Pattern, sep: char, s: string)
    requires Lacks(part, sep)
    ensures Matches(Some1(Then(Chars([(sep, sep)]), part)), s) <==>
              s != "" && s[0] == sep && AllMatch(part, Split(s[1..], sep))
  {
    var one := Then(Chars([(sep, sep)]), part);
    if i :| 0 <= i <= |s| && Matches(one, s[..i]) && Matches(Separated(part, sep), s[i..]) {
      PieceMeaning(part, sep, s[..i]);
      assert Matches(Separated(part, sep), s);
      PiecesOfMatch(part, sep, s);
    }
    if s != "" && s[0] == sep && AllMatch(part, Split(s[1..], sep)) {
      PiecesMatch(part, sep, s);
      var i :| 0 < i <= |s| && Matches(one, s[..i]) && Matches(Separated(part, sep), s[i..]);
    }
  }
}
