/** The regex language that the Envoy route generator emits: an anchored
    concatenation of literal characters and `[^/]+` items. */
module RouteRegex {

  datatype Token = Lit(c: char) | Wild

  datatype Parsed = NotInFragment | Tokens(ts: seq<Token>)

  /** The fourteen characters that mean something to a regex engine when they stand alone. */
  const RESERVED: string := "\\.+*?()|[]{}^$"

  predicate Reserved(c: char) { c in RESERVED }

  /** How a regex engine reads the body between the anchors. Any reserved character
      that is neither escaped nor part of `[^/]+` is outside the fragment. */
  function ParseBody(s: string): Parsed
    decreases |s|
  {
    if s == "" then Tokens([])
    else if "[^/]+" <= s then Prepend(Wild, ParseBody(s[5..]))
    else if s[0] == '\\' then
      if |s| >= 2 && Reserved(s[1]) then Prepend(Lit(s[1]), ParseBody(s[2..])) else NotInFragment
    else if Reserved(s[0]) then NotInFragment
    else Prepend(Lit(s[0]), ParseBody(s[1..]))
  }

  function Prepend(t: Token, rest: Parsed): Parsed {
    match rest
    case NotInFragment => NotInFragment
    case Tokens(ts) => Tokens([t] + ts)
  }

  function ParseRegex(r: string): Parsed {
    if |r| >= 2 && r[0] == '^' && r[|r|-1] == '$' then ParseBody(r[1..|r|-1]) else NotInFragment
  }

  /** Full match of a token list; `Wild` is one or more characters other than '/'. */
  predicate Match(ts: seq<Token>, s: string)
    decreases |ts| + |s|
  {
    if ts == [] then s == ""
    else if s == "" then false
    else match ts[0]
      case Lit(c) => s[0] == c && Match(ts[1..], s[1..])
      case Wild => s[0] != '/' && (Match(ts[1..], s[1..]) || Match(ts, s[1..]))
  }

  predicate RegexMatches(r: string, s: string) {
    var p := ParseRegex(r);
    p.Tokens? && Match(p.ts, s)
  }

  // ----- what a token list can match -----

  lemma {:induction false} MatchLength(ts: seq<Token>, s: string)
    requires Match(ts, s)
    ensures |ts| <= |s|
    decreases |ts| + |s|
  {
    if ts != [] {
      if Match(ts[1..], s[1..]) { MatchLength(ts[1..], s[1..]); } else { MatchLength(ts, s[1..]); }
    }
  }

  predicate Fits(t: Token, c: char) {
    match t
    case Lit(d) => c == d
    case Wild => c != '/'
  }

  /** At its shortest, a match is character by character. */
  lemma {:induction false} MatchTight(ts: seq<Token>, s: string)
    requires |ts| == |s|
    ensures Match(ts, s) <==> forall i :: 0 <= i < |ts| ==> Fits(ts[i], s[i])
  {
    if ts != [] {
      MatchTight(ts[1..], s[1..]);
      if Match(ts, s[1..]) { MatchLength(ts, s[1..]); }
      assert forall i :: 0 < i < |ts| ==> ts[i] == ts[1..][i-1] && s[i] == s[1..][i-1];
      assert forall i :: 0 <= i < |ts| - 1 ==> ts[1..][i] == ts[i+1] && s[1..][i] == s[i+1];
    }
  }

  /** A string of the shape `ts` that avoids the literals of `other` wherever it can. */
  function Probe(ts: seq<Token>, other: seq<Token>): (s: string)
    ensures |s| == |ts|
    ensures forall i :: 0 <= i < |ts| ==> s[i] == ProbeChar(ts[i], if i < |other| then other[i] else Wild)
  {
    seq(|ts|, i requires 0 <= i < |ts| => ProbeChar(ts[i], if i < |other| then other[i] else Wild))
  }

  function ProbeChar(t: Token, o: Token): char {
    match t
    case Lit(c) => c
    case Wild => if o == Lit('a') then 'b' else 'a'
  }

  lemma ProbeMatches(ts: seq<Token>, other: seq<Token>)
    ensures Match(ts, Probe(ts, other))
  {
    MatchTight(ts, Probe(ts, other));
  }

  /** Token lists denote the same language only when they are the same list. */
  lemma {:induction false} LanguageDeterminesTokens(a: seq<Token>, b: seq<Token>)
    requires forall s :: Match(a, s) <==> Match(b, s)
    ensures a == b
  {
    ProbeMatches(a, b);
    ProbeMatches(b, a);
    MatchLength(a, Probe(b, a));
    MatchLength(b, Probe(a, b));
    MatchTight(a, Probe(b, a));
    MatchTight(b, Probe(a, b));
    forall i | 0 <= i < |a| ensures a[i] == b[i] {
      assert Fits(a[i], Probe(b, a)[i]);
      assert Fits(b[i], Probe(a, b)[i]);
    }
  }

  // ----- '/' is a hard boundary -----

  predicate SlashFree(ts: seq<Token>) {
    forall i :: 0 <= i < |ts| ==> ts[i] != Lit('/')
  }

  lemma {:induction false} SlashFreeMatch(ts: seq<Token>, s: string)
    requires SlashFree(ts) && Match(ts, s)
    ensures '/' !in s
    decreases |ts| + |s|
  {
    if ts != [] {
      assert s == [s[0]] + s[1..];
      if Match(ts[1..], s[1..]) { SlashFreeMatch(ts[1..], s[1..]); } else { SlashFreeMatch(ts, s[1..]); }
    }
  }

  /** A boundary in the pattern can only meet the first boundary of the text. */
  lemma {:induction false} MatchAtBoundary(a: seq<Token>, b: seq<Token>, u: string, v: string)
    requires SlashFree(a) && '/' !in u
    ensures Match(a + [Lit('/')] + b, u + "/" + v) <==> Match(a, u) && Match(b, v)
    decreases |a| + |u|
  {
    var p, s := a + [Lit('/')] + b, u + "/" + v;
    if a == [] {
      assert p[0] == Lit('/') && p[1..] == b;
      if u == "" { assert s[1..] == v; } else { assert s[0] == u[0]; }
    } else {
      assert p[0] == a[0] && p[1..] == a[1..] + [Lit('/')] + b;
      if u == "" {
        assert s[0] == '/';
      } else {
        assert s[0] == u[0] && s[1..] == u[1..] + "/" + v;
        MatchAtBoundary(a[1..], b, u[1..], v);
        MatchAtBoundary(a, b, u[1..], v);
      }
    }
  }

  lemma {:induction false} MatchNeedsBoundary(a: seq<Token>, b: seq<Token>, s: string)
    requires '/' !in s
    ensures !Match(a + [Lit('/')] + b, s)
    decreases |a| + |s|
  {
    var p := a + [Lit('/')] + b;
    if s != "" {
      if a == [] {
        assert p[0] == Lit('/');
      } else {
        assert p[0] == a[0] && p[1..] == a[1..] + [Lit('/')] + b;
        MatchNeedsBoundary(a[1..], b, s[1..]);
        MatchNeedsBoundary(a, b, s[1..]);
      }
    }
  }
}
