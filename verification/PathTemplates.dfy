/** REST path templates: the Envoy regex generator (envoy.go) and the gateway's
    own matcher (routing.go) against one reference meaning of a template. */
module PathTemplates {
  import opened Text
  import opened RouteRegex

  // ----- the reference meaning -----

  /** The length of the `{name}` placeholder a segment starts with, or 0. A name is
      non-empty and runs to the first closing brace. */
  function PlaceholderLength(seg: string): (n: nat)
    ensures n == 0 || 3 <= n <= |seg|
    ensures n != 0 ==> seg[0] == '{' && seg[n-1] == '}'
  {
    if seg != "" && seg[0] == '{' && '}' in seg then
      var (name, _, _) := Cut(seg[1..], '}');
      if name == "" then 0 else |name| + 2
    else 0
  }

  predicate HasPlaceholder(s: string) {
    s != "" && (PlaceholderLength(s) > 0 || HasPlaceholder(s[1..]))
  }

  /** A placeholder stands for any non-empty text, every other character for itself. */
  ghost predicate SegmentMatches(seg: string, text: string)
    decreases |seg|
  {
    if seg == "" then text == ""
    else
      var n := PlaceholderLength(seg);
      if n > 0 then exists k :: 1 <= k <= |text| && SegmentMatches(seg[n..], text[k..])
      else text != "" && text[0] == seg[0] && SegmentMatches(seg[1..], text[1..])
  }

  ghost predicate TemplateMatches(template: string, path: string) {
    var want, got := Split(template, '/'), Split(path, '/');
    |want| == |got| && forall i :: 0 <= i < |want| ==> SegmentMatches(want[i], got[i])
  }

  // ----- pathToRegex -----

  const SENTINEL: string := "\0PARAM\0"

  /** What regexEscapeLiteral puts a backslash before, in its own list. */
  predicate NeedsEscape(c: char) {
    c == '.' || c == '*' || c == '+' || c == '?' || c == '^' || c == '$' || c == '{' || c == '}'
    || c == '[' || c == ']' || c == '(' || c == ')' || c == '|' || c == '\\'
  }

  const ANY_SEGMENT: string := "[^/]+"

  /** regexEscapeLiteral. */
  function Escape(s: string): string {
    if s == "" then "" else EscapeChar(s[0]) + Escape(s[1..])
  }

  function EscapeChar(c: char): string {
    if NeedsEscape(c) then ['\\', c] else [c]
  }

  /** pathParamRegex.ReplaceAllStringFunc with the constant sentinel. */
  function MarkPlaceholders(seg: string): string
    decreases |seg|
  {
    if seg == "" then ""
    else
      var n := PlaceholderLength(seg);
      if n > 0 then SENTINEL + MarkPlaceholders(seg[n..])
      else [seg[0]] + MarkPlaceholders(seg[1..])
  }

  /** strings.ReplaceAll: leftmost, non-overlapping. */
  function ReplaceAll(s: string, sought: string, put: string): string
    requires sought != ""
    decreases |s|
  {
    if s == "" then ""
    else if sought <= s then put + ReplaceAll(s[|sought|..], sought, put)
    else [s[0]] + ReplaceAll(s[1..], sought, put)
  }

  predicate IsParam(seg: string) {
    seg != "" && PlaceholderLength(seg) == |seg|
  }

  function SegmentRegex(seg: string): string {
    if IsParam(seg) then ANY_SEGMENT
    else if HasPlaceholder(seg) then ReplaceAll(Escape(MarkPlaceholders(seg)), SENTINEL, ANY_SEGMENT)
    else Escape(seg)
  }

  function SegmentRegexes(segs: seq<string>): (rs: seq<string>)
    ensures |rs| == |segs| && forall i :: 0 <= i < |segs| ==> rs[i] == SegmentRegex(segs[i])
  {
    seq(|segs|, i requires 0 <= i < |segs| => SegmentRegex(segs[i]))
  }

  function RegexFor(template: string): string {
    "^" + Join(SegmentRegexes(Split(template, '/')), '/') + "$"
  }

  method RegexEscapeLiteral(s: string) returns (b: string)
    ensures b == Escape(s)
  {
    b := "";
    for i := 0 to |s|
      invariant b + Escape(s[i..]) == Escape(s)
    {
      EscapeStep(b, s, i);
      if NeedsEscape(s[i]) {
        b := b + ['\\', s[i]];
      } else {
        b := b + [s[i]];
      }
    }
    assert s[|s|..] == "" && b + "" == b;
  }

  lemma EscapeStep(b: string, s: string, i: nat)
    requires i < |s|
    ensures b + EscapeChar(s[i]) + Escape(s[i+1..]) == b + Escape(s[i..])
  {
    assert s[i..][0] == s[i] && s[i..][1..] == s[i+1..];
  }

  method SegmentToRegex(seg: string) returns (r: string)
    ensures r == SegmentRegex(seg)
  {
    if IsParam(seg) {
      return ANY_SEGMENT;
    }
    if HasPlaceholder(seg) {
      var escaped := RegexEscapeLiteral(MarkPlaceholders(seg));
      return ReplaceAll(escaped, SENTINEL, ANY_SEGMENT);
    }
    r := RegexEscapeLiteral(seg);
  }

  /** envoy.go pathToRegex. */
  method PathToRegex(path: string) returns (regex: string)
    ensures regex == RegexFor(path)
  {
    var result := SegmentsToRegexes(Split(path, '/'));
    regex := "^" + Join(result, '/') + "$";
  }

  method SegmentsToRegexes(segments: seq<string>) returns (result: seq<string>)
    ensures result == SegmentRegexes(segments)
  {
    result := [];
    for i := 0 to |segments|
      invariant |result| == i && forall j :: 0 <= j < i ==> result[j] == SegmentRegex(segments[j])
    {
      var one := SegmentToRegex(segments[i]);
      result := result + [one];
    }
  }

  /** buildRESTRoute: a regex match for a template with placeholders, else an exact path. */
  predicate RouteMatches(template: string, path: string) {
    if HasPlaceholder(template) then RegexMatches(RegexFor(template), path) else path == template
  }

  // ----- the tokens a segment should and does compile to -----

  function Lits(s: string): seq<Token> {
    if s == "" then [] else [Lit(s[0])] + Lits(s[1..])
  }

  lemma {:induction false} MatchLits(s: string, text: string)
    ensures Match(Lits(s), text) <==> s == text
  {
    if s != "" && text != "" {
      MatchLits(s[1..], text[1..]);
      assert s == [s[0]] + s[1..] && text == [text[0]] + text[1..];
    }
  }

  function IntendedTokens(seg: string): seq<Token>
    decreases |seg|
  {
    if seg == "" then []
    else
      var n := PlaceholderLength(seg);
      if n > 0 then [Wild] + IntendedTokens(seg[n..])
      else [Lit(seg[0])] + IntendedTokens(seg[1..])
  }

  /** The tokens of a marked segment once every sentinel has become `[^/]+`. */
  function MarkedTokens(s: string): seq<Token>
    decreases |s|
  {
    if s == "" then [] else [HeadToken(s)] + MarkedTokens(AfterHead(s))
  }

  /** One scanning step over a marked segment: a sentinel or a single character. */
  function AfterHead(s: string): (rest: string)
    requires s != ""
    ensures |rest| < |s|
  {
    if SENTINEL <= s then s[7..] else s[1..]
  }

  function HeadToken(s: string): Token
    requires s != ""
  {
    if SENTINEL <= s then Wild else Lit(s[0])
  }

  function HeadRegex(s: string): string
    requires s != ""
  {
    if SENTINEL <= s then ANY_SEGMENT else EscapeChar(s[0])
  }

  function CompiledTokens(seg: string): seq<Token> {
    if HasPlaceholder(seg) then MarkedTokens(MarkPlaceholders(seg)) else Lits(seg)
  }

  /** Literal text of the segment reads as a sentinel after marking: it is the sentinel
      itself, or the sentinel but for its last character right before a placeholder. */
  predicate SentinelHere(seg: string) {
    SENTINEL[..6] <= seg && |seg| > 6 && (seg[6] == '\0' || PlaceholderLength(seg[6..]) > 0)
  }

  predicate HasSentinelText(seg: string)
    decreases |seg|
  {
    if seg == "" then false
    else
      var n := PlaceholderLength(seg);
      if n > 0 then HasSentinelText(seg[n..])
      else SentinelHere(seg) || HasSentinelText(seg[1..])
  }

  /** What a route author can check before generating: only a segment that mixes a
      placeholder with sentinel text compiles to another language. */
  predicate Compilable(template: string) {
    var segs := Split(template, '/');
    forall i :: 0 <= i < |segs| ==> !(HasPlaceholder(segs[i]) && HasSentinelText(segs[i]))
  }

  // ----- the emitted string parses to the compiled tokens -----

  /** Text without metacharacters is a prefix of an escaped string as it is of the string. */
  lemma {:induction false} EscapeKeepsPrefix(p: string, s: string)
    requires forall i :: 0 <= i < |p| ==> !NeedsEscape(p[i])
    ensures p <= Escape(s) <==> p <= s
    ensures p <= s ==> Escape(s) == p + Escape(s[|p|..])
  {
    if p != "" && s != "" {
      var q, t := p[1..], s[1..];
      EscapeKeepsPrefix(q, t);
      assert p == [p[0]] + q;
      ConsPrefix(p[0], q, s);
      ConsPrefix(p[0], q, Escape(s));
      assert EscapeChar(s[0])[0] == p[0] ==> s[0] == p[0];
      if s[0] == p[0] { assert Escape(s)[1..] == Escape(t); }
      if p <= s { PrefixTail(p, s); }
    }
  }

  lemma PrefixTail(p: string, s: string)
    requires p != "" && p <= s
    ensures s[1..][|p|-1..] == s[|p|..] && forall x: string :: [p[0]] + (p[1..] + x) == p + x
  {
    assert p == [p[0]] + p[1..];
  }

  lemma ParseLiteral(c: char, rest: string)
    ensures ParseBody(EscapeChar(c) + rest) == Prepend(Lit(c), ParseBody(rest))
  {
    var s := EscapeChar(c) + rest;
    assert ANY_SEGMENT[0] == '[' && s[0] == EscapeChar(c)[0];
    if NeedsEscape(c) { assert s[1] == c && s[2..] == rest; } else { assert s[1..] == rest; }
  }

  lemma ParseWild(rest: string)
    ensures ParseBody(ANY_SEGMENT + rest) == Prepend(Wild, ParseBody(rest))
  {
    assert (ANY_SEGMENT + rest)[5..] == rest;
  }

  lemma Reassociate<A, B>(a: seq<A>, b: seq<A>, c: seq<A>, p: seq<B>, q: seq<B>, r: seq<B>)
    ensures a + (b + c) == a + b + c && p + (q + r) == p + q + r
  {
  }

  /** A run of literals followed by anything parses literal by literal. */
  lemma {:induction false} ParseEscaped(s: string, rest: string, tail: seq<Token>)
    requires ParseBody(rest) == Tokens(tail)
    ensures ParseBody(Escape(s) + rest) == Tokens(Lits(s) + tail)
  {
    if s == "" {
      assert Escape(s) + rest == rest;
      assert Lits(s) + tail == tail;
    } else {
      ParseEscaped(s[1..], rest, tail);
      PrependLiteral(s[0], Escape(s[1..]) + rest, Lits(s[1..]) + tail);
      Reassociate(EscapeChar(s[0]), Escape(s[1..]), rest, [Lit(s[0])], Lits(s[1..]), tail);
    }
  }

  lemma PrependLiteral(c: char, rest: string, tail: seq<Token>)
    requires ParseBody(rest) == Tokens(tail)
    ensures ParseBody(EscapeChar(c) + rest) == Tokens([Lit(c)] + tail)
  {
    ParseLiteral(c, rest);
  }

  lemma ReplaceAllStep(c: char, s: string)
    requires !(SENTINEL <= [c] + s)
    ensures ReplaceAll([c] + s, SENTINEL, ANY_SEGMENT) == [c] + ReplaceAll(s, SENTINEL, ANY_SEGMENT)
  {
    assert ([c] + s)[1..] == s;
  }

  lemma SentinelHasNoMeta()
    ensures |SENTINEL| == 7
    ensures forall i :: 0 <= i < |SENTINEL| ==> !NeedsEscape(SENTINEL[i]) && SENTINEL[i] != '/'
  {
  }

  /** Escaping and then restoring `[^/]+`, as one scan over the marked segment. */
  function Restored(s: string): string
    decreases |s|
  {
    if s == "" then "" else HeadRegex(s) + Restored(AfterHead(s))
  }

  lemma ReplaceSentinel(rest: string)
    ensures ReplaceAll(SENTINEL + rest, SENTINEL, ANY_SEGMENT) == ANY_SEGMENT + ReplaceAll(rest, SENTINEL, ANY_SEGMENT)
  {
    assert (SENTINEL + rest)[|SENTINEL|..] == rest;
  }

  /** A metacharacter and its backslash are both copied. */
  lemma ReplaceEscaped(c: char, rest: string)
    requires NeedsEscape(c)
    ensures ReplaceAll(['\\', c] + rest, SENTINEL, ANY_SEGMENT) == ['\\', c] + ReplaceAll(rest, SENTINEL, ANY_SEGMENT)
  {
    SentinelHasNoMeta();
    assert SENTINEL[0] == '\0';
    assert ['\\', c] + rest == ['\\'] + ([c] + rest);
    ReplaceAllStep('\\', [c] + rest);
    ReplaceAllStep(c, rest);
  }

  lemma {:induction false} RestoredIsReplaced(s: string)
    ensures ReplaceAll(Escape(s), SENTINEL, ANY_SEGMENT) == Restored(s)
    decreases |s|
  {
    if s != "" {
      RestoredIsReplaced(AfterHead(s));
      SentinelHasNoMeta();
      EscapeKeepsPrefix(SENTINEL, s);
      if SENTINEL <= s {
        ReplaceSentinel(Escape(s[7..]));
      } else if NeedsEscape(s[0]) {
        ReplaceEscaped(s[0], Escape(s[1..]));
      } else {
        ReplaceAllStep(s[0], Escape(s[1..]));
      }
    }
  }

  lemma PrependHead(s: string, body: string, ts: seq<Token>)
    requires s != "" && ParseBody(body) == Tokens(ts)
    ensures ParseBody(HeadRegex(s) + body) == Tokens([HeadToken(s)] + ts)
  {
    if SENTINEL <= s { ParseWild(body); } else { PrependLiteral(s[0], body, ts); }
  }

  lemma {:induction false} ParseMarked(s: string, rest: string, tail: seq<Token>)
    requires ParseBody(rest) == Tokens(tail)
    ensures ParseBody(Restored(s) + rest) == Tokens(MarkedTokens(s) + tail)
    decreases |s|
  {
    if s == "" {
      assert Restored(s) + rest == rest;
      assert MarkedTokens(s) + tail == tail;
    } else {
      var next := AfterHead(s);
      ParseMarked(next, rest, tail);
      PrependHead(s, Restored(next) + rest, MarkedTokens(next) + tail);
      Reassociate(HeadRegex(s), Restored(next), rest, [HeadToken(s)], MarkedTokens(next), tail);
    }
  }

  lemma ParamTokens(seg: string)
    requires IsParam(seg)
    ensures HasPlaceholder(seg) && CompiledTokens(seg) == [Wild] == IntendedTokens(seg)
  {
    assert seg[|seg|..] == "";
    assert MarkPlaceholders("") == "" && IntendedTokens("") == [] && MarkedTokens("") == [];
    assert MarkPlaceholders(seg) == SENTINEL;
    assert AfterHead(SENTINEL) == "";
  }

  lemma ParseSegment(seg: string, rest: string, tail: seq<Token>)
    requires ParseBody(rest) == Tokens(tail)
    ensures ParseBody(SegmentRegex(seg) + rest) == Tokens(CompiledTokens(seg) + tail)
  {
    if IsParam(seg) {
      ParamTokens(seg);
      ParseWild(rest);
    } else if HasPlaceholder(seg) {
      RestoredIsReplaced(MarkPlaceholders(seg));
      ParseMarked(MarkPlaceholders(seg), rest, tail);
    } else {
      ParseEscaped(seg, rest, tail);
    }
  }

  /** A whole template's tokens: its segments' tokens with a '/' between them. */
  function JoinTokens(parts: seq<seq<Token>>): seq<Token> {
    if parts == [] then []
    else if |parts| == 1 then parts[0]
    else parts[0] + [Lit('/')] + JoinTokens(parts[1..])
  }

  function AllCompiled(segs: seq<string>): (r: seq<seq<Token>>)
    ensures |r| == |segs| && forall i :: 0 <= i < |segs| ==> r[i] == CompiledTokens(segs[i])
  {
    seq(|segs|, i requires 0 <= i < |segs| => CompiledTokens(segs[i]))
  }

  function AllIntended(segs: seq<string>): (r: seq<seq<Token>>)
    ensures |r| == |segs| && forall i :: 0 <= i < |segs| ==> r[i] == IntendedTokens(segs[i])
  {
    seq(|segs|, i requires 0 <= i < |segs| => IntendedTokens(segs[i]))
  }

  lemma ParseSlash(rest: string, tail: seq<Token>)
    requires ParseBody(rest) == Tokens(tail)
    ensures ParseBody("/" + rest) == Tokens([Lit('/')] + tail)
  {
    PrependLiteral('/', rest, tail);
  }

  lemma ParseSlashed(seg: string, tail: string, tokens: seq<Token>)
    requires ParseBody(tail) == Tokens(tokens)
    ensures ParseBody(SegmentRegex(seg) + "/" + tail) == Tokens(CompiledTokens(seg) + [Lit('/')] + tokens)
  {
    ParseSlash(tail, tokens);
    ParseSegment(seg, "/" + tail, [Lit('/')] + tokens);
    Reassociate(SegmentRegex(seg), "/", tail, CompiledTokens(seg), [Lit('/')], tokens);
  }

  lemma ParseLast(seg: string)
    ensures ParseBody(SegmentRegex(seg)) == Tokens(CompiledTokens(seg))
  {
    ParseSegment(seg, "", []);
    assert SegmentRegex(seg) + "" == SegmentRegex(seg);
    assert CompiledTokens(seg) + [] == CompiledTokens(seg);
  }

  lemma {:induction false} ParseSegments(segs: seq<string>)
    requires segs != []
    ensures ParseBody(Join(SegmentRegexes(segs), '/')) == Tokens(JoinTokens(AllCompiled(segs)))
  {
    var rs, all := SegmentRegexes(segs), AllCompiled(segs);
    assert rs[0] == SegmentRegex(segs[0]) && all[0] == CompiledTokens(segs[0]);
    if |segs| == 1 {
      ParseLast(segs[0]);
    } else {
      ParseSegments(segs[1..]);
      assert rs[1..] == SegmentRegexes(segs[1..]) && all[1..] == AllCompiled(segs[1..]);
      ParseSlashed(segs[0], Join(rs[1..], '/'), JoinTokens(all[1..]));
    }
  }

  /** Every template compiles to a well-formed regex of the fragment. */
  lemma RegexForParses(template: string)
    ensures ParseRegex(RegexFor(template)) == Tokens(JoinTokens(AllCompiled(Split(template, '/'))))
  {
    ParseSegments(Split(template, '/'));
    var body := Join(SegmentRegexes(Split(template, '/')), '/');
    var r := "^" + body + "$";
    assert r[1..|r|-1] == body;
  }

  // ----- matching a joined token list is matching segment by segment -----

  lemma {:induction false} MatchJoined(parts: seq<seq<Token>>, path: string)
    requires parts != [] && forall i :: 0 <= i < |parts| ==> SlashFree(parts[i])
    ensures Match(JoinTokens(parts), path) <==>
              |Split(path, '/')| == |parts|
              && forall i :: 0 <= i < |parts| ==> Match(parts[i], Split(path, '/')[i])
    decreases |parts|
  {
    var got := Split(path, '/');
    if '/' !in path {
      SplitNone(path, '/');
      if |parts| > 1 { MatchNeedsBoundary(parts[0], JoinTokens(parts[1..]), path); }
    } else {
      var u, v := FirstBreak(path, '/');
      SplitAt(u, v, '/');
      assert path == u + "/" + v;
      if |parts| == 1 {
        if Match(parts[0], path) { SlashFreeMatch(parts[0], path); }
      } else {
        MatchAtBoundary(parts[0], JoinTokens(parts[1..]), u, v);
        MatchJoined(parts[1..], v);
        assert got[0] == u && got[1..] == Split(v, '/');
        assert forall i :: 0 <= i < |parts| - 1 ==> parts[1..][i] == parts[i+1];
        assert forall i :: 0 <= i < |got| - 1 ==> got[1..][i] == got[i+1];
        assert forall i :: 1 <= i < |parts| && i < |got| ==> parts[i] == parts[1..][i-1] && got[i] == got[1..][i-1];
      }
    }
  }

  lemma {:induction false} JoinTokensInjective(a: seq<seq<Token>>, b: seq<seq<Token>>)
    requires |a| == |b| && JoinTokens(a) == JoinTokens(b)
    requires forall i :: 0 <= i < |a| ==> SlashFree(a[i]) && SlashFree(b[i])
    ensures a == b
  {
    if |a| > 1 {
      var x, y := JoinTokens(a), JoinTokens(b);
      assert x[|a[0]|] == Lit('/') && y[|b[0]|] == Lit('/');
      assert forall i :: 0 <= i < |a[0]| ==> x[i] == a[0][i];
      assert forall i :: 0 <= i < |b[0]| ==> y[i] == b[0][i];
      assert |a[0]| == |b[0]|;
      assert a[0] == x[..|a[0]|] && b[0] == y[..|b[0]|];
      assert JoinTokens(a[1..]) == x[|a[0]|+1..] && JoinTokens(b[1..]) == y[|b[0]|+1..];
      JoinTokensInjective(a[1..], b[1..]);
      assert a == [a[0]] + a[1..] && b == [b[0]] + b[1..];
    }
  }

  // ----- when the compiled tokens are the intended ones -----

  lemma MarkStep(c: char, r: string, seg: string)
    requires c != '\0' && c != '{'
    ensures [c] + r <= MarkPlaceholders(seg) <==>
              seg != "" && seg[0] == c && r <= MarkPlaceholders(seg[1..])
  {
    ConsPrefix(c, r, MarkPlaceholders(seg));
    if seg != "" && PlaceholderLength(seg) == 0 {
      assert MarkPlaceholders(seg)[1..] == MarkPlaceholders(seg[1..]);
    }
  }

  lemma {:induction false} MarkPrefix(p: string, r: string, seg: string)
    requires '\0' !in p && '{' !in p
    ensures p + r <= MarkPlaceholders(seg) <==> p <= seg && r <= MarkPlaceholders(seg[|p|..])
  {
    if p == "" {
      assert p + r == r;
    } else {
      assert p + r == [p[0]] + (p[1..] + r);
      assert p == [p[0]] + p[1..];
      MarkStep(p[0], p[1..] + r, seg);
      ConsPrefix(p[0], p[1..], seg);
      if seg != "" {
        MarkPrefix(p[1..], r, seg[1..]);
        if p <= seg { assert seg[1..][|p|-1..] == seg[|p|..]; }
      }
    }
  }

  lemma MarkNul(seg: string)
    ensures "\0" <= MarkPlaceholders(seg) <==> seg != "" && (seg[0] == '\0' || PlaceholderLength(seg) > 0)
  {
    if seg != "" && PlaceholderLength(seg) == 0 {
      assert MarkPlaceholders(seg)[0] == seg[0];
    }
  }

  /** After a literal character, marking yields a sentinel exactly where SentinelHere says. */
  lemma SentinelAppears(seg: string)
    requires seg != "" && PlaceholderLength(seg) == 0
    ensures SENTINEL <= MarkPlaceholders(seg) <==> SentinelHere(seg)
  {
    var word := "PARAM";
    var rest := seg[1..];
    assert SENTINEL == ['\0'] + (word + "\0");
    assert SENTINEL[..6] == ['\0'] + word;
    ConsPrefix('\0', word + "\0", MarkPlaceholders(seg));
    assert MarkPlaceholders(seg)[1..] == MarkPlaceholders(rest);
    MarkPrefix(word, "\0", rest);
    ConsPrefix('\0', word, seg);
    if word <= rest {
      assert rest[5..] == seg[6..];
      MarkNul(seg[6..]);
    }
  }

  lemma {:induction false} SentinelDecides(seg: string)
    ensures MarkedTokens(MarkPlaceholders(seg)) == IntendedTokens(seg) <==> !HasSentinelText(seg)
    decreases |seg|
  {
    if seg != "" {
      var n := PlaceholderLength(seg);
      var m := MarkPlaceholders(seg);
      if n > 0 {
        SentinelDecides(seg[n..]);
        assert m == SENTINEL + MarkPlaceholders(seg[n..]);
        assert m[7..] == MarkPlaceholders(seg[n..]);
        ConsEqual(Wild, MarkedTokens(m[7..]), IntendedTokens(seg[n..]));
      } else {
        SentinelDecides(seg[1..]);
        SentinelAppears(seg);
        assert m[1..] == MarkPlaceholders(seg[1..]);
        if SentinelHere(seg) {
          assert MarkedTokens(m)[0] == Wild && IntendedTokens(seg)[0] == Lit(seg[0]);
        } else {
          ConsEqual(Lit(seg[0]), MarkedTokens(m[1..]), IntendedTokens(seg[1..]));
        }
      }
    }
  }

  lemma ConsEqual(t: Token, a: seq<Token>, b: seq<Token>)
    ensures [t] + a == [t] + b <==> a == b
  {
    assert ([t] + a)[1..] == a && ([t] + b)[1..] == b;
  }

  lemma {:induction false} PlainTokens(seg: string)
    requires !HasPlaceholder(seg)
    ensures IntendedTokens(seg) == Lits(seg)
  {
    if seg != "" {
      PlainTokens(seg[1..]);
    }
  }

  lemma CompiledAsIntended(seg: string)
    ensures CompiledTokens(seg) == IntendedTokens(seg) <==> !(HasPlaceholder(seg) && HasSentinelText(seg))
  {
    if HasPlaceholder(seg) { SentinelDecides(seg); } else { PlainTokens(seg); }
  }

  lemma {:induction false} TokensSlashFree(seg: string)
    requires '/' !in seg
    ensures SlashFree(IntendedTokens(seg))
    decreases |seg|
  {
    if seg != "" {
      var n := PlaceholderLength(seg);
      TokensSlashFree(if n > 0 then seg[n..] else seg[1..]);
    }
  }

  lemma {:induction false} MarkedSlashFree(s: string)
    requires '/' !in s
    ensures SlashFree(MarkedTokens(s))
    decreases |s|
  {
    if s != "" { MarkedSlashFree(AfterHead(s)); }
  }

  lemma {:induction false} MarkSlashFree(seg: string)
    requires '/' !in seg
    ensures '/' !in MarkPlaceholders(seg)
    decreases |seg|
  {
    if seg != "" {
      var n := PlaceholderLength(seg);
      if n > 0 {
        MarkSlashFree(seg[n..]);
        assert '/' !in SENTINEL;
      } else {
        MarkSlashFree(seg[1..]);
        assert seg[0] in seg;
      }
    }
  }

  lemma {:induction false} LitsSlashFree(s: string)
    requires '/' !in s
    ensures SlashFree(Lits(s))
  {
    if s != "" { LitsSlashFree(s[1..]); }
  }

  lemma CompiledSlashFree(seg: string)
    requires '/' !in seg
    ensures SlashFree(CompiledTokens(seg))
  {
    MarkSlashFree(seg);
    MarkedSlashFree(MarkPlaceholders(seg));
    LitsSlashFree(seg);
  }

  // ----- the reference meaning, as tokens -----

  lemma {:induction false} WildMatch(ts: seq<Token>, s: string)
    requires '/' !in s
    ensures Match([Wild] + ts, s) <==> exists k :: 1 <= k <= |s| && Match(ts, s[k..])
  {
    assert ([Wild] + ts)[1..] == ts;
    if s != "" {
      WildMatch(ts, s[1..]);
      assert forall k :: 1 <= k <= |s| - 1 ==> s[1..][k..] == s[k+1..];
      if k :| 1 <= k <= |s| && Match(ts, s[k..]) {
        if k > 1 { assert s[1..][k-1..] == s[k..]; }
      }
    }
  }

  lemma {:induction false} SegmentTokens(seg: string, text: string)
    requires '/' !in text
    ensures SegmentMatches(seg, text) <==> Match(IntendedTokens(seg), text)
    decreases |seg|
  {
    if seg != "" {
      var n := PlaceholderLength(seg);
      if n > 0 {
        WildMatch(IntendedTokens(seg[n..]), text);
        forall k | 1 <= k <= |text|
          ensures SegmentMatches(seg[n..], text[k..]) <==> Match(IntendedTokens(seg[n..]), text[k..])
        {
          SegmentTokens(seg[n..], text[k..]);
        }
      } else if text != "" {
        SegmentTokens(seg[1..], text[1..]);
      }
    }
  }

  lemma IntendedMeaning(template: string, path: string)
    ensures TemplateMatches(template, path) <==> Match(JoinTokens(AllIntended(Split(template, '/'))), path)
  {
    var want, got := Split(template, '/'), Split(path, '/');
    forall i | 0 <= i < |want| ensures SlashFree(AllIntended(want)[i]) { TokensSlashFree(want[i]); }
    MatchJoined(AllIntended(want), path);
    if |want| == |got| {
      forall i | 0 <= i < |want|
        ensures SegmentMatches(want[i], got[i]) <==> Match(AllIntended(want)[i], got[i])
      {
        SegmentTokens(want[i], got[i]);
      }
    }
  }

  // ----- main results -----

  ghost predicate SamePaths(a: seq<seq<Token>>, b: seq<seq<Token>>) {
    forall path :: Match(JoinTokens(a), path) <==> Match(JoinTokens(b), path)
  }

  /** Segment by segment, one language has one token list. */
  lemma SamePathsIffSameTokens(a: seq<seq<Token>>, b: seq<seq<Token>>)
    requires |a| == |b| > 0
    requires forall i :: 0 <= i < |a| ==> SlashFree(a[i]) && SlashFree(b[i])
    ensures SamePaths(a, b) <==> a == b
  {
    if SamePaths(a, b) {
      LanguageDeterminesTokens(JoinTokens(a), JoinTokens(b));
      JoinTokensInjective(a, b);
    }
  }

  ghost predicate SameLanguage(template: string) {
    forall path :: RegexMatches(RegexFor(template), path) <==> TemplateMatches(template, path)
  }

  /** The generated regex means the template exactly when no mixed segment carries sentinel text. */
  lemma RegexMeansTemplate(template: string)
    ensures SameLanguage(template) <==> Compilable(template)
  {
    var segs := Split(template, '/');
    var compiled, intended := AllCompiled(segs), AllIntended(segs);
    forall i | 0 <= i < |segs|
      ensures SlashFree(compiled[i]) && SlashFree(intended[i])
      ensures compiled[i] == intended[i] <==> !(HasPlaceholder(segs[i]) && HasSentinelText(segs[i]))
    {
      CompiledSlashFree(segs[i]);
      TokensSlashFree(segs[i]);
      CompiledAsIntended(segs[i]);
    }
    RegexForParses(template);
    forall path
      ensures RegexMatches(RegexFor(template), path) <==> Match(JoinTokens(compiled), path)
      ensures TemplateMatches(template, path) <==> Match(JoinTokens(intended), path)
    {
      IntendedMeaning(template, path);
    }
    SamePathsIffSameTokens(compiled, intended);
    assert SameLanguage(template) <==> SamePaths(compiled, intended);
    if Compilable(template) {
      assert compiled == intended;
    }
  }
}
