/** The gateway's own segment matcher (routing.go) beside the Envoy route
    (envoy.go): when the two accept the same paths. */
module RouterAgreement {
  import opened Text
  import opened RouteRegex
  import opened PathTemplates

  // ----- buildRESTRoute and the gateway's own matcher -----

  /** routing.go matchSegments on one segment: a leading placeholder may carry a literal suffix. */
  predicate GatewaySegment(pattern: string, text: string) {
    var n := PlaceholderLength(pattern);
    if n > 0 then
      var suffix := pattern[n..];
      |text| > |suffix| && text[|text| - |suffix|..] == suffix
    else pattern == text
  }

  predicate GatewayMatches(template: string, path: string) {
    var want, got := Split(template, '/'), Split(path, '/');
    |want| == |got| && forall i :: 0 <= i < |want| ==> GatewaySegment(want[i], got[i])
  }

  /** Segment by segment from the front. */
  predicate SegmentsFit(pattern: seq<string>, request: seq<string>)
    requires |pattern| == |request|
  {
    pattern == [] || (GatewaySegment(pattern[0], request[0]) && SegmentsFit(pattern[1..], request[1..]))
  }

  lemma {:induction false} SegmentsFitEach(pattern: seq<string>, request: seq<string>)
    requires |pattern| == |request|
    ensures SegmentsFit(pattern, request) <==> forall i :: 0 <= i < |pattern| ==> GatewaySegment(pattern[i], request[i])
  {
    if pattern != [] {
      SegmentsFitEach(pattern[1..], request[1..]);
      assert forall i :: 0 <= i < |pattern| - 1 ==> pattern[1..][i] == pattern[i+1] && request[1..][i] == request[i+1];
      assert forall i :: 0 < i < |pattern| ==> pattern[i] == pattern[1..][i-1] && request[i] == request[1..][i-1];
    }
  }

  /** matchSegments. */
  method MatchSegments(pattern: seq<string>, request: seq<string>) returns (ok: bool)
    ensures ok <==> |pattern| == |request| && SegmentsFit(pattern, request)
  {
    if |pattern| != |request| {
      return false;
    }
    assert pattern[0..] == pattern && request[0..] == request;
    for i := 0 to |pattern|
      invariant SegmentsFit(pattern, request) <==> SegmentsFit(pattern[i..], request[i..])
    {
      assert pattern[i..][1..] == pattern[i+1..] && request[i..][1..] == request[i+1..];
      ok := MatchSegment(pattern[i], request[i]);
      if !ok {
        return false;
      }
    }
    return true;
  }

  method MatchPath(template: string, path: string) returns (ok: bool)
    ensures ok <==> GatewayMatches(template, path)
  {
    ok := MatchSegments(Split(template, '/'), Split(path, '/'));
    if |Split(template, '/')| == |Split(path, '/')| { SegmentsFitEach(Split(template, '/'), Split(path, '/')); }
  }

  method MatchSegment(pattern: string, text: string) returns (ok: bool)
    ensures ok <==> GatewaySegment(pattern, text)
  {
    var n := PlaceholderLength(pattern);
    if n > 0 {
      var suffix := pattern[n..];
      return |text| > |suffix| && text[|text| - |suffix|..] == suffix;
    }
    return pattern == text;
  }

  function GatewayTokens(seg: string): seq<Token> {
    var n := PlaceholderLength(seg);
    if n > 0 then [Wild] + Lits(seg[n..]) else Lits(seg)
  }

  function AllGateway(segs: seq<string>): (r: seq<seq<Token>>)
    ensures |r| == |segs| && forall i :: 0 <= i < |segs| ==> r[i] == GatewayTokens(segs[i])
  {
    seq(|segs|, i requires 0 <= i < |segs| => GatewayTokens(segs[i]))
  }

  /** The segments both routers read alike: literal, or one leading placeholder with a plain suffix. */
  predicate SimpleSegment(seg: string) {
    var n := PlaceholderLength(seg);
    !HasPlaceholder(seg) || (n > 0 && !HasPlaceholder(seg[n..]) && !HasSentinelText(seg[n..]))
  }

  /** A proper suffix, said by its length and said by some cut. */
  lemma EndsWith(suffix: string, text: string)
    ensures (|text| > |suffix| && text[|text| - |suffix|..] == suffix) <==>
              exists k :: 1 <= k <= |text| && Match(Lits(suffix), text[k..])
  {
    forall k | 1 <= k <= |text| ensures Match(Lits(suffix), text[k..]) <==> suffix == text[k..] {
      MatchLits(suffix, text[k..]);
    }
    if |text| > |suffix| && text[|text| - |suffix|..] == suffix {
      assert Match(Lits(suffix), text[|text| - |suffix|..]);
    }
  }

  lemma GatewaySegmentTokens(seg: string, text: string)
    requires '/' !in text
    ensures GatewaySegment(seg, text) <==> Match(GatewayTokens(seg), text)
  {
    var n := PlaceholderLength(seg);
    if n > 0 {
      var suffix := seg[n..];
      WildMatch(Lits(suffix), text);
      EndsWith(suffix, text);
    } else {
      MatchLits(seg, text);
    }
  }

  lemma GatewayMeaning(template: string, path: string)
    ensures GatewayMatches(template, path) <==> Match(JoinTokens(AllGateway(Split(template, '/'))), path)
  {
    var want, got := Split(template, '/'), Split(path, '/');
    forall i | 0 <= i < |want| ensures SlashFree(AllGateway(want)[i]) { GatewaySlashFree(want[i]); }
    MatchJoined(AllGateway(want), path);
    if |want| == |got| {
      forall i | 0 <= i < |want|
        ensures GatewaySegment(want[i], got[i]) <==> Match(AllGateway(want)[i], got[i])
      {
        GatewaySegmentTokens(want[i], got[i]);
      }
    }
  }

  lemma GatewaySlashFree(seg: string)
    requires '/' !in seg
    ensures SlashFree(GatewayTokens(seg))
  {
    var n := PlaceholderLength(seg);
    LitsSlashFree(if n > 0 then seg[n..] else seg);
  }

  // ----- a placeholder of a segment is a placeholder of the template -----

  lemma {:induction false} CutExtends(a: string, b: string, sep: char)
    requires sep in a
    ensures Cut(a + b, sep).0 == Cut(a, sep).0
  {
    assert (a + b)[0] == a[0] && (a + b)[1..] == a[1..] + b;
    if a[0] != sep { CutExtends(a[1..], b, sep); }
  }

  lemma PlaceholderExtends(a: string, b: string)
    requires PlaceholderLength(a) > 0
    ensures PlaceholderLength(a + b) > 0
  {
    var s := a + b;
    assert s[0] == a[0] && s[1..] == a[1..] + b;
    assert '}' in a[1..] && '}' in s;
    CutExtends(a[1..], b, '}');
    assert Cut(s[1..], '}').0 == Cut(a[1..], '}').0 != "";
  }

  lemma {:induction false} SegmentPlaceholder(s: string, i: nat)
    requires i < |Split(s, '/')| && HasPlaceholder(Split(s, '/')[i])
    ensures HasPlaceholder(s)
  {
    var parts, rest := Split(s, '/'), Split(s[1..], '/');
    if s[0] == '/' {
      assert parts[i] == rest[i-1];
      SegmentPlaceholder(s[1..], i - 1);
    } else if i > 0 {
      assert parts[i] == rest[i];
      SegmentPlaceholder(s[1..], i);
    } else if PlaceholderLength(parts[0]) > 0 {
      FirstPlaceholder(s);
    } else {
      assert parts[0][1..] == rest[0];
      SegmentPlaceholder(s[1..], 0);
    }
  }

  lemma FirstPlaceholder(s: string)
    requires PlaceholderLength(Split(s, '/')[0]) > 0
    ensures PlaceholderLength(s) > 0
  {
    var first := Split(s, '/')[0];
    FirstPartPrefix(s);
    PlaceholderExtends(first, s[|first|..]);
    assert first + s[|first|..] == s;
  }

  lemma {:induction false} FirstPartPrefix(s: string)
    ensures Split(s, '/')[0] <= s
  {
    if s != "" && s[0] != '/' {
      FirstPartPrefix(s[1..]);
      assert s == [s[0]] + s[1..];
    }
  }

  lemma {:induction false} JoinLits(parts: seq<string>)
    requires parts != []
    ensures JoinTokens(seq(|parts|, i requires 0 <= i < |parts| => Lits(parts[i]))) == Lits(Join(parts, '/'))
  {
    var all := seq(|parts|, i requires 0 <= i < |parts| => Lits(parts[i]));
    if |parts| > 1 {
      var tail := parts[1..];
      JoinLits(tail);
      assert all[1..] == seq(|tail|, i requires 0 <= i < |tail| => Lits(tail[i]));
      LitsConcat(parts[0], "/" + Join(tail, '/'));
      assert parts[0] + "/" + Join(tail, '/') == parts[0] + ("/" + Join(tail, '/'));
      assert ("/" + Join(tail, '/'))[1..] == Join(tail, '/');
    }
  }

  lemma {:induction false} LitsConcat(a: string, b: string)
    ensures Lits(a + b) == Lits(a) + Lits(b)
  {
    if a == "" { assert a + b == b; } else {
      LitsConcat(a[1..], b);
      assert (a + b)[1..] == a[1..] + b;
    }
  }

  /** The exact-path shortcut for templates without placeholders agrees with their regex. */
  lemma RouteTokens(template: string, path: string)
    ensures RouteMatches(template, path) <==> Match(JoinTokens(AllCompiled(Split(template, '/'))), path)
  {
    if HasPlaceholder(template) {
      RegexForParses(template);
    } else {
      var segs := Split(template, '/');
      forall i | 0 <= i < |segs| ensures !HasPlaceholder(segs[i]) {
        if HasPlaceholder(segs[i]) { SegmentPlaceholder(template, i); }
      }
      assert AllCompiled(segs) == seq(|segs|, i requires 0 <= i < |segs| => Lits(segs[i]));
      JoinLits(segs);
      JoinSplit(template, '/');
      MatchLits(template, path);
    }
  }

  /** Envoy route and template agree on every path exactly for compilable templates. */
  lemma RouteMeansTemplate(template: string)
    ensures (forall path :: RouteMatches(template, path) <==> TemplateMatches(template, path))
       <==> Compilable(template)
  {
    RegexMeansTemplate(template);
    forall path ensures RouteMatches(template, path) <==> RegexMatches(RegexFor(template), path) {
      RouteTokens(template, path);
      RegexForParses(template);
    }
  }

  // ----- when the two routers agree -----

  lemma {:induction false} SentinelGivesWild(m: string, i: nat)
    requires i <= |m| && SENTINEL <= m[i..]
    ensures Wild in MarkedTokens(m)
  {
    if !(SENTINEL <= m) {
      assert m[1..][i-1..] == m[i..];
      SentinelGivesWild(m[1..], i - 1);
    }
  }

  lemma {:induction false} PlaceholderGivesSentinel(seg: string) returns (i: nat)
    requires HasPlaceholder(seg)
    ensures i <= |MarkPlaceholders(seg)| && SENTINEL <= MarkPlaceholders(seg)[i..]
  {
    if PlaceholderLength(seg) > 0 {
      i := 0;
    } else {
      var j := PlaceholderGivesSentinel(seg[1..]);
      i := j + 1;
      ConsSuffix(seg[0], MarkPlaceholders(seg[1..]), j);
    }
  }

  lemma ConsSuffix(c: char, s: string, j: nat)
    requires j <= |s|
    ensures ([c] + s)[j+1..] == s[j..]
  {
  }

  lemma {:induction false} NoWildInLits(s: string)
    ensures Wild !in Lits(s)
  {
    if s != "" { NoWildInLits(s[1..]); }
  }

  lemma MarkedAsLits(s: string)
    ensures MarkedTokens(MarkPlaceholders(s)) == Lits(s) <==> !HasPlaceholder(s) && !HasSentinelText(s)
  {
    if HasPlaceholder(s) {
      var i := PlaceholderGivesSentinel(s);
      SentinelGivesWild(MarkPlaceholders(s), i);
      NoWildInLits(s);
    } else {
      SentinelDecides(s);
      PlainTokens(s);
    }
  }

  lemma RoutersAgreeOnSegment(seg: string)
    ensures CompiledTokens(seg) == GatewayTokens(seg) <==> SimpleSegment(seg)
  {
    var n := PlaceholderLength(seg);
    if HasPlaceholder(seg) {
      var m := MarkPlaceholders(seg);
      if n > 0 {
        assert m == SENTINEL + MarkPlaceholders(seg[n..]);
        assert AfterHead(m) == MarkPlaceholders(seg[n..]);
        MarkedAsLits(seg[n..]);
        ConsEqual(Wild, MarkedTokens(AfterHead(m)), Lits(seg[n..]));
      } else {
        var i := PlaceholderGivesSentinel(seg);
        SentinelGivesWild(m, i);
        NoWildInLits(seg);
      }
    }
  }

  lemma SimpleSegments(segs: seq<string>)
    ensures AllCompiled(segs) == AllGateway(segs) <==> forall i :: 0 <= i < |segs| ==> SimpleSegment(segs[i])
  {
    forall i | 0 <= i < |segs| ensures AllCompiled(segs)[i] == AllGateway(segs)[i] <==> SimpleSegment(segs[i]) {
      RoutersAgreeOnSegment(segs[i]);
    }
  }

  lemma RoutersAsTokens(template: string)
    ensures (forall path :: RouteMatches(template, path) <==> GatewayMatches(template, path)) <==>
              SamePaths(AllCompiled(Split(template, '/')), AllGateway(Split(template, '/')))
  {
    forall path
      ensures RouteMatches(template, path) <==> Match(JoinTokens(AllCompiled(Split(template, '/'))), path)
      ensures GatewayMatches(template, path) <==> Match(JoinTokens(AllGateway(Split(template, '/'))), path)
    {
      RouteTokens(template, path);
      GatewayMeaning(template, path);
    }
  }

  /** The Envoy route and the gateway matcher accept the same paths exactly when every
      segment of the template is simple. */
  lemma RoutersAgree(template: string)
    ensures (forall path :: RouteMatches(template, path) <==> GatewayMatches(template, path))
       <==> (forall i :: 0 <= i < |Split(template, '/')| ==> SimpleSegment(Split(template, '/')[i]))
  {
    var segs := Split(template, '/');
    forall i | 0 <= i < |segs| ensures SlashFree(AllCompiled(segs)[i]) && SlashFree(AllGateway(segs)[i]) {
      CompiledSlashFree(segs[i]);
      GatewaySlashFree(segs[i]);
    }
    RoutersAsTokens(template);
    SamePathsIffSameTokens(AllCompiled(segs), AllGateway(segs));
    SimpleSegments(segs);
  }

  lemma BracedName()
    ensures PlaceholderLength("{a}") == 3
  {
    var s := "{a}";
    var t := s[1..];
    assert t == "a}" && t[1..] == "}";
    assert Cut("}", '}').0 == "";
    assert ['a'] + "" == "a";
    assert Cut(t, '}').0 == "a";
  }

  /** A template the two routers read differently: the regex sees the placeholder after
      the literal text, the gateway matcher takes the segment literally. */
  lemma RoutersDisagreeExample()
    ensures exists path :: RouteMatches("v{a}", path) != GatewayMatches("v{a}", path)
  {
    var template := "v{a}";
    SplitNone(template, '/');
    BracedName();
    assert template[1..] == "{a}";
    assert PlaceholderLength(template) == 0 && HasPlaceholder("{a}");
    assert !SimpleSegment(Split(template, '/')[0]);
    RoutersAgree(template);
  }

  const SENTINEL_TEMPLATE := SENTINEL + "{a}"

  /** A template that names the sentinel before a placeholder compiles to another language:
      the regex takes any text where the template says NUL PARAM NUL. */
  lemma SentinelTemplateFails()
    ensures !SameLanguage(SENTINEL_TEMPLATE)
  {
    var t := SENTINEL_TEMPLATE;
    assert '/' !in t;
    SplitNone(t, '/');
    assert t[7..] == "{a}" && t[..6] == SENTINEL[..6] && t[6] == '\0';
    BracedName();
    assert HasPlaceholder(t[7..]);
    assert HasPlaceholder(t) by { PlaceholderInside(t, 7); }
    assert PlaceholderLength(t) == 0;
    assert SentinelHere(t);
    assert Split(t, '/')[0] == t;
    RegexMeansTemplate(t);
  }

  lemma {:induction false} PlaceholderInside(s: string, i: nat)
    requires i <= |s| && HasPlaceholder(s[i..])
    ensures HasPlaceholder(s)
  {
    if i > 0 {
      assert s[1..][i-1..] == s[i..];
      PlaceholderInside(s[1..], i - 1);
    } else {
      assert s[0..] == s;
    }
  }
}
