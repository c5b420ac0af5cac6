/** Each name predicate of the model accepts exactly the strings of its source pattern. */
module NamePatterns {
  import opened Text
  import opened Topology
  import opened EventCatalog
  import opened SettingsFields
  import opened SolutionPaths
  import opened ComposeLayers
  import opened Patterns

  const LOWER: seq<(char, char)> := [('a', 'z')]
  const LOWER_DIGIT: seq<(char, char)> := [('a', 'z'), ('0', '9')]
  const LOWER_DIGIT_BAR: seq<(char, char)> := [('a', 'z'), ('0', '9'), ('_', '_')]
  const DOT: seq<(char, char)> := [('.', '.')]

  // ----- names in parts -----

  /** `^[a-z][a-z0-9]*(?:[._-][a-z0-9]+)*$` */
  const LOGICAL_ID: Pattern :=
    Then(Chars(LOWER), Then(Many(Chars(LOWER_DIGIT)), Many(Parts(ID_SEPARATORS, LOWER_DIGIT))))

  const ID_SEPARATORS: seq<(char, char)> := [('.', '.'), ('_', '_'), ('-', '-')]

  lemma LowerMeaning(c: char)
    ensures InRanges(LOWER, c) <==> 'a' <= c <= 'z'
    ensures InRanges(DOT, c) <==> c == '.'
  {
    assert LOWER[0] == ('a', 'z') && DOT[0] == ('.', '.');
  }

  lemma LowerDigitMeaning(c: char)
    ensures InRanges(LOWER_DIGIT, c) <==> 'a' <= c <= 'z' || '0' <= c <= '9'
    ensures InRanges(LOWER_DIGIT_BAR, c) <==> 'a' <= c <= 'z' || '0' <= c <= '9' || c == '_'
  {
    assert LOWER_DIGIT[0] == ('a', 'z') && LOWER_DIGIT[1] == ('0', '9');
    assert LOWER_DIGIT_BAR[0] == ('a', 'z') && LOWER_DIGIT_BAR[1] == ('0', '9') && LOWER_DIGIT_BAR[2] == ('_', '_');
  }

  lemma SeparatorMeaning(c: char)
    ensures InRanges(ID_SEPARATORS, c) <==> c == '.' || c == '_' || c == '-'
  {
    assert ID_SEPARATORS[0] == ('.', '.') && ID_SEPARATORS[1] == ('_', '_') && ID_SEPARATORS[2] == ('-', '-');
  }

  /** A head character, then parts: what a name in parts is, character by character. */
  lemma HeadAndParts(head: seq<(char, char)>, separators: seq<(char, char)>, body: seq<(char, char)>, s: string)
    requires Disjoint(separators, body) && forall c :: InRanges(head, c) ==> InRanges(body, c)
    ensures (s != "" && InRanges(head, s[0]) && InParts(separators, body, s[1..])) <==>
              (s != "" && InRanges(head, s[0]) && InParts(separators, body, s))
  {
    if s != "" && InRanges(head, s[0]) {
      InBoth(separators, body, s[0]);
      assert AllIn(body, s[..1]);
      if 1 < |s| { FirstFollows(separators, body, s); }
    }
  }

  lemma FirstFollows(separators: seq<(char, char)>, body: seq<(char, char)>, s: string)
    requires Disjoint(separators, body) && |s| > 1 && InRanges(body, s[0])
    ensures InParts(separators, body, s[1..]) <==> InParts(separators, body, s)
  {
    var t := s[1..];
    InBoth(separators, body, s[0]);
    assert forall i :: 0 <= i < |t| ==> t[i] == s[i+1];
    if InParts(separators, body, t) {
      forall i | 0 <= i < |s| ensures InRanges(separators + body, s[i]) { if i > 0 { assert s[i] == t[i-1]; } }
      forall i | 0 <= i < |s| && InRanges(separators, s[i]) ensures i + 1 < |s| && InRanges(body, s[i+1]) {
        if i > 0 { assert s[i] == t[i-1]; }
      }
    }
    if InParts(separators, body, s) {
      forall i | 0 <= i < |t| && InRanges(separators, t[i]) ensures i + 1 < |t| && InRanges(body, t[i+1]) {
        assert t[i] == s[i+1];
        assert t[i+1] == s[i+2];
      }
    }
  }

  /** logicalIDPattern and eventQueuePattern. */
  lemma LogicalIdPattern(s: string)
    ensures IsLogicalId(s) <==> Matches(LOGICAL_ID, s)
  {
    forall c
      ensures InRanges(LOWER, c) <==> 'a' <= c <= 'z'
      ensures InRanges(LOWER_DIGIT, c) <==> LowerAlnum(c)
      ensures InRanges(ID_SEPARATORS, c) <==> IdSeparator(c)
      ensures InRanges(ID_SEPARATORS + LOWER_DIGIT, c) <==> LowerAlnum(c) || IdSeparator(c)
    {
      LowerMeaning(c);
      LowerDigitMeaning(c);
      SeparatorMeaning(c);
      InBoth(ID_SEPARATORS, LOWER_DIGIT, c);
    }
    ThenChar(LOWER, Then(Many(Chars(LOWER_DIGIT)), Many(Parts(ID_SEPARATORS, LOWER_DIGIT))), s);
    if s != "" { RunThenParts(ID_SEPARATORS, LOWER_DIGIT, s[1..]); }
    HeadAndParts(LOWER, ID_SEPARATORS, LOWER_DIGIT, s);
    InPartsOfId(s);
  }

  lemma InPartsOfId(s: string)
    requires forall c :: InRanges(LOWER_DIGIT, c) <==> LowerAlnum(c)
    requires forall c :: InRanges(ID_SEPARATORS, c) <==> IdSeparator(c)
    requires forall c :: InRanges(ID_SEPARATORS + LOWER_DIGIT, c) <==> LowerAlnum(c) || IdSeparator(c)
    ensures InParts(ID_SEPARATORS, LOWER_DIGIT, s) <==>
              && (forall i :: 0 <= i < |s| ==> LowerAlnum(s[i]) || IdSeparator(s[i]))
              && (forall i :: 0 <= i < |s| && IdSeparator(s[i]) ==> i + 1 < |s| && LowerAlnum(s[i+1]))
  {
  }

  /** `^[a-z][a-z0-9_]*(?:\.[a-z0-9_]+)+$` */
  const EVENT_TYPE: Pattern :=
    Then(Chars(LOWER), Then(Many(Chars(LOWER_DIGIT_BAR)), Some1(Parts(DOT, LOWER_DIGIT_BAR))))

  /** eventTypePattern. */
  lemma EventTypePattern(s: string)
    ensures IsEventType(s) <==> Matches(EVENT_TYPE, s)
  {
    forall c
      ensures InRanges(LOWER, c) <==> 'a' <= c <= 'z'
      ensures InRanges(LOWER_DIGIT_BAR, c) <==> LowerAlnum(c) || c == '_'
      ensures InRanges(DOT, c) <==> c == '.'
      ensures InRanges(DOT + LOWER_DIGIT_BAR, c) <==> EventChar(c)
    {
      LowerMeaning(c);
      LowerDigitMeaning(c);
      InBoth(DOT, LOWER_DIGIT_BAR, c);
    }
    ThenChar(LOWER, Then(Many(Chars(LOWER_DIGIT_BAR)), Some1(Parts(DOT, LOWER_DIGIT_BAR))), s);
    if s != "" {
      RunThenSomeParts(DOT, LOWER_DIGIT_BAR, s[1..]);
      DotLater(s);
    }
    HeadAndParts(LOWER, DOT, LOWER_DIGIT_BAR, s);
    InPartsOfType(s);
  }

  lemma DotLater(s: string)
    requires s != "" && (forall c :: InRanges(DOT, c) <==> c == '.')
    ensures HasSeparator(DOT, s[1..]) <==> '.' in s[1..]
    ensures s[0] != '.' ==> ('.' in s <==> '.' in s[1..])
  {
    assert s == [s[0]] + s[1..];
    if '.' in s[1..] { var i :| 0 <= i < |s[1..]| && s[1..][i] == '.'; }
  }

  lemma InPartsOfType(s: string)
    requires forall c :: InRanges(LOWER_DIGIT_BAR, c) <==> LowerAlnum(c) || c == '_'
    requires forall c :: InRanges(DOT, c) <==> c == '.'
    requires forall c :: InRanges(DOT + LOWER_DIGIT_BAR, c) <==> EventChar(c)
    ensures InParts(DOT, LOWER_DIGIT_BAR, s) <==>
              && (forall i :: 0 <= i < |s| ==> EventChar(s[i]))
              && (forall i :: 0 <= i < |s| && s[i] == '.' ==> i + 1 < |s| && s[i+1] != '.')
  {
  }

  const NAME_SEPARATORS: seq<(char, char)> := [('-', '-'), ('_', '_')]

  /** `^[a-z][a-z0-9]*(?:[-_][a-z0-9]+)*$` */
  const FIXTURE_NAME: Pattern :=
    Then(Chars(LOWER), Then(Many(Chars(LOWER_DIGIT)), Many(Parts(NAME_SEPARATORS, LOWER_DIGIT))))

  /** fixtureNamePattern: what the composes of the model take is all that it matches, and more. */
  lemma FixtureNamePattern(s: string)
    requires Matches(FIXTURE_NAME, s)
    ensures FixtureName(s)
  {
    forall c
      ensures InRanges(LOWER, c) <==> 'a' <= c <= 'z'
      ensures InRanges(NAME_SEPARATORS, c) <==> c == '-' || c == '_'
      ensures InRanges(LOWER_DIGIT, c) <==> LowerAlnum(c)
      ensures InRanges(NAME_SEPARATORS + LOWER_DIGIT, c) <==> NameChar(c)
    {
      LowerMeaning(c);
      LowerDigitMeaning(c);
      assert NAME_SEPARATORS[0] == ('-', '-') && NAME_SEPARATORS[1] == ('_', '_');
      InBoth(NAME_SEPARATORS, LOWER_DIGIT, c);
    }
    ThenChar(LOWER, Then(Many(Chars(LOWER_DIGIT)), Many(Parts(NAME_SEPARATORS, LOWER_DIGIT))), s);
    RunThenParts(NAME_SEPARATORS, LOWER_DIGIT, s[1..]);
    assert forall i :: 0 < i < |s| ==> s[i] == s[1..][i-1];
  }

  // ----- names with an end of their own -----

  const LABEL_CHARS: seq<(char, char)> := [('-', '-'), ('a', 'z'), ('0', '9')]
  const ID_CHARS: seq<(char, char)> := [('a', 'z'), ('0', '9'), ('_', '_'), ('-', '-')]

  /** dnsLabelPattern, `^[a-z0-9](?:[-a-z0-9]*[a-z0-9])?$`, beside the length check. */
  lemma DnsLabelPattern(s: string)
    ensures IsDnsLabel(s) <==> |s| <= 63 && Matches(Ended(LOWER_DIGIT, LABEL_CHARS), s)
  {
    forall c
      ensures InRanges(LABEL_CHARS, c) <==> LabelChar(c)
      ensures InRanges(LOWER_DIGIT, c) <==> LabelChar(c) && c != '-'
    {
      LowerDigitMeaning(c);
      assert LABEL_CHARS[0] == ('-', '-') && LABEL_CHARS[1] == ('a', 'z') && LABEL_CHARS[2] == ('0', '9');
    }
    EndedMeaning(LOWER_DIGIT, LABEL_CHARS, s);
  }

  /** solutionIDPattern, `^[a-z0-9](?:[a-z0-9_-]*[a-z0-9])?$`. */
  lemma SolutionIdPattern(s: string)
    ensures ValidId(s) <==> Matches(Ended(LOWER_DIGIT, ID_CHARS), s)
  {
    forall c
      ensures InRanges(ID_CHARS, c) <==> Alphanumeric(c) || c == '_' || c == '-'
      ensures InRanges(LOWER_DIGIT, c) <==> Alphanumeric(c)
    {
      LowerDigitMeaning(c);
      assert ID_CHARS[0] == ('a', 'z') && ID_CHARS[1] == ('0', '9') && ID_CHARS[2] == ('_', '_')
             && ID_CHARS[3] == ('-', '-');
    }
    EndedMeaning(LOWER_DIGIT, ID_CHARS, s);
  }

  // ----- protobuf names -----

  const LETTER: seq<(char, char)> := [('A', 'Z'), ('a', 'z')]
  const LETTER_DIGIT: seq<(char, char)> := [('A', 'Z'), ('a', 'z'), ('0', '9')]
  const LETTER_DIGIT_BAR: seq<(char, char)> := [('A', 'Z'), ('a', 'z'), ('0', '9'), ('_', '_')]

  /** `^[a-z][a-z0-9_]*$`, fieldNamePattern. */
  lemma FieldNamePattern(s: string)
    ensures IsFieldName(s) <==> Matches(Then(Chars(LOWER), Many(Chars(LOWER_DIGIT_BAR))), s)
  {
    ThenChar(LOWER, Many(Chars(LOWER_DIGIT_BAR)), s);
    if s != "" {
      LowerMeaning(s[0]);
      ManyChars(LOWER_DIGIT_BAR, s[1..]);
      forall c ensures InRanges(LOWER_DIGIT_BAR, c) <==> 'a' <= c <= 'z' || '0' <= c <= '9' || c == '_' {
        LowerDigitMeaning(c);
      }
      assert forall i :: 0 < i < |s| ==> s[i] == s[1..][i-1];
    }
  }

  const VERSION_DIR: Pattern := Then(Chars([('v', 'v')]), Some1(Chars([('0', '9')])))

  /** versionDirPattern, `^v([0-9]+)$`, with a number that the parse takes. */
  lemma VersionDirPattern(s: string)
    ensures IsVersionDir(s) <==> s != "" && Matches(VERSION_DIR, s) && Digits(s[1..]) <= 0x7FFF_FFFF_FFFF_FFFF
  {
    var v, digits := [('v', 'v')], [('0', '9')];
    ThenChar(v, Some1(Chars(digits)), s);
    assert v[0] == ('v', 'v') && digits[0] == ('0', '9');
    if s != "" {
      SomeChars(digits, s[1..]);
      forall c ensures InRanges(digits, c) <==> '0' <= c <= '9' { }
      assert forall i :: 0 < i < |s| ==> s[i] == s[1..][i-1];
    }
  }

  const PROTO_PART: Pattern := Then(Chars(LETTER), Many(Chars(LETTER_DIGIT_BAR)))

  /** `^[A-Za-z][A-Za-z0-9]*(?:\.[A-Za-z][A-Za-z0-9_]*)+$` */
  const PROTO_NAME: Pattern :=
    Then(Chars(LETTER), Then(Many(Chars(LETTER_DIGIT)), Some1(Then(Chars([('.', '.')]), PROTO_PART))))

  lemma LetterMeaning(c: char)
    ensures InRanges(LETTER, c) <==> Letter(c)
    ensures InRanges(LETTER_DIGIT, c) <==> LetterOrDigit(c)
    ensures InRanges(LETTER_DIGIT_BAR, c) <==> LetterOrDigit(c) || c == '_'
  {
    assert LETTER[0] == ('A', 'Z') && LETTER[1] == ('a', 'z');
    assert LETTER_DIGIT[0] == ('A', 'Z') && LETTER_DIGIT[1] == ('a', 'z') && LETTER_DIGIT[2] == ('0', '9');
    assert LETTER_DIGIT_BAR[0] == ('A', 'Z') && LETTER_DIGIT_BAR[1] == ('a', 'z') && LETTER_DIGIT_BAR[2] == ('0', '9')
           && LETTER_DIGIT_BAR[3] == ('_', '_');
  }

  lemma ProtoPartPattern(s: string)
    ensures Matches(PROTO_PART, s) <==> ProtoPart(s, true)
    ensures Matches(PROTO_PART, s) ==> '.' !in s
  {
    forall c
      ensures InRanges(LETTER, c) <==> Letter(c)
      ensures InRanges(LETTER_DIGIT_BAR, c) <==> LetterOrDigit(c) || c == '_'
    {
      LetterMeaning(c);
    }
    ThenChar(LETTER, Many(Chars(LETTER_DIGIT_BAR)), s);
    if s != "" {
      ManyChars(LETTER_DIGIT_BAR, s[1..]);
      assert forall i :: 0 < i < |s| ==> s[i] == s[1..][i-1];
    }
  }

  lemma HeadOfName(s: string, i: nat)
    requires 0 < i <= |s|
    ensures ProtoPart(s[..i], false) <==> Letter(s[0]) && Matches(Many(Chars(LETTER_DIGIT)), s[1..i])
    ensures ProtoPart(s[..i], false) ==> '.' !in s[..i]
  {
    forall c ensures InRanges(LETTER_DIGIT, c) <==> LetterOrDigit(c) { LetterMeaning(c); }
    ManyChars(LETTER_DIGIT, s[1..i]);
    assert forall j :: 0 < j < i ==> s[..i][j] == s[1..i][j-1];
  }

  /** A name cut at its first dot: a head, and at least one part after it. */
  ghost predicate NameAt(s: string, i: int) {
    && 0 < i < |s| && ProtoPart(s[..i], false) && s[i] == '.'
    && AllMatch(PROTO_PART, Split(s[i+1..], '.'))
  }

  lemma NameCut(s: string)
    ensures IsProtoName(s) <==> exists i :: NameAt(s, i)
  {
    forall x ensures Matches(PROTO_PART, x) <==> ProtoPart(x, true) { ProtoPartPattern(x); }
    if i :| NameAt(s, i) {
      HeadOfName(s, i);
      assert s == s[..i] + ['.'] + s[i+1..];
      SplitAt(s[..i], s[i+1..], '.');
      var parts := Split(s, '.');
      assert forall j :: 1 <= j < |parts| ==> parts[j] == Split(s[i+1..], '.')[j-1];
    }
    if IsProtoName(s) {
      var parts := Split(s, '.');
      var i := FirstDot(s);
      assert parts[1..] == Split(s[i+1..], '.');
      assert NameAt(s, i);
    }
  }

  lemma FirstDot(s: string) returns (i: nat)
    requires |Split(s, '.')| >= 2
    ensures i < |s| && s[i] == '.' && Split(s, '.') == [s[..i]] + Split(s[i+1..], '.')
  {
    if '.' !in s { SplitNone(s, '.'); }
    var u, v := FirstBreak(s, '.');
    i := |u|;
    SplitAt(u, v, '.');
    assert s[..i] == u && s[i+1..] == v;
  }

  function NameTail(): Pattern { Some1(Then(Chars([('.', '.')]), PROTO_PART)) }

  lemma NameMatches(s: string, i: int)
    requires NameAt(s, i) && Lacks(PROTO_PART, '.')
    ensures Matches(PROTO_NAME, s)
  {
    var head := Many(Chars(LETTER_DIGIT));
    ThenChar(LETTER, Then(head, NameTail()), s);
    LetterMeaning(s[0]);
    HeadOfName(s, i);
    SomePieces(PROTO_PART, '.', s[i..]);
    assert s[i..][1..] == s[i+1..];
    assert s[1..][..i-1] == s[1..i] && s[1..][i-1..] == s[i..];
    assert Matches(Then(head, NameTail()), s[1..]);
  }

  lemma MatchIsName(s: string) returns (i: int)
    requires Matches(PROTO_NAME, s) && Lacks(PROTO_PART, '.')
    ensures NameAt(s, i)
  {
    var head := Many(Chars(LETTER_DIGIT));
    ThenChar(LETTER, Then(head, NameTail()), s);
    LetterMeaning(s[0]);
    var k :| 0 <= k <= |s[1..]| && Matches(head, s[1..][..k]) && Matches(NameTail(), s[1..][k..]);
    i := k + 1;
    assert s[1..][..k] == s[1..i] && s[1..][k..] == s[i..];
    HeadOfName(s, i);
    SomePieces(PROTO_PART, '.', s[i..]);
    assert s[i..][1..] == s[i+1..];
  }

  /** protoNamePattern. */
  lemma ProtoNamePattern(s: string)
    ensures IsProtoName(s) <==> Matches(PROTO_NAME, s)
  {
    NameCut(s);
    forall x ensures Matches(PROTO_PART, x) ==> '.' !in x { ProtoPartPattern(x); }
    if i :| NameAt(s, i) { NameMatches(s, i); }
    if Matches(PROTO_NAME, s) { var i := MatchIsName(s); }
  }
}
