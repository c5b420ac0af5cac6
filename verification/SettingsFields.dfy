/** Protobuf field numbers of contributed settings (composition.go): what validate accepts,
    and the numbers derived from a digest. */
module SettingsFields {
  import opened Text
  import opened EventCatalog

  datatype Range = Range(start: int, end: int)

  datatype Setting = Setting(
    schema: string, scope: string, namespace: string, message: string, protoImport: string,
    fieldName: string, number: int, range: Range)

  // ----- the form of one contribution -----

  const SCHEMA := "codefly/saas/settings-contribution/v1"

  predicate Letter(c: char) { 'a' <= c <= 'z' || 'A' <= c <= 'Z' }

  predicate LetterOrDigit(c: char) { Letter(c) || '0' <= c <= '9' }

  predicate ProtoPart(part: string, underscores: bool) {
    && part != "" && Letter(part[0])
    && forall i :: 0 <= i < |part| ==> LetterOrDigit(part[i]) || (underscores && part[i] == '_')
  }

  /** protoNamePattern: `^[A-Za-z][A-Za-z0-9]*(?:\.[A-Za-z][A-Za-z0-9_]*)+$`. */
  predicate IsProtoName(s: string) {
    var parts := Split(s, '.');
    |parts| >= 2 && ProtoPart(parts[0], false) && forall i :: 1 <= i < |parts| ==> ProtoPart(parts[i], true)
  }

  /** fieldNamePattern: `^[a-z][a-z0-9_]*$`. */
  predicate IsFieldName(s: string) {
    && s != "" && 'a' <= s[0] <= 'z'
    && forall i :: 0 <= i < |s| ==> 'a' <= s[i] <= 'z' || '0' <= s[i] <= '9' || s[i] == '_'
  }

  /** safeRelativePath: relative, canonical, and never above its root. */
  predicate SafeRelativePath(path: string) {
    '\\' !in path && forall i :: 0 <= i < |Split(path, '/')| ==> Split(path, '/')[i] !in {"", ".", ".."}
  }

  predicate IsProtoFile(path: string) { |path| >= 6 && path[|path|-6..] == ".proto" }

  predicate WellFormed(s: Setting, reserved: seq<string>) {
    && s.schema == SCHEMA && s.scope in {"", "user", "org"}
    && IsLogicalId(s.namespace) && !IsReserved(reserved, s.namespace)
    && IsProtoName(s.message) && !IsReserved(reserved, s.message)
    && SafeRelativePath(s.protoImport) && IsProtoFile(s.protoImport) && IsFieldName(s.fieldName)
  }

  // ----- what is accepted -----

  const LIMIT: int := 536870911

  predicate FieldOk(s: Setting) {
    && s.range.start <= s.number <= s.range.end
    && 1000 <= s.range.start && s.range.end <= LIMIT
    && !(s.range.start <= 19999 && s.range.end >= 19000)
  }

  predicate Overlap(a: Range, b: Range) { a.start <= b.end && b.start <= a.end }

  predicate Apart(a: Setting, b: Setting) {
    a.namespace != b.namespace && a.fieldName != b.fieldName && !Overlap(a.range, b.range)
  }

  /** What is accepted, with no word about duplicate numbers or the range 1-999. */
  predicate Accepted(ss: seq<Setting>, claimed: set<string>, reserved: seq<string>) {
    && (forall i :: 0 <= i < |ss| ==> WellFormed(ss[i], reserved) && FieldOk(ss[i]) && ss[i].fieldName !in claimed)
    && (forall i, j :: 0 <= i < j < |ss| ==> Apart(ss[i], ss[j]))
  }

  /** One more setting beside those accepted before it. */
  predicate Fits(s: Setting, before: seq<Setting>, claimed: set<string>, reserved: seq<string>) {
    && WellFormed(s, reserved) && FieldOk(s) && s.fieldName !in claimed
    && forall k :: 0 <= k < |before| ==> Apart(before[k], s)
  }

  lemma AcceptedNext(ss: seq<Setting>, i: nat, claimed: set<string>, reserved: seq<string>)
    requires i < |ss|
    ensures Accepted(ss[..i+1], claimed, reserved) <==>
              Accepted(ss[..i], claimed, reserved) && Fits(ss[i], ss[..i], claimed, reserved)
    ensures Accepted(ss, claimed, reserved) ==> Accepted(ss[..i+1], claimed, reserved)
  {
    var now, before := ss[..i+1], ss[..i];
    assert now[i] == ss[i] && forall k :: 0 <= k < i ==> now[k] == before[k] == ss[k];
    if Accepted(now, claimed, reserved) {
      forall k | 0 <= k < |before| ensures Apart(before[k], ss[i]) { assert Apart(now[k], now[i]); }
      forall j, k | 0 <= j < k < |before| ensures Apart(before[j], before[k]) { assert Apart(now[j], now[k]); }
    }
    if Accepted(before, claimed, reserved) && Fits(ss[i], before, claimed, reserved) {
      forall j, k | 0 <= j < k < |now| ensures Apart(now[j], now[k]) { assert k < i ==> Apart(before[j], before[k]); }
    }
  }

  /** The maps and the range list that validate fills. */
  datatype Met = Met(namespaces: set<string>, names: set<string>, numbers: set<int>, ranges: seq<Range>) {
    function Add(s: Setting): Met {
      Met(namespaces + {s.namespace}, names + {s.fieldName}, numbers + {s.number}, ranges + [s.range])
    }
  }

  function MetAfter(before: seq<Setting>, claimed: set<string>): Met {
    if before == [] then Met({}, claimed, {1}, [Range(1, 999)])
    else MetAfter(before[..|before|-1], claimed).Add(before[|before|-1])
  }

  /** What the maps say of a setting is what the settings before it are. */
  lemma {:induction false} MetMeaning(before: seq<Setting>, claimed: set<string>, s: Setting)
    ensures var met := MetAfter(before, claimed);
            && (s.namespace in met.namespaces <==> exists k :: 0 <= k < |before| && before[k].namespace == s.namespace)
            && (s.fieldName in met.names <==>
                  s.fieldName in claimed || exists k :: 0 <= k < |before| && before[k].fieldName == s.fieldName)
            && (s.number in met.numbers <==>
                  s.number == 1 || exists k :: 0 <= k < |before| && before[k].number == s.number)
  {
    if before != [] {
      var rest := before[..|before|-1];
      MetMeaning(rest, claimed, s);
      assert forall k :: 0 <= k < |rest| ==> rest[k] == before[k];
    }
  }

  lemma {:induction false} MetRanges(before: seq<Setting>, claimed: set<string>)
    ensures var ranges := MetAfter(before, claimed).ranges;
            && |ranges| == |before| + 1 && ranges[0] == Range(1, 999)
            && (forall k :: 0 <= k < |before| ==> ranges[k+1] == before[k].range)
  {
    if before != [] { MetRanges(before[..|before|-1], claimed); }
  }

  /** What the loop asks of one setting. A repeated number and an overlap with 1-999 are
      refused too; the contract shows that neither refuses anything more. */
  method CheckSetting(s: Setting, met: Met, ghost before: seq<Setting>, claimed: set<string>, reserved: seq<string>)
    returns (ok: bool)
    requires met == MetAfter(before, claimed) && forall k :: 0 <= k < |before| ==> FieldOk(before[k])
    ensures ok <==> Fits(s, before, claimed, reserved)
  {
    MetMeaning(before, claimed, s);
    MetRanges(before, claimed);
    if !WellFormed(s, reserved) || s.namespace in met.namespaces || !FieldOk(s) {
      return false;
    }
    if s.number in met.numbers {
      ghost var k :| 0 <= k < |before| && before[k].number == s.number;
      NumberInRange(before[k], s);
      return false;
    }
    if s.fieldName in met.names {
      return false;
    }
    ok := CheckRange(s.range, met.ranges);
    if !ok {
      ghost var k :| 0 <= k < |met.ranges| && Overlap(s.range, met.ranges[k]);
      assert k > 0 && Overlap(before[k-1].range, s.range);
    } else {
      forall k | 0 <= k < |before| ensures Apart(before[k], s) { assert !Overlap(s.range, met.ranges[k+1]); }
    }
  }

  /** The settings loop of validate. */
  method ValidateSettings(ss: seq<Setting>, claimed: set<string>, reserved: seq<string>) returns (ok: bool)
    ensures ok <==> Accepted(ss, claimed, reserved)
  {
    var met := Met({}, claimed, {1}, [Range(1, 999)]);
    for i := 0 to |ss|
      invariant met == MetAfter(ss[..i], claimed) && Accepted(ss[..i], claimed, reserved)
    {
      AcceptedNext(ss, i, claimed, reserved);
      ok := CheckSetting(ss[i], met, ss[..i], claimed, reserved);
      if !ok {
        return false;
      }
      assert ss[..i+1][..i] == ss[..i];
      met := met.Add(ss[i]);
    }
    assert ss[..|ss|] == ss;
    return true;
  }

  method CheckRange(r: Range, ranges: seq<Range>) returns (free: bool)
    ensures free <==> forall k :: 0 <= k < |ranges| ==> !Overlap(r, ranges[k])
  {
    for k := 0 to |ranges|
      invariant forall j :: 0 <= j < k ==> !Overlap(r, ranges[j])
    {
      if r.start <= ranges[k].end && ranges[k].start <= r.end {
        return false;
      }
    }
    return true;
  }

  /** Two settings with one number have overlapping ranges: the duplicate-number check
      refuses nothing that the range check would accept. */
  lemma NumberInRange(a: Setting, b: Setting)
    requires FieldOk(a) && FieldOk(b) && a.number == b.number
    ensures Overlap(a.range, b.range) && !Apart(a, b)
  {
  }

  /** Accepted settings never share a number or a range, and stay clear of the host's 1-999
      and of the numbers protobuf keeps for itself. */
  lemma AcceptedNumbers(ss: seq<Setting>, claimed: set<string>, reserved: seq<string>, i: nat, j: nat, n: int)
    requires Accepted(ss, claimed, reserved) && i < |ss| && j < |ss|
    requires ss[i].range.start <= n <= ss[i].range.end
    ensures 1000 <= n <= LIMIT && !(19000 <= n <= 19999)
    ensures ss[j].range.start <= n <= ss[j].range.end ==> i == j
    ensures ss[i].number == ss[j].number ==> i == j
  {
    if i < j { assert Apart(ss[i], ss[j]); }
    if j < i { assert Apart(ss[j], ss[i]); }
  }

  // ----- numbers from a digest -----

  const FIRST: int := 20000
  const WRAP: int := 0x1_0000_0000

  function Wrapped(n: int): int { n % WRAP }

  /** stableSettingsFieldNumber, in uint32 arithmetic, on the first four digest bytes. */
  function StableNumber(digest: int): int {
    Wrapped(FIRST + Wrapped(digest % Wrapped(Wrapped(LIMIT - FIRST) + 1)))
  }

  const SPAN: int := 536850912

  lemma SmallMod(x: int, m: int)
    requires 0 <= x < m
    ensures x % m == x
  {
  }

  lemma StableNumberUnwrapped(digest: int)
    requires 0 <= digest < WRAP
    ensures SPAN == LIMIT - FIRST + 1
    ensures StableNumber(digest) == FIRST + digest % SPAN && FIRST <= FIRST + digest % SPAN <= LIMIT
  {
    SmallMod(LIMIT - FIRST, WRAP);
    SmallMod(SPAN, WRAP);
    SmallMod(digest % SPAN, WRAP);
    SmallMod(FIRST + digest % SPAN, WRAP);
  }

  /** No step wraps, and exactly the numbers from 20000 to the limit are produced. */
  lemma StableNumberRange(digest: int, n: int)
    requires 0 <= digest < WRAP
    ensures StableNumber(digest) == 20000 + digest % 536850912
    ensures 20000 <= StableNumber(digest) <= 536870911
    ensures 20000 <= n <= 536870911 ==> 0 <= n - 20000 < WRAP && StableNumber(n - 20000) == n
  {
    StableNumberUnwrapped(digest);
    if FIRST <= n <= LIMIT {
      StableNumberUnwrapped(n - FIRST);
      SmallMod(n - FIRST, SPAN);
    }
  }

  /** A contribution numbered by its digest, with a range of that one number. */
  function Derived(s: Setting, digest: int): Setting {
    var n := StableNumber(digest);
    s.(number := n, range := Range(n, n))
  }

  /** Settings numbered by digest are refused only for their names or a digest collision. */
  lemma DerivedAccepted(ss: seq<Setting>, digests: seq<int>, claimed: set<string>, reserved: seq<string>)
    requires |ss| == |digests|
    requires forall i :: 0 <= i < |ss| ==> 0 <= digests[i] < WRAP
    requires forall i :: 0 <= i < |ss| ==> ss[i] == Derived(ss[i], digests[i])
    ensures Accepted(ss, claimed, reserved) <==>
              && (forall i :: 0 <= i < |ss| ==> WellFormed(ss[i], reserved) && ss[i].fieldName !in claimed)
              && (forall i, j :: 0 <= i < j < |ss| ==>
                    ss[i].namespace != ss[j].namespace && ss[i].fieldName != ss[j].fieldName
                      && ss[i].number != ss[j].number)
  {
    forall i | 0 <= i < |ss| ensures FieldOk(ss[i]) && ss[i].range == Range(ss[i].number, ss[i].number) {
      StableNumberRange(digests[i], FIRST);
    }
    forall i, j | 0 <= i < j < |ss|
      ensures Apart(ss[i], ss[j]) <==>
                ss[i].namespace != ss[j].namespace && ss[i].fieldName != ss[j].fieldName && ss[i].number != ss[j].number
    {
    }
  }
}
