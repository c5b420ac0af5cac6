/** The event catalog a compose merges from every module's events contribution
    (composition_events.go): the documents, and what makes a set of them acceptable. */
module EventCatalog {
  import opened Text
  import opened Wrappers
  import opened Ordering

  // ----- documents -----

  datatype Published = Published(typ: string, schema: string, visibility: string, partition: string, retention: string)
  datatype Consumed = Consumed(typ: string, queue: string, delivery: string)
  datatype Followable = Followable(resourceType: string, events: seq<string>)

  datatype Contribution = Contribution(
    schema: string, namespace: string, queues: seq<string>,
    publishes: seq<Published>, consumes: seq<Consumed>, follows: seq<Followable>, baseOwned: bool)

  datatype Field = Field(name: string, number: int, typ: string)

  datatype CatalogPublish = CatalogPublish(
    typ: string, namespace: string, schema: string, major: int, visibility: string,
    partition: string, retention: string, fields: seq<Field>)
  datatype CatalogConsume = CatalogConsume(typ: string, subscriber: string, queue: string, delivery: string)
  datatype CatalogFollow = CatalogFollow(resourceType: string, namespace: string, events: seq<string>)

  datatype Catalog = Catalog(
    publishes: seq<CatalogPublish>, consumes: seq<CatalogConsume>, follows: seq<CatalogFollow>)

  /** What a compose reads besides the contributions: the manifest's reserved namespaces
      and the proto tree, which answers the fields of a `<path>#<Message>` reference. */
  datatype Sources = Sources(reserved: seq<string>, protos: string -> Option<seq<Field>>)

  const CONTRIBUTION_SCHEMA := "codefly/saas/events-contribution/v1"

  // ----- name grammars -----

  predicate LowerAlnum(c: char) { 'a' <= c <= 'z' || '0' <= c <= '9' }

  predicate IdSeparator(c: char) { c == '.' || c == '_' || c == '-' }

  /** logicalIDPattern and eventQueuePattern: `^[a-z][a-z0-9]*(?:[._-][a-z0-9]+)*$`. */
  predicate IsLogicalId(s: string) {
    && s != "" && 'a' <= s[0] <= 'z'
    && (forall i :: 0 <= i < |s| ==> LowerAlnum(s[i]) || IdSeparator(s[i]))
    && (forall i :: 0 <= i < |s| && IdSeparator(s[i]) ==> i + 1 < |s| && LowerAlnum(s[i+1]))
  }

  predicate EventChar(c: char) { LowerAlnum(c) || c == '_' || c == '.' }

  /** eventTypePattern: `^[a-z][a-z0-9_]*(?:\.[a-z0-9_]+)+$`. */
  predicate IsEventType(s: string) {
    && s != "" && 'a' <= s[0] <= 'z' && '.' in s
    && (forall i :: 0 <= i < |s| ==> EventChar(s[i]))
    && (forall i :: 0 <= i < |s| && s[i] == '.' ==> i + 1 < |s| && s[i+1] != '.')
  }

  predicate IsVisibility(s: string) { s == "internal" || s == "tenant" || s == "external" }

  predicate IsDelivery(s: string) { s == "ordered" || s == "unordered" }

  /** isReserved of composition.go. */
  predicate IsReserved(reserved: seq<string>, value: string) {
    exists i :: 0 <= i < |reserved| && ReservedBy(reserved[i], value)
  }

  predicate ReservedBy(ns: string, value: string) {
    value == ns || ns + "/" <= value || ns + "." <= value || ns + ":" <= value
    || (ns <= value && ns != "" && ns[|ns|-1] == '-')
  }

  /** Text between two braces with no brace in between: what a placeholder names. */
  predicate IsPlaceholder(template: string, i: int, j: int) {
    0 <= i < j < |template| && template[i] == '{' && template[j] == '}'
    && forall k :: i < k < j ==> template[k] != '{' && template[k] != '}'
  }

  predicate PartitionOk(template: string) {
    template == ""
    || (&& (forall i, j :: 0 <= i < j < |template| && IsPlaceholder(template, i, j) ==>
              template[i+1..j] == "tenant_id" || template[i+1..j] == "boundary_id")
        && exists i :: 0 <= i <= |template| && "{tenant_id}" <= template[i..])
  }

  // ----- majorFromSchema -----

  const MAX_INT: int := 0x7FFF_FFFF_FFFF_FFFF

  function Digits(s: string): nat {
    if s == "" then 0
    else Digits(s[..|s|-1]) * 10 + (if '0' <= s[|s|-1] <= '9' then s[|s|-1] as int - '0' as int else 0)
  }

  /** `^v([0-9]+)$` with a number strconv.Atoi accepts. */
  predicate IsVersionDir(segment: string) {
    |segment| >= 2 && segment[0] == 'v'
    && (forall i :: 1 <= i < |segment| ==> '0' <= segment[i] <= '9')
    && Digits(segment[1..]) <= MAX_INT
  }

  /** The last version directory on the path decides; 1 without any. */
  function LastVersion(segments: seq<string>): int {
    if segments == [] then 1
    else
      var last := segments[|segments|-1];
      if IsVersionDir(last) then Digits(last[1..]) else LastVersion(segments[..|segments|-1])
  }

  function Major(schema: string): int { LastVersion(Split(Cut(schema, '#').0, '/')) }

  method MajorFromSchema(schema: string) returns (major: int)
    ensures major == Major(schema)
  {
    var segments := Split(Cut(schema, '#').0, '/');
    major := 1;
    for i := 0 to |segments|
      invariant major == LastVersion(segments[..i])
    {
      assert segments[..i+1][..i] == segments[..i];
      if IsVersionDir(segments[i]) {
        major := Digits(segments[i][1..]);
      }
    }
    assert segments[..|segments|] == segments;
  }

  // ----- checkBreakingChange -----

  function PriorByType(prior: seq<CatalogPublish>): map<string, CatalogPublish> {
    if prior == [] then map[]
    else PriorByType(prior[..|prior|-1])[prior[|prior|-1].typ := prior[|prior|-1]]
  }

  function ByNumber(fields: seq<Field>): map<int, Field> {
    if fields == [] then map[]
    else ByNumber(fields[..|fields|-1])[fields[|fields|-1].number := fields[|fields|-1]]
  }

  predicate KeepsField(was: Field, now: seq<Field>) {
    was.number in ByNumber(now) && ByNumber(now)[was.number].typ == was.typ
  }

  predicate NotBreaking(typ: string, major: int, fields: seq<Field>, prior: map<string, CatalogPublish>) {
    typ in prior && prior[typ].major == major ==>
      forall i :: 0 <= i < |prior[typ].fields| ==> KeepsField(prior[typ].fields[i], fields)
  }

  method CheckBreakingChange(typ: string, major: int, fields: seq<Field>, prior: map<string, CatalogPublish>)
    returns (ok: bool)
    ensures ok <==> NotBreaking(typ, major, fields, prior)
  {
    if typ !in prior || prior[typ].major != major {
      return true;
    }
    var current: map<int, Field> := map[];
    for i := 0 to |fields|
      invariant current == ByNumber(fields[..i])
    {
      assert fields[..i+1][..i] == fields[..i];
      current := current[fields[i].number := fields[i]];
    }
    assert fields[..|fields|] == fields;
    var previous := prior[typ].fields;
    for i := 0 to |previous|
      invariant forall j :: 0 <= j < i ==> KeepsField(previous[j], fields)
    {
      var was := previous[i];
      if was.number !in current || current[was.number].typ != was.typ {
        assert !KeepsField(previous[i], fields);
        return false;
      }
    }
    return true;
  }

  // ----- what one contribution must satisfy on its own -----

  predicate PublishOk(ns: string, p: Published, src: Sources, prior: map<string, CatalogPublish>) {
    && IsEventType(p.typ)
    && ns + "." <= p.typ
    && IsVisibility(p.visibility)
    && PartitionOk(p.partition)
    && src.protos(p.schema).Some?
    && NotBreaking(p.typ, Major(p.schema), src.protos(p.schema).value, prior)
  }

  predicate TenantEvent(publishes: seq<Published>, e: string) {
    exists i :: 0 <= i < |publishes| && publishes[i].typ == e && publishes[i].visibility == "tenant"
  }

  predicate FollowOk(ns: string, publishes: seq<Published>, f: Followable) {
    && IsLogicalId(f.resourceType)
    && ns + "." <= f.resourceType
    && f.events != []
    && TenantEvents(publishes, f.events)
  }

  predicate ConsumeOk(c: Contribution, src: Sources, d: Consumed) {
    && IsDelivery(d.delivery)
    && (c.baseOwned || !IsReserved(src.reserved, Cut(d.typ, '.').0))
    && d.queue in c.queues
  }

  predicate HeaderOk(c: Contribution, src: Sources) {
    && c.schema == CONTRIBUTION_SCHEMA
    && IsLogicalId(c.namespace)
    && (c.baseOwned || !IsReserved(src.reserved, c.namespace))
    && (forall i :: 0 <= i < |c.queues| ==> IsLogicalId(c.queues[i]))
    && (c.follows != [] ==> !IsReserved(src.reserved, c.namespace))
  }

  predicate ContributionOk(c: Contribution, src: Sources, prior: map<string, CatalogPublish>) {
    HeaderOk(c, src) && EntriesOk(c, src, prior)
  }

  predicate EntriesOk(c: Contribution, src: Sources, prior: map<string, CatalogPublish>) {
    && PublishesOk(c.namespace, c.publishes, src, prior)
    && FollowsOk(c.namespace, c.publishes, c.follows)
    && ConsumesOk(c, src, c.consumes)
  }

  predicate PublishesOk(ns: string, ps: seq<Published>, src: Sources, prior: map<string, CatalogPublish>) {
    ps == [] || (PublishOk(ns, ps[0], src, prior) && PublishesOk(ns, ps[1..], src, prior))
  }

  predicate FollowsOk(ns: string, publishes: seq<Published>, fs: seq<Followable>) {
    fs == [] || (FollowOk(ns, publishes, fs[0]) && FollowsOk(ns, publishes, fs[1..]))
  }

  predicate ConsumesOk(c: Contribution, src: Sources, ds: seq<Consumed>) {
    ds == [] || (ConsumeOk(c, src, ds[0]) && ConsumesOk(c, src, ds[1..]))
  }

  predicate TenantEvents(publishes: seq<Published>, events: seq<string>) {
    events == [] || (TenantEvent(publishes, events[0]) && TenantEvents(publishes, events[1..]))
  }

  predicate ContributionsOk(cs: seq<Contribution>, src: Sources, prior: map<string, CatalogPublish>) {
    cs == [] || (ContributionOk(cs[0], src, prior) && ContributionsOk(cs[1..], src, prior))
  }

  // ----- what the contributions state together -----

  /** The names that may be claimed once across the whole compose. */
  datatype Key =
    | Namespace(ns: string)
    | EventType(typ: string)
    | Resource(resourceType: string)
    | FollowedEvent(event: string)
    | Subscription(ns: string, typ: string, queue: string)

  datatype Entry = Pub(p: CatalogPublish) | Con(d: CatalogConsume) | Fol(f: CatalogFollow)

  /** Everything a set of contributions states, with multiplicity and without order. */
  datatype Facts = Facts(keys: multiset<Key>, entries: multiset<Entry>) {
    ghost function Plus(that: Facts): Facts {
      Facts(keys + that.keys, entries + that.entries)
    }
  }

  const NO_FACTS: Facts := Facts(multiset{}, multiset{})

  ghost function Sum<T>(s: seq<T>, f: T -> Facts): Facts {
    if s == [] then NO_FACTS else f(s[0]).Plus(Sum(s[1..], f))
  }

  function PublishEntry(ns: string, p: Published, src: Sources): CatalogPublish {
    CatalogPublish(p.typ, ns, p.schema, Major(p.schema), p.visibility, p.partition, p.retention,
      match src.protos(p.schema) case Some(fields) => fields case None => [])
  }

  function FollowEntry(ns: string, f: Followable): CatalogFollow {
    CatalogFollow(f.resourceType, ns, SortStrings(f.events))
  }

  function ConsumeEntry(ns: string, d: Consumed): CatalogConsume {
    CatalogConsume(d.typ, ns, d.queue, d.delivery)
  }

  function PublishFacts(ns: string, src: Sources): Published -> Facts {
    (p: Published) =>
      Facts(multiset{EventType(p.typ)}, multiset{Pub(PublishEntry(ns, p, src))})
  }

  function EventFacts(): string -> Facts {
    (e: string) => Facts(multiset{FollowedEvent(e)}, multiset{})
  }

  ghost function FollowFacts(ns: string): Followable -> Facts {
    (f: Followable) =>
      Facts(multiset{Resource(f.resourceType)}, multiset{Fol(FollowEntry(ns, f))})
        .Plus(Sum(f.events, EventFacts()))
  }

  function ConsumeFacts(ns: string): Consumed -> Facts {
    (d: Consumed) =>
      Facts(multiset{Subscription(ns, d.typ, d.queue)}, multiset{Con(ConsumeEntry(ns, d))})
  }

  ghost function ContributionFacts(src: Sources): Contribution -> Facts {
    (c: Contribution) =>
      Facts(multiset{Namespace(c.namespace)}, multiset{})
        .Plus(Sum(c.publishes, PublishFacts(c.namespace, src)))
        .Plus(Sum(c.follows, FollowFacts(c.namespace)))
        .Plus(Sum(c.consumes, ConsumeFacts(c.namespace)))
  }

  ghost function AllFacts(cs: seq<Contribution>, src: Sources): Facts {
    Sum(cs, ContributionFacts(src))
  }

  // ----- acceptance and the merged catalog -----

  ghost predicate ClaimedOnce(f: Facts) { forall k :: f.keys[k] <= 1 }

  ghost predicate Registered(f: Facts) {
    forall d :: Con(d) in f.entries ==> EventType(d.typ) in f.keys
  }

  predicate Continues(was: CatalogFollow, now: CatalogFollow) {
    now.resourceType == was.resourceType
    && forall i :: 0 <= i < |was.events| ==> was.events[i] in now.events
  }

  /** The events the current declarations give each resource type; a later one wins. */
  function Declared(now: seq<CatalogFollow>): map<string, seq<string>> {
    if now == [] then map[]
    else Declared(now[..|now|-1])[now[|now|-1].resourceType := now[|now|-1].events]
  }

  predicate StillDeclared(was: CatalogFollow, declared: map<string, seq<string>>) {
    was.resourceType in declared
    && forall i :: 0 <= i < |was.events| ==> was.events[i] in declared[was.resourceType]
  }

  ghost predicate Continued(now: Facts, was: CatalogFollow) {
    exists f :: Fol(f) in now.entries && Continues(was, f)
  }

  ghost predicate NoRetraction(now: Facts, prior: seq<CatalogFollow>) {
    forall i :: 0 <= i < |prior| ==> Continued(now, prior[i])
  }

  /** A compose of these contributions over this prior catalog succeeds. */
  ghost predicate Accepts(cs: seq<Contribution>, src: Sources, prior: Catalog) {
    && ContributionsOk(cs, src, PriorByType(prior.publishes))
    && ClaimedOnce(AllFacts(cs, src))
    && Registered(AllFacts(cs, src))
    && NoRetraction(AllFacts(cs, src), prior.follows)
  }

  predicate PublishLess(a: CatalogPublish, b: CatalogPublish) { Less(a.typ, b.typ) }

  predicate FollowLess(a: CatalogFollow, b: CatalogFollow) { Less(a.resourceType, b.resourceType) }

  predicate ConsumeLess(a: CatalogConsume, b: CatalogConsume) {
    if a.typ != b.typ then Less(a.typ, b.typ)
    else if a.subscriber != b.subscriber then Less(a.subscriber, b.subscriber)
    else if a.queue != b.queue then Less(a.queue, b.queue)
    else Less(a.delivery, b.delivery)
  }

  /** `k` lists exactly the stated entries. */
  ghost predicate Lists(k: Catalog, f: Facts) {
    && (forall p :: multiset(k.publishes)[p] == f.entries[Pub(p)])
    && (forall d :: multiset(k.consumes)[d] == f.entries[Con(d)])
    && (forall g :: multiset(k.follows)[g] == f.entries[Fol(g)])
  }

  /** ... in some order the comparators allow. */
  ghost predicate CatalogOf(k: Catalog, f: Facts) {
    && Lists(k, f)
    && Sorted(k.publishes, PublishLess) && Sorted(k.consumes, ConsumeLess) && Sorted(k.follows, FollowLess)
  }

  // ----- laws of Sum -----

  lemma PlusLaws(a: Facts, b: Facts, c: Facts)
    ensures a.Plus(NO_FACTS) == a && NO_FACTS.Plus(a) == a
    ensures a.Plus(b) == b.Plus(a)
    ensures a.Plus(b).Plus(c) == a.Plus(b.Plus(c))
  {
  }

  lemma {:induction false} SumConcat<T>(s: seq<T>, t: seq<T>, f: T -> Facts)
    ensures Sum(s + t, f) == Sum(s, f).Plus(Sum(t, f))
  {
    if s == [] {
      assert s + t == t;
      PlusLaws(Sum(t, f), NO_FACTS, NO_FACTS);
    } else {
      assert (s + t)[1..] == s[1..] + t;
      SumConcat(s[1..], t, f);
      PlusLaws(f(s[0]), Sum(s[1..], f), Sum(t, f));
    }
  }

  lemma SumOne<T>(x: T, f: T -> Facts)
    ensures Sum([x], f) == f(x)
  {
    PlusLaws(f(x), NO_FACTS, NO_FACTS);
    assert [x][1..] == [];
  }

  lemma SumNext<T>(s: seq<T>, i: nat, f: T -> Facts)
    requires i < |s|
    ensures Sum(s[..i+1], f) == Sum(s[..i], f).Plus(f(s[i]))
    ensures Sum(s, f) == Sum(s[..i+1], f).Plus(Sum(s[i+1..], f))
  {
    assert Sum(s[..i+1], f) == Sum(s[..i], f).Plus(f(s[i])) by {
      assert s[..i+1] == s[..i] + [s[i]];
      SumConcat(s[..i], [s[i]], f);
      SumOne(s[i], f);
    }
    assert Sum(s, f) == Sum(s[..i+1], f).Plus(Sum(s[i+1..], f)) by {
      assert s == s[..i+1] + s[i+1..];
      SumConcat(s[..i+1], s[i+1..], f);
    }
  }

  lemma {:induction false} SumHolds<T>(s: seq<T>, i: nat, f: T -> Facts)
    requires i < |s|
    ensures exists rest: Facts :: Sum(s, f) == f(s[i]).Plus(rest)
  {
    SumNext(s, i, f);
    PlusLaws(Sum(s[..i], f), f(s[i]), Sum(s[i+1..], f));
    PlusLaws(f(s[i]), Sum(s[..i], f), Sum(s[i+1..], f));
    assert Sum(s, f) == f(s[i]).Plus(Sum(s[..i], f).Plus(Sum(s[i+1..], f)));
  }

  lemma ClaimedOncePart(a: Facts, b: Facts)
    requires ClaimedOnce(a.Plus(b))
    ensures ClaimedOnce(a) && ClaimedOnce(b)
  {
    forall k ensures a.keys[k] <= 1 && b.keys[k] <= 1 {
      assert a.Plus(b).keys[k] == a.keys[k] + b.keys[k];
    }
  }
}
