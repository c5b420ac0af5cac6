/** What a whole history of composes keeps. The catalog on disk is the only state: each
    successful compose replaces it, every other one leaves it alone. */
module CatalogRuns {
  import opened Ordering
  import opened EventCatalog
  import opened EventBuild
  import opened CatalogOrder

  const NO_CATALOG: Catalog := Catalog([], [], [])

  ghost predicate Composed(prior: Catalog, next: Catalog) {
    exists cs: seq<Contribution>, src: Sources :: Accepts(cs, src, prior) && CatalogOf(next, AllFacts(cs, src))
  }

  ghost predicate Step(prior: Catalog, next: Catalog) {
    next == prior || Composed(prior, next)
  }

  /** The catalogs a project has had, starting from none. */
  ghost predicate Run(run: seq<Catalog>) {
    && run != [] && run[0] == NO_CATALOG
    && forall i :: 0 <= i < |run| - 1 ==> StepAt(run, i)
  }

  ghost predicate StepAt(run: seq<Catalog>, i: int)
    requires 0 <= i < |run| - 1
  {
    Step(run[i], run[i+1])
  }

  // ----- where an entry comes from -----

  lemma {:induction false} EntryOrigin<T>(s: seq<T>, f: T -> Facts, e: Entry) returns (x: T)
    requires e in Sum(s, f).entries
    ensures x in s && e in f(x).entries
  {
    if e in f(s[0]).entries {
      x := s[0];
    } else {
      x := EntryOrigin(s[1..], f, e);
    }
  }

  lemma EntryStays<T>(s: seq<T>, f: T -> Facts, x: T, e: Entry)
    requires x in s && e in f(x).entries
    ensures e in Sum(s, f).entries
  {
    var i :| 0 <= i < |s| && s[i] == x;
    SumHolds(s, i, f);
  }

  lemma FollowOrigin(cs: seq<Contribution>, src: Sources, g: CatalogFollow) returns (c: Contribution, fol: Followable)
    requires Fol(g) in AllFacts(cs, src).entries
    ensures c in cs && fol in c.follows && g == FollowEntry(c.namespace, fol)
  {
    c := EntryOrigin(cs, ContributionFacts(src), Fol(g));
    var pubs, fols, cons := Sum(c.publishes, PublishFacts(c.namespace, src)),
      Sum(c.follows, FollowFacts(c.namespace)), Sum(c.consumes, ConsumeFacts(c.namespace));
    if Fol(g) in pubs.entries {
      var p := EntryOrigin(c.publishes, PublishFacts(c.namespace, src), Fol(g));
    }
    if Fol(g) in cons.entries {
      var d := EntryOrigin(c.consumes, ConsumeFacts(c.namespace), Fol(g));
    }
    assert Fol(g) in fols.entries;
    fol := EntryOrigin(c.follows, FollowFacts(c.namespace), Fol(g));
    EventsClaimed(fol.events);
  }

  lemma PublishOrigin(cs: seq<Contribution>, src: Sources, q: CatalogPublish) returns (c: Contribution, p: Published)
    requires Pub(q) in AllFacts(cs, src).entries
    ensures c in cs && p in c.publishes && q == PublishEntry(c.namespace, p, src)
  {
    c := EntryOrigin(cs, ContributionFacts(src), Pub(q));
    var pubs, fols, cons := Sum(c.publishes, PublishFacts(c.namespace, src)),
      Sum(c.follows, FollowFacts(c.namespace)), Sum(c.consumes, ConsumeFacts(c.namespace));
    if Pub(q) in fols.entries {
      var g := EntryOrigin(c.follows, FollowFacts(c.namespace), Pub(q));
      EventsClaimed(g.events);
    }
    if Pub(q) in cons.entries {
      var d := EntryOrigin(c.consumes, ConsumeFacts(c.namespace), Pub(q));
    }
    assert Pub(q) in pubs.entries;
    p := EntryOrigin(c.publishes, PublishFacts(c.namespace, src), Pub(q));
  }

  lemma PublishStays(cs: seq<Contribution>, src: Sources, c: Contribution, p: Published)
    requires c in cs && p in c.publishes
    ensures Pub(PublishEntry(c.namespace, p, src)) in AllFacts(cs, src).entries
  {
    var e := Pub(PublishEntry(c.namespace, p, src));
    EntryStays(c.publishes, PublishFacts(c.namespace, src), p, e);
    EntryStays(cs, ContributionFacts(src), c, e);
  }

  // ----- every composed catalog is coherent -----

  ghost predicate OneTypeEach(k: Catalog) {
    forall i, j :: 0 <= i < j < |k.publishes| ==> k.publishes[i].typ != k.publishes[j].typ
  }

  ghost predicate OneTargetEach(k: Catalog) {
    forall i, j, e ::
      (0 <= i < |k.follows| && 0 <= j < |k.follows| && e in k.follows[i].events && e in k.follows[j].events)
      ==> i == j
  }

  predicate PublishedToTenants(k: Catalog, e: string) {
    exists i :: 0 <= i < |k.publishes| && k.publishes[i].typ == e && k.publishes[i].visibility == "tenant"
  }

  ghost predicate FollowsTenantEvents(k: Catalog) {
    forall i, e :: 0 <= i < |k.follows| && e in k.follows[i].events ==> PublishedToTenants(k, e)
  }

  ghost predicate Coherent(k: Catalog) {
    OneTypeEach(k) && OneTargetEach(k) && FollowsTenantEvents(k)
  }

  lemma ListsOneTypeEach(k: Catalog, f: Facts)
    requires Lists(k, f) && ClaimedOnce(f) && Covered(f)
    ensures OneTypeEach(k)
  {
    var s := k.publishes;
    forall i, j | 0 <= i < j < |s| ensures s[i].typ != s[j].typ {
      TwoPlaces(s, i, j);
      assert multiset(s)[s[i]] == f.entries[Pub(s[i])] && multiset(s)[s[j]] == f.entries[Pub(s[j])];
      if s[i].typ == s[j].typ { EntryAlone(f, Pub(s[i]), Pub(s[j]), EventType(s[i].typ)); }
    }
  }

  lemma ListsOneTargetEach(k: Catalog, f: Facts)
    requires Lists(k, f) && ClaimedOnce(f) && Covered(f)
    ensures OneTargetEach(k)
  {
    var s := k.follows;
    forall i, j, e | 0 <= i < |s| && 0 <= j < |s| && e in s[i].events && e in s[j].events ensures i == j {
      assert s[i] in multiset(s) && s[j] in multiset(s);
      EntryAlone(f, Fol(s[i]), Fol(s[j]), FollowedEvent(e));
      if i < j { TwoPlaces(s, i, j); }
      if j < i { TwoPlaces(s, j, i); }
    }
  }

  lemma FollowRule(c: Contribution, fol: Followable, e: string) returns (p: Published)
    requires FollowsOk(c.namespace, c.publishes, c.follows) && fol in c.follows
    requires e in FollowEntry(c.namespace, fol).events
    ensures p in c.publishes && p.typ == e && p.visibility == "tenant"
  {
    FollowsOkEach(c.namespace, c.publishes, c.follows);
    TenantEventsEach(c.publishes, fol.events);
    SortStringsSorts(fol.events);
    assert e in multiset(fol.events);
    assert TenantEvent(c.publishes, e);
    var i :| 0 <= i < |c.publishes| && c.publishes[i].typ == e && c.publishes[i].visibility == "tenant";
    p := c.publishes[i];
  }

  lemma {:induction false} RulesOf(cs: seq<Contribution>, src: Sources, prior: map<string, CatalogPublish>,
                                   c: Contribution)
    requires ContributionsOk(cs, src, prior) && c in cs
    ensures FollowsOk(c.namespace, c.publishes, c.follows) && PublishesOk(c.namespace, c.publishes, src, prior)
  {
    if c != cs[0] { RulesOf(cs[1..], src, prior, c); }
  }

  lemma FollowedIsTenant(cs: seq<Contribution>, src: Sources, prior: map<string, CatalogPublish>, g: CatalogFollow,
                         e: string)
    returns (q: CatalogPublish)
    requires ContributionsOk(cs, src, prior) && Fol(g) in AllFacts(cs, src).entries && e in g.events
    ensures Pub(q) in AllFacts(cs, src).entries && q.typ == e && q.visibility == "tenant"
  {
    var c, fol := FollowOrigin(cs, src, g);
    RulesOf(cs, src, prior, c);
    var p := FollowRule(c, fol, e);
    PublishStays(cs, src, c, p);
    q := PublishEntry(c.namespace, p, src);
  }

  lemma ListedPublish(k: Catalog, f: Facts, q: CatalogPublish) returns (i: nat)
    requires Lists(k, f) && Pub(q) in f.entries
    ensures i < |k.publishes| && k.publishes[i] == q
  {
    assert q in multiset(k.publishes);
    i :| 0 <= i < |k.publishes| && k.publishes[i] == q;
  }

  lemma ComposedCoherent(prior: Catalog, next: Catalog)
    requires Composed(prior, next)
    ensures Coherent(next)
  {
    var cs: seq<Contribution>, src: Sources :| Accepts(cs, src, prior) && CatalogOf(next, AllFacts(cs, src));
    var f := AllFacts(cs, src);
    AllCovered(cs, src);
    ListsOneTypeEach(next, f);
    ListsOneTargetEach(next, f);
    forall i, e | 0 <= i < |next.follows| && e in next.follows[i].events ensures PublishedToTenants(next, e) {
      assert next.follows[i] in multiset(next.follows);
      var q := FollowedIsTenant(cs, src, PriorByType(prior.publishes), next.follows[i], e);
      var j := ListedPublish(next, f, q);
      assert next.publishes[j].typ == e;
    }
  }

  lemma {:induction false} RunCoherent(run: seq<Catalog>, i: nat)
    requires Run(run) && i < |run|
    ensures Coherent(run[i])
  {
    if i > 0 {
      RunCoherent(run, i - 1);
      assert StepAt(run, i - 1);
      if run[i] != run[i-1] { ComposedCoherent(run[i-1], run[i]); }
    }
  }

  // ----- followableIndex -----

  function EventsTo(events: seq<string>, resourceType: string): map<string, string> {
    map e | e in events :: resourceType
  }

  function FollowIndex(follows: seq<CatalogFollow>): map<string, string> {
    if follows == [] then map[]
    else
      var last := follows[|follows|-1];
      FollowIndex(follows[..|follows|-1]) + EventsTo(last.events, last.resourceType)
  }

  method FollowableIndex(k: Catalog) returns (index: map<string, string>)
    ensures index == FollowIndex(k.follows)
  {
    index := map[];
    for i := 0 to |k.follows|
      invariant index == FollowIndex(k.follows[..i])
    {
      index := IndexFollow(index, k.follows[i].events, k.follows[i].resourceType);
      assert k.follows[..i+1][..i] == k.follows[..i];
    }
    assert k.follows[..|k.follows|] == k.follows;
  }

  method IndexFollow(before: map<string, string>, events: seq<string>, resourceType: string)
    returns (index: map<string, string>)
    ensures index == before + EventsTo(events, resourceType)
  {
    index := before;
    for j := 0 to |events|
      invariant index == before + EventsTo(events[..j], resourceType)
    {
      assert events[..j+1] == events[..j] + [events[j]];
      index := index[events[j] := resourceType];
    }
    assert events[..|events|] == events;
  }

  lemma {:induction false} IndexSource(follows: seq<CatalogFollow>, e: string) returns (i: nat)
    requires e in FollowIndex(follows)
    ensures i < |follows| && e in follows[i].events && FollowIndex(follows)[e] == follows[i].resourceType
  {
    var n := |follows| - 1;
    if e in follows[n].events {
      i := n;
    } else {
      i := IndexSource(follows[..n], e);
    }
  }

  lemma {:induction false} IndexHas(follows: seq<CatalogFollow>, i: nat, e: string)
    requires i < |follows| && e in follows[i].events
    ensures e in FollowIndex(follows)
  {
    var n := |follows| - 1;
    if i < n { IndexHas(follows[..n], i, e); }
  }

  /** The index is a function: one resource type per followed event. */
  lemma IndexIsExact(k: Catalog, i: nat, e: string)
    requires OneTargetEach(k) && i < |k.follows| && e in k.follows[i].events
    ensures e in FollowIndex(k.follows) && FollowIndex(k.follows)[e] == k.follows[i].resourceType
  {
    IndexHas(k.follows, i, e);
    var j := IndexSource(k.follows, e);
    assert i == j;
  }

  // ----- main result: followable once, followable forever -----

  lemma ContinuedBy(f: Facts, prior: seq<CatalogFollow>, next: Catalog, i: nat) returns (j: nat)
    requires NoRetraction(f, prior) && Lists(next, f) && i < |prior|
    ensures j < |next.follows| && Continues(prior[i], next.follows[j])
  {
    var was := prior[i];
    assert Continued(f, prior[i]);
    var g :| Fol(g) in f.entries && Continues(was, g);
    assert g in multiset(next.follows);
    j :| 0 <= j < |next.follows| && next.follows[j] == g;
  }

  lemma ComposedContinues(prior: Catalog, next: Catalog, i: nat) returns (j: nat)
    requires Composed(prior, next) && i < |prior.follows|
    ensures j < |next.follows| && Continues(prior.follows[i], next.follows[j])
  {
    var cs: seq<Contribution>, src: Sources :| Accepts(cs, src, prior) && CatalogOf(next, AllFacts(cs, src));
    j := ContinuedBy(AllFacts(cs, src), prior.follows, next, i);
  }

  lemma StepKeepsTarget(prior: Catalog, next: Catalog, e: string)
    requires Step(prior, next) && Coherent(prior) && Coherent(next) && e in FollowIndex(prior.follows)
    ensures e in FollowIndex(next.follows) && FollowIndex(next.follows)[e] == FollowIndex(prior.follows)[e]
  {
    if next != prior {
      var i := IndexSource(prior.follows, e);
      var j := ComposedContinues(prior, next, i);
      IndexIsExact(next, j, e);
    }
  }

  /** What one step hands on, in terms of the index alone. */
  ghost predicate KeepsIndex(prior: Catalog, next: Catalog) {
    forall e :: e in FollowIndex(prior.follows) ==>
      e in FollowIndex(next.follows) && FollowIndex(next.follows)[e] == FollowIndex(prior.follows)[e]
  }

  lemma RunKeepsIndex(run: seq<Catalog>, i: nat)
    requires Run(run) && i < |run| - 1
    ensures KeepsIndex(run[i], run[i+1])
  {
    RunCoherent(run, i);
    RunCoherent(run, i + 1);
    assert StepAt(run, i);
    forall e | e in FollowIndex(run[i].follows)
      ensures e in FollowIndex(run[i+1].follows) && FollowIndex(run[i+1].follows)[e] == FollowIndex(run[i].follows)[e]
    {
      StepKeepsTarget(run[i], run[i+1], e);
    }
  }

  lemma CoherentTarget(k: Catalog, e: string)
    requires Coherent(k) && e in FollowIndex(k.follows)
    ensures PublishedToTenants(k, e)
  {
    var m := IndexSource(k.follows, e);
  }

  /** Once an event is followable under a resource type it stays so: the index never
      changes its target and the event stays published to tenants. */
  lemma {:induction false} FollowableForever(run: seq<Catalog>, i: nat, j: nat, e: string)
    requires Run(run) && i <= j < |run| && e in FollowIndex(run[i].follows)
    ensures e in FollowIndex(run[j].follows) && FollowIndex(run[j].follows)[e] == FollowIndex(run[i].follows)[e]
    ensures PublishedToTenants(run[j], e)
  {
    if i < j {
      FollowableForever(run, i, j - 1, e);
      RunKeepsIndex(run, j - 1);
    }
    RunCoherent(run, j);
    CoherentTarget(run[j], e);
  }

  // ----- main result: fields are kept within a major -----

  predicate HasPair(fields: seq<Field>, number: int, typ: string) {
    exists i :: 0 <= i < |fields| && fields[i].number == number && fields[i].typ == typ
  }

  /** The type is published at this major with this (number, type) pair among its fields. */
  predicate PublishedWith(k: Catalog, typ: string, major: int, number: int, fieldType: string) {
    exists i :: 0 <= i < |k.publishes| && k.publishes[i].typ == typ && k.publishes[i].major == major
                && HasPair(k.publishes[i].fields, number, fieldType)
  }

  predicate PublishedAt(k: Catalog, typ: string, major: int) {
    exists i :: 0 <= i < |k.publishes| && k.publishes[i].typ == typ && k.publishes[i].major == major
  }

  lemma {:induction false} ByNumberSource(fields: seq<Field>, n: int) returns (i: nat)
    requires n in ByNumber(fields)
    ensures i < |fields| && fields[i].number == n && fields[i] == ByNumber(fields)[n]
  {
    var m := |fields| - 1;
    if fields[m].number == n { i := m; } else { i := ByNumberSource(fields[..m], n); }
  }

  lemma {:induction false} PriorEntry(ps: seq<CatalogPublish>, i: nat)
    requires i < |ps| && forall a, b :: 0 <= a < b < |ps| ==> ps[a].typ != ps[b].typ
    ensures ps[i].typ in PriorByType(ps) && PriorByType(ps)[ps[i].typ] == ps[i]
  {
    var n := |ps| - 1;
    if i < n { PriorEntry(ps[..n], i); }
  }

  lemma PublishRule(ps: seq<Published>, ns: string, src: Sources, prior: map<string, CatalogPublish>, p: Published)
    requires PublishesOk(ns, ps, src, prior) && p in ps
    ensures NotBreaking(p.typ, Major(p.schema), PublishEntry(ns, p, src).fields, prior)
  {
    PublishesOkEach(ns, ps, src, prior);
  }

  lemma EntryNotBreaking(cs: seq<Contribution>, src: Sources, prior: map<string, CatalogPublish>, q: CatalogPublish)
    requires ContributionsOk(cs, src, prior) && Pub(q) in AllFacts(cs, src).entries
    ensures NotBreaking(q.typ, q.major, q.fields, prior)
  {
    var c, p := PublishOrigin(cs, src, q);
    RulesOf(cs, src, prior, c);
    PublishRule(c.publishes, c.namespace, src, prior, p);
  }

  lemma ComposedNotBreaking(prior: Catalog, next: Catalog, j: nat)
    requires Composed(prior, next) && j < |next.publishes|
    ensures var q := next.publishes[j]; NotBreaking(q.typ, q.major, q.fields, PriorByType(prior.publishes))
  {
    var cs: seq<Contribution>, src: Sources :| Accepts(cs, src, prior) && CatalogOf(next, AllFacts(cs, src));
    assert next.publishes[j] in multiset(next.publishes);
    EntryNotBreaking(cs, src, PriorByType(prior.publishes), next.publishes[j]);
  }

  lemma StepKeepsPair(prior: Catalog, next: Catalog, typ: string, major: int, number: int, fieldType: string)
    requires Composed(prior, next) && OneTypeEach(prior)
    requires PublishedWith(prior, typ, major, number, fieldType) && PublishedAt(next, typ, major)
    ensures PublishedWith(next, typ, major, number, fieldType)
  {
    var i :| 0 <= i < |prior.publishes| && prior.publishes[i].typ == typ && prior.publishes[i].major == major
             && HasPair(prior.publishes[i].fields, number, fieldType);
    var j :| 0 <= j < |next.publishes| && next.publishes[j].typ == typ && next.publishes[j].major == major;
    ComposedNotBreaking(prior, next, j);
    PriorEntry(prior.publishes, i);
    PairKept(prior.publishes[i].fields, next.publishes[j].fields, number, fieldType);
  }

  lemma PairKept(was: seq<Field>, now: seq<Field>, number: int, fieldType: string)
    requires HasPair(was, number, fieldType)
    requires forall i :: 0 <= i < |was| ==> KeepsField(was[i], now)
    ensures HasPair(now, number, fieldType)
  {
    var i :| 0 <= i < |was| && was[i].number == number && was[i].typ == fieldType;
    assert KeepsField(was[i], now);
    var j := ByNumberSource(now, number);
  }

  lemma RunKeepsPair(run: seq<Catalog>, i: nat, typ: string, major: int, number: int, fieldType: string)
    requires Run(run) && i < |run| - 1
    requires PublishedWith(run[i], typ, major, number, fieldType) && PublishedAt(run[i+1], typ, major)
    ensures PublishedWith(run[i+1], typ, major, number, fieldType)
  {
    RunCoherent(run, i);
    assert StepAt(run, i);
    if run[i+1] != run[i] { StepKeepsPair(run[i], run[i+1], typ, major, number, fieldType); }
  }

  /** While an event type stays published at one major, no (number, type) pair is lost. */
  lemma {:induction false} FieldsKept(
    run: seq<Catalog>, i: nat, j: nat, typ: string, major: int, number: int, fieldType: string)
    requires Run(run) && i <= j < |run|
    requires forall k :: i <= k <= j ==> PublishedAt(run[k], typ, major)
    requires PublishedWith(run[i], typ, major, number, fieldType)
    ensures PublishedWith(run[j], typ, major, number, fieldType)
  {
    if i < j {
      FieldsKept(run, i, j - 1, typ, major, number, fieldType);
      RunKeepsPair(run, j - 1, typ, major, number, fieldType);
    }
  }
}
