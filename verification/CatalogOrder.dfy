/** A compose does not depend on the order of its inputs: not of the contributions,
    not of the entries inside one, and not on how an unstable sort breaks ties. */
module CatalogOrder {
  import opened Ordering
  import opened EventCatalog
  import opened EventBuild

  // ----- contributions up to order -----

  datatype FollowShape = FollowShape(resourceType: string, events: multiset<string>)

  /** A contribution with the order of its lists forgotten. */
  datatype Shape = Shape(
    schema: string, namespace: string, baseOwned: bool, queues: multiset<string>,
    publishes: multiset<Published>, consumes: multiset<Consumed>, follows: multiset<FollowShape>)

  function FollowShapeOf(f: Followable): FollowShape { FollowShape(f.resourceType, multiset(f.events)) }

  function Map<A, B>(s: seq<A>, h: A -> B): (r: seq<B>)
    ensures |r| == |s| && forall i :: 0 <= i < |s| ==> r[i] == h(s[i])
  {
    seq(|s|, i requires 0 <= i < |s| => h(s[i]))
  }

  function ShapeOf(c: Contribution): Shape {
    Shape(c.schema, c.namespace, c.baseOwned, multiset(c.queues), multiset(c.publishes), multiset(c.consumes),
      multiset(Map(c.follows, FollowShapeOf)))
  }

  /** The same contributions in any order, each with its entries in any order. */
  predicate Reordered(cs: seq<Contribution>, ds: seq<Contribution>) {
    multiset(Map(cs, ShapeOf)) == multiset(Map(ds, ShapeOf))
  }

  // ----- sums over reordered lists -----

  function Drop<A>(s: seq<A>, j: nat): seq<A>
    requires j < |s|
  {
    s[..j] + s[j+1..]
  }

  lemma SumDrop<T>(t: seq<T>, j: nat, f: T -> Facts)
    requires j < |t|
    ensures Sum(t, f) == f(t[j]).Plus(Sum(Drop(t, j), f))
  {
    var a, b := Sum(t[..j], f), Sum(t[j+1..], f);
    SumNext(t, j, f);
    SumConcat(t[..j], t[j+1..], f);
    PlusLaws(a, f(t[j]), b);
    PlusLaws(f(t[j]), a, b);
  }

  lemma MapDrop<T, K>(t: seq<T>, j: nat, h: T -> K)
    requires j < |t|
    ensures multiset(Map(t, h)) == multiset(Map(Drop(t, j), h)) + multiset{h(t[j])}
  {
    var m := Map(t, h);
    assert m == m[..j] + [m[j]] + m[j+1..];
    assert Map(Drop(t, j), h) == m[..j] + m[j+1..];
  }

  /** Equal keys mean equal summands. */
  ghost predicate Decides<T, K>(s: seq<T>, t: seq<T>, f: T -> Facts, h: T -> K) {
    forall a, b :: a in s && b in t && h(a) == h(b) ==> f(a) == f(b)
  }

  lemma ReorderedTails<T, K>(s: seq<T>, t: seq<T>, j: nat, f: T -> Facts, h: T -> K)
    requires s != [] && j < |t| && h(t[j]) == h(s[0])
    requires multiset(Map(s, h)) == multiset(Map(t, h)) && Decides(s, t, f, h)
    ensures multiset(Map(s[1..], h)) == multiset(Map(Drop(t, j), h)) && Decides(s[1..], Drop(t, j), f, h)
  {
    MapDrop(s, 0, h);
    MapDrop(t, j, h);
    assert Drop(s, 0) == s[1..];
    CancelOne(multiset(Map(s[1..], h)), multiset(Map(Drop(t, j), h)), h(s[0]));
    DecidesFewer(s, t, s[1..], Drop(t, j), f, h);
  }

  lemma DecidesFewer<T, K>(s: seq<T>, t: seq<T>, s0: seq<T>, t0: seq<T>, f: T -> Facts, h: T -> K)
    requires Decides(s, t, f, h) && (forall a :: a in s0 ==> a in s) && (forall b :: b in t0 ==> b in t)
    ensures Decides(s0, t0, f, h)
  {
  }

  lemma CancelOne<K>(a: multiset<K>, b: multiset<K>, x: K)
    requires a + multiset{x} == b + multiset{x}
    ensures a == b
  {
    assert a == (a + multiset{x}) - multiset{x};
    assert b == (b + multiset{x}) - multiset{x};
  }

  /** Reordering a list, up to a key that decides the summand, keeps the sum. */
  lemma {:induction false} SumReordered<T, K>(s: seq<T>, t: seq<T>, f: T -> Facts, h: T -> K)
    requires multiset(Map(s, h)) == multiset(Map(t, h)) && Decides(s, t, f, h)
    ensures Sum(s, f) == Sum(t, f)
    decreases |s|
  {
    if s == [] {
      assert |multiset(Map(t, h))| == 0;
    } else {
      var j := Partner(s, t, h);
      ReorderedTails(s, t, j, f, h);
      SumReordered(s[1..], Drop(t, j), f, h);
      SumDrop(t, j, f);
      assert f(s[0]) == f(t[j]);
    }
  }

  lemma Partner<T, K>(s: seq<T>, t: seq<T>, h: T -> K) returns (j: nat)
    requires s != [] && multiset(Map(s, h)) == multiset(Map(t, h))
    ensures j < |t| && h(t[j]) == h(s[0])
  {
    assert Map(s, h)[0] in multiset(Map(s, h));
    assert Map(s, h)[0] in Map(t, h);
    j :| 0 <= j < |t| && Map(t, h)[j] == Map(s, h)[0];
  }

  lemma SumPermuted<T>(s: seq<T>, t: seq<T>, f: T -> Facts)
    requires multiset(s) == multiset(t)
    ensures Sum(s, f) == Sum(t, f)
  {
    var id := (x: T) => x;
    assert Map(s, id) == s && Map(t, id) == t;
    SumReordered(s, t, f, id);
  }

  lemma FollowFactsReordered(ns: string, a: Followable, b: Followable)
    requires FollowShapeOf(a) == FollowShapeOf(b)
    ensures FollowFacts(ns)(a) == FollowFacts(ns)(b)
  {
    SortStringsPermutation(a.events, b.events);
    SumPermuted(a.events, b.events, EventFacts());
  }

  lemma ContributionFactsReordered(a: Contribution, b: Contribution, src: Sources)
    requires ShapeOf(a) == ShapeOf(b)
    ensures ContributionFacts(src)(a) == ContributionFacts(src)(b)
  {
    var ns := a.namespace;
    SumPermuted(a.publishes, b.publishes, PublishFacts(ns, src));
    SumPermuted(a.consumes, b.consumes, ConsumeFacts(ns));
    forall x, y | x in a.follows && y in b.follows && FollowShapeOf(x) == FollowShapeOf(y)
      ensures FollowFacts(ns)(x) == FollowFacts(ns)(y)
    {
      FollowFactsReordered(ns, x, y);
    }
    SumReordered(a.follows, b.follows, FollowFacts(ns), FollowShapeOf);
  }

  lemma AllFactsReordered(cs: seq<Contribution>, ds: seq<Contribution>, src: Sources)
    requires Reordered(cs, ds)
    ensures AllFacts(cs, src) == AllFacts(ds, src)
  {
    forall x, y | x in cs && y in ds && ShapeOf(x) == ShapeOf(y)
      ensures ContributionFacts(src)(x) == ContributionFacts(src)(y)
    {
      ContributionFactsReordered(x, y, src);
    }
    SumReordered(cs, ds, ContributionFacts(src), ShapeOf);
  }

  // ----- local rules over reordered lists -----

  lemma {:induction false} PublishesOkEach(ns: string, ps: seq<Published>, src: Sources, prior: map<string,
                                           CatalogPublish>)
    ensures PublishesOk(ns, ps, src, prior) <==> forall p :: p in ps ==> PublishOk(ns, p, src, prior)
  {
    if ps != [] {
      PublishesOkEach(ns, ps[1..], src, prior);
      assert forall p :: p in ps <==> p == ps[0] || p in ps[1..];
    }
  }

  lemma {:induction false} FollowsOkEach(ns: string, publishes: seq<Published>, fs: seq<Followable>)
    ensures FollowsOk(ns, publishes, fs) <==> forall f :: f in fs ==> FollowOk(ns, publishes, f)
  {
    if fs != [] {
      FollowsOkEach(ns, publishes, fs[1..]);
      assert forall f :: f in fs <==> f == fs[0] || f in fs[1..];
    }
  }

  lemma {:induction false} ConsumesOkEach(c: Contribution, src: Sources, ds: seq<Consumed>)
    ensures ConsumesOk(c, src, ds) <==> forall d :: d in ds ==> ConsumeOk(c, src, d)
  {
    if ds != [] {
      ConsumesOkEach(c, src, ds[1..]);
      assert forall d :: d in ds <==> d == ds[0] || d in ds[1..];
    }
  }

  lemma {:induction false} TenantEventsEach(publishes: seq<Published>, events: seq<string>)
    ensures TenantEvents(publishes, events) <==> forall e :: e in events ==> TenantEvent(publishes, e)
  {
    if events != [] {
      TenantEventsEach(publishes, events[1..]);
      assert forall e :: e in events <==> e == events[0] || e in events[1..];
    }
  }

  lemma {:induction false} ContributionsOkEach(cs: seq<Contribution>, src: Sources, prior: map<string, CatalogPublish>)
    ensures ContributionsOk(cs, src, prior) <==> forall c :: c in cs ==> ContributionOk(c, src, prior)
  {
    if cs != [] {
      ContributionsOkEach(cs[1..], src, prior);
      assert forall c :: c in cs <==> c == cs[0] || c in cs[1..];
    }
  }

  lemma SameMembers<T>(s: seq<T>, t: seq<T>)
    requires multiset(s) == multiset(t)
    ensures forall x :: x in s <==> x in t
    ensures s == [] <==> t == []
  {
    assert forall x :: x in s <==> x in multiset(s);
    assert forall x :: x in t <==> x in multiset(t);
    assert |s| == |multiset(s)| && |t| == |multiset(t)|;
  }

  lemma TenantEventMembers(ps: seq<Published>, qs: seq<Published>, e: string)
    requires forall x :: x in ps ==> x in qs
    requires TenantEvent(ps, e)
    ensures TenantEvent(qs, e)
  {
    var i :| 0 <= i < |ps| && ps[i].typ == e && ps[i].visibility == "tenant";
    assert ps[i] in qs;
    var j :| 0 <= j < |qs| && qs[j] == ps[i];
  }

  lemma FollowOkReordered(ns: string, ps: seq<Published>, qs: seq<Published>, a: Followable, b: Followable)
    requires multiset(ps) == multiset(qs) && FollowShapeOf(a) == FollowShapeOf(b)
    requires FollowOk(ns, ps, a)
    ensures FollowOk(ns, qs, b)
  {
    SameMembers(ps, qs);
    SameMembers(a.events, b.events);
    TenantEventsEach(ps, a.events);
    TenantEventsEach(qs, b.events);
    forall e | e in b.events ensures TenantEvent(qs, e) { TenantEventMembers(ps, qs, e); }
  }

  lemma FollowsOkReordered(a: Contribution, b: Contribution)
    requires ShapeOf(a) == ShapeOf(b) && FollowsOk(a.namespace, a.publishes, a.follows)
    ensures FollowsOk(b.namespace, b.publishes, b.follows)
  {
    FollowsOkEach(a.namespace, a.publishes, a.follows);
    FollowsOkEach(b.namespace, b.publishes, b.follows);
    SameMembers(Map(a.follows, FollowShapeOf), Map(b.follows, FollowShapeOf));
    forall y | y in b.follows ensures FollowOk(b.namespace, b.publishes, y) {
      var j :| 0 <= j < |b.follows| && b.follows[j] == y;
      assert Map(b.follows, FollowShapeOf)[j] in Map(a.follows, FollowShapeOf);
      var i :| 0 <= i < |a.follows| && Map(a.follows, FollowShapeOf)[i] == FollowShapeOf(y);
      FollowOkReordered(a.namespace, a.publishes, b.publishes, a.follows[i], y);
    }
  }

  lemma HeaderOkReordered(a: Contribution, b: Contribution, src: Sources)
    requires ShapeOf(a) == ShapeOf(b) && HeaderOk(a, src)
    ensures HeaderOk(b, src)
  {
    SameMembers(a.queues, b.queues);
    SameMembers(Map(a.follows, FollowShapeOf), Map(b.follows, FollowShapeOf));
    forall i | 0 <= i < |b.queues| ensures IsLogicalId(b.queues[i]) {
      assert b.queues[i] in a.queues;
    }
  }

  lemma ConsumesOkReordered(a: Contribution, b: Contribution, src: Sources)
    requires ShapeOf(a) == ShapeOf(b) && ConsumesOk(a, src, a.consumes)
    ensures ConsumesOk(b, src, b.consumes)
  {
    SameMembers(a.consumes, b.consumes);
    SameMembers(a.queues, b.queues);
    ConsumesOkEach(a, src, a.consumes);
    ConsumesOkEach(b, src, b.consumes);
    forall d | d in b.consumes ensures ConsumeOk(b, src, d) { assert ConsumeOk(a, src, d); }
  }

  lemma PublishesOkReordered(a: Contribution, b: Contribution, src: Sources, prior: map<string, CatalogPublish>)
    requires ShapeOf(a) == ShapeOf(b) && PublishesOk(a.namespace, a.publishes, src, prior)
    ensures PublishesOk(b.namespace, b.publishes, src, prior)
  {
    SameMembers(a.publishes, b.publishes);
    PublishesOkEach(a.namespace, a.publishes, src, prior);
    PublishesOkEach(b.namespace, b.publishes, src, prior);
  }

  lemma ContributionOkReordered(a: Contribution, b: Contribution, src: Sources, prior: map<string, CatalogPublish>)
    requires ShapeOf(a) == ShapeOf(b) && ContributionOk(a, src, prior)
    ensures ContributionOk(b, src, prior)
  {
    HeaderOkReordered(a, b, src);
    PublishesOkReordered(a, b, src, prior);
    FollowsOkReordered(a, b);
    ConsumesOkReordered(a, b, src);
  }

  lemma ContributionsOkReordered(
    cs: seq<Contribution>, ds: seq<Contribution>, src: Sources, prior: map<string, CatalogPublish>)
    requires Reordered(cs, ds) && ContributionsOk(cs, src, prior)
    ensures ContributionsOk(ds, src, prior)
  {
    ContributionsOkEach(cs, src, prior);
    ContributionsOkEach(ds, src, prior);
    SameMembers(Map(cs, ShapeOf), Map(ds, ShapeOf));
    forall y | y in ds ensures ContributionOk(y, src, prior) {
      var j :| 0 <= j < |ds| && ds[j] == y;
      assert Map(ds, ShapeOf)[j] in Map(cs, ShapeOf);
      var i :| 0 <= i < |cs| && Map(cs, ShapeOf)[i] == ShapeOf(y);
      ContributionOkReordered(cs[i], y, src, prior);
    }
  }

  // ----- main results -----

  lemma ListsSame<T>(s: seq<T>, t: seq<T>)
    requires forall x :: multiset(s)[x] == multiset(t)[x]
    ensures multiset(s) == multiset(t)
  {
  }

  lemma PublishesSeparate(k: Catalog, f: Facts)
    requires Lists(k, f) && ClaimedOnce(f) && Covered(f)
    ensures Separates(k.publishes, PublishLess)
  {
    var s := k.publishes;
    forall i, j | 0 <= i < |s| && 0 <= j < |s| && !PublishLess(s[i], s[j]) && !PublishLess(s[j], s[i])
      ensures s[i] == s[j]
    {
      if s[i].typ != s[j].typ { LessTotal(s[i].typ, s[j].typ); }
      assert s[i] in multiset(s) && s[j] in multiset(s);
      EntryAlone(f, Pub(s[i]), Pub(s[j]), EventType(s[i].typ));
    }
  }

  lemma FollowsSeparate(k: Catalog, f: Facts)
    requires Lists(k, f) && ClaimedOnce(f) && Covered(f)
    ensures Separates(k.follows, FollowLess)
  {
    var s := k.follows;
    forall i, j | 0 <= i < |s| && 0 <= j < |s| && !FollowLess(s[i], s[j]) && !FollowLess(s[j], s[i])
      ensures s[i] == s[j]
    {
      if s[i].resourceType != s[j].resourceType { LessTotal(s[i].resourceType, s[j].resourceType); }
      assert s[i] in multiset(s) && s[j] in multiset(s);
      EntryAlone(f, Fol(s[i]), Fol(s[j]), Resource(s[i].resourceType));
    }
  }

  /** What the contributions state determines the catalog, whatever the sorts do with ties. */
  lemma CatalogUnique(k: Catalog, l: Catalog, f: Facts)
    requires ClaimedOnce(f) && Covered(f) && CatalogOf(k, f) && CatalogOf(l, f)
    ensures k == l
  {
    PublishesSeparate(k, f);
    FollowsSeparate(k, f);
    ConsumeLessTotal();
    TotalIsWeak(ConsumeLess);
    ListsSame(k.publishes, l.publishes);
    ListsSame(k.consumes, l.consumes);
    ListsSame(k.follows, l.follows);
    SortedUnique(k.publishes, l.publishes, PublishLess);
    SortedUnique(k.consumes, l.consumes, ConsumeLess);
    SortedUnique(k.follows, l.follows, FollowLess);
  }

  /** Reordered inputs are accepted together. */
  lemma AcceptanceIgnoresOrder(cs: seq<Contribution>, ds: seq<Contribution>, src: Sources, prior: Catalog)
    requires Reordered(cs, ds)
    ensures Accepts(cs, src, prior) <==> Accepts(ds, src, prior)
  {
    AllFactsReordered(cs, ds, src);
    var byType := PriorByType(prior.publishes);
    if ContributionsOk(cs, src, byType) { ContributionsOkReordered(cs, ds, src, byType); }
    if ContributionsOk(ds, src, byType) { ContributionsOkReordered(ds, cs, src, byType); }
  }

  /** ... and every result of either is the same catalog. */
  lemma CatalogIgnoresOrder(
    cs: seq<Contribution>, ds: seq<Contribution>, src: Sources, prior: Catalog, k: Catalog, l: Catalog)
    requires Reordered(cs, ds) && Accepts(cs, src, prior)
    requires CatalogOf(k, AllFacts(cs, src)) && CatalogOf(l, AllFacts(ds, src))
    ensures k == l
  {
    AllFactsReordered(cs, ds, src);
    AllCovered(cs, src);
    CatalogUnique(k, l, AllFacts(cs, src));
  }
}
