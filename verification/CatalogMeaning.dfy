/** The outcome of a compose of event contributions (composition_events.go) in terms of what the
    contributions say: which sets of them are accepted, and what the catalog then holds. */
module CatalogMeaning {
  import opened Wrappers
  import opened Ordering
  import opened EventCatalog
  import opened EventBuild
  import opened CatalogOrder
  import opened CatalogRuns
  import opened CatalogClaims

  // ----- what is consumed, and what was promised before -----

  ghost predicate SomeonePublishes(cs: seq<Contribution>, typ: string) {
    exists c, p :: c in cs && p in c.publishes && p.typ == typ
  }

  ghost predicate SomeoneConsumes(cs: seq<Contribution>, typ: string) {
    exists c, d :: c in cs && d in c.consumes && d.typ == typ
  }

  /** A followable resource that is still declared, with at least the same events. */
  predicate Keeps(f: Followable, was: CatalogFollow) {
    f.resourceType == was.resourceType && forall e :: e in was.events ==> e in f.events
  }

  ghost predicate SomeoneKeeps(cs: seq<Contribution>, was: CatalogFollow) {
    exists c, f :: c in cs && f in c.follows && Keeps(f, was)
  }

  lemma PublishedMeaning(cs: seq<Contribution>, src: Sources, typ: string)
    ensures EventType(typ) in AllFacts(cs, src).keys <==> SomeonePublishes(cs, typ)
  {
    var k := EventType(typ);
    if k in AllFacts(cs, src).keys {
      var i := FoundInSum(cs, ContributionFacts(src), k);
      var part := ClaimFound(cs[i], src, k);
      assert cs[i] in cs && cs[i].publishes[part.a] in cs[i].publishes;
    }
    if c, p :| c in cs && p in c.publishes && p.typ == typ {
      var i :| 0 <= i < |cs| && cs[i] == c;
      var a :| 0 <= a < |c.publishes| && c.publishes[a] == p;
      ClaimCounted(c, src, PublishAt(a), k);
      CatalogNamespaces.SumAtLeast(cs, i, ContributionFacts(src), k);
    }
  }

  lemma ConsumeOf(cs: seq<Contribution>, src: Sources, q: CatalogConsume) returns (c: Contribution, d: Consumed)
    requires Con(q) in AllFacts(cs, src).entries
    ensures c in cs && d in c.consumes && q == ConsumeEntry(c.namespace, d)
  {
    c := EntryOrigin(cs, ContributionFacts(src), Con(q));
    if Con(q) in OfPublishes(c, src).entries {
      var p := EntryOrigin(c.publishes, PublishFacts(c.namespace, src), Con(q));
    }
    if Con(q) in OfFollows(c).entries {
      var g := EntryOrigin(c.follows, FollowFacts(c.namespace), Con(q));
      EventsClaimed(g.events);
    }
    assert Con(q) in OfConsumes(c).entries;
    d := EntryOrigin(c.consumes, ConsumeFacts(c.namespace), Con(q));
  }

  lemma ConsumeStays(cs: seq<Contribution>, src: Sources, c: Contribution, d: Consumed)
    requires c in cs && d in c.consumes
    ensures Con(ConsumeEntry(c.namespace, d)) in AllFacts(cs, src).entries
  {
    var e := Con(ConsumeEntry(c.namespace, d));
    EntryStays(c.consumes, ConsumeFacts(c.namespace), d, e);
    EntryStays(cs, ContributionFacts(src), c, e);
  }

  lemma FollowStays(cs: seq<Contribution>, src: Sources, c: Contribution, f: Followable)
    requires c in cs && f in c.follows
    ensures Fol(FollowEntry(c.namespace, f)) in AllFacts(cs, src).entries
  {
    var e := Fol(FollowEntry(c.namespace, f));
    EntryStays(c.follows, FollowFacts(c.namespace), f, e);
    EntryStays(cs, ContributionFacts(src), c, e);
  }

  lemma RegisteredMeaning(cs: seq<Contribution>, src: Sources)
    ensures Registered(AllFacts(cs, src)) <==> forall typ :: SomeoneConsumes(cs, typ) ==> SomeonePublishes(cs, typ)
  {
    forall typ ensures EventType(typ) in AllFacts(cs, src).keys <==> SomeonePublishes(cs, typ) {
      PublishedMeaning(cs, src, typ);
    }
    if Registered(AllFacts(cs, src)) {
      forall typ | SomeoneConsumes(cs, typ) ensures SomeonePublishes(cs, typ) {
        var c, d :| c in cs && d in c.consumes && d.typ == typ;
        ConsumeStays(cs, src, c, d);
      }
    }
    if forall typ :: SomeoneConsumes(cs, typ) ==> SomeonePublishes(cs, typ) {
      forall q | Con(q) in AllFacts(cs, src).entries ensures EventType(q.typ) in AllFacts(cs, src).keys {
        var c, d := ConsumeOf(cs, src, q);
        assert SomeoneConsumes(cs, q.typ);
      }
    }
  }

  lemma SortedEvents(ns: string, f: Followable)
    ensures multiset(FollowEntry(ns, f).events) == multiset(f.events)
    ensures forall e :: e in FollowEntry(ns, f).events <==> e in f.events
  {
    SortStringsSorts(f.events);
    SameMembers(SortStrings(f.events), f.events);
  }

  lemma KeepsContinues(ns: string, f: Followable, was: CatalogFollow)
    ensures Continues(was, FollowEntry(ns, f)) <==> Keeps(f, was)
  {
    SortedEvents(ns, f);
    if Continues(was, FollowEntry(ns, f)) {
      forall e | e in was.events ensures e in f.events { var i :| 0 <= i < |was.events| && was.events[i] == e; }
    }
  }

  lemma ContinuedIsKept(cs: seq<Contribution>, src: Sources, was: CatalogFollow)
    requires Continued(AllFacts(cs, src), was)
    ensures SomeoneKeeps(cs, was)
  {
    var g :| Fol(g) in AllFacts(cs, src).entries && Continues(was, g);
    var c, f := FollowOrigin(cs, src, g);
    KeepsContinues(c.namespace, f, was);
  }

  lemma KeptIsContinued(cs: seq<Contribution>, src: Sources, was: CatalogFollow)
    requires SomeoneKeeps(cs, was)
    ensures Continued(AllFacts(cs, src), was)
  {
    var c, f :| c in cs && f in c.follows && Keeps(f, was);
    FollowStays(cs, src, c, f);
    KeepsContinues(c.namespace, f, was);
  }

  lemma NoneWithdrawn(cs: seq<Contribution>, src: Sources, prior: seq<CatalogFollow>)
    requires forall was :: was in prior ==> SomeoneKeeps(cs, was)
    ensures NoRetraction(AllFacts(cs, src), prior)
  {
    forall i | 0 <= i < |prior| ensures Continued(AllFacts(cs, src), prior[i]) {
      KeptIsContinued(cs, src, prior[i]);
    }
  }

  lemma RetractionByMember(cs: seq<Contribution>, src: Sources, prior: seq<CatalogFollow>)
    ensures NoRetraction(AllFacts(cs, src), prior) <==> forall was :: was in prior ==> SomeoneKeeps(cs, was)
  {
    if NoRetraction(AllFacts(cs, src), prior) {
      forall was | was in prior ensures SomeoneKeeps(cs, was) {
        var i :| 0 <= i < |prior| && prior[i] == was;
        ContinuedIsKept(cs, src, prior[i]);
      }
    }
    if forall was :: was in prior ==> SomeoneKeeps(cs, was) { NoneWithdrawn(cs, src, prior); }
  }

  /** A compose accepts a set of contributions exactly when each obeys its own rules, no name is
      claimed at two places, everything consumed is published, and every resource that was
      followable still is, with all its events. */
  lemma AcceptanceMeaning(cs: seq<Contribution>, src: Sources, prior: Catalog)
    ensures Accepts(cs, src, prior) <==>
              && (forall c :: c in cs ==> ContributionOk(c, src, PriorByType(prior.publishes)))
              && ClaimsApart(cs)
              && (forall typ :: SomeoneConsumes(cs, typ) ==> SomeonePublishes(cs, typ))
              && (forall was :: was in prior.follows ==> SomeoneKeeps(cs, was))
  {
    ContributionsOkEach(cs, src, PriorByType(prior.publishes));
    ClaimedOnceMeaning(cs, src);
    RegisteredMeaning(cs, src);
    RetractionByMember(cs, src, prior.follows);
  }

  // ----- what the catalog holds -----

  /** This entry is that declaration, resolved. */
  predicate PublishStates(q: CatalogPublish, c: Contribution, p: Published, src: Sources) {
    && q.typ == p.typ && q.namespace == c.namespace && q.schema == p.schema && q.visibility == p.visibility
    && q.partition == p.partition && q.retention == p.retention
    && q.major == Major(p.schema) && src.protos(p.schema) == Some(q.fields)
  }

  predicate ConsumeStates(q: CatalogConsume, c: Contribution, d: Consumed) {
    q.typ == d.typ && q.subscriber == c.namespace && q.queue == d.queue && q.delivery == d.delivery
  }

  predicate FollowStates(q: CatalogFollow, c: Contribution, f: Followable) {
    && q.resourceType == f.resourceType && q.namespace == c.namespace
    && Sorted(q.events, Less) && multiset(q.events) == multiset(f.events)
  }

  lemma Resolved(cs: seq<Contribution>, src: Sources, prior: Catalog, c: Contribution, p: Published)
    requires Accepts(cs, src, prior) && c in cs && p in c.publishes
    ensures src.protos(p.schema).Some?
  {
    RulesOf(cs, src, PriorByType(prior.publishes), c);
    PublishesOkEach(c.namespace, c.publishes, src, PriorByType(prior.publishes));
  }

  lemma StatesEntry(q: CatalogPublish, c: Contribution, p: Published, src: Sources)
    requires src.protos(p.schema).Some?
    ensures PublishStates(q, c, p, src) <==> q == PublishEntry(c.namespace, p, src)
  {
  }

  lemma ListedIsStated(k: Catalog, f: Facts, q: CatalogPublish)
    requires Lists(k, f)
    ensures q in k.publishes <==> Pub(q) in f.entries
  {
    assert q in k.publishes <==> q in multiset(k.publishes);
  }

  /** The published entries are the declared ones, each with its own fields. */
  lemma CatalogPublishes(cs: seq<Contribution>, src: Sources, prior: Catalog, k: Catalog, q: CatalogPublish)
    requires Accepts(cs, src, prior) && CatalogOf(k, AllFacts(cs, src))
    ensures q in k.publishes <==> exists c, p :: c in cs && p in c.publishes && PublishStates(q, c, p, src)
  {
    ListedIsStated(k, AllFacts(cs, src), q);
    if q in k.publishes {
      var c, p := PublishOrigin(cs, src, q);
      Resolved(cs, src, prior, c, p);
      StatesEntry(q, c, p, src);
    }
    if c, p :| c in cs && p in c.publishes && PublishStates(q, c, p, src) {
      PublishStays(cs, src, c, p);
      StatesEntry(q, c, p, src);
    }
  }

  lemma CatalogConsumes(cs: seq<Contribution>, src: Sources, k: Catalog, q: CatalogConsume)
    requires CatalogOf(k, AllFacts(cs, src))
    ensures q in k.consumes <==> exists c, d :: c in cs && d in c.consumes && ConsumeStates(q, c, d)
  {
    assert q in k.consumes <==> Con(q) in AllFacts(cs, src).entries;
    if q in k.consumes {
      var c, d := ConsumeOf(cs, src, q);
      assert ConsumeStates(q, c, d);
    }
    if c, d :| c in cs && d in c.consumes && ConsumeStates(q, c, d) {
      ConsumeStays(cs, src, c, d);
      assert q == ConsumeEntry(c.namespace, d);
    }
  }

  lemma FollowEntryStates(q: CatalogFollow, c: Contribution, f: Followable)
    ensures FollowStates(q, c, f) <==> q == FollowEntry(c.namespace, f)
  {
    SortStringsSorts(f.events);
    LessStrictTotal();
    TotalIsWeak(Less);
    if FollowStates(q, c, f) { SortedUnique(q.events, SortStrings(f.events), Less); }
  }

  lemma CatalogFollows(cs: seq<Contribution>, src: Sources, k: Catalog, q: CatalogFollow)
    requires CatalogOf(k, AllFacts(cs, src))
    ensures q in k.follows <==> exists c, f :: c in cs && f in c.follows && FollowStates(q, c, f)
  {
    assert q in k.follows <==> q in multiset(k.follows);
    assert q in k.follows <==> Fol(q) in AllFacts(cs, src).entries;
    if q in k.follows {
      var c, f := FollowOrigin(cs, src, q);
      FollowEntryStates(q, c, f);
    }
    if c, f :| c in cs && f in c.follows && FollowStates(q, c, f) {
      FollowStays(cs, src, c, f);
      FollowEntryStates(q, c, f);
    }
  }

  // ----- in which order -----

  /** Compared entry by entry, the first difference decides. */
  predicate ListLess(a: seq<string>, b: seq<string>)
    requires |a| == |b|
    decreases |a|
  {
    a != [] && (if a[0] != b[0] then Less(a[0], b[0]) else ListLess(a[1..], b[1..]))
  }

  function OrderKey(d: CatalogConsume): seq<string> { [d.typ, d.subscriber, d.queue, d.delivery] }

  lemma ListLessNext(x: string, y: string, s: seq<string>, t: seq<string>)
    requires |s| == |t|
    ensures ListLess([x] + s, [y] + t) <==> if x != y then Less(x, y) else ListLess(s, t)
  {
    assert ([x] + s)[1..] == s && ([y] + t)[1..] == t;
  }

  lemma ConsumeOrder(a: CatalogConsume, b: CatalogConsume)
    ensures ConsumeLess(a, b) <==> ListLess(OrderKey(a), OrderKey(b))
  {
    LessIrreflexive(a.delivery);
    assert OrderKey(a) == [a.typ] + [a.subscriber, a.queue, a.delivery];
    assert OrderKey(b) == [b.typ] + [b.subscriber, b.queue, b.delivery];
    ListLessNext(a.typ, b.typ, [a.subscriber, a.queue, a.delivery], [b.subscriber, b.queue, b.delivery]);
    assert [a.subscriber, a.queue, a.delivery] == [a.subscriber] + [a.queue, a.delivery];
    assert [b.subscriber, b.queue, b.delivery] == [b.subscriber] + [b.queue, b.delivery];
    ListLessNext(a.subscriber, b.subscriber, [a.queue, a.delivery], [b.queue, b.delivery]);
    assert [a.queue, a.delivery] == [a.queue] + [a.delivery] && [b.queue, b.delivery] == [b.queue] + [b.delivery];
    ListLessNext(a.queue, b.queue, [a.delivery], [b.delivery]);
    assert [a.delivery] == [a.delivery] + [] && [b.delivery] == [b.delivery] + [];
    ListLessNext(a.delivery, b.delivery, [], []);
  }

  /** The three lists of a catalog, in order: published types and resource types ascend, and
      consumes ascend by type, then subscriber, queue and delivery. */
  lemma CatalogAscends(cs: seq<Contribution>, src: Sources, k: Catalog, i: nat, j: nat)
    requires CatalogOf(k, AllFacts(cs, src)) && i < j
    ensures j < |k.publishes| ==> !Less(k.publishes[j].typ, k.publishes[i].typ)
    ensures j < |k.follows| ==> !Less(k.follows[j].resourceType, k.follows[i].resourceType)
    ensures j < |k.consumes| ==> !ListLess(OrderKey(k.consumes[j]), OrderKey(k.consumes[i]))
  {
    if j < |k.publishes| { assert !PublishLess(k.publishes[j], k.publishes[i]); }
    if j < |k.follows| { assert !FollowLess(k.follows[j], k.follows[i]); }
    if j < |k.consumes| {
      assert !ConsumeLess(k.consumes[j], k.consumes[i]);
      ConsumeOrder(k.consumes[j], k.consumes[i]);
    }
  }
}
