/** buildEventCatalog as it runs: one pass that claims names as it meets them,
    proved to accept exactly what EventCatalog.Accepts describes. */
module EventBuild {
  import opened Ordering
  import opened EventCatalog

  datatype Result = Ok(catalog: Catalog) | Refused

  /** The maps and slices the pass fills; the five name maps are one tagged set. */
  datatype Acc = Acc(seen: set<Key>, catalog: Catalog)

  ghost predicate Holds(acc: Acc, f: Facts) {
    && ClaimedOnce(f)
    && (forall k :: k in acc.seen <==> k in f.keys)
    && Lists(acc.catalog, f)
  }

  lemma ClaimNew(f: Facts, k: Key, more: Facts)
    requires ClaimedOnce(f) && more.keys == multiset{k}
    ensures ClaimedOnce(f.Plus(more)) <==> k !in f.keys
  {
    var total := f.Plus(more).keys;
    assert forall x :: total[x] == f.keys[x] + (if x == k then 1 else 0);
    if k in f.keys { assert total[k] == 2; }
  }

  /** Taking the next element of a list: the total does not change, and a name that
      cannot be claimed now cannot be claimed in the total either. */
  lemma TakeNext<T>(sofar: Facts, s: seq<T>, i: nat, f: T -> Facts)
    requires i < |s|
    ensures sofar.Plus(Sum(s[i..], f)) == sofar.Plus(f(s[i])).Plus(Sum(s[i+1..], f))
    ensures !ClaimedOnce(sofar.Plus(f(s[i]))) ==> !ClaimedOnce(sofar.Plus(Sum(s[i..], f)))
    ensures s[i..][0] == s[i] && s[i..][1..] == s[i+1..]
  {
    assert s[i..][0] == s[i] && s[i..][1..] == s[i+1..];
    PlusLaws(sofar, f(s[i]), Sum(s[i+1..], f));
    if ClaimedOnce(sofar.Plus(Sum(s[i..], f))) {
      ClaimedOncePart(sofar.Plus(f(s[i])), Sum(s[i+1..], f));
    }
  }

  lemma Ends<T>(sofar: Facts, s: seq<T>, f: T -> Facts)
    ensures s[0..] == s
    ensures sofar.Plus(Sum(s[|s|..], f)) == sofar
  {
    assert s[|s|..] == [];
    PlusLaws(sofar, NO_FACTS, NO_FACTS);
  }

  /** Claiming one new name and listing what comes with it. */
  lemma HoldsAfter(acc: Acc, f: Facts, k: Key, next: Acc, more: Facts)
    requires Holds(acc, f) && k !in acc.seen && more.keys == multiset{k}
    requires next.seen == acc.seen + {k}
    requires Lists(next.catalog, f.Plus(more))
    ensures Holds(next, f.Plus(more))
  {
    ClaimNew(f, k, more);
  }

  lemma ListsMorePublish(k: Catalog, f: Facts, p: CatalogPublish, more: Facts)
    requires Lists(k, f) && more.entries == multiset{Pub(p)}
    ensures Lists(k.(publishes := k.publishes + [p]), f.Plus(more))
  {
  }

  lemma ListsMoreConsume(k: Catalog, f: Facts, d: CatalogConsume, more: Facts)
    requires Lists(k, f) && more.entries == multiset{Con(d)}
    ensures Lists(k.(consumes := k.consumes + [d]), f.Plus(more))
  {
  }

  lemma ListsMoreFollow(k: Catalog, f: Facts, g: CatalogFollow, more: Facts)
    requires Lists(k, f) && more.entries == multiset{Fol(g)}
    ensures Lists(k.(follows := k.follows + [g]), f.Plus(more))
  {
  }

  lemma ListsNoMore(k: Catalog, f: Facts, more: Facts)
    requires Lists(k, f) && more.entries == multiset{}
    ensures Lists(k, f.Plus(more))
  {
  }

  // ----- one entry -----

  method CheckPublish(ns: string, p: Published, src: Sources, prior: map<string, CatalogPublish>) returns (ok: bool)
    ensures ok <==> PublishOk(ns, p, src, prior)
  {
    if !IsEventType(p.typ) || !(ns + "." <= p.typ) || !IsVisibility(p.visibility) || !PartitionOk(p.partition) {
      return false;
    }
    match src.protos(p.schema)
    case None => return false;
    case Some(fields) =>
      var major := MajorFromSchema(p.schema);
      ok := CheckBreakingChange(p.typ, major, fields, prior);
  }

  method AddPublish(ns: string, p: Published, src: Sources, prior: map<string, CatalogPublish>,
                    acc0: Acc, ghost sofar: Facts)
    returns (ok: bool, acc: Acc)
    requires Holds(acc0, sofar)
    ensures ok <==> PublishOk(ns, p, src, prior) && ClaimedOnce(sofar.Plus(PublishFacts(ns, src)(p)))
    ensures ok ==> Holds(acc, sofar.Plus(PublishFacts(ns, src)(p)))
  {
    acc := acc0;
    ok := CheckPublish(ns, p, src, prior);
    ghost var more := PublishFacts(ns, src)(p);
    ClaimNew(sofar, EventType(p.typ), more);
    if ok {
      if EventType(p.typ) in acc.seen {
        return false, acc;
      }
      ListsMorePublish(acc.catalog, sofar, PublishEntry(ns, p, src), more);
      acc := Acc(acc.seen + {EventType(p.typ)},
        acc.catalog.(publishes := acc.catalog.publishes + [PublishEntry(ns, p, src)]));
      HoldsAfter(acc0, sofar, EventType(p.typ), acc, more);
    }
  }

  method AddEvent(publishes: seq<Published>, e: string, acc0: Acc, ghost sofar: Facts)
    returns (ok: bool, acc: Acc)
    requires Holds(acc0, sofar)
    ensures ok <==> TenantEvent(publishes, e) && ClaimedOnce(sofar.Plus(EventFacts()(e)))
    ensures ok ==> Holds(acc, sofar.Plus(EventFacts()(e)))
  {
    acc := acc0;
    ClaimNew(sofar, FollowedEvent(e), EventFacts()(e));
    if !TenantEvent(publishes, e) || FollowedEvent(e) in acc.seen {
      return false, acc;
    }
    ListsNoMore(acc.catalog, sofar, EventFacts()(e));
    acc := acc.(seen := acc.seen + {FollowedEvent(e)});
    HoldsAfter(acc0, sofar, FollowedEvent(e), acc, EventFacts()(e));
    return true, acc;
  }

  method AddConsume(c: Contribution, src: Sources, d: Consumed, acc0: Acc, ghost sofar: Facts)
    returns (ok: bool, acc: Acc)
    requires Holds(acc0, sofar)
    ensures ok <==> ConsumeOk(c, src, d) && ClaimedOnce(sofar.Plus(ConsumeFacts(c.namespace)(d)))
    ensures ok ==> Holds(acc, sofar.Plus(ConsumeFacts(c.namespace)(d)))
  {
    acc := acc0;
    var key := Subscription(c.namespace, d.typ, d.queue);
    ghost var more := ConsumeFacts(c.namespace)(d);
    ClaimNew(sofar, key, more);
    if !ConsumeOk(c, src, d) || key in acc.seen {
      return false, acc;
    }
    ListsMoreConsume(acc.catalog, sofar, ConsumeEntry(c.namespace, d), more);
    acc := Acc(acc.seen + {key}, acc.catalog.(consumes := acc.catalog.consumes + [ConsumeEntry(c.namespace, d)]));
    HoldsAfter(acc0, sofar, key, acc, more);
    return true, acc;
  }

  // ----- the lists of one contribution -----

  method AddPublishes(ns: string, publishes: seq<Published>, src: Sources,
                      prior: map<string, CatalogPublish>, acc0: Acc, ghost base: Facts)
    returns (ok: bool, acc: Acc)
    requires Holds(acc0, base)
    ensures ok <==> PublishesOk(ns, publishes, src, prior)
                    && ClaimedOnce(base.Plus(Sum(publishes, PublishFacts(ns, src))))
    ensures ok ==> Holds(acc, base.Plus(Sum(publishes, PublishFacts(ns, src))))
  {
    ghost var f, sofar := PublishFacts(ns, src), base;
    acc := acc0;
    Ends(base, publishes, f);
    for i := 0 to |publishes|
      invariant Holds(acc, sofar)
      invariant sofar.Plus(Sum(publishes[i..], f)) == base.Plus(Sum(publishes, f))
      invariant PublishesOk(ns, publishes, src, prior) <==> PublishesOk(ns, publishes[i..], src, prior)
    {
      TakeNext(sofar, publishes, i, f);
      ok, acc := AddPublish(ns, publishes[i], src, prior, acc, sofar);
      if !ok {
        return false, acc;
      }
      sofar := sofar.Plus(f(publishes[i]));
    }
    Ends(sofar, publishes, f);
    return true, acc;
  }

  method AddEvents(publishes: seq<Published>, events: seq<string>, acc0: Acc, ghost base: Facts)
    returns (ok: bool, acc: Acc)
    requires Holds(acc0, base)
    ensures ok <==> TenantEvents(publishes, events)
                    && ClaimedOnce(base.Plus(Sum(events, EventFacts())))
    ensures ok ==> Holds(acc, base.Plus(Sum(events, EventFacts())))
  {
    ghost var f, sofar := EventFacts(), base;
    acc := acc0;
    Ends(base, events, f);
    for i := 0 to |events|
      invariant Holds(acc, sofar)
      invariant sofar.Plus(Sum(events[i..], f)) == base.Plus(Sum(events, f))
      invariant TenantEvents(publishes, events) <==> TenantEvents(publishes, events[i..])
    {
      TakeNext(sofar, events, i, f);
      ok, acc := AddEvent(publishes, events[i], acc, sofar);
      if !ok {
        return false, acc;
      }
      sofar := sofar.Plus(f(events[i]));
    }
    Ends(sofar, events, f);
    return true, acc;
  }

  method AddFollow(ns: string, publishes: seq<Published>, fol: Followable, acc0: Acc, ghost sofar: Facts)
    returns (ok: bool, acc: Acc)
    requires Holds(acc0, sofar)
    ensures ok <==> FollowOk(ns, publishes, fol) && ClaimedOnce(sofar.Plus(FollowFacts(ns)(fol)))
    ensures ok ==> Holds(acc, sofar.Plus(FollowFacts(ns)(fol)))
  {
    acc := acc0;
    ghost var own := Facts(multiset{Resource(fol.resourceType)}, multiset{Fol(FollowEntry(ns, fol))});
    ghost var rest := Sum(fol.events, EventFacts());
    PlusLaws(sofar, own, rest);
    assert FollowFacts(ns)(fol) == own.Plus(rest);
    ClaimNew(sofar, Resource(fol.resourceType), own);
    if ClaimedOnce(sofar.Plus(own).Plus(rest)) { ClaimedOncePart(sofar.Plus(own), rest); }
    if !IsLogicalId(fol.resourceType) || !(ns + "." <= fol.resourceType)
      || Resource(fol.resourceType) in acc.seen || fol.events == [] {
      return false, acc;
    }
    ListsMoreFollow(acc.catalog, sofar, FollowEntry(ns, fol), own);
    acc := Acc(acc.seen + {Resource(fol.resourceType)},
      acc.catalog.(follows := acc.catalog.follows + [FollowEntry(ns, fol)]));
    HoldsAfter(acc0, sofar, Resource(fol.resourceType), acc, own);
    ok, acc := AddEvents(publishes, fol.events, acc, sofar.Plus(own));
  }

  method AddFollows(ns: string, publishes: seq<Published>, follows: seq<Followable>, acc0: Acc, ghost base: Facts)
    returns (ok: bool, acc: Acc)
    requires Holds(acc0, base)
    ensures ok <==> FollowsOk(ns, publishes, follows)
                    && ClaimedOnce(base.Plus(Sum(follows, FollowFacts(ns))))
    ensures ok ==> Holds(acc, base.Plus(Sum(follows, FollowFacts(ns))))
  {
    ghost var f, sofar := FollowFacts(ns), base;
    acc := acc0;
    Ends(base, follows, f);
    for i := 0 to |follows|
      invariant Holds(acc, sofar)
      invariant sofar.Plus(Sum(follows[i..], f)) == base.Plus(Sum(follows, f))
      invariant FollowsOk(ns, publishes, follows) <==> FollowsOk(ns, publishes, follows[i..])
    {
      TakeNext(sofar, follows, i, f);
      ok, acc := AddFollow(ns, publishes, follows[i], acc, sofar);
      if !ok {
        return false, acc;
      }
      sofar := sofar.Plus(f(follows[i]));
    }
    Ends(sofar, follows, f);
    return true, acc;
  }

  method AddConsumes(c: Contribution, src: Sources, acc0: Acc, ghost base: Facts)
    returns (ok: bool, acc: Acc)
    requires Holds(acc0, base)
    ensures ok <==> ConsumesOk(c, src, c.consumes)
                    && ClaimedOnce(base.Plus(Sum(c.consumes, ConsumeFacts(c.namespace))))
    ensures ok ==> Holds(acc, base.Plus(Sum(c.consumes, ConsumeFacts(c.namespace))))
  {
    ghost var f, sofar := ConsumeFacts(c.namespace), base;
    acc := acc0;
    Ends(base, c.consumes, f);
    for i := 0 to |c.consumes|
      invariant Holds(acc, sofar)
      invariant sofar.Plus(Sum(c.consumes[i..], f)) == base.Plus(Sum(c.consumes, f))
      invariant ConsumesOk(c, src, c.consumes) <==> ConsumesOk(c, src, c.consumes[i..])
    {
      TakeNext(sofar, c.consumes, i, f);
      ok, acc := AddConsume(c, src, c.consumes[i], acc, sofar);
      if !ok {
        return false, acc;
      }
      sofar := sofar.Plus(f(c.consumes[i]));
    }
    Ends(sofar, c.consumes, f);
    return true, acc;
  }

  // ----- one contribution -----

  method CheckHeader(c: Contribution, src: Sources) returns (ok: bool)
    ensures ok <==> HeaderOk(c, src)
  {
    if c.schema != CONTRIBUTION_SCHEMA || !IsLogicalId(c.namespace) {
      return false;
    }
    var reserved := IsReserved(src.reserved, c.namespace);
    if (!c.baseOwned && reserved) || (c.follows != [] && reserved) {
      return false;
    }
    for i := 0 to |c.queues|
      invariant forall j :: 0 <= j < i ==> IsLogicalId(c.queues[j])
    {
      if !IsLogicalId(c.queues[i]) {
        return false;
      }
    }
    return true;
  }

  method AddReach(c: Contribution, src: Sources, acc0: Acc, ghost base: Facts, ghost fols: Facts, ghost cons: Facts)
    returns (ok: bool, acc: Acc)
    requires Holds(acc0, base)
    requires fols == Sum(c.follows, FollowFacts(c.namespace))
    requires cons == Sum(c.consumes, ConsumeFacts(c.namespace))
    ensures ok <==> FollowsOk(c.namespace, c.publishes, c.follows) && ConsumesOk(c, src, c.consumes)
                    && ClaimedOnce(base.Plus(fols).Plus(cons))
    ensures ok ==> Holds(acc, base.Plus(fols).Plus(cons))
  {
    if ClaimedOnce(base.Plus(fols).Plus(cons)) { ClaimedOncePart(base.Plus(fols), cons); }
    ok, acc := AddFollows(c.namespace, c.publishes, c.follows, acc0, base);
    if ok {
      ok, acc := AddConsumes(c, src, acc, base.Plus(fols));
    }
  }

  method AddEntries(c: Contribution, src: Sources, prior: map<string, CatalogPublish>, acc0: Acc,
                    ghost base: Facts, ghost pubs: Facts, ghost fols: Facts, ghost cons: Facts)
    returns (ok: bool, acc: Acc)
    requires Holds(acc0, base)
    requires pubs == Sum(c.publishes, PublishFacts(c.namespace, src))
    requires fols == Sum(c.follows, FollowFacts(c.namespace))
    requires cons == Sum(c.consumes, ConsumeFacts(c.namespace))
    ensures ok <==> EntriesOk(c, src, prior)
                    && ClaimedOnce(base.Plus(pubs).Plus(fols).Plus(cons))
    ensures ok ==> Holds(acc, base.Plus(pubs).Plus(fols).Plus(cons))
  {
    if ClaimedOnce(base.Plus(pubs).Plus(fols).Plus(cons)) {
      ClaimedOncePart(base.Plus(pubs).Plus(fols), cons);
      ClaimedOncePart(base.Plus(pubs), fols);
    }
    ok, acc := AddPublishes(c.namespace, c.publishes, src, prior, acc0, base);
    if ok {
      ok, acc := AddReach(c, src, acc, base.Plus(pubs), fols, cons);
    }
  }

  method ClaimNamespace(c: Contribution, src: Sources, acc0: Acc, ghost sofar: Facts, ghost own: Facts)
    returns (ok: bool, acc: Acc)
    requires Holds(acc0, sofar)
    requires own == Facts(multiset{Namespace(c.namespace)}, multiset{})
    ensures ok <==> HeaderOk(c, src) && ClaimedOnce(sofar.Plus(own))
    ensures ok ==> Holds(acc, sofar.Plus(own))
  {
    ClaimNew(sofar, Namespace(c.namespace), own);
    acc := acc0;
    ok := CheckHeader(c, src);
    if !ok || Namespace(c.namespace) in acc.seen {
      return false, acc;
    }
    ListsNoMore(acc.catalog, sofar, own);
    acc := acc.(seen := acc.seen + {Namespace(c.namespace)});
    HoldsAfter(acc0, sofar, Namespace(c.namespace), acc, own);
  }

  method AddContribution(c: Contribution, src: Sources, prior: map<string, CatalogPublish>,
                         acc0: Acc, ghost sofar: Facts)
    returns (ok: bool, acc: Acc)
    requires Holds(acc0, sofar)
    ensures ok <==> ContributionOk(c, src, prior) && ClaimedOnce(sofar.Plus(ContributionFacts(src)(c)))
    ensures ok ==> Holds(acc, sofar.Plus(ContributionFacts(src)(c)))
  {
    ghost var own := Facts(multiset{Namespace(c.namespace)}, multiset{});
    ghost var pubs, fols, cons := Sum(c.publishes, PublishFacts(c.namespace, src)),
      Sum(c.follows, FollowFacts(c.namespace)), Sum(c.consumes, ConsumeFacts(c.namespace));
    FourParts(sofar, own, pubs, fols, cons);
    assert ContributionFacts(src)(c) == own.Plus(pubs).Plus(fols).Plus(cons);
    ok, acc := ClaimNamespace(c, src, acc0, sofar, own);
    if ok {
      ok, acc := AddEntries(c, src, prior, acc, sofar.Plus(own), pubs, fols, cons);
    }
  }

  lemma FourParts(sofar: Facts, a: Facts, b: Facts, c: Facts, d: Facts)
    ensures sofar.Plus(a.Plus(b).Plus(c).Plus(d)) == sofar.Plus(a).Plus(b).Plus(c).Plus(d)
    ensures ClaimedOnce(sofar.Plus(a.Plus(b).Plus(c).Plus(d))) ==> ClaimedOnce(sofar.Plus(a))
  {
    PlusLaws(sofar, a, b);
    PlusLaws(sofar, a.Plus(b), c);
    PlusLaws(sofar, a.Plus(b).Plus(c), d);
    if ClaimedOnce(sofar.Plus(a).Plus(b).Plus(c).Plus(d)) {
      ClaimedOncePart(sofar.Plus(a).Plus(b).Plus(c), d);
      ClaimedOncePart(sofar.Plus(a).Plus(b), c);
      ClaimedOncePart(sofar.Plus(a), b);
    }
  }

  // ----- the whole compose -----

  method IndexPrior(prior: seq<CatalogPublish>) returns (byType: map<string, CatalogPublish>)
    ensures byType == PriorByType(prior)
  {
    byType := map[];
    for i := 0 to |prior|
      invariant byType == PriorByType(prior[..i])
    {
      assert prior[..i+1][..i] == prior[..i];
      byType := byType[prior[i].typ := prior[i]];
    }
    assert prior[..|prior|] == prior;
  }

  lemma HoldsNothing()
    ensures Holds(Acc({}, Catalog([], [], [])), NO_FACTS)
  {
  }

  method MergeFrom(cs: seq<Contribution>, src: Sources, prior: map<string, CatalogPublish>,
                   acc0: Acc, ghost base: Facts)
    returns (ok: bool, acc: Acc)
    requires Holds(acc0, base)
    ensures ok <==> ContributionsOk(cs, src, prior) && ClaimedOnce(base.Plus(Sum(cs, ContributionFacts(src))))
    ensures ok ==> Holds(acc, base.Plus(Sum(cs, ContributionFacts(src))))
  {
    ghost var f, sofar := ContributionFacts(src), base;
    acc := acc0;
    Ends(base, cs, f);
    for i := 0 to |cs|
      invariant Holds(acc, sofar)
      invariant sofar.Plus(Sum(cs[i..], f)) == base.Plus(Sum(cs, f))
      invariant ContributionsOk(cs, src, prior) <==> ContributionsOk(cs[i..], src, prior)
    {
      TakeNext(sofar, cs, i, f);
      ok, acc := AddContribution(cs[i], src, prior, acc, sofar);
      if !ok {
        return false, acc;
      }
      sofar := sofar.Plus(f(cs[i]));
    }
    Ends(sofar, cs, f);
    return true, acc;
  }

  method Merge(cs: seq<Contribution>, src: Sources, prior: map<string, CatalogPublish>)
    returns (ok: bool, acc: Acc)
    ensures ok <==> ContributionsOk(cs, src, prior) && ClaimedOnce(AllFacts(cs, src))
    ensures ok ==> Holds(acc, AllFacts(cs, src))
  {
    HoldsNothing();
    PlusLaws(AllFacts(cs, src), NO_FACTS, NO_FACTS);
    ok, acc := MergeFrom(cs, src, prior, Acc({}, Catalog([], [], [])), NO_FACTS);
  }

  method CheckRegistered(acc: Acc, ghost f: Facts) returns (ok: bool)
    requires Holds(acc, f)
    ensures ok <==> Registered(f)
  {
    var consumes := acc.catalog.consumes;
    for i := 0 to |consumes|
      invariant forall j :: 0 <= j < i ==> EventType(consumes[j].typ) in f.keys
    {
      if EventType(consumes[i].typ) !in acc.seen {
        assert consumes[i] in multiset(consumes);
        return false;
      }
    }
    forall d | Con(d) in f.entries ensures EventType(d.typ) in f.keys {
      assert d in multiset(consumes);
    }
    return true;
  }

  /** checkFollowRetraction: every prior resource is still declared with all its events. */
  method CheckFollowRetraction(now: seq<CatalogFollow>, prior: seq<CatalogFollow>) returns (ok: bool)
    ensures ok <==> forall i :: 0 <= i < |prior| ==> StillDeclared(prior[i], Declared(now))
  {
    var declared: map<string, seq<string>> := map[];
    for i := 0 to |now|
      invariant declared == Declared(now[..i])
    {
      assert now[..i+1][..i] == now[..i];
      declared := declared[now[i].resourceType := now[i].events];
    }
    assert now[..|now|] == now;
    for i := 0 to |prior|
      invariant forall j :: 0 <= j < i ==> StillDeclared(prior[j], declared)
    {
      if !StillDeclared(prior[i], declared) {
        return false;
      }
    }
    return true;
  }

  ghost predicate UniqueResources(now: seq<CatalogFollow>) {
    forall i, j :: 0 <= i < j < |now| ==> now[i].resourceType != now[j].resourceType
  }

  lemma {:induction false} DeclaredOf(now: seq<CatalogFollow>)
    requires UniqueResources(now)
    ensures forall r :: r in Declared(now) <==> exists i :: 0 <= i < |now| && now[i].resourceType == r
    ensures forall i :: 0 <= i < |now| ==>
              now[i].resourceType in Declared(now) && Declared(now)[now[i].resourceType] == now[i].events
  {
    if now != [] {
      DeclaredOf(now[..|now|-1]);
      forall r | r in Declared(now) ensures exists i :: 0 <= i < |now| && now[i].resourceType == r {
        if r == now[|now|-1].resourceType {
        } else {
          var i :| 0 <= i < |now| - 1 && now[..|now|-1][i].resourceType == r;
          assert now[i].resourceType == r;
        }
      }
    }
  }

  lemma RetractionMeaning(k: Catalog, f: Facts, prior: seq<CatalogFollow>)
    requires UniqueResources(k.follows) && Lists(k, f)
    ensures (forall i :: 0 <= i < |prior| ==> StillDeclared(prior[i], Declared(k.follows)))
       <==> NoRetraction(f, prior)
  {
    var now := k.follows;
    DeclaredOf(now);
    forall i | 0 <= i < |prior|
      ensures StillDeclared(prior[i], Declared(now)) <==> Continued(f, prior[i])
    {
      if StillDeclared(prior[i], Declared(now)) {
        var m :| 0 <= m < |now| && now[m].resourceType == prior[i].resourceType;
        assert now[m] in multiset(now) && Fol(now[m]) in f.entries && Continues(prior[i], now[m]);
      }
      if g :| Fol(g) in f.entries && Continues(prior[i], g) {
        assert g in multiset(now);
        var m :| 0 <= m < |now| && now[m] == g;
        assert Declared(now)[now[m].resourceType] == now[m].events;
      }
    }
  }

  // ----- every catalog entry stands behind the names it claims -----

  function Claims(e: Entry): set<Key> {
    match e
    case Pub(p) => {EventType(p.typ)}
    case Con(d) => {Subscription(d.subscriber, d.typ, d.queue)}
    case Fol(f) => {Resource(f.resourceType)} + set x | x in f.events :: FollowedEvent(x)
  }

  /** Each claim of a name by an entry is counted, and no two entries share a count. */
  ghost predicate Covered(f: Facts) {
    && (forall a, k :: k in Claims(a) ==> f.entries[a] <= f.keys[k])
    && (forall a, b, k :: a != b && k in Claims(a) && k in Claims(b) ==> f.entries[a] + f.entries[b] <= f.keys[k])
  }

  lemma CoveredPlus(f: Facts, g: Facts)
    requires Covered(f) && Covered(g)
    ensures Covered(f.Plus(g))
  {
    var h := f.Plus(g);
    forall a, k | k in Claims(a) ensures h.entries[a] <= h.keys[k] {
      assert f.entries[a] <= f.keys[k] && g.entries[a] <= g.keys[k];
    }
    forall a, b, k | a != b && k in Claims(a) && k in Claims(b) ensures h.entries[a] + h.entries[b] <= h.keys[k] {
      assert f.entries[a] + f.entries[b] <= f.keys[k] && g.entries[a] + g.entries[b] <= g.keys[k];
    }
  }

  lemma {:induction false} CoveredSum<T>(s: seq<T>, f: T -> Facts)
    requires forall i :: 0 <= i < |s| ==> Covered(f(s[i]))
    ensures Covered(Sum(s, f))
  {
    if s != [] {
      forall i | 0 <= i < |s[1..]| ensures Covered(f(s[1..][i])) {
        assert s[1..][i] == s[i+1];
      }
      CoveredSum(s[1..], f);
      CoveredPlus(f(s[0]), Sum(s[1..], f));
    }
  }

  lemma CoveredOne(f: Facts, e: Entry)
    requires f.entries == multiset{e} && forall k :: k in Claims(e) ==> k in f.keys
    ensures Covered(f)
  {
  }

  lemma {:induction false} EventsClaimed(events: seq<string>)
    ensures forall e :: e in events ==> FollowedEvent(e) in Sum(events, EventFacts()).keys
    ensures Sum(events, EventFacts()).entries == multiset{}
  {
    if events != [] {
      EventsClaimed(events[1..]);
      assert forall e :: e in events ==> e == events[0] || e in events[1..];
    }
  }

  lemma CoveredFollow(ns: string, fol: Followable)
    ensures Covered(FollowFacts(ns)(fol))
  {
    var e := FollowEntry(ns, fol);
    var own := Facts(multiset{Resource(fol.resourceType)}, multiset{Fol(e)});
    var rest := Sum(fol.events, EventFacts());
    EventsClaimed(fol.events);
    FollowedEvents(ns, fol);
    CoveredOne(own.Plus(rest), Fol(e));
  }

  lemma FollowedEvents(ns: string, fol: Followable)
    ensures forall x :: x in FollowEntry(ns, fol).events ==> x in fol.events
  {
    SortStringsSorts(fol.events);
    forall x | x in SortStrings(fol.events) ensures x in fol.events {
      assert x in multiset(SortStrings(fol.events));
    }
  }

  lemma CoveredFour(a: Facts, b: Facts, c: Facts, d: Facts)
    requires Covered(a) && Covered(b) && Covered(c) && Covered(d)
    ensures Covered(a.Plus(b).Plus(c).Plus(d))
  {
    CoveredPlus(a, b);
    CoveredPlus(a.Plus(b), c);
    CoveredPlus(a.Plus(b).Plus(c), d);
  }

  lemma CoveredNamespace(ns: string)
    ensures Covered(Facts(multiset{Namespace(ns)}, multiset{}))
  {
  }

  lemma CoveredContribution(c: Contribution, src: Sources)
    ensures Covered(ContributionFacts(src)(c))
  {
    var own := Facts(multiset{Namespace(c.namespace)}, multiset{});
    var pubs, fols, cons := Sum(c.publishes, PublishFacts(c.namespace, src)),
      Sum(c.follows, FollowFacts(c.namespace)), Sum(c.consumes, ConsumeFacts(c.namespace));
    CoveredPublishes(c, src);
    CoveredFollows(c);
    CoveredConsumes(c);
    CoveredNamespace(c.namespace);
    CoveredFour(own, pubs, fols, cons);
  }

  lemma CoveredPublishes(c: Contribution, src: Sources)
    ensures Covered(Sum(c.publishes, PublishFacts(c.namespace, src)))
  {
    var f := PublishFacts(c.namespace, src);
    forall i | 0 <= i < |c.publishes| ensures Covered(f(c.publishes[i])) {
      CoveredOne(f(c.publishes[i]), Pub(PublishEntry(c.namespace, c.publishes[i], src)));
    }
    CoveredSum(c.publishes, f);
  }

  lemma CoveredFollows(c: Contribution)
    ensures Covered(Sum(c.follows, FollowFacts(c.namespace)))
  {
    forall i | 0 <= i < |c.follows| ensures Covered(FollowFacts(c.namespace)(c.follows[i])) {
      CoveredFollow(c.namespace, c.follows[i]);
    }
    CoveredSum(c.follows, FollowFacts(c.namespace));
  }

  lemma CoveredConsumes(c: Contribution)
    ensures Covered(Sum(c.consumes, ConsumeFacts(c.namespace)))
  {
    var f := ConsumeFacts(c.namespace);
    forall i | 0 <= i < |c.consumes| ensures Covered(f(c.consumes[i])) {
      CoveredOne(f(c.consumes[i]), Con(ConsumeEntry(c.namespace, c.consumes[i])));
    }
    CoveredSum(c.consumes, f);
  }

  lemma AllCovered(cs: seq<Contribution>, src: Sources)
    ensures Covered(AllFacts(cs, src))
  {
    forall i | 0 <= i < |cs| ensures Covered(ContributionFacts(src)(cs[i])) { CoveredContribution(cs[i], src); }
    CoveredSum(cs, ContributionFacts(src));
  }

  // ----- the comparators -----

  lemma ComparatorsWeak()
    ensures StrictWeak(PublishLess) && StrictWeak(FollowLess)
  {
    LessStrictTotal();
    TotalIsWeak(Less);
  }

  lemma ConsumeLessTotal()
    ensures StrictTotal(ConsumeLess)
  {
    LessStrictTotal();
    forall a, b, c | ConsumeLess(a, b) && ConsumeLess(b, c) ensures ConsumeLess(a, c) {
      ConsumeLessTransitive(a, b, c);
    }
  }

  lemma ConsumeLessTransitive(a: CatalogConsume, b: CatalogConsume, c: CatalogConsume)
    requires ConsumeLess(a, b) && ConsumeLess(b, c)
    ensures ConsumeLess(a, c)
  {
    LessStrictTotal();
  }

  /** With every name claimed once, an entry is stated once and shares no name. */
  lemma EntryAlone(f: Facts, a: Entry, b: Entry, k: Key)
    requires ClaimedOnce(f) && Covered(f)
    requires k in Claims(a) && k in Claims(b) && a in f.entries && b in f.entries
    ensures a == b && f.entries[a] == 1
  {
    var x: int, y: int, n: int := f.entries[a], f.entries[b], f.keys[k];
    assert n <= 1 && x <= n;
    assert a != b ==> x + y <= n;
  }

  lemma ResourcesUnique(k: Catalog, f: Facts)
    requires Lists(k, f) && ClaimedOnce(f) && Covered(f)
    ensures UniqueResources(k.follows)
  {
    var fs := k.follows;
    forall i, j | 0 <= i < j < |fs| ensures fs[i].resourceType != fs[j].resourceType {
      TwoPlaces(fs, i, j);
      assert multiset(fs)[fs[i]] == f.entries[Fol(fs[i])] && multiset(fs)[fs[j]] == f.entries[Fol(fs[j])];
      if fs[i].resourceType == fs[j].resourceType {
        EntryAlone(f, Fol(fs[i]), Fol(fs[j]), Resource(fs[i].resourceType));
      }
    }
  }

  /** buildEventCatalog. */
  method BuildEventCatalog(cs: seq<Contribution>, src: Sources, prior: Catalog) returns (r: Result)
    ensures r.Ok? <==> Accepts(cs, src, prior)
    ensures r.Ok? ==> CatalogOf(r.catalog, AllFacts(cs, src))
  {
    var byType := IndexPrior(prior.publishes);
    var ok, acc := Merge(cs, src, byType);
    if !ok {
      return Refused;
    }
    ghost var f := AllFacts(cs, src);
    ok := CheckRegistered(acc, f);
    if !ok {
      return Refused;
    }
    AllCovered(cs, src);
    ResourcesUnique(acc.catalog, f);
    RetractionMeaning(acc.catalog, f, prior.follows);
    ok := CheckFollowRetraction(acc.catalog.follows, prior.follows);
    if !ok {
      return Refused;
    }
    var sorted := SortCatalog(acc.catalog);
    r := Ok(sorted);
  }

  method SortCatalog(k: Catalog) returns (r: Catalog)
    ensures multiset(r.publishes) == multiset(k.publishes) && Sorted(r.publishes, PublishLess)
    ensures multiset(r.consumes) == multiset(k.consumes) && Sorted(r.consumes, ConsumeLess)
    ensures multiset(r.follows) == multiset(k.follows) && Sorted(r.follows, FollowLess)
  {
    ComparatorsWeak();
    ConsumeLessTotal();
    TotalIsWeak(ConsumeLess);
    var publishes := Sort(k.publishes, PublishLess);
    var consumes := Sort(k.consumes, ConsumeLess);
    var follows := Sort(k.follows, FollowLess);
    r := Catalog(publishes, consumes, follows);
  }
}
