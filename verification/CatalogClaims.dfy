/** When a set of event contributions is acceptable (composition_events.go), said of the
    contributions themselves: which declaration claims which name, and that no name is claimed
    at two places. */
module CatalogClaims {
  import opened EventCatalog
  import opened CatalogNamespaces

  /** A place in a contribution that claims a name. */
  datatype Part = Header | PublishAt(a: nat) | FollowAt(a: nat) | EventAt(a: nat, x: nat) | ConsumeAt(a: nat)

  predicate Claim(c: Contribution, part: Part, k: Key) {
    match part
    case Header => k == Namespace(c.namespace)
    case PublishAt(a) => a < |c.publishes| && k == EventType(c.publishes[a].typ)
    case FollowAt(a) => a < |c.follows| && k == Resource(c.follows[a].resourceType)
    case EventAt(a, x) =>
      a < |c.follows| && x < |c.follows[a].events| && k == FollowedEvent(c.follows[a].events[x])
    case ConsumeAt(a) =>
      a < |c.consumes| && k == Subscription(c.namespace, c.consumes[a].typ, c.consumes[a].queue)
  }

  predicate ClaimAt(cs: seq<Contribution>, i: nat, part: Part, k: Key) { i < |cs| && Claim(cs[i], part, k) }

  /** No name is claimed at two places. */
  ghost predicate ClaimsApart(cs: seq<Contribution>) {
    forall i, p, j, q, k :: ClaimAt(cs, i, p, k) && ClaimAt(cs, j, q, k) ==> i == j && p == q
  }

  // ----- counting in sums -----

  lemma {:induction false} FoundInSum<T>(s: seq<T>, f: T -> Facts, k: Key) returns (i: nat)
    requires k in Sum(s, f).keys
    ensures i < |s| && k in f(s[i]).keys
  {
    if k in f(s[0]).keys {
      i := 0;
    } else {
      i := FoundInSum(s[1..], f, k);
      i := i + 1;
    }
  }

  lemma {:induction false} TwoInSum<T>(s: seq<T>, f: T -> Facts, k: Key) returns (i: nat, j: nat)
    requires Sum(s, f).keys[k] >= 2
    ensures i <= j < |s| && k in f(s[i]).keys && k in f(s[j]).keys
    ensures i == j ==> f(s[i]).keys[k] >= 2
  {
    if f(s[0]).keys[k] >= 2 {
      i, j := 0, 0;
    } else if k in f(s[0]).keys {
      i := 0;
      j := FoundInSum(s[1..], f, k);
      j := j + 1;
    } else {
      i, j := TwoInSum(s[1..], f, k);
      i, j := i + 1, j + 1;
    }
  }

  lemma {:induction false} NoneInSum<T>(s: seq<T>, f: T -> Facts, k: Key)
    requires forall i :: 0 <= i < |s| ==> f(s[i]).keys[k] == 0
    ensures Sum(s, f).keys[k] == 0
  {
    if s != [] {
      assert forall i :: 0 <= i < |s[1..]| ==> s[1..][i] == s[i+1];
      NoneInSum(s[1..], f, k);
    }
  }

  // ----- one contribution -----

  lemma EventsOnly(events: seq<string>, k: Key)
    requires !k.FollowedEvent?
    ensures Sum(events, EventFacts()).keys[k] == 0
  {
    NoneInSum(events, EventFacts(), k);
  }

  lemma FollowKeys(ns: string, fol: Followable, k: Key)
    ensures FollowFacts(ns)(fol).keys[k] ==
              if k.FollowedEvent? then Sum(fol.events, EventFacts()).keys[k]
              else if k == Resource(fol.resourceType) then 1 else 0
  {
    if !k.FollowedEvent? { EventsOnly(fol.events, k); }
  }

  ghost function OfPublishes(c: Contribution, src: Sources): Facts { Sum(c.publishes, PublishFacts(c.namespace, src)) }

  ghost function OfFollows(c: Contribution): Facts { Sum(c.follows, FollowFacts(c.namespace)) }

  ghost function OfConsumes(c: Contribution): Facts { Sum(c.consumes, ConsumeFacts(c.namespace)) }

  lemma OtherKeys(c: Contribution, src: Sources, k: Key)
    ensures !k.EventType? ==> OfPublishes(c, src).keys[k] == 0
    ensures !k.Resource? && !k.FollowedEvent? ==> OfFollows(c).keys[k] == 0
    ensures !k.Subscription? ==> OfConsumes(c).keys[k] == 0
  {
    if !k.EventType? { NoneInSum(c.publishes, PublishFacts(c.namespace, src), k); }
    if !k.Subscription? { NoneInSum(c.consumes, ConsumeFacts(c.namespace), k); }
    if !k.Resource? && !k.FollowedEvent? {
      forall i | 0 <= i < |c.follows| ensures FollowFacts(c.namespace)(c.follows[i]).keys[k] == 0 {
        FollowKeys(c.namespace, c.follows[i], k);
      }
      NoneInSum(c.follows, FollowFacts(c.namespace), k);
    }
  }

  /** Each kind of name is counted in one list of the contribution. */
  lemma KeyParts(c: Contribution, src: Sources, k: Key)
    ensures ContributionFacts(src)(c).keys[k] ==
              match k
              case Namespace(ns) => if ns == c.namespace then 1 else 0
              case EventType(_) => OfPublishes(c, src).keys[k]
              case Resource(_) => OfFollows(c).keys[k]
              case FollowedEvent(_) => OfFollows(c).keys[k]
              case Subscription(_, _, _) => OfConsumes(c).keys[k]
  {
    OtherKeys(c, src, k);
    assert ContributionFacts(src)(c).keys[k] ==
             multiset{Namespace(c.namespace)}[k] + OfPublishes(c, src).keys[k]
             + OfFollows(c).keys[k] + OfConsumes(c).keys[k];
  }

  lemma FollowClaim(c: Contribution, a: nat, k: Key) returns (p: Part)
    requires a < |c.follows| && k in FollowFacts(c.namespace)(c.follows[a]).keys
    ensures Claim(c, p, k) && (p == FollowAt(a) || (p.EventAt? && p.a == a))
  {
    FollowKeys(c.namespace, c.follows[a], k);
    if k.FollowedEvent? {
      var x := FoundInSum(c.follows[a].events, EventFacts(), k);
      p := EventAt(a, x);
    } else {
      p := FollowAt(a);
    }
  }

  /** A counted name is claimed somewhere. */
  lemma ClaimFound(c: Contribution, src: Sources, k: Key) returns (p: Part)
    requires k in ContributionFacts(src)(c).keys
    ensures Claim(c, p, k)
  {
    KeyParts(c, src, k);
    match k {
      case Namespace(_) => p := Header;
      case EventType(_) =>
        var a := FoundInSum(c.publishes, PublishFacts(c.namespace, src), k);
        p := PublishAt(a);
      case Subscription(_, _, _) =>
        var a := FoundInSum(c.consumes, ConsumeFacts(c.namespace), k);
        p := ConsumeAt(a);
      case _ =>
        var a := FoundInSum(c.follows, FollowFacts(c.namespace), k);
        p := FollowClaim(c, a, k);
    }
  }

  lemma TwoFollowClaims(c: Contribution, k: Key) returns (p: Part, q: Part)
    requires OfFollows(c).keys[k] >= 2
    ensures p != q && Claim(c, p, k) && Claim(c, q, k)
  {
    var a, b := TwoInSum(c.follows, FollowFacts(c.namespace), k);
    if a < b {
      p := FollowClaim(c, a, k);
      q := FollowClaim(c, b, k);
    } else {
      FollowKeys(c.namespace, c.follows[a], k);
      var x, y := TwoInSum(c.follows[a].events, EventFacts(), k);
      p, q := EventAt(a, x), EventAt(a, y);
    }
  }

  /** A name counted twice in a contribution is claimed at two places of it. */
  lemma TwoClaims(c: Contribution, src: Sources, k: Key) returns (p: Part, q: Part)
    requires ContributionFacts(src)(c).keys[k] >= 2
    ensures p != q && Claim(c, p, k) && Claim(c, q, k)
  {
    KeyParts(c, src, k);
    match k {
      case EventType(_) =>
        var a, b := TwoInSum(c.publishes, PublishFacts(c.namespace, src), k);
        p, q := PublishAt(a), PublishAt(b);
      case Subscription(_, _, _) =>
        var a, b := TwoInSum(c.consumes, ConsumeFacts(c.namespace), k);
        p, q := ConsumeAt(a), ConsumeAt(b);
      case _ =>
        p, q := TwoFollowClaims(c, k);
    }
  }

  lemma FollowCounted(c: Contribution, a: nat, p: Part, k: Key)
    requires Claim(c, p, k) && a < |c.follows| && (p == FollowAt(a) || (p.EventAt? && p.a == a))
    ensures k in FollowFacts(c.namespace)(c.follows[a]).keys
  {
    FollowKeys(c.namespace, c.follows[a], k);
    if p.EventAt? { SumAtLeast(c.follows[a].events, p.x, EventFacts(), k); }
  }

  /** And a claimed name is counted, */
  lemma ClaimCounted(c: Contribution, src: Sources, p: Part, k: Key)
    requires Claim(c, p, k)
    ensures k in ContributionFacts(src)(c).keys
  {
    KeyParts(c, src, k);
    match p {
      case Header =>
      case PublishAt(a) => SumAtLeast(c.publishes, a, PublishFacts(c.namespace, src), k);
      case ConsumeAt(a) => SumAtLeast(c.consumes, a, ConsumeFacts(c.namespace), k);
      case FollowAt(a) =>
        FollowCounted(c, a, p, k);
        SumAtLeast(c.follows, a, FollowFacts(c.namespace), k);
      case EventAt(a, _) =>
        FollowCounted(c, a, p, k);
        SumAtLeast(c.follows, a, FollowFacts(c.namespace), k);
    }
  }

  lemma FollowsCountedTwice(c: Contribution, p: Part, q: Part, k: Key)
    requires Claim(c, p, k) && Claim(c, q, k) && p != q
    requires (p.FollowAt? && q.FollowAt? && p.a < q.a)
             || (p.EventAt? && q.EventAt? && (p.a < q.a || (p.a == q.a && p.x < q.x)))
    ensures OfFollows(c).keys[k] >= 2
  {
    FollowCounted(c, p.a, p, k);
    FollowCounted(c, q.a, q, k);
    if p.a < q.a {
      SumAtTwo(c.follows, p.a, q.a, FollowFacts(c.namespace), k);
    } else {
      FollowKeys(c.namespace, c.follows[p.a], k);
      SumAtTwo(c.follows[p.a].events, p.x, q.x, EventFacts(), k);
      SumAtLeast(c.follows, p.a, FollowFacts(c.namespace), k);
    }
  }

  predicate Precedes(p: Part, q: Part) {
    match (p, q)
    case (PublishAt(a), PublishAt(b)) => a < b
    case (FollowAt(a), FollowAt(b)) => a < b
    case (ConsumeAt(a), ConsumeAt(b)) => a < b
    case (EventAt(a, x), EventAt(b, y)) => a < b || (a == b && x < y)
    case _ => false
  }

  lemma OrderedTwice(c: Contribution, src: Sources, p: Part, q: Part, k: Key)
    requires Claim(c, p, k) && Claim(c, q, k) && Precedes(p, q)
    ensures ContributionFacts(src)(c).keys[k] >= 2
  {
    KeyParts(c, src, k);
    match p {
      case PublishAt(a) => SumAtTwo(c.publishes, a, q.a, PublishFacts(c.namespace, src), k);
      case ConsumeAt(a) => SumAtTwo(c.consumes, a, q.a, ConsumeFacts(c.namespace), k);
      case _ => FollowsCountedTwice(c, p, q, k);
    }
  }

  /** twice when it is claimed at two places. */
  lemma CountedTwice(c: Contribution, src: Sources, p: Part, q: Part, k: Key)
    requires Claim(c, p, k) && Claim(c, q, k) && p != q
    ensures ContributionFacts(src)(c).keys[k] >= 2
  {
    assert Precedes(p, q) || Precedes(q, p);
    if Precedes(p, q) { OrderedTwice(c, src, p, q, k); } else { OrderedTwice(c, src, q, p, k); }
  }

  // ----- all contributions -----

  lemma TwoPlacesClaim(cs: seq<Contribution>, src: Sources, k: Key)
    requires AllFacts(cs, src).keys[k] >= 2
    ensures !ClaimsApart(cs)
  {
    var i, j := TwoInSum(cs, ContributionFacts(src), k);
    if i < j {
      var p := ClaimFound(cs[i], src, k);
      var q := ClaimFound(cs[j], src, k);
      assert ClaimAt(cs, i, p, k) && ClaimAt(cs, j, q, k);
    } else {
      var p, q := TwoClaims(cs[i], src, k);
      assert ClaimAt(cs, i, p, k) && ClaimAt(cs, i, q, k);
    }
  }

  lemma ClaimedTwice(cs: seq<Contribution>, src: Sources, i: nat, p: Part, j: nat, q: Part, k: Key)
    requires ClaimAt(cs, i, p, k) && ClaimAt(cs, j, q, k) && (i < j || (i == j && p != q))
    ensures AllFacts(cs, src).keys[k] >= 2
  {
    var f := ContributionFacts(src);
    ClaimCounted(cs[i], src, p, k);
    ClaimCounted(cs[j], src, q, k);
    if i < j {
      SumAtTwo(cs, i, j, f, k);
    } else {
      CountedTwice(cs[i], src, p, q, k);
      SumAtLeast(cs, i, f, k);
    }
  }

  /** Counting names over everything stated comes to exactly this: no namespace, event type,
      resource type, followed event or subscription is claimed at two places. */
  lemma ClaimedOnceMeaning(cs: seq<Contribution>, src: Sources)
    ensures ClaimedOnce(AllFacts(cs, src)) <==> ClaimsApart(cs)
  {
    if !ClaimedOnce(AllFacts(cs, src)) {
      var k :| AllFacts(cs, src).keys[k] > 1;
      TwoPlacesClaim(cs, src, k);
    }
    if !ClaimsApart(cs) {
      var i, p, j, q, k :| ClaimAt(cs, i, p, k) && ClaimAt(cs, j, q, k) && !(i == j && p == q);
      if j < i { ClaimedTwice(cs, src, j, q, i, p, k); } else { ClaimedTwice(cs, src, i, p, j, q, k); }
    }
  }
}
