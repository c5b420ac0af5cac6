/** When two contributions can own one resource type (composition_events.go): namespaces may
    hold dots, so ownership by prefix is not exclusive, and the duplicate check decides. */
module CatalogNamespaces {
  import opened EventCatalog

  /** The ownership test of followable resource types. */
  predicate Owns(ns: string, resourceType: string) { ns + "." <= resourceType }

  lemma OwnerIsPrefix(ns: string, s: string)
    ensures Owns(ns, s) <==> |ns| < |s| && s[..|ns|] == ns && s[|ns|] == '.'
  {
    assert (ns + ".")[..|ns|] == ns && (ns + ".")[|ns|] == '.';
    if |ns| < |s| && s[..|ns|] == ns && s[|ns|] == '.' { assert s[..|ns|+1] == ns + "."; }
  }

  lemma ExtendedId(ns: string)
    requires IsLogicalId(ns)
    ensures IsLogicalId(ns + ".a")
  {
    var s := ns + ".a";
    assert s[0] == ns[0];
    forall i | 0 <= i < |s| ensures LowerAlnum(s[i]) || IdSeparator(s[i]) {
      if i < |ns| { assert s[i] == ns[i]; }
    }
    forall i | 0 <= i < |s| && IdSeparator(s[i]) ensures i + 1 < |s| && LowerAlnum(s[i+1]) {
      if i < |ns| { assert s[i] == ns[i] && s[i+1] == ns[i+1]; }
    }
  }

  lemma NestedShare(a: string, b: string)
    requires IsLogicalId(b) && Owns(a, b)
    ensures exists r :: IsLogicalId(r) && Owns(a, r) && Owns(b, r)
  {
    var r := b + ".a";
    ExtendedId(b);
    assert r[..|a|+1] == b[..|a|+1] == a + ".";
    assert r[..|b|+1] == b + ".";
    assert IsLogicalId(r) && Owns(a, r) && Owns(b, r);
  }

  lemma SharedNests(a: string, b: string, r: string)
    requires Owns(a, r) && Owns(b, r) && |a| < |b|
    ensures Owns(a, b)
  {
    OwnerIsPrefix(a, r);
    OwnerIsPrefix(b, r);
    OwnerIsPrefix(a, b);
    assert b == r[..|b|];
    assert b[..|a|] == r[..|a|] && b[|a|] == r[|a|];
  }

  /** Two namespaces can own one resource type exactly when one is a dotted extension of
      the other. */
  lemma OwnersNest(a: string, b: string)
    requires IsLogicalId(a) && IsLogicalId(b) && a != b
    ensures (exists r :: IsLogicalId(r) && Owns(a, r) && Owns(b, r)) <==> Owns(a, b) || Owns(b, a)
  {
    if r :| IsLogicalId(r) && Owns(a, r) && Owns(b, r) {
      if |a| < |b| { SharedNests(a, b, r); } else if |b| < |a| { SharedNests(b, a, r); } else {
        OwnerIsPrefix(a, r);
        OwnerIsPrefix(b, r);
        assert false;
      }
    }
    if Owns(a, b) { NestedShare(a, b); }
    if Owns(b, a) { NestedShare(b, a); }
  }

  /** Such a pair exists. */
  lemma NestedNamespaces()
    ensures IsLogicalId("a") && IsLogicalId("a.b") && IsLogicalId("a.b.c")
    ensures Owns("a", "a.b.c") && Owns("a.b", "a.b.c")
  {
    assert "a.b.c"[..2] == "a" + "." && "a.b.c"[..4] == "a.b" + ".";
  }

  // ----- and is refused -----

  lemma {:induction false} SumAtLeast<T>(s: seq<T>, i: nat, f: T -> Facts, k: Key)
    requires i < |s|
    ensures Sum(s, f).keys[k] >= f(s[i]).keys[k]
  {
    if i > 0 {
      assert s[1..][i-1] == s[i];
      SumAtLeast(s[1..], i - 1, f, k);
    }
  }

  lemma {:induction false} SumAtTwo<T>(s: seq<T>, i: nat, j: nat, f: T -> Facts, k: Key)
    requires i < j < |s| && k in f(s[i]).keys && k in f(s[j]).keys
    ensures Sum(s, f).keys[k] >= 2
  {
    assert s[1..][j-1] == s[j];
    if i > 0 {
      assert s[1..][i-1] == s[i];
      SumAtTwo(s[1..], i - 1, j - 1, f, k);
    } else {
      SumAtLeast(s[1..], j - 1, f, k);
    }
  }

  lemma FollowIsClaimed(c: Contribution, src: Sources, fol: Followable)
    requires fol in c.follows
    ensures Resource(fol.resourceType) in ContributionFacts(src)(c).keys
  {
    var i :| 0 <= i < |c.follows| && c.follows[i] == fol;
    SumAtLeast(c.follows, i, FollowFacts(c.namespace), Resource(fol.resourceType));
  }

  /** Two contributions that declare one resource type are refused, whatever else they state. */
  lemma SharedResourceRefused(cs: seq<Contribution>, src: Sources, prior: Catalog, i: nat, j: nat, f: Followable,
                              g: Followable)
    requires i < j < |cs| && f in cs[i].follows && g in cs[j].follows && f.resourceType == g.resourceType
    ensures !ClaimedOnce(AllFacts(cs, src)) && !Accepts(cs, src, prior)
  {
    var k := Resource(f.resourceType);
    FollowIsClaimed(cs[i], src, f);
    FollowIsClaimed(cs[j], src, g);
    SumAtTwo(cs, i, j, ContributionFacts(src), k);
    assert AllFacts(cs, src).keys[k] >= 2;
  }
}
