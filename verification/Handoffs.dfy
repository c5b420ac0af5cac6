/** The handoffs of a plan (gitops.go): one statement per managed service, appended while a
    Go map is ranged over and then sorted by an unstable sort. */
module Handoffs {
  import opened Ordering
  import opened ManagedServices

  /** managedServiceHandoff: what an environment states about one managed service. */
  datatype Handoff = Handoff(
    service: string, kind: string, externalName: string, authMode: string,
    egressNamespace: string, instance: string, secretNames: seq<string>)

  function SecretNames(refs: seq<SecretRef>): seq<string> {
    if refs == [] then [] else [refs[0].name] + SecretNames(refs[1..])
  }

  /** Only a mode other than the default is stated. */
  function HandoffFor(service: string, c: ManagedConfig): Handoff {
    Handoff(service, c.kind, c.externalName, if c.authMode == "password" then "" else c.authMode,
      c.egressNamespace, c.instance, SecretNames(c.secretRefs))
  }

  function HandoffSet(managed: map<string, ManagedConfig>): set<Handoff> {
    set s | s in managed :: HandoffFor(s, managed[s])
  }

  predicate HandoffLess(a: Handoff, b: Handoff) { Less(a.service, b.service) }

  /** The handoffs of these services, each once, as any sort by service may leave them. */
  ghost predicate HandoffsListed(hs: seq<Handoff>, managed: map<string, ManagedConfig>) {
    multiset(hs) == multiset(HandoffSet(managed)) && Sorted(hs, HandoffLess)
  }

  /** The keys of a map, in some order. */
  ghost function Enumerate(keys: set<string>): (r: seq<string>)
    ensures multiset(r) == multiset(keys)
  {
    if keys == {} then []
    else
      var k :| k in keys;
      assert multiset(keys) == multiset(keys - {k}) + multiset{k};
      [k] + Enumerate(keys - {k})
  }

  function HandoffsOf(names: seq<string>, managed: map<string, ManagedConfig>): (r: seq<Handoff>)
    requires forall n :: n in names ==> n in managed
    ensures |r| == |names| && forall i :: 0 <= i < |names| ==> r[i] == HandoffFor(names[i], managed[names[i]])
  {
    seq(|names|, i requires 0 <= i < |names| => HandoffFor(names[i], managed[names[i]]))
  }

  lemma SortedKeyMembers(managed: map<string, ManagedConfig>)
    ensures forall n :: n in SortStrings(Enumerate(managed.Keys)) <==> n in managed
  {
    SortStringsSorts(Enumerate(managed.Keys));
    forall n ensures n in SortStrings(Enumerate(managed.Keys)) <==> n in managed {
      assert n in SortStrings(Enumerate(managed.Keys)) <==> n in multiset(managed.Keys);
    }
  }

  /** The handoffs in the order of their sorted service names. */
  ghost function HandoffList(managed: map<string, ManagedConfig>): seq<Handoff> {
    SortedKeyMembers(managed);
    HandoffsOf(SortStrings(Enumerate(managed.Keys)), managed)
  }

  lemma {:induction false} HandoffsOfMultiset(names: seq<string>, keys: set<string>, managed: map<string,
                                              ManagedConfig>)
    requires multiset(names) == multiset(keys) && keys <= managed.Keys
    requires forall n :: n in names ==> n in managed
    ensures multiset(HandoffsOf(names, managed)) == multiset(set s | s in keys :: HandoffFor(s, managed[s]))
    decreases |names|
  {
    if names == [] {
      assert |multiset(keys)| == 0;
    } else {
      var n, rest := names[0], keys - {names[0]};
      assert n in multiset(keys);
      WithoutOne(names, keys);
      forall m | m in names[1..] ensures m in managed { assert m in names; }
      HandoffsOfMultiset(names[1..], rest, managed);
      assert HandoffsOf(names, managed) == [HandoffFor(n, managed[n])] + HandoffsOf(names[1..], managed);
      AddHandoff(rest, n, managed);
    }
  }

  lemma WithoutOne(names: seq<string>, keys: set<string>)
    requires names != [] && multiset(names) == multiset(keys)
    ensures multiset(names[1..]) == multiset(keys - {names[0]})
  {
    TailMultiset(names);
    assert names[0] in multiset(keys);
    forall x ensures multiset(names[1..])[x] == multiset(keys - {names[0]})[x] {
      assert multiset(keys)[x] == if x in keys then 1 else 0;
    }
  }

  lemma AddHandoff(done: set<string>, n: string, managed: map<string, ManagedConfig>)
    requires done <= managed.Keys && n in managed && n !in done
    ensures multiset(set s | s in done + {n} :: HandoffFor(s, managed[s]))
         == multiset(set s | s in done :: HandoffFor(s, managed[s])) + multiset{HandoffFor(n, managed[n])}
  {
    var before := set s | s in done :: HandoffFor(s, managed[s]);
    assert HandoffFor(n, managed[n]) !in before;
    assert (set s | s in done + {n} :: HandoffFor(s, managed[s])) == before + {HandoffFor(n, managed[n])};
  }

  lemma HandoffLessWeak()
    ensures StrictWeak(HandoffLess)
  {
    LessStrictTotal();
    TotalIsWeak(Less);
  }

  lemma HandoffListIsListed(managed: map<string, ManagedConfig>)
    ensures HandoffsListed(HandoffList(managed), managed)
  {
    var names := SortStrings(Enumerate(managed.Keys));
    SortedKeyMembers(managed);
    SortStringsSorts(Enumerate(managed.Keys));
    HandoffsOfMultiset(names, managed.Keys, managed);
    forall i, j | 0 <= i < j < |names| ensures !HandoffLess(HandoffList(managed)[j], HandoffList(managed)[i]) {
      assert !Less(names[j], names[i]);
    }
  }

  lemma HandoffsSeparate(hs: seq<Handoff>, managed: map<string, ManagedConfig>)
    requires multiset(hs) == multiset(HandoffSet(managed))
    ensures Separates(hs, HandoffLess)
  {
    forall i, j | 0 <= i < |hs| && 0 <= j < |hs| && !HandoffLess(hs[i], hs[j]) && !HandoffLess(hs[j], hs[i])
      ensures hs[i] == hs[j]
    {
      if hs[i].service != hs[j].service { LessTotal(hs[i].service, hs[j].service); }
      assert hs[i] in multiset(hs) && hs[j] in multiset(hs);
      assert hs[i] in HandoffSet(managed) && hs[j] in HandoffSet(managed);
    }
  }

  /** Whatever order the map was met in, and whatever the sort does with it, the list is one. */
  lemma HandoffsUnique(hs: seq<Handoff>, managed: map<string, ManagedConfig>)
    ensures HandoffsListed(hs, managed) <==> hs == HandoffList(managed)
  {
    HandoffListIsListed(managed);
    if HandoffsListed(hs, managed) {
      HandoffsSeparate(hs, managed);
      SortedUnique(hs, HandoffList(managed), HandoffLess);
    }
  }

  /** Each managed service has one handoff, carrying its stored declaration, and the services
      come in strictly ascending order. */
  lemma HandoffPerService(managed: map<string, ManagedConfig>)
    ensures var hs := HandoffList(managed);
            && (forall i :: 0 <= i < |hs| ==>
                  hs[i].service in managed && hs[i] == HandoffFor(hs[i].service, managed[hs[i].service]))
            && (forall s :: s in managed ==> HandoffFor(s, managed[s]) in hs)
            && (forall i, j :: 0 <= i < j < |hs| ==> Less(hs[i].service, hs[j].service))
  {
    var hs := HandoffList(managed);
    SortedKeyMembers(managed);
    HandoffListIsListed(managed);
    forall i, j | 0 <= i < j < |hs| ensures Less(hs[i].service, hs[j].service) {
      assert !HandoffLess(hs[j], hs[i]);
      SameHandoff(hs, i, j, managed);
      LessTotal(hs[i].service, hs[j].service);
    }
    forall s | s in managed ensures HandoffFor(s, managed[s]) in hs {
      assert HandoffFor(s, managed[s]) in multiset(HandoffSet(managed));
      assert HandoffFor(s, managed[s]) in multiset(hs);
    }
  }

  lemma SameHandoff(hs: seq<Handoff>, i: nat, j: nat, managed: map<string, ManagedConfig>)
    requires multiset(hs) == multiset(HandoffSet(managed)) && i < j < |hs|
    ensures hs[i].service != hs[j].service
  {
    assert hs[i] in multiset(hs) && hs[j] in multiset(hs);
    assert hs[i] in HandoffSet(managed) && hs[j] in HandoffSet(managed);
    TwoPlaces(hs, i, j);
  }

  // ----- as it runs -----

  lemma StoreHandoff(managed: map<string, ManagedConfig>, s: string, c: ManagedConfig)
    requires s !in managed
    ensures multiset(HandoffSet(managed[s := c])) == multiset(HandoffSet(managed)) + multiset{HandoffFor(s, c)}
  {
    var h, after := HandoffFor(s, c), managed[s := c];
    assert h !in HandoffSet(managed);
    forall x ensures x in HandoffSet(after) <==> x in HandoffSet(managed) + {h} {
      if x in HandoffSet(managed) {
        var k :| k in managed && x == HandoffFor(k, managed[k]);
        assert k in after && after[k] == managed[k];
      }
      if x == h { assert s in after && after[s] == c; }
    }
    assert HandoffSet(after) == HandoffSet(managed) + {h};
  }

  method BuildHandoff(service: string, c: ManagedConfig) returns (h: Handoff)
    ensures h == HandoffFor(service, c)
  {
    var mode := if c.authMode != "password" then c.authMode else "";
    var names: seq<string> := [];
    assert c.secretRefs[0..] == c.secretRefs;
    for i := 0 to |c.secretRefs|
      invariant names + SecretNames(c.secretRefs[i..]) == SecretNames(c.secretRefs)
    {
      assert c.secretRefs[i..][0] == c.secretRefs[i] && c.secretRefs[i..][1..] == c.secretRefs[i+1..];
      names := names + [c.secretRefs[i].name];
    }
    assert names + [] == names;
    return Handoff(service, c.kind, c.externalName, mode, c.egressNamespace, c.instance, names);
  }

  /** slices.SortFunc by service. */
  method SortHandoffs(hs: seq<Handoff>, ghost managed: map<string, ManagedConfig>) returns (r: seq<Handoff>)
    requires multiset(hs) == multiset(HandoffSet(managed))
    ensures r == HandoffList(managed)
  {
    HandoffLessWeak();
    r := Sort(hs, HandoffLess);
    HandoffsUnique(r, managed);
  }
}
