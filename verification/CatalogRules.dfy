/** The rules one event contribution must obey on its own (composition_events.go, isReserved of
    composition.go), each as the refusals that enforce it. */
module CatalogRules {
  import opened Text
  import opened EventCatalog
  import opened CatalogOrder
  import opened Patterns
  import opened NamePatterns
  import opened PartitionKeys

  /** `name` is `head` with something behind it. */
  ghost predicate Extends(name: string, head: string) { exists rest :: name == head + rest }

  lemma ExtendsMeaning(name: string, head: string)
    ensures Extends(name, head) <==> head <= name
  {
    if head <= name { assert name == head + name[|head|..]; }
  }

  // ----- reserved namespaces -----

  /** A reserved namespace covers itself and what lies under it, at any of three separators;
      one that ends in a dash covers all that begins with it. */
  ghost predicate Covers(ns: string, value: string) {
    || value == ns
    || (exists c :: c in {'/', '.', ':'} && Extends(value, ns + [c]))
    || ((exists head :: ns == head + "-") && Extends(value, ns))
  }

  lemma ReservedMeaning(reserved: seq<string>, value: string)
    ensures IsReserved(reserved, value) <==> exists ns :: ns in reserved && Covers(ns, value)
  {
    forall ns ensures ReservedBy(ns, value) <==> Covers(ns, value) { ReservedByMeaning(ns, value); }
    if i :| 0 <= i < |reserved| && ReservedBy(reserved[i], value) { assert reserved[i] in reserved; }
    if ns :| ns in reserved && Covers(ns, value) {
      var i :| 0 <= i < |reserved| && reserved[i] == ns;
      assert ReservedBy(reserved[i], value);
    }
  }

  lemma ReservedByMeaning(ns: string, value: string)
    ensures ReservedBy(ns, value) <==> Covers(ns, value)
  {
    ExtendsMeaning(value, ns);
    ExtendsMeaning(value, ns + ['/']);
    ExtendsMeaning(value, ns + ['.']);
    ExtendsMeaning(value, ns + [':']);
    assert ns + "/" == ns + ['/'] && ns + "." == ns + ['.'] && ns + ":" == ns + [':'];
    if ns != "" && ns[|ns|-1] == '-' { assert ns == ns[..|ns|-1] + "-"; }
    if ReservedBy(ns, value) && value != ns && !(ns <= value && ns != "" && ns[|ns|-1] == '-') {
      assert exists c :: c in {'/', '.', ':'} && Extends(value, ns + [c]);
    }
  }

  // ----- published types -----

  /** The last entry of a type is the one a new declaration of it is compared with. */
  predicate LastOfType(prior: seq<CatalogPublish>, i: int, typ: string) {
    0 <= i < |prior| && prior[i].typ == typ && forall j :: i < j < |prior| ==> prior[j].typ != typ
  }

  predicate LastOfNumber(fields: seq<Field>, i: int, number: int) {
    0 <= i < |fields| && fields[i].number == number && forall j :: i < j < |fields| ==> fields[j].number != number
  }

  lemma {:induction false} PriorMeaning(prior: seq<CatalogPublish>, typ: string, p: CatalogPublish)
    ensures typ in PriorByType(prior) && PriorByType(prior)[typ] == p <==>
              exists i :: LastOfType(prior, i, typ) && prior[i] == p
  {
    if prior != [] {
      var n := |prior| - 1;
      PriorMeaning(prior[..n], typ, p);
      if prior[n].typ == typ {
        assert LastOfType(prior, n, typ);
      } else {
        forall i ensures LastOfType(prior, i, typ) <==> LastOfType(prior[..n], i, typ) {
          if LastOfType(prior[..n], i, typ) { assert prior[..n][i] == prior[i]; }
        }
      }
    }
  }

  lemma {:induction false} NumberMeaning(fields: seq<Field>, number: int, typ: string)
    ensures number in ByNumber(fields) && ByNumber(fields)[number].typ == typ <==>
              exists i :: LastOfNumber(fields, i, number) && fields[i].typ == typ
  {
    if fields != [] {
      var n := |fields| - 1;
      NumberMeaning(fields[..n], number, typ);
      if fields[n].number == number {
        assert LastOfNumber(fields, n, number);
      } else {
        forall i ensures LastOfNumber(fields, i, number) <==> LastOfNumber(fields[..n], i, number) {
          if LastOfNumber(fields[..n], i, number) { assert fields[..n][i] == fields[i]; }
        }
      }
    }
  }

  /** Every field of the compared entry still has its number and type. */
  ghost predicate KeepsFields(was: CatalogPublish, fields: seq<Field>) {
    forall f :: f in was.fields ==> exists i :: LastOfNumber(fields, i, f.number) && fields[i].typ == f.typ
  }

  lemma KeepsFieldsMeaning(was: CatalogPublish, fields: seq<Field>)
    ensures KeepsFields(was, fields) <==> forall i :: 0 <= i < |was.fields| ==> KeepsField(was.fields[i], fields)
  {
    forall f
      ensures KeepsField(f, fields) <==> exists i :: LastOfNumber(fields, i, f.number) && fields[i].typ == f.typ
    {
      NumberMeaning(fields, f.number, f.typ);
    }
    if forall i :: 0 <= i < |was.fields| ==> KeepsField(was.fields[i], fields) {
      forall f | f in was.fields ensures KeepsField(f, fields) {
        var i :| 0 <= i < |was.fields| && was.fields[i] == f;
      }
    }
    if KeepsFields(was, fields) {
      forall i | 0 <= i < |was.fields| ensures KeepsField(was.fields[i], fields) { assert was.fields[i] in was.fields; }
    }
  }

  /** checkBreakingChange refuses exactly a type whose last entry has this major and a field
      that is gone or re-typed. */
  lemma BreakingMeaning(typ: string, major: int, fields: seq<Field>, prior: seq<CatalogPublish>)
    ensures NotBreaking(typ, major, fields, PriorByType(prior)) <==>
              forall i :: LastOfType(prior, i, typ) && prior[i].major == major ==> KeepsFields(prior[i], fields)
  {
    forall p ensures KeepsFields(p, fields) <==> forall i :: 0 <= i < |p.fields| ==> KeepsField(p.fields[i], fields) {
      KeepsFieldsMeaning(p, fields);
    }
    if typ in PriorByType(prior) {
      PriorMeaning(prior, typ, PriorByType(prior)[typ]);
    }
    forall i | LastOfType(prior, i, typ) ensures typ in PriorByType(prior) && PriorByType(prior)[typ] == prior[i] {
      PriorMeaning(prior, typ, prior[i]);
    }
  }

  lemma PublishRules(ns: string, p: Published, src: Sources, prior: map<string, CatalogPublish>)
    ensures PublishOk(ns, p, src, prior) <==>
              && Matches(EVENT_TYPE, p.typ) && Extends(p.typ, ns + ".")
              && p.visibility in {"internal", "tenant", "external"}
              && (p.partition == "" || (AllKnown(p.partition) && Tenant in Pieces(p.partition)))
              && src.protos(p.schema).Some?
              && NotBreaking(p.typ, Major(p.schema), src.protos(p.schema).value, prior)
  {
    EventTypePattern(p.typ);
    ExtendsMeaning(p.typ, ns + ".");
    TemplateMeaning(p.partition);
  }

  // ----- followable resources and consumes -----

  lemma FollowRules(ns: string, publishes: seq<Published>, f: Followable)
    ensures FollowOk(ns, publishes, f) <==>
              && Matches(LOGICAL_ID, f.resourceType) && Extends(f.resourceType, ns + ".") && f.events != []
              && forall e :: e in f.events ==>
                   exists p :: p in publishes && p.typ == e && p.visibility == "tenant"
  {
    LogicalIdPattern(f.resourceType);
    ExtendsMeaning(f.resourceType, ns + ".");
    TenantEventsEach(publishes, f.events);
    forall e
      ensures TenantEvent(publishes, e) <==> exists p :: p in publishes && p.typ == e && p.visibility == "tenant"
    {
      if p :| p in publishes && p.typ == e && p.visibility == "tenant" {
        var i :| 0 <= i < |publishes| && publishes[i] == p;
      }
    }
  }

  lemma ConsumeRules(c: Contribution, src: Sources, d: Consumed)
    ensures ConsumeOk(c, src, d) <==>
              && d.delivery in {"ordered", "unordered"} && d.queue in c.queues
              && (c.baseOwned || forall ns :: ns in src.reserved ==> !Covers(ns, Cut(d.typ, '.').0))
  {
    ReservedMeaning(src.reserved, Cut(d.typ, '.').0);
  }

  lemma HeaderRules(c: Contribution, src: Sources)
    ensures HeaderOk(c, src) <==>
              && c.schema == "codefly/saas/events-contribution/v1" && Matches(LOGICAL_ID, c.namespace)
              && (forall q :: q in c.queues ==> Matches(LOGICAL_ID, q))
              && ((c.baseOwned && c.follows == []) || forall ns :: ns in src.reserved ==> !Covers(ns, c.namespace))
  {
    ReservedMeaning(src.reserved, c.namespace);
    forall s ensures IsLogicalId(s) <==> Matches(LOGICAL_ID, s) { LogicalIdPattern(s); }
    var queues := c.queues;
    assert (forall q :: q in queues ==> IsLogicalId(q)) <==> (forall i :: 0 <= i < |queues| ==> IsLogicalId(queues[i]));
  }
}
