/** renderAsyncAPI: the AsyncAPI document a catalog is projected to, with its references
    kept as the strings the document holds. */
module AsyncApi {
  import opened Text
  import opened Ordering
  import opened EventCatalog
  import opened EventBuild
  import opened CatalogOrder
  import opened CatalogRuns

  // ----- the document -----

  datatype Prop = Scalar(typ: string, format: string) | Array(items: Prop) | Object(description: string)

  type Schema = map<string, Prop>

  datatype Message = Message(name: string, payload: string)
  datatype Channel = Channel(
    address: string, envelope: string, visibility: string, partition: string, retention: string, followable: string)
  datatype Operation = Operation(action: string, channel: string, title: string, summary: string)

  datatype Doc = Doc(
    channels: map<string, Channel>, operations: map<string, Operation>,
    messages: map<string, Message>, schemas: map<string, Schema>)

  datatype Rendered = Document(doc: Doc) | Collision

  const SCHEMAS := "#/components/schemas/"
  const MESSAGES := "#/components/messages/"
  const CHANNELS := "#/channels/"
  const REPEATED := "repeated "

  /** protoTypeToJSONSchema. */
  function JsonSchema(protoType: string): Prop
    decreases |protoType|
  {
    if REPEATED <= protoType then Array(JsonSchema(protoType[9..]))
    else if protoType == "string" then Scalar("string", "")
    else if protoType == "bytes" then Scalar("string", "byte")
    else if protoType == "bool" then Scalar("boolean", "")
    else if protoType in {"double", "float"} then Scalar("number", "")
    else if protoType in {"int32", "int64", "uint32", "uint64", "sint32", "sint64",
                          "fixed32", "fixed64", "sfixed32", "sfixed64"} then Scalar("integer", "")
    else if protoType == "google.protobuf.Timestamp" then Scalar("string", "date-time")
    else Object(protoType)
  }

  /** eventEnvelopeSchema: one property per field name; a later field of the same name wins. */
  function Envelope(fields: seq<Field>): Schema {
    if fields == [] then map[]
    else Envelope(fields[..|fields|-1])[fields[|fields|-1].name := JsonSchema(fields[|fields|-1].typ)]
  }

  method EventEnvelopeSchema(fields: seq<Field>) returns (schema: Schema)
    ensures schema == Envelope(fields)
  {
    schema := map[];
    for i := 0 to |fields|
      invariant schema == Envelope(fields[..i])
    {
      assert fields[..i+1][..i] == fields[..i];
      schema := schema[fields[i].name := JsonSchema(fields[i].typ)];
    }
    assert fields[..|fields|] == fields;
  }

  predicate SafeChar(c: char) {
    'A' <= c <= 'Z' || 'a' <= c <= 'z' || '0' <= c <= '9' || c == '.' || c == '_' || c == '-'
  }

  /** sanitizeComponentKey. */
  function Sanitize(id: string): (r: string)
    ensures |r| == |id| && forall i :: 0 <= i < |r| ==> SafeChar(r[i])
    ensures forall i :: 0 <= i < |id| && SafeChar(id[i]) ==> r[i] == id[i]
  {
    seq(|id|, i requires 0 <= i < |id| => if SafeChar(id[i]) then id[i] else '_')
  }

  // ----- the projection -----

  function MessageOf(p: CatalogPublish): Message { Message(p.typ, SCHEMAS + Sanitize(p.schema)) }

  function ChannelOf(p: CatalogPublish, index: map<string, string>): Channel {
    Channel(p.typ, MESSAGES + Sanitize(p.typ), p.visibility, p.partition, p.retention,
      if p.typ in index then index[p.typ] else "")
  }

  function SendKey(typ: string): string { "send:" + typ }

  function SendOf(p: CatalogPublish): Operation {
    Operation("send", CHANNELS + p.typ, p.namespace + " publishes " + p.typ, "")
  }

  function ReceiveParts(d: CatalogConsume): seq<string> { ["receive", d.typ, d.subscriber, d.queue] }

  function ReceiveKey(d: CatalogConsume): string { Join(ReceiveParts(d), ':') }

  function ReceiveOf(d: CatalogConsume): Operation {
    Operation("receive", CHANNELS + d.typ, d.subscriber + " consumes " + d.typ,
      "queue " + d.queue + ", delivery " + d.delivery)
  }

  function Init<T>(s: seq<T>): seq<T> requires s != [] { s[..|s|-1] }
  function Last<T>(s: seq<T>): T requires s != [] { s[|s|-1] }

  function Schemas(ps: seq<CatalogPublish>): map<string, Schema> {
    if ps == [] then map[]
    else
      var sofar := Schemas(Init(ps));
      if Sanitize(Last(ps).schema) in sofar then sofar
      else sofar[Sanitize(Last(ps).schema) := Envelope(Last(ps).fields)]
  }

  function Messages(ps: seq<CatalogPublish>): map<string, Message> {
    if ps == [] then map[] else Messages(Init(ps))[Sanitize(Last(ps).typ) := MessageOf(Last(ps))]
  }

  function Channels(ps: seq<CatalogPublish>, index: map<string, string>): map<string, Channel> {
    if ps == [] then map[] else Channels(Init(ps), index)[Last(ps).typ := ChannelOf(Last(ps), index)]
  }

  function Sends(ps: seq<CatalogPublish>): map<string, Operation> {
    if ps == [] then map[] else Sends(Init(ps))[SendKey(Last(ps).typ) := SendOf(Last(ps))]
  }

  function Operations(ps: seq<CatalogPublish>, ds: seq<CatalogConsume>): map<string, Operation> {
    if ds == [] then Sends(ps) else Operations(ps, Init(ds))[ReceiveKey(Last(ds)) := ReceiveOf(Last(ds))]
  }

  function DocOf(k: Catalog): Doc {
    Doc(Channels(k.publishes, FollowIndex(k.follows)), Operations(k.publishes, k.consumes),
      Messages(k.publishes), Schemas(k.publishes))
  }

  predicate Collides(p: CatalogPublish, q: CatalogPublish) {
    Sanitize(p.schema) == Sanitize(q.schema) && p.schema != q.schema
  }

  predicate NoCollision(ps: seq<CatalogPublish>) {
    forall i, j :: 0 <= i < |ps| && 0 <= j < |ps| ==> !Collides(ps[i], ps[j])
  }

  lemma Prefixes<T>(s: seq<T>, i: nat)
    requires i < |s|
    ensures Init(s[..i+1]) == s[..i] && Last(s[..i+1]) == s[i]
  {
  }

  /** schemaKeySource: which reference each component key was made from. */
  function SourceOf(ps: seq<CatalogPublish>): map<string, string> {
    if ps == [] then map[]
    else
      var sofar := SourceOf(Init(ps));
      if Sanitize(Last(ps).schema) in sofar then sofar else sofar[Sanitize(Last(ps).schema) := Last(ps).schema]
  }

  predicate Agrees(sources: map<string, string>, p: CatalogPublish) {
    Sanitize(p.schema) in sources ==> sources[Sanitize(p.schema)] == p.schema
  }

  /** Reading the catalog in order, no reference meets a key made from another. */
  predicate Clean(ps: seq<CatalogPublish>) {
    ps == [] || (Clean(Init(ps)) && Agrees(SourceOf(Init(ps)), Last(ps)))
  }

  lemma {:induction false} SourceKeys(ps: seq<CatalogPublish>)
    ensures SourceOf(ps).Keys == Schemas(ps).Keys
  {
    if ps != [] { SourceKeys(Init(ps)); }
  }

  lemma {:induction false} CleanPrefix(ps: seq<CatalogPublish>, i: nat)
    requires Clean(ps) && i <= |ps|
    ensures Clean(ps[..i])
  {
    if i == |ps| { assert ps[..i] == ps; } else {
      CleanPrefix(Init(ps), i);
      assert Init(ps)[..i] == ps[..i];
    }
  }

  lemma {:induction false} SourceRecorded(ps: seq<CatalogPublish>, i: nat)
    requires Clean(ps) && i < |ps|
    ensures Sanitize(ps[i].schema) in SourceOf(ps) && SourceOf(ps)[Sanitize(ps[i].schema)] == ps[i].schema
  {
    if i < |ps| - 1 { SourceRecorded(Init(ps), i); }
  }

  lemma {:induction false} SourceCited(ps: seq<CatalogPublish>, key: string) returns (i: nat)
    requires key in SourceOf(ps)
    ensures i < |ps| && Sanitize(ps[i].schema) == key && ps[i].schema == SourceOf(ps)[key]
  {
    if key in SourceOf(Init(ps)) { i := SourceCited(Init(ps), key); } else { i := |ps| - 1; }
  }

  lemma {:induction false} CleanMeansNoCollision(ps: seq<CatalogPublish>)
    ensures Clean(ps) <==> NoCollision(ps)
  {
    if Clean(ps) {
      forall i, j | 0 <= i < |ps| && 0 <= j < |ps| ensures !Collides(ps[i], ps[j]) {
        SourceRecorded(ps, i);
        SourceRecorded(ps, j);
      }
    }
    if NoCollision(ps) && ps != [] {
      assert NoCollision(Init(ps));
      CleanMeansNoCollision(Init(ps));
      var key := Sanitize(Last(ps).schema);
      if key in SourceOf(Init(ps)) {
        var i := SourceCited(Init(ps), key);
        assert !Collides(ps[i], ps[|ps|-1]);
      }
    }
  }

  function PublishedPart(ps: seq<CatalogPublish>, index: map<string, string>): Doc {
    Doc(Channels(ps, index), Sends(ps), Messages(ps), Schemas(ps))
  }

  method RenderPublishes(ps: seq<CatalogPublish>, index: map<string, string>) returns (r: Rendered)
    ensures r.Document? <==> Clean(ps)
    ensures r.Document? ==> r.doc == PublishedPart(ps, index)
  {
    var doc := Doc(map[], map[], map[], map[]);
    var sources: map<string, string> := map[];
    for i := 0 to |ps|
      invariant Clean(ps[..i]) && sources == SourceOf(ps[..i])
      invariant doc == PublishedPart(ps[..i], index)
    {
      Prefixes(ps, i);
      var p := ps[i];
      var key := Sanitize(p.schema);
      if !Agrees(sources, p) {
        if Clean(ps) { CleanPrefix(ps, i + 1); }
        return Collision;
      }
      SourceKeys(ps[..i]);
      if key !in sources {
        sources := sources[key := p.schema];
        var schema := EventEnvelopeSchema(p.fields);
        doc := doc.(schemas := doc.schemas[key := schema]);
      }
      doc := Doc(doc.channels[p.typ := ChannelOf(p, index)], doc.operations[SendKey(p.typ) := SendOf(p)],
        doc.messages[Sanitize(p.typ) := MessageOf(p)], doc.schemas);
    }
    assert ps[..|ps|] == ps;
    r := Document(doc);
  }

  /** renderAsyncAPI. */
  method RenderAsyncApi(k: Catalog) returns (r: Rendered)
    ensures r.Document? <==> NoCollision(k.publishes)
    ensures r.Document? ==> r.doc == DocOf(k)
  {
    var index := FollowableIndex(k);
    CleanMeansNoCollision(k.publishes);
    r := RenderPublishes(k.publishes, index);
    if r.Collision? {
      return;
    }
    var doc := r.doc;
    var ds := k.consumes;
    for i := 0 to |ds|
      invariant doc == DocOf(k).(operations := Operations(k.publishes, ds[..i]))
    {
      Prefixes(ds, i);
      doc := doc.(operations := doc.operations[ReceiveKey(ds[i]) := ReceiveOf(ds[i])]);
    }
    assert ds[..|ds|] == ds;
    r := Document(doc);
  }

  // ----- a composed catalog's names -----

  ghost predicate NamesOk(k: Catalog) {
    && (forall i :: 0 <= i < |k.publishes| ==> IsEventType(k.publishes[i].typ))
    && (forall i :: 0 <= i < |k.consumes| ==> ConsumeNamed(k, k.consumes[i]))
  }

  ghost predicate ConsumeNamed(k: Catalog, d: CatalogConsume) {
    && IsLogicalId(d.subscriber) && IsLogicalId(d.queue)
    && exists j :: 0 <= j < |k.publishes| && k.publishes[j].typ == d.typ
  }

  /** One message reference, one set of fields. */
  ghost predicate SchemasOk(k: Catalog) {
    forall i, j :: (&& 0 <= i < |k.publishes| && 0 <= j < |k.publishes|
                    && k.publishes[i].schema == k.publishes[j].schema) ==>
      k.publishes[i].fields == k.publishes[j].fields
  }

  ghost predicate SubscriptionsOnce(k: Catalog) {
    forall i, j :: 0 <= i < j < |k.consumes| ==> ReceiveParts(k.consumes[i]) != ReceiveParts(k.consumes[j])
  }

  lemma ConsumeOrigin(cs: seq<Contribution>, src: Sources, q: CatalogConsume) returns (c: Contribution, d: Consumed)
    requires Con(q) in AllFacts(cs, src).entries
    ensures c in cs && d in c.consumes && q == ConsumeEntry(c.namespace, d)
  {
    c := EntryOrigin(cs, ContributionFacts(src), Con(q));
    var pubs, fols, cons := Sum(c.publishes, PublishFacts(c.namespace, src)),
      Sum(c.follows, FollowFacts(c.namespace)), Sum(c.consumes, ConsumeFacts(c.namespace));
    if Con(q) in fols.entries {
      var g := EntryOrigin(c.follows, FollowFacts(c.namespace), Con(q));
      EventsClaimed(g.events);
    }
    if Con(q) in pubs.entries {
      var p := EntryOrigin(c.publishes, PublishFacts(c.namespace, src), Con(q));
    }
    assert Con(q) in cons.entries;
    d := EntryOrigin(c.consumes, ConsumeFacts(c.namespace), Con(q));
  }

  lemma {:induction false} HeaderRule(cs: seq<Contribution>, src: Sources, prior: map<string, CatalogPublish>,
                                      c: Contribution)
    requires ContributionsOk(cs, src, prior) && c in cs
    ensures HeaderOk(c, src) && ConsumesOk(c, src, c.consumes)
  {
    if c != cs[0] { HeaderRule(cs[1..], src, prior, c); }
  }

  lemma ConsumeNames(cs: seq<Contribution>, src: Sources, prior: map<string, CatalogPublish>, q: CatalogConsume)
    requires ContributionsOk(cs, src, prior) && Con(q) in AllFacts(cs, src).entries
    ensures IsLogicalId(q.subscriber) && IsLogicalId(q.queue)
  {
    var c, d := ConsumeOrigin(cs, src, q);
    HeaderRule(cs, src, prior, c);
    ConsumesOkEach(c, src, c.consumes);
    assert ConsumeOk(c, src, d);
    var i :| 0 <= i < |c.queues| && c.queues[i] == d.queue;
    assert IsLogicalId(c.queues[i]);
  }

  lemma PublishNames(cs: seq<Contribution>, src: Sources, prior: map<string, CatalogPublish>, q: CatalogPublish)
    requires ContributionsOk(cs, src, prior) && Pub(q) in AllFacts(cs, src).entries
    ensures IsEventType(q.typ)
    ensures src.protos(q.schema).Some? && q.fields == src.protos(q.schema).value
  {
    var c, p := PublishOrigin(cs, src, q);
    RulesOf(cs, src, prior, c);
    PublishesOkEach(c.namespace, c.publishes, src, prior);
  }

  lemma {:induction false} KeyOrigin<T>(s: seq<T>, f: T -> Facts, k: Key) returns (x: T)
    requires k in Sum(s, f).keys
    ensures x in s && k in f(x).keys
  {
    if k in f(s[0]).keys { x := s[0]; } else { x := KeyOrigin(s[1..], f, k); }
  }

  /** A claimed event type is a published one. */
  lemma TypeOrigin(cs: seq<Contribution>, src: Sources, typ: string) returns (q: CatalogPublish)
    requires EventType(typ) in AllFacts(cs, src).keys
    ensures Pub(q) in AllFacts(cs, src).entries && q.typ == typ
  {
    var k := EventType(typ);
    var c := KeyOrigin(cs, ContributionFacts(src), k);
    var pubs, fols, cons := Sum(c.publishes, PublishFacts(c.namespace, src)),
      Sum(c.follows, FollowFacts(c.namespace)), Sum(c.consumes, ConsumeFacts(c.namespace));
    if k in fols.keys {
      var g := KeyOrigin(c.follows, FollowFacts(c.namespace), k);
      var e := KeyOrigin(g.events, EventFacts(), k);
    }
    if k in cons.keys {
      var d := KeyOrigin(c.consumes, ConsumeFacts(c.namespace), k);
    }
    assert k in pubs.keys;
    var p := KeyOrigin(c.publishes, PublishFacts(c.namespace, src), k);
    PublishStays(cs, src, c, p);
    q := PublishEntry(c.namespace, p, src);
  }

  lemma ListsConsumeNamed(cs: seq<Contribution>, src: Sources, prior: map<string, CatalogPublish>, k: Catalog,
                          d: CatalogConsume)
    requires ContributionsOk(cs, src, prior) && Lists(k, AllFacts(cs, src))
    requires Con(d) in AllFacts(cs, src).entries && EventType(d.typ) in AllFacts(cs, src).keys
    ensures ConsumeNamed(k, d)
  {
    ConsumeNames(cs, src, prior, d);
    var q := TypeOrigin(cs, src, d.typ);
    var j := ListedPublish(k, AllFacts(cs, src), q);
    assert k.publishes[j].typ == d.typ;
  }

  lemma ListsNamesOk(cs: seq<Contribution>, src: Sources, prior: map<string, CatalogPublish>, k: Catalog)
    requires ContributionsOk(cs, src, prior) && Registered(AllFacts(cs, src)) && Lists(k, AllFacts(cs, src))
    ensures NamesOk(k)
  {
    forall i | 0 <= i < |k.publishes| ensures IsEventType(k.publishes[i].typ) {
      assert k.publishes[i] in multiset(k.publishes);
      PublishNames(cs, src, prior, k.publishes[i]);
    }
    forall i | 0 <= i < |k.consumes| ensures ConsumeNamed(k, k.consumes[i]) {
      assert k.consumes[i] in multiset(k.consumes);
      ListsConsumeNamed(cs, src, prior, k, k.consumes[i]);
    }
  }

  lemma ListsSchemasOk(cs: seq<Contribution>, src: Sources, prior: map<string, CatalogPublish>, k: Catalog)
    requires ContributionsOk(cs, src, prior) && Lists(k, AllFacts(cs, src))
    ensures SchemasOk(k)
  {
    forall i, j | 0 <= i < |k.publishes| && 0 <= j < |k.publishes| && k.publishes[i].schema == k.publishes[j].schema
      ensures k.publishes[i].fields == k.publishes[j].fields
    {
      assert k.publishes[i] in multiset(k.publishes) && k.publishes[j] in multiset(k.publishes);
      PublishNames(cs, src, prior, k.publishes[i]);
      PublishNames(cs, src, prior, k.publishes[j]);
    }
  }

  lemma ListsSubscriptionsOnce(k: Catalog, f: Facts)
    requires Lists(k, f) && ClaimedOnce(f) && Covered(f)
    ensures SubscriptionsOnce(k)
  {
    var s := k.consumes;
    forall i, j | 0 <= i < j < |s| ensures ReceiveParts(s[i]) != ReceiveParts(s[j]) {
      TwoPlaces(s, i, j);
      assert multiset(s)[s[i]] == f.entries[Con(s[i])] && multiset(s)[s[j]] == f.entries[Con(s[j])];
      if ReceiveParts(s[i]) == ReceiveParts(s[j]) {
        assert ReceiveParts(s[i])[1] == s[i].typ && ReceiveParts(s[i])[2] == s[i].subscriber
               && ReceiveParts(s[i])[3] == s[i].queue;
        assert ReceiveParts(s[j])[1] == s[j].typ && ReceiveParts(s[j])[2] == s[j].subscriber
               && ReceiveParts(s[j])[3] == s[j].queue;
        EntryAlone(f, Con(s[i]), Con(s[j]), Subscription(s[i].subscriber, s[i].typ, s[i].queue));
      }
    }
  }

  ghost predicate Renderable(k: Catalog) {
    OneTypeEach(k) && NamesOk(k) && SchemasOk(k) && SubscriptionsOnce(k)
  }

  lemma ComposedRenderable(prior: Catalog, k: Catalog)
    requires Composed(prior, k)
    ensures Renderable(k)
  {
    var cs: seq<Contribution>, src: Sources :| Accepts(cs, src, prior) && CatalogOf(k, AllFacts(cs, src));
    var byType := PriorByType(prior.publishes);
    AllCovered(cs, src);
    ListsOneTypeEach(k, AllFacts(cs, src));
    ListsNamesOk(cs, src, byType, k);
    ListsSchemasOk(cs, src, byType, k);
    ListsSubscriptionsOnce(k, AllFacts(cs, src));
  }

  // ----- the keys of the document are injective -----

  lemma SanitizeType(typ: string)
    requires IsEventType(typ)
    ensures Sanitize(typ) == typ && ':' !in typ
  {
    assert forall i :: 0 <= i < |typ| ==> EventChar(typ[i]) && SafeChar(typ[i]);
  }

  lemma IdHasNoColon(id: string)
    requires IsLogicalId(id)
    ensures ':' !in id
  {
  }

  lemma ReceivePartsPlain(k: Catalog, i: nat)
    requires NamesOk(k) && i < |k.consumes|
    ensures forall m :: 0 <= m < 4 ==> ':' !in ReceiveParts(k.consumes[i])[m]
  {
    var d := k.consumes[i];
    assert ConsumeNamed(k, d);
    var j :| 0 <= j < |k.publishes| && k.publishes[j].typ == d.typ;
    SanitizeType(d.typ);
    IdHasNoColon(d.subscriber);
    IdHasNoColon(d.queue);
  }

  lemma ReceiveKeysDiffer(k: Catalog, i: nat, j: nat)
    requires NamesOk(k) && SubscriptionsOnce(k) && i < j < |k.consumes|
    ensures ReceiveKey(k.consumes[i]) != ReceiveKey(k.consumes[j])
  {
    ReceivePartsPlain(k, i);
    ReceivePartsPlain(k, j);
    SplitJoin(ReceiveParts(k.consumes[i]), ':');
    SplitJoin(ReceiveParts(k.consumes[j]), ':');
  }

  lemma KindsDiffer(typ: string, d: CatalogConsume)
    ensures SendKey(typ) != ReceiveKey(d)
  {
    assert SendKey(typ)[0] == 's';
    assert ReceiveParts(d)[0] == "receive" && ReceiveKey(d)[0] == 'r';
  }

  lemma SendKeysDiffer(a: string, b: string)
    requires a != b
    ensures SendKey(a) != SendKey(b)
  {
    assert SendKey(a)[5..] == a && SendKey(b)[5..] == b;
  }

  // ----- what the folds hold -----

  ghost predicate TypesDiffer(ps: seq<CatalogPublish>) {
    && (forall i :: 0 <= i < |ps| ==> IsEventType(ps[i].typ))
    && (forall i, j :: 0 <= i < j < |ps| ==> ps[i].typ != ps[j].typ)
  }

  lemma {:induction false} PublishedHeld(ps: seq<CatalogPublish>, index: map<string, string>, i: nat)
    requires TypesDiffer(ps) && i < |ps|
    ensures var p := ps[i];
            && p.typ in Channels(ps, index) && Channels(ps, index)[p.typ] == ChannelOf(p, index)
            && p.typ in Messages(ps) && Messages(ps)[p.typ] == MessageOf(p)
            && SendKey(p.typ) in Sends(ps) && Sends(ps)[SendKey(p.typ)] == SendOf(p)
  {
    SanitizeType(Last(ps).typ);
    if i < |ps| - 1 {
      PublishedHeld(Init(ps), index, i);
      assert ps[i].typ != Last(ps).typ;
      SendKeysDiffer(ps[i].typ, Last(ps).typ);
    }
  }

  lemma {:induction false} ChannelSource(ps: seq<CatalogPublish>, index: map<string, string>, typ: string)
    returns (i: nat)
    requires typ in Channels(ps, index)
    ensures i < |ps| && ps[i].typ == typ
  {
    if Last(ps).typ == typ { i := |ps| - 1; } else { i := ChannelSource(Init(ps), index, typ); }
  }

  lemma {:induction false} SchemaHeld(ps: seq<CatalogPublish>, i: nat)
    requires NoCollision(ps) && i < |ps|
    requires forall a, b :: 0 <= a < |ps| && 0 <= b < |ps| && ps[a].schema == ps[b].schema ==>
             ps[a].fields == ps[b].fields
    ensures var key := Sanitize(ps[i].schema); key in Schemas(ps) && Schemas(ps)[key] == Envelope(ps[i].fields)
  {
    var n := |ps| - 1;
    assert NoCollision(Init(ps));
    if i < n {
      SchemaHeld(Init(ps), i);
    } else if Sanitize(ps[n].schema) in Schemas(Init(ps)) {
      SourceKeys(Init(ps));
      var m := SourceCited(Init(ps), Sanitize(ps[n].schema));
      assert !Collides(ps[m], ps[n]);
      SchemaHeld(Init(ps), m);
    }
  }

  lemma {:induction false} SendHeld(ps: seq<CatalogPublish>, ds: seq<CatalogConsume>, typ: string)
    requires SendKey(typ) in Sends(ps)
    ensures SendKey(typ) in Operations(ps, ds) && Operations(ps, ds)[SendKey(typ)] == Sends(ps)[SendKey(typ)]
  {
    if ds != [] {
      SendHeld(ps, Init(ds), typ);
      KindsDiffer(typ, Last(ds));
    }
  }

  lemma {:induction false} ReceiveHeld(ps: seq<CatalogPublish>, ds: seq<CatalogConsume>, i: nat)
    requires i < |ds| && forall a, b :: 0 <= a < b < |ds| ==> ReceiveKey(ds[a]) != ReceiveKey(ds[b])
    ensures ReceiveKey(ds[i]) in Operations(ps, ds) && Operations(ps, ds)[ReceiveKey(ds[i])] == ReceiveOf(ds[i])
  {
    if i < |ds| - 1 { ReceiveHeld(ps, Init(ds), i); }
  }

  lemma {:induction false} SendSource(ps: seq<CatalogPublish>, key: string) returns (i: nat)
    requires key in Sends(ps)
    ensures i < |ps| && key == SendKey(ps[i].typ)
  {
    if key == SendKey(Last(ps).typ) { i := |ps| - 1; } else { i := SendSource(Init(ps), key); }
  }

  lemma {:induction false} SendsCount(ps: seq<CatalogPublish>)
    requires TypesDiffer(ps)
    ensures |Sends(ps)| == |ps|
  {
    if ps != [] {
      SendsCount(Init(ps));
      var key := SendKey(Last(ps).typ);
      if key in Sends(Init(ps)) {
        var i := SendSource(Init(ps), key);
        assert ps[i].typ != Last(ps).typ;
        SendKeysDiffer(ps[i].typ, Last(ps).typ);
      }
      MapGrows(Sends(Init(ps)), key, SendOf(Last(ps)));
    }
  }

  lemma MapGrows<K, V>(m: map<K, V>, key: K, v: V)
    requires key !in m
    ensures |m[key := v]| == |m| + 1
  {
    assert m[key := v].Keys == m.Keys + {key};
  }

  /** Every operation is a publisher's send or a consumer's receive. */
  ghost predicate OperationKnown(ps: seq<CatalogPublish>, ds: seq<CatalogConsume>, key: string) {
    (exists i :: 0 <= i < |ps| && key == SendKey(ps[i].typ)) || (exists i :: 0 <= i < |ds| && key == ReceiveKey(ds[i]))
  }

  lemma {:induction false} OperationsCount(ps: seq<CatalogPublish>, ds: seq<CatalogConsume>)
    requires TypesDiffer(ps)
    requires forall a, b :: 0 <= a < b < |ds| ==> ReceiveKey(ds[a]) != ReceiveKey(ds[b])
    ensures |Operations(ps, ds)| == |ps| + |ds|
    ensures forall key :: key in Operations(ps, ds) ==> OperationKnown(ps, ds, key)
  {
    if ds == [] {
      SendsCount(ps);
      forall key | key in Sends(ps) ensures OperationKnown(ps, ds, key) { var i := SendSource(ps, key); }
    } else {
      var n := |ds| - 1;
      OperationsCount(ps, Init(ds));
      var key := ReceiveKey(ds[n]);
      if key in Operations(ps, Init(ds)) {
        assert OperationKnown(ps, Init(ds), key);
        if i :| 0 <= i < |ps| && key == SendKey(ps[i].typ) { KindsDiffer(ps[i].typ, ds[n]); }
      }
      MapGrows(Operations(ps, Init(ds)), key, ReceiveOf(ds[n]));
      forall x | x in Operations(ps, ds) ensures OperationKnown(ps, ds, x) {
        if x == key { assert x == ReceiveKey(ds[n]); } else { OperationStays(ps, ds, x); }
      }
    }
  }

  lemma OperationStays(ps: seq<CatalogPublish>, ds: seq<CatalogConsume>, x: string)
    requires ds != [] && OperationKnown(ps, Init(ds), x)
    ensures OperationKnown(ps, ds, x)
  {
    if i :| 0 <= i < |Init(ds)| && x == ReceiveKey(Init(ds)[i]) { assert x == ReceiveKey(ds[i]); }
  }

  // ----- main results -----

  /** Each channel leads to its own message and on to the schema of its own fields. */
  lemma ReferencesResolve(prior: Catalog, k: Catalog, i: nat)
    requires Composed(prior, k) && NoCollision(k.publishes) && i < |k.publishes|
    ensures var doc, p := DocOf(k), k.publishes[i];
            && p.typ in doc.channels && doc.channels[p.typ].envelope == MESSAGES + p.typ
            && p.typ in doc.messages && doc.messages[p.typ].payload == SCHEMAS + Sanitize(p.schema)
            && Sanitize(p.schema) in doc.schemas && doc.schemas[Sanitize(p.schema)] == Envelope(p.fields)
            && doc.channels[p.typ].followable
               == (if p.typ in FollowIndex(k.follows) then FollowIndex(k.follows)[p.typ] else "")
  {
    ComposedRenderable(prior, k);
    PublishedHeld(k.publishes, FollowIndex(k.follows), i);
    SanitizeType(k.publishes[i].typ);
    SchemaHeld(k.publishes, i);
  }

  /** No other channel exists. */
  lemma ChannelsArePublished(k: Catalog, typ: string)
    requires typ in DocOf(k).channels
    ensures exists i :: 0 <= i < |k.publishes| && k.publishes[i].typ == typ
  {
    var i := ChannelSource(k.publishes, FollowIndex(k.follows), typ);
  }

  /** One send per published type, one receive per consume, nothing lost or merged, and
      every operation names a channel of the document. */
  lemma OperationsComplete(prior: Catalog, k: Catalog)
    requires Composed(prior, k)
    ensures var doc := DocOf(k);
            && |doc.operations| == |k.publishes| + |k.consumes|
            && (forall i :: 0 <= i < |k.publishes| ==>
                  SendKey(k.publishes[i].typ) in doc.operations
                  && doc.operations[SendKey(k.publishes[i].typ)] == SendOf(k.publishes[i]))
            && (forall i :: 0 <= i < |k.consumes| ==>
                  ReceiveKey(k.consumes[i]) in doc.operations
                  && doc.operations[ReceiveKey(k.consumes[i])] == ReceiveOf(k.consumes[i])
                  && k.consumes[i].typ in doc.channels)
  {
    ComposedRenderable(prior, k);
    var ps, ds, index := k.publishes, k.consumes, FollowIndex(k.follows);
    forall a, b | 0 <= a < b < |ds| ensures ReceiveKey(ds[a]) != ReceiveKey(ds[b]) { ReceiveKeysDiffer(k, a, b); }
    OperationsCount(ps, ds);
    forall i | 0 <= i < |ps|
      ensures SendKey(ps[i].typ) in Operations(ps, ds) && Operations(ps, ds)[SendKey(ps[i].typ)] == SendOf(ps[i])
    {
      PublishedHeld(ps, index, i);
      SendHeld(ps, ds, ps[i].typ);
    }
    forall i | 0 <= i < |ds|
      ensures ReceiveKey(ds[i]) in Operations(ps, ds) && Operations(ps, ds)[ReceiveKey(ds[i])] == ReceiveOf(ds[i])
      ensures ds[i].typ in Channels(ps, index)
    {
      ReceiveHeld(ps, ds, i);
      assert ConsumeNamed(k, ds[i]);
      var j :| 0 <= j < |ps| && ps[j].typ == ds[i].typ;
      PublishedHeld(ps, index, j);
    }
  }
}
