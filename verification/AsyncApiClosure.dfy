/** The AsyncAPI document as a whole (composition_events.go): nothing in it dangles, and
    nothing in it is left over. */
module AsyncApiClosure {
  import opened EventCatalog
  import opened CatalogRuns
  import opened AsyncApi

  // ----- what a payload schema holds -----

  predicate HasField(fields: seq<Field>, name: string) { exists i :: 0 <= i < |fields| && fields[i].name == name }

  /** No later field has this one's name. */
  predicate LastOfName(fields: seq<Field>, i: nat)
    requires i < |fields|
  {
    forall j :: i < j < |fields| ==> fields[j].name != fields[i].name
  }

  /** A schema has a property for exactly the field names, each typed by the last field of
      its name. */
  lemma {:induction false} EnvelopeMeaning(fields: seq<Field>, name: string)
    ensures name in Envelope(fields) <==> HasField(fields, name)
    ensures forall i :: 0 <= i < |fields| && fields[i].name == name && LastOfName(fields, i) ==>
              Envelope(fields)[name] == JsonSchema(fields[i].typ)
  {
    if fields != [] {
      var n := |fields| - 1;
      var rest := fields[..n];
      EnvelopeMeaning(rest, name);
      if i :| 0 <= i < |rest| && rest[i].name == name { assert fields[i].name == name; }
      if i :| 0 <= i < |fields| && fields[i].name == name && i < n { assert rest[i].name == name; }
      forall i | 0 <= i < |fields| && fields[i].name == name && LastOfName(fields, i)
        ensures Envelope(fields)[name] == JsonSchema(fields[i].typ)
      {
        if i < n {
          assert fields[n].name != fields[i].name;
          assert rest[i] == fields[i] && LastOfName(rest, i);
        }
      }
    }
  }

  // ----- where each part of the document comes from -----

  lemma {:induction false} MessageSource(ps: seq<CatalogPublish>, key: string) returns (i: nat)
    requires key in Messages(ps)
    ensures i < |ps| && key == Sanitize(ps[i].typ) && Messages(ps)[key] == MessageOf(ps[i])
  {
    if key == Sanitize(Last(ps).typ) { i := |ps| - 1; } else { i := MessageSource(Init(ps), key); }
  }

  lemma {:induction false} SchemaSource(ps: seq<CatalogPublish>, key: string) returns (i: nat)
    requires key in Schemas(ps)
    ensures i < |ps| && key == Sanitize(ps[i].schema)
  {
    if key in Schemas(Init(ps)) { i := SchemaSource(Init(ps), key); } else { i := |ps| - 1; }
  }

  // ----- closure -----

  ghost predicate ChannelResolves(doc: Doc, c: Channel) {
    exists m :: m in doc.messages && c.envelope == MESSAGES + m
  }

  ghost predicate MessageResolves(doc: Doc, m: Message) {
    exists s :: s in doc.schemas && m.payload == SCHEMAS + s
  }

  ghost predicate OperationResolves(doc: Doc, o: Operation) {
    exists c :: c in doc.channels && o.channel == CHANNELS + c
  }

  ghost predicate Closed(doc: Doc) {
    && (forall c :: c in doc.channels ==> ChannelResolves(doc, doc.channels[c]))
    && (forall m :: m in doc.messages ==> MessageResolves(doc, doc.messages[m]))
    && (forall o :: o in doc.operations ==> OperationResolves(doc, doc.operations[o]))
  }

  lemma ChannelsResolve(prior: Catalog, k: Catalog, c: string)
    requires Composed(prior, k) && NoCollision(k.publishes) && c in DocOf(k).channels
    ensures ChannelResolves(DocOf(k), DocOf(k).channels[c])
  {
    var i := ChannelSource(k.publishes, FollowIndex(k.follows), c);
    ReferencesResolve(prior, k, i);
    assert c in DocOf(k).messages;
  }

  lemma MessagesResolve(prior: Catalog, k: Catalog, m: string)
    requires Composed(prior, k) && NoCollision(k.publishes) && m in DocOf(k).messages
    ensures MessageResolves(DocOf(k), DocOf(k).messages[m])
  {
    var i := MessageSource(k.publishes, m);
    ReferencesResolve(prior, k, i);
    assert Sanitize(k.publishes[i].schema) in DocOf(k).schemas;
  }

  /** Every operation is the send of some published type or the receive of some consume. */
  lemma OperationsKnown(prior: Catalog, k: Catalog, o: string)
    requires Composed(prior, k) && o in DocOf(k).operations
    ensures OperationKnown(k.publishes, k.consumes, o)
  {
    ComposedRenderable(prior, k);
    forall a, b | 0 <= a < b < |k.consumes| ensures ReceiveKey(k.consumes[a]) != ReceiveKey(k.consumes[b]) {
      ReceiveKeysDiffer(k, a, b);
    }
    OperationsCount(k.publishes, k.consumes);
  }

  lemma OperationsResolve(prior: Catalog, k: Catalog, o: string)
    requires Composed(prior, k) && NoCollision(k.publishes) && o in DocOf(k).operations
    ensures OperationResolves(DocOf(k), DocOf(k).operations[o])
  {
    OperationsKnown(prior, k, o);
    OperationsComplete(prior, k);
    if i :| 0 <= i < |k.publishes| && o == SendKey(k.publishes[i].typ) {
      ReferencesResolve(prior, k, i);
      assert k.publishes[i].typ in DocOf(k).channels;
    } else {
      var i :| 0 <= i < |k.consumes| && o == ReceiveKey(k.consumes[i]);
      assert k.consumes[i].typ in DocOf(k).channels;
    }
  }

  /** The document of a composed catalog has no dangling reference anywhere: not from a
      channel, not from a message, not from a send or a receive. */
  lemma DocumentIsClosed(prior: Catalog, k: Catalog)
    requires Composed(prior, k) && NoCollision(k.publishes)
    ensures Closed(DocOf(k))
  {
    forall c | c in DocOf(k).channels ensures ChannelResolves(DocOf(k), DocOf(k).channels[c]) {
      ChannelsResolve(prior, k, c);
    }
    forall m | m in DocOf(k).messages ensures MessageResolves(DocOf(k), DocOf(k).messages[m]) {
      MessagesResolve(prior, k, m);
    }
    forall o | o in DocOf(k).operations ensures OperationResolves(DocOf(k), DocOf(k).operations[o]) {
      OperationsResolve(prior, k, o);
    }
  }

  /** And nothing left over: each channel, message, schema and operation belongs to an entry
      of the catalog. */
  lemma NothingStray(prior: Catalog, k: Catalog)
    requires Composed(prior, k)
    ensures var doc := DocOf(k);
            && (forall c :: c in doc.channels ==> exists i :: 0 <= i < |k.publishes| && c == k.publishes[i].typ)
            && (forall m :: m in doc.messages ==>
                  exists i :: 0 <= i < |k.publishes| && m == Sanitize(k.publishes[i].typ))
            && (forall s :: s in doc.schemas ==>
                  exists i :: 0 <= i < |k.publishes| && s == Sanitize(k.publishes[i].schema))
            && (forall o :: o in doc.operations ==> OperationKnown(k.publishes, k.consumes, o))
  {
    var doc := DocOf(k);
    forall c | c in doc.channels ensures exists i :: 0 <= i < |k.publishes| && c == k.publishes[i].typ {
      ChannelsArePublished(k, c);
    }
    forall m | m in doc.messages ensures exists i :: 0 <= i < |k.publishes| && m == Sanitize(k.publishes[i].typ) {
      var i := MessageSource(k.publishes, m);
    }
    forall s | s in doc.schemas ensures exists i :: 0 <= i < |k.publishes| && s == Sanitize(k.publishes[i].schema) {
      var i := SchemaSource(k.publishes, s);
    }
    forall o | o in doc.operations ensures OperationKnown(k.publishes, k.consumes, o) { OperationsKnown(prior, k, o); }
  }
}
