/** What the AsyncAPI document says of each catalog entry (composition_events.go), in the
    document's own words. */
module AsyncApiContents {
  import opened Text
  import opened EventCatalog
  import opened CatalogRuns
  import opened AsyncApi

  // ----- keys -----

  /** A component key keeps every letter, digit, dot, dash and underscore where it was, and has
      an underscore for anything else. */
  lemma SanitizeMeaning(id: string, i: nat)
    requires i < |id|
    ensures |Sanitize(id)| == |id|
    ensures Sanitize(id)[i] == if IsWordChar(id[i]) || id[i] in ".-" then id[i] else '_'
  {
  }

  predicate IsWordChar(c: char) { 'A' <= c <= 'Z' || 'a' <= c <= 'z' || '0' <= c <= '9' || c == '_' }

  /** Read part by part, a receive operation's key names its event, subscriber and queue. */
  lemma ReceiveKeyReads(prior: Catalog, k: Catalog, i: nat)
    requires Composed(prior, k) && i < |k.consumes|
    ensures var d := k.consumes[i]; Split(ReceiveKey(d), ':') == ["receive", d.typ, d.subscriber, d.queue]
  {
    ComposedRenderable(prior, k);
    ReceivePartsPlain(k, i);
    SplitJoin(ReceiveParts(k.consumes[i]), ':');
  }

  // ----- field types -----

  /** The integer types: a signedness before `int` or `fixed`, and a width after it. */
  predicate IsIntegerType(t: string) {
    || (exists sign, width :: sign in {"", "s", "u"} && width in {"32", "64"} && t == sign + "int" + width)
    || (exists sign, width :: sign in {"", "s"} && width in {"32", "64"} && t == sign + "fixed" + width)
  }

  lemma IntegerTypes(t: string)
    ensures IsIntegerType(t) <==> t in {"int32", "int64", "uint32", "uint64", "sint32", "sint64",
                                        "fixed32", "fixed64", "sfixed32", "sfixed64"}
  {
    assert "" + "int" + "32" == "int32" && "" + "int" + "64" == "int64";
    assert "u" + "int" + "32" == "uint32" && "u" + "int" + "64" == "uint64";
    assert "s" + "int" + "32" == "sint32" && "s" + "int" + "64" == "sint64";
    assert "" + "fixed" + "32" == "fixed32" && "" + "fixed" + "64" == "fixed64";
    assert "s" + "fixed" + "32" == "sfixed32" && "s" + "fixed" + "64" == "sfixed64";
  }

  /** A list type is an array of what its element type is. */
  lemma RepeatedType(t: string)
    ensures JsonSchema("repeated " + t) == Array(JsonSchema(t))
  {
    assert ("repeated " + t)[9..] == t && "repeated " <= "repeated " + t;
  }

  /** Any other type is one of six scalars, or an object that keeps the type's name. */
  lemma SingleType(t: string)
    requires !("repeated " <= t)
    ensures JsonSchema(t) == Scalar("integer", "") <==> IsIntegerType(t)
    ensures JsonSchema(t) == Scalar("number", "") <==> t == "double" || t == "float"
    ensures JsonSchema(t) == Scalar("boolean", "") <==> t == "bool"
    ensures JsonSchema(t) == Scalar("string", "") <==> t == "string"
    ensures JsonSchema(t) == Scalar("string", "byte") <==> t == "bytes"
    ensures JsonSchema(t) == Scalar("string", "date-time") <==> t == "google.protobuf.Timestamp"
    ensures JsonSchema(t).Scalar? || JsonSchema(t) == Object(t)
  {
    IntegerTypes(t);
  }

  // ----- entries -----

  /** A published type's channel and its publisher's send. */
  lemma PublishedStated(prior: Catalog, k: Catalog, i: nat)
    requires Composed(prior, k) && NoCollision(k.publishes) && i < |k.publishes|
    ensures var doc, p := DocOf(k), k.publishes[i];
            && p.typ in doc.channels && "send:" + p.typ in doc.operations
            && var c, o := doc.channels[p.typ], doc.operations["send:" + p.typ];
               && c.address == p.typ && c.visibility == p.visibility && c.partition == p.partition
               && c.retention == p.retention
               && o.action == "send" && o.channel == "#/channels/" + p.typ
               && o.title == p.namespace + " publishes " + p.typ && o.summary == ""
  {
    ComposedRenderable(prior, k);
    PublishedHeld(k.publishes, FollowIndex(k.follows), i);
    OperationsComplete(prior, k);
  }

  /** The message on it, and the schema of that message's payload. */
  lemma MessageStated(prior: Catalog, k: Catalog, i: nat)
    requires Composed(prior, k) && NoCollision(k.publishes) && i < |k.publishes|
    ensures var doc, p := DocOf(k), k.publishes[i];
            && p.typ in doc.messages && p.typ in doc.channels && doc.messages[p.typ].name == p.typ
            && doc.messages[p.typ].payload == "#/components/schemas/" + Sanitize(p.schema)
            && doc.channels[p.typ].envelope == "#/components/messages/" + p.typ
  {
    ComposedRenderable(prior, k);
    ReferencesResolve(prior, k, i);
    PublishedHeld(k.publishes, FollowIndex(k.follows), i);
  }

  ghost predicate FollowedUnder(follows: seq<CatalogFollow>, e: string, r: string) {
    exists j :: 0 <= j < |follows| && follows[j].resourceType == r && e in follows[j].events
  }

  /** The channel is followable under a resource type exactly when a declaration says so. */
  lemma FollowableStated(prior: Catalog, k: Catalog, i: nat, r: string)
    requires Composed(prior, k) && NoCollision(k.publishes) && i < |k.publishes| && r != ""
    ensures var channels, e := DocOf(k).channels, k.publishes[i].typ;
            && e in channels
            && (channels[e].followable == r <==> FollowedUnder(k.follows, e, r))
  {
    var e := k.publishes[i].typ;
    ReferencesResolve(prior, k, i);
    ComposedCoherent(prior, k);
    if e in FollowIndex(k.follows) { var j := IndexSource(k.follows, e); }
    if j :| 0 <= j < |k.follows| && k.follows[j].resourceType == r && e in k.follows[j].events {
      IndexIsExact(k, j, e);
    }
  }

  /** A consume's receive. */
  lemma ConsumedStated(prior: Catalog, k: Catalog, i: nat)
    requires Composed(prior, k) && i < |k.consumes|
    ensures var doc, d := DocOf(k), k.consumes[i];
            && ReceiveKey(d) in doc.operations
            && var o := doc.operations[ReceiveKey(d)];
               && o.action == "receive" && o.channel == "#/channels/" + d.typ
               && o.title == d.subscriber + " consumes " + d.typ
               && o.summary == "queue " + d.queue + ", delivery " + d.delivery
  {
    OperationsComplete(prior, k);
  }
}
