/** What the major version of a schema reference is (composition_events.go), read off the
    directories of its path. */
module SchemaVersions {
  import opened Text
  import opened EventCatalog

  predicate DecimalDigit(c: char) { '0' <= c <= '9' }

  /** Decimal notation, digit by digit. */
  lemma DigitsAppend(s: string, c: char)
    requires DecimalDigit(c)
    ensures Digits("") == 0 && Digits(s + [c]) == 10 * Digits(s) + (c as int - '0' as int)
  {
    assert (s + [c])[..|s|] == s;
  }

  /** A version directory is a "v" before a decimal number that fits an int. */
  lemma VersionDirs(segment: string)
    ensures IsVersionDir(segment) <==>
              exists ds: string :: segment == ['v'] + ds && ds != "" && (forall c :: c in ds ==> DecimalDigit(c))
                                   && Digits(ds) <= 9223372036854775807
  {
    if IsVersionDir(segment) {
      var ds := segment[1..];
      assert segment == ['v'] + ds;
    }
    if ds: string :| segment == ['v'] + ds && ds != "" && (forall c :: c in ds ==> DecimalDigit(c))
                     && Digits(ds) <= 9223372036854775807 {
      assert segment[1..] == ds;
      forall i | 1 <= i < |segment| ensures '0' <= segment[i] <= '9' { assert segment[i] in ds; }
    }
  }

  predicate Plain(segments: seq<string>) {
    forall i :: 0 <= i < |segments| ==> '/' !in segments[i] && '#' !in segments[i]
  }

  predicate NoVersion(segments: seq<string>) { forall i :: 0 <= i < |segments| ==> !IsVersionDir(segments[i]) }

  lemma {:induction false} NoVersionIsOne(segments: seq<string>)
    requires NoVersion(segments)
    ensures LastVersion(segments) == 1
  {
    if segments != [] { NoVersionIsOne(segments[..|segments|-1]); }
  }

  lemma {:induction false} LastVersionDecides(a: seq<string>, v: string, b: seq<string>)
    requires IsVersionDir(v) && NoVersion(b)
    ensures LastVersion(a + [v] + b) == Digits(v[1..])
  {
    var all := a + [v] + b;
    if b == [] {
      assert all == a + [v];
    } else {
      assert all[|all|-1] == b[|b|-1];
      assert all[..|all|-1] == a + [v] + b[..|b|-1];
      LastVersionDecides(a, v, b[..|b|-1]);
    }
  }

  /** The path of a reference is what precedes the message name. */
  lemma PathOfSchema(segments: seq<string>, message: string)
    requires Plain(segments) && segments != []
    ensures Split(Cut(Join(segments, '/') + "#" + message, '#').0, '/') == segments
  {
    JoinAvoids(segments, '/', '#');
    CutAt(Join(segments, '/'), message, '#');
    SplitJoin(segments, '/');
  }

  /** The last version directory on the path gives the major, whatever follows the '#'. */
  lemma MajorOfPath(a: seq<string>, v: string, b: seq<string>, message: string)
    requires Plain(a + [v] + b) && IsVersionDir(v) && NoVersion(b)
    ensures Major(Join(a + [v] + b, '/') + "#" + message) == Digits(v[1..])
  {
    PathOfSchema(a + [v] + b, message);
    LastVersionDecides(a, v, b);
  }

  /** A path without one has major 1. */
  lemma MajorIsOne(segments: seq<string>, message: string)
    requires Plain(segments) && segments != [] && NoVersion(segments)
    ensures Major(Join(segments, '/') + "#" + message) == 1
  {
    PathOfSchema(segments, message);
    NoVersionIsOne(segments);
  }

  lemma SampleSegments()
    ensures Plain(["v1", "v2", "e"]) && IsVersionDir("v2") && !IsVersionDir("e") && Digits("v2"[1..]) == 2
  {
    DigitsAppend("", '2');
    assert "v2"[1..] == "" + ['2'];
  }

  lemma SamplePath()
    ensures Join(["v1", "v2", "e"], '/') == "v1/v2/e"
  {
    assert ["v1", "v2", "e"][1..] == ["v2", "e"] && ["v2", "e"][1..] == ["e"];
    assert Join(["v2", "e"], '/') == "v2/e";
  }

  /** An instance: the last of two version directories, whatever the message is called. */
  lemma SecondVersion(message: string)
    ensures Major("v1/v2/e" + "#" + message) == 2
  {
    SampleSegments();
    SamplePath();
    assert ["v1"] + ["v2"] + ["e"] == ["v1", "v2", "e"];
    MajorOfPath(["v1"], "v2", ["e"], message);
  }
}
