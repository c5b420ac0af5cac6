/** The rules of one settings contribution (composition.go), by their source patterns, and what
    the whole list adds to them. */
module SettingsRules {
  import opened SettingsFields
  import opened CleanPaths
  import opened Patterns
  import opened NamePatterns
  import opened CatalogRules

  ghost predicate Free(reserved: seq<string>, name: string) { forall ns :: ns in reserved ==> !Covers(ns, name) }

  ghost predicate FormSound(s: Setting, reserved: seq<string>) {
    && s.schema == "codefly/saas/settings-contribution/v1" && s.scope in {"", "user", "org"}
    && Matches(LOGICAL_ID, s.namespace) && Free(reserved, s.namespace)
    && Matches(PROTO_NAME, s.message) && Free(reserved, s.message)
    && Matches(Then(Chars(LOWER), Many(Chars(LOWER_DIGIT_BAR))), s.fieldName)
  }

  /** A proto file below the import root, named canonically. */
  ghost predicate ImportSound(path: string) {
    && !IsAbs(path) && '\\' !in path && Clean(path) == path && path != "." && path != ".." && !("../" <= path)
    && exists stem :: path == stem + ".proto"
  }

  lemma ImportMeaning(path: string)
    ensures SafeRelativePath(path) && IsProtoFile(path) <==> ImportSound(path)
  {
    SafeRelativeMeaning(path);
    if IsProtoFile(path) { assert path == path[..|path|-6] + ".proto"; }
    if stem :| path == stem + ".proto" { assert path[|path|-6..] == ".proto"; }
  }

  /** One contribution: its names by the three patterns and clear of every reserved namespace,
      its import a proto file below the root. */
  lemma FormMeaning(s: Setting, reserved: seq<string>)
    ensures WellFormed(s, reserved) <==> FormSound(s, reserved) && ImportSound(s.protoImport)
  {
    LogicalIdPattern(s.namespace);
    ProtoNamePattern(s.message);
    FieldNamePattern(s.fieldName);
    ReservedMeaning(reserved, s.namespace);
    ReservedMeaning(reserved, s.message);
    ImportMeaning(s.protoImport);
  }

  predicate Holds(r: Range, n: int) { r.start <= n <= r.end }

  /** A number a setting may use: clear of the host's own and of the ones protobuf keeps. */
  predicate Usable(n: int) { 1000 <= n <= 536870911 && !(19000 <= n <= 19999) }

  /** Its number lies in its range, and every number of the range is usable. */
  lemma RangeMeaning(s: Setting)
    ensures FieldOk(s) <==> Holds(s.range, s.number) && forall n :: Holds(s.range, n) ==> Usable(n)
  {
    var r := s.range;
    if Holds(r, s.number) { assert Holds(r, r.start) && Holds(r, r.end); }
    var n := if r.start <= 19000 then 19000 else r.start;
    assert r.start <= 19999 && r.end >= 19000 && r.start <= r.end ==> Holds(r, n);
  }

  ghost predicate Disjoint(a: Range, b: Range) { forall n :: !(Holds(a, n) && Holds(b, n)) }

  lemma OverlapMeaning(a: Range, b: Range)
    requires a.start <= a.end && b.start <= b.end
    ensures Overlap(a, b) <==> !Disjoint(a, b)
  {
    var n := if a.start <= b.start then b.start else a.start;
    if Overlap(a, b) { assert Holds(a, n) && Holds(b, n); }
  }

  ghost predicate Sound(s: Setting, claimed: set<string>, reserved: seq<string>) {
    && FormSound(s, reserved) && ImportSound(s.protoImport) && s.fieldName !in claimed
    && Holds(s.range, s.number) && forall n :: Holds(s.range, n) ==> Usable(n)
  }

  ghost predicate Separate(a: Setting, b: Setting) {
    a.namespace != b.namespace && a.fieldName != b.fieldName && Disjoint(a.range, b.range)
  }

  lemma SoundMeaning(s: Setting, claimed: set<string>, reserved: seq<string>)
    ensures Sound(s, claimed, reserved) <==> WellFormed(s, reserved) && FieldOk(s) && s.fieldName !in claimed
  {
    FormMeaning(s, reserved);
    RangeMeaning(s);
  }

  /** The list is accepted exactly when every setting is sound and its field name free, and no
      two share a namespace, a field name or a number of their ranges. */
  lemma AcceptedMeaning(ss: seq<Setting>, claimed: set<string>, reserved: seq<string>)
    ensures Accepted(ss, claimed, reserved) <==>
              && (forall i :: 0 <= i < |ss| ==> Sound(ss[i], claimed, reserved))
              && (forall i, j :: 0 <= i < j < |ss| ==> Separate(ss[i], ss[j]))
  {
    forall s ensures Sound(s, claimed, reserved) <==> WellFormed(s, reserved) && FieldOk(s) && s.fieldName !in claimed {
      SoundMeaning(s, claimed, reserved);
    }
    forall a, b | FieldOk(a) && FieldOk(b) ensures Apart(a, b) <==> Separate(a, b) { OverlapMeaning(a.range, b.range); }
  }
}
