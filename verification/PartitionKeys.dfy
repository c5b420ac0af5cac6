/** Partition templates from their declaration to their use: what a compose accepts
    (composition_events.go) and the key a publisher resolves from it (eventcatalog/lookup.go). */
module PartitionKeys {
  import opened EventCatalog

  const TENANT := "{tenant_id}"
  const BOUNDARY := "{boundary_id}"

  /** strings.Replacer for the two pairs: left to right, the first pair that fits, and on
      from behind it. */
  function Replaced(template: string, tenant: string, boundary: string): string {
    if template == "" then ""
    else if TENANT <= template then tenant + Replaced(template[|TENANT|..], tenant, boundary)
    else if BOUNDARY <= template then boundary + Replaced(template[|BOUNDARY|..], tenant, boundary)
    else [template[0]] + Replaced(template[1..], tenant, boundary)
  }

  /** ResolvePartition. */
  function ResolvePartition(template: string, tenant: string, boundary: string): string {
    if template == "" then "" else Replaced(template, tenant, boundary)
  }

  // ----- the template in pieces -----

  datatype Piece = Literal(c: char) | Tenant | Boundary

  /** The first piece, and how much of the template it takes. */
  function Head(template: string): (r: (Piece, nat))
    requires template != ""
    ensures 1 <= r.1 <= |template|
  {
    if TENANT <= template then (Tenant, |TENANT|)
    else if BOUNDARY <= template then (Boundary, |BOUNDARY|)
    else (Literal(template[0]), 1)
  }

  function Pieces(template: string): seq<Piece> {
    if template == "" then [] else [Head(template).0] + Pieces(template[Head(template).1..])
  }

  function ValueOf(p: Piece, tenant: string, boundary: string): string {
    match p case Literal(c) => [c] case Tenant => tenant case Boundary => boundary
  }

  function Filled(ps: seq<Piece>, tenant: string, boundary: string): string {
    if ps == [] then "" else ValueOf(ps[0], tenant, boundary) + Filled(ps[1..], tenant, boundary)
  }

  lemma ReplacedNext(template: string, tenant: string, boundary: string)
    requires template != ""
    ensures Replaced(template, tenant, boundary) ==
              ValueOf(Head(template).0, tenant, boundary)
              + Replaced(template[Head(template).1..], tenant, boundary)
  {
  }

  lemma {:induction false} ReplacedIsFilled(template: string, tenant: string, boundary: string)
    ensures Replaced(template, tenant, boundary) == Filled(Pieces(template), tenant, boundary)
  {
    if template != "" {
      ReplacedNext(template, tenant, boundary);
      ReplacedIsFilled(template[Head(template).1..], tenant, boundary);
    }
  }

  // ----- where a placeholder is met -----

  lemma HeadIsTenant(template: string)
    requires template != ""
    ensures Head(template).0 == Tenant <==> TENANT <= template
    ensures Head(template).0 == Tenant ==> Head(template).1 == |TENANT|
  {
  }

  /** A piece never reaches over the brace of a later one, so what precedes that brace already
      decides it. */
  lemma HeadEnds(template: string, i: nat)
    requires 0 < i < |template| && template[i] == '{'
    ensures Head(template).1 <= i && Head(template[..i]) == Head(template)
  {
    assert forall j :: 1 <= j < |TENANT| ==> TENANT[j] != '{';
    assert forall j :: 1 <= j < |BOUNDARY| ==> BOUNDARY[j] != '{';
    if TENANT <= template { assert template[..i][..|TENANT|] == template[..|TENANT|]; }
    if BOUNDARY <= template { assert template[..i][..|BOUNDARY|] == template[..|BOUNDARY|]; }
  }

  lemma TenantBrace(s: string)
    requires TENANT <= s
    ensures s != "" && s[0] == '{'
  {
  }

  lemma {:induction false} TenantIsMet(template: string, i: nat)
    requires i <= |template| && TENANT <= template[i..]
    ensures Tenant in Pieces(template)
    decreases |template|
  {
    TenantBrace(template[i..]);
    if i == 0 {
      assert template[0..] == template;
      HeadIsTenant(template);
    } else {
      HeadEnds(template, i);
      var n := Head(template).1;
      assert template[n..][i-n..] == template[i..];
      TenantIsMet(template[n..], i - n);
    }
  }

  lemma {:induction false} TenantWasThere(template: string) returns (i: nat)
    requires Tenant in Pieces(template)
    ensures i <= |template| && TENANT <= template[i..]
    decreases |template|
  {
    HeadIsTenant(template);
    if Head(template).0 == Tenant {
      i := 0;
      assert template[0..] == template;
    } else {
      var n := Head(template).1;
      i := TenantWasThere(template[n..]);
      assert template[n..][i..] == template[i+n..];
      i := i + n;
    }
  }

  /** The two names a placeholder may have. */
  predicate Known(name: string) { name in {"tenant_id", "boundary_id"} }

  ghost predicate AllKnown(template: string) {
    forall i, j :: IsPlaceholder(template, i, j) ==> Known(template[i+1..j])
  }

  /** What validatePartitionTemplate accepts: no template, or one that resolves a tenant and
      names nothing that resolves to nothing. */
  lemma TemplateMeaning(template: string)
    ensures PartitionOk(template) <==> template == "" || (AllKnown(template) && Tenant in Pieces(template))
  {
    if template != "" && Tenant in Pieces(template) {
      var i := TenantWasThere(template);
    }
    if i :| 0 <= i <= |template| && "{tenant_id}" <= template[i..] { TenantIsMet(template, i); }
    if PartitionOk(template) && template != "" {
      forall i, j | IsPlaceholder(template, i, j) ensures Known(template[i+1..j]) { }
    }
  }

  lemma NextPieces(template: string)
    requires template != ""
    ensures Pieces(template) == [Head(template).0] + Pieces(template[Head(template).1..])
  {
  }

  lemma Regroup(head: seq<Piece>, middle: seq<Piece>, tail: seq<Piece>)
    ensures head + (middle + tail) == (head + middle) + tail
  {
  }

  /** A brace is where a template can be taken apart. */
  lemma {:induction false} PiecesApart(template: string, i: nat)
    requires i < |template| && template[i] == '{'
    ensures Pieces(template) == Pieces(template[..i]) + Pieces(template[i..])
    decreases |template|
  {
    if i == 0 {
      assert template[0..] == template;
    } else {
      HeadEnds(template, i);
      NextPieces(template);
      NextPieces(template[..i]);
      var n := Head(template).1;
      var rest := template[n..];
      assert rest[..i-n] == template[..i][n..] && rest[i-n..] == template[i..] && rest[i-n] == template[i];
      PiecesApart(rest, i - n);
      Regroup([Head(template).0], Pieces(rest[..i-n]), Pieces(rest[i-n..]));
    }
  }

  lemma {:induction false} FilledConcat(a: seq<Piece>, b: seq<Piece>, tenant: string, boundary: string)
    ensures Filled(a + b, tenant, boundary) == Filled(a, tenant, boundary) + Filled(b, tenant, boundary)
  {
    if a == [] {
      assert a + b == b;
    } else {
      assert (a + b)[0] == a[0] && (a + b)[1..] == a[1..] + b;
      FilledConcat(a[1..], b, tenant, boundary);
    }
  }

  lemma ReplacedApart(template: string, i: nat, tenant: string, boundary: string)
    requires i < |template| && template[i] == '{'
    ensures Replaced(template, tenant, boundary) ==
              Replaced(template[..i], tenant, boundary) + Replaced(template[i..], tenant, boundary)
  {
    PiecesApart(template, i);
    FilledConcat(Pieces(template[..i]), Pieces(template[i..]), tenant, boundary);
    ReplacedIsFilled(template, tenant, boundary);
    ReplacedIsFilled(template[..i], tenant, boundary);
    ReplacedIsFilled(template[i..], tenant, boundary);
  }

  function FieldOf(name: string, tenant: string, boundary: string): string {
    if name == "tenant_id" then tenant else boundary
  }

  lemma HeadReplaced(template: string, j: nat, tenant: string, boundary: string)
    requires IsPlaceholder(template, 0, j) && Known(template[1..j])
    ensures Replaced(template, tenant, boundary) ==
              FieldOf(template[1..j], tenant, boundary) + Replaced(template[j+1..], tenant, boundary)
  {
    StartsWith(template, j);
    ReplacedNext(template, tenant, boundary);
  }

  lemma PlaceholderMoves(template: string, i: nat, j: nat)
    requires IsPlaceholder(template, i, j)
    ensures IsPlaceholder(template[i..], 0, j - i)
    ensures template[i..][1..j-i] == template[i+1..j] && template[i..][j-i+1..] == template[j+1..]
  {
    assert forall k :: 0 <= k < |template| - i ==> template[i..][k] == template[i+k];
  }

  /** Each placeholder of an accepted template is replaced by the field it names, wherever it
      stands. */
  lemma PlaceholderIsReplaced(template: string, i: nat, j: nat, tenant: string, boundary: string)
    requires IsPlaceholder(template, i, j) && Known(template[i+1..j])
    ensures Replaced(template, tenant, boundary) ==
              Replaced(template[..i], tenant, boundary)
              + (FieldOf(template[i+1..j], tenant, boundary) + Replaced(template[j+1..], tenant, boundary))
  {
    ReplacedApart(template, i, tenant, boundary);
    PlaceholderMoves(template, i, j);
    HeadReplaced(template[i..], j - i, tenant, boundary);
  }

  lemma StartsWith(template: string, j: nat)
    requires IsPlaceholder(template, 0, j) && Known(template[1..j])
    ensures Head(template) == (if template[1..j] == "tenant_id" then Tenant else Boundary, j + 1)
  {
    assert template == "{" + template[1..j] + "}" + template[j+1..];
    assert TENANT == "{" + "tenant_id" + "}" && BOUNDARY == "{" + "boundary_id" + "}";
    assert TENANT[1] == 't' && BOUNDARY[1] == 'b';
  }

  // ----- one tenant to a key -----

  function Count(ps: seq<Piece>, p: Piece): nat {
    if ps == [] then 0 else (if ps[0] == p then 1 else 0) + Count(ps[1..], p)
  }

  function Literals(ps: seq<Piece>): nat {
    if ps == [] then 0 else (if ps[0].Literal? then 1 else 0) + Literals(ps[1..])
  }

  lemma TimesNext(n: nat, a: nat)
    ensures (n + 1) * a == n * a + a
  {
  }

  lemma {:induction false} FilledLength(ps: seq<Piece>, tenant: string, boundary: string)
    ensures |Filled(ps, tenant, boundary)| ==
              Literals(ps) + Count(ps, Tenant) * |tenant| + Count(ps, Boundary) * |boundary|
  {
    if ps != [] {
      FilledLength(ps[1..], tenant, boundary);
      TimesNext(Count(ps[1..], Tenant), |tenant|);
      TimesNext(Count(ps[1..], Boundary), |boundary|);
    }
  }

  lemma {:induction false} Counted(ps: seq<Piece>, p: Piece)
    ensures Count(ps, p) == 0 <==> p !in ps
  {
    if ps != [] { Counted(ps[1..], p); }
  }

  lemma SameLengths(u: string, v: string, x: string, y: string)
    requires |u| == |x| && u + v == x + y
    ensures u == x && v == y
  {
    assert (u + v)[..|u|] == u && (u + v)[|u|..] == v && (x + y)[..|x|] == x && (x + y)[|x|..] == y;
  }

  lemma {:induction false} FilledInjective(ps: seq<Piece>, t: string, b: string, u: string, d: string)
    requires |t| == |u| && (|b| == |d| || Boundary !in ps) && Filled(ps, t, b) == Filled(ps, u, d)
    ensures Tenant in ps ==> t == u
  {
    if ps != [] {
      SameLengths(ValueOf(ps[0], t, b), Filled(ps[1..], t, b), ValueOf(ps[0], u, d), Filled(ps[1..], u, d));
      FilledInjective(ps[1..], t, b, u, d);
    }
  }

  lemma EqualProducts(n: nat, a: nat, b: nat)
    requires n > 0 && n * a == n * b
    ensures a == b
  {
    assert n * (a - b) == 0;
  }

  /** Tenants with ids of one length never share the key of an accepted template, whatever the
      boundaries. */
  lemma KeyIsOneTenants(template: string, t: string, b: string, u: string, d: string)
    requires PartitionOk(template) && template != "" && |t| == |u|
    requires ResolvePartition(template, t, b) == ResolvePartition(template, u, d)
    ensures t == u
  {
    var ps := Pieces(template);
    TemplateMeaning(template);
    ReplacedIsFilled(template, t, b);
    ReplacedIsFilled(template, u, d);
    FilledLength(ps, t, b);
    FilledLength(ps, u, d);
    Counted(ps, Boundary);
    if Boundary in ps { EqualProducts(Count(ps, Boundary), |b|, |d|); }
    FilledInjective(ps, t, b, u, d);
  }

  lemma Nothing(n: nat, a: nat)
    requires n == 0
    ensures n * a == 0
  {
  }

  /** A template of tenants alone keeps tenants of any ids apart. */
  lemma TenantsAlone(template: string, t: string, b: string, u: string, d: string)
    requires PartitionOk(template) && template != "" && Boundary !in Pieces(template)
    requires ResolvePartition(template, t, b) == ResolvePartition(template, u, d)
    ensures t == u
  {
    var ps := Pieces(template);
    TemplateMeaning(template);
    ReplacedIsFilled(template, t, b);
    ReplacedIsFilled(template, u, d);
    FilledLength(ps, t, b);
    FilledLength(ps, u, d);
    Counted(ps, Boundary);
    Counted(ps, Tenant);
    Nothing(Count(ps, Boundary), |b|);
    Nothing(Count(ps, Boundary), |d|);
    EqualProducts(Count(ps, Tenant), |t|, |u|);
    FilledInjective(ps, t, b, u, d);
  }

  // ----- tenants whose ids differ in length -----

  /** What must follow the first tenant, or precede the last, for the empty tenant's text to
      begin or end the text of another. */
  function After(ps: seq<Piece>): string {
    if ps == [] then "" else if ps[0] == Tenant then Filled(ps[1..], "", "") else After(ps[1..])
  }

  function Ahead(ps: seq<Piece>): string {
    if ps == [] then ""
    else if ps[|ps|-1] == Tenant then Filled(ps[..|ps|-1], "", "")
    else Ahead(ps[..|ps|-1])
  }

  lemma {:induction false} Begins(ps: seq<Piece>, u: string) returns (rest: string)
    requires Boundary !in ps && After(ps) <= u
    ensures forall b, d :: Filled(ps, u, d) == Filled(ps, "", b) + rest
  {
    if ps == [] {
      rest := "";
    } else if ps[0] == Tenant {
      rest := u[|After(ps)|..] + Filled(ps[1..], u, "");
      assert u == After(ps) + u[|After(ps)|..];
      forall b, d ensures Filled(ps, u, d) == Filled(ps, "", b) + rest {
        NoBoundary(ps[1..], u, "", d);
        NoBoundary(ps[1..], "", "", b);
        Glue(After(ps), u[|After(ps)|..], Filled(ps[1..], u, ""));
      }
    } else {
      rest := Begins(ps[1..], u);
      forall b, d ensures Filled(ps, u, d) == Filled(ps, "", b) + rest {
        Glue([ps[0].c], Filled(ps[1..], "", b), rest);
      }
    }
  }

  lemma Glue(a: string, b: string, c: string)
    ensures (a + b) + c == a + (b + c)
  {
  }

  lemma {:induction false} NoBoundary(ps: seq<Piece>, t: string, b: string, d: string)
    requires Boundary !in ps
    ensures Filled(ps, t, b) == Filled(ps, t, d)
  {
    if ps != [] { NoBoundary(ps[1..], t, b, d); }
  }

  lemma LastPiece(ps: seq<Piece>, t: string, b: string)
    requires ps != []
    ensures Filled(ps, t, b) == Filled(ps[..|ps|-1], t, b) + ValueOf(ps[|ps|-1], t, b)
  {
    var n := |ps| - 1;
    assert ps == ps[..n] + [ps[n]];
    FilledConcat(ps[..n], [ps[n]], t, b);
    assert [ps[n]][1..] == [];
  }

  predicate EndsWith(s: string, tail: string) { |tail| <= |s| && s[|s|-|tail|..] == tail }

  lemma {:induction false} Ends(ps: seq<Piece>, u: string) returns (rest: string)
    requires Boundary !in ps && EndsWith(u, Ahead(ps))
    ensures forall b, d :: Filled(ps, u, d) == rest + Filled(ps, "", b)
  {
    if ps == [] {
      rest := "";
    } else {
      var n := |ps| - 1;
      forall t, b ensures Filled(ps, t, b) == Filled(ps[..n], t, b) + ValueOf(ps[n], t, b) { LastPiece(ps, t, b); }
      if ps[n] == Tenant {
        var k := |u| - |Ahead(ps)|;
        rest := Filled(ps[..n], u, "") + u[..k];
        assert u == u[..k] + Ahead(ps);
        forall b, d ensures Filled(ps, u, d) == rest + Filled(ps, "", b) {
          NoBoundary(ps[..n], u, "", d);
          NoBoundary(ps[..n], "", "", b);
          Glue(Filled(ps[..n], u, ""), u[..k], Ahead(ps));
        }
      } else {
        rest := Ends(ps[..n], u);
        forall b, d ensures Filled(ps, u, d) == rest + Filled(ps, "", b) {
          Glue(rest, Filled(ps[..n], "", b), [ps[n].c]);
        }
      }
    }
  }

  lemma {:induction false} AtBoundary(ps: seq<Piece>) returns (i: nat)
    requires Count(ps, Boundary) == 1
    ensures i < |ps| && ps[i] == Boundary && Boundary !in ps[..i] && Boundary !in ps[i+1..]
  {
    if ps[0] == Boundary {
      i := 0;
      Counted(ps[1..], Boundary);
    } else {
      i := AtBoundary(ps[1..]);
      assert ps[..i+1] == [ps[0]] + ps[1..][..i] && ps[1..][i+1..] == ps[i+2..];
      i := i + 1;
    }
  }

  lemma FilledAt(ps: seq<Piece>, i: nat, t: string, b: string)
    requires i < |ps| && ps[i] == Boundary
    ensures Filled(ps, t, b) == (Filled(ps[..i], t, b) + b) + Filled(ps[i+1..], t, b)
  {
    assert ps == ps[..i] + ([Boundary] + ps[i+1..]);
    FilledConcat(ps[..i], [Boundary] + ps[i+1..], t, b);
    assert ([Boundary] + ps[i+1..])[1..] == ps[i+1..];
    Glue(Filled(ps[..i], t, b), b, Filled(ps[i+1..], t, b));
  }

  lemma Middle(a: string, x: string, b: string, y: string, c: string)
    ensures ((a + x) + b) + (y + c) == (a + (x + b + y)) + c
  {
  }

  /** But a template that names the boundary once gives two tenants one key, for ids of
      different lengths: what it is promised to keep apart, it keeps apart only among ids of
      one length. */
  lemma OneBoundaryCollides(template: string) returns (t: string, b: string, u: string, d: string)
    requires PartitionOk(template) && Count(Pieces(template), Boundary) == 1
    ensures t != u && ResolvePartition(template, t, b) == ResolvePartition(template, u, d)
  {
    var ps := Pieces(template);
    var i := AtBoundary(ps);
    var front, back := ps[..i], ps[i+1..];
    t, d := "", "";
    u := After(front) + "0" + Ahead(back);
    assert u[|u|-|Ahead(back)|..] == Ahead(back);
    var x := Begins(front, u);
    var y := Ends(back, u);
    b := x + d + y;
    FilledAt(ps, i, t, b);
    FilledAt(ps, i, u, d);
    Middle(Filled(front, t, b), x, d, y, Filled(back, t, b));
    ReplacedIsFilled(template, t, b);
    ReplacedIsFilled(template, u, d);
  }
}
