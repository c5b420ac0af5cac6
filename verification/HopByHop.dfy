/** What the gateway's proxy does with Connection (section 7.6.1 of RFC 9110), with and
    without removeCallerConnectionOptions (gateway.go) in front of it. */
module HopByHop {
  import opened Text
  import opened Wrappers
  import opened Headers

  const TE := "te"
  const TRAILERS := "trailers"

  const HOP: seq<string> := [
    CONNECTION, "proxy-connection", "keep-alive", "proxy-authenticate", "proxy-authorization",
    TE, "trailer", "transfer-encoding", UPGRADE]

  function UpgradeType(h: Headers): string {
    if UPGRADE in Tokens(Values(h, CONNECTION)) then Get(h, UPGRADE) else ""
  }

  predicate Printable(s: string) { forall i :: 0 <= i < |s| ==> ' ' <= s[i] <= '~' }

  function WithoutHops(h: Headers): Headers {
    var named := Tokens(Values(h, CONNECTION));
    map k | k in h && !(k in named && k != "") && k !in HOP :: h[k]
  }

  predicate WantsTrailers(h: Headers) { TRAILERS in Tokens(Values(h, TE)) }

  /** httputil.ReverseProxy: hop-by-hop headers go, then a protocol upgrade and the caller's
      interest in trailers are put back. An unprintable upgrade is refused. */
  function Relayed(h: Headers): Option<Headers> {
    if !Printable(UpgradeType(h)) then None else Some(Restored(WithoutHops(h), WantsTrailers(h), UpgradeType(h)))
  }

  function Restored(bare: Headers, trailers: bool, up: string): Headers {
    var te := if trailers then bare[TE := [TRAILERS]] else bare;
    if up != "" then te[CONNECTION := ["Upgrade"]][UPGRADE := [up]] else te
  }

  lemma HopsAreNotOwned()
    ensures forall i :: 0 <= i < |HOP| ==> !Owned(HOP[i])
  {
    forall i | 0 <= i < |HOP| ensures !Owned(HOP[i]) {
      if Owned(HOP[i]) { OwnedStart(HOP[i]); }
    }
  }

  lemma HopNames()
    ensures CONNECTION in HOP && UPGRADE in HOP && TE in HOP
    ensures CONNECTION != UPGRADE && TE != CONNECTION && TE != UPGRADE
    ensures CONNECTION != "" && UPGRADE != "" && TE != ""
    ensures !Owned(CONNECTION) && !Owned(UPGRADE) && !Owned(TE)
  {
    assert HOP[0] == CONNECTION && HOP[5] == TE && HOP[8] == UPGRADE;
    assert CONNECTION[0] == 'c' && UPGRADE[0] == 'u' && TE[0] == 't';
    HopsAreNotOwned();
  }

  /** The reduced Connection header names Upgrade or nothing. */
  lemma ReducedConnection(h: Headers)
    ensures Tokens(Values(OptionsRemoved(h), CONNECTION)) ==
              if UPGRADE in Tokens(Values(h, CONNECTION)) then [UPGRADE] else []
  {
    if UPGRADE in Tokens(Values(h, CONNECTION)) {
      SplitNone("Upgrade", ',');
      assert ToLower(Trim("Upgrade")) == UPGRADE;
      assert TokensOf(["Upgrade"]) == [UPGRADE] + TokensOf([]);
      assert Tokens(["Upgrade"]) == [UPGRADE] + Tokens([]);
    }
  }

  lemma OptionsRemovedAt(h: Headers, k: string)
    requires k != CONNECTION
    ensures k in OptionsRemoved(h) <==> k in h && !Drops(Tokens(Values(h, CONNECTION)), k)
    ensures k in OptionsRemoved(h) ==> OptionsRemoved(h)[k] == h[k]
  {
  }

  lemma UpgradeKept(h: Headers)
    ensures UpgradeType(OptionsRemoved(h)) == UpgradeType(h)
  {
    HopNames();
    ReducedConnection(h);
    OptionsRemovedAt(h, UPGRADE);
  }

  /** Once Connection names at most Upgrade, relaying leaves every owned header alone. */
  lemma RelayKeepsOwned(h: Headers, k: string)
    requires Owned(k) && Tokens(Values(h, CONNECTION)) in {[], [UPGRADE]} && Relayed(h).Some?
    ensures Values(Relayed(h).value, k) == Values(h, k)
    ensures k in Relayed(h).value <==> k in h
  {
    HopNames();
    HopsAreNotOwned();
  }

  /** No Connection value, whatever it names, removes a gateway-owned header. */
  lemma OwnedSurvive(h: Headers, k: string)
    requires Owned(k) && Relayed(OptionsRemoved(h)).Some?
    ensures Values(Relayed(OptionsRemoved(h)).value, k) == Values(h, k)
    ensures k in Relayed(OptionsRemoved(h)).value <==> k in h
  {
    HopNames();
    ReducedConnection(h);
    RelayKeepsOwned(OptionsRemoved(h), k);
    OptionsRemovedAt(h, k);
  }

  predicate NamesTe(h: Headers) { TE in Tokens(Values(h, CONNECTION)) }

  predicate AgreeAt(a: Headers, b: Headers, k: string) { (k in a <==> k in b) && Values(a, k) == Values(b, k) }

  lemma TrailersKept(h: Headers)
    ensures WantsTrailers(OptionsRemoved(h)) <==> WantsTrailers(h) && !NamesTe(h)
  {
    HopNames();
    OptionsRemovedAt(h, TE);
  }

  lemma BareAgree(h: Headers, k: string)
    requires !Owned(k)
    ensures AgreeAt(WithoutHops(OptionsRemoved(h)), WithoutHops(h), k)
  {
    HopNames();
    ReducedConnection(h);
    if k != CONNECTION { OptionsRemovedAt(h, k); }
  }

  /** On every other header the two orders agree, with one exception: RFC 9110 makes a
      sender of TE name it in Connection, and the caller's `TE: trailers` is then removed
      before the proxy can put it back. */
  lemma SameAsProxyAlone(h: Headers)
    ensures Relayed(OptionsRemoved(h)).Some? <==> Relayed(h).Some?
    ensures Relayed(h).Some? ==>
              ((forall k :: !Owned(k) ==> AgreeAt(Relayed(OptionsRemoved(h)).value, Relayed(h).value, k)) <==>
                !(NamesTe(h) && WantsTrailers(h)))
  {
    UpgradeKept(h);
    TrailersKept(h);
    if Relayed(h).Some? {
      AgreementIff(h, Relayed(OptionsRemoved(h)).value, Relayed(h).value);
    }
  }

  /** The trailing interest is put back by the proxy alone, and cannot be once it is gone. */
  lemma TeDisagrees(h: Headers, a: Headers, b: Headers)
    requires Relayed(h) == Some(b) && Relayed(OptionsRemoved(h)) == Some(a) && NamesTe(h) && WantsTrailers(h)
    ensures !AgreeAt(a, b, TE)
  {
    HopNames();
    TrailersKept(h);
    assert TE !in a && TE in b;
  }

  lemma OthersAgree(h: Headers, a: Headers, b: Headers, k: string)
    requires Relayed(h) == Some(b) && Relayed(OptionsRemoved(h)) == Some(a) && !(NamesTe(h) && WantsTrailers(h))
    requires !Owned(k)
    ensures AgreeAt(a, b, k)
  {
    UpgradeKept(h);
    TrailersKept(h);
    BareAgree(h, k);
    RestoredAgree(WithoutHops(OptionsRemoved(h)), WithoutHops(h), WantsTrailers(h), UpgradeType(h), k);
  }

  lemma RestoredAgree(a: Headers, b: Headers, trailers: bool, up: string, k: string)
    requires AgreeAt(a, b, k)
    ensures AgreeAt(Restored(a, trailers, up), Restored(b, trailers, up), k)
  {
  }

  lemma AgreementIff(h: Headers, a: Headers, b: Headers)
    requires Relayed(h) == Some(b) && Relayed(OptionsRemoved(h)) == Some(a)
    ensures (forall k :: !Owned(k) ==> AgreeAt(a, b, k)) <==> !(NamesTe(h) && WantsTrailers(h))
  {
    if NamesTe(h) && WantsTrailers(h) {
      HopNames();
      TeDisagrees(h, a, b);
    } else {
      forall k | !Owned(k) ensures AgreeAt(a, b, k) { OthersAgree(h, a, b, k); }
    }
  }

  const NAMED_TE: Headers := map[CONNECTION := ["te"], TE := [TRAILERS]]

  lemma TokenAlone(s: string)
    requires ',' !in s && Trim(s) == s && ToLower(s) == s
    ensures Tokens([s]) == [s]
  {
    SplitNone(s, ',');
    assert Split(s, ',')[1..] == [] && TokensOf([]) == [];
    assert Tokens([]) == [] && [s][1..] == [];
  }

  lemma NamedTe()
    ensures Tokens(Values(NAMED_TE, CONNECTION)) == ["te"] && Tokens(Values(NAMED_TE, TE)) == [TRAILERS]
  {
    HopNames();
    TokenAlone("te");
    TokenAlone(TRAILERS);
    assert Values(NAMED_TE, CONNECTION) == ["te"] && Values(NAMED_TE, TE) == [TRAILERS];
  }

  lemma NoUpgrade(h: Headers)
    requires UPGRADE !in Tokens(Values(h, CONNECTION))
    ensures Relayed(h).Some? && Relayed(OptionsRemoved(h)).Some?
  {
    UpgradeKept(h);
  }

  /** A request as RFC 9110 has it sent loses its interest in trailers here. */
  lemma TrailersAreLost()
    ensures NamesTe(NAMED_TE) && WantsTrailers(NAMED_TE)
    ensures Relayed(NAMED_TE).Some? && Relayed(OptionsRemoved(NAMED_TE)).Some?
    ensures !AgreeAt(Relayed(OptionsRemoved(NAMED_TE)).value, Relayed(NAMED_TE).value, TE)
  {
    NamedTe();
    HopNames();
    NoUpgrade(NAMED_TE);
    TeDisagrees(NAMED_TE, Relayed(OptionsRemoved(NAMED_TE)).value, Relayed(NAMED_TE).value);
  }

  /** Left to itself the proxy would let a caller name an owned header away. */
  lemma ProxyAloneRemovesOwned(h: Headers, k: string)
    requires Owned(k) && Relayed(h).Some?
    ensures k in Relayed(h).value <==> k in h && k !in Tokens(Values(h, CONNECTION))
  {
    HopNames();
    HopsAreNotOwned();
    OwnedStart(k);
  }
}
