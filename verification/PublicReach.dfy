/** Which addresses a declared public port reaches (gitops.go): everything but the ranges that
    are not public, for any address arithmetic in which an exclusion excludes. */
module PublicReach {
  import opened Topology
  import opened EnvironmentPlan
  import opened NetworkPolicies
  import opened EgressMeaning

  /** The address is in the block and in none of the excluded ones. */
  ghost predicate Exact(blocks: Blocks) {
    forall ip, cidr, excluded: seq<string> ::
      blocks(ip, cidr, excluded) <==> blocks(ip, cidr, []) && !Within(ip, excluded, blocks)
  }

  ghost predicate Within(ip: string, cidrs: seq<string>, blocks: Blocks) {
    exists cidr :: cidr in cidrs && blocks(ip, cidr, [])
  }

  /** Addresses for use inside a network or a host: private, shared, loopback, link-local. */
  const LOCAL4: seq<string> := [
    "10.0.0.0/8", "172.16.0.0/12", "192.168.0.0/16", "100.64.0.0/10", "127.0.0.0/8", "169.254.0.0/16", "0.0.0.0/8"]

  /** Protocol assignments, documentation, benchmarking, multicast and what is reserved. */
  const SPECIAL4: seq<string> := [
    "192.0.0.0/24", "192.0.2.0/24", "198.51.100.0/24", "203.0.113.0/24", "198.18.0.0/15", "192.31.196.0/24",
    "192.52.193.0/24", "192.175.48.0/24", "192.88.99.0/24", "224.0.0.0/4", "240.0.0.0/4"]

  const LOCAL6: seq<string> := ["::/128", "::1/128", "fc00::/7", "fe80::/10", "ff00::/8"]

  const SPECIAL6: seq<string> := [
    "64:ff9b::/96", "64:ff9b:1::/48", "100::/64", "2001::/23", "2001:db8::/32", "2002::/16"]

  lemma Excluded4(cidr: string)
    ensures cidr in IPV4_EXCLUDED <==> cidr in LOCAL4 || cidr in SPECIAL4
  {
    assert LOCAL4 == [IPV4_EXCLUDED[1], IPV4_EXCLUDED[5], IPV4_EXCLUDED[11], IPV4_EXCLUDED[2], IPV4_EXCLUDED[3],
                      IPV4_EXCLUDED[4], IPV4_EXCLUDED[0]];
    assert SPECIAL4 == [IPV4_EXCLUDED[6], IPV4_EXCLUDED[7], IPV4_EXCLUDED[14], IPV4_EXCLUDED[15], IPV4_EXCLUDED[13],
                        IPV4_EXCLUDED[8], IPV4_EXCLUDED[9], IPV4_EXCLUDED[12], IPV4_EXCLUDED[10], IPV4_EXCLUDED[16],
                        IPV4_EXCLUDED[17]];
    Rearranged4(IPV4_EXCLUDED, cidr);
  }

  lemma Rearranged4(s: seq<string>, x: string)
    requires |s| == 18
    ensures x in s <==> x in [s[1], s[5], s[11], s[2], s[3], s[4], s[0]]
                        || x in [s[6], s[7], s[14], s[15], s[13], s[8], s[9], s[12], s[10], s[16], s[17]]
  {
    assert s == [s[0], s[1], s[2], s[3], s[4], s[5], s[6], s[7], s[8], s[9], s[10], s[11], s[12], s[13], s[14], s[15],
                 s[16], s[17]];
  }

  lemma Excluded6(cidr: string)
    ensures cidr in IPV6_EXCLUDED <==> cidr in LOCAL6 || cidr in SPECIAL6
  {
    assert LOCAL6 == [IPV6_EXCLUDED[0], IPV6_EXCLUDED[1], IPV6_EXCLUDED[8], IPV6_EXCLUDED[9], IPV6_EXCLUDED[10]];
    assert SPECIAL6 == [IPV6_EXCLUDED[2], IPV6_EXCLUDED[3], IPV6_EXCLUDED[4], IPV6_EXCLUDED[5], IPV6_EXCLUDED[6],
                        IPV6_EXCLUDED[7]];
    Rearranged6(IPV6_EXCLUDED, cidr);
  }

  lemma Rearranged6(s: seq<string>, x: string)
    requires |s| == 11
    ensures x in s <==> x in [s[0], s[1], s[8], s[9], s[10]] || x in [s[2], s[3], s[4], s[5], s[6], s[7]]
  {
    assert s == [s[0], s[1], s[2], s[3], s[4], s[5], s[6], s[7], s[8], s[9], s[10]];
  }

  /** An address in neither list of its family. */
  ghost predicate Public4(ip: string, blocks: Blocks) {
    blocks(ip, "0.0.0.0/0", []) && !Within(ip, LOCAL4, blocks) && !Within(ip, SPECIAL4, blocks)
  }

  ghost predicate Public6(ip: string, blocks: Blocks) {
    blocks(ip, "::/0", []) && !Within(ip, LOCAL6, blocks) && !Within(ip, SPECIAL6, blocks)
  }

  lemma WithinEither(ip: string, all: seq<string>, a: seq<string>, b: seq<string>, blocks: Blocks)
    requires forall cidr :: cidr in all <==> cidr in a || cidr in b
    ensures Within(ip, all, blocks) <==> Within(ip, a, blocks) || Within(ip, b, blocks)
  {
  }

  lemma PublicAddresses(ip: string, blocks: Blocks)
    requires Exact(blocks)
    ensures blocks(ip, "0.0.0.0/0", IPV4_EXCLUDED) <==> Public4(ip, blocks)
    ensures blocks(ip, "::/0", IPV6_EXCLUDED) <==> Public6(ip, blocks)
  {
    forall cidr ensures cidr in IPV4_EXCLUDED <==> cidr in LOCAL4 || cidr in SPECIAL4 { Excluded4(cidr); }
    forall cidr ensures cidr in IPV6_EXCLUDED <==> cidr in LOCAL6 || cidr in SPECIAL6 { Excluded6(cidr); }
    WithinEither(ip, IPV4_EXCLUDED, LOCAL4, SPECIAL4, blocks);
    WithinEither(ip, IPV6_EXCLUDED, LOCAL6, SPECIAL6, blocks);
  }

  /** A public port reaches exactly the public addresses of both families. */
  lemma PublicMeansPublic(plan: Plan, s: Service, dst: Pod, port: Port, blocks: Blocks)
    requires Exact(blocks)
    ensures ToPublic(plan, s, dst, port, blocks) <==>
              && s.name in plan.services && (exists n :: n in s.publicEgressPorts && port == Port(TCP, n))
              && (Public4(dst.ip, blocks) || Public6(dst.ip, blocks))
  {
    PublicAddresses(dst.ip, blocks);
  }

  /** The tunnel is one port. */
  lemma TunnelPort(t: Topo, plan: Plan, ns: string, s: Service, dst: Pod, blocks: Blocks)
    ensures MayOpen(t, plan, ns, s, dst, Port(TCP, 15008), blocks)
  {
  }
}
