/** Single invocations on concrete device maps. */
module Scenarios {
  import opened Bytes
  import opened Classifier
  import opened Counters
  import opened RedirectTable
  import opened Dispatcher
  import opened Runs

  /** A well-formed IPv4 frame for `protocol` whose destination port is `dport`. */
  predicate Ipv4Frame(h: Headers, protocol: byte, dport: nat)
  {
    && ValidHeaders(h) && h.ethProto == EthProtoIpv4 && h.ipIhl == IpIhlNoOptions
    && h.ipProtocol == protocol && h.dport == dport
  }

  /** No device map entries yet: a UDP reply to port 32750 is counted as a
      match but passed, and no redirect is counted. */
  lemma EmptyTableMatchPasses(s: Strategy, h: Headers, payload: Packet, c: CounterBank, ok: bool)
    requires Ipv4Frame(h, IpProtoUdp, 32750)
    ensures IngressEntry(s, Build(h) + payload, map[], c, ok).verdict == Pass
    ensures Grew(c, IngressEntry(s, Build(h) + payload, map[], c, ok).counters, 1, 0, 0)
  {
    ClassifyBuilt(h, payload);
  }

  /** EGRESS maps to interface 7: the egress program redirects there and
      counts one egress success. */
  lemma EgressToSeven(s: Strategy, c: CounterBank)
    ensures EgressEntry(s, map[TargetKey(Egress) := 7], c, true).verdict == Redirect(7)
    ensures Grew(c, EgressEntry(s, map[TargetKey(Egress) := 7], c, true).counters, 0, 0, 1)
  {
  }

  /** INGRESS maps to interface 3, but a frame to port 100 is not a test
      reply: it is passed and no counter moves. */
  lemma NonTestFramePassesUncounted(s: Strategy, h: Headers, protocol: byte, payload: Packet, c: CounterBank, ok: bool)
    requires Ipv4Frame(h, protocol, 100)
    ensures IngressEntry(s, Build(h) + payload, map[TargetKey(Ingress) := 3], c, ok) == Outcome(Pass, c)
  {
    ClassifyBuilt(h, payload);
  }
}
