/** internal/nat/nat.go and natConfig of cmd/csa/main.go: the table that swaps real and tunnel addresses. */
module Nat {
  import opened Basics
  import opened Net
  import opened Configuration
  import opened Sorting

  datatype Outgoing = OutServices | OutOff

  datatype Incoming = InRealIP | InTunnelIP

  function ParseOutgoing(s: string): Result<Outgoing, string> {
    if s == "" || s == "services" then Ok(OutServices) else if s == "off" then Ok(OutOff) else Err(s)
  }

  function ParseIncoming(s: string): Result<Incoming, string> {
    if s == "" || s == "real-ip" then Ok(InRealIP) else if s == "tunnel-ip" then Ok(InTunnelIP) else Err(s)
  }

  datatype NatPeer = NatPeer(tunnelIP: Addr, realIPs: seq<Addr>, ports: seq<int>)

  datatype NatConfig = NatConfig(
    outgoing: Outgoing, incoming: Incoming, iface: string, tunnelCIDR: Prefix,
    selfTunnelIP: Addr, selfRealIP: Addr, peers: seq<NatPeer>)
  {
    /** A configuration that makes no table. */
    predicate Empty() { outgoing == OutOff && incoming == InTunnelIP }
  }

  // ---------- natConfig ----------

  function NatPeerOf(lib: Lib, p: Peer): NatPeer {
    NatPeer(TunnelAddr(lib, p), RealIPs(lib, p), PortsOf(p.services))
  }

  function WithSelf(lib: Lib, n: NatConfig, p: Peer): NatConfig {
    n.(selfTunnelIP := TunnelAddr(lib, p),
       selfRealIP := if RealIPs(lib, p) != [] then RealIPs(lib, p)[0] else n.selfRealIP)
  }

  /** The entry of the machine itself gives its own addresses; every other entry is a peer. */
  function Collected(lib: Lib, id: string, peers: seq<Peer>, n: NatConfig): NatConfig {
    if peers == [] then n else
    var p, before := peers[|peers| - 1], Collected(lib, id, peers[..|peers| - 1], n);
    if p.peerID == id then WithSelf(lib, before, p) else before.(peers := before.peers + [NatPeerOf(lib, p)])
  }

  function Bare(lib: Lib, self: Self): NatConfig {
    NatConfig(
      match ParseOutgoing(self.natModes.outgoing) case Ok(o) => o case Err(_) => OutServices,
      match ParseIncoming(self.natModes.incoming) case Ok(i) => i case Err(_) => InRealIP,
      self.TunName(),
      match lib.parsePrefix(self.tunnelCIDR) case Some(p) => p case None => Prefix(NoAddr, 0),
      NoAddr, NoAddr, [])
  }

  function ConfigOf(lib: Lib, c: Config): NatConfig {
    Collected(lib, c.self.peerID, c.peers, Bare(lib, c.self))
  }

  /** natConfig. */
  method MakeConfig(lib: Lib, c: Config) returns (n: NatConfig)
    ensures n == ConfigOf(lib, c)
  {
    n := Bare(lib, c.self);
    for i := 0 to |c.peers|
      invariant n == Collected(lib, c.self.peerID, c.peers[..i], Bare(lib, c.self))
    {
      var p := c.peers[i];
      assert c.peers[..i + 1][..i] == c.peers[..i];
      var reals := ListRealIPs(lib, p);
      if p.peerID == c.self.peerID {
        n := n.(selfTunnelIP := TunnelAddr(lib, p));
        if |reals| > 0 { n := n.(selfRealIP := reals[0]); }
      } else {
        var ports := ListPorts(p.services);
        n := n.(peers := n.peers + [NatPeer(TunnelAddr(lib, p), reals, ports)]);
      }
    }
    assert c.peers[..|c.peers|] == c.peers;
  }

  // ---------- Ports in order, each once ----------

  function FirstInts(s: seq<int>): seq<int> {
    if s == [] then [] else
    var before := FirstInts(s[..|s| - 1]);
    if s[|s| - 1] in before then before else before + [s[|s| - 1]]
  }

  predicate Ascending(s: seq<int>) { forall i, j :: 0 <= i < j < |s| ==> s[i] < s[j] }

  lemma {:induction false} FirstIntsMeaning(s: seq<int>)
    ensures forall i, j :: 0 <= i < j < |FirstInts(s)| ==> FirstInts(s)[i] != FirstInts(s)[j]
    ensures forall x :: x in FirstInts(s) <==> x in s
  {
    if s != [] {
      FirstIntsMeaning(s[..|s| - 1]);
      assert s == s[..|s| - 1] + [s[|s| - 1]];
    }
  }

  function Dedup(s: seq<int>): seq<int> { Sort(FirstInts(s), IntLeq) }

  /** Each port once, in ascending order. */
  lemma DedupMeaning(s: seq<int>)
    ensures Ascending(Dedup(s)) && forall x :: x in Dedup(s) <==> x in s
  {
    FirstIntsMeaning(s);
    IntsAreOrdered();
    var first := set x | x in FirstInts(s);
    SortArranges(FirstInts(s), first, IntLeq);
  }

  /** dedup. */
  method DedupPorts(s: seq<int>) returns (out: seq<int>)
    ensures out == Dedup(s)
  {
    out := [];
    var seen := {};
    for i := 0 to |s|
      invariant out == FirstInts(s[..i]) && forall v :: v in seen <==> v in out
    {
      ghost var upTo := s[..i + 1];
      assert upTo[..|upTo| - 1] == s[..i] && upTo[|upTo| - 1] == s[i];
      if s[i] !in seen {
        seen := seen + {s[i]};
        out := out + [s[i]];
      }
    }
    assert s[..|s|] == s;
    out := Sort(out, IntLeq);
  }

  // ---------- Ruleset ----------

  datatype Proto = Tcp | Udp

  /** Chain output: ip daddr, protocol and port, dnat. */
  datatype Steer = Steer(daddr: Addr, proto: Proto, dport: int, to: Addr)

  /** Chain postrouting: oifname, ip saddr outside the tunnel range, snat. */
  datatype Source = Source(oif: string, outside: Prefix, to: Addr)

  /** Chain prerouting: iifname, ip daddr, dnat. Chain input: iifname, ip saddr, snat. */
  datatype Present = Present(iif: string, addr: Addr, to: Addr)

  datatype Rules = Rules(output: seq<Steer>, postrouting: seq<Source>, prerouting: seq<Present>, input: seq<Present>)

  function SteerPorts(dest: Addr, ports: seq<int>, to: Addr): seq<Steer> {
    if ports == [] then [] else
    var n := |ports| - 1;
    SteerPorts(dest, ports[..n], to) + [Steer(dest, Tcp, ports[n], to), Steer(dest, Udp, ports[n], to)]
  }

  function SteerPeer(reals: seq<Addr>, ports: seq<int>, to: Addr): seq<Steer> {
    if reals == [] then [] else
    SteerPeer(reals[..|reals| - 1], ports, to) + SteerPorts(reals[|reals| - 1], Dedup(ports), to)
  }

  function SteerAll(peers: seq<NatPeer>): seq<Steer> {
    if peers == [] then [] else
    var p := peers[|peers| - 1];
    SteerAll(peers[..|peers| - 1]) + SteerPeer(p.realIPs, p.ports, p.tunnelIP)
  }

  function PresentAll(iface: string, peers: seq<NatPeer>): seq<Present> {
    if peers == [] then [] else
    var p := peers[|peers| - 1];
    PresentAll(iface, peers[..|peers| - 1]) +
    if p.realIPs == [] then [] else [Present(iface, p.tunnelIP, p.realIPs[0])]
  }

  function RulesetOf(n: NatConfig): Rules {
    Rules(
      if n.outgoing == OutServices then SteerAll(n.peers) else [],
      if n.outgoing == OutServices then [Source(n.iface, n.tunnelCIDR, n.selfTunnelIP)] else [],
      if n.incoming == InRealIP && !n.selfRealIP.NoAddr? then [Present(n.iface, n.selfTunnelIP, n.selfRealIP)] else [],
      if n.incoming == InRealIP then PresentAll(n.iface, n.peers) else [])
  }

  method SteerOne(p: NatPeer) returns (rules: seq<Steer>)
    ensures rules == SteerPeer(p.realIPs, p.ports, p.tunnelIP)
  {
    rules := [];
    for i := 0 to |p.realIPs|
      invariant rules == SteerPeer(p.realIPs[..i], p.ports, p.tunnelIP)
    {
      var dest := p.realIPs[i];
      var ports := DedupPorts(p.ports);
      ghost var before := rules;
      for j := 0 to |ports|
        invariant rules == before + SteerPorts(dest, ports[..j], p.tunnelIP)
      {
        assert ports[..j + 1][..j] == ports[..j];
        rules := rules + [Steer(dest, Tcp, ports[j], p.tunnelIP), Steer(dest, Udp, ports[j], p.tunnelIP)];
      }
      assert ports[..|ports|] == ports;
      assert p.realIPs[..i + 1][..i] == p.realIPs[..i];
    }
    assert p.realIPs[..|p.realIPs|] == p.realIPs;
  }

  /** Ruleset. */
  method Ruleset(n: NatConfig) returns (r: Rules)
    ensures r == RulesetOf(n)
  {
    r := Rules([], [], [], []);
    if n.outgoing == OutServices {
      for i := 0 to |n.peers|
        invariant r == Rules(SteerAll(n.peers[..i]), [], [], [])
      {
        var more := SteerOne(n.peers[i]);
        assert n.peers[..i + 1][..i] == n.peers[..i];
        r := r.(output := r.output + more);
      }
      assert n.peers[..|n.peers|] == n.peers;
      r := r.(postrouting := [Source(n.iface, n.tunnelCIDR, n.selfTunnelIP)]);
    }
    if n.incoming == InRealIP {
      if !n.selfRealIP.NoAddr? { r := r.(prerouting := [Present(n.iface, n.selfTunnelIP, n.selfRealIP)]); }
      var input := [];
      for i := 0 to |n.peers|
        invariant input == PresentAll(n.iface, n.peers[..i])
      {
        var p := n.peers[i];
        assert n.peers[..i + 1][..i] == n.peers[..i];
        if |p.realIPs| == 0 { continue; }
        input := input + [Present(n.iface, p.tunnelIP, p.realIPs[0])];
      }
      assert n.peers[..|n.peers|] == n.peers;
      r := r.(input := input);
    }
  }

  // ---------- What the kernel does with a table ----------

  /** The first packet of a connection; the first rule of a chain that matches it decides. */
  datatype Conn = Conn(src: Addr, dst: Addr, proto: Proto, dport: int)

  function FirstSteer(rules: seq<Steer>, c: Conn): Option<Addr> {
    if rules == [] then None
    else if rules[0].daddr == c.dst && rules[0].proto == c.proto && rules[0].dport == c.dport then Some(rules[0].to)
    else FirstSteer(rules[1..], c)
  }

  function FirstPresent(rules: seq<Present>, iif: string, a: Addr): Option<Addr> {
    if rules == [] then None
    else if rules[0].iif == iif && rules[0].addr == a then Some(rules[0].to)
    else FirstPresent(rules[1..], iif, a)
  }

  function FirstSource(rules: seq<Source>, oif: string, a: Addr): Option<Addr> {
    if rules == [] then None
    else if rules[0].oif == oif && !rules[0].outside.Contains(a) then Some(rules[0].to)
    else FirstSource(rules[1..], oif, a)
  }

  function Or(o: Option<Addr>, a: Addr): Addr { match o case Some(b) => b case None => a }

  /** A connection this machine opens: steered, routed again by its new destination, and given a new source. */
  function Leaves(r: Rules, route: Addr -> string, c: Conn): Conn {
    var dst := Or(FirstSteer(r.output, c), c.dst);
    Conn(Or(FirstSource(r.postrouting, route(dst), c.src), c.src), dst, c.proto, c.dport)
  }

  /** A connection that came in over an interface, as the application it is for sees it. */
  function Arrives(r: Rules, iif: string, c: Conn): Conn {
    Conn(Or(FirstPresent(r.input, iif, c.src), c.src), Or(FirstPresent(r.prerouting, iif, c.dst), c.dst), c.proto, c.dport)
  }
}
