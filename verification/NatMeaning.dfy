/**
 * What the table does to connections: it follows the peer list whatever its order, and on two machines that
 * share a list it carries a connection from real address to real address through the two tunnel addresses.
 */
module NatMeaning {
  import opened Basics
  import opened Net
  import opened Configuration
  import opened Validation
  import opened Nat
  import opened PolicyMeaning
  import Wg
  import WgReload

  // ---------- Chains ----------

  predicate Matches(r: Steer, c: Conn) { r.daddr == c.dst && r.proto == c.proto && r.dport == c.dport }

  lemma {:induction false} SteerPortsMeaning(dest: Addr, ports: seq<int>, to: Addr, r: Steer)
    ensures r in SteerPorts(dest, ports, to) <==> r.daddr == dest && r.to == to && r.dport in ports
  {
    if ports != [] {
      var n := |ports| - 1;
      SteerPortsMeaning(dest, ports[..n], to, r);
      assert ports == ports[..n] + [ports[n]];
      assert r.proto == Tcp || r.proto == Udp;
    }
  }

  lemma {:induction false} SteerPeerMeaning(reals: seq<Addr>, ports: seq<int>, to: Addr, r: Steer)
    ensures r in SteerPeer(reals, ports, to) <==> r.daddr in reals && r.to == to && r.dport in ports
  {
    if reals != [] {
      var n := |reals| - 1;
      SteerPeerMeaning(reals[..n], ports, to, r);
      SteerPortsMeaning(reals[n], Dedup(ports), to, r);
      DedupMeaning(ports);
      assert reals == reals[..n] + [reals[n]];
    }
  }

  /** The rule is one of those written for this peer: to one of its real addresses and ports, steered to its tunnel IP. */
  predicate SteersTo(p: NatPeer, r: Steer) { r.daddr in p.realIPs && r.to == p.tunnelIP && r.dport in p.ports }

  lemma {:induction false} SteerAllMeaning(peers: seq<NatPeer>, r: Steer)
    ensures r in SteerAll(peers) <==> exists p :: p in peers && SteersTo(p, r)
  {
    if peers != [] {
      var n := |peers| - 1;
      SteerAllMeaning(peers[..n], r);
      SteerPeerMeaning(peers[n].realIPs, peers[n].ports, peers[n].tunnelIP, r);
      assert SteerAll(peers) == SteerAll(peers[..n]) + SteerPeer(peers[n].realIPs, peers[n].ports, peers[n].tunnelIP);
      assert r in SteerPeer(peers[n].realIPs, peers[n].ports, peers[n].tunnelIP) <==> SteersTo(peers[n], r);
      assert forall p :: p in peers <==> p in peers[..n] || p == peers[n];
    }
  }

  lemma {:induction false} FirstSteerMeaning(rules: seq<Steer>, c: Conn)
    ensures FirstSteer(rules, c).None? ==> forall r :: r in rules ==> !Matches(r, c)
    ensures FirstSteer(rules, c).Some? ==> Steer(c.dst, c.proto, c.dport, FirstSteer(rules, c).value) in rules
  {
    if rules != [] && !Matches(rules[0], c) {
      FirstSteerMeaning(rules[1..], c);
      assert rules == [rules[0]] + rules[1..];
    }
  }

  lemma {:induction false} PresentAllMeaning(iface: string, peers: seq<NatPeer>, r: Present)
    ensures r in PresentAll(iface, peers) <==>
            exists p :: p in peers && p.realIPs != [] && r == Present(iface, p.tunnelIP, p.realIPs[0])
  {
    if peers != [] {
      var n := |peers| - 1;
      PresentAllMeaning(iface, peers[..n], r);
      assert peers == peers[..n] + [peers[n]];
    }
  }

  lemma {:induction false} FirstPresentMeaning(rules: seq<Present>, iif: string, a: Addr)
    ensures FirstPresent(rules, iif, a).None? ==> forall r :: r in rules ==> !(r.iif == iif && r.addr == a)
    ensures FirstPresent(rules, iif, a).Some? ==> Present(iif, a, FirstPresent(rules, iif, a).value) in rules
  {
    if rules != [] && !(rules[0].iif == iif && rules[0].addr == a) {
      FirstPresentMeaning(rules[1..], iif, a);
      assert rules == [rules[0]] + rules[1..];
    }
  }

  // ---------- What natConfig collects ----------

  lemma {:induction false} CollectedPeers(lib: Lib, id: string, peers: seq<Peer>, n: NatConfig, q: NatPeer)
    requires n.peers == []
    ensures q in Collected(lib, id, peers, n).peers <==> exists p :: p in peers && p.peerID != id && q == NatPeerOf(lib, p)
  {
    if peers != [] {
      var k := |peers| - 1;
      CollectedPeers(lib, id, peers[..k], n, q);
      assert peers == peers[..k] + [peers[k]];
    }
  }

  lemma {:induction false} CollectedSettings(lib: Lib, id: string, peers: seq<Peer>, n: NatConfig)
    ensures var m := Collected(lib, id, peers, n);
            m.outgoing == n.outgoing && m.incoming == n.incoming && m.iface == n.iface && m.tunnelCIDR == n.tunnelCIDR
    ensures (forall p :: p in peers ==> p.peerID != id) ==>
              var m := Collected(lib, id, peers, n); m.selfTunnelIP == n.selfTunnelIP && m.selfRealIP == n.selfRealIP
  {
    if peers != [] { CollectedSettings(lib, id, peers[..|peers| - 1], n); }
  }

  lemma {:induction false} CollectedSelf(lib: Lib, peers: seq<Peer>, n: NatConfig, p: Peer)
    requires UniqueIds(peers) && p in peers
    ensures var m := Collected(lib, p.peerID, peers, n);
            && m.selfTunnelIP == TunnelAddr(lib, p)
            && m.selfRealIP == if RealIPs(lib, p) != [] then RealIPs(lib, p)[0] else n.selfRealIP
  {
    var k := |peers| - 1;
    if peers[k] == p {
      CollectedSettings(lib, p.peerID, peers[..k], n);
    } else {
      assert peers == peers[..k] + [peers[k]];
      CollectedSelf(lib, peers[..k], n, p);
    }
  }

  // ---------- Steering, read from the peer list ----------

  /** The connection is to a real address of this machine and to one of its service ports. */
  predicate Reaches(lib: Lib, p: Peer, c: Conn) {
    c.dst in RealIPs(lib, p) && c.dport in PortsOf(p.services)
  }

  /** Every mode but off steers; one that does not parse counts as the default. */
  predicate Steers(c: Config) { c.self.natModes.outgoing != "off" }

  predicate Presents(c: Config) { c.self.natModes.incoming != "tunnel-ip" }

  function Table(lib: Lib, c: Config): Rules { RulesetOf(ConfigOf(lib, c)) }

  /** Some rule of the output chain comes from this entry. */
  lemma SteerOf(lib: Lib, c: Config, p: Peer, conn: Conn)
    requires Steers(c) && p in Others(c) && Reaches(lib, p, conn)
    ensures Steer(conn.dst, conn.proto, conn.dport, TunnelAddr(lib, p)) in Table(lib, c).output
  {
    var n := ConfigOf(lib, c);
    CollectedSettings(lib, c.self.peerID, c.peers, Bare(lib, c.self));
    CollectedPeers(lib, c.self.peerID, c.peers, Bare(lib, c.self), NatPeerOf(lib, p));
    var r := Steer(conn.dst, conn.proto, conn.dport, TunnelAddr(lib, p));
    SteerAllMeaning(n.peers, r);
    assert SteersTo(NatPeerOf(lib, p), r);
  }

  /** Every rule of the output chain comes from an entry of another machine. */
  lemma SteerFrom(lib: Lib, c: Config, r: Steer, conn: Conn) returns (p: Peer)
    requires r in Table(lib, c).output && Matches(r, conn)
    ensures p in Others(c) && Reaches(lib, p, conn) && r.to == TunnelAddr(lib, p)
  {
    var n := ConfigOf(lib, c);
    SteerAllMeaning(n.peers, r);
    var q :| q in n.peers && SteersTo(q, r);
    CollectedPeers(lib, c.self.peerID, c.peers, Bare(lib, c.self), q);
    p :| p in c.peers && p.peerID != c.self.peerID && q == NatPeerOf(lib, p);
  }

  /** Real addresses are not shared, so a connection reaches at most one machine. */
  lemma ReachesOne(lib: Lib, c: Config, p: Peer, q: Peer, conn: Conn)
    requires GoodPeers(lib, c.self, c.peers) && p in c.peers && q in c.peers
    requires Reaches(lib, p, conn) && Reaches(lib, q, conn)
    ensures p == q
  {
    PeersApart(lib, c.self, c.peers, p, q);
  }

  /** A connection to a real address and service port of another machine is steered to its tunnel address. */
  lemma Steered(lib: Lib, c: Config, p: Peer, conn: Conn)
    requires GoodPeers(lib, c.self, c.peers) && Steers(c) && p in Others(c) && Reaches(lib, p, conn)
    ensures FirstSteer(Table(lib, c).output, conn) == Some(TunnelAddr(lib, p))
  {
    var rules := Table(lib, c).output;
    FirstSteerMeaning(rules, conn);
    SteerOf(lib, c, p, conn);
    var to := FirstSteer(rules, conn).value;
    var q := SteerFrom(lib, c, Steer(conn.dst, conn.proto, conn.dport, to), conn);
    ReachesOne(lib, c, p, q, conn);
  }

  /** Every other connection is left as it is. */
  lemma NotSteered(lib: Lib, c: Config, conn: Conn)
    requires Steers(c) ==> forall p :: p in Others(c) ==> !Reaches(lib, p, conn)
    ensures FirstSteer(Table(lib, c).output, conn) == None
  {
    var rules := Table(lib, c).output;
    FirstSteerMeaning(rules, conn);
    CollectedSettings(lib, c.self.peerID, c.peers, Bare(lib, c.self));
    if FirstSteer(rules, conn).Some? {
      var p := SteerFrom(lib, c, Steer(conn.dst, conn.proto, conn.dport, FirstSteer(rules, conn).value), conn);
    }
  }

  // ---------- Presenting, read from the peer list ----------

  /**
   * The address an application is shown for a machine: the address of the first text of its addresses, or of
   * its endpoints when it lists no addresses, that reads as an IPv4 address; its tunnel address when none does.
   */
  ghost predicate ShownAs(lib: Lib, p: Peer, a: Addr) {
    FirstReal(lib, p, a) || ((forall b :: !FirstReal(lib, p, b)) && a == TunnelAddr(lib, p))
  }

  function Shown(lib: Lib, p: Peer): Addr {
    if RealIPs(lib, p) == [] then TunnelAddr(lib, p) else RealIPs(lib, p)[0]
  }

  lemma ShownMeaning(lib: Lib, p: Peer, a: Addr)
    ensures ShownAs(lib, p, a) <==> a == Shown(lib, p)
  {
    forall b ensures FirstReal(lib, p, b) <==> RealIPs(lib, p) != [] && RealIPs(lib, p)[0] == b { FirstRealIP(lib, p, b); }
    hide FirstReal, RealIPs;
    if RealIPs(lib, p) != [] { assert FirstReal(lib, p, RealIPs(lib, p)[0]); }
  }

  lemma PresentFrom(lib: Lib, c: Config, r: Present) returns (p: Peer)
    requires r in Table(lib, c).input
    ensures p in Others(c) && RealIPs(lib, p) != [] && r == Present(c.self.TunName(), TunnelAddr(lib, p), RealIPs(lib, p)[0])
  {
    var n := ConfigOf(lib, c);
    CollectedSettings(lib, c.self.peerID, c.peers, Bare(lib, c.self));
    PresentAllMeaning(n.iface, n.peers, r);
    var q :| q in n.peers && q.realIPs != [] && r == Present(n.iface, q.tunnelIP, q.realIPs[0]);
    CollectedPeers(lib, c.self.peerID, c.peers, Bare(lib, c.self), q);
    p :| p in c.peers && p.peerID != c.self.peerID && q == NatPeerOf(lib, p);
  }

  lemma PresentOf(lib: Lib, c: Config, p: Peer)
    requires Presents(c) && p in Others(c) && RealIPs(lib, p) != []
    ensures Present(c.self.TunName(), TunnelAddr(lib, p), RealIPs(lib, p)[0]) in Table(lib, c).input
  {
    var n := ConfigOf(lib, c);
    CollectedSettings(lib, c.self.peerID, c.peers, Bare(lib, c.self));
    CollectedPeers(lib, c.self.peerID, c.peers, Bare(lib, c.self), NatPeerOf(lib, p));
    PresentAllMeaning(n.iface, n.peers, Present(n.iface, TunnelAddr(lib, p), RealIPs(lib, p)[0]));
  }

  /** A connection from the tunnel address of another machine is shown as coming from its first real address. */
  lemma PresentedAs(lib: Lib, c: Config, p: Peer, shown: Addr)
    requires GoodPeers(lib, c.self, c.peers) && lib.OneSpelling() && Presents(c) && p in Others(c)
    requires ShownAs(lib, p, shown)
    ensures Or(FirstPresent(Table(lib, c).input, c.self.TunName(), TunnelAddr(lib, p)), TunnelAddr(lib, p)) == shown
  {
    hide ShownAs;
    ShownMeaning(lib, p, shown);
    PresentedFrom(lib, c, p);
  }

  lemma PresentedFrom(lib: Lib, c: Config, p: Peer)
    requires GoodPeers(lib, c.self, c.peers) && lib.OneSpelling() && Presents(c) && p in Others(c)
    ensures Or(FirstPresent(Table(lib, c).input, c.self.TunName(), TunnelAddr(lib, p)), TunnelAddr(lib, p)) == Shown(lib, p)
  {
    var rules, iif, a := Table(lib, c).input, c.self.TunName(), TunnelAddr(lib, p);
    FirstPresentMeaning(rules, iif, a);
    if RealIPs(lib, p) != [] { PresentOf(lib, c, p); }
    if FirstPresent(rules, iif, a).Some? {
      var q := PresentFrom(lib, c, Present(iif, a, FirstPresent(rules, iif, a).value));
      TunnelAddrsDiffer(lib, c, p, q);
    }
  }

  lemma NotPresented(lib: Lib, c: Config, iif: string, a: Addr)
    requires Presents(c) && iif == c.self.TunName() ==> forall p :: p in Others(c) ==> TunnelAddr(lib, p) != a
    ensures FirstPresent(Table(lib, c).input, iif, a) == None
  {
    var rules := Table(lib, c).input;
    FirstPresentMeaning(rules, iif, a);
    CollectedSettings(lib, c.self.peerID, c.peers, Bare(lib, c.self));
    if FirstPresent(rules, iif, a).Some? {
      var p := PresentFrom(lib, c, Present(iif, a, FirstPresent(rules, iif, a).value));
    }
  }

  lemma SelfEntry(lib: Lib, c: Config, self: Peer)
    requires GoodPeers(lib, c.self, c.peers) && self in c.peers && self.peerID == c.self.peerID
    ensures var n := ConfigOf(lib, c);
            && n.selfTunnelIP == TunnelAddr(lib, self)
            && n.selfRealIP == if RealIPs(lib, self) != [] then RealIPs(lib, self)[0] else NoAddr
  {
    GoodPeersAreUnique(lib, c.self, c.peers);
    CollectedSelf(lib, c.peers, Bare(lib, c.self), self);
  }

  /** A connection to this machine's tunnel address is given its first real address. */
  lemma DeliveredTo(lib: Lib, c: Config, self: Peer, host: Addr)
    requires GoodPeers(lib, c.self, c.peers) && self in c.peers && self.peerID == c.self.peerID
    requires Presents(c) && FirstReal(lib, self, host)
    ensures FirstPresent(Table(lib, c).prerouting, c.self.TunName(), TunnelAddr(lib, self)) == Some(host)
  {
    FirstRealIP(lib, self, host);
    SelfEntry(lib, c, self);
    CollectedSettings(lib, c.self.peerID, c.peers, Bare(lib, c.self));
    RealIPsMeaning(lib, self);
    assert RealIPs(lib, self)[0] in RealIPs(lib, self);
  }

  // ---------- From application to application ----------

  /** The kernel sends the tunnel range to the TUN device of this machine. */
  ghost predicate RoutesTunnel(lib: Lib, c: Config, route: Addr -> string) {
    var cidr := lib.parsePrefix(c.self.tunnelCIDR);
    cidr.Some? && forall a :: cidr.value.Contains(a) ==> route(a) == c.self.TunName()
  }

  predicate InTunnelRange(lib: Lib, c: Config, a: Addr) {
    var cidr := lib.parsePrefix(c.self.tunnelCIDR);
    cidr.Some? && cidr.value.Contains(a)
  }

  lemma TunnelAddrInRange(lib: Lib, c: Config, p: Peer)
    requires GoodPeers(lib, c.self, c.peers) && p in c.peers && lib.parsePrefix(c.self.tunnelCIDR).Some?
    ensures InTunnelRange(lib, c, TunnelAddr(lib, p))
  {
    PeerIsGood(lib, c.self, c.peers, p);
  }

  lemma RealIPOutsideRange(lib: Lib, c: Config, p: Peer, a: Addr)
    requires GoodPeers(lib, c.self, c.peers) && p in c.peers && a in RealIPs(lib, p)
    ensures !InTunnelRange(lib, c, a)
  {
    PeerIsGood(lib, c.self, c.peers, p);
    RealIPsMeaning(lib, p);
    if p.addresses != [] {
      var s :| s in p.addresses && lib.parseAddr(s).Some? && lib.parseAddr(s).value.Unmap() == a;
      assert GoodAddress(lib, lib.parsePrefix(c.self.tunnelCIDR), s);
    }
  }

  /**
   * A connection to a real address and service port of another machine leaves with that machine's tunnel
   * address as its destination, and with this machine's as its source unless an application had already
   * taken some other address of the tunnel range.
   */
  lemma LeavesThroughTunnel(lib: Lib, c: Config, self: Peer, p: Peer, route: Addr -> string, conn: Conn)
    requires GoodPeers(lib, c.self, c.peers) && Steers(c) && RoutesTunnel(lib, c, route)
    requires self in c.peers && self.peerID == c.self.peerID && p in Others(c) && Reaches(lib, p, conn)
    ensures Leaves(Table(lib, c), route, conn) ==
            Conn(if InTunnelRange(lib, c, conn.src) then conn.src else TunnelAddr(lib, self),
                 TunnelAddr(lib, p), conn.proto, conn.dport)
  {
    Steered(lib, c, p, conn);
    SelfEntry(lib, c, self);
    CollectedSettings(lib, c.self.peerID, c.peers, Bare(lib, c.self));
    TunnelAddrInRange(lib, c, p);
    var rules := Table(lib, c).postrouting;
    assert rules == [Source(c.self.TunName(), lib.parsePrefix(c.self.tunnelCIDR).value, TunnelAddr(lib, self))];
    assert FirstSource(rules[1..], route(TunnelAddr(lib, p)), conn.src) == None;
  }

  /** wg on the machine of c has this key as the owner of this entry's tunnel IP, so it sends and accepts it there. */
  lemma OwnedBy(lib: Lib, c: Config, dev: Wg.Device<string>, p: Peer)
    requires WgReload.Sane(lib, c) && WgReload.Tracks(lib, c, dev) && p in Others(c)
    ensures p.tunnelIP in dev.owner && lib.parseKey(p.publicKey) == Some(dev.owner[p.tunnelIP])
  {
    WgReload.AssignedEntry(lib, c, p);
    WgReload.OtherKey(lib, c, p);
  }

  /**
   * End to end. Two machines share a peer list; the first steers and the second presents. A connection from
   * the first to any real address and service port of the second travels between the two tunnel addresses,
   * each owned in the other's wg by the right key, and reaches the application with both first real addresses.
   */
  lemma EndToEnd(lib: Lib, ca: Config, cb: Config, a: Peer, b: Peer, route: Addr -> string,
                 da: Wg.Device<string>, db: Wg.Device<string>, conn: Conn, caller: Addr, host: Addr)
    requires lib.OneSpelling() && WgReload.Sane(lib, ca) && WgReload.Sane(lib, cb) && ca.peers == cb.peers
    requires a in ca.peers && a.peerID == ca.self.peerID && b in ca.peers && b.peerID == cb.self.peerID && a != b
    requires Steers(ca) && Presents(cb) && RoutesTunnel(lib, ca, route)
    requires WgReload.Tracks(lib, ca, da) && WgReload.Tracks(lib, cb, db)
    requires Reaches(lib, b, conn) && (InTunnelRange(lib, ca, conn.src) ==> conn.src == TunnelAddr(lib, a))
    requires ShownAs(lib, a, caller) && FirstReal(lib, b, host)
    ensures var inner := Leaves(Table(lib, ca), route, conn);
            && inner == Conn(TunnelAddr(lib, a), TunnelAddr(lib, b), conn.proto, conn.dport)
            && b.tunnelIP in da.owner && lib.parseKey(b.publicKey) == Some(da.owner[b.tunnelIP])
            && a.tunnelIP in db.owner && lib.parseKey(a.publicKey) == Some(db.owner[a.tunnelIP])
            && Arrives(Table(lib, cb), cb.self.TunName(), inner) == Conn(caller, host, conn.proto, conn.dport)
  {
    PeersApart(lib, ca.self, ca.peers, a, b);
    OwnedBy(lib, ca, da, b);
    OwnedBy(lib, cb, db, a);
    LeavesThroughTunnel(lib, ca, a, b, route, conn);
    PresentedAs(lib, cb, a, caller);
    DeliveredTo(lib, cb, b, host);
  }

  /** The address an application is shown tells which machine called. */
  lemma ShownTellsWho(lib: Lib, c: Config, p: Peer, q: Peer, shown: Addr)
    requires GoodPeers(lib, c.self, c.peers) && lib.OneSpelling() && lib.parsePrefix(c.self.tunnelCIDR).Some?
    requires p in c.peers && q in c.peers && ShownAs(lib, p, shown) && ShownAs(lib, q, shown)
    ensures p == q
  {
    hide ShownAs;
    ShownMeaning(lib, p, shown);
    ShownMeaning(lib, q, shown);
    PeersApart(lib, c.self, c.peers, p, q);
    TunnelAddrsDiffer(lib, c, p, q);
    TunnelAddrInRange(lib, c, p);
    TunnelAddrInRange(lib, c, q);
    if RealIPs(lib, p) != [] { RealIPOutsideRange(lib, c, p, Shown(lib, p)); }
    if RealIPs(lib, q) != [] { RealIPOutsideRange(lib, c, q, Shown(lib, q)); }
  }

  // ---------- The order of the list ----------

  /** The same csa.toml and the same entries, in whatever order. */
  ghost predicate SameEntries(c: Config, d: Config) {
    c.self == d.self && forall p :: p in c.peers <==> p in d.peers
  }

  lemma SteersAlike(lib: Lib, c: Config, d: Config, conn: Conn)
    requires GoodPeers(lib, c.self, c.peers) && GoodPeers(lib, d.self, d.peers) && SameEntries(c, d)
    ensures FirstSteer(Table(lib, c).output, conn) == FirstSteer(Table(lib, d).output, conn)
  {
    if Steers(c) && exists p :: p in Others(c) && Reaches(lib, p, conn) {
      var p :| p in Others(c) && Reaches(lib, p, conn);
      Steered(lib, c, p, conn);
      Steered(lib, d, p, conn);
    } else {
      NotSteered(lib, c, conn);
      NotSteered(lib, d, conn);
    }
  }

  lemma PresentsAlike(lib: Lib, c: Config, d: Config, iif: string, a: Addr)
    requires GoodPeers(lib, c.self, c.peers) && GoodPeers(lib, d.self, d.peers) && SameEntries(c, d) && lib.OneSpelling()
    ensures Or(FirstPresent(Table(lib, c).input, iif, a), a) == Or(FirstPresent(Table(lib, d).input, iif, a), a)
  {
    if Presents(c) && iif == c.self.TunName() && exists p :: p in Others(c) && TunnelAddr(lib, p) == a {
      var p :| p in Others(c) && TunnelAddr(lib, p) == a;
      PresentedFrom(lib, c, p);
      PresentedFrom(lib, d, p);
    } else {
      NotPresented(lib, c, iif, a);
      NotPresented(lib, d, iif, a);
    }
  }

  lemma SelfAlike(lib: Lib, c: Config, d: Config)
    requires GoodPeers(lib, c.self, c.peers) && GoodPeers(lib, d.self, d.peers) && SameEntries(c, d)
    ensures Table(lib, c).postrouting == Table(lib, d).postrouting && Table(lib, c).prerouting == Table(lib, d).prerouting
  {
    hide GoodPeers, Bare;
    CollectedSettings(lib, c.self.peerID, c.peers, Bare(lib, c.self));
    CollectedSettings(lib, c.self.peerID, d.peers, Bare(lib, c.self));
    if p :| p in c.peers && p.peerID == c.self.peerID {
      SelfEntry(lib, c, p);
      SelfEntry(lib, d, p);
    }
  }

  /** Two valid configurations with the same entries translate every connection alike, in both directions. */
  lemma OrderDoesNotMatter(lib: Lib, c: Config, d: Config, route: Addr -> string, iif: string, conn: Conn)
    requires GoodPeers(lib, c.self, c.peers) && GoodPeers(lib, d.self, d.peers) && SameEntries(c, d) && lib.OneSpelling()
    ensures Leaves(Table(lib, c), route, conn) == Leaves(Table(lib, d), route, conn)
    ensures Arrives(Table(lib, c), iif, conn) == Arrives(Table(lib, d), iif, conn)
  {
    SteersAlike(lib, c, d, conn);
    PresentsAlike(lib, c, d, iif, conn.src);
    SelfAlike(lib, c, d);
  }
}
