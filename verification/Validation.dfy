/**
 * internal/config/validate.go: checkPeers and checkPolicy. Each collects every problem it finds;
 * what is proved is that they find none exactly when the declarative conditions below hold.
 */
module Validation {
  import opened Basics
  import opened Net
  import opened Configuration

  datatype Problem =
    | NoPeers | NoPeerId | BadLabel(text: string) | SameId(id: string)
    | NoKey(id: string) | BadKey(id: string) | SameKey(other: string, id: string)
    | BadTunnelIP(id: string) | SameTunnelIP(other: string, id: string) | TunnelIPNotV4(id: string)
    | TunnelIPOutside(id: string)
    | BadEndpoint(id: string, text: string) | EndpointPortZero(id: string, text: string)
    | BadAddress(id: string, text: string) | AddressNotV4(id: string, text: string)
    | AddressInside(id: string, text: string) | RealIPInside(id: string, addr: Addr)
    | SameRealIP(addr: Addr, other: string, id: string)
    | NoApp(id: string) | SameApp(id: string, app: string) | PortRange(id: string, app: string)
    | SamePort(id: string, port: int) | PortIsListenPort(app: string)
    | SelfUnlisted | SelfRealIPUnknown
    | UnknownApp(app: string) | UnknownPeer(id: string) | BadRange(text: string)
    | RangeWithoutExpiry(app: string) | BadExpiry(app: string) | AlreadyExpired(app: string)
    | BadTarget(text: string) | NoSuchApp(id: string, app: string)

  // ---------- What a valid peer list is ----------

  /** A label of a DNS name in lower case. */
  predicate Label(v: string) {
    && 0 < |v| <= 63
    && (forall c :: c in v ==> 'a' <= c <= 'z' || '0' <= c <= '9' || c == '-')
    && v[0] != '-' && v[|v| - 1] != '-'
  }

  /** A key that decodes and is not all zero. */
  predicate GoodKey(lib: Lib, text: string) {
    text != "" && lib.parseKey(text).Some? && lib.parseKey(text).value != 0
  }

  predicate Outside(cidr: Option<Prefix>, a: Addr) { cidr.Some? ==> !cidr.value.Contains(a) }

  predicate GoodTunnelIP(lib: Lib, cidr: Option<Prefix>, text: string) {
    var a := lib.parseAddr(text);
    a.Some? && a.value.V4? && (cidr.Some? ==> cidr.value.Contains(a.value))
  }

  predicate GoodEndpoint(lib: Lib, text: string) {
    lib.parseAddrPort(text).Some? && lib.parseAddrPort(text).value.1 != 0
  }

  predicate GoodAddress(lib: Lib, cidr: Option<Prefix>, text: string) {
    var a := lib.parseAddr(text);
    a.Some? && a.value.Unmap().V4? && Outside(cidr, a.value.Unmap())
  }

  predicate GoodService(self: Self, id: string, s: Service) {
    Label(s.app) && 0 < s.port <= 65535 && (id == self.peerID ==> s.port != self.listenPort)
  }

  /** A service against the services before it: another name and another port. */
  predicate ServiceApart(services: seq<Service>, i: nat)
    requires i < |services|
  {
    forall j :: 0 <= j < i ==> services[j].app != services[i].app && services[j].port != services[i].port
  }

  /** Services of one machine differ in name and in port. */
  predicate ServicesApart(services: seq<Service>) {
    forall i :: 0 <= i < |services| ==> ServiceApart(services, i)
  }

  predicate GoodPeer(lib: Lib, self: Self, p: Peer) {
    var cidr := lib.parsePrefix(self.tunnelCIDR);
    && Label(p.peerID) && GoodKey(lib, p.publicKey) && GoodTunnelIP(lib, cidr, p.tunnelIP)
    && (forall ep :: ep in p.endpoints ==> GoodEndpoint(lib, ep))
    && (forall s :: s in p.addresses ==> GoodAddress(lib, cidr, s))
    && (p.addresses == [] ==> forall a :: a in RealIPs(lib, p) ==> Outside(cidr, a))
    && (forall s :: s in p.services ==> GoodService(self, p.peerID, s))
    && ServicesApart(p.services)
  }

  /** Two peers share no id, key, tunnel IP or real IP. */
  predicate Apart(lib: Lib, p: Peer, q: Peer) {
    && p.peerID != q.peerID
    && lib.parseKey(p.publicKey) != lib.parseKey(q.publicKey)
    && p.tunnelIP != q.tunnelIP
    && forall a :: a in RealIPs(lib, p) ==> a !in RealIPs(lib, q)
  }

  ghost predicate GoodPeers(lib: Lib, self: Self, peers: seq<Peer>) {
    && (forall i :: 0 <= i < |peers| ==> GoodPeer(lib, self, peers[i]))
    && (forall i, j :: 0 <= i < j < |peers| ==> Apart(lib, peers[i], peers[j]))
  }

  predicate SelfPresentable(lib: Lib, c: Config) {
    var self := Find(c.peers, c.self.peerID);
    self.Some? && c.self.natModes.incoming != "tunnel-ip" ==> RealIPs(lib, self.value) != []
  }

  ghost predicate ValidPeers(lib: Lib, c: Config) {
    && c.peers != []
    && GoodPeers(lib, c.self, c.peers)
    && (c.self.peerID != "" ==> Find(c.peers, c.self.peerID).Some?)
    && SelfPresentable(lib, c)
  }

  lemma GoodPeersAreUnique(lib: Lib, self: Self, peers: seq<Peer>)
    requires GoodPeers(lib, self, peers)
    ensures UniqueIds(peers)
  {
    forall i, j | 0 <= i < j < |peers| ensures peers[i].peerID != peers[j].peerID {
      assert Apart(lib, peers[i], peers[j]);
    }
  }

  /** Any two entries of a valid list are the same entry or share nothing. */
  lemma PeersApart(lib: Lib, self: Self, peers: seq<Peer>, p: Peer, q: Peer)
    requires GoodPeers(lib, self, peers) && p in peers && q in peers
    ensures p == q || (Apart(lib, p, q) && Apart(lib, q, p))
  {
    var i :| 0 <= i < |peers| && peers[i] == p;
    var j :| 0 <= j < |peers| && peers[j] == q;
    if i < j { assert Apart(lib, peers[i], peers[j]); }
    if j < i { assert Apart(lib, peers[j], peers[i]); }
  }

  lemma PeerIsGood(lib: Lib, self: Self, peers: seq<Peer>, p: Peer)
    requires GoodPeers(lib, self, peers) && p in peers
    ensures GoodPeer(lib, self, p)
  {
    var i :| 0 <= i < |peers| && peers[i] == p;
  }

  // ---------- checkPeers ----------

  method CheckEndpoints(lib: Lib, p: Peer) returns (bad: seq<Problem>)
    ensures bad == [] <==> forall ep :: ep in p.endpoints ==> GoodEndpoint(lib, ep)
  {
    bad := [];
    for i := 0 to |p.endpoints|
      invariant bad == [] <==> forall j :: 0 <= j < i ==> GoodEndpoint(lib, p.endpoints[j])
    {
      var r := lib.parseAddrPort(p.endpoints[i]);
      if r.None? {
        bad := bad + [BadEndpoint(p.peerID, p.endpoints[i])];
      } else if r.value.1 == 0 {
        bad := bad + [EndpointPortZero(p.peerID, p.endpoints[i])];
      }
    }
  }

  method CheckAddresses(lib: Lib, cidr: Option<Prefix>, p: Peer) returns (bad: seq<Problem>)
    ensures bad == [] <==> forall s :: s in p.addresses ==> GoodAddress(lib, cidr, s)
  {
    bad := [];
    for i := 0 to |p.addresses|
      invariant bad == [] <==> forall j :: 0 <= j < i ==> GoodAddress(lib, cidr, p.addresses[j])
    {
      var a := lib.parseAddr(p.addresses[i]);
      if a.None? {
        bad := bad + [BadAddress(p.peerID, p.addresses[i])];
      } else if !a.value.Unmap().V4? {
        bad := bad + [AddressNotV4(p.peerID, p.addresses[i])];
      } else if cidr.Some? && cidr.value.Contains(a.value.Unmap()) {
        bad := bad + [AddressInside(p.peerID, p.addresses[i])];
      }
    }
  }

  /** The loop over real IPs. owner is seenReal: which peer was the last to claim an address without a clash. */
  method CheckRealIPs(lib: Lib, cidr: Option<Prefix>, p: Peer, owner: map<Addr, string>)
    returns (bad: seq<Problem>, owner': map<Addr, string>)
    ensures Unclaimed(owner, p.peerID) ==>
              (bad == [] <==> && (p.addresses == [] ==> forall a :: a in RealIPs(lib, p) ==> Outside(cidr, a))
                              && (forall a :: a in RealIPs(lib, p) ==> a !in owner))
    ensures Unclaimed(owner, p.peerID) && bad == [] ==>
              && (forall a :: a in owner' <==> a in owner || a in RealIPs(lib, p))
              && (forall a :: a in owner ==> owner'[a] == owner[a])
              && (forall a :: a in RealIPs(lib, p) ==> owner'[a] == p.peerID)
  {
    hide RealIPs, Prefix.Contains;
    bad, owner' := [], owner;
    var found := ListRealIPs(lib, p);
    RealIPsMeaning(lib, p);
    for i := 0 to |found|
      invariant Unclaimed(owner, p.peerID) ==>
                  (bad == [] <==> forall j :: 0 <= j < i ==>
                    (p.addresses == [] ==> Outside(cidr, found[j])) && found[j] !in owner)
      invariant Unclaimed(owner, p.peerID) && bad == [] ==>
                  && (forall a :: a in owner' <==> a in owner || a in found[..i])
                  && (forall a :: a in owner ==> owner'[a] == owner[a])
                  && (forall a :: a in found[..i] ==> owner'[a] == p.peerID)
    {
      var a := found[i];
      if |p.addresses| == 0 && cidr.Some? && cidr.value.Contains(a) {
        bad := bad + [RealIPInside(p.peerID, a)];
      }
      if a in owner' && owner'[a] != p.peerID {
        bad := bad + [SameRealIP(a, owner'[a], p.peerID)];
      } else {
        owner' := owner'[a := p.peerID];
      }
    }
    assert found[..|found|] == found;
  }

  ghost predicate Unclaimed(owner: map<Addr, string>, id: string) { forall a :: a in owner ==> owner[a] != id }

  /** The checks of one service that look at no other. */
  method CheckService(self: Self, id: string, s: Service) returns (bad: seq<Problem>)
    ensures bad == [] <==> GoodService(self, id, s)
  {
    bad := [];
    if s.app == "" {
      bad := bad + [NoApp(id)];
    } else if !Label(s.app) {
      bad := bad + [BadLabel(s.app)];
    }
    if s.port <= 0 || s.port > 65535 { bad := bad + [PortRange(id, s.app)]; }
    if id == self.peerID && s.port == self.listenPort { bad := bad + [PortIsListenPort(s.app)]; }
  }

  method CheckServices(self: Self, p: Peer) returns (bad: seq<Problem>)
    ensures bad == [] <==>
              (forall s :: s in p.services ==> GoodService(self, p.peerID, s)) && ServicesApart(p.services)
  {
    bad := [];
    var seenApp: set<string>, seenPort: map<int, string> := {}, map[];
    for i := 0 to |p.services|
      invariant bad == [] <==>
                  forall j :: 0 <= j < i ==> GoodService(self, p.peerID, p.services[j]) && ServiceApart(p.services, j)
      invariant forall app :: app in seenApp <==> exists j :: 0 <= j < i && p.services[j].app == app
      invariant forall port :: port in seenPort <==> exists j :: 0 <= j < i && p.services[j].port == port
    {
      var s := p.services[i];
      var b := CheckService(self, p.peerID, s);
      bad := bad + b;
      assert s.app !in seenApp && s.port !in seenPort <==> ServiceApart(p.services, i);
      if s.app in seenApp { bad := bad + [SameApp(p.peerID, s.app)]; }
      seenApp := seenApp + {s.app};
      if s.port in seenPort {
        bad := bad + [SamePort(p.peerID, s.port)];
      } else {
        seenPort := seenPort[s.port := s.app];
      }
    }
  }

  /** The three identity checks of one entry; ips and keys are seenIP and seenKey. */
  method CheckIdentity(lib: Lib, cidr: Option<Prefix>, p: Peer, ids: set<string>,
                       ips: map<string, string>, keys: map<nat, string>)
    returns (bad: seq<Problem>, ips': map<string, string>, keys': map<nat, string>)
    requires p.peerID != ""
    ensures bad == [] <==> && Label(p.peerID) && GoodKey(lib, p.publicKey) && GoodTunnelIP(lib, cidr, p.tunnelIP)
                           && p.peerID !in ids && p.tunnelIP !in ips
                           && lib.parseKey(p.publicKey).value !in keys
    ensures bad == [] ==> ips' == ips[p.tunnelIP := p.peerID]
    ensures bad == [] ==> keys' == keys[lib.parseKey(p.publicKey).value := p.peerID]
  {
    bad, ips', keys' := [], ips, keys;
    if !Label(p.peerID) { bad := bad + [BadLabel(p.peerID)]; }
    if p.peerID in ids { bad := bad + [SameId(p.peerID)]; }

    var key := lib.parseKey(p.publicKey);
    if p.publicKey == "" {
      bad := bad + [NoKey(p.peerID)];
    } else if key.None? || key.value == 0 {
      bad := bad + [BadKey(p.peerID)];
    } else if key.value in keys {
      bad := bad + [SameKey(keys[key.value], p.peerID)];
    } else {
      keys' := keys[key.value := p.peerID];
    }

    var ip := lib.parseAddr(p.tunnelIP);
    if ip.None? {
      bad := bad + [BadTunnelIP(p.peerID)];
    } else {
      if p.tunnelIP in ips {
        bad := bad + [SameTunnelIP(ips[p.tunnelIP], p.peerID)];
      } else {
        ips' := ips[p.tunnelIP := p.peerID];
      }
      if !ip.value.V4? { bad := bad + [TunnelIPNotV4(p.peerID)]; }
      if cidr.Some? && !cidr.value.Contains(ip.value) { bad := bad + [TunnelIPOutside(p.peerID)]; }
    }
  }

  ghost predicate SeenIds(peers: seq<Peer>, ids: set<string>) {
    forall id :: id in ids <==> exists q :: q in peers && q.peerID == id
  }

  ghost predicate SeenIPs(peers: seq<Peer>, ips: map<string, string>) {
    forall ip :: ip in ips <==> exists q :: q in peers && q.tunnelIP == ip
  }

  ghost predicate SeenKeys(lib: Lib, peers: seq<Peer>, keys: map<nat, string>) {
    forall k :: k in keys <==> exists q :: q in peers && lib.parseKey(q.publicKey) == Some(k)
  }

  ghost predicate SeenReal(lib: Lib, peers: seq<Peer>, owner: map<Addr, string>) {
    forall a :: a in owner <==> exists q :: q in peers && a in RealIPs(lib, q)
  }

  /** What the four seen maps hold after the entries of peers went in without a problem. */
  ghost predicate Seen(lib: Lib, peers: seq<Peer>, ids: set<string>, ips: map<string, string>,
                       keys: map<nat, string>, owner: map<Addr, string>) {
    && SeenIds(peers, ids) && SeenIPs(peers, ips) && SeenKeys(lib, peers, keys) && SeenReal(lib, peers, owner)
    && (forall a :: a in owner ==> owner[a] in ids)
  }

  /** One more entry keeps a list good exactly when it is good itself and apart from the others. */
  lemma GoodPeersSnoc(lib: Lib, self: Self, peers: seq<Peer>, p: Peer)
    requires GoodPeers(lib, self, peers)
    ensures GoodPeers(lib, self, peers + [p]) <==> GoodPeer(lib, self, p) && ApartFromAll(lib, peers, p)
  {
    hide GoodPeer, Apart;
    var more := peers + [p];
    if GoodPeers(lib, self, more) {
      assert more[|peers|] == p;
      forall j | 0 <= j < |peers| ensures Apart(lib, peers[j], p) {
        assert Apart(lib, more[j], more[|peers|]);
      }
    }
    if GoodPeer(lib, self, p) && ApartFromAll(lib, peers, p) {
      forall i | 0 <= i < |more| ensures GoodPeer(lib, self, more[i]) {}
      forall i, j | 0 <= i < j < |more| ensures Apart(lib, more[i], more[j]) {
        if j < |peers| { assert Apart(lib, peers[i], peers[j]); }
      }
    }
  }

  ghost predicate ApartFromAll(lib: Lib, peers: seq<Peer>, p: Peer) {
    forall j :: 0 <= j < |peers| ==> Apart(lib, peers[j], p)
  }

  /** The seen maps say whether an entry is apart from those before it. */
  lemma SeenApart(lib: Lib, peers: seq<Peer>, p: Peer, ids: set<string>,
                  ips: map<string, string>, keys: map<nat, string>, owner: map<Addr, string>)
    requires Seen(lib, peers, ids, ips, keys, owner) && lib.parseKey(p.publicKey).Some?
    ensures ApartFromAll(lib, peers, p) <==>
              && p.peerID !in ids && p.tunnelIP !in ips && lib.parseKey(p.publicKey).value !in keys
              && forall a :: a in RealIPs(lib, p) ==> a !in owner
  {
    if ApartFromAll(lib, peers, p) {
      forall q | q in peers ensures Apart(lib, q, p) {
        var j :| 0 <= j < |peers| && peers[j] == q;
      }
    }
  }

  /** The seen maps decide whether one more entry keeps the list good. */
  lemma SeenDecides(lib: Lib, self: Self, peers: seq<Peer>, p: Peer, ids: set<string>,
                    ips: map<string, string>, keys: map<nat, string>, owner: map<Addr, string>)
    requires Seen(lib, peers, ids, ips, keys, owner)
    requires GoodPeers(lib, self, peers)
    ensures GoodPeers(lib, self, peers + [p]) <==>
              && GoodPeer(lib, self, p)
              && p.peerID !in ids && p.tunnelIP !in ips
              && lib.parseKey(p.publicKey).value !in keys
              && forall a :: a in RealIPs(lib, p) ==> a !in owner
  {
    GoodPeersSnoc(lib, self, peers, p);
    if GoodPeer(lib, self, p) { SeenApart(lib, peers, p, ids, ips, keys, owner); }
  }

  lemma SeenGrows(lib: Lib, peers: seq<Peer>, p: Peer, ids: set<string>, ips: map<string, string>,
                  keys: map<nat, string>, owner: map<Addr, string>, owner': map<Addr, string>)
    requires Seen(lib, peers, ids, ips, keys, owner)
    requires lib.parseKey(p.publicKey).Some?
    requires forall a :: a in owner' <==> a in owner || a in RealIPs(lib, p)
    requires forall a :: a in owner ==> owner'[a] == owner[a]
    requires forall a :: a in RealIPs(lib, p) ==> owner'[a] == p.peerID
    ensures Seen(lib, peers + [p], ids + {p.peerID}, ips[p.tunnelIP := p.peerID],
                 keys[lib.parseKey(p.publicKey).value := p.peerID], owner')
  {
    var more := peers + [p];
    assert p in more;
    assert forall q :: q in more <==> q in peers || q == p;
    assert SeenIds(more, ids + {p.peerID});
    assert SeenIPs(more, ips[p.tunnelIP := p.peerID]);
    KeysGrow(lib, peers, p, keys);
    RealGrows(lib, peers, p, owner, owner');
  }

  lemma KeysGrow(lib: Lib, peers: seq<Peer>, p: Peer, keys: map<nat, string>)
    requires SeenKeys(lib, peers, keys) && lib.parseKey(p.publicKey).Some?
    ensures SeenKeys(lib, peers + [p], keys[lib.parseKey(p.publicKey).value := p.peerID])
  {
    assert p in peers + [p];
  }

  lemma RealGrows(lib: Lib, peers: seq<Peer>, p: Peer, owner: map<Addr, string>, owner': map<Addr, string>)
    requires SeenReal(lib, peers, owner)
    requires forall a :: a in owner' <==> a in owner || a in RealIPs(lib, p)
    ensures SeenReal(lib, peers + [p], owner')
  {
    assert p in peers + [p];
  }

  /** checkPeers finds nothing exactly when the peer list is valid. */
  method CheckPeers(lib: Lib, c: Config) returns (bad: seq<Problem>)
    ensures bad == [] <==> ValidPeers(lib, c)
  {
    if c.peers == [] { return [NoPeers]; }
    bad := CheckEntries(lib, c);
    var self := Find(c.peers, c.self.peerID);
    if c.self.peerID != "" && self.None? { bad := bad + [SelfUnlisted]; }
    if self.Some? && c.self.natModes.incoming != "tunnel-ip" {
      var found := ListRealIPs(lib, self.value);
      if found == [] { bad := bad + [SelfRealIPUnknown]; }
    }
  }

  lemma NoIdIsBad(lib: Lib, self: Self, peers: seq<Peer>, p: Peer)
    requires p.peerID == ""
    ensures !GoodPeers(lib, self, peers + [p])
  {
    assert (peers + [p])[|peers|] == p;
  }

  lemma NoneSeen(lib: Lib, self: Self)
    ensures GoodPeers(lib, self, []) && Seen(lib, [], {}, map[], map[], map[])
  {
  }

  /** The body of the loop for an entry with an id: it keeps the list good exactly when nothing is found. */
  method CheckEntry(lib: Lib, self: Self, ghost done: seq<Peer>, p: Peer, ids: set<string>,
                    ips: map<string, string>, keys: map<nat, string>, owner: map<Addr, string>)
    returns (bad: seq<Problem>, ips': map<string, string>, keys': map<nat, string>, owner': map<Addr, string>)
    requires p.peerID != ""
    ensures GoodPeers(lib, self, done) && Seen(lib, done, ids, ips, keys, owner) ==>
              && (bad == [] <==> GoodPeers(lib, self, done + [p]))
              && (bad == [] ==> Seen(lib, done + [p], ids + {p.peerID}, ips', keys', owner'))
  {
    var cidr := lib.parsePrefix(self.tunnelCIDR);
    var b0, b1, b2, b3, b4;
    b0, ips', keys' := CheckIdentity(lib, cidr, p, ids, ips, keys);
    b1 := CheckEndpoints(lib, p);
    b2 := CheckAddresses(lib, cidr, p);
    b3, owner' := CheckRealIPs(lib, cidr, p, owner);
    b4 := CheckServices(self, p);
    if GoodPeers(lib, self, done) && Seen(lib, done, ids, ips, keys, owner) {
      SeenDecides(lib, self, done, p, ids, ips, keys, owner);
      if b0 == [] && b3 == [] { SeenGrows(lib, done, p, ids, ips, keys, owner, owner'); }
    }
    bad := b0 + b1 + b2 + b3 + b4;
  }

  method CheckEntries(lib: Lib, c: Config) returns (bad: seq<Problem>)
    ensures bad == [] <==> GoodPeers(lib, c.self, c.peers)
  {
    var ids: set<string>, ips: map<string, string> := {}, map[];
    var keys: map<nat, string>, owner: map<Addr, string> := map[], map[];
    bad := [];
    NoneSeen(lib, c.self);
    hide GoodPeers, Seen;
    for i := 0 to |c.peers|
      invariant bad == [] <==> GoodPeers(lib, c.self, c.peers[..i])
      invariant bad == [] ==> Seen(lib, c.peers[..i], ids, ips, keys, owner)
    {
      ghost var done := c.peers[..i];
      var p := c.peers[i];
      assert c.peers[..i + 1] == done + [p];
      if bad != [] { NoRecovery(lib, c.self, done, p); }
      if p.peerID == "" {
        NoIdIsBad(lib, c.self, done, p);
        bad := bad + [NoPeerId];
        continue;
      }
      var found, ips', keys', owner' := CheckEntry(lib, c.self, done, p, ids, ips, keys, owner);
      bad := bad + found;
      ids, ips, keys, owner := ids + {p.peerID}, ips', keys', owner';
    }
    assert c.peers[..|c.peers|] == c.peers;
  }

  lemma NoRecovery(lib: Lib, self: Self, peers: seq<Peer>, p: Peer)
    requires !GoodPeers(lib, self, peers)
    ensures !GoodPeers(lib, self, peers + [p])
  {
    var more := peers + [p];
    assert forall i :: 0 <= i < |peers| ==> more[i] == peers[i];
    if i :| 0 <= i < |peers| && !GoodPeer(lib, self, peers[i]) {
      assert !GoodPeer(lib, self, more[i]);
    } else {
      var i, j :| 0 <= i < j < |peers| && !Apart(lib, peers[i], peers[j]);
      assert !Apart(lib, more[i], more[j]);
    }
  }

  // ---------- checkPolicy ----------

  predicate GoodExpiry(lib: Lib, text: string, now: int) {
    text != "" && lib.parseDate(text).Some? && lib.parseDate(text).value >= now
  }

  /** Only a rule with ranges has its expiry looked at. */
  predicate GoodInbound(lib: Lib, c: Config, u: Inbound, now: int) {
    var self := Find(c.peers, c.self.peerID);
    && (self.Some? ==> HasApp(self.value.services, u.app))
    && (forall id :: id in u.allow ==> Find(c.peers, id).Some?)
    && (forall s :: s in u.allowCIDR ==> lib.parsePrefix(s).Some?)
    && (u.allowCIDR != [] ==> GoodExpiry(lib, u.expires, now))
  }

  predicate GoodTarget(c: Config, text: string) {
    match Cut(text)
    case None => false
    case Some((id, app)) => var p := Find(c.peers, id); p.Some? && HasApp(p.value.services, app)
  }

  ghost predicate ValidPolicy(lib: Lib, c: Config, now: int) {
    && (forall u :: u in c.policy.inbound ==> GoodInbound(lib, c, u, now))
    && (forall t :: t in c.policy.outbound ==> GoodTarget(c, t))
  }

  method CheckInbound(lib: Lib, c: Config, u: Inbound, now: int) returns (bad: seq<Problem>)
    ensures bad == [] <==> GoodInbound(lib, c, u, now)
  {
    bad := [];
    var self := Find(c.peers, c.self.peerID);
    if self.Some? && !HasApp(self.value.services, u.app) { bad := bad + [UnknownApp(u.app)]; }
    ghost var appOk := bad == [];
    for i := 0 to |u.allow|
      invariant bad == [] <==> appOk && forall j :: 0 <= j < i ==> Find(c.peers, u.allow[j]).Some?
    {
      if Find(c.peers, u.allow[i]).None? { bad := bad + [UnknownPeer(u.allow[i])]; }
    }
    ghost var peersOk := bad == [];
    for i := 0 to |u.allowCIDR|
      invariant bad == [] <==> peersOk && forall j :: 0 <= j < i ==> lib.parsePrefix(u.allowCIDR[j]).Some?
    {
      if lib.parsePrefix(u.allowCIDR[i]).None? { bad := bad + [BadRange(u.allowCIDR[i])]; }
    }
    if |u.allowCIDR| > 0 {
      if u.expires == "" {
        bad := bad + [RangeWithoutExpiry(u.app)];
      } else {
        var t := lib.parseDate(u.expires);
        if t.None? {
          bad := bad + [BadExpiry(u.app)];
        } else if t.value < now {
          bad := bad + [AlreadyExpired(u.app)];
        }
      }
    }
  }

  /** checkPolicy finds nothing exactly when the policy is valid at that time. */
  method CheckPolicy(lib: Lib, c: Config, now: int) returns (bad: seq<Problem>)
    ensures bad == [] <==> ValidPolicy(lib, c, now)
  {
    bad := [];
    for i := 0 to |c.policy.inbound|
      invariant bad == [] <==> forall j :: 0 <= j < i ==> GoodInbound(lib, c, c.policy.inbound[j], now)
    {
      var b := CheckInbound(lib, c, c.policy.inbound[i], now);
      bad := bad + b;
    }
    ghost var inboundOk := bad == [];
    for i := 0 to |c.policy.outbound|
      invariant bad == [] <==> inboundOk && forall j :: 0 <= j < i ==> GoodTarget(c, c.policy.outbound[j])
    {
      match Cut(c.policy.outbound[i])
      case None => bad := bad + [BadTarget(c.policy.outbound[i])];
      case Some((id, app)) =>
        var p := Find(c.peers, id);
        if p.None? {
          bad := bad + [UnknownPeer(id)];
        } else if !HasApp(p.value.services, app) {
          bad := bad + [NoSuchApp(id, app)];
        }
    }
  }

  /** A configuration the program follows: listed itself, with peers and policy that check out. */
  ghost predicate Valid(lib: Lib, c: Config, now: int) {
    && c.self.peerID != "" && ValidPeers(lib, c) && ValidPolicy(lib, c, now)
    && ValidSecrets(lib, c)
  }

  /** What LoadPSK lets through: keys of other listed peers that decode and are not all zero. */
  ghost predicate ValidSecrets(lib: Lib, c: Config) {
    forall id :: id in c.secrets ==> GoodKey(lib, c.secrets[id])
  }

  /** The part of checkPSK that looks at the keys that were read. */
  method CheckSecrets(lib: Lib, secrets: map<string, string>) returns (bad: seq<Problem>)
    ensures bad == [] <==> forall id :: id in secrets ==> GoodKey(lib, secrets[id])
  {
    bad := [];
    var order := RangeOver(secrets.Keys);
    for i := 0 to |order|
      invariant bad == [] <==> forall id :: id in order[..i] ==> GoodKey(lib, secrets[id])
    {
      if !GoodKey(lib, secrets[order[i]]) { bad := bad + [BadKey(order[i])]; }
    }
    assert order[..|order|] == order;
  }

  /** Validate, as far as it looks at peers, policy and preshared keys. */
  method Validate(lib: Lib, c: Config, now: int) returns (bad: seq<Problem>)
    ensures bad == [] <==> Valid(lib, c, now)
  {
    bad := if c.self.peerID == "" then [NoPeerId] else [];
    var peers := CheckPeers(lib, c);
    var policy := CheckPolicy(lib, c, now);
    var secrets := CheckSecrets(lib, c.secrets);
    bad := bad + peers + policy + secrets;
  }
}
