/** Which configurations Validate accepts, with every condition on peers and policy written out. */
module ValidMeaning {
  import opened Basics
  import opened Net
  import opened Configuration
  import opened Validation

  /** A label has one to sixty-three lower-case letters, digits and hyphens, and no hyphen at either end. */
  lemma LabelMeaning(v: string)
    ensures Label(v) <==>
              && 1 <= |v| <= 63 && v[0] != '-' && v[|v| - 1] != '-'
              && forall i :: 0 <= i < |v| ==> 'a' <= v[i] <= 'z' || '0' <= v[i] <= '9' || v[i] == '-'
  {
    assert forall i :: 0 <= i < |v| ==> v[i] in v;
  }

  /** One entry by itself. */
  lemma EntryMeaning(lib: Lib, self: Self, p: Peer)
    ensures GoodPeer(lib, self, p) <==>
              && Label(p.peerID)
              && p.publicKey != "" && (exists k :: lib.parseKey(p.publicKey) == Some(k) && k != 0)
              && (exists a: u32 :: lib.parseAddr(p.tunnelIP) == Some(V4(a))
                                   && forall range :: lib.parsePrefix(self.tunnelCIDR) == Some(range) ==> range.Contains(V4(a)))
              && (forall t :: t in p.endpoints ==> exists a, port :: lib.parseAddrPort(t) == Some((a, port)) && port != 0)
              && (forall t :: t in p.addresses ==>
                    exists a :: && lib.parseAddr(t) == Some(a) && a.Unmap().V4?
                                && forall range :: lib.parsePrefix(self.tunnelCIDR) == Some(range) ==> !range.Contains(a.Unmap()))
              && (p.addresses == [] ==>
                    forall a, range :: a in RealIPs(lib, p) && lib.parsePrefix(self.tunnelCIDR) == Some(range) ==>
                      !range.Contains(a))
              && (forall s :: s in p.services ==>
                    Label(s.app) && 1 <= s.port <= 65535 && (p.peerID == self.peerID ==> s.port != self.listenPort))
              && (forall i, j :: 0 <= i < j < |p.services| ==>
                    p.services[i].app != p.services[j].app && p.services[i].port != p.services[j].port)
  {
    hide Label, RealIPs, Prefix.Contains, Addr.Unmap;
    if ServicesApart(p.services) {
      forall i, j | 0 <= i < j < |p.services|
        ensures p.services[i].app != p.services[j].app && p.services[i].port != p.services[j].port
      {
        assert ServiceApart(p.services, j);
      }
    }
    TunnelIPMeaning(lib, lib.parsePrefix(self.tunnelCIDR), p.tunnelIP);
    forall t | t in p.endpoints
      ensures GoodEndpoint(lib, t) <==> exists a, port :: lib.parseAddrPort(t) == Some((a, port)) && port != 0
    {
      EndpointMeaning(lib, t);
    }
    forall t | t in p.addresses
      ensures GoodAddress(lib, lib.parsePrefix(self.tunnelCIDR), t) <==>
                exists a :: && lib.parseAddr(t) == Some(a) && a.Unmap().V4?
                            && forall range :: lib.parsePrefix(self.tunnelCIDR) == Some(range) ==> !range.Contains(a.Unmap())
    {
      AddressMeaning(lib, lib.parsePrefix(self.tunnelCIDR), t);
    }
  }

  lemma EndpointMeaning(lib: Lib, t: string)
    ensures GoodEndpoint(lib, t) <==> exists a, port :: lib.parseAddrPort(t) == Some((a, port)) && port != 0
  {
    if GoodEndpoint(lib, t) {
      var r := lib.parseAddrPort(t).value;
      assert lib.parseAddrPort(t) == Some((r.0, r.1));
    }
  }

  lemma AddressMeaning(lib: Lib, cidr: Option<Prefix>, t: string)
    ensures GoodAddress(lib, cidr, t) <==>
              exists a :: && lib.parseAddr(t) == Some(a) && a.Unmap().V4?
                          && forall range :: cidr == Some(range) ==> !range.Contains(a.Unmap())
  {
    hide Prefix.Contains, Addr.Unmap;
    if GoodAddress(lib, cidr, t) { assert lib.parseAddr(t) == Some(lib.parseAddr(t).value); }
  }

  lemma TunnelIPMeaning(lib: Lib, cidr: Option<Prefix>, t: string)
    ensures GoodTunnelIP(lib, cidr, t) <==>
              exists a: u32 :: lib.parseAddr(t) == Some(V4(a)) && forall range :: cidr == Some(range) ==> range.Contains(V4(a))
  {
    hide Prefix.Contains;
    if GoodTunnelIP(lib, cidr, t) { assert lib.parseAddr(t) == Some(V4(lib.parseAddr(t).value.v4)); }
  }

  /** The list: no two entries share an id, a key, a tunnel IP or a real address. */
  lemma ListMeaning(lib: Lib, self: Self, peers: seq<Peer>)
    ensures GoodPeers(lib, self, peers) <==>
              && (forall p :: p in peers ==> GoodPeer(lib, self, p))
              && (forall i, j :: 0 <= i < j < |peers| ==>
                    && peers[i].peerID != peers[j].peerID
                    && lib.parseKey(peers[i].publicKey) != lib.parseKey(peers[j].publicKey)
                    && peers[i].tunnelIP != peers[j].tunnelIP
                    && forall a :: a in RealIPs(lib, peers[i]) ==> a !in RealIPs(lib, peers[j]))
  {
    hide GoodPeer, RealIPs;
    if GoodPeers(lib, self, peers) {
      forall i, j | 0 <= i < j < |peers| ensures Apart(lib, peers[i], peers[j]) {}
    }
  }

  /**
   * An inbound entry names an app of this machine if this machine is listed, listed machines and readable ranges,
   * and has a date not in the past if it states ranges.
   */
  lemma InboundEntryMeaning(lib: Lib, c: Config, u: Inbound, now: int)
    requires UniqueIds(c.peers)
    ensures GoodInbound(lib, c, u, now) <==>
              && (forall p :: p in c.peers && p.peerID == c.self.peerID ==> exists s :: s in p.services && s.app == u.app)
              && (forall id :: id in u.allow ==> exists p :: p in c.peers && p.peerID == id)
              && (forall t :: t in u.allowCIDR ==> lib.parsePrefix(t).Some?)
              && (u.allowCIDR != [] ==> u.expires != "" && exists t :: lib.parseDate(u.expires) == Some(t) && now <= t)
  {
    hide Find;
    forall p | p in c.peers && p.peerID == c.self.peerID ensures Find(c.peers, c.self.peerID) == Some(p) {
      LookupUnique(c.peers, p);
    }
    if GoodInbound(lib, c, u, now) && u.allowCIDR != [] {
      assert lib.parseDate(u.expires) == Some(lib.parseDate(u.expires).value);
    }
  }

  /** An outbound entry reads peer-id/app, for a listed machine with a service of that name. */
  lemma TargetEntryMeaning(c: Config, text: string)
    requires UniqueIds(c.peers)
    ensures GoodTarget(c, text) <==>
              exists p, s :: && p in c.peers && s in p.services && '/' !in p.peerID
                             && text == p.peerID + "/" + s.app
  {
    hide Find;
    if GoodTarget(c, text) {
      var (id, app) := Cut(text).value;
      var p := Find(c.peers, id).value;
      var s :| s in p.services && s.app == app;
      assert text == p.peerID + "/" + s.app;
    }
    if p, s :| p in c.peers && s in p.services && '/' !in p.peerID && text == p.peerID + "/" + s.app {
      CutJoin(p.peerID, s.app);
      LookupUnique(c.peers, p);
    }
  }

  lemma LabelHasNoSlash(v: string)
    requires Label(v)
    ensures '/' !in v
  {
  }

  /**
   * Validate accepts a configuration exactly when this machine has an id and is listed, every entry and the list
   * are good, this machine has an IPv4 address unless applications are shown tunnel addresses, every policy
   * entry is good, and every preshared key decodes and is not all zero.
   */
  lemma ValidityMeaning(lib: Lib, c: Config, now: int)
    ensures Valid(lib, c, now) <==>
              && c.self.peerID != "" && (exists p :: p in c.peers && p.peerID == c.self.peerID)
              && GoodPeers(lib, c.self, c.peers)
              && (c.self.natModes.incoming != "tunnel-ip" ==>
                    forall p :: p in c.peers && p.peerID == c.self.peerID ==> exists a :: a in RealIPs(lib, p))
              && (forall u :: u in c.policy.inbound ==> GoodInbound(lib, c, u, now))
              && (forall t :: t in c.policy.outbound ==>
                    exists p, s :: p in c.peers && s in p.services && t == p.peerID + "/" + s.app)
              && (forall id :: id in c.secrets ==>
                    c.secrets[id] != "" && exists k :: lib.parseKey(c.secrets[id]) == Some(k) && k != 0)
  {
    hide Find, GoodInbound, RealIPs, Label;
    if GoodPeers(lib, c.self, c.peers) {
      GoodPeersAreUnique(lib, c.self, c.peers);
      forall p | p in c.peers ensures '/' !in p.peerID && Find(c.peers, p.peerID) == Some(p) {
        PeerIsGood(lib, c.self, c.peers, p);
        LabelHasNoSlash(p.peerID);
        LookupUnique(c.peers, p);
      }
      forall t | t in c.policy.outbound
        ensures GoodTarget(c, t) <==> exists p, s :: p in c.peers && s in p.services && t == p.peerID + "/" + s.app
      {
        TargetEntryMeaning(c, t);
      }
      SelfMeaning(lib, c);
    }
    forall id | id in c.secrets
      ensures GoodKey(lib, c.secrets[id]) <==>
                c.secrets[id] != "" && exists k :: lib.parseKey(c.secrets[id]) == Some(k) && k != 0
    {
      KeyMeaning(lib, c.secrets[id]);
    }
  }

  lemma KeyMeaning(lib: Lib, text: string)
    ensures GoodKey(lib, text) <==> text != "" && exists k :: lib.parseKey(text) == Some(k) && k != 0
  {
    if GoodKey(lib, text) { assert lib.parseKey(text) == Some(lib.parseKey(text).value); }
  }

  lemma SelfMeaning(lib: Lib, c: Config)
    requires UniqueIds(c.peers)
    ensures SelfPresentable(lib, c) <==>
              (c.self.natModes.incoming != "tunnel-ip" ==>
                 forall p :: p in c.peers && p.peerID == c.self.peerID ==> exists a :: a in RealIPs(lib, p))
  {
    hide Find, RealIPs;
    var self := Find(c.peers, c.self.peerID);
    forall p | p in c.peers && p.peerID == c.self.peerID
      ensures self == Some(p) && (RealIPs(lib, p) != [] <==> exists a :: a in RealIPs(lib, p))
    {
      LookupUnique(c.peers, p);
      if RealIPs(lib, p) != [] { assert RealIPs(lib, p)[0] in RealIPs(lib, p); }
    }
  }
}
