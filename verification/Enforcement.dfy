/**
 * What the running program lets through, read straight from the configuration files: a packet passes
 * exactly when the policy says so, or it answers a connection that was let through and kept.
 */
module Enforcement {
  import opened Basics
  import opened Net
  import opened Configuration
  import opened Validation
  import opened PolicyMeaning
  import opened Flow
  import opened FlowHistory
  import opened Filtering
  import opened FilterHistory
  import Packet
  import Policy

  /** Some machine has that tunnel IP, and some [[inbound]] entry opens the port to it. */
  ghost predicate PolicyAdmits(lib: Lib, c: Config, self: Peer, src: Addr, port: nat, obs: Addr, now: int) {
    exists q, u :: q in c.peers && TunnelAddr(lib, q) == src && Opens(lib, c, self, u, port, q.peerID, obs, now)
  }

  /** The outbound list names an app by peer-id/app, which that peer offers on the port. */
  ghost predicate Sends(c: Config, q: Peer, app: string, port: nat) {
    q in c.peers && q.peerID + "/" + app in c.policy.outbound && Offers(q, app, port)
  }

  ghost predicate PolicySends(lib: Lib, c: Config, dst: Addr, port: nat) {
    exists q, app :: TunnelAddr(lib, q) == dst && Sends(c, q, app, port)
  }

  lemma InboundIsPolicy(lib: Lib, c: Config, r: Policy.Rules, self: Peer, src: Addr, port: nat, obs: Addr, now: int)
    requires GoodPeers(lib, c.self, c.peers) && lib.OneSpelling() && PolicyCompile.New(lib, c) == Ok(r)
    requires self in c.peers && self.peerID == c.self.peerID
    ensures r.Inbound(src, port, obs, now).Allow? <==> PolicyAdmits(lib, c, self, src, port, obs, now)
  {
    if exists q :: q in c.peers && TunnelAddr(lib, q) == src {
      var q :| q in c.peers && TunnelAddr(lib, q) == src;
      InboundOpens(lib, c, r, q, self, port, obs, now);
      if q', u :| q' in c.peers && TunnelAddr(lib, q') == src && Opens(lib, c, self, u, port, q'.peerID, obs, now) {
        TunnelAddrsDiffer(lib, c, q, q');
      }
    } else {
      StrangersStayOut(lib, c, r, src, port, obs, now);
    }
  }

  lemma TargetIsListed(lib: Lib, c: Config, text: string, t: (Addr, nat)) returns (q: Peer)
    requires PolicyCompile.CompileTarget(lib, c, text) == Ok(t)
    ensures q in c.peers && TunnelAddr(lib, q) == t.0
  {
    q := Find(c.peers, Cut(text).value.0).value;
  }

  lemma OutboundIsPolicy(lib: Lib, c: Config, r: Policy.Rules, dst: Addr, port: nat)
    requires GoodPeers(lib, c.self, c.peers) && lib.OneSpelling() && PolicyCompile.New(lib, c) == Ok(r)
    ensures r.Outbound(dst, port).Allow? <==> PolicySends(lib, c, dst, port)
  {
    if r.Outbound(dst, port).Allow? {
      CompileTargetsMeaning(lib, c, 0, [], (dst, port));
      var j :| 0 <= j < |c.policy.outbound| && PolicyCompile.CompileTarget(lib, c, c.policy.outbound[j]) == Ok((dst, port));
      var q := TargetIsListed(lib, c, c.policy.outbound[j], (dst, port));
      OutboundOffers(lib, c, r, q, port);
      var app :| q.peerID + "/" + app in c.policy.outbound && Offers(q, app, port);
      assert Sends(c, q, app, port);
    }
    if q, app :| TunnelAddr(lib, q) == dst && Sends(c, q, app, port) { OutboundOffers(lib, c, r, q, port); }
  }

  /** What the policy of the files alone says about a packet; one without ports needs some port to be open. */
  ghost predicate PolicySays(lib: Lib, c: Config, self: Peer, i: Input)
    requires !i.Reload?
  {
    match i
    case In(p, obs, now) =>
      if p.HasPorts() then PolicyAdmits(lib, c, self, p.src, p.dstPort, obs, now)
      else exists port: nat :: PolicyAdmits(lib, c, self, p.src, port, obs, now)
    case Out(p, _) =>
      if p.HasPorts() then PolicySends(lib, c, p.dst, p.dstPort) else exists port: nat :: PolicySends(lib, c, p.dst, port)
  }

  lemma AdmitsMeaning(lib: Lib, c: Config, self: Peer, src: Addr, port: nat, obs: Addr, now: int)
    requires GoodPeers(lib, c.self, c.peers)
    ensures PolicyAdmits(lib, c, self, src, port, obs, now) <==>
            exists q, u :: && q in c.peers && lib.parseAddr(q.tunnelIP) == Some(src)
                           && u in c.policy.inbound && Service(u.app, port) in self.services
                           && Met(lib, u, q.peerID, obs, now)
  {
    hide GoodPeers, Met;
    forall q | q in c.peers ensures lib.parseAddr(q.tunnelIP) == Some(src) <==> TunnelAddr(lib, q) == src {
      PeerIsGood(lib, c.self, c.peers, q);
    }
    if q, u :| && q in c.peers && lib.parseAddr(q.tunnelIP) == Some(src)
               && u in c.policy.inbound && Service(u.app, port) in self.services && Met(lib, u, q.peerID, obs, now) {
      assert Opens(lib, c, self, u, port, q.peerID, obs, now);
    }
  }

  lemma SendsMeaning(lib: Lib, c: Config, dst: Addr, port: nat)
    requires GoodPeers(lib, c.self, c.peers)
    ensures PolicySends(lib, c, dst, port) <==>
            exists q, app :: && q in c.peers && lib.parseAddr(q.tunnelIP) == Some(dst)
                             && q.peerID + "/" + app in c.policy.outbound && Service(app, port) in q.services
  {
    hide GoodPeers;
    forall q | q in c.peers ensures lib.parseAddr(q.tunnelIP) == Some(dst) <==> TunnelAddr(lib, q) == dst {
      PeerIsGood(lib, c.self, c.peers, q);
    }
    if q, app :| && q in c.peers && lib.parseAddr(q.tunnelIP) == Some(dst)
                 && q.peerID + "/" + app in c.policy.outbound && Service(app, port) in q.services {
      assert Sends(c, q, app, port);
    }
  }

  /**
   * The policy, read off the files: a packet from the tunnel needs an entry for a service of this machine on its
   * port whose conditions the owner of its source meets, a packet from an application an entry that names a
   * service the owner of its destination offers on its port; where there are no ports, on some port.
   */
  lemma PolicySaysMeaning(lib: Lib, c: Config, self: Peer, i: Input)
    requires GoodPeers(lib, c.self, c.peers) && !i.Reload?
    ensures i.In? ==>
              (PolicySays(lib, c, self, i) <==>
               exists port: nat, q, u ::
                 && (i.p.proto == 6 || i.p.proto == 17 ==> port == i.p.dstPort)
                 && q in c.peers && lib.parseAddr(q.tunnelIP) == Some(i.p.src)
                 && u in c.policy.inbound && Service(u.app, port) in self.services
                 && Met(lib, u, q.peerID, i.obs, i.now))
    ensures i.Out? ==>
              (PolicySays(lib, c, self, i) <==>
               exists port: nat, q, app ::
                 && (i.p.proto == 6 || i.p.proto == 17 ==> port == i.p.dstPort)
                 && q in c.peers && lib.parseAddr(q.tunnelIP) == Some(i.p.dst)
                 && q.peerID + "/" + app in c.policy.outbound && Service(app, port) in q.services)
  {
    hide GoodPeers, Met, PolicyAdmits, PolicySends;
    if i.In? {
      if PolicySays(lib, c, self, i) {
        var port: nat :| (i.p.HasPorts() ==> port == i.p.dstPort) && PolicyAdmits(lib, c, self, i.p.src, port, i.obs, i.now);
        AdmitsMeaning(lib, c, self, i.p.src, port, i.obs, i.now);
      }
      if port: nat, q, u :|
        && (i.p.proto == 6 || i.p.proto == 17 ==> port == i.p.dstPort)
        && q in c.peers && lib.parseAddr(q.tunnelIP) == Some(i.p.src)
        && u in c.policy.inbound && Service(u.app, port) in self.services && Met(lib, u, q.peerID, i.obs, i.now)
      {
        AdmitsMeaning(lib, c, self, i.p.src, port, i.obs, i.now);
      }
    } else {
      if PolicySays(lib, c, self, i) {
        var port: nat :| (i.p.HasPorts() ==> port == i.p.dstPort) && PolicySends(lib, c, i.p.dst, port);
        SendsMeaning(lib, c, i.p.dst, port);
      }
      if port: nat, q, app :|
        && (i.p.proto == 6 || i.p.proto == 17 ==> port == i.p.dstPort)
        && q in c.peers && lib.parseAddr(q.tunnelIP) == Some(i.p.dst)
        && q.peerID + "/" + app in c.policy.outbound && Service(app, port) in q.services
      {
        SendsMeaning(lib, c, i.p.dst, port);
      }
    }
  }

  /** What compiled rules say about a packet is what the policy says. */
  lemma RulesSay(lib: Lib, c: Config, r: Policy.Rules, self: Peer, i: Input)
    requires GoodPeers(lib, c.self, c.peers) && lib.OneSpelling() && PolicyCompile.New(lib, c) == Ok(r)
    requires self in c.peers && self.peerID == c.self.peerID && !i.Reload?
    ensures Judge(r, i).Allow? <==> PolicySays(lib, c, self, i)
  {
    PolicyCompile.CompiledIsWellIndexed(lib, c, r);
    hide GoodPeers, PolicyCompile.New, PolicyAdmits, PolicySends, Policy.Rules.WellIndexed, Policy.Rules.Inbound;
    if i.In? {
      JudgedBySource(r, i.p, i.obs, i.now);
      Policy.InboundICMPMeaning(r, i.p.src, i.obs, i.now);
      forall port: nat
        ensures r.Inbound(i.p.src, port, i.obs, i.now).Allow? <==> PolicyAdmits(lib, c, self, i.p.src, port, i.obs, i.now)
      {
        InboundIsPolicy(lib, c, r, self, i.p.src, port, i.obs, i.now);
      }
    } else {
      Policy.OutboundICMPMeaning(r, i.p.dst);
      forall port: nat ensures r.Outbound(i.p.dst, port).Allow? <==> PolicySends(lib, c, i.p.dst, port) {
        OutboundIsPolicy(lib, c, r, i.p.dst, port);
      }
    }
  }

  /**
   * Over every run a packet passes exactly when the policy of the files in force says so, or it replies to one that
   * was let through and kept.
   */
  lemma PolicyEnforced(lib: Lib, c: Config, self: Peer, r0: Policy.Rules, h: seq<Move>, i: Input)
    requires GoodPeers(lib, c.self, c.peers) && lib.OneSpelling() && PolicyCompile.New(lib, c) == Ok(InForce(r0, h))
    requires self in c.peers && self.peerID == c.self.peerID
    requires LegalRun(r0, h) && !i.Reload? && RunsForward(h, i.now)
    ensures Passes(Run(r0, h), i) <==> PolicySays(lib, c, self, i) || RepliesTo(r0, h, i)
  {
    hide *;
    PassMeaning(r0, h, i);
    RulesSay(lib, c, InForce(r0, h), self, i);
  }

  /** From the tunnel: the inbound policy in force admits the packet, or it is a reply. */
  lemma InboundEnforced(lib: Lib, c: Config, self: Peer, r0: Policy.Rules, h: seq<Move>, i: Input)
    requires GoodPeers(lib, c.self, c.peers) && lib.OneSpelling() && PolicyCompile.New(lib, c) == Ok(InForce(r0, h))
    requires self in c.peers && self.peerID == c.self.peerID
    requires LegalRun(r0, h) && i.In? && i.p.HasPorts() && RunsForward(h, i.now)
    ensures Passes(Run(r0, h), i) <==>
            PolicyAdmits(lib, c, self, i.p.src, i.p.dstPort, i.obs, i.now) || RepliesTo(r0, h, i)
  {
    PolicyEnforced(lib, c, self, r0, h, i);
  }

  /** From an application: the outbound policy in force names the target, or the packet is a reply. */
  lemma OutboundEnforced(lib: Lib, c: Config, r0: Policy.Rules, h: seq<Move>, i: Input)
    requires GoodPeers(lib, c.self, c.peers) && lib.OneSpelling() && PolicyCompile.New(lib, c) == Ok(InForce(r0, h))
    requires LegalRun(r0, h) && i.Out? && i.p.HasPorts() && RunsForward(h, i.now)
    ensures Passes(Run(r0, h), i) <==> PolicySends(lib, c, i.p.dst, i.p.dstPort) || RepliesTo(r0, h, i)
  {
    PassMeaning(r0, h, i);
    OutboundIsPolicy(lib, c, InForce(r0, h), i.p.dst, i.p.dstPort);
  }

  /** A packet without ports comes in when the policy admits its sender on some port, or as a reply. */
  lemma PortlessInboundEnforced(lib: Lib, c: Config, self: Peer, r0: Policy.Rules, h: seq<Move>, i: Input)
    requires GoodPeers(lib, c.self, c.peers) && lib.OneSpelling() && PolicyCompile.New(lib, c) == Ok(InForce(r0, h))
    requires self in c.peers && self.peerID == c.self.peerID
    requires LegalRun(r0, h) && i.In? && !i.p.HasPorts() && RunsForward(h, i.now)
    ensures Passes(Run(r0, h), i) <==>
            (exists port: nat :: PolicyAdmits(lib, c, self, i.p.src, port, i.obs, i.now)) || RepliesTo(r0, h, i)
  {
    PolicyEnforced(lib, c, self, r0, h, i);
  }

  /** A packet without ports goes out to a machine some target names, or as a reply. */
  lemma PortlessOutboundEnforced(lib: Lib, c: Config, r0: Policy.Rules, h: seq<Move>, i: Input)
    requires GoodPeers(lib, c.self, c.peers) && lib.OneSpelling() && PolicyCompile.New(lib, c) == Ok(InForce(r0, h))
    requires LegalRun(r0, h) && i.Out? && !i.p.HasPorts() && RunsForward(h, i.now)
    ensures Passes(Run(r0, h), i) <==>
            (exists port: nat :: PolicySends(lib, c, i.p.dst, port)) || RepliesTo(r0, h, i)
  {
    var r := InForce(r0, h);
    PassMeaning(r0, h, i);
    PolicyCompile.CompiledIsWellIndexed(lib, c, r);
    Policy.OutboundICMPMeaning(r, i.p.dst);
    forall port: nat ensures r.Outbound(i.p.dst, port).Allow? <==> PolicySends(lib, c, i.p.dst, port) {
      OutboundIsPolicy(lib, c, r, i.p.dst, port);
    }
  }

  /**
   * A reload keeps a connection exactly when the new policy would let the packet that opened it through: as one
   * from the tunnel if its source is the tunnel IP of a listed machine, this one included, else as one from an
   * application.
   */
  lemma ConnectionKept(lib: Lib, c: Config, r: Policy.Rules, self: Peer, observe: Addr -> Addr, now: int, p: Packet.Packet)
    requires GoodPeers(lib, c.self, c.peers) && lib.OneSpelling() && PolicyCompile.New(lib, c) == Ok(r)
    requires self in c.peers && self.peerID == c.self.peerID
    ensures StillLets(r, observe, now, p) <==>
            if exists q :: q in c.peers && lib.parseAddr(q.tunnelIP) == Some(p.src)
            then PolicySays(lib, c, self, In(p, observe(p.src), now)) else PolicySays(lib, c, self, Out(p, now))
  {
    hide GoodPeers, PolicySays;
    RulesSay(lib, c, r, self, In(p, observe(p.src), now));
    RulesSay(lib, c, r, self, Out(p, now));
    forall a ensures a in r.peerByIP <==> exists q :: q in c.peers && lib.parseAddr(q.tunnelIP) == Some(a) {
      IndexedMeaning(lib, c, r, a);
    }
    if JudgeOut(r, p).Allow? { SentIsListed(lib, c, r, p); }
  }

  lemma IndexedMeaning(lib: Lib, c: Config, r: Policy.Rules, a: Addr)
    requires GoodPeers(lib, c.self, c.peers) && lib.OneSpelling() && PolicyCompile.New(lib, c) == Ok(r)
    ensures a in r.peerByIP <==> exists q :: q in c.peers && lib.parseAddr(q.tunnelIP) == Some(a)
  {
    hide GoodPeers, PolicyCompile.New;
    if a in r.peerByIP {
      var q := PeerByIPListed(lib, c, r, a);
      TunnelAddrsDiffer(lib, c, q, q);
    }
    if q :| q in c.peers && lib.parseAddr(q.tunnelIP) == Some(a) { PeerByIPOf(lib, c, r, q); }
  }

  lemma SentIsListed(lib: Lib, c: Config, r: Policy.Rules, p: Packet.Packet)
    requires GoodPeers(lib, c.self, c.peers) && lib.OneSpelling() && PolicyCompile.New(lib, c) == Ok(r)
    requires JudgeOut(r, p).Allow?
    ensures p.dst in r.peerByIP
  {
    PolicyCompile.CompiledIsWellIndexed(lib, c, r);
    hide GoodPeers, PolicyCompile.New;
    var port: nat :| (p.dst, port) in r.outbound;
    OutboundIsPolicy(lib, c, r, p.dst, port);
    var q, app :| TunnelAddr(lib, q) == p.dst && Sends(c, q, app, port);
    PeerByIPOf(lib, c, r, q);
  }

  /**
   * A reload keeps a connection this machine opened exactly when the new inbound policy would admit this
   * machine itself as a caller of its own port of that number, or without ports of any, whatever the
   * outbound list says.
   */
  lemma OwnConnectionKept(lib: Lib, c: Config, r: Policy.Rules, self: Peer, observe: Addr -> Addr, now: int, k: FlowKey)
    requires GoodPeers(lib, c.self, c.peers) && lib.OneSpelling() && PolicyCompile.New(lib, c) == Ok(r)
    requires self in c.peers && self.peerID == c.self.peerID && k.src == TunnelAddr(lib, self)
    ensures StillAllowed(r, observe, now)(k) <==>
            if Opener(k).HasPorts() then PolicyAdmits(lib, c, self, k.src, k.dport, observe(k.src), now)
            else exists port: nat :: PolicyAdmits(lib, c, self, k.src, port, observe(k.src), now)
  {
    hide GoodPeers, PolicyAdmits, PolicyCompile.New;
    TunnelAddrsDiffer(lib, c, self, self);
    ConnectionKept(lib, c, r, self, observe, now, Opener(k));
  }

  // ---------- Later fragments ----------

  /** The rules are those of files whose peers check out, self being this machine's entry. */
  ghost predicate FromFiles(lib: Lib, r: Policy.Rules, c: Config, self: Peer) {
    && GoodPeers(lib, c.self, c.peers) && PolicyCompile.New(lib, c) == Ok(r)
    && self in c.peers && self.peerID == c.self.peerID
  }

  ghost predicate Configured(lib: Lib, r: Policy.Rules) { exists c, self :: FromFiles(lib, r, c, self) }

  /** The rules the run begins with, and those of every reload, come from such files. */
  ghost predicate RunsOnFiles(lib: Lib, r0: Policy.Rules, h: seq<Move>) {
    Configured(lib, r0) && forall j :: 0 <= j < |h| && h[j].i.Reload? ==> Configured(lib, h[j].i.rules)
  }

  lemma {:induction false} InForceIsConfigured(lib: Lib, r0: Policy.Rules, h: seq<Move>)
    requires RunsOnFiles(lib, r0, h)
    ensures Configured(lib, InForce(r0, h))
  {
    if h != [] && !h[|h| - 1].i.Reload? {
      assert forall j :: 0 <= j < |h| - 1 ==> h[..|h| - 1][j] == h[j];
      InForceIsConfigured(lib, r0, h[..|h| - 1]);
    }
  }

  /** No service has port 0, so no entry opens it and no target is on it. */
  lemma PortZeroIsClosed(lib: Lib, c: Config, self: Peer, a: Addr, obs: Addr, now: int)
    requires GoodPeers(lib, c.self, c.peers) && self in c.peers
    ensures !PolicyAdmits(lib, c, self, a, 0, obs, now) && !PolicySends(lib, c, a, 0)
  {
    forall p, app | p in c.peers ensures !Offers(p, app, 0) {
      PeerIsGood(lib, c.self, c.peers, p);
      assert !GoodService(c.self, p.peerID, Service(app, 0));
    }
  }

  lemma PortZeroIsRefused(lib: Lib, r: Policy.Rules, i: Input)
    requires lib.OneSpelling() && Configured(lib, r) && !i.Reload? && i.p.HasPorts() && i.p.dstPort == 0
    ensures !Judge(r, i).Allow?
  {
    var c, self :| FromFiles(lib, r, c, self);
    if i.In? {
      PolicyCompile.CompiledIsWellIndexed(lib, c, r);
      JudgedBySource(r, i.p, i.obs, i.now);
      InboundIsPolicy(lib, c, r, self, i.p.src, 0, i.obs, i.now);
      PortZeroIsClosed(lib, c, self, i.p.src, i.obs, i.now);
    } else {
      OutboundIsPolicy(lib, c, r, i.p.dst, 0);
      PortZeroIsClosed(lib, c, self, i.p.dst, NoAddr, i.now);
    }
  }

  /**
   * A later fragment of a TCP or UDP packet never passes, in either direction, in any run on valid files:
   * it is judged as port 0, which no service has, and as a reply it would need an opener to port 0.
   */
  lemma LaterFragmentsNeverPass(lib: Lib, r0: Policy.Rules, h: seq<Move>, i: Input)
    requires lib.OneSpelling() && RunsOnFiles(lib, r0, h)
    requires LegalRun(r0, h) && !i.Reload? && RunsForward(h, i.now)
    requires i.p.HasPorts() && i.p.srcPort == 0 && i.p.dstPort == 0
    ensures !Passes(Run(r0, h), i)
  {
    InForceIsConfigured(lib, r0, h);
    PortZeroIsRefused(lib, InForce(r0, h), i);
    if Passes(Run(r0, h), i) {
      var j := PassedIsAccountedFor(r0, h, i);
      assert RunsOnFiles(lib, r0, h[..j]);
      InForceIsConfigured(lib, r0, h[..j]);
      PortZeroIsRefused(lib, InForce(r0, h[..j]), h[j].i);
    }
  }

  /** Some rule admits the sender on some port: when the design document lets a later fragment in. */
  ghost predicate AdmitsPeer(lib: Lib, c: Config, self: Peer, src: Addr, obs: Addr, now: int) {
    exists port: nat :: PolicyAdmits(lib, c, self, src, port, obs, now)
  }

  ghost predicate SendsToPeer(lib: Lib, c: Config, dst: Addr) { exists port: nat :: PolicySends(lib, c, dst, port) }

  /**
   * The design document has later fragments judged as packets without ports are. A fragment is treated as
   * documented exactly when no rule in force admits its sender, or names its destination, on any port.
   */
  lemma LaterFragmentAsDocumented(lib: Lib, c: Config, self: Peer, r0: Policy.Rules, h: seq<Move>, i: Input)
    requires lib.OneSpelling() && RunsOnFiles(lib, r0, h) && FromFiles(lib, InForce(r0, h), c, self)
    requires LegalRun(r0, h) && !i.Reload? && RunsForward(h, i.now)
    requires i.p.HasPorts() && i.p.srcPort == 0 && i.p.dstPort == 0
    ensures i.In? ==> ((Passes(Run(r0, h), i) <==> AdmitsPeer(lib, c, self, i.p.src, i.obs, i.now)) <==>
                       !AdmitsPeer(lib, c, self, i.p.src, i.obs, i.now))
    ensures i.Out? ==> ((Passes(Run(r0, h), i) <==> SendsToPeer(lib, c, i.p.dst)) <==> !SendsToPeer(lib, c, i.p.dst))
  {
    LaterFragmentsNeverPass(lib, r0, h, i);
  }
}
