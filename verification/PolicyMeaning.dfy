/** The compiled rules of a valid configuration decide as a plain reading of its files does. */
module PolicyMeaning {
  import opened Basics
  import opened Net
  import opened Configuration
  import opened Validation
  import opened Policy
  import opened PolicyCompile

  // ---------- The plain reading ----------

  /** Some service of this machine has that name and that port. */
  predicate Offers(p: Peer, app: string, port: int) {
    Service(app, port) in p.services
  }

  /** A date that has not passed; a date that is Go's zero time counts as no date at all. */
  predicate Unexpired(lib: Lib, text: string, now: int) {
    text == "" || match lib.parseDate(text) case None => false case Some(t) => t == 0 || now <= t
  }

  predicate InSomeRange(lib: Lib, texts: seq<string>, from: Addr) {
    exists t :: t in texts && lib.parsePrefix(t).Some? && lib.parsePrefix(t).value.Contains(from)
  }

  /** The conditions of one [[inbound]] entry: it states some, it is not past, and all it states hold. */
  predicate Met(lib: Lib, u: Inbound, id: string, from: Addr, now: int) {
    && (u.allow != [] || u.allowCIDR != [])
    && Unexpired(lib, u.expires, now)
    && (u.allow != [] ==> id in u.allow)
    && (u.allowCIDR != [] ==> InSomeRange(lib, u.allowCIDR, from))
  }

  // ---------- Ports ----------

  lemma {:induction false} ServicePortsMeaning(services: seq<Service>, app: string)
    ensures app in ServicePorts(services) <==> HasApp(services, app)
    ensures app in ServicePorts(services) ==>
              exists s :: s in services && s.app == app && ServicePorts(services)[app] == s.port % 0x1_0000
  {
    if services != [] {
      var n := |services| - 1;
      ServicePortsMeaning(services[..n], app);
      assert services == services[..n] + [services[n]];
    }
  }

  lemma {:induction false} PortTableSource(peers: seq<Peer>, id: string)
    ensures id in PortTable(peers) <==> id in ById(peers)
    ensures id in PortTable(peers) ==> PortTable(peers)[id] == ServicePorts(ById(peers)[id].services)
  {
    if peers != [] { PortTableSource(peers[..|peers| - 1], id); }
  }

  predicate InPortRange(services: seq<Service>) { forall s :: s in services ==> 0 < s.port <= 65535 }

  lemma ServicesByApp(services: seq<Service>, s: Service, t: Service)
    requires ServicesApart(services) && s in services && t in services && s.app == t.app
    ensures s == t
  {
    var i :| 0 <= i < |services| && services[i] == s;
    var j :| 0 <= j < |services| && services[j] == t;
    assert ServiceApart(services, i) && ServiceApart(services, j);
  }

  lemma ServicePortsOffer(p: Peer, app: string, port: nat)
    requires ServicesApart(p.services) && InPortRange(p.services)
    ensures app in ServicePorts(p.services) && ServicePorts(p.services)[app] == port <==> Offers(p, app, port)
  {
    ServicePortsMeaning(p.services, app);
    if app in ServicePorts(p.services) {
      var s :| s in p.services && s.app == app && ServicePorts(p.services)[app] == s.port % 0x1_0000;
      assert s == Service(app, s.port);
      if Offers(p, app, port) { ServicesByApp(p.services, s, Service(app, port)); }
    }
    if Offers(p, app, port) { assert HasApp(p.services, app); }
  }

  lemma PortOfListed(peers: seq<Peer>, p: Peer, app: string)
    requires UniqueIds(peers) && p in peers
    ensures PortOf(peers, p.peerID, app) ==
            if app in ServicePorts(p.services) then Some(ServicePorts(p.services)[app]) else None
  {
    LookupUnique(peers, p);
    PortTableSource(peers, p.peerID);
  }

  /** In a valid list, portOf gives an app's port exactly when the peer offers that app on that port. */
  lemma PortOfMeaning(lib: Lib, c: Config, p: Peer, app: string, port: nat)
    requires GoodPeers(lib, c.self, c.peers) && p in c.peers
    ensures PortOf(c.peers, p.peerID, app) == Some(port) <==> Offers(p, app, port)
    ensures PortOf(c.peers, p.peerID, app).Some? <==> HasApp(p.services, app)
  {
    GoodPeersAreUnique(lib, c.self, c.peers);
    PortOfListed(c.peers, p, app);
    PeerIsGood(lib, c.self, c.peers, p);
    ServicePortsOffer(p, app, port);
    ServicePortsMeaning(p.services, app);
  }

  // ---------- Peers ----------

  lemma {:induction false} PeerIndexSource(lib: Lib, peers: seq<Peer>, i: nat, acc: map<Addr, string>, ip: Addr)
    returns (p: Option<Peer>)
    requires i <= |peers| && PeerIndex(lib, peers, i, acc).Ok?
    requires ip in PeerIndex(lib, peers, i, acc).value
    ensures var m := PeerIndex(lib, peers, i, acc).value;
            match p
            case Some(q) => q in peers && lib.parseAddr(q.tunnelIP) == Some(ip) && m[ip] == q.peerID
            case None => ip in acc && m[ip] == acc[ip]
    decreases |peers| - i
  {
    if i == |peers| {
      p := None;
    } else {
      var a := lib.parseAddr(peers[i].tunnelIP).value;
      p := PeerIndexSource(lib, peers, i + 1, acc[a := peers[i].peerID], ip);
      if p.None? && a == ip { p := Some(peers[i]); }
    }
  }

  lemma {:induction false} PeerIndexEntry(lib: Lib, peers: seq<Peer>, i: nat, acc: map<Addr, string>, ip: Addr)
    requires i <= |peers| && PeerIndex(lib, peers, i, acc).Ok?
    requires ip in acc || exists j :: i <= j < |peers| && lib.parseAddr(peers[j].tunnelIP) == Some(ip)
    ensures ip in PeerIndex(lib, peers, i, acc).value
    decreases |peers| - i
  {
    if i < |peers| {
      var a := lib.parseAddr(peers[i].tunnelIP).value;
      PeerIndexEntry(lib, peers, i + 1, acc[a := peers[i].peerID], ip);
    }
  }

  lemma TunnelAddrsDiffer(lib: Lib, c: Config, p: Peer, q: Peer)
    requires GoodPeers(lib, c.self, c.peers) && lib.OneSpelling() && p in c.peers && q in c.peers
    ensures lib.parseAddr(p.tunnelIP) == Some(TunnelAddr(lib, p)) && TunnelAddr(lib, p).V4?
    ensures TunnelAddr(lib, p) == TunnelAddr(lib, q) ==> p == q
  {
    PeersApart(lib, c.self, c.peers, p, q);
    PeerIsGood(lib, c.self, c.peers, p);
    PeerIsGood(lib, c.self, c.peers, q);
  }

  /** peerByIP names a listed machine by its tunnel IP. */
  lemma PeerByIPOf(lib: Lib, c: Config, r: Rules, p: Peer)
    requires GoodPeers(lib, c.self, c.peers) && lib.OneSpelling() && New(lib, c) == Ok(r) && p in c.peers
    ensures TunnelAddr(lib, p) in r.peerByIP && r.peerByIP[TunnelAddr(lib, p)] == p.peerID
  {
    var ip := TunnelAddr(lib, p);
    TunnelAddrsDiffer(lib, c, p, p);
    PeerIndexEntry(lib, c.peers, 0, map[], ip);
    var found := PeerIndexSource(lib, c.peers, 0, map[], ip);
    TunnelAddrsDiffer(lib, c, p, found.value);
  }

  /** peerByIP names nobody else. */
  lemma PeerByIPListed(lib: Lib, c: Config, r: Rules, ip: Addr) returns (p: Peer)
    requires New(lib, c) == Ok(r) && ip in r.peerByIP
    ensures p in c.peers && TunnelAddr(lib, p) == ip && r.peerByIP[ip] == p.peerID
  {
    var found := PeerIndexSource(lib, c.peers, 0, map[], ip);
    p := found.value;
  }

  // ---------- Rules ----------

  lemma {:induction false} RangesMeaning(lib: Lib, texts: seq<string>, i: nat, acc: seq<Prefix>, from: Addr)
    requires i <= |texts| && Ranges(lib, texts, i, acc).Ok?
    ensures var cidrs := Ranges(lib, texts, i, acc).value;
            && |cidrs| == |acc| + |texts| - i
            && (InAny(cidrs, from) <==> InAny(acc, from) || (!from.NoAddr? && InSomeRange(lib, texts[i..], from)))
    decreases |texts| - i
  {
    if i < |texts| {
      var p := lib.parsePrefix(texts[i]).value;
      RangesMeaning(lib, texts, i + 1, acc + [p.Masked()], from);
      MaskedContains(p, from);
      assert texts[i..] == [texts[i]] + texts[i + 1..];
      assert InAny(acc + [p.Masked()], from) <==> InAny(acc, from) || (!from.NoAddr? && p.Contains(from)) by {
        assert forall x :: x in acc + [p.Masked()] <==> x in acc || x == p.Masked();
      }
    }
  }

  lemma CompiledRule(lib: Lib, c: Config, u: Inbound, e: Entry, id: string, from: Addr, now: int)
    requires CompileRule(lib, c, u) == Ok(e)
    ensures PortOf(c.peers, c.self.peerID, u.app) == Some(e.port)
    ensures e.rule.Allows(id, from, now) <==> Met(lib, u, id, from, now)
  {
    RangesMeaning(lib, u.allowCIDR, 0, [], from);
    assert u.allowCIDR[0..] == u.allowCIDR;
    assert u.allow != [] ==> u.allow[0] in e.rule.peers;
    assert from.NoAddr? ==> !InSomeRange(lib, u.allowCIDR, from);
  }

  lemma MetMeaning(lib: Lib, u: Inbound, id: string, from: Addr, now: int)
    ensures Met(lib, u, id, from, now) <==>
              && (u.allow != [] || u.allowCIDR != [])
              && (u.expires == "" || exists t :: lib.parseDate(u.expires) == Some(t) && (t == 0 || now <= t))
              && (u.allow != [] ==> id in u.allow)
              && (u.allowCIDR != [] ==>
                    exists text, range :: text in u.allowCIDR && lib.parsePrefix(text) == Some(range) && range.Contains(from))
  {
    hide Prefix.Contains;
    if Unexpired(lib, u.expires, now) && u.expires != "" {
      assert lib.parseDate(u.expires) == Some(lib.parseDate(u.expires).value);
    }
    if text :| text in u.allowCIDR && lib.parsePrefix(text).Some? && lib.parsePrefix(text).value.Contains(from) {
      assert lib.parsePrefix(text) == Some(lib.parsePrefix(text).value);
    }
  }

  /**
   * A compiled rule admits exactly when its entry states a condition, its date, if it has one that counts, is not
   * past, the peer is listed if peers are, and the source is in a stated range if ranges are.
   */
  lemma CompiledRuleMeaning(lib: Lib, c: Config, u: Inbound, e: Entry, id: string, from: Addr, now: int)
    requires CompileRule(lib, c, u) == Ok(e)
    ensures e.rule.Allows(id, from, now) <==>
              && (u.allow != [] || u.allowCIDR != [])
              && (u.expires == "" || exists t :: lib.parseDate(u.expires) == Some(t) && (t == 0 || now <= t))
              && (u.allow != [] ==> id in u.allow)
              && (u.allowCIDR != [] ==>
                    exists text, range :: text in u.allowCIDR && lib.parsePrefix(text) == Some(range) && range.Contains(from))
  {
    hide *;
    CompiledRule(lib, c, u, e, id, from, now);
    MetMeaning(lib, u, id, from, now);
  }

  lemma {:induction false} CompileRulesMeaning(lib: Lib, c: Config, i: nat, acc: seq<Entry>)
    requires i <= |c.policy.inbound| && CompileRules(lib, c, i, acc).Ok?
    ensures var entries := CompileRules(lib, c, i, acc).value;
            && |entries| == |acc| + |c.policy.inbound| - i
            && entries[..|acc|] == acc
            && forall j :: i <= j < |c.policy.inbound| ==>
                 CompileRule(lib, c, c.policy.inbound[j]) == Ok(entries[|acc| + j - i])
    decreases |c.policy.inbound| - i
  {
    if i < |c.policy.inbound| {
      var e := CompileRule(lib, c, c.policy.inbound[i]).value;
      CompileRulesMeaning(lib, c, i + 1, acc + [e]);
      var entries := CompileRules(lib, c, i, acc).value;
      assert entries[..|acc|] == entries[..|acc| + 1][..|acc|] == acc;
      assert entries[|acc|] == entries[..|acc| + 1][|acc|] == e;
    }
  }

  /** An entry of the policy that opens a port of this machine to a peer. */
  ghost predicate Opens(lib: Lib, c: Config, self: Peer, u: Inbound, port: nat, id: string, from: Addr, now: int) {
    u in c.policy.inbound && Offers(self, u.app, port) && Met(lib, u, id, from, now)
  }

  lemma AllowedByEntry(lib: Lib, c: Config, self: Peer, entries: seq<Entry>, port: nat, id: string, from: Addr, now: int)
    returns (u: Inbound)
    requires GoodPeers(lib, c.self, c.peers) && self in c.peers && self.peerID == c.self.peerID
    requires CompileRules(lib, c, 0, []) == Ok(entries)
    requires AnyAllows(OnPort(entries, port), id, from, now)
    ensures Opens(lib, c, self, u, port, id, from, now)
  {
    hide OnPort, CompileRules, GoodPeers, PortOf, Met;
    var rules := OnPort(entries, port);
    var i :| 0 <= i < |rules| && rules[i].Allows(id, from, now);
    OnPortMember(entries, port, rules[i]);
    var j :| 0 <= j < |entries| && entries[j] == Entry(port, rules[i]);
    CompileRulesMeaning(lib, c, 0, []);
    u := c.policy.inbound[j];
    CompiledRule(lib, c, u, entries[j], id, from, now);
    PortOfMeaning(lib, c, self, u.app, port);
  }

  lemma EntryAllows(lib: Lib, c: Config, self: Peer, entries: seq<Entry>, u: Inbound, port: nat, id: string, from: Addr, now: int)
    requires GoodPeers(lib, c.self, c.peers) && self in c.peers && self.peerID == c.self.peerID
    requires CompileRules(lib, c, 0, []) == Ok(entries)
    requires Opens(lib, c, self, u, port, id, from, now)
    ensures AnyAllows(OnPort(entries, port), id, from, now)
  {
    CompileRulesMeaning(lib, c, 0, []);
    var j :| 0 <= j < |c.policy.inbound| && c.policy.inbound[j] == u;
    CompiledRule(lib, c, u, entries[j], id, from, now);
    PortOfMeaning(lib, c, self, u.app, port);
    OnPortMember(entries, port, entries[j].rule);
    var rules := OnPort(entries, port);
    var i :| 0 <= i < |rules| && rules[i] == entries[j].rule;
    assert rules[i].Allows(id, from, now);
  }

  /** Compiling looks this machine up, and it is there once. */
  lemma SelfIsListed(lib: Lib, c: Config, self: Peer)
    requires GoodPeers(lib, c.self, c.peers) && self in c.peers && self.peerID == c.self.peerID
    ensures Find(c.peers, c.self.peerID) == Some(self)
  {
    GoodPeersAreUnique(lib, c.self, c.peers);
    LookupUnique(c.peers, self);
  }

  lemma InboundOpens(lib: Lib, c: Config, r: Rules, p: Peer, self: Peer, port: nat, from: Addr, now: int)
    requires GoodPeers(lib, c.self, c.peers) && lib.OneSpelling() && New(lib, c) == Ok(r)
    requires p in c.peers && self in c.peers && self.peerID == c.self.peerID
    ensures r.Inbound(TunnelAddr(lib, p), port, from, now).Allow? <==>
            exists u :: Opens(lib, c, self, u, port, p.peerID, from, now)
  {
    PeerByIPOf(lib, c, r, p);
    SelfIsListed(lib, c, self);
    var entries := CompileRules(lib, c, 0, []).value;
    GroupedMeaning(entries, port);
    if AnyAllows(OnPort(entries, port), p.peerID, from, now) {
      var u := AllowedByEntry(lib, c, self, entries, port, p.peerID, from, now);
    }
    if u :| Opens(lib, c, self, u, port, p.peerID, from, now) {
      EntryAllows(lib, c, self, entries, u, port, p.peerID, from, now);
    }
  }

  /**
   * A packet from the tunnel IP of a listed machine to a port of this machine is let in exactly when
   * some [[inbound]] entry for a service on that port has all its conditions met for the machine
   * that owns the address.
   */
  lemma InboundMeaning(lib: Lib, c: Config, r: Rules, p: Peer, self: Peer, src: Addr, port: nat, from: Addr, now: int)
    requires GoodPeers(lib, c.self, c.peers) && lib.OneSpelling() && New(lib, c) == Ok(r)
    requires p in c.peers && lib.parseAddr(p.tunnelIP) == Some(src)
    requires self in c.peers && self.peerID == c.self.peerID
    ensures r.Inbound(src, port, from, now).Allow? <==>
            exists u ::
              && u in c.policy.inbound && Service(u.app, port) in self.services
              && (u.allow != [] || u.allowCIDR != [])
              && (u.expires == "" || exists t :: lib.parseDate(u.expires) == Some(t) && (t == 0 || now <= t))
              && (u.allow != [] ==> p.peerID in u.allow)
              && (u.allowCIDR != [] ==>
                    exists text, range :: text in u.allowCIDR && lib.parsePrefix(text) == Some(range) && range.Contains(from))
  {
    hide GoodPeers, New, Met, Prefix.Contains;
    InboundOpens(lib, c, r, p, self, port, from, now);
    if u :| Opens(lib, c, self, u, port, p.peerID, from, now) { MetMeaning(lib, u, p.peerID, from, now); }
    if u :|
      && u in c.policy.inbound && Service(u.app, port) in self.services
      && (u.allow != [] || u.allowCIDR != [])
      && (u.expires == "" || exists t :: lib.parseDate(u.expires) == Some(t) && (t == 0 || now <= t))
      && (u.allow != [] ==> p.peerID in u.allow)
      && (u.allowCIDR != [] ==>
            exists text, range :: text in u.allowCIDR && lib.parsePrefix(text) == Some(range) && range.Contains(from))
    {
      MetMeaning(lib, u, p.peerID, from, now);
      assert Opens(lib, c, self, u, port, p.peerID, from, now);
    }
  }

  /** A packet from an address no listed machine has is never let in. */
  lemma StrangersStayOut(lib: Lib, c: Config, r: Rules, src: Addr, port: nat, from: Addr, now: int)
    requires GoodPeers(lib, c.self, c.peers) && lib.OneSpelling() && New(lib, c) == Ok(r)
    requires forall p :: p in c.peers ==> lib.parseAddr(p.tunnelIP) != Some(src)
    ensures r.Inbound(src, port, from, now) == Deny(UnknownSender)
    ensures r.InboundICMP(src, from, now) == Deny(UnknownSender)
  {
    if src in r.peerByIP {
      var p := PeerByIPListed(lib, c, r, src);
      TunnelAddrsDiffer(lib, c, p, p);
    }
  }

  // ---------- Targets ----------

  lemma {:induction false} CompileTargetsMeaning(lib: Lib, c: Config, i: nat, acc: seq<(Addr, nat)>, t: (Addr, nat))
    requires i <= |c.policy.outbound| && CompileTargets(lib, c, i, acc).Ok?
    ensures t in CompileTargets(lib, c, i, acc).value <==>
            t in acc || exists j :: i <= j < |c.policy.outbound| && CompileTarget(lib, c, c.policy.outbound[j]) == Ok(t)
    decreases |c.policy.outbound| - i
  {
    if i < |c.policy.outbound| {
      var u := CompileTarget(lib, c, c.policy.outbound[i]).value;
      CompileTargetsMeaning(lib, c, i + 1, acc + [u], t);
    }
  }

  lemma TargetMeaning(lib: Lib, c: Config, text: string, p: Peer, port: nat)
    requires GoodPeers(lib, c.self, c.peers) && lib.OneSpelling() && p in c.peers
    ensures CompileTarget(lib, c, text) == Ok((TunnelAddr(lib, p), port)) <==>
            exists app :: text == p.peerID + "/" + app && Offers(p, app, port)
  {
    hide GoodPeers, Offers;
    GoodPeersAreUnique(lib, c.self, c.peers);
    PeerIsGood(lib, c.self, c.peers, p);
    LookupUnique(c.peers, p);
    TunnelAddrsDiffer(lib, c, p, p);
    if CompileTarget(lib, c, text) == Ok((TunnelAddr(lib, p), port)) {
      var (id, app) := Cut(text).value;
      var q := Find(c.peers, id).value;
      TunnelAddrsDiffer(lib, c, q, p);
      PortOfMeaning(lib, c, p, app, port);
      assert text == p.peerID + "/" + app && Offers(p, app, port);
    }
    if app :| text == p.peerID + "/" + app && Offers(p, app, port) {
      CutJoin(p.peerID, app);
      PortOfMeaning(lib, c, p, app, port);
    }
  }

  lemma OutboundOffers(lib: Lib, c: Config, r: Rules, p: Peer, port: nat)
    requires GoodPeers(lib, c.self, c.peers) && lib.OneSpelling() && New(lib, c) == Ok(r) && p in c.peers
    ensures r.Outbound(TunnelAddr(lib, p), port).Allow? <==>
            exists app :: p.peerID + "/" + app in c.policy.outbound && Offers(p, app, port)
  {
    var t := (TunnelAddr(lib, p), port);
    CompileTargetsMeaning(lib, c, 0, [], t);
    if t in r.outbound {
      var j :| 0 <= j < |c.policy.outbound| && CompileTarget(lib, c, c.policy.outbound[j]) == Ok(t);
      TargetMeaning(lib, c, c.policy.outbound[j], p, port);
      var app :| c.policy.outbound[j] == p.peerID + "/" + app && Offers(p, app, port);
      assert p.peerID + "/" + app in c.policy.outbound;
    }
    if app :| p.peerID + "/" + app in c.policy.outbound && Offers(p, app, port) {
      var text := p.peerID + "/" + app;
      TargetMeaning(lib, c, text, p, port);
      var j :| 0 <= j < |c.policy.outbound| && c.policy.outbound[j] == text;
      assert CompileTarget(lib, c, c.policy.outbound[j]) == Ok(t);
    }
  }

  /**
   * A packet to the tunnel IP of a listed machine is let out exactly when some outbound entry reads
   * peer-id/app for an app that machine offers on that port.
   */
  lemma OutboundMeaning(lib: Lib, c: Config, r: Rules, p: Peer, dst: Addr, port: nat)
    requires GoodPeers(lib, c.self, c.peers) && lib.OneSpelling() && New(lib, c) == Ok(r)
    requires p in c.peers && lib.parseAddr(p.tunnelIP) == Some(dst)
    ensures r.Outbound(dst, port).Allow? <==>
            exists app :: p.peerID + "/" + app in c.policy.outbound && Service(app, port) in p.services
  {
    hide GoodPeers, New;
    OutboundOffers(lib, c, r, p, port);
  }

  // ---------- Validation and compilation ----------

  lemma {:induction false} PeerIndexReads(lib: Lib, peers: seq<Peer>, i: nat, acc: map<Addr, string>)
    requires i <= |peers| && forall j :: i <= j < |peers| ==> lib.parseAddr(peers[j].tunnelIP).Some?
    ensures PeerIndex(lib, peers, i, acc).Ok?
    decreases |peers| - i
  {
    if i < |peers| {
      PeerIndexReads(lib, peers, i + 1, acc[lib.parseAddr(peers[i].tunnelIP).value := peers[i].peerID]);
    }
  }

  lemma {:induction false} RangesRead(lib: Lib, texts: seq<string>, i: nat, acc: seq<Prefix>)
    requires i <= |texts| && forall j :: i <= j < |texts| ==> lib.parsePrefix(texts[j]).Some?
    ensures Ranges(lib, texts, i, acc).Ok?
    decreases |texts| - i
  {
    if i < |texts| { RangesRead(lib, texts, i + 1, acc + [lib.parsePrefix(texts[i]).value.Masked()]); }
  }

  lemma {:induction false} CompileRulesReads(lib: Lib, c: Config, i: nat, acc: seq<Entry>)
    requires i <= |c.policy.inbound|
    ensures CompileRules(lib, c, i, acc).Ok? <==>
            forall j :: i <= j < |c.policy.inbound| ==> CompileRule(lib, c, c.policy.inbound[j]).Ok?
    decreases |c.policy.inbound| - i
  {
    if i < |c.policy.inbound| {
      var e := CompileRule(lib, c, c.policy.inbound[i]);
      if e.Ok? { CompileRulesReads(lib, c, i + 1, acc + [e.value]); }
    }
  }

  lemma {:induction false} CompileTargetsReads(lib: Lib, c: Config, i: nat, acc: seq<(Addr, nat)>)
    requires i <= |c.policy.outbound|
    requires forall j :: i <= j < |c.policy.outbound| ==> CompileTarget(lib, c, c.policy.outbound[j]).Ok?
    ensures CompileTargets(lib, c, i, acc).Ok?
    decreases |c.policy.outbound| - i
  {
    if i < |c.policy.outbound| {
      CompileTargetsReads(lib, c, i + 1, acc + [CompileTarget(lib, c, c.policy.outbound[i]).value]);
    }
  }

  predicate ExpiryReads(lib: Lib, u: Inbound) { u.expires == "" || lib.parseDate(u.expires).Some? }

  lemma ValidEntryCompiles(lib: Lib, c: Config, self: Peer, u: Inbound, now: int)
    requires GoodPeers(lib, c.self, c.peers) && self in c.peers && self.peerID == c.self.peerID
    requires GoodInbound(lib, c, u, now)
    ensures CompileRule(lib, c, u).Ok? <==> ExpiryReads(lib, u)
  {
    SelfIsListed(lib, c, self);
    PortOfMeaning(lib, c, self, u.app, 0);
    RangesRead(lib, u.allowCIDR, 0, []);
  }

  lemma ValidTargetCompiles(lib: Lib, c: Config, text: string)
    requires GoodPeers(lib, c.self, c.peers) && GoodTarget(c, text)
    ensures CompileTarget(lib, c, text).Ok?
  {
    var (id, app) := Cut(text).value;
    PortOfMeaning(lib, c, Find(c.peers, id).value, app, 0);
  }

  /**
   * Rules compile from a configuration that Validate accepts exactly when every expiry reads.
   * Validate looks at the expiry of an entry only when the entry states ranges, so an unreadable
   * expiry on an entry without ranges passes it and stops policy.New.
   */
  lemma ValidCompiles(lib: Lib, c: Config, now: int)
    requires Valid(lib, c, now)
    ensures New(lib, c).Ok? <==> forall u :: u in c.policy.inbound ==> ExpiryReads(lib, u)
  {
    var self := Find(c.peers, c.self.peerID).value;
    forall p | p in c.peers ensures lib.parseAddr(p.tunnelIP).Some? { PeerIsGood(lib, c.self, c.peers, p); }
    PeerIndexReads(lib, c.peers, 0, map[]);
    forall u | u in c.policy.inbound ensures CompileRule(lib, c, u).Ok? <==> ExpiryReads(lib, u) {
      ValidEntryCompiles(lib, c, self, u, now);
    }
    CompileRulesReads(lib, c, 0, []);
    forall t | t in c.policy.outbound ensures CompileTarget(lib, c, t).Ok? { ValidTargetCompiles(lib, c, t); }
    CompileTargetsReads(lib, c, 0, []);
  }
}
