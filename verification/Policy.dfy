/** internal/policy/policy.go: the rules compiled from a configuration, and the decisions they give. */
module Policy {
  import opened Basics
  import opened Net

  /** One [[inbound]] rule. expires is an instant, and Go's zero time, here 0, means it never dies. */
  datatype Rule = Rule(app: string, peers: set<string>, cidrs: seq<Prefix>, expires: int) {
    predicate Dead(now: int) { expires != 0 && now > expires }

    /** A rule that states no condition admits nobody; otherwise every stated condition must hold. */
    predicate Allows(id: string, from: Addr, now: int) {
      && !(peers == {} && cidrs == [])
      && !Dead(now)
      && (peers != {} ==> id in peers)
      && (cidrs != [] ==> InAny(cidrs, from))
    }
  }

  predicate InAny(cidrs: seq<Prefix>, ip: Addr) {
    !ip.NoAddr? && exists c :: c in cidrs && c.Contains(ip)
  }

  /** Why a packet is refused; the log shows it to the operator. */
  datatype Reason =
    | UnknownSender
    | ClosedPort(id: string, port: nat)
    | Expired(app: string, expires: int)
    | OutsideRange(id: string, app: string, from: Addr)
    | NoRule(id: string, port: nat)
    | NoOpenService(id: string)
    | NotListed(id: string, port: nat)
    | NoListedService(id: string)
    | UnknownPeer(ip: Addr)

  datatype Decision = Allow | Deny(reason: Reason)

  predicate AnyAllows(rules: seq<Rule>, id: string, from: Addr, now: int) {
    exists i :: 0 <= i < |rules| && rules[i].Allows(id, from, now)
  }

  /** The first rule that fits the peer but is dead or looks at ranges says why the packet was refused. */
  function BanReason(rules: seq<Rule>, id: string, from: Addr, now: int): Option<Reason> {
    if rules == [] then None else
    var u := rules[0];
    if u.peers != {} && id !in u.peers then BanReason(rules[1..], id, from, now)
    else if u.Dead(now) then Some(Expired(u.app, u.expires))
    else if u.cidrs != [] then Some(OutsideRange(id, u.app, from))
    else BanReason(rules[1..], id, from, now)
  }

  /** A map from Go to bool is the set of its true keys. */
  datatype Rules = Rules(
    peerByIP: map<Addr, string>,
    inbound: map<nat, seq<Rule>>, allInbound: seq<Rule>,
    needSource: set<nat>, needSourceICMP: bool,
    outbound: set<(Addr, nat)>, outboundPeers: set<Addr>)
  {
    predicate NeedsSource(port: nat) { port in needSource }

    function Inbound(src: Addr, port: nat, from: Addr, now: int): Decision {
      if src !in peerByIP then Deny(UnknownSender)
      else if port !in inbound then Deny(ClosedPort(peerByIP[src], port))
      else if AnyAllows(inbound[port], peerByIP[src], from, now) then Allow
      else match BanReason(inbound[port], peerByIP[src], from, now)
           case Some(why) => Deny(why)
           case None => Deny(NoRule(peerByIP[src], port))
    }

    function InboundICMP(src: Addr, from: Addr, now: int): Decision {
      if src !in peerByIP then Deny(UnknownSender)
      else if AnyAllows(allInbound, peerByIP[src], from, now) then Allow
      else match BanReason(allInbound, peerByIP[src], from, now)
           case Some(why) => Deny(why)
           case None => Deny(NoOpenService(peerByIP[src]))
    }

    function Outbound(dst: Addr, port: nat): Decision {
      if (dst, port) in outbound then Allow
      else if dst in peerByIP then Deny(NotListed(peerByIP[dst], port))
      else Deny(UnknownPeer(dst))
    }

    function OutboundICMP(dst: Addr): Decision {
      if dst in outboundPeers then Allow
      else if dst in peerByIP then Deny(NoListedService(peerByIP[dst]))
      else Deny(UnknownPeer(dst))
    }

    /** The indexes agree with each other. */
    ghost predicate WellIndexed() {
      && (forall u :: u in allInbound <==> exists port :: port in inbound && u in inbound[port])
      && (forall port :: port in needSource <==>
            port in inbound && exists u :: u in inbound[port] && u.cidrs != [])
      && (needSourceICMP <==> exists u :: u in allInbound && u.cidrs != [])
      && (forall ip :: ip in outboundPeers <==> exists port: nat :: (ip, port) in outbound)
    }
  }

  // ---------- What the indexes are for ----------

  /** Rules without ranges do not look at where the packet was observed to come from. */
  lemma {:induction false} BlindToSource(rules: seq<Rule>, id: string, from: Addr, from': Addr, now: int)
    requires forall u :: u in rules ==> u.cidrs == []
    ensures AnyAllows(rules, id, from, now) == AnyAllows(rules, id, from', now)
    ensures BanReason(rules, id, from, now) == BanReason(rules, id, from', now)
  {
    assert forall i :: 0 <= i < |rules| ==> rules[i].Allows(id, from, now) == rules[i].Allows(id, from', now);
    if rules != [] { BlindToSource(rules[1..], id, from, from', now); }
  }

  /** When NeedsSource is false the whole decision, reason included, is the same for every observed source. */
  lemma SourceNotNeeded(r: Rules, src: Addr, port: nat, from: Addr, from': Addr, now: int)
    requires r.WellIndexed() && !r.NeedsSource(port)
    ensures r.Inbound(src, port, from, now) == r.Inbound(src, port, from', now)
  {
    if src in r.peerByIP && port in r.inbound {
      BlindToSource(r.inbound[port], r.peerByIP[src], from, from', now);
    }
  }

  lemma SourceNotNeededICMP(r: Rules, src: Addr, from: Addr, from': Addr, now: int)
    requires r.WellIndexed() && !r.needSourceICMP
    ensures r.InboundICMP(src, from, now) == r.InboundICMP(src, from', now)
  {
    if src in r.peerByIP { BlindToSource(r.allInbound, r.peerByIP[src], from, from', now); }
  }

  /** ICMP is let in exactly when some port would be. */
  lemma InboundICMPMeaning(r: Rules, src: Addr, from: Addr, now: int)
    requires r.WellIndexed()
    ensures r.InboundICMP(src, from, now).Allow? <==> exists port: nat :: r.Inbound(src, port, from, now).Allow?
  {
    if r.InboundICMP(src, from, now).Allow? {
      var i :| 0 <= i < |r.allInbound| && r.allInbound[i].Allows(r.peerByIP[src], from, now);
      assert r.allInbound[i] in r.allInbound;
      var port :| port in r.inbound && r.allInbound[i] in r.inbound[port];
      var j :| 0 <= j < |r.inbound[port]| && r.inbound[port][j] == r.allInbound[i];
      assert r.Inbound(src, port, from, now).Allow?;
    }
    if port: nat :| r.Inbound(src, port, from, now).Allow? {
      var j :| 0 <= j < |r.inbound[port]| && r.inbound[port][j].Allows(r.peerByIP[src], from, now);
      assert r.inbound[port][j] in r.allInbound;
      var i :| 0 <= i < |r.allInbound| && r.allInbound[i] == r.inbound[port][j];
      assert r.allInbound[i].Allows(r.peerByIP[src], from, now);
    }
  }

  lemma OutboundICMPMeaning(r: Rules, dst: Addr)
    requires r.WellIndexed()
    ensures r.OutboundICMP(dst).Allow? <==> exists port: nat :: r.Outbound(dst, port).Allow?
  {
    if port: nat :| (dst, port) in r.outbound { assert r.Outbound(dst, port).Allow?; }
    if port: nat :| r.Outbound(dst, port).Allow? { assert (dst, port) in r.outbound; }
  }
}
