/** Which reason a refusal gives, read off the files: the first entry that fits the peer and can be blamed gives it. */
module PolicyReasons {
  import opened Basics
  import opened Net
  import opened Configuration
  import opened Validation
  import opened Policy
  import opened PolicyCompile
  import opened PolicyMeaning

  /** The date of an entry, if it has one that counts, is past. */
  predicate Past(lib: Lib, text: string, now: int) {
    text != "" && match lib.parseDate(text) case None => false case Some(t) => t != 0 && now > t
  }

  /** The entry fits the peer, and its date is past or it states ranges: it can be blamed for a refusal. */
  predicate Blamed(lib: Lib, u: Inbound, id: string, now: int) {
    (u.allow == [] || id in u.allow) && (Past(lib, u.expires, now) || u.allowCIDR != [])
  }

  /** What the operator is told when this entry is to blame. */
  function Blame(lib: Lib, u: Inbound, id: string, from: Addr, now: int): Reason {
    if Past(lib, u.expires, now) then Expired(u.app, lib.parseDate(u.expires).value) else OutsideRange(id, u.app, from)
  }

  predicate RuleBlamed(u: Rule, id: string, now: int) {
    (u.peers == {} || id in u.peers) && ((u.expires != 0 && now > u.expires) || u.cidrs != [])
  }

  function RuleBlame(u: Rule, id: string, from: Addr, now: int): Reason {
    if u.expires != 0 && now > u.expires then Expired(u.app, u.expires) else OutsideRange(id, u.app, from)
  }

  lemma {:induction false} BanReasonNone(rules: seq<Rule>, id: string, from: Addr, now: int)
    requires forall i :: 0 <= i < |rules| ==> !RuleBlamed(rules[i], id, now)
    ensures BanReason(rules, id, from, now) == None
  {
    if rules != [] {
      assert !RuleBlamed(rules[0], id, now);
      BanReasonNone(rules[1..], id, from, now);
    }
  }

  lemma {:induction false} BanReasonFirst(rules: seq<Rule>, k: nat, id: string, from: Addr, now: int)
    requires k < |rules| && RuleBlamed(rules[k], id, now) && forall i :: 0 <= i < k ==> !RuleBlamed(rules[i], id, now)
    ensures BanReason(rules, id, from, now) == Some(RuleBlame(rules[k], id, from, now))
  {
    if k > 0 {
      assert !RuleBlamed(rules[0], id, now);
      BanReasonFirst(rules[1..], k - 1, id, from, now);
    }
  }

  lemma CompiledBlame(lib: Lib, c: Config, u: Inbound, e: Entry, id: string, from: Addr, now: int)
    requires CompileRule(lib, c, u) == Ok(e)
    ensures RuleBlamed(e.rule, id, now) <==> Blamed(lib, u, id, now)
    ensures Blamed(lib, u, id, now) ==> RuleBlame(e.rule, id, from, now) == Blame(lib, u, id, from, now)
  {
    RangesMeaning(lib, u.allowCIDR, 0, [], from);
    assert u.allow != [] ==> u.allow[0] in e.rule.peers;
  }

  /** The rules for a port are those of its entries, in the order of the file. */
  lemma {:induction false} OnPortPlaces(entries: seq<Entry>, port: nat) returns (at: seq<nat>)
    ensures |at| == |OnPort(entries, port)|
    ensures forall i :: 0 <= i < |at| ==>
              at[i] < |entries| && entries[at[i]].port == port && OnPort(entries, port)[i] == entries[at[i]].rule
    ensures forall k :: 0 <= k < |entries| && entries[k].port == port ==> k in at
    ensures forall i, j :: 0 <= i < j < |at| ==> at[i] < at[j]
  {
    at := [];
    if entries != [] {
      var n: nat := |entries| - 1;
      at := OnPortPlaces(entries[..n], port);
      if entries[n].port == port { at := at + [n]; }
      forall k | 0 <= k < |entries| && entries[k].port == port ensures k in at {
        if k < n { assert entries[..n][k].port == port; }
      }
    }
  }

  lemma {:induction false} AllRulesPlaces(entries: seq<Entry>)
    ensures |AllRules(entries)| == |entries| && forall i :: 0 <= i < |entries| ==> AllRules(entries)[i] == entries[i].rule
  {
    if entries != [] { AllRulesPlaces(entries[..|entries| - 1]); }
  }

  /** The entry to blame for a refusal on this port: the first for it that can be. */
  ghost predicate FirstBlamed(lib: Lib, c: Config, self: Peer, port: nat, id: string, now: int, k: nat) {
    && k < |c.policy.inbound| && Offers(self, c.policy.inbound[k].app, port) && Blamed(lib, c.policy.inbound[k], id, now)
    && forall j :: 0 <= j < k && Offers(self, c.policy.inbound[j].app, port) ==> !Blamed(lib, c.policy.inbound[j], id, now)
  }

  lemma NewParts(lib: Lib, c: Config, r: Rules) returns (entries: seq<Entry>)
    requires New(lib, c) == Ok(r)
    ensures CompileRules(lib, c, 0, []) == Ok(entries) && r.inbound == Grouped(entries) && r.allInbound == AllRules(entries)
  {
    entries := CompileRules(lib, c, 0, []).value;
  }

  /** The compiled entries are those of the policy, one by one. */
  lemma CompiledEntries(lib: Lib, c: Config, r: Rules) returns (entries: seq<Entry>)
    requires New(lib, c) == Ok(r)
    ensures r.inbound == Grouped(entries) && r.allInbound == AllRules(entries)
    ensures |entries| == |c.policy.inbound|
    ensures forall j :: 0 <= j < |entries| ==> CompileRule(lib, c, c.policy.inbound[j]) == Ok(entries[j])
  {
    hide *;
    entries := NewParts(lib, c, r);
    CompileRulesMeaning(lib, c, 0, []);
  }

  lemma CompiledPorts(lib: Lib, c: Config, self: Peer, entries: seq<Entry>, port: nat)
    requires GoodPeers(lib, c.self, c.peers) && self in c.peers && self.peerID == c.self.peerID
    requires |entries| == |c.policy.inbound|
    requires forall j :: 0 <= j < |entries| ==> CompileRule(lib, c, c.policy.inbound[j]) == Ok(entries[j])
    ensures forall j :: 0 <= j < |entries| ==> (entries[j].port == port <==> Offers(self, c.policy.inbound[j].app, port))
  {
    hide *;
    forall j | 0 <= j < |entries| ensures entries[j].port == port <==> Offers(self, c.policy.inbound[j].app, port) {
      CompiledRule(lib, c, c.policy.inbound[j], entries[j], "", NoAddr, 0);
      PortOfMeaning(lib, c, self, c.policy.inbound[j].app, port);
    }
  }

  lemma BlameOnPort(lib: Lib, c: Config, self: Peer, entries: seq<Entry>, port: nat, id: string, from: Addr, now: int, k: nat)
    requires |entries| == |c.policy.inbound|
    requires forall j :: 0 <= j < |entries| ==> CompileRule(lib, c, c.policy.inbound[j]) == Ok(entries[j])
    requires forall j :: 0 <= j < |entries| ==> (entries[j].port == port <==> Offers(self, c.policy.inbound[j].app, port))
    requires FirstBlamed(lib, c, self, port, id, now, k)
    ensures BanReason(OnPort(entries, port), id, from, now) == Some(Blame(lib, c.policy.inbound[k], id, from, now))
  {
    hide CompileRule, Blamed, Blame, RuleBlamed, RuleBlame, Offers;
    var at := OnPortPlaces(entries, port);
    var i: nat :| i < |at| && at[i] == k;
    CompiledBlame(lib, c, c.policy.inbound[k], entries[k], id, from, now);
    forall j | 0 <= j < i ensures !RuleBlamed(OnPort(entries, port)[j], id, now) {
      CompiledBlame(lib, c, c.policy.inbound[at[j]], entries[at[j]], id, from, now);
    }
    BanReasonFirst(OnPort(entries, port), i, id, from, now);
  }

  lemma NoBlameOnPort(lib: Lib, c: Config, self: Peer, entries: seq<Entry>, port: nat, id: string, from: Addr, now: int)
    requires |entries| == |c.policy.inbound|
    requires forall j :: 0 <= j < |entries| ==> CompileRule(lib, c, c.policy.inbound[j]) == Ok(entries[j])
    requires forall j :: 0 <= j < |entries| ==> (entries[j].port == port <==> Offers(self, c.policy.inbound[j].app, port))
    requires forall u :: u in c.policy.inbound && Offers(self, u.app, port) ==> !Blamed(lib, u, id, now)
    ensures BanReason(OnPort(entries, port), id, from, now) == None
  {
    hide CompileRule, Blamed, RuleBlamed, Offers;
    var at := OnPortPlaces(entries, port);
    forall j | 0 <= j < |at| ensures !RuleBlamed(OnPort(entries, port)[j], id, now) {
      CompiledBlame(lib, c, c.policy.inbound[at[j]], entries[at[j]], id, from, now);
    }
    BanReasonNone(OnPort(entries, port), id, from, now);
  }

  lemma {:induction false} SomeFirstBlamed(lib: Lib, c: Config, self: Peer, port: nat, id: string, now: int, n: nat)
    returns (k: nat)
    requires n < |c.policy.inbound| && Offers(self, c.policy.inbound[n].app, port) && Blamed(lib, c.policy.inbound[n], id, now)
    ensures FirstBlamed(lib, c, self, port, id, now, k)
  {
    hide Offers, Blamed;
    if m: nat :| m < n && Offers(self, c.policy.inbound[m].app, port) && Blamed(lib, c.policy.inbound[m], id, now) {
      k := SomeFirstBlamed(lib, c, self, port, id, now, m);
    } else {
      k := n;
    }
  }

  lemma OfferedOnPort(c: Config, self: Peer, entries: seq<Entry>, port: nat)
    requires |entries| == |c.policy.inbound|
    requires forall j :: 0 <= j < |entries| ==> (entries[j].port == port <==> Offers(self, c.policy.inbound[j].app, port))
    ensures OnPort(entries, port) == [] <==> forall u :: u in c.policy.inbound ==> !Offers(self, u.app, port)
  {
    hide Offers;
    var at := OnPortPlaces(entries, port);
    if u :| u in c.policy.inbound && Offers(self, u.app, port) {
      var j :| 0 <= j < |entries| && c.policy.inbound[j] == u;
      assert j in at;
    }
    if OnPort(entries, port) != [] { assert c.policy.inbound[at[0]] in c.policy.inbound; }
  }

  /** What it takes to be blamed, and what the blamed entry is told: its date if that is past, else its ranges. */
  lemma BlamedMeaning(lib: Lib, u: Inbound, id: string, from: Addr, now: int)
    ensures Blamed(lib, u, id, now) <==>
              && (u.allow == [] || id in u.allow)
              && (u.allowCIDR != [] || (u.expires != "" && exists t :: lib.parseDate(u.expires) == Some(t) && t != 0 && t < now))
    ensures forall t :: u.expires != "" && lib.parseDate(u.expires) == Some(t) && t != 0 && t < now ==>
              Blame(lib, u, id, from, now) == Expired(u.app, t)
    ensures u.expires == "" || (forall t :: lib.parseDate(u.expires) == Some(t) && t != 0 ==> now <= t) ==>
              Blame(lib, u, id, from, now) == OutsideRange(id, u.app, from)
  {
    if Past(lib, u.expires, now) { assert lib.parseDate(u.expires) == Some(lib.parseDate(u.expires).value); }
  }

  /**
   * A refused packet from a listed machine: no entry is for a service on the port, and the port is closed; or
   * the first entry for it that can be blamed is; or none can, and no rule is for the machine.
   */
  lemma InboundReason(lib: Lib, c: Config, r: Rules, p: Peer, self: Peer, src: Addr, port: nat, from: Addr, now: int)
    requires GoodPeers(lib, c.self, c.peers) && lib.OneSpelling() && New(lib, c) == Ok(r)
    requires p in c.peers && lib.parseAddr(p.tunnelIP) == Some(src)
    requires self in c.peers && self.peerID == c.self.peerID
    requires !r.Inbound(src, port, from, now).Allow?
    ensures var d := r.Inbound(src, port, from, now);
            && (d == Deny(ClosedPort(p.peerID, port)) <==>
                  forall u :: u in c.policy.inbound ==> Service(u.app, port) !in self.services)
            && (d == Deny(NoRule(p.peerID, port)) <==>
                  && (exists u :: u in c.policy.inbound && Service(u.app, port) in self.services)
                  && forall u :: u in c.policy.inbound && Service(u.app, port) in self.services ==>
                       !Blamed(lib, u, p.peerID, now))
            && forall k: nat ::
                 && k < |c.policy.inbound| && Service(c.policy.inbound[k].app, port) in self.services
                 && Blamed(lib, c.policy.inbound[k], p.peerID, now)
                 && (forall j :: 0 <= j < k && Service(c.policy.inbound[j].app, port) in self.services ==>
                       !Blamed(lib, c.policy.inbound[j], p.peerID, now))
                 ==> d == Deny(Blame(lib, c.policy.inbound[k], p.peerID, from, now))
  {
    hide GoodPeers, New, Blamed, CompileRules, CompileRule;
    PeerByIPOf(lib, c, r, p);
    var entries := CompiledEntries(lib, c, r);
    CompiledPorts(lib, c, self, entries, port);
    GroupedMeaning(entries, port);
    OfferedOnPort(c, self, entries, port);
    if u :| u in c.policy.inbound && Offers(self, u.app, port) && Blamed(lib, u, p.peerID, now) {
      var n: nat :| n < |c.policy.inbound| && c.policy.inbound[n] == u;
      var first := SomeFirstBlamed(lib, c, self, port, p.peerID, now, n);
      BlameOnPort(lib, c, self, entries, port, p.peerID, from, now, first);
    } else {
      NoBlameOnPort(lib, c, self, entries, port, p.peerID, from, now);
    }
    forall k: nat | FirstBlamed(lib, c, self, port, p.peerID, now, k)
      ensures BanReason(OnPort(entries, port), p.peerID, from, now) == Some(Blame(lib, c.policy.inbound[k], p.peerID, from, now))
    {
      BlameOnPort(lib, c, self, entries, port, p.peerID, from, now, k);
    }
  }

  /** ICMP names no port, so the first entry of all that can be blamed gives the reason. */
  lemma InboundICMPReason(lib: Lib, c: Config, r: Rules, p: Peer, src: Addr, from: Addr, now: int)
    requires GoodPeers(lib, c.self, c.peers) && lib.OneSpelling() && New(lib, c) == Ok(r)
    requires p in c.peers && lib.parseAddr(p.tunnelIP) == Some(src) && !r.InboundICMP(src, from, now).Allow?
    ensures var d := r.InboundICMP(src, from, now);
            && ((forall u :: u in c.policy.inbound ==> !Blamed(lib, u, p.peerID, now)) ==> d == Deny(NoOpenService(p.peerID)))
            && forall k: nat ::
                 && k < |c.policy.inbound| && Blamed(lib, c.policy.inbound[k], p.peerID, now)
                 && (forall j :: 0 <= j < k ==> !Blamed(lib, c.policy.inbound[j], p.peerID, now))
                 ==> d == Deny(Blame(lib, c.policy.inbound[k], p.peerID, from, now))
  {
    hide GoodPeers, New, Blamed, Blame, RuleBlamed, RuleBlame, CompileRules, CompileRule;
    PeerByIPOf(lib, c, r, p);
    var entries := CompiledEntries(lib, c, r);
    var rules := AllRules(entries);
    AllRulesPlaces(entries);
    forall j | 0 <= j < |rules|
      ensures RuleBlamed(rules[j], p.peerID, now) <==> Blamed(lib, c.policy.inbound[j], p.peerID, now)
      ensures RuleBlamed(rules[j], p.peerID, now) ==>
                RuleBlame(rules[j], p.peerID, from, now) == Blame(lib, c.policy.inbound[j], p.peerID, from, now)
    {
      CompiledBlame(lib, c, c.policy.inbound[j], entries[j], p.peerID, from, now);
    }
    if forall u :: u in c.policy.inbound ==> !Blamed(lib, u, p.peerID, now) {
      BanReasonNone(rules, p.peerID, from, now);
    }
    forall k: nat |
      && k < |c.policy.inbound| && Blamed(lib, c.policy.inbound[k], p.peerID, now)
      && (forall j :: 0 <= j < k ==> !Blamed(lib, c.policy.inbound[j], p.peerID, now))
      ensures BanReason(rules, p.peerID, from, now) == Some(Blame(lib, c.policy.inbound[k], p.peerID, from, now))
    {
      BanReasonFirst(rules, k, p.peerID, from, now);
    }
  }

  lemma TargetIsListed(lib: Lib, c: Config, r: Rules, dst: Addr, port: nat)
    requires GoodPeers(lib, c.self, c.peers) && lib.OneSpelling() && New(lib, c) == Ok(r) && (dst, port) in r.outbound
    ensures exists p :: p in c.peers && lib.parseAddr(p.tunnelIP) == Some(dst)
  {
    CompileTargetsMeaning(lib, c, 0, [], (dst, port));
    var j :| 0 <= j < |c.policy.outbound| && CompileTarget(lib, c, c.policy.outbound[j]) == Ok((dst, port));
    var q := Find(c.peers, Cut(c.policy.outbound[j]).value.0).value;
    TunnelAddrsDiffer(lib, c, q, q);
    assert lib.parseAddr(q.tunnelIP) == Some(dst);
  }

  /** What is refused to a listed machine is not listed; to any other address everything is refused. */
  lemma OutboundReason(lib: Lib, c: Config, r: Rules, dst: Addr, port: nat)
    requires GoodPeers(lib, c.self, c.peers) && lib.OneSpelling() && New(lib, c) == Ok(r)
    ensures forall p :: p in c.peers && lib.parseAddr(p.tunnelIP) == Some(dst) ==>
              && (!r.Outbound(dst, port).Allow? ==> r.Outbound(dst, port) == Deny(NotListed(p.peerID, port)))
              && (!r.OutboundICMP(dst).Allow? ==> r.OutboundICMP(dst) == Deny(NoListedService(p.peerID)))
    ensures (forall p :: p in c.peers ==> lib.parseAddr(p.tunnelIP) != Some(dst)) ==>
              r.Outbound(dst, port) == r.OutboundICMP(dst) == Deny(Reason.UnknownPeer(dst))
  {
    hide GoodPeers, New;
    forall p | p in c.peers && lib.parseAddr(p.tunnelIP) == Some(dst)
      ensures dst in r.peerByIP && r.peerByIP[dst] == p.peerID
    {
      PeerByIPOf(lib, c, r, p);
    }
    if dst in r.peerByIP {
      var p := PeerByIPListed(lib, c, r, dst);
      TunnelAddrsDiffer(lib, c, p, p);
    }
    if (dst, port) in r.outbound { TargetIsListed(lib, c, r, dst, port); }
    if dst in r.outboundPeers {
      CompiledIsWellIndexed(lib, c, r);
      var other: nat :| (dst, other) in r.outbound;
      TargetIsListed(lib, c, r, dst, other);
    }
  }
}
