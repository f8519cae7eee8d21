/**
 * policy.New of internal/policy/policy.go: compiling the rules, and why the compiled indexes decide
 * what a plain reading of the configuration decides.
 */
module PolicyCompile {
  import opened Basics
  import opened Net
  import opened Configuration
  import opened Policy

  datatype PolicyError =
    | NoSelf | BadSelfIP | BadPeerIP(id: string)
    | NoSuchService(app: string) | UnreadableRange(text: string) | UnreadableExpiry(text: string)
    | NotATarget(text: string) | NoTargetService(text: string)

  // ---------- The specification ----------

  /** peerByIP: whose each tunnel IP is, this machine's included. */
  function PeerIndex(lib: Lib, peers: seq<Peer>, i: nat, acc: map<Addr, string>): Result<map<Addr, string>, PolicyError>
    requires i <= |peers|
    decreases |peers| - i
  {
    if i == |peers| then Ok(acc) else
    match lib.parseAddr(peers[i].tunnelIP)
    case None => Err(BadPeerIP(peers[i].peerID))
    case Some(ip) => PeerIndex(lib, peers, i + 1, acc[ip := peers[i].peerID])
  }

  function ServicePorts(services: seq<Service>): map<string, nat> {
    if services == [] then map[] else
    var n := |services| - 1;
    ServicePorts(services[..n])[services[n].app := services[n].port % 0x1_0000]
  }

  /** portOf: peer-id to app to port. */
  function PortTable(peers: seq<Peer>): map<string, map<string, nat>> {
    if peers == [] then map[] else
    var n := |peers| - 1;
    PortTable(peers[..n])[peers[n].peerID := ServicePorts(peers[n].services)]
  }

  function PortOf(peers: seq<Peer>, id: string, app: string): Option<nat> {
    var t := PortTable(peers);
    if id in t && app in t[id] then Some(t[id][app]) else None
  }

  function Ranges(lib: Lib, texts: seq<string>, i: nat, acc: seq<Prefix>): Result<seq<Prefix>, PolicyError>
    requires i <= |texts|
    decreases |texts| - i
  {
    if i == |texts| then Ok(acc) else
    match lib.parsePrefix(texts[i])
    case None => Err(UnreadableRange(texts[i]))
    case Some(p) => Ranges(lib, texts, i + 1, acc + [p.Masked()])
  }

  /** An inbound rule compiled, with the port it is for. */
  datatype Entry = Entry(port: nat, rule: Rule)

  function CompileRule(lib: Lib, c: Config, u: Inbound): Result<Entry, PolicyError> {
    match PortOf(c.peers, c.self.peerID, u.app)
    case None => Err(NoSuchService(u.app))
    case Some(port) =>
      match Ranges(lib, u.allowCIDR, 0, [])
      case Err(e) => Err(e)
      case Ok(cidrs) =>
        var rule := Rule(u.app, (set id | id in u.allow), cidrs, 0);
        if u.expires == "" then Ok(Entry(port, rule)) else
        match lib.parseDate(u.expires)
        case None => Err(UnreadableExpiry(u.expires))
        case Some(t) => Ok(Entry(port, rule.(expires := t)))
  }

  function CompileRules(lib: Lib, c: Config, i: nat, acc: seq<Entry>): Result<seq<Entry>, PolicyError>
    requires i <= |c.policy.inbound|
    decreases |c.policy.inbound| - i
  {
    if i == |c.policy.inbound| then Ok(acc) else
    match CompileRule(lib, c, c.policy.inbound[i])
    case Err(e) => Err(e)
    case Ok(entry) => CompileRules(lib, c, i + 1, acc + [entry])
  }

  function CompileTarget(lib: Lib, c: Config, text: string): Result<(Addr, nat), PolicyError> {
    match Cut(text)
    case None => Err(NotATarget(text))
    case Some((id, app)) =>
      match PortOf(c.peers, id, app)
      case None => Err(NoTargetService(text))
      case Some(port) =>
        match Find(c.peers, id)
        case None => Err(NoTargetService(text))
        case Some(p) => Ok((match lib.parseAddr(p.tunnelIP) case Some(a) => a case None => NoAddr, port))
  }

  function CompileTargets(lib: Lib, c: Config, i: nat, acc: seq<(Addr, nat)>): Result<seq<(Addr, nat)>, PolicyError>
    requires i <= |c.policy.outbound|
    decreases |c.policy.outbound| - i
  {
    if i == |c.policy.outbound| then Ok(acc) else
    match CompileTarget(lib, c, c.policy.outbound[i])
    case Err(e) => Err(e)
    case Ok(t) => CompileTargets(lib, c, i + 1, acc + [t])
  }

  /** The rules for one port, in the order of the file. */
  function OnPort(entries: seq<Entry>, port: nat): seq<Rule> {
    if entries == [] then [] else
    var e, before := entries[|entries| - 1], OnPort(entries[..|entries| - 1], port);
    if e.port == port then before + [e.rule] else before
  }

  /** The rules by port. */
  function Grouped(entries: seq<Entry>): map<nat, seq<Rule>> {
    if entries == [] then map[] else
    var e, before := entries[|entries| - 1], Grouped(entries[..|entries| - 1]);
    before[e.port := (if e.port in before then before[e.port] else []) + [e.rule]]
  }

  function AllRules(entries: seq<Entry>): seq<Rule> {
    if entries == [] then [] else AllRules(entries[..|entries| - 1]) + [entries[|entries| - 1].rule]
  }

  function Index(byIP: map<Addr, string>, entries: seq<Entry>, targets: seq<(Addr, nat)>): Rules {
    Rules(byIP,
          Grouped(entries), AllRules(entries),
          (set e | e in entries && e.rule.cidrs != [] :: e.port), (exists e :: e in entries && e.rule.cidrs != []),
          (set t | t in targets), (set t | t in targets :: t.0))
  }

  function New(lib: Lib, c: Config): Result<Rules, PolicyError> {
    match Find(c.peers, c.self.peerID)
    case None => Err(NoSelf)
    case Some(self) =>
      if lib.parseAddr(self.tunnelIP).None? then Err(BadSelfIP) else
      match PeerIndex(lib, c.peers, 0, map[])
      case Err(e) => Err(e)
      case Ok(byIP) =>
        match CompileRules(lib, c, 0, [])
        case Err(e) => Err(e)
        case Ok(entries) =>
          match CompileTargets(lib, c, 0, [])
          case Err(e) => Err(e)
          case Ok(targets) => Ok(Index(byIP, entries, targets))
  }

  // ---------- The code ----------

  method ParseRanges(lib: Lib, texts: seq<string>) returns (r: Result<seq<Prefix>, PolicyError>)
    ensures r == Ranges(lib, texts, 0, [])
  {
    var cidrs: seq<Prefix> := [];
    for i := 0 to |texts|
      invariant Ranges(lib, texts, i, cidrs) == Ranges(lib, texts, 0, [])
    {
      var p := lib.parsePrefix(texts[i]);
      if p.None? { return Err(UnreadableRange(texts[i])); }
      cidrs := cidrs + [p.value.Masked()];
    }
    return Ok(cidrs);
  }

  method NewRule(lib: Lib, c: Config, ports: map<string, map<string, nat>>, u: Inbound)
    returns (r: Result<Entry, PolicyError>)
    requires ports == PortTable(c.peers)
    ensures r == CompileRule(lib, c, u)
  {
    if c.self.peerID !in ports || u.app !in ports[c.self.peerID] { return Err(NoSuchService(u.app)); }
    var peers: set<string> := {};
    for i := 0 to |u.allow|
      invariant peers == set id | id in u.allow[..i]
    {
      assert u.allow[..i + 1] == u.allow[..i] + [u.allow[i]];
      peers := peers + {u.allow[i]};
    }
    assert u.allow[..|u.allow|] == u.allow;
    var cidrs := ParseRanges(lib, u.allowCIDR);
    if cidrs.Err? { return Err(cidrs.error); }
    var rule := Rule(u.app, peers, cidrs.value, 0);
    if u.expires != "" {
      var t := lib.parseDate(u.expires);
      if t.None? { return Err(UnreadableExpiry(u.expires)); }
      rule := rule.(expires := t.value);
    }
    return Ok(Entry(ports[c.self.peerID][u.app], rule));
  }

  method IndexPeers(lib: Lib, peers: seq<Peer>)
    returns (r: Result<map<Addr, string>, PolicyError>, ports: map<string, map<string, nat>>)
    ensures r == PeerIndex(lib, peers, 0, map[])
    ensures r.Ok? ==> ports == PortTable(peers)
  {
    var byIP: map<Addr, string> := map[];
    ports := map[];
    for i := 0 to |peers|
      invariant PeerIndex(lib, peers, i, byIP) == PeerIndex(lib, peers, 0, map[])
      invariant ports == PortTable(peers[..i])
    {
      var p := peers[i];
      assert peers[..i + 1][..i] == peers[..i];
      var ip := lib.parseAddr(p.tunnelIP);
      if ip.None? { return Err(BadPeerIP(p.peerID)), ports; }
      byIP := byIP[ip.value := p.peerID];
      var own: map<string, nat> := map[];
      for j := 0 to |p.services|
        invariant own == ServicePorts(p.services[..j])
      {
        assert p.services[..j + 1][..j] == p.services[..j];
        own := own[p.services[j].app := p.services[j].port % 0x1_0000];
      }
      assert p.services[..|p.services|] == p.services;
      ports := ports[p.peerID := own];
    }
    assert peers[..|peers|] == peers;
    return Ok(byIP), ports;
  }

  lemma MembersStep(entries: seq<Entry>, e: Entry)
    ensures forall x :: x in entries + [e] <==> x in entries || x == e
  {
  }

  /** Adding one more entry to the inbound indexes. */
  lemma IndexStep(byIP: map<Addr, string>, entries: seq<Entry>, e: Entry)
    ensures var r, r' := Index(byIP, entries, []), Index(byIP, entries + [e], []);
            && r'.inbound == r.inbound[e.port := (if e.port in r.inbound then r.inbound[e.port] else []) + [e.rule]]
            && r'.allInbound == r.allInbound + [e.rule]
            && r'.needSource == r.needSource + (if e.rule.cidrs != [] then {e.port} else {})
            && (r'.needSourceICMP <==> r.needSourceICMP || e.rule.cidrs != [])
  {
    assert (entries + [e])[..|entries|] == entries;
    MembersStep(entries, e);
  }

  method IndexInbound(lib: Lib, c: Config, ports: map<string, map<string, nat>>, ghost byIP: map<Addr, string>)
    returns (err: Option<PolicyError>, inbound: map<nat, seq<Rule>>, all: seq<Rule>, need: set<nat>, needICMP: bool,
             ghost entries: seq<Entry>)
    requires ports == PortTable(c.peers)
    ensures err.Some? ==> CompileRules(lib, c, 0, []) == Err(err.value)
    ensures err.None? ==> && CompileRules(lib, c, 0, []) == Ok(entries)
                          && var r := Index(byIP, entries, []);
                             inbound == r.inbound && all == r.allInbound && need == r.needSource && needICMP == r.needSourceICMP
  {
    inbound, all, need, needICMP, entries := map[], [], {}, false, [];
    for i := 0 to |c.policy.inbound|
      invariant CompileRules(lib, c, i, entries) == CompileRules(lib, c, 0, [])
      invariant var r := Index(byIP, entries, []);
                inbound == r.inbound && all == r.allInbound && need == r.needSource && needICMP == r.needSourceICMP
    {
      var e := NewRule(lib, c, ports, c.policy.inbound[i]);
      if e.Err? { return Some(e.error), inbound, all, need, needICMP, entries; }
      var port, rule := e.value.port, e.value.rule;
      IndexStep(byIP, entries, e.value);
      inbound := inbound[port := (if port in inbound then inbound[port] else []) + [rule]];
      all := all + [rule];
      if |rule.cidrs| > 0 {
        need := need + {port};
        needICMP := true;
      }
      entries := entries + [e.value];
    }
    err := None;
  }

  method NewTarget(lib: Lib, c: Config, ports: map<string, map<string, nat>>, text: string)
    returns (r: Result<(Addr, nat), PolicyError>)
    requires ports == PortTable(c.peers)
    ensures r == CompileTarget(lib, c, text)
  {
    var parts := Cut(text);
    if parts.None? { return Err(NotATarget(text)); }
    var (id, app) := parts.value;
    if id !in ports || app !in ports[id] { return Err(NoTargetService(text)); }
    var p := Find(c.peers, id);
    if p.None? { return Err(NoTargetService(text)); }
    var ip := lib.parseAddr(p.value.tunnelIP);
    return Ok((if ip.Some? then ip.value else NoAddr, ports[id][app]));
  }

  method IndexTargets(lib: Lib, c: Config, ports: map<string, map<string, nat>>)
    returns (err: Option<PolicyError>, outbound: set<(Addr, nat)>, peers: set<Addr>, ghost targets: seq<(Addr, nat)>)
    requires ports == PortTable(c.peers)
    ensures err.Some? ==> CompileTargets(lib, c, 0, []) == Err(err.value)
    ensures err.None? ==> && CompileTargets(lib, c, 0, []) == Ok(targets)
                          && outbound == (set t | t in targets) && peers == (set t | t in targets :: t.0)
  {
    outbound, peers, targets := {}, {}, [];
    for i := 0 to |c.policy.outbound|
      invariant CompileTargets(lib, c, i, targets) == CompileTargets(lib, c, 0, [])
      invariant outbound == (set t | t in targets) && peers == (set t | t in targets :: t.0)
    {
      var t := NewTarget(lib, c, ports, c.policy.outbound[i]);
      if t.Err? { return Some(t.error), outbound, peers, targets; }
      assert forall x :: x in targets + [t.value] <==> x in targets || x == t.value;
      outbound := outbound + {t.value};
      peers := peers + {t.value.0};
      targets := targets + [t.value];
    }
    err := None;
  }

  /** policy.New. */
  method NewRules(lib: Lib, c: Config) returns (r: Result<Rules, PolicyError>)
    ensures r == New(lib, c)
  {
    var self := Find(c.peers, c.self.peerID);
    if self.None? { return Err(NoSelf); }
    if lib.parseAddr(self.value.tunnelIP).None? { return Err(BadSelfIP); }
    var byIP, ports := IndexPeers(lib, c.peers);
    if byIP.Err? { return Err(byIP.error); }
    var err, inbound, all, need, needICMP, entries := IndexInbound(lib, c, ports, byIP.value);
    if err.Some? { return Err(err.value); }
    var err', outbound, peers, targets := IndexTargets(lib, c, ports);
    if err'.Some? { return Err(err'.value); }
    r := Ok(Rules(byIP.value, inbound, all, need, needICMP, outbound, peers));
  }

  // ---------- What the indexes hold ----------

  /** A group holds the rules for its port in the order of the file, and there is a group exactly where there is a rule. */
  lemma {:induction false} GroupedMeaning(entries: seq<Entry>, port: nat)
    ensures port in Grouped(entries) <==> OnPort(entries, port) != []
    ensures port in Grouped(entries) ==> Grouped(entries)[port] == OnPort(entries, port)
  {
    if entries != [] { GroupedMeaning(entries[..|entries| - 1], port); }
  }

  lemma {:induction false} OnPortMember(entries: seq<Entry>, port: nat, u: Rule)
    ensures u in OnPort(entries, port) <==> Entry(port, u) in entries
  {
    if entries != [] {
      var n := |entries| - 1;
      OnPortMember(entries[..n], port, u);
      assert entries == entries[..n] + [entries[n]];
    }
  }

  lemma {:induction false} AllRulesMember(entries: seq<Entry>, u: Rule)
    ensures u in AllRules(entries) <==> exists port :: Entry(port, u) in entries
  {
    if entries != [] {
      var n := |entries| - 1;
      AllRulesMember(entries[..n], u);
      assert entries == entries[..n] + [entries[n]];
      if u in AllRules(entries) && u !in AllRules(entries[..n]) { assert Entry(entries[n].port, u) in entries; }
    }
  }

  lemma GroupMember(entries: seq<Entry>, port: nat, u: Rule)
    ensures port in Grouped(entries) && u in Grouped(entries)[port] <==> Entry(port, u) in entries
  {
    GroupedMeaning(entries, port);
    OnPortMember(entries, port, u);
  }

  lemma IndexIsWellIndexed(byIP: map<Addr, string>, entries: seq<Entry>, targets: seq<(Addr, nat)>)
    ensures Index(byIP, entries, targets).WellIndexed()
  {
    var r := Index(byIP, entries, targets);
    forall u ensures u in r.allInbound <==> exists port :: port in r.inbound && u in r.inbound[port] {
      AllRulesMember(entries, u);
      forall port: nat { GroupMember(entries, port, u); }
    }
    forall port: nat
      ensures port in r.needSource <==> port in r.inbound && exists u :: u in r.inbound[port] && u.cidrs != []
    {
      forall u { GroupMember(entries, port, u); }
      if port in r.needSource {
        var e :| e in entries && e.rule.cidrs != [] && e.port == port;
        assert Entry(port, e.rule) in entries;
      }
    }
    assert r.needSourceICMP <==> exists u :: u in r.allInbound && u.cidrs != [] by {
      forall u { AllRulesMember(entries, u); }
      if r.needSourceICMP {
        var e :| e in entries && e.rule.cidrs != [];
        assert Entry(e.port, e.rule) in entries;
      }
    }
    forall ip ensures ip in r.outboundPeers <==> exists port: nat :: (ip, port) in r.outbound {
      if ip in r.outboundPeers {
        var t :| t in targets && t.0 == ip;
        assert (ip, t.1) in r.outbound;
      }
    }
  }

  lemma CompiledIsWellIndexed(lib: Lib, c: Config, r: Rules)
    requires New(lib, c) == Ok(r)
    ensures r.WellIndexed()
  {
    hide Rules.WellIndexed, CompileRules, CompileTargets;
    var byIP, entries := PeerIndex(lib, c.peers, 0, map[]).value, CompileRules(lib, c, 0, []).value;
    IndexIsWellIndexed(byIP, entries, CompileTargets(lib, c, 0, []).value);
  }
}
