/**
 * internal/wgdev/filter.go and stillAllowed of internal/wgdev/device.go: what happens to one packet, and
 * to the memory of connections when the rules are replaced.
 */
module Filtering {
  import opened Net
  import opened Packet
  import opened Policy
  import opened Flow

  /**
   * What the filter sees: a packet from the tunnel or from an application, or new rules. obs is where wg
   * last observed the sender, or the sender at each tunnel address.
   */
  datatype Input =
    | In(p: Packet, obs: Addr, now: int)
    | Out(p: Packet, now: int)
    | Reload(rules: Rules, observe: Addr -> Addr, now: int)

  datatype State = State(rules: Rules, flows: Table, conns: Table)

  /** What the rules alone say about a packet. The observed source is looked up only where a rule asks for it. */
  function JudgeIn(r: Rules, p: Packet, obs: Addr, now: int): Decision {
    if p.HasPorts() then r.Inbound(p.src, p.dstPort, if r.NeedsSource(p.dstPort) then obs else NoAddr, now)
    else r.InboundICMP(p.src, if r.needSourceICMP then obs else NoAddr, now)
  }

  function JudgeOut(r: Rules, p: Packet): Decision {
    if p.HasPorts() then r.Outbound(p.dst, p.dstPort) else r.OutboundICMP(p.dst)
  }

  function Judge(r: Rules, i: Input): Decision
    requires !i.Reload?
  {
    match i case In(p, obs, now) => JudgeIn(r, p, obs, now) case Out(p, _) => JudgeOut(r, p)
  }

  /** Not looking the source up where no rule asks for it changes no decision. */
  lemma JudgedBySource(r: Rules, p: Packet, obs: Addr, now: int)
    requires r.WellIndexed()
    ensures JudgeIn(r, p, obs, now) ==
            if p.HasPorts() then r.Inbound(p.src, p.dstPort, obs, now) else r.InboundICMP(p.src, obs, now)
  {
    if p.HasPorts() && !r.NeedsSource(p.dstPort) { SourceNotNeeded(r, p.src, p.dstPort, obs, NoAddr, now); }
    if !p.HasPorts() && !r.needSourceICMP { SourceNotNeededICMP(r, p.src, obs, NoAddr, now); }
  }

  /** A connection as the packet that opened it. */
  function Opener(k: FlowKey): Packet { Packet(k.src, k.dst, k.proto, k.sport, k.dport) }

  /** Whether rules would let the packet open its connection; its source decides which way it goes. */
  predicate StillLets(r: Rules, observe: Addr -> Addr, now: int, p: Packet) {
    if p.src in r.peerByIP then JudgeIn(r, p, observe(p.src), now).Allow?
    else p.dst in r.peerByIP && JudgeOut(r, p).Allow?
  }

  /** Whether the new rules would let a remembered connection through. */
  function StillAllowed(r: Rules, observe: Addr -> Addr, now: int): FlowKey -> bool {
    (k: FlowKey) => StillLets(r, observe, now, Opener(k))
  }

  /** The call an input makes on the memory of connections let through. */
  function ConnEvent(s: State, i: Input): Event {
    if i.Reload? then Event.Forget(StillAllowed(i.rules, i.observe, i.now))
    else if !Judge(s.rules, i).Allow? then Event.IsReply(KeyOf(i.p), i.now)
    else if !Live(LOG, s.flows, KeyOf(i.p), i.now) then Event.Allow(KeyOf(i.p), i.now)
    else Idle
  }

  /** Whether the packet passes: the rules allow it, or it answers a connection that was let through. */
  predicate Passes(s: State, i: Input)
    requires !i.Reload?
  {
    Judge(s.rules, i).Allow? || Answers(CONNS, s.conns, KeyOf(i.p), i.now)
  }

  /** The call an input makes on the memory that logs each connection once. */
  function FlowEvent(s: State, i: Input): Event {
    if i.Reload? || (!Judge(s.rules, i).Allow? && Passes(s, i)) then Idle else Event.First(KeyOf(i.p), i.now)
  }

  /** One input, with the entries that were thrown out of either memory for want of room. */
  datatype Move = Move(i: Input, evFlows: set<FlowKey>, evConns: set<FlowKey>)

  function After(s: State, m: Move): State {
    State(if m.i.Reload? then m.i.rules else s.rules,
          Next(LOG, s.flows, FlowEvent(s, m.i), m.evFlows),
          Next(CONNS, s.conns, ConnEvent(s, m.i), m.evConns))
  }

  predicate LegalMove(s: State, m: Move) {
    && EvictOk(LOG, s.flows, FlowEvent(s, m.i), m.evFlows)
    && EvictOk(CONNS, s.conns, ConnEvent(s, m.i), m.evConns)
  }

  /**
   * An allowed packet is remembered as an opener exactly when the log memory does not hold its connection;
   * a packet that follows within the log's two minutes neither makes the entry nor restarts its clock.
   */
  lemma RememberedOnlyWhenFirst(s: State, m: Move)
    requires !m.i.Reload? && LegalMove(s, m) && Judge(s.rules, m.i).Allow?
    ensures var k := KeyOf(m.i.p);
            if Live(LOG, s.flows, k, m.i.now) then After(s, m).conns == s.conns
            else k in After(s, m).conns && After(s, m).conns[k] == FlowState(m.i.now, true)
  {
  }

  /**
   * When a reply to an allowed packet passes although the rules refuse it, within the connection's lifetime:
   * exactly when the log memory did not hold the connection, or an entry from before still answers for it.
   */
  lemma ReplyToAllowed(s: State, m: Move, reply: Input)
    requires !m.i.Reload? && LegalMove(s, m) && Judge(s.rules, m.i).Allow?
    requires !reply.Reload? && AnswersTo(reply.p, m.i.p) && !Judge(s.rules, reply).Allow?
    requires reply.now - m.i.now < (if m.i.p.proto == 6 then 3600 else if m.i.p.proto == 17 then 180 else 60) * SECOND
    ensures Passes(After(s, m), reply) <==>
            !Live(LOG, s.flows, KeyOf(m.i.p), m.i.now) || Answers(CONNS, s.conns, KeyOf(reply.p), reply.now)
  {
    assert KeyOf(reply.p).Reverse() == KeyOf(m.i.p);
  }

  /**
   * With no refusal and no reload: from empty memories a ping at 0 s is answered at 1 s; the next one, at
   * 90 s, goes out too, but its answer at 91 s is refused. The log memory held the connection for two
   * minutes, so the second ping made no entry, and the first one's had aged after one.
   */
  lemma SecondPingUnanswered(r: Rules, ping: Packet, echo: Packet, obs: Addr)
    requires !ping.HasPorts() && AnswersTo(echo, ping) && echo != ping
    requires JudgeOut(r, ping).Allow?
    requires !JudgeIn(r, echo, obs, SECOND).Allow? && !JudgeIn(r, echo, obs, 91 * SECOND).Allow?
    ensures var s1 := After(State(r, map[], map[]), Move(Out(ping, 0), {}, {}));
            var s2 := After(s1, Move(In(echo, obs, SECOND), {}, {}));
            var s3 := After(s2, Move(Out(ping, 90 * SECOND), {}, {}));
            && Passes(s1, In(echo, obs, SECOND)) && Passes(s2, Out(ping, 90 * SECOND))
            && !Passes(s3, In(echo, obs, 91 * SECOND))
  {
    var k := KeyOf(ping);
    var s0 := State(r, map[], map[]);
    var s1 := After(s0, Move(Out(ping, 0), {}, {}));
    var s2 := After(s1, Move(In(echo, obs, SECOND), {}, {}));
    var s3 := After(s2, Move(Out(ping, 90 * SECOND), {}, {}));
    assert KeyOf(echo).Reverse() == k && CONNS.TtlOf(k) == 60 * SECOND;
    assert s1.conns[k] == FlowState(0, true) && s1.flows[k].at == 0;
    assert s2.conns[k] == FlowState(SECOND, true) && s2.flows == s1.flows;
    assert s3.conns == s2.conns;
  }

  /**
   * So a connection refused first and allowed by a reload less than two minutes later passes forward, while
   * its reply is refused unless the rules allow the reply itself.
   */
  lemma AllowedButNotRemembered(s: State, refused: Move, reload: Move, again: Move, reply: Input)
    requires LegalMove(s, refused) && LegalMove(After(s, refused), reload)
    requires LegalMove(After(After(s, refused), reload), again)
    requires !refused.i.Reload? && !Passes(s, refused.i)
    requires reload.i.Reload? && !again.i.Reload? && again.i.p == refused.i.p
    requires again.i.now - refused.i.now < LOG.ttl && Judge(reload.i.rules, again.i).Allow?
    requires KeyOf(refused.i.p) !in s.conns
    requires !reply.Reload? && AnswersTo(reply.p, again.i.p) && !Judge(reload.i.rules, reply).Allow?
    ensures Passes(After(After(s, refused), reload), again.i)
    ensures !Passes(After(After(After(s, refused), reload), again), reply)
  {
    var k := KeyOf(refused.i.p);
    var s1 := After(s, refused);
    var s2 := After(s1, reload);
    var s3 := After(s2, again);
    assert s1.flows[k].at == refused.i.now;
    assert s2.flows == s1.flows && k !in s1.conns && k !in s2.conns;
    assert s3.conns == s2.conns;
    assert KeyOf(reply.p).Reverse() == k;
  }

  /**
   * The tunnel address of this machine is in the index too, so a reload keeps a connection this machine
   * opened exactly when the inbound rules would admit this machine as a sender on that port; what the
   * outbound rules say does not matter.
   */
  lemma OwnConnectionsJudgedInbound(r: Rules, observe: Addr -> Addr, now: int, k: FlowKey)
    requires r.WellIndexed() && k.src in r.peerByIP
    ensures StillAllowed(r, observe, now)(k) <==>
            var rules := if Opener(k).HasPorts() then (if k.dport in r.inbound then r.inbound[k.dport] else []) else r.allInbound;
            AnyAllows(rules, r.peerByIP[k.src], observe(k.src), now)
  {
    JudgedBySource(r, Opener(k), observe(k.src), now);
  }

  /**
   * A reload that fails after the device and goes back leaves the rules as they were, but of the connections
   * let through only those that both sets of rules would let through; it adds none.
   */
  lemma FailedReloadForgets(s: State, there: Move, back: Move, k: FlowKey)
    requires there.i.Reload? && back.i.Reload? && back.i.rules == s.rules
    requires LegalMove(s, there) && LegalMove(After(s, there), back)
    ensures var t := After(After(s, there), back);
            && t.rules == s.rules && t.flows == s.flows
            && (k in t.conns ==> k in s.conns && t.conns[k] == s.conns[k])
            && (k in s.conns && s.conns[k].allowed ==>
                  (k in t.conns <==> StillAllowed(there.i.rules, there.i.observe, there.i.now)(k)
                                     && StillAllowed(s.rules, back.i.observe, back.i.now)(k)))
  {
  }
}
