/**
 * Which packets pass, over whole runs of packets and reloads: the ones the rules in force allow, and the
 * replies to connections that were allowed when they opened and have been kept ever since.
 */
module FilterHistory {
  import opened Policy
  import opened Packet
  import opened Flow
  import opened FlowHistory
  import opened Filtering

  /** The state after a run that began with these rules and empty memories. */
  function Run(r0: Rules, h: seq<Move>): State {
    if h == [] then State(r0, map[], map[]) else
    var n := |h| - 1;
    After(Run(r0, h[..n]), h[n])
  }

  predicate LegalRun(r0: Rules, h: seq<Move>) {
    h == [] ||
    var n := |h| - 1;
    LegalRun(r0, h[..n]) && LegalMove(Run(r0, h[..n]), h[n])
  }

  /** The clock never goes back, and is not past t. */
  predicate RunsForward(h: seq<Move>, t: int) {
    h == [] ||
    var n := |h| - 1;
    h[n].i.now <= t && RunsForward(h[..n], h[n].i.now)
  }

  /** The rules in force: those of the last reload. */
  function InForce(r0: Rules, h: seq<Move>): Rules {
    if h == [] then r0 else
    var n := |h| - 1;
    if h[n].i.Reload? then h[n].i.rules else InForce(r0, h[..n])
  }

  /** The calls a run makes on the memory of connections let through. */
  function ConnCalls(r0: Rules, h: seq<Move>): (calls: seq<Call>)
    ensures |calls| == |h|
  {
    if h == [] then [] else
    var n := |h| - 1;
    ConnCalls(r0, h[..n]) + [Call(ConnEvent(Run(r0, h[..n]), h[n].i), h[n].evConns)]
  }

  lemma {:induction false} ConnCallsPrefix(r0: Rules, h: seq<Move>, j: nat)
    requires j <= |h|
    ensures ConnCalls(r0, h)[..j] == ConnCalls(r0, h[..j])
  {
    var n := |h| - 1;
    if j == |h| {
      assert h[..j] == h;
    } else {
      ConnCallsPrefix(r0, h[..n], j);
      assert h[..n][..j] == h[..j];
      assert ConnCalls(r0, h)[..j] == ConnCalls(r0, h[..n])[..j];
    }
  }

  lemma ConnCallAt(r0: Rules, h: seq<Move>, j: nat)
    requires j < |h|
    ensures ConnCalls(r0, h)[j] == Call(ConnEvent(Run(r0, h[..j]), h[j].i), h[j].evConns)
    ensures ConnCalls(r0, h)[..j] == ConnCalls(r0, h[..j])
  {
    ConnCallsPrefix(r0, h, j);
    ConnCallsPrefix(r0, h, j + 1);
    assert h[..j + 1][..j] == h[..j];
    assert ConnCalls(r0, h)[j] == ConnCalls(r0, h)[..j + 1][j];
  }

  /** The memory a run leaves is what those calls leave. */
  lemma {:induction false} ConnCallsReplay(r0: Rules, h: seq<Move>)
    requires LegalRun(r0, h)
    ensures Replay(CONNS, ConnCalls(r0, h)) == Run(r0, h).conns
    ensures Legal(CONNS, ConnCalls(r0, h))
  {
    if h != [] {
      var n := |h| - 1;
      ConnCallsReplay(r0, h[..n]);
      assert ConnCalls(r0, h)[..n] == ConnCalls(r0, h[..n]);
    }
  }

  lemma {:induction false} ConnCallsMonotone(r0: Rules, h: seq<Move>, t: int)
    requires RunsForward(h, t)
    ensures Monotone(ConnCalls(r0, h), t)
  {
    if h != [] {
      var n := |h| - 1;
      ConnCallsMonotone(r0, h[..n], h[n].i.now);
      var c := Call(ConnEvent(Run(r0, h[..n]), h[n].i), h[n].evConns);
      MonotoneSnoc(ConnCalls(r0, h[..n]), c, h[n].i.now, t);
    }
  }

  lemma {:induction false} RunRules(r0: Rules, h: seq<Move>)
    ensures Run(r0, h).rules == InForce(r0, h)
  {
    if h != [] { RunRules(r0, h[..|h| - 1]); }
  }

  /**
   * Packet i answers the packet of move j, which was let through and remembered, has been touched in time
   * ever since, and was neither forgotten nor evicted.
   */
  ghost predicate RepliesToMove(r0: Rules, h: seq<Move>, j: nat, i: Input)
    requires !i.Reload?
  {
    && j < |h| && !h[j].i.Reload? && AnswersTo(i.p, h[j].i.p)
    && OpenSince(CONNS, ConnCalls(r0, h), j, KeyOf(h[j].i.p)) && Fresh(CONNS, ConnCalls(r0, h), KeyOf(h[j].i.p), i.now)
  }

  ghost predicate RepliesTo(r0: Rules, h: seq<Move>, i: Input)
    requires !i.Reload?
  {
    exists j: nat :: RepliesToMove(r0, h, j, i)
  }

  /** An open connection was opened by a packet of its own. */
  lemma OpenedByMove(r0: Rules, h: seq<Move>, j: nat, key: FlowKey)
    requires OpenSince(CONNS, ConnCalls(r0, h), j, key)
    ensures !h[j].i.Reload? && KeyOf(h[j].i.p) == key && Judge(InForce(r0, h[..j]), h[j].i).Allow?
  {
    ConnCallAt(r0, h, j);
    RunRules(r0, h[..j]);
  }

  /** A packet passes exactly when the rules in force allow it, or it replies to one that was let through and kept. */
  lemma PassMeaning(r0: Rules, h: seq<Move>, i: Input)
    requires LegalRun(r0, h) && !i.Reload? && RunsForward(h, i.now)
    ensures Passes(Run(r0, h), i) <==> Judge(InForce(r0, h), i).Allow? || RepliesTo(r0, h, i)
  {
    RunRules(r0, h);
    ConnCallsReplay(r0, h);
    ConnCallsMonotone(r0, h, i.now);
    var calls, k := ConnCalls(r0, h), KeyOf(i.p);
    ReplyMeaning(CONNS, calls, k, i.now);
    var o := FlowKey(k.dst, k.src, k.dport, k.sport, k.proto);
    if j: nat :| OpenSince(CONNS, calls, j, o) {
      OpenedByMove(r0, h, j, o);
      OppositeMeaning(i.p, h[j].i.p);
      if Fresh(CONNS, calls, o, i.now) { assert RepliesToMove(r0, h, j, i); }
    }
    if j: nat :| RepliesToMove(r0, h, j, i) { OppositeMeaning(i.p, h[j].i.p); }
  }

  /** Move j is this packet, and the rules then in force allowed it. */
  predicate AllowedAt(r0: Rules, h: seq<Move>, j: nat, o: Packet) {
    j < |h| && !h[j].i.Reload? && h[j].i.p == o && Judge(InForce(r0, h[..j]), h[j].i).Allow?
  }

  /** Every reload after move j would still have let the packet open its connection. */
  predicate KeptByReloads(h: seq<Move>, j: nat, o: Packet) {
    forall m :: j < m < |h| && h[m].i.Reload? ==> StillLets(h[m].i.rules, h[m].i.observe, h[m].i.now, o)
  }

  lemma OpenedByAllowedPacket(r0: Rules, h: seq<Move>, j: nat, o: Packet)
    requires OpenSince(CONNS, ConnCalls(r0, h), j, KeyOf(o))
    ensures AllowedAt(r0, h, j, o) && KeptByReloads(h, j, o)
  {
    OpenedByMove(r0, h, j, KeyOf(o));
    OppositeMeaning(h[j].i.p, o);
    forall m | j < m < |h| && h[m].i.Reload?
      ensures StillLets(h[m].i.rules, h[m].i.observe, h[m].i.now, o)
    {
      ConnCallAt(r0, h, m);
      assert Keeps(CONNS, ConnCalls(r0, h), m, KeyOf(o));
      assert Opener(KeyOf(o)) == o;
    }
  }

  /**
   * Safety over every run: a packet that passes although the rules in force refuse it goes the opposite way
   * of a packet that was allowed by the rules in force when it came, between the same addresses and ports and
   * of the same protocol, whose connection every reload since has kept.
   */
  lemma PassedIsAccountedFor(r0: Rules, h: seq<Move>, i: Input) returns (j: nat)
    requires LegalRun(r0, h) && !i.Reload? && RunsForward(h, i.now)
    requires Passes(Run(r0, h), i) && !Judge(InForce(r0, h), i).Allow?
    ensures j < |h| && !h[j].i.Reload? && Judge(InForce(r0, h[..j]), h[j].i).Allow? && KeptByReloads(h, j, h[j].i.p)
    ensures var p := h[j].i.p;
            && i.p.src == p.dst && i.p.dst == p.src && i.p.proto == p.proto
            && i.p.srcPort == p.dstPort && i.p.dstPort == p.srcPort
  {
    PassMeaning(r0, h, i);
    var o: nat :| RepliesToMove(r0, h, o, i);
    OpenedByAllowedPacket(r0, h, o, h[o].i.p);
    j := o;
  }

  lemma OneAnswered(i: Packet, p: Packet, o: Packet)
    requires AnswersTo(i, p) && AnswersTo(i, o)
    ensures p == o
  {
  }

  /** A reply that passes against the rules has its opener allowed and kept. */
  lemma OpenerIsKept(r0: Rules, h: seq<Move>, i: Input, o: Packet) returns (j: nat)
    requires LegalRun(r0, h) && !i.Reload? && RunsForward(h, i.now) && AnswersTo(i.p, o)
    requires Passes(Run(r0, h), i) && !Judge(InForce(r0, h), i).Allow?
    ensures AllowedAt(r0, h, j, o) && KeptByReloads(h, j, o)
  {
    j := PassedIsAccountedFor(r0, h, i);
    OneAnswered(i.p, h[j].i.p, o);
  }

  /**
   * Revocation: once a reload's rules would no longer let the packet o open its connection, its replies do
   * not pass, unless the rules in force allow them or o opens the connection again after that reload.
   */
  lemma RevokedRepliesStop(r0: Rules, h: seq<Move>, m: nat, i: Input, o: Packet)
    requires LegalRun(r0, h) && !i.Reload? && RunsForward(h, i.now) && AnswersTo(i.p, o)
    requires m < |h| && h[m].i.Reload? && !StillLets(h[m].i.rules, h[m].i.observe, h[m].i.now, o)
    requires forall j :: m < j < |h| ==> !AllowedAt(r0, h, j, o)
    requires !Judge(InForce(r0, h), i).Allow?
    ensures !Passes(Run(r0, h), i)
  {
    if Passes(Run(r0, h), i) { var j := OpenerIsKept(r0, h, i, o); }
  }

  lemma {:induction false} ClockAt(h: seq<Move>, t: int, m: nat)
    requires RunsForward(h, t) && m < |h|
    ensures h[m].i.now <= t && RunsForward(h[..m], h[m].i.now)
  {
    var n := |h| - 1;
    if m < n {
      ClockAt(h[..n], h[n].i.now, m);
      assert h[..n][..m] == h[..m];
    }
  }

  /** The packet o of move j was let through and remembered then, and nothing revoked or evicted it since. */
  predicate OpenedAndKept(r0: Rules, h: seq<Move>, j: nat, o: Packet) {
    && AllowedAt(r0, h, j, o) && !Live(LOG, Run(r0, h[..j]).flows, KeyOf(o), h[j].i.now)
    && KeptByReloads(h, j, o) && forall m :: j < m < |h| ==> KeyOf(o) !in h[m].evConns
  }

  lemma KeptWithinItsTime(r0: Rules, h: seq<Move>, j: nat, o: Packet, t: int, m: nat)
    requires RunsForward(h, t) && OpenedAndKept(r0, h, j, o) && j < m < |h|
    requires t - h[j].i.now < CONNS.TtlOf(KeyOf(o))
    ensures Keeps(CONNS, ConnCalls(r0, h), m, KeyOf(o))
  {
    hide ConnCalls, Run, RunsForward, InForce;
    ConnCallAt(r0, h, m);
    ClockAt(h, t, m);
    RunRules(r0, h[..j]);
    assert h[..m][..j] == h[..j] && Opener(KeyOf(o)) == o;
    ConnCallAt(r0, h[..m], j);
    ConnCallsMonotone(r0, h[..m], h[m].i.now);
    LastTouchIsLater(ConnCalls(r0, h[..m]), h[m].i.now, j, KeyOf(o));
  }

  /**
   * A reply that comes within the lifetime of its connection, counted from the packet that opened it (an hour
   * for TCP, three minutes for UDP, one minute for anything else), passes whatever the rules now say about
   * the reply and whatever else went through in between.
   */
  lemma ReplyInTimePasses(r0: Rules, h: seq<Move>, j: nat, i: Input, o: Packet)
    requires LegalRun(r0, h) && !i.Reload? && RunsForward(h, i.now)
    requires OpenedAndKept(r0, h, j, o) && AnswersTo(i.p, o)
    requires i.now - h[j].i.now < (if o.proto == 6 then 3600 else if o.proto == 17 then 180 else 60) * 1_000_000_000
    ensures Passes(Run(r0, h), i)
  {
    var k, calls := KeyOf(o), ConnCalls(r0, h);
    Lifetimes(k);
    ConnCallAt(r0, h, j);
    RunRules(r0, h[..j]);
    forall m | j < m < |h| ensures Keeps(CONNS, calls, m, k) {
      KeptWithinItsTime(r0, h, j, o, i.now, m);
    }
    assert OpenSince(CONNS, calls, j, k);
    ConnCallsMonotone(r0, h, i.now);
    LastTouchIsLater(calls, i.now, j, k);
    assert RepliesToMove(r0, h, j, i);
    PassMeaning(r0, h, i);
  }

  /**
   * Since move j, traffic on the connection of o has gone one way only: every packet of it, and every one
   * against it, was allowed by the rules, and each of its own found the connection still in the log memory.
   */
  predicate OneWaySince(r0: Rules, h: seq<Move>, j: nat, o: Packet) {
    forall m :: j < m < |h| && !h[m].i.Reload? ==>
      && (h[m].i.p == o ==>
            Judge(Run(r0, h[..m]).rules, h[m].i).Allow? && Live(LOG, Run(r0, h[..m]).flows, KeyOf(o), h[m].i.now))
      && (AnswersTo(h[m].i.p, o) ==> Judge(Run(r0, h[..m]).rules, h[m].i).Allow?)
  }

  lemma OneWayDoesNotTouch(r0: Rules, h: seq<Move>, j: nat, o: Packet, m: nat)
    requires OneWaySince(r0, h, j, o) && j < m < |h|
    ensures !Touches(ConnCalls(r0, h)[m].e, KeyOf(o))
  {
    ConnCallAt(r0, h, m);
    if !h[m].i.Reload? { OppositeMeaning(h[m].i.p, o); }
  }

  lemma {:induction false} UntouchedSince(h: seq<Call>, j: nat, key: FlowKey)
    requires j < |h| && forall m :: j < m < |h| ==> !Touches(h[m].e, key)
    ensures LastTouch(h, key) == LastTouch(h[..j + 1], key)
  {
    var n := |h| - 1;
    if j == n {
      assert h[..j + 1] == h;
    } else {
      assert forall m :: 0 <= m < n ==> h[..n][m] == h[m];
      UntouchedSince(h[..n], j, key);
      assert h[..n][..j + 1] == h[..j + 1];
    }
  }

  /**
   * One-way traffic does not keep a connection open: a lifetime after it began, however much has gone the
   * same way since, the first reply is refused unless the rules allow the reply itself.
   */
  lemma OneWayTrafficAges(r0: Rules, h: seq<Move>, j: nat, i: Input, o: Packet)
    requires LegalRun(r0, h) && !i.Reload? && RunsForward(h, i.now)
    requires j < |h| && OneWaySince(r0, h, j, o) && AnswersTo(i.p, o)
    requires i.now - h[j].i.now >= (if o.proto == 6 then 3600 else if o.proto == 17 then 180 else 60) * 1_000_000_000
    requires !Judge(InForce(r0, h), i).Allow?
    ensures !Passes(Run(r0, h), i)
  {
    var k, calls := KeyOf(o), ConnCalls(r0, h);
    Lifetimes(k);
    forall e: nat | RepliesToMove(r0, h, e, i) ensures h[e].i.p == o { OneAnswered(i.p, h[e].i.p, o); }
    forall m | j < m < |calls| ensures !Touches(calls[m].e, k) { OneWayDoesNotTouch(r0, h, j, o, m); }
    UntouchedSince(calls, j, k);
    ConnCallsPrefix(r0, h, j + 1);
    ClockThrough(h, i.now, j);
    ConnCallsMonotone(r0, h[..j + 1], h[j].i.now);
    if LastTouch(calls, k).Some? { TouchedBefore(calls[..j + 1], k, h[j].i.now); }
    PassMeaning(r0, h, i);
  }

  lemma ClockThrough(h: seq<Move>, t: int, j: nat)
    requires RunsForward(h, t) && j < |h|
    ensures RunsForward(h[..j + 1], h[j].i.now)
  {
    ClockAt(h, t, j);
    assert h[..j + 1][..j] == h[..j];
  }

  lemma {:induction false} RunBounded(r0: Rules, h: seq<Move>)
    requires LegalRun(r0, h)
    ensures |Run(r0, h).flows| <= LOG.max && |Run(r0, h).conns| <= CONNS.max
  {
    if h != [] {
      var n := |h| - 1;
      RunBounded(r0, h[..n]);
      var s := Run(r0, h[..n]);
      NextBounded(LOG, s.flows, FlowEvent(s, h[n].i), h[n].evFlows);
      NextBounded(CONNS, s.conns, ConnEvent(s, h[n].i), h[n].evConns);
    }
  }
}
