/**
 * The running program: packets and requests to reload, in any order. What one reload comes to, failures and
 * ways back included, decides by which policy the packets after it are judged.
 */
module Serving {
  import opened Basics
  import opened Bytes
  import opened Net
  import opened Packet
  import opened Configuration
  import opened Filtering
  import opened FilterHistory
  import opened Enforcement
  import opened Transaction
  import Device
  import Filter
  import Policy
  import PolicyMeaning

  /** What happens to the program: a request, or a packet from an application or from the tunnel. */
  datatype Event =
    | Asked(q: Request)
    | Sent(b: seq<byte>, now: int)
    | Arrived(b: seq<byte>, obs: Addr, now: int)
  {
    function Clock(): int { if Asked? then q.now else now }

    function Direction(): (w: Filter.Way)
      requires !Asked?
      ensures w.Outward? <==> Sent?
      ensures w.clock(0) == now
      ensures forall p :: w.At(0, p) == if Sent? then Out(p, now) else In(p, obs, now)
    {
      var t := now;
      if Sent? then Filter.Outward((i: nat) => t) else var o := obs; Filter.Inward((i: nat) => t, (i: nat) => o)
    }
  }

  datatype Answer = Told(out: Outcome) | Judged(passes: bool)

  /** One event with its answer, the files the device took over, and what the filter met. */
  datatype Mark = Mark(e: Event, a: Answer, taken: seq<Config>, moves: seq<Move>)

  /** The configuration a run ends with: that of the last reload that took its files over. */
  function LiveAfter(first: Config, run: seq<Mark>): Config {
    if run == [] then first else
    var n := |run| - 1;
    NextAfter(LiveAfter(first, run[..n]), run[n])
  }

  function NextAfter(live: Config, m: Mark): Config {
    if m.e.Asked? && m.a.Told? then NextLive(live, m.e.q, m.a.out) else live
  }

  function TakenBy(run: seq<Mark>): seq<Config> {
    if run == [] then [] else TakenBy(run[..|run| - 1]) + run[|run| - 1].taken
  }

  function MovesBy(run: seq<Mark>): seq<Move> {
    if run == [] then [] else MovesBy(run[..|run| - 1]) + run[|run| - 1].moves
  }

  /** A packet, with the entries thrown out on its account, in the state h has left. */
  ghost predicate JudgedRight(r0: Policy.Rules, h: seq<Move>, m: Mark)
    requires !m.e.Asked?
  {
    && m.a == Judged(Filter.PassesAs(Run(r0, h), m.e.b, m.e.Direction(), 0))
    && exists ev :: && m.moves == Filter.MoveOf(m.e.b, m.e.Direction(), 0, ev)
                    && Filter.LegalPacket(Run(r0, h), m.e.b, m.e.Direction(), 0, ev)
  }

  /** One event of a run that follows live and has met h: files and steps decide a reload, rules and memory a packet. */
  ghost predicate MarkOk(lib: Lib, r0: Policy.Rules, live: Config, h: seq<Move>, m: Mark) {
    if m.e.Asked? then
      && m.a == Told(OutcomeOf(lib, live, m.e.q)) && m.taken == TakenOver(lib, live, m.e.q)
      && m.moves == Device.TakingAll(lib, m.taken, m.e.q.observe, m.e.q.now)
    else m.taken == [] && JudgedRight(r0, h, m)
  }

  /** A run that began with first in force, the filter having met h before. */
  ghost predicate RanOn(lib: Lib, r0: Policy.Rules, first: Config, h: seq<Move>, run: seq<Mark>) {
    run == [] ||
    var n := |run| - 1;
    RanOn(lib, r0, first, h, run[..n])
    && MarkOk(lib, r0, LiveAfter(first, run[..n]), h + MovesBy(run[..n]), run[n])
  }

  predicate NoneMixed(run: seq<Mark>) { forall i :: 0 <= i < |run| && run[i].a.Told? ==> !run[i].a.out.Mixed() }

  /** The last outcome is mixed, and only that. */
  predicate MixedLast(run: seq<Mark>) {
    run != [] && NoneMixed(run[..|run| - 1]) && var a := run[|run| - 1].a; a.Told? && a.out.Mixed()
  }

  lemma RunSnoc(lib: Lib, r0: Policy.Rules, first: Config, h: seq<Move>, run: seq<Mark>, m: Mark)
    requires RanOn(lib, r0, first, h, run) && MarkOk(lib, r0, LiveAfter(first, run), h + MovesBy(run), m)
    ensures RanOn(lib, r0, first, h, run + [m]) && LiveAfter(first, run + [m]) == NextAfter(LiveAfter(first, run), m)
    ensures TakenBy(run + [m]) == TakenBy(run) + m.taken && MovesBy(run + [m]) == MovesBy(run) + m.moves
  {
    hide MarkOk;
    assert (run + [m])[..|run|] == run;
  }

  lemma MixedSnoc(run: seq<Mark>, m: Mark)
    requires NoneMixed(run)
    ensures if m.a.Told? && m.a.out.Mixed() then MixedLast(run + [m]) else NoneMixed(run + [m])
  {
    assert (run + [m])[..|run|] == run;
  }

  lemma {:induction false} RunPrefix(lib: Lib, r0: Policy.Rules, first: Config, h: seq<Move>, run: seq<Mark>, k: nat)
    requires RanOn(lib, r0, first, h, run) && k < |run|
    ensures RanOn(lib, r0, first, h, run[..k])
    ensures MarkOk(lib, r0, LiveAfter(first, run[..k]), h + MovesBy(run[..k]), run[k])
  {
    hide MarkOk;
    var n := |run| - 1;
    if k < n {
      RunPrefix(lib, r0, first, h, run[..n], k);
      assert run[..n][..k] == run[..k];
    }
  }

  // ---------- What the filter has met ----------

  /** live can be put in force, and the filter, in the state h has left, has the rules of its policy. */
  ghost predicate Follows(lib: Lib, r0: Policy.Rules, live: Config, h: seq<Move>) {
    WgReload.Sane(lib, live) && PolicyCompile.New(lib, live) == Ok(InForce(r0, h)) && LegalRun(r0, h)
  }

  lemma TakingMeaning(lib: Lib, r0: Policy.Rules, h: seq<Move>, c: Config, observe: Addr -> Addr, now: int)
    requires LegalRun(r0, h) && PolicyCompile.New(lib, c).Ok?
    ensures var more := h + Device.Taking(lib, c, observe, now);
            LegalRun(r0, more) && PolicyCompile.New(lib, c) == Ok(InForce(r0, more))
  {
    var rules := PolicyCompile.New(lib, c).value;
    Device.TakingContinuesRun(r0, h, rules, observe, now);
  }

  lemma TakingThere(lib: Lib, c: Config, d: Config, observe: Addr -> Addr, now: int)
    ensures Device.TakingAll(lib, [c], observe, now) == Device.Taking(lib, c, observe, now)
    ensures Device.TakingAll(lib, [c, d], observe, now) ==
            Device.Taking(lib, c, observe, now) + Device.Taking(lib, d, observe, now)
  {
    Device.TakingOneMore(lib, [], c, observe, now);
    Device.TakingOneMore(lib, [c], d, observe, now);
    assert [] + [c] == [c] && [c] + [d] == [c, d];
  }

  lemma ThereFollows(lib: Lib, r0: Policy.Rules, h: seq<Move>, c: Config, observe: Addr -> Addr, now: int)
    requires LegalRun(r0, h) && WgReload.Sane(lib, c) && PolicyCompile.New(lib, c).Ok?
    ensures Follows(lib, r0, c, h + Device.TakingAll(lib, [c], observe, now))
  {
    TakingMeaning(lib, r0, h, c, observe, now);
    TakingThere(lib, c, c, observe, now);
  }

  lemma ThereAndBackFollows(lib: Lib, r0: Policy.Rules, h: seq<Move>, c: Config, d: Config, observe: Addr -> Addr, now: int)
    requires LegalRun(r0, h) && WgReload.Sane(lib, d) && PolicyCompile.New(lib, c).Ok? && PolicyCompile.New(lib, d).Ok?
    ensures Follows(lib, r0, d, h + Device.TakingAll(lib, [c, d], observe, now))
  {
    hide LegalRun, InForce, PolicyCompile.New, WgReload.Sane, Device.Taking, Device.TakingAll;
    var there, back := Device.Taking(lib, c, observe, now), Device.Taking(lib, d, observe, now);
    TakingMeaning(lib, r0, h, c, observe, now);
    TakingMeaning(lib, r0, h + there, d, observe, now);
    TakingThere(lib, c, d, observe, now);
    Filter.ConcatAssociates(h, there, back);
  }

  lemma NoChangeFollows(lib: Lib, r0: Policy.Rules, live: Config, h: seq<Move>, q: Request)
    requires lib.OneSpelling() && Follows(lib, r0, live, h) && Verdict(lib, live, q) == Some(NoChange)
    ensures Follows(lib, r0, q.read.value, h)
  {
    ValidIsSane(lib, q.read.value, q.now);
    Agreement.AgreeingRules(lib, live, q.read.value);
  }

  /** The files taken over by a reload that every step of worked, or whose way back did. */
  lemma WayTaken(lib: Lib, live: Config, q: Request)
    requires Verdict(lib, live, q).None? && !OutcomeOf(lib, live, q).Mixed()
    ensures var cur := q.read.value;
            TakenOver(lib, live, q) == if Succeeds(lib, live, cur, q) then [cur]
                                       else if DeviceStep(lib, live, cur, q.ipcFails) then [cur, live] else [live]
    ensures NextLive(live, q, OutcomeOf(lib, live, q)) == if Succeeds(lib, live, q.read.value, q) then q.read.value else live
    ensures Succeeds(lib, live, q.read.value, q) ==> DeviceStep(lib, live, q.read.value, q.ipcFails)
    ensures DeviceStep(lib, live, q.read.value, q.ipcFails) ==> PolicyCompile.New(lib, q.read.value).Ok?
  {
    var cur := q.read.value;
    hide WgReload.Silent, PolicyCompile.New;
    assert [cur] + [live] == [cur, live];
  }

  lemma WayFollows(lib: Lib, r0: Policy.Rules, live: Config, h: seq<Move>, q: Request)
    requires Follows(lib, r0, live, h) && Verdict(lib, live, q).None? && WgReload.Sane(lib, q.read.value)
    requires !OutcomeOf(lib, live, q).Mixed()
    ensures Follows(lib, r0, NextLive(live, q, OutcomeOf(lib, live, q)),
                    h + Device.TakingAll(lib, TakenOver(lib, live, q), q.observe, q.now))
  {
    WayTaken(lib, live, q);
    assert LegalRun(r0, h) && WgReload.Sane(lib, live) && PolicyCompile.New(lib, live).Ok?;
    var cur := q.read.value;
    hide Follows, Verdict, Succeeds, DeviceStep, TakenOver, OutcomeOf, NextLive, LegalRun, Device.TakingAll;
    hide WgReload.Sane, PolicyCompile.New;
    if Succeeds(lib, live, cur, q) {
      ThereFollows(lib, r0, h, cur, q.observe, q.now);
    } else if DeviceStep(lib, live, cur, q.ipcFails) {
      ThereAndBackFollows(lib, r0, h, cur, live, q.observe, q.now);
    } else {
      ThereFollows(lib, r0, h, live, q.observe, q.now);
    }
  }

  /** After a reload that did not end mixed the filter has the rules of the configuration then live. */
  lemma AskedFollows(lib: Lib, r0: Policy.Rules, live: Config, h: seq<Move>, q: Request)
    requires lib.OneSpelling() && Follows(lib, r0, live, h) && !OutcomeOf(lib, live, q).Mixed()
    ensures Follows(lib, r0, NextLive(live, q, OutcomeOf(lib, live, q)),
                    h + Device.TakingAll(lib, TakenOver(lib, live, q), q.observe, q.now))
  {
    hide Validation.Valid, OwnEntryMoved, Diff.Agree, WgReload.Sane, Follows, StepsBack, Succeeds;
    if Verdict(lib, live, q).None? {
      ValidIsSane(lib, q.read.value, q.now);
      WayFollows(lib, r0, live, h, q);
    } else {
      assert h + [] == h;
      if Verdict(lib, live, q) == Some(NoChange) { NoChangeFollows(lib, r0, live, h, q); }
    }
  }

  /** A packet is no reload, so the rules in force stay. */
  lemma RulesStay(r0: Policy.Rules, h: seq<Move>, b: seq<byte>, w: Filter.Way, ev: Filter.Evicted)
    ensures InForce(r0, h + Filter.MoveOf(b, w, 0, ev)) == InForce(r0, h)
  {
    hide Parse;
    assert h + [] == h;
    if Parse(b).Some? {
      var n := Move(w.At(0, Parse(b).value), ev.flows, ev.conns);
      assert (h + [n])[..|h|] == h && (h + [n])[|h|] == n;
    }
  }

  lemma PacketFollows(lib: Lib, r0: Policy.Rules, live: Config, h: seq<Move>, m: Mark)
    requires Follows(lib, r0, live, h) && !m.e.Asked? && JudgedRight(r0, h, m)
    ensures Follows(lib, r0, live, h + m.moves)
  {
    hide WgReload.Sane, PolicyCompile.New, LegalRun, Run, InForce, Filter.LegalPacket, Filter.AfterPacket, Filter.MoveOf;
    var w := m.e.Direction();
    var ev :| m.moves == Filter.MoveOf(m.e.b, w, 0, ev) && Filter.LegalPacket(Run(r0, h), m.e.b, w, 0, ev);
    Filter.PacketContinuesRun(r0, h, m.e.b, w, 0, ev);
    RulesStay(r0, h, m.e.b, w, ev);
  }

  lemma MarkFollows(lib: Lib, r0: Policy.Rules, live: Config, h: seq<Move>, m: Mark)
    requires lib.OneSpelling() && Follows(lib, r0, live, h) && MarkOk(lib, r0, live, h, m)
    requires m.a.Told? ==> !m.a.out.Mixed()
    ensures Follows(lib, r0, NextAfter(live, m), h + m.moves)
  {
    hide Follows, OutcomeOf, TakenOver, JudgedRight;
    if m.e.Asked? {
      AskedFollows(lib, r0, live, h, m.e.q);
    } else {
      JudgedIsNoReload(r0, h, m);
      PacketFollows(lib, r0, live, h, m);
    }
  }

  lemma JudgedIsNoReload(r0: Policy.Rules, h: seq<Move>, m: Mark)
    requires !m.e.Asked? && JudgedRight(r0, h, m)
    ensures m.a.Judged?
  {
  }

  /** Until a reload ends mixed the filter has the rules of the live policy. */
  lemma {:induction false} LiveIsFollowed(lib: Lib, r0: Policy.Rules, first: Config, h: seq<Move>, run: seq<Mark>)
    requires lib.OneSpelling() && Follows(lib, r0, first, h) && RanOn(lib, r0, first, h, run) && NoneMixed(run)
    ensures Follows(lib, r0, LiveAfter(first, run), h + MovesBy(run))
  {
    hide Follows, MarkOk, NextAfter;
    if run == [] {
      assert h + [] == h;
    } else {
      var n := |run| - 1;
      assert forall i :: 0 <= i < n ==> run[..n][i] == run[i];
      LiveIsFollowed(lib, r0, first, h, run[..n]);
      MarkFollows(lib, r0, LiveAfter(first, run[..n]), h + MovesBy(run[..n]), run[n]);
      Filter.ConcatAssociates(h, MovesBy(run[..n]), run[n].moves);
    }
  }

  // ---------- This machine itself ----------

  /** live is usable, and says of this machine itself what first said. */
  ghost predicate SameMachine(lib: Lib, first: Config, live: Config) {
    WgReload.Sane(lib, live) && SelfKept(first, live) && (live == first || Listed(live))
  }

  lemma MarkKeepsSelf(lib: Lib, r0: Policy.Rules, first: Config, live: Config, h: seq<Move>, m: Mark)
    requires SameMachine(lib, first, live) && MarkOk(lib, r0, live, h, m)
    ensures SameMachine(lib, first, NextAfter(live, m))
  {
    hide OutcomeOf, TakenOver, WgReload.Sane, SelfKept, Listed, JudgedRight;
    if m.e.Asked? {
      var out := OutcomeOf(lib, live, m.e.q);
      if out.Done? || out.NoChange? {
        TakenKeepsSelf(lib, live, m.e.q);
        if live != first { SelfKeptOn(first, live, m.e.q.read.value); }
      }
    }
  }

  lemma KeepsItself(lib: Lib, first: Config)
    requires WgReload.Sane(lib, first)
    ensures SelfKept(first, first)
  {
    forall p, r | p in first.peers && r in first.peers && p.peerID == first.self.peerID && r.peerID == first.self.peerID
      ensures p == r
    {
      Validation.PeersApart(lib, first.self, first.peers, p, r);
    }
  }

  /** Over every run, mixed outcomes included, csa.toml and this machine's own key and tunnel IP stay what they were. */
  lemma {:induction false} SelfStays(lib: Lib, r0: Policy.Rules, first: Config, h: seq<Move>, run: seq<Mark>)
    requires WgReload.Sane(lib, first) && RanOn(lib, r0, first, h, run)
    ensures SameMachine(lib, first, LiveAfter(first, run))
  {
    hide WgReload.Sane, SelfKept, MarkOk, NextAfter, Listed;
    if run == [] {
      KeepsItself(lib, first);
    } else {
      var n := |run| - 1;
      SelfStays(lib, r0, first, h, run[..n]);
      MarkKeepsSelf(lib, r0, first, LiveAfter(first, run[..n]), h + MovesBy(run[..n]), run[n]);
    }
  }

  // ---------- The clock ----------

  /** The clock never goes back from event to event, starts no earlier than start and ends no later than end. */
  predicate Clocked(run: seq<Mark>, start: int, end: int) {
    if run == [] then start <= end else
    var n := |run| - 1;
    run[n].e.Clock() <= end && Clocked(run[..n], start, run[n].e.Clock())
  }

  lemma TakingOnTime(lib: Lib, h: seq<Move>, c: Config, observe: Addr -> Addr, now: int)
    requires RunsForward(h, now)
    ensures RunsForward(h + Device.Taking(lib, c, observe, now), now)
  {
    assert h + [] == h;
    if m: Move :| Device.Taking(lib, c, observe, now) == [m] { assert (h + [m])[..|h|] == h; }
  }

  lemma {:induction false} TakingAllOnTime(lib: Lib, h: seq<Move>, files: seq<Config>, observe: Addr -> Addr, now: int)
    requires RunsForward(h, now)
    ensures RunsForward(h + Device.TakingAll(lib, files, observe, now), now)
  {
    if files == [] {
      assert h + [] == h;
    } else {
      var n := |files| - 1;
      TakingAllOnTime(lib, h, files[..n], observe, now);
      TakingOnTime(lib, h + Device.TakingAll(lib, files[..n], observe, now), files[n], observe, now);
      Filter.ConcatAssociates(h, Device.TakingAll(lib, files[..n], observe, now), Device.Taking(lib, files[n], observe, now));
    }
  }

  lemma MarkOnTime(lib: Lib, r0: Policy.Rules, live: Config, h: seq<Move>, m: Mark, end: int)
    requires MarkOk(lib, r0, live, h, m) && RunsForward(h, m.e.Clock()) && m.e.Clock() <= end
    ensures RunsForward(h + m.moves, end)
  {
    hide OutcomeOf, TakenOver, RunsForward, Run, Filter.LegalPacket, Filter.PassesAs, Filter.MoveOf;
    if m.e.Asked? {
      TakingAllOnTime(lib, h, m.taken, m.e.q.observe, m.e.q.now);
      Filter.RunsForwardLater(h + m.moves, m.e.q.now, end);
    } else {
      var w := m.e.Direction();
      var ev :| m.moves == Filter.MoveOf(m.e.b, w, 0, ev) && Filter.LegalPacket(Run(r0, h), m.e.b, w, 0, ev);
      Filter.MoveRunsForward(h, m.e.b, w, 0, ev, end);
    }
  }

  lemma {:induction false} RunOnTime(lib: Lib, r0: Policy.Rules, first: Config, h: seq<Move>, run: seq<Mark>,
                                     start: int, end: int)
    requires RanOn(lib, r0, first, h, run) && RunsForward(h, start) && Clocked(run, start, end)
    ensures RunsForward(h + MovesBy(run), end)
  {
    hide MarkOk, RunsForward;
    if run == [] {
      assert h + [] == h;
      Filter.RunsForwardLater(h, start, end);
    } else {
      var n := |run| - 1;
      RunOnTime(lib, r0, first, h, run[..n], start, run[n].e.Clock());
      MarkOnTime(lib, r0, LiveAfter(first, run[..n]), h + MovesBy(run[..n]), run[n], end);
      Filter.ConcatAssociates(h, MovesBy(run[..n]), run[n].moves);
    }
  }

  lemma {:induction false} ClockedPrefix(run: seq<Mark>, start: int, end: int, k: nat)
    requires Clocked(run, start, end) && k < |run|
    ensures Clocked(run[..k], start, run[k].e.Clock())
  {
    var n := |run| - 1;
    if k < n {
      ClockedPrefix(run[..n], start, run[n].e.Clock(), k);
      assert run[..n][..k] == run[..k];
    }
  }

  // ---------- The result ----------

  /** The packet of an event that is one, as the filter sees it. */
  function Seen(e: Event, p: Packet): Input
    requires !e.Asked?
  {
    if e.Sent? then Out(p, e.now) else In(p, e.obs, e.now)
  }

  /**
   * Over every run of packets and reloads, those that failed and were taken back included: until one ends
   * mixed, a packet passes exactly when the policy of the files then live lets it through, or it answers a
   * connection that was let through and kept.
   */
  lemma LivePolicyEnforced(lib: Lib, self: Peer, r0: Policy.Rules, first: Config, h: seq<Move>, run: seq<Mark>,
                           start: int, end: int, k: nat, p: Packet)
    requires lib.OneSpelling() && Follows(lib, r0, first, h) && RunsForward(h, start)
    requires RanOn(lib, r0, first, h, run) && Clocked(run, start, end) && k < |run| && NoneMixed(run[..k])
    requires !run[k].e.Asked? && Parse(run[k].e.b) == Some(p)
    requires var live := LiveAfter(first, run[..k]); self in live.peers && self.peerID == live.self.peerID
    ensures var i := Seen(run[k].e, p);
            run[k].a == Judged(PolicySays(lib, LiveAfter(first, run[..k]), self, i)
                               || RepliesTo(r0, h + MovesBy(run[..k]), i))
  {
    hide RanOn, Clocked, RunsForward, LegalRun, Run, PolicySays, RepliesTo, Passes, InForce;
    var live, met := LiveAfter(first, run[..k]), h + MovesBy(run[..k]);
    RunPrefix(lib, r0, first, h, run, k);
    LiveIsFollowed(lib, r0, first, h, run[..k]);
    ClockedPrefix(run, start, end, k);
    RunOnTime(lib, r0, first, h, run[..k], start, run[k].e.Clock());
    PolicyEnforced(lib, live, self, r0, met, Seen(run[k].e, p));
  }

  /** A frame put together from a header, two ports and anything after them. */
  function Frame(header: seq<byte>, sport: u16, dport: u16, rest: seq<byte>): seq<byte> {
    header + [sport / 0x100, sport % 0x100, dport / 0x100, dport % 0x100] + rest
  }

  /** The packet of a frame that is not a later fragment. */
  lemma FrameRead(header: seq<byte>, src: u32, dst: u32, proto: byte, sport: u16, dport: u16, rest: seq<byte>) returns (p: Packet)
    requires 20 <= |header| <= 60 && |header| % 4 == 0 && header[0] == 0x40 + |header| / 4
    requires header[6] % 0x20 == 0 && header[7] == 0 && header[9] == proto
    requires header[12..16] == BigEndian(src) && header[16..20] == BigEndian(dst)
    ensures Parse(Frame(header, sport, dport, rest)) == Some(p) && p.src == V4(src) && p.dst == V4(dst) && p.proto == proto
    ensures proto == 6 || proto == 17 ==> p.srcPort == sport && p.dstPort == dport
  {
    ParseReadsFrame(header, src, dst, proto, sport, dport, rest);
    p := Parse(Frame(header, sport, dport, rest)).value;
  }

  /**
   * From octets to the verdict: in every such run a frame from the tunnel passes exactly when the machine whose
   * tunnel IP is its source meets every condition of some entry live then for a service of this machine on its
   * destination port, or it answers a connection that was let through and kept.
   */
  lemma ArrivedFrameJudged(lib: Lib, self: Peer, r0: Policy.Rules, first: Config, h: seq<Move>, run: seq<Mark>,
                           start: int, end: int, k: nat, header: seq<byte>, src: u32, dst: u32, proto: byte,
                           sport: u16, dport: u16, rest: seq<byte>, obs: Addr, now: int) returns (i: Input)
    requires lib.OneSpelling() && Follows(lib, r0, first, h) && RunsForward(h, start)
    requires RanOn(lib, r0, first, h, run) && Clocked(run, start, end) && k < |run| && NoneMixed(run[..k])
    requires var live := LiveAfter(first, run[..k]); self in live.peers && self.peerID == live.self.peerID
    requires 20 <= |header| <= 60 && |header| % 4 == 0 && header[0] == 0x40 + |header| / 4
    requires header[6] % 0x20 == 0 && header[7] == 0 && header[9] == proto
    requires header[12..16] == BigEndian(src) && header[16..20] == BigEndian(dst)
    requires run[k].e == Arrived(Frame(header, sport, dport, rest), obs, now)
    ensures i.In? && i.obs == obs && i.now == now && i.p.src == V4(src) && i.p.dst == V4(dst) && i.p.proto == proto
    ensures proto == 6 || proto == 17 ==> i.p.srcPort == sport && i.p.dstPort == dport
    ensures var live := LiveAfter(first, run[..k]);
            run[k].a == Judged(
              || RepliesTo(r0, h + MovesBy(run[..k]), i)
              || exists port: nat, q, u ::
                   && (proto == 6 || proto == 17 ==> port == dport)
                   && q in live.peers && lib.parseAddr(q.tunnelIP) == Some(V4(src))
                   && u in live.policy.inbound && Service(u.app, port) in self.services
                   && PolicyMeaning.Met(lib, u, q.peerID, obs, now))
  {
    hide RanOn, Clocked, RunsForward, Run, PolicySays, RepliesTo, Parse, PolicyMeaning.Met, LiveAfter, MovesBy, NoneMixed;
    var p := FrameRead(header, src, dst, proto, sport, dport, rest);
    i := In(p, obs, now);
    LivePolicyEnforced(lib, self, r0, first, h, run, start, end, k, p);
    LiveHasGoodPeers(lib, r0, first, h, run, k);
    PolicySaysMeaning(lib, LiveAfter(first, run[..k]), self, i);
  }

  /**
   * And a frame from an application exactly when some outbound entry live then names a service that the machine
   * whose tunnel IP is its destination offers on its destination port, or it is such an answer.
   */
  lemma SentFrameJudged(lib: Lib, self: Peer, r0: Policy.Rules, first: Config, h: seq<Move>, run: seq<Mark>,
                        start: int, end: int, k: nat, header: seq<byte>, src: u32, dst: u32, proto: byte,
                        sport: u16, dport: u16, rest: seq<byte>, now: int) returns (i: Input)
    requires lib.OneSpelling() && Follows(lib, r0, first, h) && RunsForward(h, start)
    requires RanOn(lib, r0, first, h, run) && Clocked(run, start, end) && k < |run| && NoneMixed(run[..k])
    requires var live := LiveAfter(first, run[..k]); self in live.peers && self.peerID == live.self.peerID
    requires 20 <= |header| <= 60 && |header| % 4 == 0 && header[0] == 0x40 + |header| / 4
    requires header[6] % 0x20 == 0 && header[7] == 0 && header[9] == proto
    requires header[12..16] == BigEndian(src) && header[16..20] == BigEndian(dst)
    requires run[k].e == Sent(Frame(header, sport, dport, rest), now)
    ensures i.Out? && i.now == now && i.p.src == V4(src) && i.p.dst == V4(dst) && i.p.proto == proto
    ensures proto == 6 || proto == 17 ==> i.p.srcPort == sport && i.p.dstPort == dport
    ensures var live := LiveAfter(first, run[..k]);
            run[k].a == Judged(
              || RepliesTo(r0, h + MovesBy(run[..k]), i)
              || exists port: nat, q, app ::
                   && (proto == 6 || proto == 17 ==> port == dport)
                   && q in live.peers && lib.parseAddr(q.tunnelIP) == Some(V4(dst))
                   && q.peerID + "/" + app in live.policy.outbound && Service(app, port) in q.services)
  {
    hide RanOn, Clocked, RunsForward, Run, PolicySays, RepliesTo, Parse, LiveAfter, MovesBy, NoneMixed;
    var p := FrameRead(header, src, dst, proto, sport, dport, rest);
    i := Out(p, now);
    LivePolicyEnforced(lib, self, r0, first, h, run, start, end, k, p);
    LiveHasGoodPeers(lib, r0, first, h, run, k);
    PolicySaysMeaning(lib, LiveAfter(first, run[..k]), self, i);
  }

  lemma LiveHasGoodPeers(lib: Lib, r0: Policy.Rules, first: Config, h: seq<Move>, run: seq<Mark>, k: nat)
    requires lib.OneSpelling() && Follows(lib, r0, first, h) && RanOn(lib, r0, first, h, run)
    requires k < |run| && NoneMixed(run[..k])
    ensures var live := LiveAfter(first, run[..k]); Validation.GoodPeers(lib, live.self, live.peers)
  {
    hide RanOn, LiveAfter, MovesBy;
    RunPrefix(lib, r0, first, h, run, k);
    LiveIsFollowed(lib, r0, first, h, run[..k]);
  }
}
