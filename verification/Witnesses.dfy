/**
 * One small pair of machines on which the code does what its documents do not say. Both offer a service;
 * the files are valid, so the general theorems apply to them.
 */
module Witnesses {
  import opened Basics
  import opened Bytes
  import opened Net
  import opened Packet
  import opened Configuration
  import opened Validation
  import opened Flow
  import opened Filtering
  import opened FilterHistory
  import opened Enforcement
  import Decisions = Policy
  import Mss
  import PolicyCompile

  const A_IP: Addr := V4(2)
  const B_IP: Addr := V4(3)

  function Parsers(): Lib {
    Lib((s: string) => if s == "a1" then Some(A_IP) else if s == "b1" then Some(B_IP) else None,
        (s: string) => None,
        (s: string) => if s == "net" then Some(Prefix(V4(2), 31)) else None,
        (s: string) => None,
        (s: string) => if s == "ka" then Some(1) else if s == "kb" then Some(2) else None)
  }

  function MachineA(): Peer { Peer("a", "ka", "a1", [], [], [Service("w", 80)]) }

  function MachineB(): Peer { Peer("b", "kb", "b1", [], [], [Service("w", 80)]) }

  /** The files of machine a with some policy. */
  function FilesOfA(policy: Configuration.Policy): Config {
    Config(
      Self("a", "", "net", 51820, Tun("", 0), Guard("", [], []), NatModes("", "tunnel-ip"), PskFiles("", "")),
      [MachineA(), MachineB()], policy, map[])
  }

  lemma MachineIsGood(policy: Configuration.Policy, p: Peer)
    requires p == MachineA() || p == MachineB()
    ensures GoodPeer(Parsers(), FilesOfA(policy).self, p) && RealIPs(Parsers(), p) == []
  {
    var net := Prefix(V4(2), 31);
    assert Shift(2, 1) == 1 && Shift(3, 1) == 1;
    assert net.Contains(A_IP) && net.Contains(B_IP);
    assert RealIPs(Parsers(), p) == [];
    assert p.services == [Service("w", 80)] && Label("w") && Label(p.peerID);
  }

  lemma FilesAreGood(policy: Configuration.Policy)
    ensures var c := FilesOfA(policy); GoodPeers(Parsers(), c.self, c.peers)
    ensures Parsers().OneSpelling()
    ensures TunnelAddr(Parsers(), MachineA()) == A_IP
  {
    MachineIsGood(policy, MachineA());
    MachineIsGood(policy, MachineB());
    assert "a" != "b" && "a1" != "b1" && "ka" != "kb";
  }

  lemma BothAreFound(policy: Configuration.Policy)
    ensures var c := FilesOfA(policy);
            && Find(c.peers, "a") == Some(MachineA()) && Find(c.peers, "b") == Some(MachineB())
            && c.peers[0] == MachineA() && c.peers[1] == MachineB()
  {
    var c := FilesOfA(policy);
    assert c.peers[1..] == [MachineB()];
    assert "a" != "b";
  }

  lemma FilesAreValid(policy: Configuration.Policy, now: int)
    requires ValidPolicy(Parsers(), FilesOfA(policy), now)
    ensures Valid(Parsers(), FilesOfA(policy), now)
  {
    FilesAreGood(policy);
    BothAreFound(policy);
  }

  /** The policy of machine a in which its service is open to b, and it may call b's. */
  function OpenPolicy(): Configuration.Policy {
    Configuration.Policy([Inbound("w", ["b"], [], "")], ["b/w"])
  }

  lemma TargetReads()
    ensures Cut("b/w") == Some(("b", "w")) && "b" + "/" + "w" == "b/w"
  {
    assert "b" + "/" + "w" == "b/w";
    CutJoin("b", "w");
  }

  lemma OffersService(p: Peer)
    requires p.services == [Service("w", 80)]
    ensures HasApp(p.services, "w") && PolicyMeaning.Offers(p, "w", 80)
  {
    assert Service("w", 80) in p.services;
  }

  lemma OpenPolicyIsValid(now: int)
    ensures Valid(Parsers(), FilesOfA(OpenPolicy()), now)
    ensures PolicyCompile.New(Parsers(), FilesOfA(OpenPolicy())).Ok?
  {
    var c := FilesOfA(OpenPolicy());
    BothAreFound(OpenPolicy());
    TargetReads();
    OffersService(MachineA());
    OffersService(MachineB());
    forall u | u in c.policy.inbound ensures GoodInbound(Parsers(), c, u, now) && PolicyMeaning.ExpiryReads(Parsers(), u) {
      assert u == Inbound("w", ["b"], [], "");
    }
    forall t | t in c.policy.outbound ensures GoodTarget(c, t) { assert t == "b/w"; }
    FilesAreValid(OpenPolicy(), now);
    PolicyMeaning.ValidCompiles(Parsers(), c, now);
  }

  /** Valid files that do not compile: an expiry nobody can read, on a rule without ranges. */
  lemma ValidButUncompilable(now: int)
    ensures var c := FilesOfA(Configuration.Policy([Inbound("w", ["b"], [], "soon")], []));
            Valid(Parsers(), c, now) && PolicyCompile.New(Parsers(), c).Err?
  {
    var policy := Configuration.Policy([Inbound("w", ["b"], [], "soon")], []);
    var c := FilesOfA(policy);
    var u := Inbound("w", ["b"], [], "soon");
    BothAreFound(policy);
    OffersService(MachineA());
    assert GoodInbound(Parsers(), c, u, now) && !PolicyMeaning.ExpiryReads(Parsers(), u);
    assert u in c.policy.inbound && forall v :: v in c.policy.inbound ==> v == u;
    FilesAreValid(policy, now);
    PolicyMeaning.ValidCompiles(Parsers(), c, now);
  }

  /** The rules of machine a. */
  function RulesOfA(): Decisions.Rules
    requires PolicyCompile.New(Parsers(), FilesOfA(OpenPolicy())).Ok?
  {
    PolicyCompile.New(Parsers(), FilesOfA(OpenPolicy())).value
  }

  lemma AIsNotAdmitted(port: nat, obs: Addr, now: int)
    ensures !PolicyAdmits(Parsers(), FilesOfA(OpenPolicy()), MachineA(), A_IP, port, obs, now)
  {
    var c := FilesOfA(OpenPolicy());
    assert "a" !in ["b"];
    forall q, u | q in c.peers && TunnelAddr(Parsers(), q) == A_IP
      ensures !PolicyMeaning.Opens(Parsers(), c, MachineA(), u, port, q.peerID, obs, now)
    {
      assert q == MachineA();
      if u in c.policy.inbound { assert u == Inbound("w", ["b"], [], ""); }
    }
  }

  /** A connection from a to b's service: the outbound list allows it, and a reload with these files forgets it. */
  lemma AllowedButForgotten(observe: Addr -> Addr, now: int)
    ensures PolicyCompile.New(Parsers(), FilesOfA(OpenPolicy())).Ok?
    ensures RulesOfA().Outbound(B_IP, 80).Allow?
    ensures !StillAllowed(RulesOfA(), observe, now)(FlowKey(A_IP, B_IP, 40000, 80, TCP))
  {
    var c := FilesOfA(OpenPolicy());
    OpenPolicyIsValid(now);
    FilesAreGood(OpenPolicy());
    BothAreFound(OpenPolicy());
    TargetReads();
    OffersService(MachineB());
    assert Sends(c, MachineB(), "w", 80);
    OutboundIsPolicy(Parsers(), c, RulesOfA(), B_IP, 80);
    OwnConnectionKept(Parsers(), c, RulesOfA(), MachineA(), observe, now, FlowKey(A_IP, B_IP, 40000, 80, TCP));
    AIsNotAdmitted(80, observe(A_IP), now);
  }

  /** A UDP fragment from b to a that is not the first of its packet. */
  const LATER_FRAGMENT: seq<byte> := [0x45, 0, 0, 20, 0, 0, 0, 1, 64, 17, 0, 0, 0, 0, 0, 3, 0, 0, 0, 2]

  lemma LaterFragmentParses()
    ensures Parse(LATER_FRAGMENT) == Some(Packet(B_IP, A_IP, UDP, 0, 0)) && FragmentOffset(LATER_FRAGMENT) == 1
  {
    assert Four(LATER_FRAGMENT, 12) == 3 && Four(LATER_FRAGMENT, 16) == 2;
  }

  lemma BIsAdmitted(obs: Addr, now: int)
    ensures PolicyAdmits(Parsers(), FilesOfA(OpenPolicy()), MachineA(), B_IP, 80, obs, now)
  {
    var c := FilesOfA(OpenPolicy());
    var u := Inbound("w", ["b"], [], "");
    OffersService(MachineA());
    assert u in c.policy.inbound && "b" in u.allow && MachineB() in c.peers;
    assert PolicyMeaning.Opens(Parsers(), c, MachineA(), u, 80, MachineB().peerID, obs, now);
  }

  /** A rule admits b, so the fragment should pass; it does not. */
  lemma LaterFragmentRefused(obs: Addr, now: int)
    ensures PolicyCompile.New(Parsers(), FilesOfA(OpenPolicy())).Ok?
    ensures AdmitsPeer(Parsers(), FilesOfA(OpenPolicy()), MachineA(), B_IP, obs, now)
    ensures Parse(LATER_FRAGMENT).Some?
    ensures !Passes(Run(RulesOfA(), []), In(Parse(LATER_FRAGMENT).value, obs, now))
  {
    OpenPolicyIsValid(now);
    FilesAreGood(OpenPolicy());
    LaterFragmentParses();
    BIsAdmitted(obs, now);
    assert FromFiles(Parsers(), RulesOfA(), FilesOfA(OpenPolicy()), MachineA());
    LaterFragmentsNeverPass(Parsers(), RulesOfA(), [], In(Parse(LATER_FRAGMENT).value, obs, now));
  }

  /** The policy of machine a in which it may call b's service and nobody may call it. */
  function CallerPolicy(): Configuration.Policy { Configuration.Policy([], ["b/w"]) }

  lemma CallerPolicyIsValid(now: int)
    ensures Valid(Parsers(), FilesOfA(CallerPolicy()), now)
    ensures PolicyCompile.New(Parsers(), FilesOfA(CallerPolicy())).Ok?
  {
    var c := FilesOfA(CallerPolicy());
    BothAreFound(CallerPolicy());
    TargetReads();
    OffersService(MachineB());
    forall t | t in c.policy.outbound ensures GoodTarget(c, t) { assert t == "b/w"; }
    FilesAreValid(CallerPolicy(), now);
    PolicyMeaning.ValidCompiles(Parsers(), c, now);
  }

  lemma PingGoesOut(r: Decisions.Rules)
    requires PolicyCompile.New(Parsers(), FilesOfA(CallerPolicy())) == Ok(r)
    ensures r.OutboundICMP(B_IP).Allow?
  {
    var c := FilesOfA(CallerPolicy());
    FilesAreGood(CallerPolicy());
    BothAreFound(CallerPolicy());
    TargetReads();
    OffersService(MachineB());
    assert Sends(c, MachineB(), "w", 80);
    OutboundIsPolicy(Parsers(), c, r, B_IP, 80);
    PolicyCompile.CompiledIsWellIndexed(Parsers(), c, r);
    Decisions.OutboundICMPMeaning(r, B_IP);
  }

  lemma NobodyComesIn(r: Decisions.Rules, obs: Addr, now: int)
    requires PolicyCompile.New(Parsers(), FilesOfA(CallerPolicy())) == Ok(r)
    ensures !r.InboundICMP(B_IP, obs, now).Allow?
  {
    var c := FilesOfA(CallerPolicy());
    FilesAreGood(CallerPolicy());
    BothAreFound(CallerPolicy());
    PolicyCompile.CompiledIsWellIndexed(Parsers(), c, r);
    Decisions.InboundICMPMeaning(r, B_IP, obs, now);
    forall port: nat ensures !r.Inbound(B_IP, port, obs, now).Allow? {
      InboundIsPolicy(Parsers(), c, r, MachineA(), B_IP, port, obs, now);
    }
  }

  /**
   * Machine a pings b under valid files: the second ping, a minute and a half after the first, goes out and
   * its answer is refused.
   */
  lemma SecondAnswerRefused(obs: Addr, now: int)
    ensures Valid(Parsers(), FilesOfA(CallerPolicy()), now) && PolicyCompile.New(Parsers(), FilesOfA(CallerPolicy())).Ok?
    ensures var ping, echo := Packet(A_IP, B_IP, ICMP, 0, 0), Packet(B_IP, A_IP, ICMP, 0, 0);
            var r := PolicyCompile.New(Parsers(), FilesOfA(CallerPolicy())).value;
            var s1 := After(State(r, map[], map[]), Move(Out(ping, 0), {}, {}));
            var s2 := After(s1, Move(In(echo, obs, SECOND), {}, {}));
            var s3 := After(s2, Move(Out(ping, 90 * SECOND), {}, {}));
            && Passes(s1, In(echo, obs, SECOND)) && Passes(s2, Out(ping, 90 * SECOND))
            && !Passes(s3, In(echo, obs, 91 * SECOND))
  {
    CallerPolicyIsValid(now);
    var r := PolicyCompile.New(Parsers(), FilesOfA(CallerPolicy())).value;
    var ping, echo := Packet(A_IP, B_IP, ICMP, 0, 0), Packet(B_IP, A_IP, ICMP, 0, 0);
    PolicyCompile.CompiledIsWellIndexed(Parsers(), FilesOfA(CallerPolicy()), r);
    PingGoesOut(r);
    NobodyComesIn(r, obs, SECOND);
    NobodyComesIn(r, obs, 91 * SECOND);
    JudgedBySource(r, echo, obs, SECOND);
    JudgedBySource(r, echo, obs, 91 * SECOND);
    SecondPingUnanswered(r, ping, echo, obs);
  }

  // ---------- An MSS value at an odd offset ----------

  /** The segment of a SYN that announces 1460 after one no-operation option, its checksum in order. */
  const ODD_SEGMENT: seq<byte> := [0, 0, 0, 80, 0, 0, 0, 0, 0, 0, 0, 0, 0x70, 2, 0, 0, 0xd6, 0x7e, 0, 0,
                                   1, 2, 4, 0x05, 0xb4, 0, 0, 0]

  const IP_HEADER: seq<byte> := [0x45, 0, 0, 48, 0, 0, 0, 0, 64, 6, 0, 0, 0, 0, 0, 2, 0, 0, 0, 3]

  const ODD_SYN: seq<byte> := IP_HEADER + ODD_SEGMENT

  lemma SegmentStart()
    ensures WordSum(ODD_SEGMENT[..14]) == 0x50 + 0x7002
  {
    var s := ODD_SEGMENT;
    assert s[..0] == [];
    assert WordSum(s[..0]) == 0;
    hide WordSum;
    WordSumStep(s, 0);
    WordSumStep(s, 2);
    WordSumStep(s, 4);
    WordSumStep(s, 6);
    WordSumStep(s, 8);
    WordSumStep(s, 10);
    WordSumStep(s, 12);
  }

  lemma SegmentTotal()
    ensures WordSum(ODD_SEGMENT) == 0x50 + 0x7002 + 0xd67e + 0x102 + 0x405 + 0xb400
  {
    var s := ODD_SEGMENT;
    hide WordSum;
    SegmentStart();
    WordSumStep(s, 14);
    WordSumStep(s, 16);
    WordSumStep(s, 18);
    WordSumStep(s, 20);
    WordSumStep(s, 22);
    WordSumStep(s, 24);
    WordSumStep(s, 26);
    assert s[..28] == s;
  }

  lemma OddSynVerifies()
    ensures Mss.TcpSum(ODD_SYN) == 2 * 0xffff && Verifies(Mss.TcpSum(ODD_SYN))
  {
    SegmentTotal();
    assert ODD_SYN[20..] == ODD_SEGMENT;
    VerifiesIffResidue(Mss.TcpSum(ODD_SYN));
  }

  lemma OddSynOffset()
    ensures Mss.MssOffset(ODD_SYN) == Some(43) && Word(ODD_SYN, 43) == 1460
  {
    var o := Mss.Options(ODD_SYN);
    assert o == [1, 2, 4, 0x05, 0xb4, 0, 0, 0];
    assert Mss.Walk(o, 1) == Some(3);
  }

  lemma OddSynIsCut()
    ensures Mss.Cuts(ODD_SYN, 1360) && Mss.MssOffset(ODD_SYN) == Some(43) && Word(ODD_SYN, 43) == 1460
  {
    hide Mss.MssOffset, Word;
    OddSynOffset();
  }

  /** Its checksum holds, and no longer does once the value is cut to 1360. */
  lemma OddSynBreaks()
    ensures Verifies(Mss.TcpSum(ODD_SYN)) && Mss.Cuts(ODD_SYN, 1360)
    ensures !Verifies(Mss.TcpSum(Mss.Clamped(ODD_SYN, 1360)))
  {
    hide *;
    OddSynVerifies();
    OddSynIsCut();
    Mss.ClampedChecksum(ODD_SYN, 1360);
  }
}
