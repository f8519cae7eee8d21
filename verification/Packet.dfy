/** internal/policy/packet.go: reading an IPv4 packet and answering one with an ICMP refusal. */
module Packet {
  import opened Basics
  import opened Bytes
  import opened Net

  const ICMP: byte := 1
  const TCP: byte := 6
  const UDP: byte := 17

  datatype Packet = Packet(src: Addr, dst: Addr, proto: byte, srcPort: u16, dstPort: u16) {
    /** Only the protocol is looked at, so a later fragment of a TCP packet has "ports" too. */
    predicate HasPorts() { proto == TCP || proto == UDP }
  }

  function Four(b: seq<byte>, i: nat): u32
    requires i + 3 < |b|
  {
    Word(b, i) as int * 0x1_0000 + Word(b, i + 2)
  }

  function HeaderLength(b: seq<byte>): nat
    requires b != []
  {
    b[0] % 16 * 4
  }

  function FragmentOffset(b: seq<byte>): nat
    requires |b| >= 8
  {
    Word(b, 6) % 0x2000
  }

  function Parse(b: seq<byte>): Option<Packet> {
    if |b| < 20 || b[0] / 16 != 4 then None
    else if HeaderLength(b) < 20 || |b| < HeaderLength(b) then None
    else
      var p := Packet(V4(Four(b, 12)), V4(Four(b, 16)), b[9], 0, 0);
      var ihl := HeaderLength(b);
      if FragmentOffset(b) == 0 && p.HasPorts() && |b| >= ihl + 4
      then Some(p.(srcPort := Word(b, ihl), dstPort := Word(b, ihl + 2)))
      else Some(p)
  }

  /** A number as the four octets of an address, the highest first. */
  function BigEndian(x: u32): seq<byte> {
    var high, low := x / 0x1_0000, x % 0x1_0000;
    [high / 0x100, high % 0x100, low / 0x100, low % 0x100]
  }

  lemma FourReads(b: seq<byte>, i: nat, x: u32)
    requires i + 4 <= |b| && b[i..i + 4] == BigEndian(x)
    ensures Four(b, i) == x
  {
    var f := b[i..i + 4];
    assert f[0] == b[i] && f[1] == b[i + 1] && f[2] == b[i + 2] && f[3] == b[i + 3];
    assert Word(b, i) == x / 0x1_0000 && Word(b, i + 2) == x % 0x1_0000;
  }

  lemma WordReads(b: seq<byte>, i: nat, x: u16)
    requires i + 2 <= |b| && b[i] == x / 0x100 && b[i + 1] == x % 0x100
    ensures Word(b, i) == x
  {
  }

  /**
   * A packet put together from its fields is read back: version 4, a header of 20 to 60 octets that says its
   * own length, no fragment offset, two addresses and a protocol, then, for TCP and UDP, the source port and
   * the destination port, then anything.
   */
  lemma ParseReadsFrame(h: seq<byte>, src: u32, dst: u32, proto: byte, sport: u16, dport: u16, rest: seq<byte>)
    requires 20 <= |h| <= 60 && |h| % 4 == 0 && h[0] == 0x40 + |h| / 4
    requires h[6] % 0x20 == 0 && h[7] == 0 && h[9] == proto
    requires h[12..16] == BigEndian(src) && h[16..20] == BigEndian(dst)
    ensures Parse(h + [sport / 0x100, sport % 0x100, dport / 0x100, dport % 0x100] + rest) ==
            Some(if proto == 6 || proto == 17 then Packet(V4(src), V4(dst), proto, sport, dport)
                 else Packet(V4(src), V4(dst), proto, 0, 0))
  {
    var b := h + [sport / 0x100, sport % 0x100, dport / 0x100, dport % 0x100] + rest;
    assert forall i :: 0 <= i < |h| ==> b[i] == h[i];
    assert b[12..16] == h[12..16] && b[16..20] == h[16..20];
    FourReads(b, 12, src);
    FourReads(b, 16, dst);
    WordReads(b, |h|, sport);
    WordReads(b, |h| + 2, dport);
  }

  /** What is read at all: a version 4 header, whole, of at least 20 octets. */
  lemma ParseReads(b: seq<byte>)
    ensures Parse(b).Some? <==> |b| >= 20 && 0x45 <= b[0] <= 0x4f && |b| >= 4 * (b[0] - 0x40)
    ensures Parse(b).Some? && |b| < 4 * (b[0] - 0x40) + 4 ==> Parse(b).value.srcPort == 0 && Parse(b).value.dstPort == 0
  {
  }

  /** A fragment after the first is read with port 0 both ways, though its protocol says it has ports. */
  lemma LaterFragmentHasNoPort(b: seq<byte>)
    requires Parse(b).Some? && (b[6] % 0x20 != 0 || b[7] != 0)
    ensures var p := Parse(b).value;
            p.srcPort == 0 && p.dstPort == 0 && p.proto == b[9] && (p.HasPorts() <==> b[9] == 6 || b[9] == 17)
  {
  }

  /** How much of the refused packet is quoted: its header and eight more octets, if it has them. */
  function QuoteLength(orig: seq<byte>): nat
    requires |orig| >= 20
  {
    if HeaderLength(orig) + 8 > |orig| then |orig| else HeaderLength(orig) + 8
  }

  function IcmpUnsummed(orig: seq<byte>): seq<byte>
    requires |orig| >= 20
  {
    [3, 13, 0, 0, 0, 0, 0, 0] + orig[..QuoteLength(orig)]
  }

  function HeaderUnsummed(orig: seq<byte>): seq<byte>
    requires |orig| >= 20
  {
    var total := 28 + QuoteLength(orig);
    [0x45, 0, Hi(total), Lo(total), 0, 0, 0, 0, 64, ICMP, 0, 0] + orig[16..20] + orig[12..16]
  }

  /** The refusal RejectICMP builds. */
  function Rejection(orig: seq<byte>): seq<byte>
    requires |orig| >= 20
  {
    var icmp, header := IcmpUnsummed(orig), HeaderUnsummed(orig);
    SetWord(header, 10, Checksum(header)) + SetWord(icmp, 2, Checksum(icmp))
  }

  /** Both checksums of a refusal hold at the receiver, odd quote lengths included. */
  lemma RejectionVerifies(orig: seq<byte>)
    requires |orig| >= 20
    ensures Verifies(WordSum(Rejection(orig)[..20]))
    ensures Verifies(WordSum(Rejection(orig)[20..]))
  {
    var icmp, header := IcmpUnsummed(orig), HeaderUnsummed(orig);
    assert icmp[0] == 3 && header[0] == 0x45;
    WordSumPositive(icmp, 0);
    WordSumPositive(header, 0);
    ChecksumVerifies(icmp, 2);
    ChecksumVerifies(header, 10);
    assert Rejection(orig)[..20] == SetWord(header, 10, Checksum(header));
    assert Rejection(orig)[20..] == SetWord(icmp, 2, Checksum(icmp));
  }

  /** A refusal is laid out as a header, an ICMP header, and the quote. */
  lemma RejectionLayout(orig: seq<byte>)
    requires |orig| >= 20
    ensures var r, h := Rejection(orig), HeaderUnsummed(orig);
            && |r| == 28 + QuoteLength(orig)
            && r[..10] == h[..10] && r[12..16] == orig[16..20] && r[16..20] == orig[12..16]
            && r[20..22] == [3, 13] && r[28..] == orig[..QuoteLength(orig)]
  {
    var icmp, header, r := IcmpUnsummed(orig), HeaderUnsummed(orig), Rejection(orig);
    var head, body := SetWord(header, 10, Checksum(header)), SetWord(icmp, 2, Checksum(icmp));
    assert r[..10] == head[..10] == header[..10];
    assert r[12..16] == head[12..16] == header[12..16];
    assert r[16..20] == head[16..20] == header[16..20];
    assert r[20..22] == body[..2] == icmp[..2];
    assert r[28..] == body[8..] == icmp[8..];
  }

  lemma FourOfSlice(a: seq<byte>, i: nat, b: seq<byte>, j: nat)
    requires i + 4 <= |a| && j + 4 <= |b| && a[i..i + 4] == b[j..j + 4]
    ensures Four(a, i) == Four(b, j)
  {
    var u, v := a[i..i + 4], b[j..j + 4];
    assert a[i] == u[0] && a[i + 1] == u[1] && a[i + 2] == u[2] && a[i + 3] == u[3];
    assert b[j] == v[0] && b[j + 1] == v[1] && b[j + 2] == v[2] && b[j + 3] == v[3];
  }

  /**
   * A refusal is "destination unreachable, administratively prohibited" (type 3, code 13 of
   * section 5.2.7.1 of RFC 1812), states its own length, quotes the refused packet from its first octet
   * through eight octets after its header, if they are there, and is an ICMP packet from the refused packet's
   * destination to its source.
   */
  lemma RejectionAnswers(orig: seq<byte>)
    requires |orig| >= 20
    ensures var r := Rejection(orig);
            var after := 4 * (orig[0] % 16) + 8;
            && |r| == Word(r, 2) == 28 + (if after <= |orig| then after else |orig|)
            && r[20..22] == [3, 13]
            && r[28..] == orig[..|r| - 28]
            && Parse(r) == Some(Packet(V4(Four(orig, 16)), V4(Four(orig, 12)), ICMP, 0, 0))
    ensures Parse(orig).Some? ==>
              Parse(Rejection(orig)).value == Packet(Parse(orig).value.dst, Parse(orig).value.src, ICMP, 0, 0)
  {
    var r, h := Rejection(orig), HeaderUnsummed(orig);
    RejectionLayout(orig);
    FourOfSlice(r, 12, orig, 16);
    FourOfSlice(r, 16, orig, 12);
    assert forall i :: 0 <= i < 10 ==> r[i] == r[..10][i] == h[..10][i];
    assert r[0] == 0x45 && r[9] == ICMP;
    assert r[2] == h[2] && r[3] == h[3];
  }

  /** binary.BigEndian.PutUint16 into a slice. */
  method PutWord(a: array<byte>, i: nat, w: u16)
    requires i + 1 < a.Length
    modifies a
    ensures a[..] == SetWord(old(a[..]), i, w)
  {
    a[i] := Hi(w);
    a[i + 1] := Lo(w);
  }

  /** copy(dst[at:], src). */
  method CopyInto(dst: array<byte>, at: nat, src: seq<byte>)
    requires at + |src| <= dst.Length
    modifies dst
    ensures dst[..] == old(dst[..at]) + src + old(dst[at + |src|..])
  {
    forall k | 0 <= k < |src| { dst[at + k] := src[k]; }
  }

  method BuildIcmp(orig: seq<byte>) returns (icmp: array<byte>)
    requires |orig| >= 20
    ensures fresh(icmp)
    ensures icmp[..] == SetWord(IcmpUnsummed(orig), 2, Checksum(IcmpUnsummed(orig)))
  {
    var quote := QuoteLength(orig);
    icmp := new byte[8 + quote](_ => 0);
    icmp[0], icmp[1] := 3, 13;
    CopyInto(icmp, 8, orig[..quote]);
    assert icmp[..] == IcmpUnsummed(orig);
    var sum := ComputeChecksum(icmp[..]);
    PutWord(icmp, 2, sum);
  }

  method FillHeader(out: array<byte>, orig: seq<byte>)
    requires |orig| >= 20 && out.Length == 28 + QuoteLength(orig)
    requires forall i :: 0 <= i < out.Length ==> out[i] == 0
    modifies out
    ensures out[..20] == SetWord(HeaderUnsummed(orig), 10, Checksum(HeaderUnsummed(orig)))
  {
    out[0], out[2], out[3] := 0x45, Hi(out.Length), Lo(out.Length);
    out[8], out[9] := 64, ICMP;
    assert out[..12] == HeaderUnsummed(orig)[..12];
    CopyInto(out, 12, orig[16..20]);
    assert out[..12] == HeaderUnsummed(orig)[..12] && out[12..16] == orig[16..20];
    CopyInto(out, 16, orig[12..16]);
    assert out[..12] == HeaderUnsummed(orig)[..12] && out[12..16] == orig[16..20] && out[16..20] == orig[12..16];
    assert out[..20] == out[..12] + out[12..16] + out[16..20] == HeaderUnsummed(orig);
    var sum := ComputeChecksum(out[..20]);
    ghost var before := out[..];
    PutWord(out, 10, sum);
    assert out[..20] == SetWord(before[..20], 10, sum);
  }

  /** A packet too short to have an IPv4 header gets no answer. */
  method RejectICMP(orig: seq<byte>) returns (out: array?<byte>)
    ensures out == null <==> |orig| < 20
    ensures out != null ==> fresh(out) && out[..] == Rejection(orig)
  {
    if |orig| < 20 { return null; }
    var icmp := BuildIcmp(orig);
    out := new byte[20 + icmp.Length](_ => 0);
    FillHeader(out, orig);
    CopyInto(out, 20, icmp[..]);
  }
}
