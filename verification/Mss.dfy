/** internal/policy/mss.go: lowering the maximum segment size a TCP SYN announces. */
module Mss {
  import opened Basics
  import opened Bytes
  import opened Packet

  const MSS_OPTION: byte := 2

  // ---------- The option list ----------

  /** A TCP option of section 3.1 of RFC 9293 other than the end of the list. */
  datatype Opt = Nop | Opt(kind: byte, data: seq<byte>) {
    predicate WellFormed() { Opt? ==> kind > 1 && |data| <= 253 }

    function Octets(): seq<byte>
      requires WellFormed()
    {
      if Nop? then [1] else [kind, 2 + |data|] + data
    }

    predicate IsMss() { Opt? && kind == MSS_OPTION && |data| == 2 }
  }

  function Octets(opts: seq<Opt>): seq<byte>
    requires forall o :: o in opts ==> o.WellFormed()
  {
    if opts == [] then [] else opts[0].Octets() + Octets(opts[1..])
  }

  /** Where ClampMSS finds the value of an MSS option, walking the option octets from offset i. */
  function Walk(opts: seq<byte>, i: nat): (r: Option<nat>)
    ensures r.Some? ==> i + 2 <= r.value && r.value + 2 <= |opts|
    decreases |opts| - i
  {
    if i >= |opts| || opts[i] == 0 then None
    else if opts[i] == 1 then Walk(opts, i + 1)
    else if i + 1 >= |opts| then None
    else if opts[i + 1] < 2 || i + opts[i + 1] > |opts| then None
    else if opts[i] == MSS_OPTION && opts[i + 1] == 4 then Some(i + 2)
    else Walk(opts, i + opts[i + 1])
  }

  /** The walk does not depend on the octets of the value it finds, nor on any after it. */
  lemma {:induction false} WalkFrame(opts: seq<byte>, changed: seq<byte>, i: nat)
    requires |changed| == |opts|
    requires Walk(opts, i).Some?
    requires forall j :: 0 <= j < Walk(opts, i).value ==> changed[j] == opts[j]
    ensures Walk(changed, i) == Walk(opts, i)
    decreases |opts| - i
  {
    if opts[i] == 1 {
      WalkFrame(opts, changed, i + 1);
    } else if !(opts[i] == MSS_OPTION && opts[i + 1] == 4) {
      WalkFrame(opts, changed, i + opts[i + 1]);
    }
  }

  lemma {:induction false} WalkShift(head: seq<byte>, tail: seq<byte>, i: nat)
    ensures var w := Walk(tail, i);
            Walk(head + tail, |head| + i) == if w.Some? then Some(|head| + w.value) else None
    decreases |tail| - i
  {
    var all := head + tail;
    if i < |tail| {
      assert all[|head| + i] == tail[i];
      if tail[i] == 1 {
        WalkShift(head, tail, i + 1);
      } else if tail[i] != 0 && i + 1 < |tail| {
        assert all[|head| + i + 1] == tail[i + 1];
        if tail[i + 1] >= 2 { WalkShift(head, tail, i + tail[i + 1]); }
      }
    }
  }

  /** Where the value of the first MSS option of a list lies. */
  function FirstMss(opts: seq<Opt>): Option<nat>
    requires forall o :: o in opts ==> o.WellFormed()
  {
    if opts == [] then None
    else if opts[0].IsMss() then Some(2)
    else match FirstMss(opts[1..])
         case None => None
         case Some(i) => Some(|opts[0].Octets()| + i)
  }

  /** The walk steps over one option that is not an MSS, and stops at one that is. */
  lemma WalkOneOption(o: Opt, rest: seq<byte>)
    requires o.WellFormed()
    ensures o.IsMss() ==> Walk(o.Octets() + rest, 0) == Some(2)
    ensures !o.IsMss() ==>
              Walk(o.Octets() + rest, 0) ==
              match Walk(rest, 0) case None => None case Some(i) => Some(|o.Octets()| + i)
  {
    var head := o.Octets();
    var all := head + rest;
    assert all[0] == head[0];
    WalkShift(head, rest, 0);
    if o.Opt? {
      assert all[1] == head[1] == |head|;
      assert o.IsMss() <==> all[0] == MSS_OPTION && all[1] == 4;
    }
  }

  lemma FirstMssStep(opts: seq<Opt>, rest: seq<byte>)
    requires opts != [] && forall o :: o in opts ==> o.WellFormed()
    requires Walk(rest, 0) == FirstMss(opts[1..])
    ensures Walk(opts[0].Octets() + rest, 0) == FirstMss(opts)
  {
    WalkOneOption(opts[0], rest);
  }

  /** On every well-formed option list, whatever follows its end, the walk finds the first MSS option. */
  lemma {:induction false} WalkFindsFirstMss(opts: seq<Opt>, padding: seq<byte>)
    requires forall o :: o in opts ==> o.WellFormed()
    requires padding == [] || padding[0] == 0
    ensures Walk(Octets(opts) + padding, 0) == FirstMss(opts)
  {
    if opts == [] {
      assert Octets(opts) + padding == padding;
    } else {
      var rest := Octets(opts[1..]) + padding;
      assert Octets(opts) + padding == opts[0].Octets() + rest;
      WalkFindsFirstMss(opts[1..], padding);
      FirstMssStep(opts, rest);
    }
  }

  // ---------- The cut ----------

  /** A whole IPv4 TCP SYN, not a later fragment, with its option octets inside the packet. */
  predicate IsSyn(p: seq<byte>) {
    && |p| >= 20 && p[0] / 16 == 4 && p[9] == TCP && FragmentOffset(p) == 0
    && var ihl := HeaderLength(p);
    && ihl >= 20 && |p| >= ihl + 20
    && p[ihl + 13] / 2 % 2 == 1
    && 20 <= DataOffset(p) <= |p| - ihl
  }

  function DataOffset(p: seq<byte>): nat
    requires |p| > 0 && |p| >= HeaderLength(p) + 20
  {
    p[HeaderLength(p) + 12] / 16 * 4
  }

  function Options(p: seq<byte>): seq<byte>
    requires IsSyn(p)
  {
    p[HeaderLength(p) + 20..HeaderLength(p) + DataOffset(p)]
  }

  /** The offset in the packet of the MSS value of a SYN. */
  function MssOffset(p: seq<byte>): (r: Option<nat>)
    ensures r.Some? ==> IsSyn(p) && HeaderLength(p) + 22 <= r.value && r.value + 2 <= |p|
  {
    if !IsSyn(p) then None else
    match Walk(Options(p), 0)
    case None => None
    case Some(i) => Some(HeaderLength(p) + 20 + i)
  }

  predicate Cuts(p: seq<byte>, max: u16) {
    max != 0 && MssOffset(p).Some? && Word(p, MssOffset(p).value) > max
  }

  /** The offset in the packet of its TCP checksum. */
  function ChecksumAt(p: seq<byte>): nat
    requires p != []
  {
    HeaderLength(p) + 16
  }

  /** RFC 1624, Eqn. 3: HC' = ~(~HC + ~m + m'). */
  function FixedChecksum(sum: u16, old_: u16, cur: u16): u16 {
    0xffff - Fold((0xffff - sum) + (0xffff - old_) + cur)
  }

  /** What ClampMSS leaves in the packet. */
  function Clamped(p: seq<byte>, max: u16): seq<byte> {
    if !Cuts(p, max) then p else
    var at, sumAt := MssOffset(p).value, ChecksumAt(p);
    SetWord(SetWord(p, at, max), sumAt, FixedChecksum(Word(p, sumAt), Word(p, at), max))
  }

  /** A cut writes the new MSS and the checksum and no other octet. */
  lemma ClampedFrame(p: seq<byte>, max: u16)
    ensures |Clamped(p, max)| == |p|
    ensures !Cuts(p, max) ==> Clamped(p, max) == p
    ensures Cuts(p, max) ==>
              var at, sumAt := MssOffset(p).value, ChecksumAt(p);
              && Word(Clamped(p, max), at) == max < Word(p, at)
              && forall i :: 0 <= i < |p| && i != at && i != at + 1 && i != sumAt && i != sumAt + 1 ==>
                   Clamped(p, max)[i] == p[i]
  {
  }

  /** A packet that differs from a SYN at most in its TCP checksum and after some option offset. */
  predicate SameHeaders(p: seq<byte>, q: seq<byte>, upTo: nat)
    requires IsSyn(p)
  {
    && |q| == |p| && HeaderLength(p) + 20 <= upTo <= |p|
    && forall i :: 0 <= i < upTo && i != ChecksumAt(p) && i != HeaderLength(p) + 17 ==> q[i] == p[i]
  }

  lemma SameHeadersSyn(p: seq<byte>, q: seq<byte>, upTo: nat)
    requires IsSyn(p) && SameHeaders(p, q, upTo)
    ensures IsSyn(q) && HeaderLength(q) == HeaderLength(p) && DataOffset(q) == DataOffset(p)
  {
    var ihl := HeaderLength(p);
    assert q[0] == p[0] && q[6] == p[6] && q[7] == p[7] && q[9] == p[9];
    assert q[ihl + 12] == p[ihl + 12] && q[ihl + 13] == p[ihl + 13];
  }

  /** The offset in the packet of the value of the first MSS option of its list. */
  function Placed(p: seq<byte>, found: Option<nat>): Option<nat>
    requires p != []
  {
    if found.Some? then Some(HeaderLength(p) + 20 + found.value) else None
  }

  lemma MssOffsetFromWalk(p: seq<byte>, found: Option<nat>)
    requires IsSyn(p) && Walk(Options(p), 0) == found
    ensures MssOffset(p) == Placed(p, found)
  {
  }

  lemma SameOption(p: seq<byte>, q: seq<byte>, upTo: nat, j: nat)
    requires IsSyn(p) && IsSyn(q) && SameHeaders(p, q, upTo)
    requires HeaderLength(q) == HeaderLength(p) && DataOffset(q) == DataOffset(p)
    requires j < |Options(p)| && HeaderLength(p) + 20 + j < upTo
    ensures |Options(q)| == |Options(p)| && Options(q)[j] == Options(p)[j]
  {
    assert q[HeaderLength(p) + 20 + j] == p[HeaderLength(p) + 20 + j];
  }

  lemma SameHeadersMss(p: seq<byte>, q: seq<byte>)
    requires MssOffset(p).Some? && SameHeaders(p, q, MssOffset(p).value)
    ensures MssOffset(q) == MssOffset(p)
  {
    var upTo := MssOffset(p).value;
    SameHeadersSyn(p, q, upTo);
    var o, r := Options(p), Options(q);
    var found := Walk(o, 0);
    assert |o| == |r|;
    hide SameHeaders, IsSyn, Options;
    forall j | 0 <= j < found.value ensures r[j] == o[j] { SameOption(p, q, upTo, j); }
    WalkFrame(o, r, 0);
    MssOffsetFromWalk(q, found);
  }

  /** After a call the announced size is within the limit, so a second call changes nothing. */
  lemma ClampedIsFixpoint(p: seq<byte>, max: u16)
    ensures MssOffset(Clamped(p, max)) == MssOffset(p)
    ensures !Cuts(Clamped(p, max), max)
    ensures Clamped(Clamped(p, max), max) == Clamped(p, max)
  {
    if Cuts(p, max) {
      ClampedFrame(p, max);
      SameHeadersMss(p, Clamped(p, max));
    }
  }

  /** In a SYN with a well-formed option list, the value compared and cut is that of its first MSS option. */
  lemma MssOffsetIsFirstMss(p: seq<byte>, opts: seq<Opt>, padding: seq<byte>)
    requires IsSyn(p)
    requires forall o :: o in opts ==> o.WellFormed()
    requires padding == [] || padding[0] == 0
    requires Options(p) == Octets(opts) + padding
    ensures MssOffset(p) == Placed(p, FirstMss(opts))
  {
    WalkFindsFirstMss(opts, padding);
    MssOffsetFromWalk(p, FirstMss(opts));
  }

  lemma SynParts(h: seq<byte>, t: seq<byte>, options: seq<byte>, payload: seq<byte>)
    requires 20 <= |h| <= 60 && |h| % 4 == 0 && h[0] == 0x40 + |h| / 4
    requires h[9] == 6 && h[6] % 0x20 == 0 && h[7] == 0
    requires |t| == 20 && t[13] / 2 % 2 == 1 && t[12] / 16 * 4 == 20 + |options|
    ensures var p := h + t + options + payload;
            IsSyn(p) && HeaderLength(p) == |h| && Options(p) == options
  {
    var p := h + t + options + payload;
    assert p[0] == h[0] && p[6] == h[6] && p[7] == h[7] && p[9] == h[9];
    assert p[|h| + 12] == t[12] && p[|h| + 13] == t[13];
    assert p[|h| + 20..|h| + 20 + |options|] == options;
  }

  /** How options are laid out: a no-operation is one octet, any other its kind, its length and its data. */
  lemma OctetsMeaning(o: Opt, rest: seq<Opt>)
    requires o.WellFormed() && forall r :: r in rest ==> r.WellFormed()
    ensures Octets([]) == []
    ensures Octets([o] + rest) == (if o.Nop? then [1] else [o.kind, 2 + |o.data|] + o.data) + Octets(rest)
  {
    assert ([o] + rest)[1..] == rest;
  }

  /** The walk passes over options that are not an MSS. */
  lemma {:induction false} WalkSkips(before: seq<Opt>, rest: seq<byte>)
    requires forall o :: o in before ==> o.WellFormed() && !o.IsMss()
    ensures Walk(Octets(before) + rest, 0) ==
            match Walk(rest, 0) case None => None case Some(i) => Some(|Octets(before)| + i)
  {
    if before == [] {
      assert Octets(before) + rest == rest;
    } else {
      hide Walk;
      assert Octets(before) + rest == before[0].Octets() + (Octets(before[1..]) + rest);
      WalkSkips(before[1..], rest);
      WalkOneOption(before[0], Octets(before[1..]) + rest);
    }
  }

  /**
   * Octet by octet: in a version 4 packet of protocol 6 with no fragment offset and the SYN flag, whatever its other
   * flags, whose first option of kind 2 and length 4 holds hi and lo, these two become the limit if they are more
   * and the limit is not 0, and only the checksum changes besides.
   */
  lemma SynWithMss(h: seq<byte>, t: seq<byte>, before: seq<Opt>, hi: byte, lo: byte, after: seq<byte>,
                   payload: seq<byte>, max: u16)
    requires 20 <= |h| <= 60 && |h| % 4 == 0 && h[0] == 0x40 + |h| / 4
    requires h[9] == 6 && h[6] % 0x20 == 0 && h[7] == 0
    requires forall o :: o in before && o.Opt? ==> o.kind > 1 && |o.data| <= 253 && (o.kind != 2 || |o.data| != 2)
    requires |t| == 20 && t[13] / 2 % 2 == 1 && t[12] / 16 * 4 == 20 + |Octets(before)| + 4 + |after|
    ensures var p, at := h + t + (Octets(before) + [2, 4, hi, lo] + after) + payload, |h| + 22 + |Octets(before)|;
            var q := Clamped(p, max);
            if max == 0 || hi as int * 0x100 + lo <= max then q == p
            else && |q| == |p| && q[at] == max / 0x100 && q[at + 1] == max % 0x100
                 && forall i :: && 0 <= i < |p| && i != at && i != at + 1 && i != |h| + 16 && i != |h| + 17 ==>
                      q[i] == p[i]
  {
    hide IsSyn, Options, Octets;
    var options := Octets(before) + [2, 4, hi, lo] + after;
    var p := h + t + options + payload;
    SynParts(h, t, options, payload);
    assert options == Octets(before) + ([2, 4, hi, lo] + after);
    WalkSkips(before, [2, 4, hi, lo] + after);
    MssOffsetFromWalk(p, Some(|Octets(before)| + 2));
    var at := |h| + 22 + |Octets(before)|;
    assert p[at] == options[at - |h| - 20] == hi && p[at + 1] == options[at - |h| - 19] == lo;
    ClampedFrame(p, max);
  }

  /** And one whose options hold none of kind 2 and length 4 before their end is left as it is. */
  lemma SynWithoutMss(h: seq<byte>, t: seq<byte>, opts: seq<Opt>, padding: seq<byte>, payload: seq<byte>, max: u16)
    requires 20 <= |h| <= 60 && |h| % 4 == 0 && h[0] == 0x40 + |h| / 4
    requires h[9] == 6 && h[6] % 0x20 == 0 && h[7] == 0
    requires forall o :: o in opts && o.Opt? ==> o.kind > 1 && |o.data| <= 253 && (o.kind != 2 || |o.data| != 2)
    requires padding == [] || padding[0] == 0
    requires |t| == 20 && t[13] / 2 % 2 == 1 && t[12] / 16 * 4 == 20 + |Octets(opts) + padding|
    ensures Clamped(h + t + (Octets(opts) + padding) + payload, max) == h + t + (Octets(opts) + padding) + payload
  {
    hide IsSyn, Options, Octets;
    SynParts(h, t, Octets(opts) + padding, payload);
    WalkSkips(opts, padding);
    MssOffsetFromWalk(h + t + (Octets(opts) + padding) + payload, None);
  }

  /** What is not cut: another protocol or version, a later fragment, a segment without the SYN flag, or a short header. */
  lemma OthersAreNotCut(p: seq<byte>, max: u16)
    requires |p| < 40 || p[0] < 0x45 || p[0] > 0x4f || p[9] != 6 || p[6] % 0x20 != 0 || p[7] != 0
             || |p| < 4 * (p[0] - 0x40) + 20 || p[4 * (p[0] - 0x40) + 13] / 2 % 2 == 0
             || p[4 * (p[0] - 0x40) + 12] / 16 < 5 || 4 * (p[0] - 0x40) + p[4 * (p[0] - 0x40) + 12] / 16 * 4 > |p|
    ensures !Cuts(p, max) && Clamped(p, max) == p
  {
  }

  /** No decision of the filter reads what a cut changes. */
  lemma ClampedParsesTheSame(p: seq<byte>, max: u16)
    ensures Parse(Clamped(p, max)) == Parse(p)
  {
    ClampedFrame(p, max);
    if Cuts(p, max) {
      var q, ihl := Clamped(p, max), HeaderLength(p);
      assert forall i :: 0 <= i < ihl + 4 ==> q[i] == p[i];
      assert Four(q, 12) == Four(p, 12) && Four(q, 16) == Four(p, 16);
    }
  }

  // ---------- The checksum ----------

  /** The words of the pseudo-header: addresses, protocol and segment length. */
  function PseudoSum(p: seq<byte>): nat
    requires |p| >= 20 && |p| >= HeaderLength(p)
  {
    Word(p, 12) + Word(p, 14) + Word(p, 16) + Word(p, 18) + TCP + (|p| - HeaderLength(p))
  }

  /** The TCP checksum sum: the pseudo-header and the segment. */
  function TcpSum(p: seq<byte>): nat
    requires |p| >= 20 && |p| >= HeaderLength(p)
  {
    PseudoSum(p) + WordSum(p[HeaderLength(p)..])
  }

  /** The sum a receiver makes (section 3.1 of RFC 9293): addresses, protocol 6, length of the segment, and the segment. */
  lemma ReceiverSum(p: seq<byte>)
    requires |p| >= 20 && 0x45 <= p[0] <= 0x4f && |p| >= 4 * (p[0] - 0x40)
    ensures TcpSum(p) == (p[12] + p[14] + p[16] + p[18]) * 0x100 + p[13] + p[15] + p[17] + p[19]
                         + 6 + (|p| - 4 * (p[0] - 0x40)) + WordSum(p[4 * (p[0] - 0x40)..])
  {
    hide WordSum;
    assert HeaderLength(p) == 4 * (p[0] - 0x40);
  }

  /** How far the MSS change moves the sum before the checksum is fixed. */
  function Shifted(at: nat, old_: u16, cur: u16): int {
    if at % 2 == 0 then cur - old_ else (Hi(cur) - Hi(old_)) + 0x100 * (Lo(cur) - Lo(old_))
  }

  lemma FixedChecksumResidue(sum: u16, old_: u16, cur: u16)
    ensures (FixedChecksum(sum, old_, cur) - sum - old_ + cur) % 0xffff == 0
  {
    var x := (0xffff - sum) + (0xffff - old_) + cur;
    FoldResidue(x);
    assert x - Fold(x) == 0xffff * (x / 0xffff - Fold(x) / 0xffff);
    SameResidue(FixedChecksum(sum, old_, cur) - sum - old_ + cur, 0, x / 0xffff - Fold(x) / 0xffff - 1);
  }

  /** q is p with the word at an offset of its segment rewritten, and then that of the checksum. */
  ghost predicate Rewrote(p: seq<byte>, q: seq<byte>, at: nat, cur: u16, f: u16) {
    |p| == |q| >= 20 &&
    var ihl := HeaderLength(p);
    && 20 <= ihl && ihl + 18 < at < |p| - 1 && ChecksumAt(p) == ihl + 16 && p[..ihl] == q[..ihl]
    && q[ihl..] == SetWord(SetWord(p[ihl..], at - ihl, cur), 16, f)
    && Word(p[ihl..], at - ihl) == Word(p, at) && Word(p[ihl..], 16) == Word(p, ihl + 16)
  }

  /** The segment of a cut packet is the segment with two words rewritten. */
  lemma ClampedSegment(p: seq<byte>, max: u16)
    requires Cuts(p, max)
    ensures var at := MssOffset(p).value;
            Rewrote(p, Clamped(p, max), at, max, FixedChecksum(Word(p, ChecksumAt(p)), Word(p, at), max))
  {
    ClampedFrame(p, max);
  }

  lemma TwoWordsSum(b: seq<byte>, i: nat, m: u16, at: nat, f: u16)
    requires i + 1 < |b| && at + 1 < i && at % 2 == 0
    ensures Word(SetWord(b, i, m), at) == Word(b, at)
    ensures WordSum(SetWord(SetWord(b, i, m), at, f)) == WordSum(b) + Shifted(i, Word(b, i), m) + f - Word(b, at)
  {
    WordSumSetPair(b, i, Hi(m), Lo(m));
    WordSumSetWord(SetWord(b, i, m), at, f);
    assert b[i] == Hi(Word(b, i)) && b[i + 1] == Lo(Word(b, i));
  }

  lemma PseudoSumFrame(p: seq<byte>, q: seq<byte>)
    requires |p| == |q| >= 20
    requires |p| >= HeaderLength(p) >= 20 && p[..HeaderLength(p)] == q[..HeaderLength(p)]
    ensures HeaderLength(q) == HeaderLength(p) && PseudoSum(q) == PseudoSum(p)
  {
    assert forall i :: 0 <= i < HeaderLength(p) ==> q[i] == q[..HeaderLength(p)][i] == p[i];
  }

  lemma RewrittenSum(p: seq<byte>, q: seq<byte>, change: int)
    requires |p| == |q| >= 20
    requires |p| >= HeaderLength(p) >= 20 && p[..HeaderLength(p)] == q[..HeaderLength(p)]
    requires WordSum(q[HeaderLength(p)..]) == WordSum(p[HeaderLength(p)..]) + change
    ensures HeaderLength(q) == HeaderLength(p) && TcpSum(q) == TcpSum(p) + change
  {
    PseudoSumFrame(p, q);
  }

  lemma ShiftedParity(at: nat, i: nat, old_: u16, cur: u16)
    requires at % 2 == i % 2
    ensures Shifted(at, old_, cur) == Shifted(i, old_, cur)
  {
  }

  lemma SegmentSum(p: seq<byte>, q: seq<byte>, at: nat, cur: u16, f: u16)
    requires Rewrote(p, q, at, cur, f)
    ensures TcpSum(q) == TcpSum(p) + Shifted(at, Word(p, at), cur) + f - Word(p, ChecksumAt(p))
  {
    hide SetWord, WordSum, Shifted, TcpSum, Word;
    var ihl := HeaderLength(p);
    TwoWordsSum(p[ihl..], at - ihl, cur, 16, f);
    ShiftedParity(at, at - ihl, Word(p, at), cur);
    RewrittenSum(p, q, Shifted(at, Word(p, at), cur) + f - Word(p, ihl + 16));
  }

  lemma ClampedSum(p: seq<byte>, max: u16, f: u16)
    requires Cuts(p, max)
    requires f == FixedChecksum(Word(p, ChecksumAt(p)), Word(p, MssOffset(p).value), max)
    ensures var at, sumAt := MssOffset(p).value, ChecksumAt(p);
            TcpSum(Clamped(p, max)) == TcpSum(p) + Shifted(at, Word(p, at), max) + f - Word(p, sumAt)
  {
    hide Rewrote, Shifted, TcpSum, Word, FixedChecksum, Clamped;
    ClampedSegment(p, max);
    SegmentSum(p, Clamped(p, max), MssOffset(p).value, max, f);
  }

  /** Swapping the octets of a word multiplies it by 256, modulo 65535. */
  lemma OddShift(oh: byte, ol: byte, ch: byte, cl: byte)
    ensures var d: int, e: int := (ch - oh) + 0x100 * (cl - ol), 0x100 * (ch - oh) + (cl - ol);
            (d - e) % 0xffff == 0 <==> e % 257 == 0
  {
    var d: int, e: int := (ch - oh) + 0x100 * (cl - ol), 0x100 * (ch - oh) + (cl - ol);
    assert d - e == 255 * e - 0xffff * (ch - oh);
    SameResidue(d - e, 255 * e, oh - ch);
    Times255(e);
  }

  lemma Times255(x: int)
    ensures 255 * x % 0xffff == 0 <==> x % 257 == 0
  {
    if x % 257 == 0 {
      assert 255 * x == 0xffff * (x / 257);
    }
    if 255 * x % 0xffff == 0 {
      assert x == 257 * (255 * x / 0xffff);
    }
  }

  /** The MSS value is word-aligned, or its change is a multiple of 257. */
  predicate KeepsChecksum(at: nat, old_: u16, cur: u16) { at % 2 == 0 || (old_ - cur) % 257 == 0 }

  /**
   * The cut keeps the residue of the checksum sum, and with it the receiver's verdict, exactly
   * when the MSS value is word-aligned in the segment or its change is a multiple of 257.
   */
  lemma ClampedChecksum(p: seq<byte>, max: u16)
    requires Cuts(p, max)
    ensures var at := MssOffset(p).value;
            (TcpSum(Clamped(p, max)) % 0xffff == TcpSum(p) % 0xffff <==> at % 2 == 0 || (Word(p, at) - max) % 257 == 0)
    ensures var at := MssOffset(p).value;
            Verifies(TcpSum(p)) ==>
              (Verifies(TcpSum(Clamped(p, max))) <==> at % 2 == 0 || (Word(p, at) - max) % 257 == 0)
  {
    var at, sumAt := MssOffset(p).value, ChecksumAt(p);
    var f := FixedChecksum(Word(p, sumAt), Word(p, at), max);
    ClampedSum(p, max, f);
    FixedChecksumResidue(Word(p, sumAt), Word(p, at), max);
    CutVerdict(TcpSum(p), TcpSum(Clamped(p, max)), at, Word(p, at), max, Word(p, sumAt), f);
  }

  lemma CutVerdict(s: nat, t: nat, at: nat, m: u16, max: u16, hc: u16, f: u16)
    requires t == s + Shifted(at, m, max) + f - hc
    requires (f - hc - m + max) % 0xffff == 0
    requires t > 0
    ensures t % 0xffff == s % 0xffff <==> KeepsChecksum(at, m, max)
    ensures Verifies(s) ==> (Verifies(t) <==> KeepsChecksum(at, m, max))
  {
    ShiftVerdict(at, m, max);
    ResidueKept(s, t, Shifted(at, m, max) + m - max, f - hc - m + max);
    VerifiesIffResidue(s);
    VerifiesIffResidue(t);
  }

  lemma ShiftVerdict(at: nat, m: u16, max: u16)
    ensures (Shifted(at, m, max) + m - max) % 0xffff == 0 <==> KeepsChecksum(at, m, max)
  {
    if at % 2 == 1 {
      OddShift(Hi(m), Lo(m), Hi(max), Lo(max));
      assert m == 0x100 * Hi(m) + Lo(m) && max == 0x100 * Hi(max) + Lo(max);
      NegatedMultiple(max - m);
    }
  }

  lemma NegatedMultiple(x: int)
    ensures x % 257 == 0 <==> (0 - x) % 257 == 0
  {
    assert x == 257 * (x / 257) + x % 257;
  }

  lemma ResidueKept(s: int, t: int, d: int, k: int)
    requires t - s == d + k && k % 0xffff == 0
    ensures t % 0xffff == s % 0xffff <==> d % 0xffff == 0
  {
    SameResidue(t - s, d, k / 0xffff);
    assert (t - s) % 0xffff == 0 <==> t % 0xffff == s % 0xffff;
  }

  // ---------- The code ----------

  /** A buffer in which only the n octets at lo may have changed, into p. */
  twostate predicate Only(a: array<byte>, lo: nat, n: nat, p: seq<byte>)
    requires lo + n <= a.Length
    reads a
  {
    a[..lo] == old(a[..lo]) && a[lo..lo + n] == p && a[lo + n..] == old(a[lo + n..])
  }

  /** binary.BigEndian.PutUint16 at offset i of the n octets at lo. */
  method PutWordAt(a: array<byte>, lo: nat, n: nat, i: nat, w: u16)
    requires lo + n <= a.Length && i + 1 < n
    modifies a
    ensures Only(a, lo, n, SetWord(old(a[lo..lo + n]), i, w))
  {
    a[lo + i] := Hi(w);
    a[lo + i + 1] := Lo(w);
  }

  /** fixChecksum on the checksum at offset i of the n octets at lo. */
  method FixChecksum(a: array<byte>, lo: nat, n: nat, i: nat, old_: u16, cur: u16)
    requires lo + n <= a.Length && i + 1 < n
    modifies a
    ensures var p := old(a[lo..lo + n]);
            Only(a, lo, n, SetWord(p, i, FixedChecksum(Word(p, i), old_, cur)))
  {
    var x := FoldCarries((0xffff - Word(a[lo..lo + n], i)) + (0xffff - old_) + cur);
    PutWordAt(a, lo, n, i, 0xffff - x);
  }

  /** The option loop: the offset in the buffer of the MSS value among the len octets at base. */
  method FindMss(a: array<byte>, base: nat, len: nat) returns (at: Option<nat>)
    requires base + len <= a.Length
    ensures at == match Walk(a[base..base + len], 0) case None => None case Some(i) => Some(base + i)
  {
    ghost var opts := a[base..base + len];
    var i := 0;
    while i < len
      invariant Walk(opts, 0) == Walk(opts, i)
      decreases len - i
    {
      assert opts[i] == a[base + i];
      if a[base + i] == 0 { return None; }
      if a[base + i] == 1 {
        i := i + 1;
        continue;
      }
      if i + 1 >= len { return None; }
      assert opts[i + 1] == a[base + i + 1];
      var l: nat := a[base + i + 1];
      if l < 2 || i + l > len { return None; }
      if a[base + i] == MSS_OPTION && l == 4 { return Some(base + i + 2); }
      i := i + l;
    }
    return None;
  }

  /** The header checks: where the option octets of a SYN lie in the buffer, and how many. */
  method FindOptions(a: array<byte>, lo: nat, n: nat) returns (syn: bool, base: nat, len: nat)
    requires lo + n <= a.Length
    ensures syn == IsSyn(a[lo..lo + n])
    ensures syn ==> var p := a[lo..lo + n];
                    base == lo + HeaderLength(p) + 20 && len == DataOffset(p) - 20 && base + len <= lo + n
  {
    ghost var p := a[lo..lo + n];
    syn, base, len := false, 0, 0;
    if n < 20 || a[lo] / 16 != 4 { return; }
    if a[lo + 9] != TCP { return; }
    if ((a[lo + 6] as int) * 0x100 + a[lo + 7]) % 0x2000 != 0 { return; }
    var ihl: nat := a[lo] as int % 16 * 4;
    if ihl < 20 || n < ihl + 20 { return; }
    if a[lo + ihl + 13] / 2 % 2 == 0 { return; }
    var off: nat := a[lo + ihl + 12] as int / 16 * 4;
    if off < 20 || off > n - ihl { return; }
    return true, lo + ihl + 20, off - 20;
  }

  lemma SliceOfSlice(a: seq<byte>, lo: nat, n: nat, i: nat, j: nat)
    requires lo + n <= |a| && i <= j <= n
    ensures a[lo..lo + n][i..j] == a[lo + i..lo + j]
  {
    var s := a[lo..lo + n];
    assert forall k :: i <= k < j ==> s[k] == a[lo + k];
  }

  /** Everything ClampMSS reads before it compares: where the MSS value lies in the n octets at lo. */
  method LocateMss(a: array<byte>, lo: nat, n: nat) returns (at: Option<nat>)
    requires lo + n <= a.Length
    ensures at == MssOffset(a[lo..lo + n])
  {
    var syn, base, len := FindOptions(a, lo, n);
    if !syn { return None; }
    SliceOfSlice(a[..], lo, n, base - lo, base - lo + len);
    assert a[..][lo..lo + n] == a[lo..lo + n] && a[..][base..base + len] == a[base..base + len];
    at := FindMss(a, base, len);
    if at.Some? { at := Some(at.value - lo); }
  }

  /** ClampMSS on the n octets of a buffer that start at lo. */
  method ClampMSS(a: array<byte>, lo: nat, n: nat, max: u16) returns (cut: bool)
    requires lo + n <= a.Length
    modifies a
    ensures cut == Cuts(old(a[lo..lo + n]), max)
    ensures Only(a, lo, n, Clamped(old(a[lo..lo + n]), max))
  {
    if max == 0 { return false; }
    var at := LocateMss(a, lo, n);
    if at == None { return false; }
    var cur := Word(a[lo..lo + n], at.value);
    if cur <= max { return false; }
    ghost var p := a[lo..lo + n];
    PutWordAt(a, lo, n, at.value, max);
    ghost var once := a[lo..lo + n];
    assert Word(once, ChecksumAt(p)) == Word(p, ChecksumAt(p)) && once[0] == p[0];
    FixChecksum(a, lo, n, ChecksumAt(a[lo..lo + n]), cur, max);
    return true;
  }
}
