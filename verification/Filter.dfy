/** internal/wgdev/filter.go: the filter around the TUN device, which enforces the rules on batches of packets. */
module Filter {
  import opened Bytes
  import opened Net
  import opened Packet
  import opened Mss
  import opened Policy
  import opened Flow
  import opened Filtering
  import opened FilterHistory

  // ---------- What becomes of a batch ----------

  /** Which way a batch goes, with the clock, and the observed source, read at each of its packets. */
  datatype Way = Outward(clock: nat -> int) | Inward(clock: nat -> int, obs: nat -> Addr) {
    function At(i: nat, p: Packet): (r: Input)
      ensures !r.Reload? && r.p == p
    {
      if Outward? then Out(p, clock(i)) else In(p, obs(i), clock(i))
    }
  }

  datatype Evicted = Evicted(flows: set<FlowKey>, conns: set<FlowKey>)

  datatype Outcome = Outcome(s: State, kept: seq<seq<byte>>, refused: seq<seq<byte>>)

  predicate PassesAs(s: State, b: seq<byte>, w: Way, i: nat) {
    Parse(b).Some? && Passes(s, w.At(i, Parse(b).value))
  }

  /** What one packet does to the memories; bytes that are not an IPv4 packet do nothing. */
  function AfterPacket(s: State, b: seq<byte>, w: Way, i: nat, ev: Evicted): State {
    if Parse(b).None? then s else After(s, Move(w.At(i, Parse(b).value), ev.flows, ev.conns))
  }

  predicate LegalPacket(s: State, b: seq<byte>, w: Way, i: nat, ev: Evicted) {
    Parse(b).Some? ==> LegalMove(s, Move(w.At(i, Parse(b).value), ev.flows, ev.conns))
  }

  /** The outcome of a batch: each packet is judged in the state its predecessors left, and clamped if it passes. */
  function Batch(s: State, pkts: seq<seq<byte>>, w: Way, ev: seq<Evicted>, max: u16): Outcome
    requires |ev| == |pkts|
  {
    if pkts == [] then Outcome(s, [], []) else
    var n := |pkts| - 1;
    var o := Batch(s, pkts[..n], w, ev[..n], max);
    Add(o, pkts[n], w, n, ev[n], max)
  }

  function Add(o: Outcome, b: seq<byte>, w: Way, i: nat, ev: Evicted, max: u16): Outcome {
    var s := AfterPacket(o.s, b, w, i, ev);
    if PassesAs(o.s, b, w, i) then Outcome(s, o.kept + [Clamped(b, max)], o.refused)
    else Outcome(s, o.kept, o.refused + [b])
  }

  /** Every entry a batch threw out of a memory is one sweep may have picked. */
  predicate LegalBatch(s: State, pkts: seq<seq<byte>>, w: Way, ev: seq<Evicted>, max: u16)
    requires |ev| == |pkts|
  {
    pkts == [] ||
    var n := |pkts| - 1;
    LegalBatch(s, pkts[..n], w, ev[..n], max) && LegalPacket(Batch(s, pkts[..n], w, ev[..n], max).s, pkts[n], w, n, ev[n])
  }

  lemma AddMeaning(o: Outcome, b: seq<byte>, w: Way, i: nat, ev: Evicted, max: u16)
    ensures var a, passes := Add(o, b, w, i, ev, max), PassesAs(o.s, b, w, i);
            && a.s == AfterPacket(o.s, b, w, i, ev)
            && a.kept == (if passes then o.kept + [Clamped(b, max)] else o.kept)
            && a.refused == (if passes then o.refused else o.refused + [b])
  {
  }

  /** A batch half way is still half way when a packet not kept is behind it. */
  lemma CompactingOn(bufs: seq<array<byte>>, sizes: array<nat>, offset: nat,
                     kept: seq<seq<byte>>, pkts: seq<seq<byte>>, i: nat)
    requires i < |pkts| && Compacting(bufs, sizes, offset, kept, pkts, i)
    ensures Compacting(bufs, sizes, offset, kept, pkts, i + 1)
  {
  }

  lemma BatchSnoc(s: State, pkts: seq<seq<byte>>, b: seq<byte>, w: Way, ev: seq<Evicted>, e: Evicted, max: u16)
    requires |ev| == |pkts|
    ensures Batch(s, pkts + [b], w, ev + [e], max) == Add(Batch(s, pkts, w, ev, max), b, w, |pkts|, e, max)
    ensures LegalBatch(s, pkts + [b], w, ev + [e], max) <==>
            LegalBatch(s, pkts, w, ev, max) && LegalPacket(Batch(s, pkts, w, ev, max).s, b, w, |pkts|, e)
  {
    assert (pkts + [b])[..|pkts|] == pkts && (ev + [e])[..|ev|] == ev;
  }

  /** o is what becomes of these packets, with these entries thrown out on the way. */
  ghost predicate Went(s: State, pkts: seq<seq<byte>>, w: Way, ev: seq<Evicted>, max: u16, o: Outcome) {
    |ev| == |pkts| && LegalBatch(s, pkts, w, ev, max) && o == Batch(s, pkts, w, ev, max)
  }

  lemma WentOn(s: State, pkts: seq<seq<byte>>, b: seq<byte>, w: Way, ev: seq<Evicted>, e: Evicted, max: u16, o: Outcome)
    requires Went(s, pkts, w, ev, max, o) && LegalPacket(o.s, b, w, |pkts|, e)
    ensures Went(s, pkts + [b], w, ev + [e], max, Add(o, b, w, |pkts|, e, max))
  {
    BatchSnoc(s, pkts, b, w, ev, e, max);
  }

  /** The state in which packet i of a batch is judged. */
  function StateAt(s: State, pkts: seq<seq<byte>>, w: Way, ev: seq<Evicted>, max: u16, i: nat): State
    requires |ev| == |pkts| && i <= |pkts|
  {
    Batch(s, pkts[..i], w, ev[..i], max).s
  }

  predicate PassesAt(s: State, pkts: seq<seq<byte>>, w: Way, ev: seq<Evicted>, max: u16, i: nat)
    requires |ev| == |pkts| && i < |pkts|
  {
    PassesAs(StateAt(s, pkts, w, ev, max, i), pkts[i], w, i)
  }

  lemma PassesAtPrefix(s: State, pkts: seq<seq<byte>>, w: Way, ev: seq<Evicted>, max: u16, i: nat)
    requires |ev| == |pkts| && i + 1 < |pkts|
    ensures PassesAt(s, pkts[..|pkts| - 1], w, ev[..|pkts| - 1], max, i) == PassesAt(s, pkts, w, ev, max, i)
  {
    var n := |pkts| - 1;
    assert pkts[..n][..i] == pkts[..i] && ev[..n][..i] == ev[..i];
  }

  /** kept is pkts at the increasing indices in at, each clamped. */
  predicate Selects(kept: seq<seq<byte>>, pkts: seq<seq<byte>>, at: seq<nat>, max: u16) {
    && |at| == |kept|
    && (forall j, k :: 0 <= j < k < |at| ==> at[j] < at[k])
    && forall j :: 0 <= j < |at| ==> at[j] < |pkts| && kept[j] == Clamped(pkts[at[j]], max)
  }

  lemma SelectsMore(kept: seq<seq<byte>>, pkts: seq<seq<byte>>, at: seq<nat>, max: u16, b: seq<byte>)
    requires Selects(kept, pkts, at, max)
    ensures Selects(kept, pkts + [b], at, max)
    ensures Selects(kept + [Clamped(b, max)], pkts + [b], at + [|pkts|], max)
  {
  }

  /** The packets kept are exactly those that pass when their turn comes, clamped, in their own order. */
  lemma {:induction false} KeptAreThoseThatPass(s: State, pkts: seq<seq<byte>>, w: Way, ev: seq<Evicted>, max: u16)
    returns (at: seq<nat>)
    requires |ev| == |pkts|
    ensures Selects(Batch(s, pkts, w, ev, max).kept, pkts, at, max)
    ensures forall i :: 0 <= i < |pkts| ==> (i in at <==> PassesAt(s, pkts, w, ev, max, i))
  {
    at := [];
    if pkts != [] {
      var n := |pkts| - 1;
      at := KeptAreThoseThatPass(s, pkts[..n], w, ev[..n], max);
      var before := at;
      SelectsMore(Batch(s, pkts[..n], w, ev[..n], max).kept, pkts[..n], at, max, pkts[n]);
      assert pkts[..n] + [pkts[n]] == pkts;
      if PassesAt(s, pkts, w, ev, max, n) { at := at + [n]; }
      forall i | 0 <= i < n ensures i in at <==> PassesAt(s, pkts, w, ev, max, i) {
        PassesAtPrefix(s, pkts, w, ev, max, i);
        assert i in at <==> i in before;
      }
      assert n !in before;
    }
  }

  lemma ConcatAssociates<T>(a: seq<T>, b: seq<T>, c: seq<T>)
    ensures a + (b + c) == (a + b) + c
  {
  }

  /** The move of one packet; what is no IPv4 packet makes none. */
  function MoveOf(b: seq<byte>, w: Way, i: nat, ev: Evicted): seq<Move> {
    if Parse(b).None? then [] else [Move(w.At(i, Parse(b).value), ev.flows, ev.conns)]
  }

  function Moves(pkts: seq<seq<byte>>, w: Way, ev: seq<Evicted>): seq<Move>
    requires |ev| == |pkts|
  {
    if pkts == [] then [] else
    var n := |pkts| - 1;
    Moves(pkts[..n], w, ev[..n]) + MoveOf(pkts[n], w, n, ev[n])
  }

  lemma PacketContinuesRun(r0: Rules, h: seq<Move>, b: seq<byte>, w: Way, i: nat, ev: Evicted)
    requires LegalRun(r0, h) && LegalPacket(Run(r0, h), b, w, i, ev)
    ensures LegalRun(r0, h + MoveOf(b, w, i, ev))
    ensures Run(r0, h + MoveOf(b, w, i, ev)) == AfterPacket(Run(r0, h), b, w, i, ev)
  {
    assert h + [] == h;
    if m: Move :| MoveOf(b, w, i, ev) == [m] { assert (h + [m])[..|h|] == h; }
  }

  /** A batch continues the run that led to it, so what is proved of runs holds of every packet of every batch. */
  lemma {:induction false} BatchContinuesRun(r0: Rules, h: seq<Move>, pkts: seq<seq<byte>>, w: Way, ev: seq<Evicted>, max: u16)
    requires |ev| == |pkts| && LegalRun(r0, h) && LegalBatch(Run(r0, h), pkts, w, ev, max)
    ensures LegalRun(r0, h + Moves(pkts, w, ev))
    ensures Run(r0, h + Moves(pkts, w, ev)) == Batch(Run(r0, h), pkts, w, ev, max).s
  {
    if pkts == [] {
      assert h + [] == h;
    } else {
      var n := |pkts| - 1;
      BatchContinuesRun(r0, h, pkts[..n], w, ev[..n], max);
      var more := h + Moves(pkts[..n], w, ev[..n]);
      PacketContinuesRun(r0, more, pkts[n], w, n, ev[n]);
      ConcatAssociates(h, Moves(pkts[..n], w, ev[..n]), MoveOf(pkts[n], w, n, ev[n]));
    }
  }

  lemma {:induction false} RunsForwardLater(h: seq<Move>, t: int, t': int)
    requires RunsForward(h, t) && t <= t'
    ensures RunsForward(h, t')
  {
    if h != [] { assert h[|h| - 1].i.now <= t'; }
  }

  /** The clock read at the first n packets does not go back, starts no earlier than start and ends no later than end. */
  predicate ClockForward(w: Way, n: nat, start: int, end: int) {
    && start <= end && (forall i :: 0 <= i < n ==> start <= w.clock(i) <= end)
    && forall i, j :: 0 <= i < j < n ==> w.clock(i) <= w.clock(j)
  }

  lemma MoveRunsForward(h: seq<Move>, b: seq<byte>, w: Way, i: nat, ev: Evicted, end: int)
    requires RunsForward(h, w.clock(i)) && w.clock(i) <= end
    ensures RunsForward(h + MoveOf(b, w, i, ev), end)
  {
    RunsForwardLater(h, w.clock(i), end);
    assert h + [] == h;
    if m: Move :| MoveOf(b, w, i, ev) == [m] { assert (h + [m])[..|h|] == h; }
  }

  /** A batch whose clock does not go back continues a run that runs forward as one that does. */
  lemma {:induction false} BatchRunsForward(h: seq<Move>, pkts: seq<seq<byte>>, w: Way, ev: seq<Evicted>, start: int, end: int)
    requires |ev| == |pkts| && RunsForward(h, start) && ClockForward(w, |pkts|, start, end)
    ensures RunsForward(h + Moves(pkts, w, ev), end)
  {
    if pkts == [] {
      assert h + [] == h;
      RunsForwardLater(h, start, end);
    } else {
      var n := |pkts| - 1;
      BatchRunsForward(h, pkts[..n], w, ev[..n], start, w.clock(n));
      MoveRunsForward(h + Moves(pkts[..n], w, ev[..n]), pkts[n], w, n, ev[n], end);
      ConcatAssociates(h, Moves(pkts[..n], w, ev[..n]), MoveOf(pkts[n], w, n, ev[n]));
    }
  }

  /** What the applications are told about refused packets: nothing about one too short to have a header. */
  function Refusals(refused: seq<seq<byte>>): seq<seq<byte>> {
    if refused == [] then [] else
    var n := |refused| - 1;
    Refusals(refused[..n]) + if |refused[n]| < 20 then [] else [Rejection(refused[n])]
  }

  lemma RefusalsSnoc(refused: seq<seq<byte>>, b: seq<byte>)
    ensures Refusals(refused + [b]) == Refusals(refused) + if |b| < 20 then [] else [Rejection(b)]
  {
    assert (refused + [b])[..|refused|] == refused;
  }

  /** What a buffer carries after its headroom. */
  function Payload(b: seq<byte>, offset: nat): seq<byte> { if |b| <= offset then [] else b[offset..] }

  function Payloads(bufs: seq<array<byte>>, offset: nat): (r: seq<seq<byte>>)
    reads bufs
    ensures |r| == |bufs| && forall j :: 0 <= j < |r| ==> r[j] == Payload(bufs[j][..], offset)
  {
    if bufs == [] then [] else Payloads(bufs[..|bufs| - 1], offset) + [Payload(bufs[|bufs| - 1][..], offset)]
  }

  // ---------- The code ----------

  /** The TUN device: what has been handed to the applications so far. */
  class Tun {
    var toApps: seq<seq<byte>>

    constructor ()
      ensures toApps == []
    {
      toApps := [];
    }

    method Put(b: array<byte>, offset: nat)
      requires offset <= b.Length
      modifies this
      ensures toApps == old(toApps) + [b[offset..]]
    {
      toApps := toApps + [b[offset..]];
    }
  }

  predicate Holds(b: array<byte>, offset: nat, size: nat, p: seq<byte>)
    reads b
  {
    offset + size <= b.Length && b[offset..offset + size] == p
  }

  /** A batch being compacted: the kept packets first, then from index i on the packets not yet looked at. */
  predicate Compacting(bufs: seq<array<byte>>, sizes: array<nat>, offset: nat,
                       kept: seq<seq<byte>>, pkts: seq<seq<byte>>, i: nat)
    reads bufs, sizes
  {
    && |kept| <= i <= |pkts| == |bufs| == sizes.Length
    && (forall j :: 0 <= j < |kept| ==> Holds(bufs[j], offset, sizes[j], kept[j]))
    && (forall j :: i <= j < |pkts| ==> Holds(bufs[j], offset, sizes[j], pkts[j]))
  }

  /** Every buffer has room, after the headroom, for every packet of the batch. */
  ghost predicate Roomy(bufs: seq<array<byte>>, offset: nat, pkts: seq<seq<byte>>) {
    exists room: nat :: EachFits(pkts, room) && EachHolds(bufs, offset + room)
  }

  predicate EachFits(pkts: seq<seq<byte>>, room: nat) { forall i :: 0 <= i < |pkts| ==> |pkts[i]| <= room }

  predicate EachHolds(bufs: seq<array<byte>>, n: nat) { forall j :: 0 <= j < |bufs| ==> n <= bufs[j].Length }

  predicate Distinct(bufs: seq<array<byte>>) {
    forall i, j :: 0 <= i < j < |bufs| ==> bufs[i] != bufs[j]
  }

  class Filter {
    const device: Tun
    var rules: Rules
    const flows: Flows
    const conns: Flows
    const maxMSS: u16
    var clamped: nat
    var told: bool

    predicate Valid() {
      flows != conns && flows.P() == LOG && conns.P() == CONNS
    }

    function S(): State
      reads `rules, flows`seen, conns`seen
    {
      State(rules, flows.seen, conns.seen)
    }

    constructor (device: Tun, rules: Rules, maxMSS: u16)
      ensures Valid() && fresh(flows) && fresh(conns) && S() == State(rules, map[], map[])
      ensures this.device == device && this.maxMSS == maxMSS && clamped == 0 && !told
    {
      this.device, this.rules, this.maxMSS := device, rules, maxMSS;
      clamped, told := 0, false;
      var log := new Flows(LOG);
      var open := new Flows(CONNS);
      flows, conns := log, open;
    }

    /** The end of allowOut and of allowIn: what the memories say, and what they are told. */
    method Settle(i: Input, d: Decision) returns (ok: bool, ghost ev: Evicted)
      requires Valid() && !i.Reload? && d == Judge(rules, i)
      modifies flows, conns
      ensures ok == Passes(old(S()), i)
      ensures LegalMove(old(S()), Move(i, ev.flows, ev.conns)) && S() == After(old(S()), Move(i, ev.flows, ev.conns))
    {
      ghost var s := S();
      var k := KeyOf(i.p);
      ev := Evicted({}, {});
      if !d.Allow? {
        ok := conns.IsReply(k, i.now);
        if ok { return; }
      }
      var first, evFlows := flows.First(k, i.now);
      ev := Evicted(evFlows, {});
      ok := d.Allow?;
      if first && d.Allow? {
        var evConns := conns.Allow(k, i.now);
        ev := Evicted(evFlows, evConns);
      }
    }

    /** allowOut. */
    method AllowOut(b: seq<byte>, w: Way, i: nat) returns (ok: bool, ghost ev: Evicted)
      requires Valid() && w.Outward?
      modifies flows, conns
      ensures ok == PassesAs(old(S()), b, w, i)
      ensures LegalPacket(old(S()), b, w, i, ev) && S() == AfterPacket(old(S()), b, w, i, ev)
    {
      ok, ev := false, Evicted({}, {});
      var p := Parse(b);
      if p.None? { return; }
      var d := if p.value.HasPorts() then rules.Outbound(p.value.dst, p.value.dstPort) else rules.OutboundICMP(p.value.dst);
      ok, ev := Settle(w.At(i, p.value), d);
    }

    /** allowIn; the source is looked up only if some rule it may meet asks for it. */
    method AllowIn(b: seq<byte>, w: Way, i: nat) returns (ok: bool, ghost ev: Evicted)
      requires Valid() && w.Inward?
      modifies flows, conns
      ensures ok == PassesAs(old(S()), b, w, i)
      ensures LegalPacket(old(S()), b, w, i, ev) && S() == AfterPacket(old(S()), b, w, i, ev)
    {
      ok, ev := false, Evicted({}, {});
      var p := Parse(b);
      if p.None? { return; }
      var from, d := NoAddr, Decision.Allow;
      if p.value.HasPorts() {
        if rules.NeedsSource(p.value.dstPort) { from := w.obs(i); }
        d := rules.Inbound(p.value.src, p.value.dstPort, from, w.clock(i));
      } else {
        if rules.needSourceICMP { from := w.obs(i); }
        d := rules.InboundICMP(p.value.src, from, w.clock(i));
      }
      ok, ev := Settle(w.At(i, p.value), d);
    }

    /** clamp: it counts the packets it cuts, and remembers having told of the first. */
    method Clamp(a: array<byte>, lo: nat, n: nat)
      requires lo + n <= a.Length
      modifies a, `clamped, `told
      ensures Only(a, lo, n, Clamped(old(a[lo..lo + n]), maxMSS))
      ensures clamped == old(clamped) + if Cuts(old(a[lo..lo + n]), maxMSS) then 1 else 0
      ensures told <==> old(told) || Cuts(old(a[lo..lo + n]), maxMSS)
    {
      var cut := ClampMSS(a, lo, n, maxMSS);
      if !cut { return; }
      clamped := clamped + 1;
      told := true;
    }

    /** reject. */
    method Reject(b: seq<byte>)
      modifies device
      ensures device.toApps == old(device.toApps) + Refusals([b])
    {
      RefusalsSnoc([], b);
      assert [] + [b] == [b];
      var icmp := RejectICMP(b);
      if icmp == null { return; }
      var buf := new byte[16 + icmp.Length](_ => 0);
      CopyInto(buf, 16, icmp[..]);
      assert buf[16..] == icmp[..];
      device.Put(buf, 16);
    }

    /** Moving a packet forward over refused ones, in a batch being compacted. */
    method Compact(bufs: seq<array<byte>>, sizes: array<nat>, offset: nat, kept: nat, i: nat)
      requires kept <= i < |bufs| && i < sizes.Length && Distinct(bufs)
      requires offset + sizes[i] <= bufs[i].Length && offset + sizes[i] <= bufs[kept].Length
      modifies bufs[kept], sizes
      ensures forall j :: 0 <= j < sizes.Length && j != kept ==> sizes[j] == old(sizes[j])
      ensures Holds(bufs[kept], offset, sizes[kept], old(bufs[i][offset..offset + sizes[i]]))
    {
      if kept != i {
        assert bufs[kept] != bufs[i];
        CopyInto(bufs[kept], offset, bufs[i][offset..offset + sizes[i]]);
        sizes[kept] := sizes[i];
      }
    }

    /** The packet at i, where it lies, is moved behind the ones kept before it. */
    method Advance(bufs: seq<array<byte>>, sizes: array<nat>, offset: nat, i: nat,
                   ghost kept: seq<seq<byte>>, ghost pkts: seq<seq<byte>>, k: nat)
      requires Distinct(bufs) && i < |pkts| && k == |kept|
      requires Compacting(bufs, sizes, offset, kept, pkts, i) && offset + |pkts[i]| <= bufs[k].Length
      modifies sizes, bufs
      ensures Compacting(bufs, sizes, offset, kept + [pkts[i]], pkts, i + 1)
    {
      assert Holds(bufs[i], offset, sizes[i], pkts[i]);
      Compact(bufs, sizes, offset, k, i);
      assert forall j :: 0 <= j < k ==> bufs[j] != bufs[k] && Holds(bufs[j], offset, sizes[j], kept[j]);
      assert forall j :: i < j < |pkts| ==> bufs[j] != bufs[k] && Holds(bufs[j], offset, sizes[j], pkts[j]);
    }

    /** A packet is clamped where it lies. */
    method ClampHeld(b: array<byte>, offset: nat, size: nat, ghost p: seq<byte>)
      requires Holds(b, offset, size, p)
      modifies `clamped, `told, b
      ensures Holds(b, offset, size, Clamped(p, maxMSS))
    {
      ClampedFrame(p, maxMSS);
      hide Clamped, Cuts;
      Clamp(b, offset, size);
    }

    /** The packet at i of a batch being compacted is clamped where it lies. */
    method ClampAt(bufs: seq<array<byte>>, sizes: array<nat>, offset: nat, i: nat,
                   ghost kept: seq<seq<byte>>, ghost pkts: seq<seq<byte>>)
      requires Distinct(bufs) && i < |pkts| && Compacting(bufs, sizes, offset, kept, pkts, i)
      modifies `clamped, `told, bufs
      ensures Compacting(bufs, sizes, offset, kept, pkts[i := Clamped(pkts[i], maxMSS)], i)
    {
      hide Clamped, Holds;
      ClampHeld(bufs[i], offset, sizes[i], pkts[i]);
      assert forall j :: 0 <= j < |kept| ==> bufs[j] != bufs[i] && Holds(bufs[j], offset, sizes[j], kept[j]);
      assert forall j :: i < j < |pkts| ==> bufs[j] != bufs[i] && Holds(bufs[j], offset, sizes[j], pkts[j]);
    }

    /** A packet that passes is clamped and moved behind the ones kept before it. */
    method Keep(bufs: seq<array<byte>>, sizes: array<nat>, offset: nat, i: nat,
                ghost kept: seq<seq<byte>>, ghost pkts: seq<seq<byte>>, k: nat)
      requires Distinct(bufs) && i < |pkts| && k == |kept|
      requires Compacting(bufs, sizes, offset, kept, pkts, i) && Roomy(bufs, offset, pkts)
      modifies `clamped, `told, sizes, bufs
      ensures Compacting(bufs, sizes, offset, kept + [Clamped(pkts[i], maxMSS)], pkts, i + 1)
    {
      ClampedFrame(pkts[i], maxMSS);
      ghost var room: nat :| EachFits(pkts, room) && EachHolds(bufs, offset + room);
      assert |pkts[i]| <= room && offset + room <= bufs[k].Length;
      ClampAt(bufs, sizes, offset, i, kept, pkts);
      Advance(bufs, sizes, offset, i, kept, pkts[i := Clamped(pkts[i], maxMSS)], k);
    }

    /** The application that sent a refused packet is told, if the packet has a header to quote. */
    method Refuse(b: seq<byte>, ghost told: seq<seq<byte>>, ghost refused: seq<seq<byte>>)
      requires device.toApps == told + Refusals(refused)
      modifies device
      ensures device.toApps == told + Refusals(refused + [b])
    {
      RefusalsSnoc(refused, b);
      RefusalsSnoc([], b);
      assert [] + [b] == [b];
      Reject(b);
    }

    /** A packet that passes is kept; the application that sent one that does not is told. */
    method KeepOrRefuse(bufs: seq<array<byte>>, sizes: array<nat>, offset: nat, i: nat, kept: nat, ok: bool, b: seq<byte>,
                        ghost keep: seq<seq<byte>>, ghost refused: seq<seq<byte>>, ghost pkts: seq<seq<byte>>,
                        ghost told: seq<seq<byte>>)
      returns (kept': nat)
      requires Distinct(bufs) && i < |pkts| && |pkts| == |bufs| && b == pkts[i] && kept == |keep|
      requires device.toApps == told + Refusals(refused)
      requires Compacting(bufs, sizes, offset, keep, pkts, i) && Roomy(bufs, offset, pkts)
      modifies device, `clamped, `told, sizes, bufs
      ensures kept' == kept + if ok then 1 else 0
      ensures device.toApps == told + Refusals(if ok then refused else refused + [b])
      ensures Compacting(bufs, sizes, offset, if ok then keep + [Clamped(b, maxMSS)] else keep, pkts, i + 1)
    {
      hide Compacting, Roomy, Distinct, Clamped, Refusals;
      kept' := kept;
      if ok {
        Keep(bufs, sizes, offset, i, keep, pkts, kept);
        kept' := kept + 1;
      } else {
        Refuse(b, told, refused);
        CompactingOn(bufs, sizes, offset, keep, pkts, i);
      }
    }

    /** The body of the loop of Read. */
    method ReadOne(bufs: seq<array<byte>>, sizes: array<nat>, offset: nat, w: Way, i: nat, kept: nat,
                   ghost o: Outcome, ghost pkts: seq<seq<byte>>, ghost told: seq<seq<byte>>)
      returns (kept': nat, ghost ev: Evicted)
      requires Valid() && w.Outward? && Distinct(bufs) && i < |pkts| && |pkts| == |bufs|
      requires S() == o.s && kept == |o.kept| && device.toApps == told + Refusals(o.refused)
      requires Compacting(bufs, sizes, offset, o.kept, pkts, i) && Roomy(bufs, offset, pkts)
      modifies flows, conns, device, `clamped, `told, sizes, bufs
      ensures LegalPacket(o.s, pkts[i], w, i, ev)
      ensures var o' := Add(o, pkts[i], w, i, ev, maxMSS);
              && S() == o'.s && kept' == |o'.kept| && device.toApps == told + Refusals(o'.refused)
              && Compacting(bufs, sizes, offset, o'.kept, pkts, i + 1)
    {
      assert Holds(bufs[i], offset, sizes[i], pkts[i]);
      var b := bufs[i][offset..offset + sizes[i]];
      hide Compacting, Roomy, Distinct, AfterPacket, LegalPacket, PassesAs, Add, Refusals;
      var ok, e := AllowOut(b, w, i);
      ev := e;
      kept' := KeepOrRefuse(bufs, sizes, offset, i, kept, ok, b, o.kept, o.refused, pkts, told);
      AddMeaning(o, pkts[i], w, i, e, maxMSS);
    }

    /** Where the loop of Read stands before packet i. */
    ghost predicate Reading(s: State, bufs: seq<array<byte>>, sizes: array<nat>, offset: nat, w: Way, i: nat, kept: nat,
                            ev: seq<Evicted>, o: Outcome, pkts: seq<seq<byte>>, told: seq<seq<byte>>)
      reads `rules, flows`seen, conns`seen, device, bufs, sizes
    {
      && i <= |pkts| && Went(s, pkts[..i], w, ev, maxMSS, o)
      && S() == o.s && kept == |o.kept| && device.toApps == told + Refusals(o.refused)
      && Compacting(bufs, sizes, offset, o.kept, pkts, i)
    }

    method ReadNext(ghost s: State, bufs: seq<array<byte>>, sizes: array<nat>, offset: nat, w: Way, i: nat, kept: nat,
                    ghost ev: seq<Evicted>, ghost o: Outcome, ghost pkts: seq<seq<byte>>, ghost told: seq<seq<byte>>)
      returns (kept': nat, ghost ev': seq<Evicted>, ghost o': Outcome)
      requires Valid() && w.Outward? && Distinct(bufs) && i < |pkts| && |pkts| == |bufs| && Roomy(bufs, offset, pkts)
      requires Reading(s, bufs, sizes, offset, w, i, kept, ev, o, pkts, told)
      modifies flows, conns, device, `clamped, `told, sizes, bufs
      ensures Reading(s, bufs, sizes, offset, w, i + 1, kept', ev', o', pkts, told)
    {
      hide Went, Add, LegalPacket, Compacting, Roomy, Distinct, Refusals;
      ghost var e;
      kept', e := ReadOne(bufs, sizes, offset, w, i, kept, o, pkts, told);
      WentOn(s, pkts[..i], pkts[i], w, ev, e, maxMSS, o);
      assert pkts[..i] + [pkts[i]] == pkts[..i + 1];
      ev', o' := ev + [e], Add(o, pkts[i], w, i, e, maxMSS);
    }

    /**
     * Read, on the batch of packets the device delivered: they are judged in order, the ones that pass are
     * clamped and moved to the front, and the applications are told of the others.
     */
    method Read(bufs: seq<array<byte>>, sizes: array<nat>, offset: nat, w: Way, ghost pkts: seq<seq<byte>>)
      returns (kept: nat, ghost ev: seq<Evicted>, ghost o: Outcome)
      requires Valid() && w.Outward? && Distinct(bufs) && |pkts| == |bufs|
      requires Compacting(bufs, sizes, offset, [], pkts, 0) && Roomy(bufs, offset, pkts)
      modifies flows, conns, device, `clamped, `told, sizes, bufs
      ensures Went(old(S()), pkts, w, ev, maxMSS, o)
      ensures S() == o.s && kept == |o.kept| && device.toApps == old(device.toApps) + Refusals(o.refused)
      ensures Compacting(bufs, sizes, offset, o.kept, pkts, |pkts|)
    {
      kept, ev, o := 0, [], Outcome(S(), [], []);
      var i := 0;
      while i < sizes.Length
        invariant i <= sizes.Length
        invariant Reading(old(S()), bufs, sizes, offset, w, i, kept, ev, o, pkts, old(device.toApps))
      {
        kept, ev, o := ReadNext(old(S()), bufs, sizes, offset, w, i, kept, ev, o, pkts, old(device.toApps));
        i := i + 1;
      }
      assert pkts[..i] == pkts;
    }

    /** One packet of a batch that wg decrypted; a buffer with nothing after the offset is passed over. */
    method WriteOne(b: array<byte>, offset: nat, w: Way, i: nat, ghost o: Outcome) returns (ok: bool, ghost ev: Evicted)
      requires Valid() && w.Inward? && S() == o.s
      modifies flows, conns, `clamped, `told, b
      ensures LegalPacket(o.s, Payload(old(b[..]), offset), w, i, ev)
      ensures ok == PassesAs(o.s, Payload(old(b[..]), offset), w, i)
      ensures S() == AfterPacket(o.s, Payload(old(b[..]), offset), w, i, ev)
      ensures ok ==> offset <= b.Length && b[offset..] == Clamped(Payload(old(b[..]), offset), maxMSS)
    {
      ok, ev := false, Evicted({}, {});
      if b.Length <= offset { return; }
      var n := b.Length - offset;
      ghost var p := b[offset..offset + n];
      assert p == Payload(b[..], offset);
      ok, ev := AllowIn(b[offset..offset + n], w, i);
      if ok {
        Clamp(b, offset, n);
        assert b[offset..] == b[offset..offset + n];
      }
    }

    /** Handing the packets that passed to the TUN device, which writes each to the applications. */
    method PutAll(keep: seq<array<byte>>, offset: nat, ghost kept: seq<seq<byte>>)
      requires |keep| == |kept|
      requires forall j :: 0 <= j < |keep| ==> offset <= keep[j].Length && keep[j][offset..] == kept[j]
      modifies device
      ensures device.toApps == old(device.toApps) + kept
    {
      for i := 0 to |keep|
        invariant device.toApps == old(device.toApps) + kept[..i]
      {
        device.Put(keep[i], offset);
        assert kept[..i + 1] == kept[..i] + [keep[i][offset..]];
      }
      assert kept[..|keep|] == kept;
    }

    /** Where the loop of Write stands before buffer i. */
    ghost predicate Writing(s: State, bufs: seq<array<byte>>, offset: nat, w: Way, i: nat, keep: seq<array<byte>>,
                            ev: seq<Evicted>, o: Outcome, pkts: seq<seq<byte>>)
      reads `rules, flows`seen, conns`seen, bufs, keep
    {
      && i <= |pkts| == |bufs| && Went(s, pkts[..i], w, ev, maxMSS, o) && S() == o.s && |keep| == |o.kept|
      && (forall j :: 0 <= j < |keep| ==> offset <= keep[j].Length && keep[j][offset..] == o.kept[j])
      && (forall j :: i <= j < |bufs| ==> bufs[j] !in keep && pkts[j] == Payload(bufs[j][..], offset))
    }

    method WriteNext(ghost s: State, bufs: seq<array<byte>>, offset: nat, w: Way, i: nat, keep: seq<array<byte>>,
                     ghost ev: seq<Evicted>, ghost o: Outcome, ghost pkts: seq<seq<byte>>)
      returns (keep': seq<array<byte>>, ghost ev': seq<Evicted>, ghost o': Outcome)
      requires Valid() && w.Inward? && Distinct(bufs) && i < |bufs| && Writing(s, bufs, offset, w, i, keep, ev, o, pkts)
      modifies flows, conns, `clamped, `told, bufs[i]
      ensures keep' == keep || keep' == keep + [bufs[i]]
      ensures Writing(s, bufs, offset, w, i + 1, keep', ev', o', pkts)
    {
      hide Went, AfterPacket, LegalPacket, PassesAs, Clamped;
      assert bufs[i] !in keep && forall j :: i < j < |bufs| ==> bufs[j] != bufs[i];
      var ok, e := WriteOne(bufs[i], offset, w, i, o);
      WentOn(s, pkts[..i], pkts[i], w, ev, e, maxMSS, o);
      assert pkts[..i] + [pkts[i]] == pkts[..i + 1];
      ev', o' := ev + [e], Add(o, pkts[i], w, i, e, maxMSS);
      keep' := if ok then keep + [bufs[i]] else keep;
    }

    /** Write: the applications get the packets that pass, clamped, in their order, and nothing else. */
    method Write(bufs: seq<array<byte>>, offset: nat, w: Way) returns (n: nat, ghost ev: seq<Evicted>, ghost o: Outcome)
      requires Valid() && w.Inward? && Distinct(bufs)
      modifies flows, conns, device, `clamped, `told, bufs
      ensures Went(old(S()), old(Payloads(bufs, offset)), w, ev, maxMSS, o)
      ensures S() == o.s && n == |o.kept| && device.toApps == old(device.toApps) + o.kept
    {
      ghost var pkts := Payloads(bufs, offset);
      var keep: seq<array<byte>> := [];
      ev, o := [], Outcome(S(), [], []);
      for i := 0 to |bufs|
        invariant Writing(old(S()), bufs, offset, w, i, keep, ev, o, pkts)
        invariant device.toApps == old(device.toApps)
      {
        keep, ev, o := WriteNext(old(S()), bufs, offset, w, i, keep, ev, o, pkts);
      }
      assert pkts[..|bufs|] == pkts;
      n := |keep|;
      if n == 0 {
        assert o.kept == [];
        return;
      }
      PutAll(keep, offset, o.kept);
    }

    /** The part of Device.Reload that touches the filter: new rules, and a memory judged again by them. */
    method Replace(next: Rules, observe: Addr -> Addr, now: int) returns (forgotten: nat)
      requires Valid()
      modifies `rules, conns
      ensures rules == next && S() == After(old(S()), Move(Reload(next, observe, now), {}, {}))
      ensures forgotten == |old(conns.seen)| - |conns.seen|
    {
      rules := next;
      forgotten := conns.Forget(StillAllowed(next, observe, now));
    }
  }
}
