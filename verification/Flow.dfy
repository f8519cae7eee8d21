/** internal/wgdev/flow.go: the memory of connections, with its ageing, its capacity and its revocation. */
module Flow {
  import opened Basics
  import opened Bytes
  import opened Net
  import opened Packet

  const SECOND := 1_000_000_000

  datatype FlowKey = FlowKey(src: Addr, dst: Addr, sport: u16, dport: u16, proto: byte) {
    function Reverse(): FlowKey { FlowKey(dst, src, dport, sport, proto) }
  }

  function KeyOf(p: Packet): FlowKey { FlowKey(p.src, p.dst, p.srcPort, p.dstPort, p.proto) }

  function ConnTTL(proto: byte): int {
    if proto == TCP then 3600 * SECOND else if proto == UDP then 180 * SECOND else 60 * SECOND
  }

  /** allowed says that a packet of this connection was let through; only then are replies let through. */
  datatype FlowState = FlowState(at: int, allowed: bool)

  type Table = map<FlowKey, FlowState>

  datatype Params = Params(ttl: int, max: nat, byProto: bool) {
    function TtlOf(k: FlowKey): int { if byProto then ConnTTL(k.proto) else ttl }
  }

  /** The memory that logs each connection once, and the memory of connections that were let through. */
  const LOG := Params(120 * SECOND, 4096, false)
  const CONNS := Params(3600 * SECOND, 16384, true)

  /** How long, in nanoseconds, and how many connections the two memories remember. */
  lemma Lifetimes(k: FlowKey)
    ensures CONNS.TtlOf(k) ==
            if k.proto == 6 then 3_600_000_000_000 else if k.proto == 17 then 180_000_000_000 else 60_000_000_000
    ensures LOG.TtlOf(k) == 120_000_000_000 && LOG.max == 4096 && CONNS.max == 16384
  {
  }

  /** i goes the opposite way between the same ends. */
  predicate AnswersTo(i: Packet, p: Packet) {
    i.src == p.dst && i.dst == p.src && i.srcPort == p.dstPort && i.dstPort == p.srcPort && i.proto == p.proto
  }

  /** The memory tells packets apart by their addresses, ports and protocol, and knows an answer by swapping the ends. */
  lemma OppositeMeaning(i: Packet, p: Packet)
    ensures KeyOf(i) == KeyOf(p) <==> i == p
    ensures KeyOf(i).Reverse() == KeyOf(p) <==> AnswersTo(i, p)
    ensures KeyOf(i) == KeyOf(p).Reverse() <==> AnswersTo(i, p)
  {
  }

  // ---------- What the operations do to the table ----------

  /** The four operations, each with the clock it reads. */
  datatype Event =
    | First(k: FlowKey, now: int)
    | Allow(k: FlowKey, now: int)
    | IsReply(k: FlowKey, now: int)
    | Forget(keep: FlowKey -> bool)
    | Idle

  predicate Live(p: Params, t: Table, k: FlowKey, now: int) {
    k in t && now - t[k].at < p.TtlOf(k)
  }

  /** What IsReply answers: the opposite direction was let through and has not aged. */
  predicate Answers(p: Params, t: Table, k: FlowKey, now: int) {
    Live(p, t, k.Reverse(), now) && t[k.Reverse()].allowed
  }

  function Unaged(p: Params, t: Table, now: int): Table {
    map k | k in t && now - t[k].at < p.TtlOf(k) :: t[k]
  }

  /** The table after making room for one entry, when the entries in evicted were the ones thrown out. */
  function Room(p: Params, t: Table, now: int, evicted: set<FlowKey>): Table {
    if |t| >= p.max then Unaged(p, t, now) - evicted else t
  }

  /** How many entries sweep throws out when ageing did not make room. */
  function Half(n: nat): nat { if n / 2 == 0 then (if n == 0 then 0 else 1) else n / 2 }

  /** Only a table that is full of entries that have not aged loses some, any half of them. */
  predicate RoomOk(p: Params, t: Table, now: int, evicted: set<FlowKey>) {
    var u := Unaged(p, t, now);
    if |t| >= p.max && |u| >= p.max then evicted <= u.Keys && |evicted| == Half(|u|) else evicted == {}
  }

  predicate NeedsRoom(p: Params, t: Table, e: Event) {
    e.Allow? || (e.First? && !Live(p, t, e.k, e.now))
  }

  /** The entries a step threw out for want of room are ones the code may have picked. */
  predicate EvictOk(p: Params, t: Table, e: Event, evicted: set<FlowKey>) {
    if NeedsRoom(p, t, e) then RoomOk(p, t, e.now, evicted) else evicted == {}
  }

  function Next(p: Params, t: Table, e: Event, evicted: set<FlowKey>): Table {
    match e
    case First(k, now) =>
      if Live(p, t, k, now) then t[k := t[k].(at := now)] else Room(p, t, now, evicted)[k := FlowState(now, false)]
    case Allow(k, now) => Room(p, t, now, evicted)[k := FlowState(now, true)]
    case IsReply(k, now) =>
      if Answers(p, t, k, now) then t[k.Reverse() := t[k.Reverse()].(at := now)] else t
    case Forget(keep) => map k | k in t && (t[k].allowed ==> keep(k)) :: t[k]
    case Idle => t
  }

  /** Whatever entries sweep picks, the table never outgrows its bound. */
  lemma NextBounded(p: Params, t: Table, e: Event, evicted: set<FlowKey>)
    requires p.max >= 1 && |t| <= p.max && EvictOk(p, t, e, evicted)
    ensures |Next(p, t, e, evicted)| <= p.max
  {
    var n := Next(p, t, e, evicted);
    if NeedsRoom(p, t, e) {
      RoomBounded(p, t, e.now, evicted);
    } else if e.Forget? {
      assert n.Keys <= t.Keys;
      SubsetSize(n.Keys, t.Keys);
    } else {
      assert n.Keys == t.Keys;
    }
  }

  lemma RoomBounded(p: Params, t: Table, now: int, evicted: set<FlowKey>)
    requires p.max >= 1 && |t| <= p.max && RoomOk(p, t, now, evicted)
    ensures |Room(p, t, now, evicted)| <= p.max - 1
  {
    var u := Unaged(p, t, now);
    if |t| >= p.max {
      assert u.Keys <= t.Keys;
      SubsetSize(u.Keys, t.Keys);
      assert (u - evicted).Keys == u.Keys - evicted;
    }
  }

  lemma SubsetSize<T>(a: set<T>, b: set<T>)
    requires a <= b
    ensures |a| <= |b|
  {
    assert b == a + (b - a);
  }

  /** No operation but Allow makes an entry one whose replies are let through. */
  lemma OnlyAllowAdmits(p: Params, t: Table, e: Event, evicted: set<FlowKey>, k: FlowKey)
    requires var n := Next(p, t, e, evicted); k in n && n[k].allowed
    ensures (k in t && t[k].allowed) || (e.Allow? && e.k == k)
  {
  }

  // ---------- The code ----------

  class Flows {
    var seen: Table
    const ttl: int
    const max: nat
    const byProto: bool

    function P(): Params { Params(ttl, max, byProto) }

    /** newFlows and newConns. */
    constructor (p: Params)
      ensures seen == map[] && P() == p
    {
      seen := map[];
      ttl, max, byProto := p.ttl, p.max, p.byProto;
    }

    /** The first loop of sweep: entries that have aged are deleted. */
    method DropAged(now: int)
      modifies this
      ensures seen == Unaged(P(), old(seen), now)
    {
      ghost var was := seen;
      var order := RangeOver(seen.Keys);
      ghost var done: set<FlowKey> := {};
      for i := 0 to |order|
        invariant forall j :: 0 <= j < |order| ==> (order[j] in done <==> j < i)
        invariant seen == map k | k in was && (k in done ==> now - was[k].at < P().TtlOf(k)) :: was[k]
      {
        var k := order[i];
        done := done + {k};
        if now - seen[k].at >= P().TtlOf(k) { seen := seen - {k}; }
      }
    }

    /** The second loop of sweep: half of a table that is still full is deleted, in map order. */
    method DropHalf() returns (ghost evicted: set<FlowKey>)
      modifies this
      ensures evicted <= old(seen).Keys && |evicted| == Half(|old(seen)|)
      ensures seen == old(seen) - evicted
    {
      var n: int := |seen| / 2;
      ghost var was := seen;
      var order := RangeOver(seen.Keys);
      evicted := {};
      EnumerationSize(order, was.Keys);
      for i := 0 to |order|
        invariant forall j :: i <= j < |order| ==> order[j] !in evicted
        invariant |evicted| == i && evicted <= was.Keys
        invariant seen == was - evicted
        invariant n == |was| / 2 - i
        invariant i > 0 ==> n > 0
      {
        var k := order[i];
        seen := seen - {k};
        evicted := evicted + {k};
        n := n - 1;
        if n <= 0 { return; }
      }
    }

    /** sweep. */
    method Sweep(now: int) returns (ghost evicted: set<FlowKey>)
      requires |seen| >= max
      modifies this
      ensures RoomOk(P(), old(seen), now, evicted) && seen == Room(P(), old(seen), now, evicted)
    {
      DropAged(now);
      evicted := {};
      if |seen| >= max { evicted := DropHalf(); }
      assert seen - {} == seen;
    }

    /** Whether this connection is seen for the first time; it is remembered from now on. */
    method First(k: FlowKey, now: int) returns (first: bool, ghost evicted: set<FlowKey>)
      modifies this
      ensures seen == Next(P(), old(seen), Event.First(k, now), evicted)
      ensures EvictOk(P(), old(seen), Event.First(k, now), evicted)
      ensures first == !Live(P(), old(seen), k, now)
    {
      evicted := {};
      if k in seen && now - seen[k].at < P().TtlOf(k) {
        seen := seen[k := seen[k].(at := now)];
        return false, evicted;
      }
      if |seen| >= max { evicted := Sweep(now); }
      seen := seen[k := FlowState(now, false)];
      first := true;
    }

    /** This connection was let through. */
    method Allow(k: FlowKey, now: int) returns (ghost evicted: set<FlowKey>)
      modifies this
      ensures seen == Next(P(), old(seen), Event.Allow(k, now), evicted)
      ensures EvictOk(P(), old(seen), Event.Allow(k, now), evicted)
    {
      evicted := {};
      if |seen| >= max { evicted := Sweep(now); }
      seen := seen[k := FlowState(now, true)];
    }

    /** Whether this packet answers a connection that was let through; if so its clock starts again. */
    method IsReply(k: FlowKey, now: int) returns (reply: bool)
      modifies this
      ensures seen == Next(P(), old(seen), Event.IsReply(k, now), {})
      ensures reply == Answers(P(), old(seen), k, now)
      ensures var o := FlowKey(k.dst, k.src, k.dport, k.sport, k.proto);
              && (reply <==> o in old(seen) && old(seen)[o].allowed && now - old(seen)[o].at < P().TtlOf(o))
              && seen == if reply then old(seen)[o := FlowState(now, true)] else old(seen)
    {
      var rev := k.Reverse();
      if rev !in seen || !seen[rev].allowed || now - seen[rev].at >= P().TtlOf(rev) { return false; }
      seen := seen[rev := seen[rev].(at := now)];
      return true;
    }

    /** Forget the connections let through that keep rejects, and say how many those were. */
    method Forget(keep: FlowKey -> bool) returns (n: nat)
      modifies this
      ensures seen == Next(P(), old(seen), Event.Forget(keep), {})
      ensures n == |old(seen)| - |seen|
    {
      ghost var was := seen;
      var order := RangeOver(seen.Keys);
      ghost var done: set<FlowKey> := {};
      n := 0;
      JudgedNone(was, keep);
      hide Judged, Next;
      for i := 0 to |order|
        invariant forall j :: 0 <= j < |order| ==> (order[j] in done <==> j < i)
        invariant seen == Judged(was, done, keep) && n == |was| - |seen|
      {
        var k := order[i];
        assert k !in done && k in was;
        JudgeNext(was, done, k, keep);
        done := done + {k};
        if !seen[k].allowed { continue; }
        if !keep(k) {
          OneLess(seen, k);
          seen := seen - {k};
          n := n + 1;
        }
      }
      assert was.Keys <= done;
      JudgedAll(P(), was, done, keep);
    }
  }

  /** A table of which the entries in done have been put to keep. */
  function Judged(was: Table, done: set<FlowKey>, keep: FlowKey -> bool): Table {
    map k | k in was && (k in done && was[k].allowed ==> keep(k)) :: was[k]
  }

  lemma JudgedNone(was: Table, keep: FlowKey -> bool)
    ensures Judged(was, {}, keep) == was
  {
  }

  lemma JudgedAll(p: Params, was: Table, done: set<FlowKey>, keep: FlowKey -> bool)
    requires was.Keys <= done
    ensures Judged(was, done, keep) == Next(p, was, Event.Forget(keep), {})
  {
  }

  lemma OneLess(t: Table, k: FlowKey)
    requires k in t
    ensures |t - {k}| == |t| - 1
  {
    assert (t - {k}).Keys == t.Keys - {k};
  }

  lemma JudgeNext(was: Table, done: set<FlowKey>, k: FlowKey, keep: FlowKey -> bool)
    requires k in was && k !in done
    ensures k in Judged(was, done, keep) && Judged(was, done, keep)[k] == was[k]
    ensures Judged(was, done + {k}, keep) ==
            if was[k].allowed && !keep(k) then Judged(was, done, keep) - {k} else Judged(was, done, keep)
  {
  }

  lemma {:induction false} EnumerationSize<T(!new)>(order: seq<T>, s: set<T>)
    requires Enumerates(order, s)
    ensures |order| == |s|
    decreases |order|
  {
    if order == [] {
      assert s == {};
    } else {
      var n := |order| - 1;
      assert forall x :: x in s - {order[n]} <==> x in order[..n];
      EnumerationSize(order[..n], s - {order[n]});
    }
  }
}
