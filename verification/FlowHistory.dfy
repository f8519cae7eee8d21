/**
 * When a packet is taken for a reply, told from the history of calls alone: some earlier Allow opened
 * the connection, every touch since came before it aged, and nothing forgot or evicted it.
 */
module FlowHistory {
  import opened Basics
  import opened Flow

  /** One call, and the entries it evicted for want of room. */
  datatype Call = Call(e: Event, evicted: set<FlowKey>)

  function Replay(p: Params, h: seq<Call>): Table {
    if h == [] then map[] else
    var n := |h| - 1;
    Next(p, Replay(p, h[..n]), h[n].e, h[n].evicted)
  }

  /** Every eviction of the history is one sweep may have chosen. */
  predicate Legal(p: Params, h: seq<Call>) {
    h == [] ||
    var n := |h| - 1;
    Legal(p, h[..n]) && EvictOk(p, Replay(p, h[..n]), h[n].e, h[n].evicted)
  }

  predicate Timed(e: Event) { e.First? || e.Allow? || e.IsReply? }

  /** Clocks never go back, and none is past t. */
  predicate Monotone(h: seq<Call>, t: int) {
    h == [] ||
    var n := |h| - 1;
    if Timed(h[n].e) then h[n].e.now <= t && Monotone(h[..n], h[n].e.now) else Monotone(h[..n], t)
  }

  /** The call is about this connection: in its own direction, or as a possible reply to it. */
  predicate Touches(e: Event, key: FlowKey) {
    match e
    case First(k, _) => k == key
    case Allow(k, _) => k == key
    case IsReply(k, _) => k.Reverse() == key
    case _ => false
  }

  function LastTouch(h: seq<Call>, key: FlowKey): Option<int> {
    if h == [] then None else
    var n := |h| - 1;
    if Touches(h[n].e, key) then Some(h[n].e.now) else LastTouch(h[..n], key)
  }

  /** The call forgot the connection, or threw it out for want of room. */
  predicate Drops(c: Call, key: FlowKey) { (c.e.Forget? && !c.e.keep(key)) || key in c.evicted }

  /** At time t the connection had last been touched less than its TTL ago. */
  predicate Fresh(p: Params, h: seq<Call>, key: FlowKey, t: int) {
    match LastTouch(h, key) case None => false case Some(at) => t - at < p.TtlOf(key)
  }

  /** Call j left the connection as open as it found it. */
  predicate Keeps(p: Params, h: seq<Call>, j: nat, key: FlowKey)
    requires j < |h|
  {
    !Drops(h[j], key) && (Touches(h[j].e, key) ==> Fresh(p, h[..j], key, h[j].e.now))
  }

  /** Call i let the connection through, and every call since kept it. */
  ghost predicate OpenSince(p: Params, h: seq<Call>, i: nat, key: FlowKey) {
    && i < |h| && h[i].e.Allow? && h[i].e.k == key
    && forall j :: i < j < |h| ==> Keeps(p, h, j, key)
  }

  lemma OpenSinceSnoc(p: Params, h: seq<Call>, c: Call, i: nat, key: FlowKey)
    requires i < |h|
    ensures OpenSince(p, h + [c], i, key) <==> OpenSince(p, h, i, key) && Keeps(p, h + [c], |h|, key)
  {
    var more := h + [c];
    assert forall j :: 0 <= j < |h| ==> more[j] == h[j] && more[..j] == h[..j];
    if OpenSince(p, more, i, key) {
      forall j | i < j < |h| ensures Keeps(p, h, j, key) {
        assert Keeps(p, more, j, key);
      }
    }
    if OpenSince(p, h, i, key) && Keeps(p, more, |h|, key) {
      forall j | i < j < |more| ensures Keeps(p, more, j, key) {
        if j < |h| { assert Keeps(p, h, j, key); }
      }
    }
  }

  lemma {:induction false} MonotoneLater(h: seq<Call>, t: int, t': int)
    requires Monotone(h, t) && t <= t'
    ensures Monotone(h, t')
  {
    if h != [] && !Timed(h[|h| - 1].e) { MonotoneLater(h[..|h| - 1], t, t'); }
  }

  /** The clock of the last touch is not past the clock of the history. */
  lemma {:induction false} TouchedBefore(h: seq<Call>, key: FlowKey, t: int)
    requires Monotone(h, t) && LastTouch(h, key).Some?
    ensures LastTouch(h, key).value <= t
  {
    var n := |h| - 1;
    if !Touches(h[n].e, key) {
      TouchedBefore(h[..n], key, if Timed(h[n].e) then h[n].e.now else t);
    }
  }

  lemma MonotoneSnoc(h: seq<Call>, c: Call, at: int, t: int)
    requires Monotone(h, at) && at <= t && (Timed(c.e) ==> c.e.now == at)
    ensures Monotone(h + [c], t)
  {
    assert (h + [c])[..|h|] == h;
    MonotoneLater(h, at, t);
  }

  lemma {:induction false} LastTouchIsLater(h: seq<Call>, t: int, j: nat, key: FlowKey)
    requires Monotone(h, t) && j < |h| && Touches(h[j].e, key)
    ensures LastTouch(h, key).Some? && h[j].e.now <= LastTouch(h, key).value <= t
  {
    var n := |h| - 1;
    if j < n {
      LastTouchIsLater(h[..n], if Timed(h[n].e) then h[n].e.now else t, j, key);
    }
  }

  /** What the entry of an open connection looks like. */
  predicate Admits(p: Params, t: Table, key: FlowKey, at: int) { key in t && t[key] == FlowState(at, true) }

  /** A live entry that was let through was opened by some call and kept by every call since. */
  lemma {:induction false} LiveWasOpened(p: Params, h: seq<Call>, key: FlowKey, t: int) returns (i: nat)
    requires Legal(p, h) && Monotone(h, t)
    requires Live(p, Replay(p, h), key, t) && Replay(p, h)[key].allowed
    ensures OpenSince(p, h, i, key)
    ensures LastTouch(h, key) == Some(Replay(p, h)[key].at)
  {
    var n := |h| - 1;
    var e, before := h[n].e, h[..n];
    assert h == before + [h[n]];
    if e.Allow? && e.k == key {
      i := n;
    } else if Touches(e, key) {
      i := LiveWasOpened(p, before, key, e.now);
      OpenSinceSnoc(p, before, h[n], i, key);
    } else {
      if Timed(e) { MonotoneLater(before, e.now, t); }
      i := LiveWasOpened(p, before, key, t);
      OpenSinceSnoc(p, before, h[n], i, key);
    }
  }

  /** A connection opened and kept, and still fresh at t, has a live entry that was let through. */
  lemma {:induction false} OpenedIsLive(p: Params, h: seq<Call>, i: nat, key: FlowKey, t: int)
    requires Legal(p, h) && Monotone(h, t)
    requires OpenSince(p, h, i, key) && Fresh(p, h, key, t)
    ensures Admits(p, Replay(p, h), key, LastTouch(h, key).value)
  {
    var n := |h| - 1;
    var e, before := h[n].e, h[..n];
    assert h == before + [h[n]];
    if i < n {
      OpenSinceSnoc(p, before, h[n], i, key);
      if Touches(e, key) {
        OpenedIsLive(p, before, i, key, e.now);
      } else {
        if Timed(e) { MonotoneLater(before, e.now, t); }
        OpenedIsLive(p, before, i, key, t);
      }
    }
  }

  /**
   * IsReply answers yes exactly when the opposite direction, both ends swapped, was opened by an earlier Allow, every
   * call about it since came less than its TTL after the one before, none forgot or evicted it, and
   * the last is less than its TTL ago. With no evictions the last clause is about Forget alone.
   */
  lemma ReplyMeaning(p: Params, h: seq<Call>, k: FlowKey, t: int)
    requires Legal(p, h) && Monotone(h, t)
    ensures var o := FlowKey(k.dst, k.src, k.dport, k.sport, k.proto);
            Answers(p, Replay(p, h), k, t) <==> Fresh(p, h, o, t) && exists i :: OpenSince(p, h, i, o)
  {
    if Answers(p, Replay(p, h), k, t) {
      var i := LiveWasOpened(p, h, k.Reverse(), t);
    }
    if i: nat :| Fresh(p, h, k.Reverse(), t) && OpenSince(p, h, i, k.Reverse()) {
      OpenedIsLive(p, h, i, k.Reverse(), t);
    }
  }

  lemma {:induction false} LegalPrefix(p: Params, h: seq<Call>, j: nat)
    requires Legal(p, h) && j < |h|
    ensures Legal(p, h[..j]) && EvictOk(p, Replay(p, h[..j]), h[j].e, h[j].evicted)
  {
    var n := |h| - 1;
    if j < n {
      LegalPrefix(p, h[..n], j);
      assert h[..n][..j] == h[..j];
    }
  }

  /** In every reachable state the table is within its bound. */
  lemma {:induction false} ReplayBounded(p: Params, h: seq<Call>)
    requires p.max >= 1 && Legal(p, h)
    ensures |Replay(p, h)| <= p.max
  {
    if h != [] {
      var n := |h| - 1;
      ReplayBounded(p, h[..n]);
      NextBounded(p, Replay(p, h[..n]), h[n].e, h[n].evicted);
    }
  }

  /**
   * A connection is evicted in a run only by a First or an Allow that finds the table at its bound with no
   * entry aged, this one included; half of it goes, or the one entry of a table of one.
   */
  lemma EvictionNeedsFullTable(p: Params, h: seq<Call>, j: nat, key: FlowKey)
    requires p.max >= 1 && Legal(p, h) && j < |h| && key in h[j].evicted
    ensures h[j].e.First? || h[j].e.Allow?
    ensures var t := Replay(p, h[..j]);
            && key in t && |t| == p.max && |h[j].evicted| == (if p.max == 1 then 1 else p.max / 2)
            && forall k :: k in t ==> Live(p, t, k, h[j].e.now)
  {
    LegalPrefix(p, h, j);
    ReplayBounded(p, h[..j]);
    var t := Replay(p, h[..j]);
    var u := Unaged(p, t, h[j].e.now);
    assert u.Keys <= t.Keys;
    SubsetSize(u.Keys, t.Keys);
    SubsetOfSize(u.Keys, t.Keys);
  }

  lemma SubsetOfSize<T>(a: set<T>, b: set<T>)
    requires a <= b && |a| >= |b|
    ensures a == b
  {
    assert b == a + (b - a);
  }
}
