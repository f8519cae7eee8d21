/**
 * When the difference of two valid configurations is empty, putting the second in force would change nothing:
 * no wg command, the same decisions, the same guarded ports, the same translation of every connection.
 */
module Agreement {
  import opened Basics
  import opened Net
  import opened Configuration
  import opened Validation
  import opened Diff
  import WgReload
  import PolicyCompile
  import PolicyMeaning
  import Guard
  import Nat
  import NatMeaning

  lemma ByIdFinds(peers: seq<Peer>, id: string)
    requires UniqueIds(peers)
    ensures Find(peers, id) == if id in ById(peers) then Some(ById(peers)[id]) else None
  {
    if id in ById(peers) { LookupUnique(peers, ById(peers)[id]); }
  }

  lemma AgreeingFind(a: Config, b: Config, id: string)
    requires Agree(a, b) && UniqueIds(a.peers) && UniqueIds(b.peers)
    ensures Find(a.peers, id) == Find(b.peers, id)
  {
    ByIdFinds(a.peers, id);
    ByIdFinds(b.peers, id);
  }

  /** Configurations that agree have the same entries, only in another order. */
  lemma AgreeingEntries(lib: Lib, a: Config, b: Config)
    requires Agree(a, b) && GoodPeers(lib, a.self, a.peers) && GoodPeers(lib, b.self, b.peers)
    ensures NatMeaning.SameEntries(a, b)
  {
    GoodPeersAreUnique(lib, a.self, a.peers);
    GoodPeersAreUnique(lib, b.self, b.peers);
    forall p | p in a.peers ensures p in b.peers { LookupUnique(a.peers, p); }
    forall p | p in b.peers ensures p in a.peers { LookupUnique(b.peers, p); }
  }

  // ---------- wg ----------

  /** Among the other machines an id other than this machine's finds the entry it finds in the whole list. */
  lemma {:induction false} OthersById(peers: seq<Peer>, self: string, id: string)
    ensures id in ById(Without(peers, self)) <==> id in ById(peers) && id != self
    ensures id in ById(Without(peers, self)) ==> ById(Without(peers, self))[id] == ById(peers)[id]
  {
    if peers != [] {
      hide ById, Without;
      var n := |peers| - 1;
      OthersById(peers[..n], self, id);
      TakeNext(peers, n);
      assert peers[..n + 1] == peers;
      WithoutStep(peers, self, n);
      ByIdSnoc(peers[..n], peers[n]);
      ByIdSnoc(Without(peers[..n], self), peers[n]);
    }
  }

  lemma AgreeingOther(a: Config, b: Config, id: string)
    requires ById(a.peers) == ById(b.peers) && a.self.peerID == b.self.peerID
    ensures MapsAgree(ById(Others(a)), ById(Others(b)), id)
  {
    OthersById(a.peers, a.self.peerID, id);
    OthersById(b.peers, b.self.peerID, id);
  }

  predicate MapsAgree<K, V(==)>(m: map<K, V>, n: map<K, V>, k: K) {
    (k in m <==> k in n) && (k in m ==> m[k] == n[k])
  }

  lemma SameMap<K(!new), V>(m: map<K, V>, n: map<K, V>)
    requires forall k :: MapsAgree(m, n, k)
    ensures m == n
  {
    forall k ensures k in m <==> k in n { assert MapsAgree(m, n, k); }
    assert m.Keys == n.Keys;
    forall k | k in m ensures m[k] == n[k] { assert MapsAgree(m, n, k); }
  }

  lemma AgreeingOthers(a: Config, b: Config)
    requires ById(a.peers) == ById(b.peers) && a.self.peerID == b.self.peerID
    ensures ById(Others(a)) == ById(Others(b))
  {
    forall id ensures MapsAgree(ById(Others(a)), ById(Others(b)), id) { AgreeingOther(a, b, id); }
    SameMap(ById(Others(a)), ById(Others(b)));
  }

  lemma {:induction false} NothingToSay(d: Uapi.Delta, gone: seq<string>, ids: seq<string>)
    requires d.old_ == d.cur && forall id :: Uapi.PskText(d.oldPSK, id) == Uapi.PskText(d.curPSK, id)
    ensures d.Gone(gone) == [] && d.Removals(ids) == [] && d.Settings(ids) == []
    decreases |gone| + |ids|
  {
    if gone != [] { NothingToSay(d, gone[..|gone| - 1], ids); }
    if ids != [] { NothingToSay(d, gone, ids[..|ids| - 1]); }
  }

  /** There is nothing to tell wg. */
  lemma AgreeingScript(lib: Lib, a: Config, b: Config, gone: seq<string>, ids: seq<string>)
    requires Agree(a, b)
    ensures WgReload.DeltaOf(lib, a, b).Script(gone, ids) == []
  {
    AgreeingOthers(a, b);
    NothingToSay(WgReload.DeltaOf(lib, a, b), gone, ids);
  }

  // ---------- Decisions ----------

  lemma AgreeingPortOf(a: Config, b: Config, id: string, app: string)
    requires Agree(a, b)
    ensures PolicyCompile.PortOf(a.peers, id, app) == PolicyCompile.PortOf(b.peers, id, app)
  {
    PolicyMeaning.PortTableSource(a.peers, id);
    PolicyMeaning.PortTableSource(b.peers, id);
  }

  lemma {:induction false} AgreeingInbound(lib: Lib, a: Config, b: Config, i: nat, acc: seq<PolicyCompile.Entry>)
    requires Agree(a, b) && i <= |a.policy.inbound|
    ensures PolicyCompile.CompileRules(lib, a, i, acc) == PolicyCompile.CompileRules(lib, b, i, acc)
    decreases |a.policy.inbound| - i
  {
    if i < |a.policy.inbound| {
      var u := a.policy.inbound[i];
      AgreeingPortOf(a, b, a.self.peerID, u.app);
      var e := PolicyCompile.CompileRule(lib, a, u);
      assert e == PolicyCompile.CompileRule(lib, b, u);
      if e.Ok? { AgreeingInbound(lib, a, b, i + 1, acc + [e.value]); }
    }
  }

  lemma SameTarget(lib: Lib, a: Config, b: Config, text: string, id: string, app: string)
    requires Cut(text) == Some((id, app))
    requires PolicyCompile.PortOf(a.peers, id, app) == PolicyCompile.PortOf(b.peers, id, app)
    requires Find(a.peers, id) == Find(b.peers, id)
    ensures PolicyCompile.CompileTarget(lib, a, text) == PolicyCompile.CompileTarget(lib, b, text)
  {
  }

  lemma AgreeingTarget(lib: Lib, a: Config, b: Config, text: string)
    requires Agree(a, b) && UniqueIds(a.peers) && UniqueIds(b.peers)
    ensures PolicyCompile.CompileTarget(lib, a, text) == PolicyCompile.CompileTarget(lib, b, text)
  {
    var cut := Cut(text);
    if cut.Some? {
      var (id, app) := cut.value;
      AgreeingPortOf(a, b, id, app);
      AgreeingFind(a, b, id);
      SameTarget(lib, a, b, text, id, app);
    }
  }

  lemma {:induction false} AgreeingOutbound(lib: Lib, a: Config, b: Config, i: nat, acc: seq<(Addr, nat)>)
    requires Agree(a, b) && i <= |a.policy.outbound| && UniqueIds(a.peers) && UniqueIds(b.peers)
    ensures PolicyCompile.CompileTargets(lib, a, i, acc) == PolicyCompile.CompileTargets(lib, b, i, acc)
    decreases |a.policy.outbound| - i
  {
    if i < |a.policy.outbound| {
      AgreeingTarget(lib, a, b, a.policy.outbound[i]);
      var t := PolicyCompile.CompileTarget(lib, a, a.policy.outbound[i]);
      if t.Ok? { AgreeingOutbound(lib, a, b, i + 1, acc + [t.value]); }
    }
  }

  /** peerByIP of a valid list, which always compiles. */
  function IndexOf(lib: Lib, peers: seq<Peer>): map<Addr, string>
    requires PolicyCompile.PeerIndex(lib, peers, 0, map[]).Ok?
  {
    PolicyCompile.PeerIndex(lib, peers, 0, map[]).value
  }

  lemma IndexReads(lib: Lib, c: Config)
    requires GoodPeers(lib, c.self, c.peers)
    ensures PolicyCompile.PeerIndex(lib, c.peers, 0, map[]).Ok?
  {
    forall p | p in c.peers ensures lib.parseAddr(p.tunnelIP).Some? { PeerIsGood(lib, c.self, c.peers, p); }
    PolicyMeaning.PeerIndexReads(lib, c.peers, 0, map[]);
  }

  /** A tunnel IP indexed from one list is indexed, with the same id, from any other with the same entries. */
  lemma IndexCarriesOver(lib: Lib, a: Config, b: Config, ip: Addr)
    requires lib.OneSpelling() && NatMeaning.SameEntries(a, b)
    requires GoodPeers(lib, a.self, a.peers) && GoodPeers(lib, b.self, b.peers)
    requires PolicyCompile.PeerIndex(lib, a.peers, 0, map[]).Ok? && PolicyCompile.PeerIndex(lib, b.peers, 0, map[]).Ok?
    requires ip in IndexOf(lib, a.peers)
    ensures ip in IndexOf(lib, b.peers) && IndexOf(lib, b.peers)[ip] == IndexOf(lib, a.peers)[ip]
  {
    var p := PolicyMeaning.PeerIndexSource(lib, a.peers, 0, map[], ip);
    assert p.value in b.peers;
    PolicyMeaning.PeerIndexEntry(lib, b.peers, 0, map[], ip);
    var q := PolicyMeaning.PeerIndexSource(lib, b.peers, 0, map[], ip);
    PolicyMeaning.TunnelAddrsDiffer(lib, b, p.value, q.value);
  }

  lemma AgreeingIndex(lib: Lib, a: Config, b: Config)
    requires lib.OneSpelling() && NatMeaning.SameEntries(a, b)
    requires GoodPeers(lib, a.self, a.peers) && GoodPeers(lib, b.self, b.peers)
    requires PolicyCompile.PeerIndex(lib, a.peers, 0, map[]).Ok? && PolicyCompile.PeerIndex(lib, b.peers, 0, map[]).Ok?
    ensures IndexOf(lib, a.peers) == IndexOf(lib, b.peers)
  {
    forall ip ensures MapsAgree(IndexOf(lib, a.peers), IndexOf(lib, b.peers), ip) {
      if ip in IndexOf(lib, a.peers) { IndexCarriesOver(lib, a, b, ip); }
      if ip in IndexOf(lib, b.peers) { IndexCarriesOver(lib, b, a, ip); }
    }
    SameMap(IndexOf(lib, a.peers), IndexOf(lib, b.peers));
  }

  lemma SameRules(lib: Lib, a: Config, b: Config)
    requires Find(a.peers, a.self.peerID) == Find(b.peers, b.self.peerID)
    requires PolicyCompile.PeerIndex(lib, a.peers, 0, map[]).Ok? && PolicyCompile.PeerIndex(lib, b.peers, 0, map[]).Ok?
    requires IndexOf(lib, a.peers) == IndexOf(lib, b.peers)
    requires PolicyCompile.CompileRules(lib, a, 0, []) == PolicyCompile.CompileRules(lib, b, 0, [])
    requires PolicyCompile.CompileTargets(lib, a, 0, []) == PolicyCompile.CompileTargets(lib, b, 0, [])
    ensures PolicyCompile.New(lib, a) == PolicyCompile.New(lib, b)
  {
  }

  /** The compiled rules are the same, so every decision is, its reason included. */
  lemma AgreeingRules(lib: Lib, a: Config, b: Config)
    requires lib.OneSpelling() && Agree(a, b)
    requires GoodPeers(lib, a.self, a.peers) && GoodPeers(lib, b.self, b.peers)
    ensures PolicyCompile.New(lib, a) == PolicyCompile.New(lib, b)
  {
    GoodPeersAreUnique(lib, a.self, a.peers);
    GoodPeersAreUnique(lib, b.self, b.peers);
    AgreeingEntries(lib, a, b);
    AgreeingFind(a, b, a.self.peerID);
    IndexReads(lib, a);
    IndexReads(lib, b);
    AgreeingIndex(lib, a, b);
    AgreeingInbound(lib, a, b, 0, []);
    AgreeingOutbound(lib, a, b, 0, []);
    SameRules(lib, a, b);
  }

  /** The ports to close are the same, in the same order. */
  lemma AgreeingGuard(lib: Lib, a: Config, b: Config)
    requires Agree(a, b) && UniqueIds(a.peers) && UniqueIds(b.peers)
    ensures Guard.ConfigOf(lib, a) == Guard.ConfigOf(lib, b)
  {
    AgreeingFind(a, b, a.self.peerID);
  }

  /**
   * When Diff reports nothing, everything that would be put in force is already in force: UAPIReload has
   * nothing to say, the compiled rules and the guard's ports are equal, and every connection is translated alike.
   */
  lemma NothingChangedNothingToDo(lib: Lib, d: Changes, a: Config, b: Config, gone: seq<string>, ids: seq<string>,
                                  route: Addr -> string, iif: string, conn: Nat.Conn)
    requires lib.OneSpelling() && IsDiff(d, a, b) && !d.Any()
    requires GoodPeers(lib, a.self, a.peers) && GoodPeers(lib, b.self, b.peers)
    ensures WgReload.DeltaOf(lib, a, b).Script(gone, ids) == []
    ensures PolicyCompile.New(lib, a) == PolicyCompile.New(lib, b)
    ensures Guard.ConfigOf(lib, a) == Guard.ConfigOf(lib, b)
    ensures Nat.Leaves(NatMeaning.Table(lib, a), route, conn) == Nat.Leaves(NatMeaning.Table(lib, b), route, conn)
    ensures Nat.Arrives(NatMeaning.Table(lib, a), iif, conn) == Nat.Arrives(NatMeaning.Table(lib, b), iif, conn)
  {
    NothingChanged(d, a, b);
    AgreeingScript(lib, a, b, gone, ids);
    AgreeingRules(lib, a, b);
    GoodPeersAreUnique(lib, a.self, a.peers);
    GoodPeersAreUnique(lib, b.self, b.peers);
    AgreeingGuard(lib, a, b);
    AgreeingEntries(lib, a, b);
    NatMeaning.OrderDoesNotMatter(lib, a, b, route, iif, conn);
  }
}
