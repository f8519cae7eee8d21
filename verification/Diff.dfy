/** internal/config/diff.go: what a reload finds changed between the configuration in force and the new one. */
module Diff {
  import opened Basics
  import opened Configuration
  import opened Uapi

  /** Lists of peer-ids; the source keeps each sorted, and no id occurs twice in one. */
  datatype Changes = Changes(
    added: set<string>, removed: set<string>, changed: set<string>, psk: set<string>,
    policyChanged: bool, selfChanged: bool, selfPeerChanged: bool)
  {
    predicate Any() {
      added != {} || removed != {} || changed != {} || psk != {} || policyChanged || selfChanged || selfPeerChanged
    }
  }

  predicate SameSeq<T(==)>(a: seq<T>, b: seq<T>)
    ensures SameSeq(a, b) <==> a == b
  {
    |a| == |b| && forall i :: 0 <= i < |a| ==> a[i] == b[i]
  }

  /** sameSelf compares everything csa.toml says. */
  predicate SameSelf(a: Self, b: Self)
    ensures SameSelf(a, b) <==> a == b
  {
    && a.peerID == b.peerID && a.privateKey == b.privateKey && a.tunnelCIDR == b.tunnelCIDR
    && a.listenPort == b.listenPort && a.tun == b.tun && a.guard.mode == b.guard.mode
    && a.natModes == b.natModes && a.psk == b.psk
    && SameSeq(a.guard.keepTCP, b.guard.keepTCP) && SameSeq(a.guard.keepUDP, b.guard.keepUDP)
  }

  /** samePeer compares everything an entry says but the id it is looked up by. */
  predicate SamePeer(a: Peer, b: Peer)
    ensures SamePeer(a, b) && a.peerID == b.peerID <==> a == b
  {
    && a.publicKey == b.publicKey && a.tunnelIP == b.tunnelIP
    && SameSeq(a.endpoints, b.endpoints) && SameSeq(a.addresses, b.addresses) && SameSeq(a.services, b.services)
  }

  predicate SameInbound(x: Inbound, y: Inbound)
    ensures SameInbound(x, y) <==> x == y
  {
    x.app == y.app && x.expires == y.expires && SameSeq(x.allow, y.allow) && SameSeq(x.allowCIDR, y.allowCIDR)
  }

  /** samePolicy compares rules and targets in their order. */
  predicate SamePolicy(a: Policy, b: Policy)
    ensures SamePolicy(a, b) <==> a == b
  {
    && SameSeq(a.outbound, b.outbound) && |a.inbound| == |b.inbound|
    && forall i :: 0 <= i < |a.inbound| ==> SameInbound(a.inbound[i], b.inbound[i])
  }

  // ---------- What the difference means ----------

  /** This machine's own key or tunnel IP is another. */
  predicate Moved(id: string, o: Peer, p: Peer, self: string) {
    id == self && (o.publicKey != p.publicKey || o.tunnelIP != p.tunnelIP)
  }

  predicate Differs(a: map<string, Peer>, b: map<string, Peer>, id: string) { id in a && id in b && a[id] != b[id] }

  /** d is the difference of two configurations. */
  ghost predicate IsDiff(d: Changes, old_: Config, cur: Config) {
    var a, b := ById(old_.peers), ById(cur.peers);
    && d.added == b.Keys - a.Keys && d.removed == a.Keys - b.Keys
    && (forall id :: id in d.changed <==> Differs(a, b, id) && !Moved(id, a[id], b[id], cur.self.peerID))
    && (d.selfPeerChanged <==> exists id :: Differs(a, b, id) && Moved(id, a[id], b[id], cur.self.peerID))
    && (forall id :: id in d.psk <==> PskText(old_.secrets, id) != PskText(cur.secrets, id))
    && (d.policyChanged <==> old_.policy != cur.policy) && (d.selfChanged <==> old_.self != cur.self)
  }

  /** What a configuration says apart from the order of its entries and from empty keys. */
  ghost predicate Agree(a: Config, b: Config) {
    && a.self == b.self && a.policy == b.policy && ById(a.peers) == ById(b.peers)
    && forall id :: PskText(a.secrets, id) == PskText(b.secrets, id)
  }

  lemma DifferenceIsReported(d: Changes, old_: Config, cur: Config, id: string)
    requires IsDiff(d, old_, cur) && Differs(ById(old_.peers), ById(cur.peers), id)
    ensures d.Any()
  {
    if !Moved(id, ById(old_.peers)[id], ById(cur.peers)[id], cur.self.peerID) { assert id in d.changed; }
  }

  /** A difference reports nothing exactly when the two configurations agree. */
  lemma NothingChanged(d: Changes, old_: Config, cur: Config)
    requires IsDiff(d, old_, cur)
    ensures !d.Any() <==> Agree(old_, cur)
  {
    var a, b := ById(old_.peers), ById(cur.peers);
    if !d.Any() {
      assert a.Keys <= b.Keys by { forall id | id in a.Keys ensures id in b.Keys { assert id !in d.removed; } }
      assert b.Keys <= a.Keys by { forall id | id in b.Keys ensures id in a.Keys { assert id !in d.added; } }
      forall id | id in a ensures a[id] == b[id] {
        if Differs(a, b, id) { DifferenceIsReported(d, old_, cur, id); }
      }
    }
    if Agree(old_, cur) {
      assert forall id :: !Differs(a, b, id);
    }
  }

  lemma EntryOf(peers: seq<Peer>, id: string)
    requires UniqueIds(peers)
    ensures id in ById(peers) <==> exists p :: p in peers && p.peerID == id
    ensures forall p :: p in peers && p.peerID == id ==> id in ById(peers) && ById(peers)[id] == p
    ensures id in ById(peers) ==> ById(peers)[id] in peers && ById(peers)[id].peerID == id
  {
    forall p | p in peers && p.peerID == id ensures ById(peers)[id] == p { LookupUnique(peers, p); }
    if id in ById(peers) { assert ById(peers)[id] in peers; }
  }

  /** The entries with this id differ, but not in the key or tunnel IP of this machine itself. */
  ghost predicate Rewritten(old_: Config, cur: Config, id: string) {
    exists p, q :: && p in old_.peers && q in cur.peers && p.peerID == id && q.peerID == id && p != q
                   && (id != cur.self.peerID || (p.publicKey == q.publicKey && p.tunnelIP == q.tunnelIP))
  }

  /** This machine's own entries differ in key or tunnel IP. */
  ghost predicate OwnMoved(old_: Config, cur: Config) {
    exists p, q :: && p in old_.peers && q in cur.peers && p.peerID == cur.self.peerID && q.peerID == cur.self.peerID
                   && (p.publicKey != q.publicKey || p.tunnelIP != q.tunnelIP)
  }

  lemma DiffersMeaning(old_: Config, cur: Config, id: string)
    requires UniqueIds(old_.peers) && UniqueIds(cur.peers)
    ensures var a, b := ById(old_.peers), ById(cur.peers);
            && (Differs(a, b, id) && !Moved(id, a[id], b[id], cur.self.peerID) <==> Rewritten(old_, cur, id))
            && (Differs(a, b, id) && Moved(id, a[id], b[id], cur.self.peerID) <==> id == cur.self.peerID && OwnMoved(old_, cur))
  {
    hide ById, UniqueIds;
    EntryOf(old_.peers, id);
    EntryOf(cur.peers, id);
  }

  lemma IdsTell(d: Changes, old_: Config, cur: Config)
    requires IsDiff(d, old_, cur) && UniqueIds(old_.peers) && UniqueIds(cur.peers)
    ensures forall id :: id in d.added <==>
              (exists q :: q in cur.peers && q.peerID == id) && forall p :: p in old_.peers ==> p.peerID != id
    ensures forall id :: id in d.removed <==>
              (exists p :: p in old_.peers && p.peerID == id) && forall q :: q in cur.peers ==> q.peerID != id
  {
    hide ById, UniqueIds, Differs, Moved, PskText;
    forall id
      ensures id in ById(old_.peers) <==> exists p :: p in old_.peers && p.peerID == id
      ensures id in ById(cur.peers) <==> exists q :: q in cur.peers && q.peerID == id
    {
      EntryOf(old_.peers, id);
      EntryOf(cur.peers, id);
    }
  }

  lemma EntriesTell(d: Changes, old_: Config, cur: Config)
    requires IsDiff(d, old_, cur) && UniqueIds(old_.peers) && UniqueIds(cur.peers)
    ensures forall id :: id in d.changed <==> Rewritten(old_, cur, id)
    ensures d.selfPeerChanged <==> OwnMoved(old_, cur)
  {
    hide ById, UniqueIds, Moved, PskText, Rewritten, OwnMoved;
    forall id ensures id in d.changed <==> Rewritten(old_, cur, id) { DiffersMeaning(old_, cur, id); }
    if d.selfPeerChanged {
      var id :| Differs(ById(old_.peers), ById(cur.peers), id)
                && Moved(id, ById(old_.peers)[id], ById(cur.peers)[id], cur.self.peerID);
      DiffersMeaning(old_, cur, id);
    }
    DiffersMeaning(old_, cur, cur.self.peerID);
  }

  /** What each part of the difference says. */
  lemma DiffTells(d: Changes, old_: Config, cur: Config)
    requires IsDiff(d, old_, cur) && UniqueIds(old_.peers) && UniqueIds(cur.peers)
    ensures forall id :: id in d.added <==>
              (exists q :: q in cur.peers && q.peerID == id) && forall p :: p in old_.peers ==> p.peerID != id
    ensures forall id :: id in d.removed <==>
              (exists p :: p in old_.peers && p.peerID == id) && forall q :: q in cur.peers ==> q.peerID != id
    ensures forall id :: id in d.changed <==>
              exists p, q :: && p in old_.peers && q in cur.peers && p.peerID == id && q.peerID == id && p != q
                             && (id != cur.self.peerID || (p.publicKey == q.publicKey && p.tunnelIP == q.tunnelIP))
    ensures d.selfPeerChanged <==>
              exists p, q :: && p in old_.peers && q in cur.peers && p.peerID == cur.self.peerID && q.peerID == cur.self.peerID
                             && (p.publicKey != q.publicKey || p.tunnelIP != q.tunnelIP)
    ensures forall id :: id in d.psk <==>
              (if id in old_.secrets then old_.secrets[id] else "") != (if id in cur.secrets then cur.secrets[id] else "")
    ensures (d.policyChanged <==> old_.policy != cur.policy) && (d.selfChanged <==> old_.self != cur.self)
  {
    hide ById, UniqueIds, Differs, Moved;
    IdsTell(d, old_, cur);
    EntriesTell(d, old_, cur);
  }

  /** Agreement is an equivalence. */
  lemma AgreeIsEquivalence(a: Config, b: Config, c: Config)
    ensures Agree(a, a)
    ensures Agree(a, b) ==> Agree(b, a)
    ensures Agree(a, b) && Agree(b, c) ==> Agree(a, c)
  {
    if Agree(a, b) && Agree(b, c) {
      forall id ensures PskText(a.secrets, id) == PskText(c.secrets, id) {
        assert PskText(a.secrets, id) == PskText(b.secrets, id);
      }
    }
  }

  // ---------- The code ----------

  method IndexPeers(peers: seq<Peer>) returns (m: map<string, Peer>)
    ensures m == ById(peers)
  {
    m := map[];
    for i := 0 to |peers|
      invariant m == ById(peers[..i])
    {
      assert peers[..i + 1][..i] == peers[..i];
      m := m[peers[i].peerID := peers[i]];
    }
    assert peers[..|peers|] == peers;
  }

  /** changedPSK: one pass over the keys of each map, an id already seen being passed over. */
  method ChangedPSK(a: map<string, string>, b: map<string, string>) returns (out: set<string>)
    ensures forall id :: id in out <==> PskText(a, id) != PskText(b, id)
  {
    var seen: set<string> := {};
    out, seen := ComparePSK(a, b, a.Keys, {}, {});
    out, seen := ComparePSK(a, b, b.Keys, out, seen);
    forall id ensures id in out <==> PskText(a, id) != PskText(b, id) {
      if id !in a && id !in b { assert id !in seen; }
    }
  }

  /** The inner loop of changedPSK. */
  method ComparePSK(a: map<string, string>, b: map<string, string>, ids: set<string>, out: set<string>, seen: set<string>)
    returns (out': set<string>, seen': set<string>)
    requires forall id :: id in out <==> id in seen && PskText(a, id) != PskText(b, id)
    ensures forall id :: id in seen' <==> id in seen || id in ids
    ensures forall id :: id in out' <==> id in seen' && PskText(a, id) != PskText(b, id)
  {
    out', seen' := out, seen;
    var order := RangeOver(ids);
    for i := 0 to |order|
      invariant forall id :: id in seen' <==> id in seen || id in order[..i]
      invariant forall id :: id in out' <==> id in seen' && PskText(a, id) != PskText(b, id)
    {
      var id := order[i];
      if id in seen' { continue; }
      seen' := seen' + {id};
      if PskText(a, id) != PskText(b, id) { out' := out' + {id}; }
    }
    assert order[..|order|] == order;
  }

  method ListRemoved(a: map<string, Peer>, b: map<string, Peer>) returns (removed: set<string>)
    ensures removed == a.Keys - b.Keys
  {
    removed := {};
    var order := RangeOver(a.Keys);
    for i := 0 to |order|
      invariant forall id :: id in removed <==> id in order[..i] && id !in b
    {
      if order[i] !in b { removed := removed + {order[i]}; }
    }
    assert order[..|order|] == order;
  }

  /** The loop of Diff over the new entries. */
  method ListChanged(a: map<string, Peer>, b: map<string, Peer>, self: string)
    returns (added: set<string>, changed: set<string>, moved: bool)
    requires forall id :: id in a ==> a[id].peerID == id
    requires forall id :: id in b ==> b[id].peerID == id
    ensures added == b.Keys - a.Keys
    ensures forall id :: id in changed <==> Differs(a, b, id) && !Moved(id, a[id], b[id], self)
    ensures moved <==> exists id :: Differs(a, b, id) && Moved(id, a[id], b[id], self)
  {
    added, changed, moved := {}, {}, false;
    var order := RangeOver(b.Keys);
    for i := 0 to |order|
      invariant forall id :: id in added <==> id in order[..i] && id !in a
      invariant forall id :: id in changed <==> id in order[..i] && Differs(a, b, id) && !Moved(id, a[id], b[id], self)
      invariant moved <==> exists id :: id in order[..i] && Differs(a, b, id) && Moved(id, a[id], b[id], self)
    {
      var id := order[i];
      assert id in order && forall x :: x in order[..i + 1] <==> x in order[..i] || x == id;
      if id !in a {
        added := added + {id};
      } else if SamePeer(a[id], b[id]) {
        assert !Differs(a, b, id);
      } else if Moved(id, a[id], b[id], self) {
        assert Differs(a, b, id);
        moved := true;
      } else {
        assert Differs(a, b, id);
        changed := changed + {id};
      }
    }
    assert order[..|order|] == order;
    assert forall id :: Differs(a, b, id) ==> id in order;
  }

  /** Diff. */
  method DiffConfigs(old_: Config, cur: Config) returns (d: Changes)
    ensures IsDiff(d, old_, cur)
  {
    var psk := ChangedPSK(old_.secrets, cur.secrets);
    var a := IndexPeers(old_.peers);
    var b := IndexPeers(cur.peers);
    var removed := ListRemoved(a, b);
    var added, changed, moved := ListChanged(a, b, cur.self.peerID);
    d := Changes(added, removed, changed, psk, !SamePolicy(old_.policy, cur.policy), !SameSelf(old_.self, cur.self), moved);
  }
}
