/**
 * What the text of UAPIReload does to a device that follows the old peer list, whatever order its
 * maps were ranged over in: the peers and allowed IPs of the new list, with key swaps and tunnel IP
 * permutations, and with peers that did not change left as they are.
 */
module Reconfigure {
  import opened Basics
  import opened Net
  import opened Configuration
  import opened Wg
  import opened Uapi
  import opened PeerPlan

  // ---------- From text to plan ----------

  /** Every key reads, and no two peers share a key or a tunnel IP. */
  ghost predicate Sound(lib: Lib, peers: map<string, Peer>) {
    && (forall i :: i in peers ==> lib.parseKey(peers[i].publicKey).Some?)
    && (forall i, j :: i in peers && j in peers && KeyOf(lib, peers[i]) == KeyOf(lib, peers[j]) ==> i == j)
    && (forall i, j :: i in peers && j in peers && peers[i].tunnelIP == peers[j].tunnelIP ==> i == j)
  }

  ghost function KeyMap(lib: Lib, peers: map<string, Peer>): map<string, nat> {
    map id | id in peers :: KeyOf(lib, peers[id])
  }

  ghost function IPMap(peers: map<string, Peer>): map<string, string> {
    map id | id in peers :: peers[id].tunnelIP
  }

  ghost predicate SoundDelta(d: Delta) {
    && Sound(d.lib, d.old_) && Sound(d.lib, d.cur)
    && forall id :: id in d.cur ==> d.CanRead(id)
  }

  /** p is the plan of d: what it needs to know of each peer, looked up by id. */
  ghost predicate Plans(p: Plan<string, string>, d: Delta) {
    && p.WellFormed()
    && p.old_.key.Keys == d.old_.Keys && p.cur.key.Keys == d.cur.Keys
    && (forall id :: id in d.old_ ==>
          p.old_.key[id] == KeyOf(d.lib, d.old_[id]) && d.lib.parseKey(d.old_[id].publicKey).Some?)
    && (forall id :: id in d.cur ==> PlansPeer(p, d, id))
  }

  ghost predicate PlansPeer(p: Plan<string, string>, d: Delta, id: string)
    requires id in d.cur && id in p.cur.key && id in p.cur.ip && id in p.psk && id in p.endpoint
  {
    && p.cur.key[id] == KeyOf(d.lib, d.cur[id]) && p.cur.ip[id] == d.cur[id].tunnelIP
    && p.psk[id] == PskOf(d.lib, PskText(d.curPSK, id)) && p.endpoint[id] == EndpointOf(d.cur[id])
    && (id in p.kept <==> d.Kept(id)) && (id in p.untouched <==> d.Unchanged(id))
  }

  ghost function KeptOf(d: Delta): set<string> { set id | id in d.cur && d.Kept(id) }

  ghost function UntouchedOf(d: Delta): set<string> { set id | id in d.cur && d.Unchanged(id) }

  ghost function PskMap(d: Delta): map<string, Option<nat>> {
    map id | id in d.cur :: PskOf(d.lib, PskText(d.curPSK, id))
  }

  ghost function EndpointMap(d: Delta): map<string, Option<string>> {
    map id | id in d.cur :: EndpointOf(d.cur[id])
  }

  lemma MakePlan(d: Delta) returns (p: Plan<string, string>)
    requires SoundDelta(d)
    ensures Plans(p, d)
    ensures p.old_.key == KeyMap(d.lib, d.old_) && p.old_.ip == IPMap(d.old_)
    ensures p.cur.key == KeyMap(d.lib, d.cur) && p.cur.ip == IPMap(d.cur)
  {
    SoundMaps(d.lib, d.old_);
    SoundMaps(d.lib, d.cur);
    KeptIsSound(d);
    p := BuildPlan(KeyMap(d.lib, d.old_), IPMap(d.old_), KeyMap(d.lib, d.cur), IPMap(d.cur),
                   PskMap(d), EndpointMap(d), KeptOf(d), UntouchedOf(d));
    MapsPlan(p, d);
  }

  lemma MapsPlan(p: Plan<string, string>, d: Delta)
    requires p.WellFormed()
    requires forall id :: id in d.old_ ==> d.lib.parseKey(d.old_[id].publicKey).Some?
    requires p.old_.key == KeyMap(d.lib, d.old_)
    requires p.cur.key == KeyMap(d.lib, d.cur) && p.cur.ip == IPMap(d.cur)
    requires p.psk == PskMap(d) && p.endpoint == EndpointMap(d) && p.kept == KeptOf(d) && p.untouched == UntouchedOf(d)
    ensures Plans(p, d)
  {
    forall id | id in d.cur ensures PlansPeer(p, d, id) {
      MapsPlanPeer(p, d, id);
    }
  }

  lemma MapsPlanPeer(p: Plan<string, string>, d: Delta, id: string)
    requires id in d.cur
    requires p.cur.key == KeyMap(d.lib, d.cur) && p.cur.ip == IPMap(d.cur)
    requires p.psk == PskMap(d) && p.endpoint == EndpointMap(d) && p.kept == KeptOf(d) && p.untouched == UntouchedOf(d)
    ensures PlansPeer(p, d, id)
  {
  }

  lemma SoundMaps(lib: Lib, peers: map<string, Peer>)
    requires Sound(lib, peers)
    ensures Injective(KeyMap(lib, peers)) && Injective(IPMap(peers))
  {
  }

  lemma KeptIsSound(d: Delta)
    ensures UntouchedOf(d) <= KeptOf(d)
    ensures KeptOf(d) <= KeyMap(d.lib, d.old_).Keys * KeyMap(d.lib, d.cur).Keys
    ensures forall id :: id in KeptOf(d) ==> KeyMap(d.lib, d.old_)[id] == KeyMap(d.lib, d.cur)[id]
    ensures forall id :: id in UntouchedOf(d) ==> IPMap(d.old_)[id] == IPMap(d.cur)[id]
  {
  }

  // ---------- The removals ----------

  ghost function KeyIf(d: Delta, id: string, removes: bool): set<nat> {
    if removes && id in d.old_ then {KeyOf(d.lib, d.old_[id])} else {}
  }

  ghost function GoneKeys(d: Delta, order: seq<string>): set<nat> {
    if order == [] then {} else
    var n := |order| - 1;
    GoneKeys(d, order[..n]) + KeyIf(d, order[n], order[n] !in d.cur)
  }

  ghost function RekeyedKeys(d: Delta, order: seq<string>): set<nat> {
    if order == [] then {} else
    var n := |order| - 1;
    RekeyedKeys(d, order[..n]) + KeyIf(d, order[n], order[n] in d.cur && d.Rekeyed(order[n]))
  }

  lemma {:induction false} GoneKeysMeaning(d: Delta, order: seq<string>, k: nat)
    ensures k in GoneKeys(d, order) <==>
            exists id :: id in order && id in d.old_ && id !in d.cur && KeyOf(d.lib, d.old_[id]) == k
  {
    if order != [] {
      var n := |order| - 1;
      GoneKeysMeaning(d, order[..n], k);
      assert order == order[..n] + [order[n]];
    }
  }

  lemma {:induction false} RekeyedKeysMeaning(d: Delta, order: seq<string>, k: nat)
    ensures k in RekeyedKeys(d, order) <==>
            exists id :: id in order && id in d.cur && d.Rekeyed(id) && KeyOf(d.lib, d.old_[id]) == k
  {
    if order != [] {
      var n := |order| - 1;
      RekeyedKeysMeaning(d, order[..n], k);
      assert order == order[..n] + [order[n]];
    }
  }

  lemma RemoveIfEffect(d: Delta, dev: Device<string>, c: Cursor<string>, keys: set<nat>, id: string, removes: bool)
    requires c.dev == DropKeys(dev, keys)
    requires id in d.old_ ==> d.lib.parseKey(d.old_[id].publicKey).Some?
    ensures Feed(c, if removes && id in d.old_ then d.RemoveLines(id) else []).dev
            == DropKeys(dev, keys + KeyIf(d, id, removes))
  {
    if removes && id in d.old_ {
      FeedRemove(c, KeyOf(d.lib, d.old_[id]));
      DropKeysTwice(dev, keys, {KeyOf(d.lib, d.old_[id])});
    } else {
      assert keys + {} == keys;
    }
  }

  lemma {:induction false} GoneEffect(p: Plan<string, string>, d: Delta, c: Cursor<string>, order: seq<string>)
    requires Plans(p, d)
    ensures Feed(c, d.Gone(order)).dev == DropKeys(c.dev, GoneKeys(d, order))
  {
    if order == [] {
      assert DropKeys(c.dev, {}) == c.dev;
    } else {
      var n := |order| - 1;
      GoneEffect(p, d, c, order[..n]);
      FeedAppend(c, d.Gone(order[..n]), d.GoneOf(order[n]));
      RemoveIfEffect(d, c.dev, Feed(c, d.Gone(order[..n])), GoneKeys(d, order[..n]), order[n], order[n] !in d.cur);
    }
  }

  lemma {:induction false} RemovalsEffect(p: Plan<string, string>, d: Delta, c: Cursor<string>, order: seq<string>)
    requires Plans(p, d)
    ensures Feed(c, d.Removals(order)).dev == DropKeys(c.dev, RekeyedKeys(d, order))
  {
    if order == [] {
      assert DropKeys(c.dev, {}) == c.dev;
    } else {
      var n := |order| - 1;
      var rekeyed := order[n] in d.cur && d.Rekeyed(order[n]);
      RemovalsEffect(p, d, c, order[..n]);
      FeedAppend(c, d.Removals(order[..n]), d.RemovalOf(order[n]));
      RemoveIfEffect(d, c.dev, Feed(c, d.Removals(order[..n])), RekeyedKeys(d, order[..n]), order[n], rekeyed);
    }
  }

  lemma DeadIsRemoved(p: Plan<string, string>, d: Delta, gone: seq<string>, ids: seq<string>, k: nat)
    requires Plans(p, d) && Enumerates(gone, d.old_.Keys) && Enumerates(ids, d.cur.Keys)
    requires k in p.Dead()
    ensures k in GoneKeys(d, gone) || k in RekeyedKeys(d, ids)
  {
    GoneKeysMeaning(d, gone, k);
    RekeyedKeysMeaning(d, ids, k);
    var id := p.old_.whose[k];
    assert id in d.old_ && KeyOf(d.lib, d.old_[id]) == k && id in gone;
    if id in d.cur {
      assert PlansPeer(p, d, id);
      assert id in ids && d.Rekeyed(id);
    }
  }

  lemma RemovedIsDead(p: Plan<string, string>, d: Delta, gone: seq<string>, ids: seq<string>, k: nat)
    requires Plans(p, d)
    requires k in GoneKeys(d, gone) || k in RekeyedKeys(d, ids)
    ensures k in p.Dead()
  {
    GoneKeysMeaning(d, gone, k);
    RekeyedKeysMeaning(d, ids, k);
    var id: string;
    if k in GoneKeys(d, gone) {
      id :| id in gone && id in d.old_ && id !in d.cur && KeyOf(d.lib, d.old_[id]) == k;
    } else {
      id :| id in ids && id in d.cur && d.Rekeyed(id) && KeyOf(d.lib, d.old_[id]) == k;
      assert PlansPeer(p, d, id);
    }
    assert p.old_.key[id] == k && id !in p.kept;
  }

  /** Together the removals name every old key that does not stay, and no other. */
  lemma RemovedKeysAreDead(p: Plan<string, string>, d: Delta, gone: seq<string>, ids: seq<string>)
    requires Plans(p, d) && Enumerates(gone, d.old_.Keys) && Enumerates(ids, d.cur.Keys)
    ensures GoneKeys(d, gone) + RekeyedKeys(d, ids) == p.Dead()
  {
    forall k | k in p.Dead() ensures k in GoneKeys(d, gone) + RekeyedKeys(d, ids) {
      DeadIsRemoved(p, d, gone, ids, k);
    }
    forall k | k in GoneKeys(d, gone) + RekeyedKeys(d, ids) ensures k in p.Dead() {
      RemovedIsDead(p, d, gone, ids, k);
    }
  }

  // ---------- The settings ----------

  lemma TurnEffect(p: Plan<string, string>, d: Delta, c: Cursor<string>, id: string)
    requires Plans(p, d) && id in d.cur
    ensures Feed(c, d.SettingOf(id)).dev == p.Turn(c.dev, id)
  {
    assert PlansPeer(p, d, id);
    if !d.Unchanged(id) {
      FeedSet(c, KeyOf(d.lib, d.cur[id]), d.cur[id].tunnelIP, PskOf(d.lib, PskText(d.curPSK, id)),
              EndpointOf(d.cur[id]), KEEPALIVE);
    }
  }

  lemma {:induction false} SettingsAreTurns(p: Plan<string, string>, d: Delta, c: Cursor<string>, ids: seq<string>)
    requires Plans(p, d)
    ensures Feed(c, d.Settings(ids)).dev == Turns(p, c.dev, ids)
  {
    if ids != [] {
      var n := |ids| - 1;
      SettingsAreTurns(p, d, c, ids[..n]);
      FeedAppend(c, d.Settings(ids[..n]), d.SettingOf(ids[n]));
      if ids[n] in d.cur { TurnEffect(p, d, Feed(c, d.Settings(ids[..n])), ids[n]); }
    }
  }

  lemma RemovalsTogether(p: Plan<string, string>, d: Delta, before: Device<string>, gone: seq<string>, ids: seq<string>)
    requires Plans(p, d) && Enumerates(gone, d.old_.Keys) && Enumerates(ids, d.cur.Keys)
    ensures Feed(Feed(Cursor(before, None), d.Gone(gone)), d.Removals(ids)).dev == DropKeys(before, p.Dead())
  {
    var c0 := Cursor(before, None);
    GoneEffect(p, d, c0, gone);
    RemovalsEffect(p, d, Feed(c0, d.Gone(gone)), ids);
    DropKeysTwice(before, GoneKeys(d, gone), RekeyedKeys(d, ids));
    RemovedKeysAreDead(p, d, gone, ids);
  }

  /** The reload text drops the dead keys and then gives every peer its turn. */
  lemma ScriptIsPlan(p: Plan<string, string>, d: Delta, before: Device<string>, gone: seq<string>, ids: seq<string>)
    requires Plans(p, d) && Enumerates(gone, d.old_.Keys) && Enumerates(ids, d.cur.Keys)
    ensures IpcSet(before, d.Script(gone, ids)) == Turns(p, DropKeys(before, p.Dead()), ids)
  {
    var c0 := Cursor(before, None);
    var c2 := Feed(Feed(c0, d.Gone(gone)), d.Removals(ids));
    FeedAppend(c0, d.Gone(gone) + d.Removals(ids), d.Settings(ids));
    FeedAppend(c0, d.Gone(gone), d.Removals(ids));
    RemovalsTogether(p, d, before, gone, ids);
    SettingsAreTurns(p, d, c2, ids);
  }

  /**
   * The reload text, run on any device with the peers and allowed IPs of the old list: the device
   * ends with exactly the peers and allowed IPs of the new list, and every session is After.
   */
  lemma ReloadEffect(p: Plan<string, string>, d: Delta, before: Device<string>, gone: seq<string>, ids: seq<string>)
    requires Plans(p, d) && Enumerates(gone, d.old_.Keys) && Enumerates(ids, d.cur.Keys)
    requires p.old_.Shapes(before)
    ensures p.CarriedOut(before, IpcSet(before, d.Script(gone, ids)))
  {
    ScriptIsPlan(p, d, before, gone, ids);
    PlanCarriedOut(p, before, ids);
  }
}
