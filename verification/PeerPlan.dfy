/**
 * A reload of wg as a plan: for every peer-id, the key and tunnel IP before and after. The plan says
 * which peers are dropped, which are set again and which are left alone; what is proved here is that
 * carrying it out in any order ends with exactly the new peers, each owning exactly its new tunnel IP.
 */
module PeerPlan {
  import opened Basics
  import opened Wg

  const KEEPALIVE := 25

  /** The keys and tunnel IPs of a peer list by peer-id, and whose each key is. */
  datatype Roster<I(==), A(==)> = Roster(key: map<I, nat>, ip: map<I, A>, whose: map<nat, I>) {
    /** No two peers share a key or a tunnel IP. */
    ghost predicate WellFormed() {
      && ip.Keys == key.Keys
      && (forall id :: id in key ==> key[id] in whose && whose[key[id]] == id)
      && (forall k :: k in whose ==> whose[k] in key && key[whose[k]] == k)
      && (forall i, j :: i in ip && j in ip && ip[i] == ip[j] ==> i == j)
    }

    /** The device has exactly these peers, and each owns exactly its tunnel IP. */
    ghost predicate Shapes(dev: Device<A>)
      requires WellFormed()
    {
      dev.peers.Keys == whose.Keys && Owns(dev.owner) && Owned(dev.owner)
    }

    ghost predicate Owns(owner: map<A, nat>)
      requires WellFormed()
    {
      forall id :: id in key ==> ip[id] in owner && owner[ip[id]] == key[id]
    }

    ghost predicate Owned(owner: map<A, nat>)
      requires WellFormed()
    {
      forall a :: a in owner ==> owner[a] in whose && ip[whose[owner[a]]] == a
    }
  }

  ghost predicate Injective<I(!new), V(!new)>(m: map<I, V>) {
    forall i, j :: i in m && j in m && m[i] == m[j] ==> i == j
  }

  lemma MakeRoster<I(!new), A(!new)>(key: map<I, nat>, ip: map<I, A>) returns (r: Roster<I, A>)
    requires ip.Keys == key.Keys && Injective(key) && Injective(ip)
    ensures r.WellFormed() && r.key == key && r.ip == ip
  {
    r := Roster(key, ip, map id | id in key :: key[id] := id);
  }

  datatype Plan<I(==), A(==)> = Plan(old_: Roster<I, A>, cur: Roster<I, A>,
                       psk: map<I, Option<nat>>, endpoint: map<I, Option<string>>,
                       kept: set<I>, untouched: set<I>)
  {
    /** A kept peer has the same key in both lists, and an untouched one the same tunnel IP too. */
    ghost predicate WellFormed() {
      && old_.WellFormed() && cur.WellFormed()
      && psk.Keys == cur.key.Keys && endpoint.Keys == cur.key.Keys
      && untouched <= kept <= old_.key.Keys * cur.key.Keys
      && (forall i :: i in kept ==> old_.key[i] == cur.key[i])
      && (forall i :: i in untouched ==> old_.ip[i] == cur.ip[i])
    }

    /** The keys the removals drop. */
    ghost function Dead(): set<nat>
      requires old_.WellFormed()
    {
      set k | k in old_.whose && old_.whose[k] !in kept
    }

    /** What the device holds for a peer after the reload, given what it held before. */
    function After(before: Device<A>, id: I): Session
      requires id in cur.key && id in psk && id in endpoint
    {
      var s := SessionOf(before, cur.key[id]);
      if id in untouched then s
      else Merge(if id in kept then s else Blank, psk[id], endpoint[id], KEEPALIVE)
    }

    /** The plan was carried out: the new peers and IPs, and the session of every peer is After. */
    ghost predicate CarriedOut(before: Device<A>, after: Device<A>)
      requires WellFormed()
    {
      && cur.Shapes(after)
      && (forall id :: id in cur.key ==> after.peers[cur.key[id]] == After(before, id))
      && after.privateKey == before.privateKey && after.port == before.port
    }

    // Part-way through the settings: ids in done have had their turn.

    ghost predicate MidKeys(done: set<I>, dev: Device<A>)
      requires WellFormed()
    {
      forall k :: k in dev.peers <==> k in cur.whose && (cur.whose[k] in kept || cur.whose[k] in done)
    }

    ghost predicate MidSessions(before: Device<A>, done: set<I>, dev: Device<A>)
      requires WellFormed()
    {
      forall id :: id in cur.key && (id in kept || id in done) ==>
        SessionOf(dev, cur.key[id]) == if id in done then After(before, id) else SessionOf(before, cur.key[id])
    }

    ghost predicate MidOwns(done: set<I>, dev: Device<A>)
      requires WellFormed()
    {
      forall id :: id in cur.key && (id in done || id in untouched) ==>
        cur.ip[id] in dev.owner && dev.owner[cur.ip[id]] == cur.key[id]
    }

    ghost predicate MidOwners(done: set<I>, dev: Device<A>)
      requires WellFormed()
    {
      forall a :: a in dev.owner ==>
        && dev.owner[a] in cur.whose
        && var id := cur.whose[dev.owner[a]]; (id in done || id in untouched ==> cur.ip[id] == a)
    }

    ghost predicate Midway(before: Device<A>, done: set<I>, dev: Device<A>)
      requires WellFormed()
    {
      MidKeys(done, dev) && MidSessions(before, done, dev) && MidOwns(done, dev) && MidOwners(done, dev)
    }

    function Turn(dev: Device<A>, id: I): Device<A>
      requires id in cur.key && id in cur.ip && id in psk && id in endpoint
    {
      if id in untouched then dev else SetPeer(dev, cur.key[id], cur.ip[id], psk[id], endpoint[id], KEEPALIVE)
    }
  }

  lemma BuildPlan<I(!new), A(!new)>(
    oldKey: map<I, nat>, oldIP: map<I, A>, curKey: map<I, nat>, curIP: map<I, A>,
    psk: map<I, Option<nat>>, endpoint: map<I, Option<string>>, kept: set<I>, untouched: set<I>)
    returns (p: Plan<I, A>)
    requires oldIP.Keys == oldKey.Keys && Injective(oldKey) && Injective(oldIP)
    requires curIP.Keys == curKey.Keys && Injective(curKey) && Injective(curIP)
    requires psk.Keys == curKey.Keys && endpoint.Keys == curKey.Keys
    requires untouched <= kept <= oldKey.Keys * curKey.Keys
    requires forall i :: i in kept ==> oldKey[i] == curKey[i]
    requires forall i :: i in untouched ==> oldIP[i] == curIP[i]
    ensures p.WellFormed()
    ensures p.old_.key == oldKey && p.old_.ip == oldIP && p.cur.key == curKey && p.cur.ip == curIP
    ensures p.psk == psk && p.endpoint == endpoint && p.kept == kept && p.untouched == untouched
  {
    var before := MakeRoster(oldKey, oldIP);
    var after := MakeRoster(curKey, curIP);
    p := Plan(before, after, psk, endpoint, kept, untouched);
  }

  lemma MidwayStart<I, A>(p: Plan<I, A>, before: Device<A>)
    requires p.WellFormed() && p.old_.Shapes(before)
    ensures p.Midway(before, {}, DropKeys(before, p.Dead()))
  {
    var dev := DropKeys(before, p.Dead());
    assert forall id :: id in p.kept ==> p.cur.key[id] in dev.peers;
    assert forall k :: k in dev.peers ==> p.old_.whose[k] in p.kept;
    assert p.MidOwns({}, dev) by {
      forall id | id in p.untouched
        ensures p.cur.ip[id] in dev.owner && dev.owner[p.cur.ip[id]] == p.cur.key[id]
      {
        assert before.owner[p.old_.ip[id]] == p.old_.key[id];
      }
    }
  }

  lemma MidKeysStep<I, A>(p: Plan<I, A>, before: Device<A>, done: set<I>, dev: Device<A>, id: I)
    requires p.WellFormed() && p.Midway(before, done, dev)
    requires id in p.cur.key && id !in done
    ensures p.MidKeys(done + {id}, p.Turn(dev, id))
    ensures p.MidSessions(before, done + {id}, p.Turn(dev, id))
  {
  }

  lemma MidOwnsStep<I, A>(p: Plan<I, A>, before: Device<A>, done: set<I>, dev: Device<A>, id: I)
    requires p.WellFormed() && p.Midway(before, done, dev)
    requires id in p.cur.key && id !in done
    ensures p.MidOwns(done + {id}, p.Turn(dev, id))
  {
    var next := p.Turn(dev, id);
    forall i | i in p.cur.key && (i in done + {id} || i in p.untouched)
      ensures p.cur.ip[i] in next.owner && next.owner[p.cur.ip[i]] == p.cur.key[i]
    {
      if i != id {
        assert dev.owner[p.cur.ip[i]] == p.cur.key[i];
        assert p.cur.key[i] != p.cur.key[id] && p.cur.ip[i] != p.cur.ip[id];
      }
    }
  }

  lemma MidOwnersStep<I, A>(p: Plan<I, A>, before: Device<A>, done: set<I>, dev: Device<A>, id: I)
    requires p.WellFormed() && p.Midway(before, done, dev)
    requires id in p.cur.key && id !in done
    ensures p.MidOwners(done + {id}, p.Turn(dev, id))
  {
    var next := p.Turn(dev, id);
    forall a | a in next.owner
      ensures next.owner[a] in p.cur.whose
      ensures var i := p.cur.whose[next.owner[a]]; (i in done + {id} || i in p.untouched ==> p.cur.ip[i] == a)
    {
      if id in p.untouched || a != p.cur.ip[id] {
        assert a in dev.owner && next.owner[a] == dev.owner[a];
        assert id !in p.untouched ==> dev.owner[a] != p.cur.key[id];
      }
    }
  }

  lemma MidwayEnd<I, A>(p: Plan<I, A>, before: Device<A>, dev: Device<A>)
    requires p.WellFormed() && p.Midway(before, p.cur.key.Keys, dev)
    ensures p.cur.Shapes(dev)
    ensures forall id :: id in p.cur.key ==> dev.peers[p.cur.key[id]] == p.After(before, id)
  {
  }

  // ---------- Every peer has its turn ----------

  function SetOf<I>(ids: seq<I>): set<I> {
    if ids == [] then {} else SetOf(ids[..|ids| - 1]) + {ids[|ids| - 1]}
  }

  lemma {:induction false} SetOfMeaning<I>(ids: seq<I>, id: I)
    ensures id in SetOf(ids) <==> id in ids
  {
    if ids != [] {
      var n := |ids| - 1;
      SetOfMeaning(ids[..n], id);
      assert ids == ids[..n] + [ids[n]];
    }
  }

  lemma TurnKeepsMidway<I, A>(p: Plan<I, A>, before: Device<A>, done: set<I>, dev: Device<A>, id: I)
    requires p.WellFormed() && p.Midway(before, done, dev)
    requires id in p.cur.key && id !in done
    ensures p.Midway(before, done + {id}, p.Turn(dev, id))
  {
    MidKeysStep(p, before, done, dev, id);
    MidOwnsStep(p, before, done, dev, id);
    MidOwnersStep(p, before, done, dev, id);
  }

  function Turns<I, A>(p: Plan<I, A>, dev: Device<A>, ids: seq<I>): Device<A>
    requires p.cur.ip.Keys == p.psk.Keys == p.endpoint.Keys == p.cur.key.Keys
  {
    if ids == [] then dev else
    var n := |ids| - 1;
    var mid := Turns(p, dev, ids[..n]);
    if ids[n] in p.cur.key then p.Turn(mid, ids[n]) else mid
  }

  /** Distinct ids that all have an entry in the new list. */
  ghost predicate Listed<I(!new), A>(p: Plan<I, A>, ids: seq<I>) {
    && (forall i, j :: 0 <= i < j < |ids| ==> ids[i] != ids[j])
    && (forall i :: 0 <= i < |ids| ==> ids[i] in p.cur.key)
  }

  lemma {:induction false} TurnsKeepMidway<I(!new), A>(p: Plan<I, A>, before: Device<A>, dev: Device<A>, ids: seq<I>)
    requires p.WellFormed() && p.Midway(before, {}, dev) && Listed(p, ids)
    ensures p.Midway(before, SetOf(ids), Turns(p, dev, ids))
  {
    if ids != [] {
      var n := |ids| - 1;
      ListedPrefix(p, ids);
      TurnsKeepMidway(p, before, dev, ids[..n]);
      TurnKeepsMidway(p, before, SetOf(ids[..n]), Turns(p, dev, ids[..n]), ids[n]);
    }
  }

  lemma ListedPrefix<I(!new), A>(p: Plan<I, A>, ids: seq<I>)
    requires Listed(p, ids) && ids != []
    ensures var n := |ids| - 1; Listed(p, ids[..n]) && ids[n] in p.cur.key && ids[n] !in SetOf(ids[..n])
  {
    SetOfMeaning(ids[..|ids| - 1], ids[|ids| - 1]);
  }

  lemma {:induction false} TurnsKeepDevice<I, A>(p: Plan<I, A>, dev: Device<A>, ids: seq<I>)
    requires p.cur.ip.Keys == p.psk.Keys == p.endpoint.Keys == p.cur.key.Keys
    ensures Turns(p, dev, ids).privateKey == dev.privateKey && Turns(p, dev, ids).port == dev.port
  {
    if ids != [] { TurnsKeepDevice(p, dev, ids[..|ids| - 1]); }
  }

  /** Carried out on a device that has the old peers, in any order, the plan ends with the new ones. */
  lemma PlanCarriedOut<I(!new), A(!new)>(p: Plan<I, A>, before: Device<A>, ids: seq<I>)
    requires p.WellFormed() && p.old_.Shapes(before)
    requires Enumerates(ids, p.cur.key.Keys)
    ensures p.CarriedOut(before, Turns(p, DropKeys(before, p.Dead()), ids))
  {
    var dev := DropKeys(before, p.Dead());
    MidwayStart(p, before);
    TurnsKeepMidway(p, before, dev, ids);
    TurnsKeepDevice(p, dev, ids);
    forall id ensures id in SetOf(ids) <==> id in p.cur.key { SetOfMeaning(ids, id); }
    assert SetOf(ids) == p.cur.key.Keys;
    MidwayEnd(p, before, Turns(p, dev, ids));
  }

  /** Two devices with the same peers and IPs differ in their sessions at most. */
  lemma ShapesDetermine<I(!new), A(!new)>(r: Roster<I, A>, a: Device<A>, b: Device<A>)
    requires r.WellFormed() && r.Shapes(a) && r.Shapes(b)
    ensures a.owner == b.owner && a.peers.Keys == b.peers.Keys
    ensures a.peers == b.peers <==> forall id :: id in r.key ==> a.peers[r.key[id]] == b.peers[r.key[id]]
  {
    forall ip ensures ip in a.owner <==> ip in b.owner {
      if ip in a.owner { var id := r.whose[a.owner[ip]]; assert r.ip[id] in b.owner; }
      if ip in b.owner { var id := r.whose[b.owner[ip]]; assert r.ip[id] in a.owner; }
    }
    forall ip | ip in a.owner ensures a.owner[ip] == b.owner[ip] {
      var id := r.whose[a.owner[ip]];
      assert b.owner[r.ip[id]] == r.key[id];
    }
    if forall id :: id in r.key ==> a.peers[r.key[id]] == b.peers[r.key[id]] {
      forall k | k in a.peers ensures a.peers[k] == b.peers[k] {
        assert r.key[r.whose[k]] == k;
      }
    }
  }
}
