/**
 * internal/wgdev/uapi.go, seen from the configuration: a reload leaves wg as a restart with the new
 * configuration would, exactly when no peer that keeps its key loses its preshared key or endpoint;
 * it never disturbs a peer whose entry did not change.
 */
module WgReload {
  import opened Basics
  import opened Net
  import opened Configuration
  import opened Validation
  import opened Wg
  import opened PeerPlan
  import opened Uapi
  import opened Reconfigure

  // ---------- UAPIConfig ----------

  function AllPeerLines(lib: Lib, peers: seq<Peer>, secrets: map<string, string>): seq<Line<string>> {
    if peers == [] then [] else
    var n := |peers| - 1;
    AllPeerLines(lib, peers[..n], secrets) + PeerLines(lib, peers[n], PskText(secrets, peers[n].peerID))
  }

  function ConfigLines(lib: Lib, c: Config, key: nat): seq<Line<string>> {
    [PrivateKey(key), ListenPort(c.self.listenPort), ReplacePeers] + AllPeerLines(lib, Others(c), c.secrets)
  }

  /** The first peer whose key or preshared key does not read. */
  function FirstUnreadable(lib: Lib, peers: seq<Peer>, secrets: map<string, string>): Option<Peer> {
    if peers == [] then None else
    var n := |peers| - 1;
    var before := FirstUnreadable(lib, peers[..n], secrets);
    if before.Some? then before
    else if Readable(lib, peers[n], PskText(secrets, peers[n].peerID)) then None else Some(peers[n])
  }

  lemma {:induction false} FirstUnreadableMeaning(lib: Lib, peers: seq<Peer>, secrets: map<string, string>)
    ensures FirstUnreadable(lib, peers, secrets) == None <==>
            forall p :: p in peers ==> Readable(lib, p, PskText(secrets, p.peerID))
  {
    if peers != [] {
      var n := |peers| - 1;
      FirstUnreadableMeaning(lib, peers[..n], secrets);
      assert peers == peers[..n] + [peers[n]];
    }
  }

  lemma LinesStep(lib: Lib, peers: seq<Peer>, p: Peer, secrets: map<string, string>)
    ensures AllPeerLines(lib, peers + [p], secrets)
            == AllPeerLines(lib, peers, secrets) + PeerLines(lib, p, PskText(secrets, p.peerID))
    ensures FirstUnreadable(lib, peers + [p], secrets) ==
            if FirstUnreadable(lib, peers, secrets).Some? then FirstUnreadable(lib, peers, secrets)
            else if Readable(lib, p, PskText(secrets, p.peerID)) then None else Some(p)
  {
    assert (peers + [p])[..|peers|] == peers;
  }

  lemma {:induction false} UnreadableStays(lib: Lib, c: Config, i: nat)
    requires i <= |c.peers|
    requires FirstUnreadable(lib, Without(c.peers[..i], c.self.peerID), c.secrets).Some?
    ensures FirstUnreadable(lib, Others(c), c.secrets).Some?
    decreases |c.peers| - i
  {
    if i == |c.peers| {
      assert c.peers[..i] == c.peers;
    } else {
      WithoutStep(c.peers, c.self.peerID, i);
      LinesStep(lib, Without(c.peers[..i], c.self.peerID), c.peers[i], c.secrets);
      UnreadableStays(lib, c, i + 1);
    }
  }

  /** lines is what the loop has written about the first i entries, all of which read. */
  ghost predicate Written(lib: Lib, c: Config, i: nat, lines: seq<Line<string>>) {
    && i <= |c.peers| && lines == AllPeerLines(lib, Without(c.peers[..i], c.self.peerID), c.secrets)
    && FirstUnreadable(lib, Without(c.peers[..i], c.self.peerID), c.secrets) == None
  }

  /** One turn of the loop over the peers: what the text, so far lines, becomes. */
  method AddPeer(lib: Lib, c: Config, i: nat, lines: seq<Line<string>>)
    returns (r: Result<seq<Line<string>>, ReloadError>)
    requires i < |c.peers| && Written(lib, c, i, lines)
    ensures r.Ok? ==> Written(lib, c, i + 1, r.value)
    ensures r.Err? ==> FirstUnreadable(lib, Others(c), c.secrets).Some?
  {
    var p := c.peers[i];
    WithoutStep(c.peers, c.self.peerID, i);
    LinesStep(lib, Without(c.peers[..i], c.self.peerID), p, c.secrets);
    if p.peerID == c.self.peerID { return Ok(lines); }
    r := WritePeer(lib, p, PskText(c.secrets, p.peerID));
    if r.Err? {
      UnreadableStays(lib, c, i + 1);
      return r;
    }
    r := Ok(lines + r.value);
  }

  /** The loop over the peers. */
  method AddPeers(lib: Lib, c: Config) returns (r: Result<seq<Line<string>>, ReloadError>)
    ensures r.Ok? <==> FirstUnreadable(lib, Others(c), c.secrets) == None
    ensures r.Ok? ==> r.value == AllPeerLines(lib, Others(c), c.secrets)
  {
    r := Ok([]);
    for i := 0 to |c.peers|
      invariant r.Ok? && Written(lib, c, i, r.value)
    {
      r := AddPeer(lib, c, i, r.value);
      if r.Err? { return; }
    }
    assert c.peers[..|c.peers|] == c.peers;
  }

  /** UAPIConfig: a full configuration text, or the key that cannot be read. */
  method UAPIConfig(lib: Lib, c: Config, privateKey: string) returns (r: Result<seq<Line<string>>, ReloadError>)
    ensures r.Ok? <==> lib.parseKey(privateKey).Some? && FirstUnreadable(lib, Others(c), c.secrets) == None
    ensures r.Ok? ==> r.value == ConfigLines(lib, c, lib.parseKey(privateKey).value)
  {
    var priv := lib.parseKey(privateKey);
    if priv.None? { return Err(BadPrivateKey); }
    r := AddPeers(lib, c);
    if r.Ok? { r := Ok([PrivateKey(priv.value), ListenPort(c.self.listenPort), ReplacePeers] + r.value); }
  }

  // ---------- What it means to follow a configuration ----------

  /** The keys of some peers. */
  function Keys(lib: Lib, peers: seq<Peer>): set<nat> {
    if peers == [] then {} else Keys(lib, peers[..|peers| - 1]) + {KeyOf(lib, peers[|peers| - 1])}
  }

  /** Which key each tunnel IP of some peers belongs to. */
  function Assigned(lib: Lib, peers: seq<Peer>): map<string, nat> {
    if peers == [] then map[] else
    var p := peers[|peers| - 1];
    Assigned(lib, peers[..|peers| - 1])[p.tunnelIP := KeyOf(lib, p)]
  }

  /** wg has exactly the other machines as peers, and each owns exactly its tunnel IP. */
  ghost predicate Tracks(lib: Lib, c: Config, dev: Device<string>) {
    dev.peers.Keys == Keys(lib, Others(c)) && dev.owner == Assigned(lib, Others(c))
  }

  function Fresh(lib: Lib, c: Config, p: Peer): Session {
    Merge(Blank, PskOf(lib, PskText(c.secrets, p.peerID)), EndpointOf(p), KEEPALIVE)
  }

  function DeltaOf(lib: Lib, old_: Config, cur: Config): Delta {
    Delta(lib, ById(Others(old_)), ById(Others(cur)), old_.secrets, cur.secrets)
  }

  ghost predicate Sane(lib: Lib, c: Config) {
    GoodPeers(lib, c.self, c.peers) && ValidSecrets(lib, c)
  }

  lemma OthersApart(lib: Lib, c: Config, p: Peer, q: Peer)
    requires Sane(lib, c) && p in Others(c) && q in Others(c)
    ensures p == q || Apart(lib, p, q)
    ensures GoodPeer(lib, c.self, p)
  {
    PeersApart(lib, c.self, c.peers, p, q);
    var i :| 0 <= i < |c.peers| && c.peers[i] == p;
  }

  lemma {:induction false} WithoutIsUnique(peers: seq<Peer>, id: string)
    requires UniqueIds(peers)
    ensures UniqueIds(Without(peers, id))
  {
    if peers != [] {
      var n := |peers| - 1;
      WithoutIsUnique(peers[..n], id);
      var w := Without(peers[..n], id);
      forall i | 0 <= i < |w| ensures w[i].peerID != peers[n].peerID {
        assert w[i] in peers[..n];
      }
    }
  }

  /** Looking an other machine up by id finds its entry. */
  lemma OthersById(lib: Lib, c: Config, p: Peer)
    requires Sane(lib, c) && p in Others(c)
    ensures p.peerID in ById(Others(c)) && ById(Others(c))[p.peerID] == p
  {
    GoodPeersAreUnique(lib, c.self, c.peers);
    WithoutIsUnique(c.peers, c.self.peerID);
    LookupUnique(Others(c), p);
  }

  lemma OthersSound(lib: Lib, c: Config)
    requires Sane(lib, c)
    ensures Sound(lib, ById(Others(c)))
  {
    var m := ById(Others(c));
    forall i | i in m ensures lib.parseKey(m[i].publicKey).Some? {
      OthersApart(lib, c, m[i], m[i]);
    }
    forall i, j | i in m && j in m
      ensures KeyOf(lib, m[i]) == KeyOf(lib, m[j]) ==> i == j
      ensures m[i].tunnelIP == m[j].tunnelIP ==> i == j
    {
      OthersApart(lib, c, m[i], m[j]);
      OthersApart(lib, c, m[j], m[i]);
    }
  }

  lemma {:induction false} KeySource(lib: Lib, peers: seq<Peer>, k: nat) returns (p: Peer)
    requires k in Keys(lib, peers)
    ensures p in peers && KeyOf(lib, p) == k
  {
    var n := |peers| - 1;
    if KeyOf(lib, peers[n]) == k {
      p := peers[n];
    } else {
      p := KeySource(lib, peers[..n], k);
    }
  }

  lemma {:induction false} KeyEntry(lib: Lib, peers: seq<Peer>, p: Peer)
    requires p in peers
    ensures KeyOf(lib, p) in Keys(lib, peers)
  {
    var n := |peers| - 1;
    if peers[n] != p {
      assert peers == peers[..n] + [peers[n]];
      KeyEntry(lib, peers[..n], p);
    }
  }

  lemma {:induction false} AssignedSource(lib: Lib, peers: seq<Peer>, ip: string) returns (p: Peer)
    requires ip in Assigned(lib, peers)
    ensures p in peers && p.tunnelIP == ip && KeyOf(lib, p) == Assigned(lib, peers)[ip]
  {
    var n := |peers| - 1;
    if peers[n].tunnelIP == ip {
      p := peers[n];
    } else {
      p := AssignedSource(lib, peers[..n], ip);
    }
  }

  lemma {:induction false} AssignedListed(lib: Lib, peers: seq<Peer>, p: Peer)
    requires p in peers
    ensures p.tunnelIP in Assigned(lib, peers)
  {
    var n := |peers| - 1;
    if peers[n] != p {
      assert peers == peers[..n] + [peers[n]];
      AssignedListed(lib, peers[..n], p);
    }
  }

  /** Tunnel IPs are unique, so each belongs to its own peer's key. */
  lemma AssignedEntry(lib: Lib, c: Config, p: Peer)
    requires Sane(lib, c) && p in Others(c)
    ensures p.tunnelIP in Assigned(lib, Others(c)) && Assigned(lib, Others(c))[p.tunnelIP] == KeyOf(lib, p)
  {
    AssignedListed(lib, Others(c), p);
    var q := AssignedSource(lib, Others(c), p.tunnelIP);
    OthersApart(lib, c, p, q);
  }

  /** The roster of the other machines of a configuration. */
  ghost predicate IsRoster(lib: Lib, c: Config, r: Roster<string, string>) {
    r.WellFormed() && r.key == KeyMap(lib, ById(Others(c))) && r.ip == IPMap(ById(Others(c)))
  }

  lemma RosterEntry(lib: Lib, c: Config, r: Roster<string, string>, p: Peer)
    requires Sane(lib, c) && IsRoster(lib, c, r) && p in Others(c)
    ensures p.peerID in r.key && r.key[p.peerID] == KeyOf(lib, p) && r.ip[p.peerID] == p.tunnelIP
    ensures KeyOf(lib, p) in r.whose && r.whose[KeyOf(lib, p)] == p.peerID
  {
    OthersById(lib, c, p);
  }

  /** Keys and owned IPs as the roster has them are keys and owned IPs as the list has them. */
  lemma RosterKeys(lib: Lib, c: Config, r: Roster<string, string>, k: nat)
    requires Sane(lib, c) && IsRoster(lib, c, r)
    ensures k in r.whose <==> k in Keys(lib, Others(c))
  {
    if k in r.whose {
      var p := ById(Others(c))[r.whose[k]];
      KeyEntry(lib, Others(c), p);
    }
    if k in Keys(lib, Others(c)) {
      var p := KeySource(lib, Others(c), k);
      RosterEntry(lib, c, r, p);
    }
  }

  lemma RosterId(lib: Lib, c: Config, r: Roster<string, string>, id: string)
    requires Sane(lib, c) && IsRoster(lib, c, r) && id in r.key
    ensures r.ip[id] in Assigned(lib, Others(c)) && Assigned(lib, Others(c))[r.ip[id]] == r.key[id]
  {
    AssignedEntry(lib, c, ById(Others(c))[id]);
  }

  lemma RosterIP(lib: Lib, c: Config, r: Roster<string, string>, ip: string)
    requires Sane(lib, c) && IsRoster(lib, c, r) && ip in Assigned(lib, Others(c))
    ensures Assigned(lib, Others(c))[ip] in r.whose
    ensures r.ip[r.whose[Assigned(lib, Others(c))[ip]]] == ip
  {
    var p := AssignedSource(lib, Others(c), ip);
    RosterEntry(lib, c, r, p);
  }

  lemma AssignedOwns(lib: Lib, c: Config, r: Roster<string, string>)
    requires Sane(lib, c) && IsRoster(lib, c, r)
    ensures r.Owns(Assigned(lib, Others(c)))
  {
    forall id | id in r.key
      ensures r.ip[id] in Assigned(lib, Others(c)) && Assigned(lib, Others(c))[r.ip[id]] == r.key[id]
    {
      RosterId(lib, c, r, id);
    }
  }

  lemma AssignedOwned(lib: Lib, c: Config, r: Roster<string, string>)
    requires Sane(lib, c) && IsRoster(lib, c, r)
    ensures r.Owned(Assigned(lib, Others(c)))
  {
    forall a | a in Assigned(lib, Others(c))
      ensures Assigned(lib, Others(c))[a] in r.whose && r.ip[r.whose[Assigned(lib, Others(c))[a]]] == a
    {
      RosterIP(lib, c, r, a);
    }
  }

  lemma RosterKeySet(lib: Lib, c: Config, r: Roster<string, string>)
    requires Sane(lib, c) && IsRoster(lib, c, r)
    ensures r.whose.Keys == Keys(lib, Others(c))
  {
    forall k | k in r.whose ensures k in Keys(lib, Others(c)) { RosterKeys(lib, c, r, k); }
    forall k | k in Keys(lib, Others(c)) ensures k in r.whose { RosterKeys(lib, c, r, k); }
  }

  lemma TracksShapes(lib: Lib, c: Config, r: Roster<string, string>, dev: Device<string>)
    requires Sane(lib, c) && IsRoster(lib, c, r) && Tracks(lib, c, dev)
    ensures r.Shapes(dev)
  {
    RosterKeySet(lib, c, r);
    AssignedOwns(lib, c, r);
    AssignedOwned(lib, c, r);
  }

  lemma ShapeTracks(lib: Lib, c: Config, r: Roster<string, string>, dev: Device<string>)
    requires Sane(lib, c) && IsRoster(lib, c, r) && r.Shapes(dev)
    ensures Tracks(lib, c, dev)
  {
    var listed := Device(0, 0, map k | k in Keys(lib, Others(c)) :: Blank, Assigned(lib, Others(c)));
    TracksShapes(lib, c, r, listed);
    ShapesDetermine(r, dev, listed);
  }

  // ---------- A fresh installation ----------

  /** The reload from a list with nobody in it: every peer is new. */
  function FromNothing(lib: Lib, c: Config): Delta {
    Delta(lib, map[], ById(Others(c)), map[], c.secrets)
  }

  function Ids(peers: seq<Peer>): seq<string> {
    if peers == [] then [] else Ids(peers[..|peers| - 1]) + [peers[|peers| - 1].peerID]
  }

  lemma {:induction false} IdsAt(peers: seq<Peer>)
    ensures |Ids(peers)| == |peers|
    ensures forall i :: 0 <= i < |peers| ==> Ids(peers)[i] == peers[i].peerID
  {
    if peers != [] { IdsAt(peers[..|peers| - 1]); }
  }

  lemma {:induction false} IdsMeaning(peers: seq<Peer>, id: string)
    ensures id in Ids(peers) <==> id in ById(peers)
  {
    if peers != [] { IdsMeaning(peers[..|peers| - 1], id); }
  }

  lemma IdsEnumerate(lib: Lib, c: Config)
    requires Sane(lib, c)
    ensures Enumerates(Ids(Others(c)), ById(Others(c)).Keys)
  {
    var peers := Others(c);
    forall id ensures id in Ids(peers) <==> id in ById(peers).Keys { IdsMeaning(peers, id); }
    GoodPeersAreUnique(lib, c.self, c.peers);
    WithoutIsUnique(c.peers, c.self.peerID);
    IdsDistinct(peers);
  }

  lemma IdsDistinct(peers: seq<Peer>)
    requires UniqueIds(peers)
    ensures forall i, j :: 0 <= i < j < |Ids(peers)| ==> Ids(peers)[i] != Ids(peers)[j]
  {
    IdsAt(peers);
  }

  lemma {:induction false} LinesAreSettings(lib: Lib, c: Config, peers: seq<Peer>)
    requires Sane(lib, c) && forall p :: p in peers ==> p in Others(c)
    ensures AllPeerLines(lib, peers, c.secrets) == FromNothing(lib, c).Settings(Ids(peers))
  {
    if peers != [] {
      var n := |peers| - 1;
      LinesAreSettings(lib, c, peers[..n]);
      OthersById(lib, c, peers[n]);
      var ids := Ids(peers);
      assert ids[..|ids| - 1] == Ids(peers[..n]);
    }
  }

  lemma FromNothingSound(lib: Lib, c: Config)
    requires Sane(lib, c)
    ensures SoundDelta(FromNothing(lib, c))
  {
    OthersSound(lib, c);
    CurCanRead(lib, c, FromNothing(lib, c));
  }

  lemma CurCanRead(lib: Lib, c: Config, d: Delta)
    requires Sane(lib, c) && d.lib == lib && d.cur == ById(Others(c)) && d.curPSK == c.secrets
    ensures forall id :: id in d.cur ==> d.CanRead(id)
  {
    forall id | id in d.cur ensures d.CanRead(id) {
      OthersApart(lib, c, d.cur[id], d.cur[id]);
    }
  }

  /** The sessions of a device are those of a restart with this configuration. */
  ghost predicate FreshSessions(lib: Lib, c: Config, dev: Device<string>) {
    forall p :: p in Others(c) ==>
      KeyOf(lib, p) in dev.peers && dev.peers[KeyOf(lib, p)] == Fresh(lib, c, p)
  }

  lemma SettingsInstall(lib: Lib, c: Config, p: Plan<string, string>, empty: Device<string>, dev: Device<string>)
    requires Sane(lib, c) && Plans(p, FromNothing(lib, c)) && IsRoster(lib, c, p.cur)
    requires p.old_.key == map[] && empty.peers == map[] && empty.owner == map[]
    requires dev == Turns(p, empty, Ids(Others(c)))
    ensures Tracks(lib, c, dev) && FreshSessions(lib, c, dev)
    ensures dev.privateKey == empty.privateKey && dev.port == empty.port
  {
    assert DropKeys(empty, p.Dead()) == empty;
    assert p.old_.Shapes(empty);
    IdsEnumerate(lib, c);
    PlanCarriedOut(p, empty, Ids(Others(c)));
    ShapeTracks(lib, c, p.cur, dev);
    SettingsFresh(lib, c, p, empty, dev);
  }

  lemma SettingsFresh(lib: Lib, c: Config, p: Plan<string, string>, empty: Device<string>, dev: Device<string>)
    requires Sane(lib, c) && Plans(p, FromNothing(lib, c)) && IsRoster(lib, c, p.cur)
    requires p.old_.key == map[] && p.CarriedOut(empty, dev)
    ensures FreshSessions(lib, c, dev)
  {
    forall o | o in Others(c)
      ensures KeyOf(lib, o) in dev.peers && dev.peers[KeyOf(lib, o)] == Fresh(lib, c, o)
    {
      RosterEntry(lib, c, p.cur, o);
      NewPeerIsFresh(lib, c, FromNothing(lib, c), p, empty, o);
    }
  }

  /** Whatever was in wg, a full configuration leaves exactly the configured peers, freshly set. */
  lemma ConfigInstalls(lib: Lib, c: Config, key: nat, was: Device<string>)
    requires Sane(lib, c)
    ensures var dev := IpcSet(was, ConfigLines(lib, c, key));
            && Tracks(lib, c, dev) && FreshSessions(lib, c, dev)
            && dev.privateKey == key && dev.port == c.self.listenPort
  {
    var d := FromNothing(lib, c);
    var empty: Device<string> := Device(key, c.self.listenPort, map[], map[]);
    FromNothingSound(lib, c);
    var p := MakePlan(d);
    HeaderEmpties(was, key, c.self.listenPort, AllPeerLines(lib, Others(c), c.secrets));
    LinesAreSettings(lib, c, Others(c));
    SettingsAreTurns(p, d, Cursor(empty, None), Ids(Others(c)));
    SettingsInstall(lib, c, p, empty, IpcSet(was, ConfigLines(lib, c, key)));
  }

  lemma NewPeerIsFresh(lib: Lib, c: Config, d: Delta, p: Plan<string, string>, before: Device<string>, o: Peer)
    requires Sane(lib, c) && d == FromNothing(lib, c) && Plans(p, d) && o in Others(c)
    ensures o.peerID in p.cur.key && p.After(before, o.peerID) == Fresh(lib, c, o)
  {
    OthersById(lib, c, o);
    assert PlansPeer(p, d, o.peerID);
    assert !d.Kept(o.peerID) && !d.Unchanged(o.peerID);
  }

  lemma HeaderEmpties(was: Device<string>, key: nat, port: int, lines: seq<Line<string>>)
    ensures IpcSet(was, [PrivateKey(key), ListenPort(port), ReplacePeers] + lines)
            == Feed(Cursor(Device(key, port, map[], map[]), None), lines).dev
  {
    var c0 := Cursor(was, None);
    var one: seq<Line<string>> := [PrivateKey(key)];
    var two := one + [ListenPort(port)];
    var three := two + [ReplacePeers];
    assert three == [PrivateKey(key), ListenPort(port), ReplacePeers];
    FeedAppend(c0, three, lines);
    FeedAppend(c0, two, [ReplacePeers]);
    FeedAppend(c0, one, [ListenPort(port)]);
    FeedOne(c0, PrivateKey(key));
    FeedOne(Feed(c0, one), ListenPort(port));
    FeedOne(Feed(c0, two), ReplacePeers);
  }

  // ---------- A reload ----------

  /** If this peer keeps its key, it keeps having a preshared key and an endpoint if it had one. */
  predicate NoLossAt(d: Delta, id: string)
    requires id in d.cur
  {
    d.Kept(id) ==>
      && (PskText(d.oldPSK, id) != "" ==> PskText(d.curPSK, id) != "")
      && (d.old_[id].endpoints != [] ==> d.cur[id].endpoints != [])
  }

  ghost predicate NoLoss(d: Delta) { forall id :: id in d.cur ==> NoLossAt(d, id) }

  /** What a session becomes over a reload. */
  function Reloaded(d: Delta, before: Device<string>, id: string): Session
    requires id in d.cur
  {
    var p := d.cur[id];
    var s := SessionOf(before, KeyOf(d.lib, p));
    if d.Unchanged(id) then s
    else Merge(if d.Kept(id) then s else Blank, PskOf(d.lib, PskText(d.curPSK, id)), EndpointOf(p), KEEPALIVE)
  }

  /** Every session after a reload is as Reloaded says. */
  ghost predicate ReloadedSessions(d: Delta, before: Device<string>, after: Device<string>) {
    forall id :: id in d.cur ==>
      KeyOf(d.lib, d.cur[id]) in after.peers && after.peers[KeyOf(d.lib, d.cur[id])] == Reloaded(d, before, id)
  }

  lemma PlannedSessions(lib: Lib, cur: Config, d: Delta, p: Plan<string, string>, before: Device<string>, after: Device<string>)
    requires Sane(lib, cur) && d.lib == lib && d.cur == ById(Others(cur))
    requires Plans(p, d) && IsRoster(lib, cur, p.cur) && p.CarriedOut(before, after)
    ensures ReloadedSessions(d, before, after)
  {
    forall id | id in d.cur
      ensures KeyOf(lib, d.cur[id]) in after.peers
      ensures after.peers[KeyOf(lib, d.cur[id])] == Reloaded(d, before, id)
    {
      PlannedIsReloaded(p, d, before, id);
      RosterEntry(lib, cur, p.cur, d.cur[id]);
    }
  }

  lemma MakeReloadPlan(lib: Lib, old_: Config, cur: Config) returns (p: Plan<string, string>)
    requires Sane(lib, old_) && Sane(lib, cur)
    ensures Plans(p, DeltaOf(lib, old_, cur)) && IsRoster(lib, old_, p.old_) && IsRoster(lib, cur, p.cur)
  {
    OthersSound(lib, old_);
    OthersSound(lib, cur);
    CurCanRead(lib, cur, DeltaOf(lib, old_, cur));
    p := MakePlan(DeltaOf(lib, old_, cur));
  }

  /**
   * A reload, in any order of its maps, on any device that tracks the old configuration, whatever
   * its sessions have become since: the device tracks the new configuration, and every session is
   * as Reloaded says.
   */
  lemma ReloadTracks(lib: Lib, old_: Config, cur: Config, before: Device<string>, gone: seq<string>, ids: seq<string>)
    requires Sane(lib, old_) && Sane(lib, cur) && Tracks(lib, old_, before)
    requires Enumerates(gone, DeltaOf(lib, old_, cur).old_.Keys) && Enumerates(ids, DeltaOf(lib, old_, cur).cur.Keys)
    ensures var d := DeltaOf(lib, old_, cur);
            var after := IpcSet(before, d.Script(gone, ids));
            && Tracks(lib, cur, after) && ReloadedSessions(d, before, after)
            && after.privateKey == before.privateKey && after.port == before.port
  {
    hide Sane, Tracks, IsRoster, Plans, ReloadedSessions, IpcSet;
    var d := DeltaOf(lib, old_, cur);
    var p := MakeReloadPlan(lib, old_, cur);
    TracksShapes(lib, old_, p.old_, before);
    ReloadEffect(p, d, before, gone, ids);
    PlannedReload(lib, cur, d, p, before, IpcSet(before, d.Script(gone, ids)));
  }

  lemma PlannedReload(lib: Lib, cur: Config, d: Delta, p: Plan<string, string>, before: Device<string>, after: Device<string>)
    requires Sane(lib, cur) && d.lib == lib && d.cur == ById(Others(cur))
    requires Plans(p, d) && IsRoster(lib, cur, p.cur) && p.CarriedOut(before, after)
    ensures Tracks(lib, cur, after) && ReloadedSessions(d, before, after)
    ensures after.privateKey == before.privateKey && after.port == before.port
  {
    ShapeTracks(lib, cur, p.cur, after);
    PlannedSessions(lib, cur, d, p, before, after);
  }

  lemma PlannedIsReloaded(p: Plan<string, string>, d: Delta, before: Device<string>, id: string)
    requires Plans(p, d) && id in d.cur
    ensures p.After(before, id) == Reloaded(d, before, id) && p.cur.key[id] == KeyOf(d.lib, d.cur[id])
  {
    assert PlansPeer(p, d, id);
  }

  /** What Sane says of one other machine's first endpoint and preshared key. */
  lemma OtherReads(lib: Lib, c: Config, p: Peer)
    requires Sane(lib, c) && p in Others(c) && lib.parseAddrPort("").None?
    ensures PskOf(lib, PskText(c.secrets, p.peerID)).None? <==> PskText(c.secrets, p.peerID) == ""
    ensures p.endpoints != [] ==> p.endpoints[0] != ""
  {
    OthersApart(lib, c, p, p);
    if p.endpoints != [] { assert GoodEndpoint(lib, p.endpoints[0]); }
  }

  lemma UnchangedIsFresh(lib: Lib, old_: Config, cur: Config, id: string)
    requires Sane(lib, old_) && Sane(lib, cur) && lib.parseAddrPort("").None?
    requires var d := DeltaOf(lib, old_, cur); id in d.cur && d.Unchanged(id)
    ensures var d := DeltaOf(lib, old_, cur);
            Fresh(lib, old_, d.old_[id]) == Fresh(lib, cur, d.cur[id]) && NoLossAt(d, id)
  {
    var d := DeltaOf(lib, old_, cur);
    OtherReads(lib, cur, d.cur[id]);
    OtherReads(lib, old_, d.old_[id]);
  }

  lemma ChangedIsFresh(lib: Lib, old_: Config, cur: Config, id: string)
    requires Sane(lib, old_) && Sane(lib, cur) && lib.parseAddrPort("").None?
    requires var d := DeltaOf(lib, old_, cur); id in d.cur && d.Kept(id)
    ensures var d := DeltaOf(lib, old_, cur);
            var p := d.cur[id];
            var s := Merge(Fresh(lib, old_, d.old_[id]), PskOf(lib, PskText(cur.secrets, id)), EndpointOf(p), KEEPALIVE);
            s == Fresh(lib, cur, p) <==> NoLossAt(d, id)
  {
    var d := DeltaOf(lib, old_, cur);
    OtherReads(lib, cur, d.cur[id]);
    OtherReads(lib, old_, d.old_[id]);
  }

  /** A session over a reload becomes what a restart would make it, unless something was lost. */
  lemma SessionAsFresh(lib: Lib, old_: Config, cur: Config, before: Device<string>, id: string)
    requires Sane(lib, old_) && Sane(lib, cur) && lib.parseAddrPort("").None?
    requires FreshSessions(lib, old_, before)
    requires id in DeltaOf(lib, old_, cur).cur
    ensures var d := DeltaOf(lib, old_, cur);
            Reloaded(d, before, id) == Fresh(lib, cur, d.cur[id]) <==> NoLossAt(d, id)
  {
    var d := DeltaOf(lib, old_, cur);
    if d.Kept(id) {
      assert d.old_[id] in Others(old_);
      assert SessionOf(before, KeyOf(lib, d.cur[id])) == Fresh(lib, old_, d.old_[id]);
      if d.Unchanged(id) {
        UnchangedIsFresh(lib, old_, cur, id);
      } else {
        ChangedIsFresh(lib, old_, cur, id);
      }
    }
  }

  lemma SameTracksSameSessions(lib: Lib, c: Config, a: Device<string>, b: Device<string>)
    requires Sane(lib, c) && Tracks(lib, c, a) && Tracks(lib, c, b) && FreshSessions(lib, c, b)
    ensures a.owner == b.owner && a.peers.Keys == b.peers.Keys
    ensures a.peers == b.peers <==> FreshSessions(lib, c, a)
  {
    if FreshSessions(lib, c, a) {
      forall k | k in a.peers ensures a.peers[k] == b.peers[k] {
        var p := KeySource(lib, Others(c), k);
      }
    }
    if a.peers == b.peers {
      forall p | p in Others(c)
        ensures KeyOf(lib, p) in a.peers && a.peers[KeyOf(lib, p)] == Fresh(lib, c, p)
      {
        KeyEntry(lib, Others(c), p);
      }
    }
  }

  lemma FreshAfterReload(lib: Lib, old_: Config, cur: Config, before: Device<string>, after: Device<string>)
    requires Sane(lib, old_) && Sane(lib, cur) && lib.parseAddrPort("").None?
    requires FreshSessions(lib, old_, before)
    requires ReloadedSessions(DeltaOf(lib, old_, cur), before, after)
    ensures FreshSessions(lib, cur, after) <==> NoLoss(DeltaOf(lib, old_, cur))
  {
    var d := DeltaOf(lib, old_, cur);
    forall id | id in d.cur
      ensures NoLossAt(d, id) <==> after.peers[KeyOf(lib, d.cur[id])] == Fresh(lib, cur, d.cur[id])
    {
      SessionAsFresh(lib, old_, cur, before, id);
    }
    if NoLoss(d) {
      forall p | p in Others(cur)
        ensures KeyOf(lib, p) in after.peers && after.peers[KeyOf(lib, p)] == Fresh(lib, cur, p)
      {
        OthersById(lib, cur, p);
        assert NoLossAt(d, p.peerID);
      }
    }
  }

  /**
   * The difference does what the whole would: reloading wg from one configuration to another of
   * the same machine leaves the very device that a restart with the other would, if and only if no
   * peer that keeps its key loses its preshared key or its endpoint. Peers and allowed IPs are the
   * same either way.
   */
  lemma ReloadIsReinstall(lib: Lib, old_: Config, cur: Config, key: nat, was: Device<string>, other: Device<string>,
                          gone: seq<string>, ids: seq<string>)
    requires Sane(lib, old_) && Sane(lib, cur) && old_.self == cur.self && lib.parseAddrPort("").None?
    requires Enumerates(gone, DeltaOf(lib, old_, cur).old_.Keys) && Enumerates(ids, DeltaOf(lib, old_, cur).cur.Keys)
    ensures var d := DeltaOf(lib, old_, cur);
            var running := IpcSet(was, ConfigLines(lib, old_, key));
            var reloaded := IpcSet(running, d.Script(gone, ids));
            var installed := IpcSet(other, ConfigLines(lib, cur, key));
            && reloaded.owner == installed.owner && reloaded.peers.Keys == installed.peers.Keys
            && (reloaded == installed <==> NoLoss(d))
  {
    var d := DeltaOf(lib, old_, cur);
    var running := IpcSet(was, ConfigLines(lib, old_, key));
    var reloaded := IpcSet(running, d.Script(gone, ids));
    ConfigInstalls(lib, old_, key, was);
    ConfigInstalls(lib, cur, key, other);
    ReloadTracks(lib, old_, cur, running, gone, ids);
    FreshAfterReload(lib, old_, cur, running, reloaded);
    SameTracksSameSessions(lib, cur, reloaded, IpcSet(other, ConfigLines(lib, cur, key)));
  }

  lemma SessionThereAndBack(lib: Lib, old_: Config, cur: Config, running: Device<string>, there: Device<string>, id: string)
    requires Sane(lib, old_) && Sane(lib, cur) && lib.parseAddrPort("").None?
    requires FreshSessions(lib, old_, running)
    requires ReloadedSessions(DeltaOf(lib, old_, cur), running, there)
    requires id in DeltaOf(lib, cur, old_).cur
    ensures var b := DeltaOf(lib, cur, old_);
            Reloaded(b, there, id) == Fresh(lib, old_, b.cur[id]) <==> NoLossAt(b, id)
  {
    var d, b := DeltaOf(lib, old_, cur), DeltaOf(lib, cur, old_);
    OtherReads(lib, old_, b.cur[id]);
    if b.Kept(id) {
      OtherReads(lib, cur, d.cur[id]);
      assert d.Kept(id) && (d.Unchanged(id) <==> b.Unchanged(id));
      assert SessionOf(running, KeyOf(lib, b.cur[id])) == Fresh(lib, old_, b.cur[id]);
      assert SessionOf(there, KeyOf(lib, d.cur[id])) == Reloaded(d, running, id);
    }
  }

  /**
   * The way back, as a failed reload takes it: from one configuration to another and back restores
   * the device exactly when the way back loses nothing.
   */
  lemma ReloadThereAndBack(lib: Lib, old_: Config, cur: Config, key: nat, was: Device<string>,
                           gone: seq<string>, ids: seq<string>, gone': seq<string>, ids': seq<string>)
    requires Sane(lib, old_) && Sane(lib, cur) && lib.parseAddrPort("").None?
    requires Enumerates(gone, DeltaOf(lib, old_, cur).old_.Keys) && Enumerates(ids, DeltaOf(lib, old_, cur).cur.Keys)
    requires Enumerates(gone', DeltaOf(lib, cur, old_).old_.Keys) && Enumerates(ids', DeltaOf(lib, cur, old_).cur.Keys)
    ensures var running := IpcSet(was, ConfigLines(lib, old_, key));
            var there := IpcSet(running, DeltaOf(lib, old_, cur).Script(gone, ids));
            var back := IpcSet(there, DeltaOf(lib, cur, old_).Script(gone', ids'));
            back == running <==> NoLoss(DeltaOf(lib, cur, old_))
  {
    var b := DeltaOf(lib, cur, old_);
    var running := IpcSet(was, ConfigLines(lib, old_, key));
    var there := IpcSet(running, DeltaOf(lib, old_, cur).Script(gone, ids));
    var back := IpcSet(there, b.Script(gone', ids'));
    ConfigInstalls(lib, old_, key, was);
    ReloadTracks(lib, old_, cur, running, gone, ids);
    ReloadTracks(lib, cur, old_, there, gone', ids');
    SameTracksSameSessions(lib, old_, back, running);
    FreshThereAndBack(lib, old_, cur, running, there, back);
  }

  lemma FreshThereAndBack(lib: Lib, old_: Config, cur: Config,
                          running: Device<string>, there: Device<string>, back: Device<string>)
    requires Sane(lib, old_) && Sane(lib, cur) && lib.parseAddrPort("").None?
    requires FreshSessions(lib, old_, running)
    requires ReloadedSessions(DeltaOf(lib, old_, cur), running, there)
    requires ReloadedSessions(DeltaOf(lib, cur, old_), there, back)
    ensures FreshSessions(lib, old_, back) <==> NoLoss(DeltaOf(lib, cur, old_))
  {
    var b := DeltaOf(lib, cur, old_);
    forall id | id in b.cur
      ensures NoLossAt(b, id) <==> back.peers[KeyOf(lib, b.cur[id])] == Fresh(lib, old_, b.cur[id])
    {
      SessionThereAndBack(lib, old_, cur, running, there, id);
    }
    if NoLoss(b) {
      forall p | p in Others(old_)
        ensures KeyOf(lib, p) in back.peers && back.peers[KeyOf(lib, p)] == Fresh(lib, old_, p)
      {
        OthersById(lib, old_, p);
        assert NoLossAt(b, p.peerID);
      }
    }
  }

  /** The configuration without one peer's preshared key, as after its key file is deleted. */
  function WithoutKey(c: Config, id: string): Config { c.(secrets := c.secrets - {id}) }

  lemma WithoutKeyIsSane(lib: Lib, c: Config, id: string)
    requires Sane(lib, c)
    ensures Sane(lib, WithoutKey(c, id))
  {
    forall i | i in WithoutKey(c, id).secrets ensures GoodKey(lib, WithoutKey(c, id).secrets[i]) {
      assert i in c.secrets;
    }
  }

  /**
   * A preshared key taken away stays in wg: after the reload the peer still has the session it had, key and
   * all, where a restart would leave it without one.
   */
  lemma RevokedKeyStays(lib: Lib, c: Config, before: Device<string>, gone: seq<string>, ids: seq<string>, p: Peer)
    requires Sane(lib, c) && p in Others(c) && PskText(c.secrets, p.peerID) != ""
    requires Tracks(lib, c, before) && FreshSessions(lib, c, before)
    requires Enumerates(gone, DeltaOf(lib, c, WithoutKey(c, p.peerID)).old_.Keys)
    requires Enumerates(ids, DeltaOf(lib, c, WithoutKey(c, p.peerID)).cur.Keys)
    ensures var d := DeltaOf(lib, c, WithoutKey(c, p.peerID));
            var after := IpcSet(before, d.Script(gone, ids));
            && !NoLoss(d) && KeyOf(lib, p) in after.peers
            && p.peerID in c.secrets && after.peers[KeyOf(lib, p)].psk == lib.parseKey(c.secrets[p.peerID])
            && Fresh(lib, WithoutKey(c, p.peerID), p).psk == None
  {
    var cur := WithoutKey(c, p.peerID);
    var d := DeltaOf(lib, c, cur);
    WithoutKeyIsSane(lib, c, p.peerID);
    ReloadTracks(lib, c, cur, before, gone, ids);
    OthersById(lib, c, p);
    assert p.peerID in d.cur && d.Kept(p.peerID) && !d.Unchanged(p.peerID) && !NoLossAt(d, p.peerID);
    KeyEntry(lib, Others(c), p);
    assert SessionOf(before, KeyOf(lib, p)) == Fresh(lib, c, p);
  }

  /** Of sane files every key reads. */
  lemma SaneReads(lib: Lib, c: Config)
    requires Sane(lib, c)
    ensures FirstUnreadable(lib, Others(c), c.secrets) == None
  {
    FirstUnreadableMeaning(lib, Others(c), c.secrets);
    forall p | p in Others(c) ensures Readable(lib, p, PskText(c.secrets, p.peerID)) { OthersApart(lib, c, p, p); }
  }

  // ---------- A reload with nothing to tell wg ----------

  /** No peer left the list and none is new or different. */
  ghost predicate Silent(d: Delta) {
    d.old_.Keys <= d.cur.Keys && forall id :: id in d.cur ==> d.Unchanged(id)
  }

  lemma {:induction false} SilentGone(d: Delta, order: seq<string>)
    ensures d.Gone(order) == [] <==> forall id :: id in order ==> d.GoneOf(id) == []
  {
    if order != [] {
      SilentGone(d, order[..|order| - 1]);
      assert order == order[..|order| - 1] + [order[|order| - 1]];
    }
  }

  lemma {:induction false} SilentSettings(d: Delta, ids: seq<string>)
    ensures d.Settings(ids) == [] <==> forall id :: id in ids ==> d.SettingOf(id) == []
  {
    hide Delta.SettingOf;
    if ids != [] {
      SilentSettings(d, ids[..|ids| - 1]);
      LastAmong(ids);
    }
  }

  lemma {:induction false} SilentRemovals(d: Delta, ids: seq<string>)
    requires forall id :: id in ids ==> d.RemovalOf(id) == []
    ensures d.Removals(ids) == []
  {
    hide Delta.RemovalOf;
    if ids != [] { SilentRemovals(d, ids[..|ids| - 1]); }
  }

  lemma LastAmong(ids: seq<string>)
    requires ids != []
    ensures forall id :: id in ids <==> id in ids[..|ids| - 1] || id == ids[|ids| - 1]
  {
    assert ids == ids[..|ids| - 1] + [ids[|ids| - 1]];
  }

  lemma LeavingSpeaks(d: Delta, id: string)
    requires id in d.old_ && d.lib.parseKey(d.old_[id].publicKey).Some?
    ensures d.GoneOf(id) == [] <==> id in d.cur
  {
    assert |d.RemoveLines(id)| > 0;
  }

  lemma ChangeSpeaks(d: Delta, id: string)
    requires id in d.cur
    ensures d.SettingOf(id) == [] <==> d.Unchanged(id)
    ensures d.Unchanged(id) ==> d.RemovalOf(id) == []
  {
    assert |PeerLines(d.lib, d.cur[id], PskText(d.curPSK, id))| > 0;
  }

  lemma OldKeyReads(lib: Lib, old_: Config, cur: Config, id: string)
    requires Sane(lib, old_) && id in DeltaOf(lib, old_, cur).old_
    ensures lib.parseKey(DeltaOf(lib, old_, cur).old_[id].publicKey).Some?
  {
    var p := DeltaOf(lib, old_, cur).old_[id];
    OthersApart(lib, old_, p, p);
  }

  /** The commands of a reload are none at all exactly when no peer left and none is new or different. */
  lemma NothingToTell(lib: Lib, old_: Config, cur: Config, gone: seq<string>, ids: seq<string>)
    requires Sane(lib, old_)
    requires Enumerates(gone, DeltaOf(lib, old_, cur).old_.Keys) && Enumerates(ids, DeltaOf(lib, old_, cur).cur.Keys)
    ensures DeltaOf(lib, old_, cur).Script(gone, ids) == [] <==> Silent(DeltaOf(lib, old_, cur))
  {
    var d := DeltaOf(lib, old_, cur);
    forall id | id in d.old_ ensures d.GoneOf(id) == [] <==> id in d.cur {
      OldKeyReads(lib, old_, cur, id);
      LeavingSpeaks(d, id);
    }
    forall id | id in d.cur
      ensures (d.SettingOf(id) == [] <==> d.Unchanged(id)) && (d.Unchanged(id) ==> d.RemovalOf(id) == [])
    {
      ChangeSpeaks(d, id);
    }
    hide Sane, Delta.GoneOf, Delta.SettingOf, Delta.RemovalOf, Delta.Unchanged;
    SilentGone(d, gone);
    SilentSettings(d, ids);
    if forall id :: id in ids ==> d.RemovalOf(id) == [] { SilentRemovals(d, ids); }
    assert |d.Script(gone, ids)| == |d.Gone(gone)| + |d.Removals(ids)| + |d.Settings(ids)|;
    assert d.Gone(gone) == [] <==> d.old_.Keys <= d.cur.Keys;
    assert d.Settings(ids) == [] <==> forall id :: id in d.cur ==> d.Unchanged(id);
  }

  // ---------- What wg is told, read from the files ----------

  predicate Other(c: Config, p: Peer) { p in c.peers && p.peerID != c.self.peerID }

  predicate Owns(owner: map<string, nat>, ip: string, k: nat) { ip in owner && owner[ip] == k }

  /** wg's peers are the other machines by the keys in their entries, and each owns exactly its tunnel IP. */
  ghost predicate HasPeersOf(lib: Lib, c: Config, dev: Device<string>) {
    && (forall k: nat :: k in dev.peers <==> exists p :: Other(c, p) && lib.parseKey(p.publicKey) == Some(k))
    && (forall ip, k: nat :: Owns(dev.owner, ip, k) <==>
                        exists p :: Other(c, p) && p.tunnelIP == ip && lib.parseKey(p.publicKey) == Some(k))
  }

  lemma OtherKey(lib: Lib, c: Config, p: Peer)
    requires Sane(lib, c) && Other(c, p)
    ensures p in Others(c) && lib.parseKey(p.publicKey) == Some(KeyOf(lib, p))
  {
    OthersApart(lib, c, p, p);
  }

  lemma KeysRead(lib: Lib, c: Config, k: nat)
    requires Sane(lib, c)
    ensures k in Keys(lib, Others(c)) <==> exists p :: Other(c, p) && lib.parseKey(p.publicKey) == Some(k)
  {
    if k in Keys(lib, Others(c)) {
      var p := KeySource(lib, Others(c), k);
      OtherKey(lib, c, p);
    }
    if p :| Other(c, p) && lib.parseKey(p.publicKey) == Some(k) {
      OtherKey(lib, c, p);
      KeyEntry(lib, Others(c), p);
    }
  }

  lemma OwnersRead(lib: Lib, c: Config, ip: string, k: nat)
    requires Sane(lib, c)
    ensures var m := Assigned(lib, Others(c));
            ip in m && m[ip] == k <==> exists p :: Other(c, p) && p.tunnelIP == ip && lib.parseKey(p.publicKey) == Some(k)
  {
    if ip in Assigned(lib, Others(c)) {
      var p := AssignedSource(lib, Others(c), ip);
      OtherKey(lib, c, p);
    }
    if p :| Other(c, p) && p.tunnelIP == ip && lib.parseKey(p.publicKey) == Some(k) {
      OtherKey(lib, c, p);
      AssignedEntry(lib, c, p);
    }
  }

  lemma PeersRead(lib: Lib, c: Config, dev: Device<string>)
    requires Sane(lib, c)
    ensures dev.peers.Keys == Keys(lib, Others(c)) <==>
            forall k: nat :: k in dev.peers <==> exists p :: Other(c, p) && lib.parseKey(p.publicKey) == Some(k)
  {
    hide Sane, Keys, Other;
    forall k: nat
      ensures k in Keys(lib, Others(c)) <==> exists p :: Other(c, p) && lib.parseKey(p.publicKey) == Some(k)
    {
      KeysRead(lib, c, k);
    }
    assert forall k: nat :: k in dev.peers <==> k in dev.peers.Keys;
  }

  lemma SameOwners(m: map<string, nat>, n: map<string, nat>)
    requires forall ip, k: nat :: Owns(m, ip, k) <==> Owns(n, ip, k)
    ensures m == n
  {
    forall ip ensures (ip in m <==> ip in n) && (ip in m ==> m[ip] == n[ip]) {
      if ip in m { assert Owns(m, ip, m[ip]); }
      if ip in n { assert Owns(n, ip, n[ip]); }
    }
    assert m.Keys == n.Keys;
  }

  /** What Tracks says, read from the files. */
  lemma TracksMeaning(lib: Lib, c: Config, dev: Device<string>)
    requires Sane(lib, c)
    ensures Tracks(lib, c, dev) <==> HasPeersOf(lib, c, dev)
  {
    hide Sane, Keys, Assigned, Other;
    PeersRead(lib, c, dev);
    var m := Assigned(lib, Others(c));
    forall ip, k: nat
      ensures Owns(m, ip, k) <==> exists p :: Other(c, p) && p.tunnelIP == ip && lib.parseKey(p.publicKey) == Some(k)
    {
      OwnersRead(lib, c, ip, k);
    }
    if HasPeersOf(lib, c, dev) { SameOwners(dev.owner, m); }
  }

  /**
   * The full commands, whatever wg held: a peer whose key text decodes to k is there under k with the
   * preshared key its own text decodes to, or none, its first endpoint, if it has one, and a keepalive of
   * 25 seconds, and k owns its tunnel IP.
   */
  lemma ConfigTells(lib: Lib, c: Config, key: nat, was: Device<string>, p: Peer, k: nat)
    requires Sane(lib, c) && p in c.peers && p.peerID != c.self.peerID && lib.parseKey(p.publicKey) == Some(k)
    ensures var dev := IpcSet(was, ConfigLines(lib, c, key));
            && dev.privateKey == key && dev.port == c.self.listenPort
            && k in dev.peers && dev.peers[k].keepalive == 25
            && dev.peers[k].psk == (if p.peerID in c.secrets && c.secrets[p.peerID] != "" then lib.parseKey(c.secrets[p.peerID])
                                    else None)
            && dev.peers[k].endpoint == (if |p.endpoints| > 0 then Some(p.endpoints[0]) else None)
            && p.tunnelIP in dev.owner && dev.owner[p.tunnelIP] == k
  {
    ConfigInstalls(lib, c, key, was);
    OtherKey(lib, c, p);
    AssignedEntry(lib, c, p);
    assert IpcSet(was, ConfigLines(lib, c, key)).peers[k] == Fresh(lib, c, p);
  }

  /** The peer was there before, with the same public key text. */
  predicate KeptEntry(old_: Config, o: Peer, p: Peer) {
    Other(old_, o) && o.peerID == p.peerID && o.publicKey == p.publicKey
  }

  /** Nothing wg is told about the peer is different. */
  predicate SameToWg(old_: Config, cur: Config, o: Peer, p: Peer) {
    && o.tunnelIP == p.tunnelIP && (o.endpoints == [] <==> p.endpoints == [])
    && (o.endpoints != [] && p.endpoints != [] ==> o.endpoints[0] == p.endpoints[0])
    && (if p.peerID in old_.secrets then old_.secrets[p.peerID] else "")
       == (if p.peerID in cur.secrets then cur.secrets[p.peerID] else "")
  }

  lemma KeptMeaning(lib: Lib, old_: Config, cur: Config, p: Peer)
    requires Sane(lib, old_) && Sane(lib, cur) && Other(cur, p)
    ensures p.peerID in DeltaOf(lib, old_, cur).cur && DeltaOf(lib, old_, cur).cur[p.peerID] == p
    ensures DeltaOf(lib, old_, cur).Kept(p.peerID) <==> exists o :: KeptEntry(old_, o, p)
  {
    var d := DeltaOf(lib, old_, cur);
    OthersById(lib, cur, p);
    if d.Kept(p.peerID) { assert KeptEntry(old_, d.old_[p.peerID], p); }
    if o :| KeptEntry(old_, o, p) { OthersById(lib, old_, o); }
  }

  lemma SameToWgMeaning(lib: Lib, old_: Config, cur: Config, o: Peer, p: Peer)
    requires Sane(lib, old_) && Sane(lib, cur) && Other(cur, p) && KeptEntry(old_, o, p) && lib.parseAddrPort("").None?
    ensures var d := DeltaOf(lib, old_, cur);
            p.peerID in d.cur && (d.Unchanged(p.peerID) <==> SameToWg(old_, cur, o, p))
  {
    OthersById(lib, cur, p);
    OthersById(lib, old_, o);
    OtherReads(lib, cur, p);
    OtherReads(lib, old_, o);
  }

  /**
   * A reload: what a peer that is new, or has another public key, comes to have is what the full commands
   * would give it. A peer that keeps its public key and is told nothing different keeps its session whole;
   * told anything different, it gets its preshared key and endpoint if there are any, and keeps what it had
   * of those there are none of.
   */
  lemma ReloadTells(lib: Lib, old_: Config, cur: Config, before: Device<string>, gone: seq<string>, ids: seq<string>,
                    p: Peer, k: nat)
    requires Sane(lib, old_) && Sane(lib, cur) && Tracks(lib, old_, before) && lib.parseAddrPort("").None?
    requires Enumerates(gone, DeltaOf(lib, old_, cur).old_.Keys) && Enumerates(ids, DeltaOf(lib, old_, cur).cur.Keys)
    requires p in cur.peers && p.peerID != cur.self.peerID && lib.parseKey(p.publicKey) == Some(k)
    ensures var after := IpcSet(before, DeltaOf(lib, old_, cur).Script(gone, ids));
            var text := if p.peerID in cur.secrets then cur.secrets[p.peerID] else "";
            && after.privateKey == before.privateKey && after.port == before.port
            && k in after.peers && p.tunnelIP in after.owner && after.owner[p.tunnelIP] == k
            && ((forall o :: !KeptEntry(old_, o, p)) ==>
                  after.peers[k] == Session(if text != "" then lib.parseKey(text) else None,
                                            if |p.endpoints| > 0 then Some(p.endpoints[0]) else None, 25))
            && forall o :: KeptEntry(old_, o, p) ==>
                 k in before.peers &&
                 if SameToWg(old_, cur, o, p) then after.peers[k] == before.peers[k]
                 else after.peers[k] == Session(if text != "" then lib.parseKey(text) else before.peers[k].psk,
                                                if |p.endpoints| > 0 then Some(p.endpoints[0]) else before.peers[k].endpoint, 25)
  {
    var d := DeltaOf(lib, old_, cur);
    var after := IpcSet(before, d.Script(gone, ids));
    ReloadTracks(lib, old_, cur, before, gone, ids);
    OtherKey(lib, cur, p);
    AssignedEntry(lib, cur, p);
    KeptMeaning(lib, old_, cur, p);
    assert after.peers[k] == Reloaded(d, before, p.peerID);
    forall o | KeptEntry(old_, o, p) ensures k in before.peers && (d.Unchanged(p.peerID) <==> SameToWg(old_, cur, o, p)) {
      SameToWgMeaning(lib, old_, cur, o, p);
      OtherKey(lib, old_, o);
      KeyEntry(lib, Others(old_), o);
    }
  }

  /** A peer about which nothing is different is left alone, roamed endpoint and all, whatever else the reload does. */
  lemma UnchangedPeerIsLeft(lib: Lib, old_: Config, cur: Config, before: Device<string>,
                            gone: seq<string>, ids: seq<string>, o: Peer, p: Peer, k: nat)
    requires Sane(lib, old_) && Sane(lib, cur) && Tracks(lib, old_, before) && lib.parseAddrPort("").None?
    requires Enumerates(gone, DeltaOf(lib, old_, cur).old_.Keys) && Enumerates(ids, DeltaOf(lib, old_, cur).cur.Keys)
    requires Other(cur, p) && KeptEntry(old_, o, p) && SameToWg(old_, cur, o, p) && lib.parseKey(p.publicKey) == Some(k)
    ensures var after := IpcSet(before, DeltaOf(lib, old_, cur).Script(gone, ids));
            && k in before.peers && k in after.peers && after.peers[k] == before.peers[k]
            && p.tunnelIP in after.owner && after.owner[p.tunnelIP] == k
  {
    ReloadTells(lib, old_, cur, before, gone, ids, p, k);
  }
}
