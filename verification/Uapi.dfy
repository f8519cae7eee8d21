/**
 * internal/wgdev/uapi.go: the configuration text for a whole peer list (UAPIConfig) and the text
 * of the difference between two lists (UAPIReload), and why the second replaces the first.
 */
module Uapi {
  import opened Basics
  import opened Net
  import opened Configuration
  import opened Wg
  import opened PeerPlan

  function PskText(secrets: map<string, string>, id: string): string {
    if id in secrets then secrets[id] else ""
  }

  /** wg is given the first endpoint only. */
  function First(endpoints: seq<string>): string { if endpoints == [] then "" else endpoints[0] }

  predicate Readable(lib: Lib, p: Peer, psk: string) {
    lib.parseKey(p.publicKey).Some? && (psk != "" ==> lib.parseKey(psk).Some?)
  }

  function KeyOf(lib: Lib, p: Peer): nat {
    match lib.parseKey(p.publicKey) case Some(k) => k case None => 0
  }

  function PskOf(lib: Lib, psk: string): Option<nat> { if psk == "" then None else lib.parseKey(psk) }

  function EndpointOf(p: Peer): Option<string> {
    if p.endpoints == [] then None else Some(p.endpoints[0])
  }

  /** What writing an unreadable peer fails with: its public key is looked at first. */
  function WriteError(lib: Lib, p: Peer): ReloadError {
    if lib.parseKey(p.publicKey).None? then BadPublicKey(p.peerID) else BadPSK(p.peerID)
  }

  /** The lines about one peer. */
  function PeerLines(lib: Lib, p: Peer, psk: string): seq<Line<string>> {
    Block(KeyOf(lib, p), SetLines(p.tunnelIP, PskOf(lib, psk), EndpointOf(p), KEEPALIVE))
  }

  // ---------- The difference of two peer lists ----------

  /** What UAPIReload is given, with the peers of both lists already by id. */
  datatype Delta = Delta(lib: Lib, old_: map<string, Peer>, cur: map<string, Peer>,
                         oldPSK: map<string, string>, curPSK: map<string, string>)
  {
    /** Key text, tunnel IP, first endpoint and preshared key text are all as before. */
    predicate Unchanged(id: string)
      requires id in cur
    {
      id in old_
      && old_[id].publicKey == cur[id].publicKey && old_[id].tunnelIP == cur[id].tunnelIP
      && First(old_[id].endpoints) == First(cur[id].endpoints)
      && PskText(oldPSK, id) == PskText(curPSK, id)
    }

    predicate Rekeyed(id: string)
      requires id in cur
    {
      id in old_ && old_[id].publicKey != cur[id].publicKey
    }

    /** A peer of the new list that keeps its key, whatever else changes. */
    predicate Kept(id: string)
      requires id in cur
    {
      id in old_ && old_[id].publicKey == cur[id].publicKey
    }

    predicate CanRead(id: string)
      requires id in cur
    {
      Readable(lib, cur[id], PskText(curPSK, id))
    }

    /** The lines for this peer, if it needs any, can be written. */
    predicate Ready(id: string) { id in cur && !Unchanged(id) ==> CanRead(id) }

    ghost predicate AllReady() { forall id :: id in cur ==> Ready(id) }

    /** Why the lines for this peer cannot be written. */
    function ErrorAt(id: string): ReloadError
      requires id in cur
    {
      WriteError(lib, cur[id])
    }

    /** The peer whose key stops the reload. */
    function FirstUnready(ids: seq<string>): Option<string> {
      if ids == [] then None else
      var before, last := FirstUnready(ids[..|ids| - 1]), ids[|ids| - 1];
      if before.Some? then before else if Ready(last) then None else Some(last)
    }

    function RemoveLines(id: string): seq<Line<string>>
      requires id in old_
    {
      match lib.parseKey(old_[id].publicKey)
      case Some(k) => Block(k, [Remove])
      case None => []
    }

    function GoneOf(id: string): seq<Line<string>> {
      if id in old_ && id !in cur then RemoveLines(id) else []
    }

    function RemovalOf(id: string): seq<Line<string>> {
      if id in cur && Rekeyed(id) then RemoveLines(id) else []
    }

    function SettingOf(id: string): seq<Line<string>> {
      if id !in cur || Unchanged(id) then [] else PeerLines(lib, cur[id], PskText(curPSK, id))
    }

    /** The removals for peers that left the list. */
    function Gone(order: seq<string>): seq<Line<string>> {
      if order == [] then [] else Gone(order[..|order| - 1]) + GoneOf(order[|order| - 1])
    }

    /** The removals of the old keys of peers that changed theirs. */
    function Removals(ids: seq<string>): seq<Line<string>> {
      if ids == [] then [] else Removals(ids[..|ids| - 1]) + RemovalOf(ids[|ids| - 1])
    }

    function Settings(ids: seq<string>): seq<Line<string>> {
      if ids == [] then [] else Settings(ids[..|ids| - 1]) + SettingOf(ids[|ids| - 1])
    }

    function Script(gone: seq<string>, ids: seq<string>): seq<Line<string>> {
      Gone(gone) + Removals(ids) + Settings(ids)
    }
  }

  datatype ReloadError = BadPublicKey(id: string) | BadPSK(id: string) | BadPrivateKey

  /** peersByID. */
  method PeersById(c: Config) returns (m: map<string, Peer>)
    ensures m == ById(Others(c))
  {
    m := map[];
    for i := 0 to |c.peers|
      invariant m == ById(Without(c.peers[..i], c.self.peerID))
    {
      var p := c.peers[i];
      WithoutStep(c.peers, c.self.peerID, i);
      if p.peerID == c.self.peerID { continue; }
      ByIdSnoc(Without(c.peers[..i], c.self.peerID), p);
      m := m[p.peerID := p];
    }
    assert c.peers[..|c.peers|] == c.peers;
  }

  /** The loop over the old peers; a map is ranged over in no particular order. */
  method ListGone(d: Delta) returns (remove: seq<Line<string>>, ghost gone: seq<string>)
    ensures Enumerates(gone, d.old_.Keys)
    ensures remove == d.Gone(gone)
  {
    var order := RangeOver(d.old_.Keys);
    gone := order;
    remove := [];
    for i := 0 to |order|
      invariant remove == d.Gone(order[..i])
    {
      var id := order[i];
      assert order[..i + 1][..i] == order[..i];
      if id in d.cur { continue; }
      var pub := d.lib.parseKey(d.old_[id].publicKey);
      if pub.Some? { remove := remove + [PublicKey(pub.value), Remove]; }
    }
    assert order[..|order|] == order;
  }

  /** The lines about one peer, or why they cannot be written. */
  method WritePeer(lib: Lib, p: Peer, psk: string) returns (r: Result<seq<Line<string>>, ReloadError>)
    ensures r.Ok? <==> Readable(lib, p, psk)
    ensures r.Ok? ==> r.value == PeerLines(lib, p, psk)
    ensures r.Err? ==> r.error == WriteError(lib, p)
  {
    var pub := lib.parseKey(p.publicKey);
    if pub.None? { return Err(BadPublicKey(p.peerID)); }
    var lines := [PublicKey(pub.value), ReplaceAllowedIPs, AllowedIP(p.tunnelIP)];
    if psk != "" {
      var key := lib.parseKey(psk);
      if key.None? { return Err(BadPSK(p.peerID)); }
      lines := lines + [PresharedKey(key.value)];
    }
    if |p.endpoints| > 0 { lines := lines + [Endpoint(p.endpoints[0])]; }
    return Ok(lines + [Keepalive(KEEPALIVE)]);
  }

  /** One turn of the loop over the new peers. */
  method ChangeOf(d: Delta, id: string) returns (r: Result<seq<Line<string>>, ReloadError>, remove: seq<Line<string>>)
    requires id in d.cur
    ensures r.Ok? <==> d.Ready(id)
    ensures r.Ok? ==> r.value == d.SettingOf(id) && remove == d.RemovalOf(id)
    ensures r.Err? ==> r.error == d.ErrorAt(id)
  {
    remove := [];
    if d.Unchanged(id) { return Ok([]), remove; }
    r := WritePeer(d.lib, d.cur[id], PskText(d.curPSK, id));
    if d.Rekeyed(id) {
      var oldPub := d.lib.parseKey(d.old_[id].publicKey);
      if oldPub.Some? { remove := [PublicKey(oldPub.value), Remove]; }
    }
  }

  /** The loop over the new peers. The ids are sorted there; every order is covered here. */
  method ListChanges(d: Delta, order: seq<string>) returns (r: Result<seq<Line<string>>, ReloadError>, remove: seq<Line<string>>)
    requires forall id :: id in order ==> id in d.cur
    ensures r.Ok? <==> d.FirstUnready(order) == None
    ensures r.Ok? ==> remove == d.Removals(order) && r.value == d.Settings(order)
    ensures r.Err? ==> var id := d.FirstUnready(order).value; id in d.cur && r.error == d.ErrorAt(id)
  {
    var add: seq<Line<string>> := [];
    remove := [];
    for i := 0 to |order|
      invariant d.FirstUnready(order[..i]) == None
      invariant remove == d.Removals(order[..i])
      invariant add == d.Settings(order[..i])
    {
      ScriptStep(d, order, i);
      var lines, old_ := ChangeOf(d, order[i]);
      if lines.Err? {
        UnreadyStays(d, order, i + 1);
        return lines, remove;
      }
      add := add + lines.value;
      remove := remove + old_;
    }
    assert order[..|order|] == order;
    return Ok(add), remove;
  }

  lemma ScriptStep(d: Delta, order: seq<string>, i: nat)
    requires i < |order|
    ensures d.Removals(order[..i + 1]) == d.Removals(order[..i]) + d.RemovalOf(order[i])
    ensures d.Settings(order[..i + 1]) == d.Settings(order[..i]) + d.SettingOf(order[i])
    ensures d.FirstUnready(order[..i + 1]) ==
            if d.FirstUnready(order[..i]).Some? then d.FirstUnready(order[..i])
            else if d.Ready(order[i]) then None else Some(order[i])
  {
    assert order[..i + 1][..i] == order[..i];
  }

  lemma {:induction false} UnreadyStays(d: Delta, order: seq<string>, i: nat)
    requires i <= |order| && d.FirstUnready(order[..i]).Some?
    ensures d.FirstUnready(order) == d.FirstUnready(order[..i])
    decreases |order| - i
  {
    if i == |order| {
      assert order[..i] == order;
    } else {
      ScriptStep(d, order, i);
      UnreadyStays(d, order, i + 1);
    }
  }

  lemma {:induction false} FirstUnreadyMeaning(d: Delta, order: seq<string>)
    ensures d.FirstUnready(order) == None <==> forall id :: id in order ==> d.Ready(id)
    ensures d.FirstUnready(order).Some? ==> !d.Ready(d.FirstUnready(order).value)
  {
    if order != [] {
      var n := |order| - 1;
      FirstUnreadyMeaning(d, order[..n]);
      assert order == order[..n] + [order[n]];
    }
  }

  /** UAPIReload. */
  method UAPIReload(lib: Lib, old_: Config, cur: Config, oldPSK: map<string, string>, curPSK: map<string, string>)
    returns (r: Result<seq<Line<string>>, ReloadError>, ghost gone: seq<string>, ghost ids: seq<string>)
    ensures var d := Delta(lib, ById(Others(old_)), ById(Others(cur)), oldPSK, curPSK);
            && Enumerates(gone, d.old_.Keys) && Enumerates(ids, d.cur.Keys)
            && (r.Ok? ==> r.value == d.Script(gone, ids))
    ensures var d := Delta(lib, ById(Others(old_)), ById(Others(cur)), oldPSK, curPSK);
            && (r.Ok? <==> d.AllReady())
            && (r.Err? ==> exists id :: id in d.cur && !d.Ready(id) && r.error == d.ErrorAt(id))
  {
    var oldById := PeersById(old_);
    var curById := PeersById(cur);
    var d := Delta(lib, oldById, curById, oldPSK, curPSK);
    var removeGone, g := ListGone(d);
    var order := RangeOver(curById.Keys);
    gone, ids := g, order;
    var add, remove := ListChanges(d, order);
    FirstUnreadyMeaning(d, order);
    if add.Err? { return add, gone, ids; }
    r := Ok(removeGone + remove + add.value);
  }
}
