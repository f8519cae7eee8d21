/**
 * Which preshared keys wg holds after any run of reloads and ways back: each peer's is the last one written
 * since it took its present public key, for a reload writes keys and takes none away.
 */
module KeyHistory {
  import opened Basics
  import opened Net
  import opened Configuration
  import opened Validation
  import opened Uapi
  import opened Wg
  import opened WgReload

  // ---------- One reload ----------

  /**
   * Every other machine's session, found by the number its public key text decodes to, has the preshared key
   * its own key text decodes to, or none if it has no text.
   */
  ghost predicate PskHeld(lib: Lib, c: Config, dev: Device<string>) {
    forall p, k: nat :: p in c.peers && p.peerID != c.self.peerID && lib.parseKey(p.publicKey) == Some(k) ==>
      k in dev.peers &&
      dev.peers[k].psk == (if p.peerID in c.secrets && c.secrets[p.peerID] != "" then lib.parseKey(c.secrets[p.peerID]) else None)
  }

  /** The same in the terms of the commands. */
  ghost predicate SessionKeys(lib: Lib, c: Config, dev: Device<string>) {
    forall p :: p in Others(c) ==>
      KeyOf(lib, p) in dev.peers && dev.peers[KeyOf(lib, p)].psk == PskOf(lib, PskText(c.secrets, p.peerID))
  }

  lemma PskHeldMeaning(lib: Lib, c: Config, dev: Device<string>)
    requires Sane(lib, c)
    ensures PskHeld(lib, c, dev) <==> SessionKeys(lib, c, dev)
  {
    hide Sane;
    if PskHeld(lib, c, dev) {
      forall p | p in Others(c)
        ensures KeyOf(lib, p) in dev.peers && dev.peers[KeyOf(lib, p)].psk == PskOf(lib, PskText(c.secrets, p.peerID))
      {
        OtherKey(lib, c, p);
      }
    }
    if SessionKeys(lib, c, dev) {
      forall p, k: nat | p in c.peers && p.peerID != c.self.peerID && lib.parseKey(p.publicKey) == Some(k)
        ensures KeyOf(lib, p) == k && p in Others(c)
      {
        OtherKey(lib, c, p);
      }
    }
  }

  /** A peer that keeps its public key keeps having a preshared key if it had one. */
  ghost predicate NoKeyLost(d: Delta) {
    forall id :: id in d.cur && d.Kept(id) && PskText(d.oldPSK, id) != "" ==> PskText(d.curPSK, id) != ""
  }

  lemma PskReads(lib: Lib, c: Config, id: string)
    requires Sane(lib, c)
    ensures PskOf(lib, PskText(c.secrets, id)).Some? <==> PskText(c.secrets, id) != ""
  {
    if id in c.secrets { assert GoodKey(lib, c.secrets[id]); }
  }

  /** What a reload makes of one session's preshared key. */
  lemma PskReloaded(lib: Lib, old_: Config, cur: Config, before: Device<string>, p: Peer, was: Option<nat>)
    requires Sane(lib, old_) && Sane(lib, cur) && p in Others(cur)
    requires var d := DeltaOf(lib, old_, cur);
             p.peerID in d.cur && d.cur[p.peerID] == p
             && (d.Kept(p.peerID) ==> was == SessionOf(before, KeyOf(lib, p)).psk)
             && (PskText(d.oldPSK, p.peerID) != "" && d.Kept(p.peerID) ==> was == PskOf(lib, PskText(d.oldPSK, p.peerID)))
    ensures var d := DeltaOf(lib, old_, cur);
            var text := PskText(cur.secrets, p.peerID);
            Reloaded(d, before, p.peerID).psk ==
            if text != "" then PskOf(lib, text) else if d.Kept(p.peerID) then was else None
  {
    PskReads(lib, cur, p.peerID);
  }

  lemma KeptSession(lib: Lib, old_: Config, cur: Config, id: string)
    requires Sane(lib, old_) && id in DeltaOf(lib, old_, cur).cur && DeltaOf(lib, old_, cur).Kept(id)
    ensures var d := DeltaOf(lib, old_, cur);
            d.old_[id] in Others(old_) && d.old_[id].peerID == id && KeyOf(lib, d.old_[id]) == KeyOf(lib, d.cur[id])
  {
  }

  /**
   * A device that holds the keys of the old files holds those of the new ones after the reload exactly when
   * no peer that keeps its public key loses its preshared key, wherever its peers have roamed to.
   */
  lemma KeysOverReload(lib: Lib, old_: Config, cur: Config, before: Device<string>, after: Device<string>)
    requires Sane(lib, old_) && Sane(lib, cur) && PskHeld(lib, old_, before)
    requires ReloadedSessions(DeltaOf(lib, old_, cur), before, after)
    ensures PskHeld(lib, cur, after) <==> NoKeyLost(DeltaOf(lib, old_, cur))
  {
    hide Sane, ReloadedSessions, Delta.Kept, PskHeld;
    var d := DeltaOf(lib, old_, cur);
    PskHeldMeaning(lib, old_, before);
    PskHeldMeaning(lib, cur, after);
    forall p | p in Others(cur)
      ensures p.peerID in d.cur && d.cur[p.peerID] == p && KeyOf(lib, p) in after.peers
      ensures after.peers[KeyOf(lib, p)].psk == PskOf(lib, PskText(cur.secrets, p.peerID)) <==>
              (d.Kept(p.peerID) && PskText(d.oldPSK, p.peerID) != "" ==> PskText(d.curPSK, p.peerID) != "")
    {
      KeyOverReload(lib, old_, cur, before, after, p);
    }
    if SessionKeys(lib, cur, after) {
      forall id | id in d.cur && d.Kept(id) && PskText(d.oldPSK, id) != "" ensures PskText(d.curPSK, id) != "" {
        assert d.cur[id] in Others(cur) && d.cur[id].peerID == id;
      }
    }
  }

  lemma KeyOverReload(lib: Lib, old_: Config, cur: Config, before: Device<string>, after: Device<string>, p: Peer)
    requires Sane(lib, old_) && Sane(lib, cur) && SessionKeys(lib, old_, before) && p in Others(cur)
    requires ReloadedSessions(DeltaOf(lib, old_, cur), before, after)
    ensures var d := DeltaOf(lib, old_, cur);
            && p.peerID in d.cur && d.cur[p.peerID] == p && KeyOf(lib, p) in after.peers
            && (after.peers[KeyOf(lib, p)].psk == PskOf(lib, PskText(cur.secrets, p.peerID)) <==>
                (d.Kept(p.peerID) && PskText(d.oldPSK, p.peerID) != "" ==> PskText(d.curPSK, p.peerID) != ""))
  {
    var d := DeltaOf(lib, old_, cur);
    var id := p.peerID;
    WgReload.OthersById(lib, cur, p);
    var was := PskOf(lib, PskText(old_.secrets, id));
    PskReads(lib, old_, id);
    PskReads(lib, cur, id);
    if d.Kept(id) { KeptSession(lib, old_, cur, id); }
    PskReloaded(lib, old_, cur, before, p, was);
  }

  // ---------- Whole runs ----------

  /** The peer is in both files with the same public key. */
  predicate Stays(a: Config, b: Config, id: string) {
    var m, n := ById(Others(a)), ById(Others(b));
    id in m && id in n && m[id].publicKey == n[id].publicKey
  }

  /** Some files since the peer took its present public key gave it a preshared key. */
  predicate HadKey(taken: seq<Config>, id: string) {
    taken != [] &&
    var n := |taken| - 1;
    PskText(taken[n].secrets, id) != "" || (n > 0 && Stays(taken[n - 1], taken[n], id) && HadKey(taken[..n], id))
  }

  /** No peer these files give no preshared key had one since it took its present public key. */
  ghost predicate NoKeySince(taken: seq<Config>, c: Config) {
    forall p :: p in Others(c) && PskText(c.secrets, p.peerID) == "" ==> !HadKey(taken, p.peerID)
  }

  /** The preshared key written last since then. */
  function LastKey(lib: Lib, taken: seq<Config>, id: string): Option<nat> {
    if taken == [] then None else
    var n := |taken| - 1;
    if PskText(taken[n].secrets, id) != "" then PskOf(lib, PskText(taken[n].secrets, id))
    else if n > 0 && Stays(taken[n - 1], taken[n], id) then LastKey(lib, taken[..n], id) else None
  }

  ghost predicate AllSane(lib: Lib, taken: seq<Config>) { forall c :: c in taken ==> Sane(lib, c) }

  /** taken are the files the device took over, one after another; its keys are the last ones written. */
  ghost predicate HoldsLast(lib: Lib, taken: seq<Config>, dev: Device<string>) {
    && taken != [] && AllSane(lib, taken) && Tracks(lib, taken[|taken| - 1], dev)
    && forall p :: p in Others(taken[|taken| - 1]) ==>
         KeyOf(lib, p) in dev.peers && dev.peers[KeyOf(lib, p)].psk == LastKey(lib, taken, p.peerID)
  }

  lemma {:induction false} LastKeyMeaning(lib: Lib, taken: seq<Config>, id: string)
    requires AllSane(lib, taken)
    ensures LastKey(lib, taken, id).Some? <==> HadKey(taken, id)
  {
    if taken != [] {
      var n := |taken| - 1;
      PskReads(lib, taken[n], id);
      assert forall c :: c in taken[..n] ==> c in taken;
      LastKeyMeaning(lib, taken[..n], id);
    }
  }

  lemma LastKeySnoc(lib: Lib, taken: seq<Config>, cur: Config, id: string)
    requires taken != []
    ensures LastKey(lib, taken + [cur], id) ==
            if PskText(cur.secrets, id) != "" then PskOf(lib, PskText(cur.secrets, id))
            else if Stays(taken[|taken| - 1], cur, id) then LastKey(lib, taken, id) else None
  {
    hide PskText, PskOf, Stays;
    var more, n := taken + [cur], |taken|;
    assert more[..n] == taken && more[n] == cur && more[n - 1] == taken[n - 1];
  }

  /** A device installed from files holds their keys. */
  lemma InstalledHoldsKeys(lib: Lib, c: Config, key: nat, blank: Device<string>)
    requires Sane(lib, c)
    ensures HoldsLast(lib, [c], IpcSet(blank, ConfigLines(lib, c, key)))
  {
    var dev := IpcSet(blank, ConfigLines(lib, c, key));
    ConfigInstalls(lib, c, key, blank);
    forall p | p in Others(c)
      ensures KeyOf(lib, p) in dev.peers && dev.peers[KeyOf(lib, p)].psk == LastKey(lib, [c], p.peerID)
    {
      PskReads(lib, c, p.peerID);
      assert dev.peers[KeyOf(lib, p)] == Fresh(lib, c, p);
    }
  }

  /** Taking over files, in any order of the maps, keeps the keys the last ones written. */
  lemma TakingOver(lib: Lib, taken: seq<Config>, cur: Config, before: Device<string>, gone: seq<string>, ids: seq<string>)
    requires HoldsLast(lib, taken, before) && Sane(lib, cur)
    requires var d := DeltaOf(lib, taken[|taken| - 1], cur); Enumerates(gone, d.old_.Keys) && Enumerates(ids, d.cur.Keys)
    ensures HoldsLast(lib, taken + [cur], IpcSet(before, DeltaOf(lib, taken[|taken| - 1], cur).Script(gone, ids)))
  {
    var old_ := taken[|taken| - 1];
    var d := DeltaOf(lib, old_, cur);
    var after := IpcSet(before, d.Script(gone, ids));
    ReloadTracks(lib, old_, cur, before, gone, ids);
    forall p | p in Others(cur)
      ensures KeyOf(lib, p) in after.peers && after.peers[KeyOf(lib, p)].psk == LastKey(lib, taken + [cur], p.peerID)
    {
      KeyTakenOver(lib, taken, cur, before, after, p);
    }
  }

  /** Wherever peers roam, the keys stay. */
  lemma RoamingKeepsKeys(lib: Lib, taken: seq<Config>, before: Device<string>, after: Device<string>)
    requires HoldsLast(lib, taken, before) && Roamed(before, after)
    ensures HoldsLast(lib, taken, after)
  {
    var c := taken[|taken| - 1];
    forall p | p in Others(c)
      ensures KeyOf(lib, p) in after.peers && after.peers[KeyOf(lib, p)].psk == LastKey(lib, taken, p.peerID)
    {
      assert KeyOf(lib, p) in before.peers;
    }
  }

  lemma KeyTakenOver(lib: Lib, taken: seq<Config>, cur: Config, before: Device<string>, after: Device<string>, p: Peer)
    requires HoldsLast(lib, taken, before) && Sane(lib, cur) && p in Others(cur)
    requires ReloadedSessions(DeltaOf(lib, taken[|taken| - 1], cur), before, after)
    ensures KeyOf(lib, p) in after.peers && after.peers[KeyOf(lib, p)].psk == LastKey(lib, taken + [cur], p.peerID)
  {
    var old_ := taken[|taken| - 1];
    var d := DeltaOf(lib, old_, cur);
    var id := p.peerID;
    assert old_ in taken;
    WgReload.OthersById(lib, cur, p);
    if d.Kept(id) { KeptSession(lib, old_, cur, id); }
    PskReloaded(lib, old_, cur, before, p, LastKey(lib, taken, id));
    LastKeySnoc(lib, taken, cur, id);
  }

  /**
   * After any run wg holds the keys of the files last taken over exactly when no peer those files give no
   * preshared key had one since it took its present public key.
   */
  lemma KeysOfLast(lib: Lib, taken: seq<Config>, dev: Device<string>)
    requires HoldsLast(lib, taken, dev)
    ensures var c := taken[|taken| - 1];
            PskHeld(lib, c, dev) <==> NoKeySince(taken, c)
  {
    hide PskHeld;
    var c := taken[|taken| - 1];
    assert c in taken;
    PskHeldMeaning(lib, c, dev);
    forall p | p in Others(c)
      ensures LastKey(lib, taken, p.peerID) == PskOf(lib, PskText(c.secrets, p.peerID)) <==>
              (PskText(c.secrets, p.peerID) == "" ==> !HadKey(taken, p.peerID))
    {
      assert c in taken;
      PskReads(lib, c, p.peerID);
      LastKeyMeaning(lib, taken, p.peerID);
    }
  }

  /** A device that has taken over one configuration only holds its keys. */
  lemma KeysOfFirst(lib: Lib, c: Config, dev: Device<string>)
    requires HoldsLast(lib, [c], dev)
    ensures PskHeld(lib, c, dev)
  {
    KeysOfLast(lib, [c], dev);
  }
}
