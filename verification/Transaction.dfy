/**
 * What a reload depends on and can come to, in terms of the files alone: when reload of cmd/csa/main.go
 * refuses, when it succeeds, and what is in force afterwards.
 */
module Transaction {
  import opened Basics
  import opened Net
  import opened Configuration
  import opened Diff
  import Agreement
  import Guard
  import KeyHistory
  import Nat
  import NatMeaning
  import Policy
  import PolicyCompile
  import Validation
  import Wg
  import WgReload

  /** What becomes of one attempt to put something in force: it works, or fails and leaves anything behind. */
  datatype Try<T> = Works | Fails(left: T)

  /**
   * Everything outside that one reload meets: where peers have roamed since the one before, the files it
   * reads, the clock, and each step of the machine.
   */
  datatype Request = Request(
    roamed: map<nat, string>, read: Option<Config>, now: int, observe: Addr -> Addr,
    gateAccepts: bool, tableAccepts: bool,
    ipcFails: bool, gate: Try<Guard.GuardConfig>, table: Try<Nat.Rules>,
    backIpcFails: bool, backGate: Try<Guard.GuardConfig>, backTable: Try<Nat.Rules>)

  datatype Refusal = Unreadable | Invalid | SelfChanged | SelfPeerChanged | GateRejects | TableRejects

  /** Failed says which of the three steps back worked. */
  datatype Outcome = Refused(why: Refusal) | NoChange | Done | Failed(device: bool, gate: bool, table: bool) {
    /** errMixed. */
    predicate Mixed() { Failed? && !(device && gate && table) }
  }

  // ---------- What a reload comes to ----------

  /** This machine's own entry has another key or tunnel IP. */
  ghost predicate OwnEntryMoved(live: Config, cur: Config) {
    exists id :: Differs(ById(live.peers), ById(cur.peers), id)
                 && Moved(id, ById(live.peers)[id], ById(cur.peers)[id], cur.self.peerID)
  }

  /** What a reload answers before it changes anything, if it does. */
  ghost function Verdict(lib: Lib, live: Config, q: Request): Option<Outcome> {
    if q.read.None? then Some(Refused(Unreadable))
    else if !Validation.Valid(lib, q.read.value, q.now) then Some(Refused(Invalid))
    else if live.self != q.read.value.self then Some(Refused(SelfChanged))
    else if OwnEntryMoved(live, q.read.value) then Some(Refused(SelfPeerChanged))
    else if Agree(live, q.read.value) then Some(NoChange)
    else if !q.gateAccepts then Some(Refused(GateRejects))
    else if !q.tableAccepts then Some(Refused(TableRejects))
    else None
  }

  /** csa.toml says the same, and this machine's own entry keeps its public key and its tunnel IP. */
  ghost predicate SelfKept(live: Config, cur: Config) {
    && cur.self == live.self
    && forall p, r :: p in live.peers && r in cur.peers && p.peerID == live.self.peerID && r.peerID == live.self.peerID ==>
         r.publicKey == p.publicKey && r.tunnelIP == p.tunnelIP
  }

  ghost predicate Listed(c: Config) { exists p :: p in c.peers && p.peerID == c.self.peerID }

  lemma EntryById(peers: seq<Peer>, p: Peer)
    requires UniqueIds(peers) && p in peers
    ensures p.peerID in ById(peers) && ById(peers)[p.peerID] == p
  {
    LookupUnique(peers, p);
  }

  lemma OwnEntryMeaning(live: Config, cur: Config)
    requires UniqueIds(live.peers) && UniqueIds(cur.peers) && live.self == cur.self
    ensures OwnEntryMoved(live, cur) <==> !SelfKept(live, cur)
  {
    var a, b := ById(live.peers), ById(cur.peers);
    if id :| Differs(a, b, id) && Moved(id, a[id], b[id], cur.self.peerID) {
      assert a[id] in live.peers && b[id] in cur.peers && a[id].peerID == live.self.peerID;
    }
    if !SelfKept(live, cur) {
      var p, r :| p in live.peers && r in cur.peers && p.peerID == live.self.peerID && r.peerID == live.self.peerID
                  && !(r.publicKey == p.publicKey && r.tunnelIP == p.tunnelIP);
      EntryById(live.peers, p);
      EntryById(cur.peers, r);
      assert Differs(a, b, p.peerID) && Moved(p.peerID, a[p.peerID], b[p.peerID], cur.self.peerID);
    }
  }

  /** Going from one to another and on to a third keeps this machine itself, if the one between lists it. */
  lemma SelfKeptOn(a: Config, b: Config, c: Config)
    requires SelfKept(a, b) && SelfKept(b, c) && Listed(b)
    ensures SelfKept(a, c)
  {
    var s :| s in b.peers && s.peerID == b.self.peerID;
    forall p, r | p in a.peers && r in c.peers && p.peerID == a.self.peerID && r.peerID == a.self.peerID
      ensures r.publicKey == p.publicKey && r.tunnelIP == p.tunnelIP
    {
      assert s.publicKey == p.publicKey && s.tunnelIP == p.tunnelIP;
    }
  }

  /** Why a reload stops before it changes anything, each cause told from the files; and when it does not. */
  lemma VerdictCauses(lib: Lib, live: Config, q: Request)
    requires WgReload.Sane(lib, live)
    ensures Verdict(lib, live, q) == None <==> Acceptable(lib, live, q)
    ensures Verdict(lib, live, q) == Some(Refused(Unreadable)) <==> q.read.None?
    ensures Verdict(lib, live, q) == Some(Refused(Invalid)) <==>
            q.read.Some? && !Validation.Valid(lib, q.read.value, q.now)
    ensures q.read.Some? && Validation.Valid(lib, q.read.value, q.now) ==>
              var v, cur := Verdict(lib, live, q), q.read.value;
              && (v == Some(Refused(SelfChanged)) <==> cur.self != live.self)
              && (v == Some(Refused(SelfPeerChanged)) <==> cur.self == live.self && !SelfKept(live, cur))
              && (v == Some(NoChange) <==> SelfKept(live, cur) && Agree(live, cur))
              && (v == Some(Refused(GateRejects)) <==> SelfKept(live, cur) && !Agree(live, cur) && !q.gateAccepts)
              && (v == Some(Refused(TableRejects)) <==>
                    SelfKept(live, cur) && !Agree(live, cur) && q.gateAccepts && !q.tableAccepts)
  {
    if q.read.Some? && Validation.Valid(lib, q.read.value, q.now) {
      var cur := q.read.value;
      ValidIsSane(lib, cur, q.now);
      Validation.GoodPeersAreUnique(lib, live.self, live.peers);
      Validation.GoodPeersAreUnique(lib, cur.self, cur.peers);
      hide Validation.Valid, WgReload.Sane, OwnEntryMoved, SelfKept, Agree;
      if cur.self == live.self { OwnEntryMeaning(live, cur); } else { OtherSelf(live, cur); }
    }
  }

  /** What a reload goes on with: valid files about the same machine that change something, and tables nft accepts. */
  ghost predicate Acceptable(lib: Lib, live: Config, q: Request) {
    && q.read.Some? && Validation.Valid(lib, q.read.value, q.now)
    && SelfKept(live, q.read.value) && !Agree(live, q.read.value) && q.gateAccepts && q.tableAccepts
  }

  lemma OtherSelf(live: Config, cur: Config)
    requires cur.self != live.self
    ensures !SelfKept(live, cur)
  {
  }

  /** What a reload takes over says the same about this machine itself, which it lists. */
  lemma TakenKeepsSelf(lib: Lib, live: Config, q: Request)
    requires WgReload.Sane(lib, live)
    requires var out := OutcomeOf(lib, live, q); out.Done? || out.NoChange?
    ensures q.read.Some? && SelfKept(live, q.read.value) && Listed(q.read.value) && WgReload.Sane(lib, q.read.value)
  {
    VerdictCauses(lib, live, q);
    ValidIsSane(lib, q.read.value, q.now);
    ValidIsListed(lib, q.read.value, q.now);
  }

  lemma NoneKeepsSelf(lib: Lib, live: Config, q: Request)
    requires Verdict(lib, live, q).None?
    ensures q.read.Some? && q.read.value.self == live.self
  {
  }

  lemma ValidIsListed(lib: Lib, c: Config, now: int)
    requires Validation.Valid(lib, c, now)
    ensures Listed(c)
  {
    var p := Find(c.peers, c.self.peerID).value;
    assert p in c.peers && p.peerID == c.self.peerID;
  }

  lemma DiffDecides(d: Changes, live: Config, cur: Config)
    requires IsDiff(d, live, cur)
    ensures d.selfChanged <==> live.self != cur.self
    ensures d.selfPeerChanged <==> OwnEntryMoved(live, cur)
    ensures !d.Any() <==> Agree(live, cur)
  {
    NothingChanged(d, live, cur);
  }

  /** The device goes from one configuration to another: the policy compiles, and wg, if told anything, takes it. */
  ghost predicate DeviceStep(lib: Lib, from: Config, c: Config, ipcFails: bool) {
    PolicyCompile.New(lib, c).Ok? && (ipcFails ==> WgReload.Silent(WgReload.DeltaOf(lib, from, c)))
  }

  /** Every step of putting cur in force works. */
  ghost predicate Succeeds(lib: Lib, from: Config, cur: Config, q: Request) {
    DeviceStep(lib, from, cur, q.ipcFails) && q.gate.Works? && q.table.Works?
  }

  /** The way back to live works on the device, which may have taken the new files over before another step failed. */
  ghost predicate StepsBack(lib: Lib, live: Config, cur: Config, q: Request) {
    DeviceStep(lib, if DeviceStep(lib, live, cur, q.ipcFails) then cur else live, live, q.backIpcFails)
  }

  /** What a reload comes to: the verdict on the files, or whether every step, and if not which step back, works. */
  ghost function OutcomeOf(lib: Lib, live: Config, q: Request): Outcome {
    match Verdict(lib, live, q)
    case Some(v) => v
    case None =>
      var cur := q.read.value;
      if Succeeds(lib, live, cur, q) then Done
      else Failed(StepsBack(lib, live, cur, q), q.backGate.Works?, q.backTable.Works?)
  }

  /**
   * A reload is done exactly when the files are acceptable, their policy compiles, wg takes its commands if there
   * are any, and both tables are put in force. When they are acceptable and it is not done, each of the three
   * parts is back exactly when its own step back works; wg's, when it takes the commands that lead back from
   * where it had got to, if there are any.
   */
  lemma OutcomeMeaning(lib: Lib, live: Config, q: Request)
    requires WgReload.Sane(lib, live)
    ensures var out := OutcomeOf(lib, live, q);
            (out.Done? <==>
              && Acceptable(lib, live, q) && PolicyCompile.New(lib, q.read.value).Ok?
              && (q.ipcFails ==> WgReload.Silent(WgReload.DeltaOf(lib, live, q.read.value)))
              && q.gate.Works? && q.table.Works?)
    ensures var out := OutcomeOf(lib, live, q);
            && (out.Failed? <==> Acceptable(lib, live, q) && !out.Done?)
            && (out.Failed? ==> && out.gate == q.backGate.Works? && out.table == q.backTable.Works?)
            && (out.Failed? ==>
                  var cur := q.read.value;
                  var there := && PolicyCompile.New(lib, cur).Ok?
                               && (q.ipcFails ==> WgReload.Silent(WgReload.DeltaOf(lib, live, cur)));
                  out.device <==>
                    && PolicyCompile.New(lib, live).Ok?
                    && (q.backIpcFails ==> WgReload.Silent(WgReload.DeltaOf(lib, if there then cur else live, live))))
  {
    hide Acceptable, PolicyCompile.New, WgReload.Silent, WgReload.Sane;
    VerdictCauses(lib, live, q);
    NotDoneYet(lib, live, q);
  }

  lemma NotDoneYet(lib: Lib, live: Config, q: Request)
    ensures var v := Verdict(lib, live, q); v.Some? ==> !v.value.Done? && !v.value.Failed?
  {
  }

  /** files followed by c if it was taken over. */
  function More<T>(files: seq<T>, c: T, took: bool): seq<T> { if took then files + [c] else files }

  lemma NoMore<T>(files: seq<T>, c: T)
    ensures More(files, c, false) == files && More(files, c, true) == files + [c]
  {
  }

  lemma MoreOnTop<T>(files: seq<T>, part: seq<T>, c: T, took: bool)
    ensures More(files + part, c, took) == files + More(part, c, took)
  {
  }

  /** The files the device takes over during one reload that begins from live. */
  ghost function TakenOver(lib: Lib, live: Config, q: Request): seq<Config> {
    if Verdict(lib, live, q).Some? then [] else
    var cur := q.read.value;
    var there := More([], cur, DeviceStep(lib, live, cur, q.ipcFails));
    More(there, live, !Succeeds(lib, live, cur, q) && StepsBack(lib, live, cur, q))
  }

  /** The configuration the program follows afterwards. */
  function NextLive(live: Config, q: Request, out: Outcome): Config {
    if (out.Done? || out.NoChange?) && q.read.Some? then q.read.value else live
  }

  /** What agrees with live is as far from any files as live is. */
  lemma AgreeingStep(lib: Lib, snap: Config, live: Config, c: Config, fails: bool)
    requires Agree(snap, live)
    ensures DeviceStep(lib, snap, c, fails) <==> DeviceStep(lib, live, c, fails)
  {
    Agreement.AgreeingOthers(snap, live);
    var d, e := WgReload.DeltaOf(lib, snap, c), WgReload.DeltaOf(lib, live, c);
    hide Uapi.PskText;
    assert d.old_ == e.old_ && d.cur == e.cur;
    assert forall id :: id in d.cur ==> (d.Unchanged(id) <==> e.Unchanged(id));
  }

  lemma MoreTwice<T>(files: seq<T>, c: T, there: bool, d: T, back: bool)
    ensures More(More(files, c, there), d, back) == files + More(More([], c, there), d, back)
    ensures files + [c] == files + More(More([], c, true), d, false)
  {
    assert files + [] == files;
    MoreOnTop(files, [], c, there);
    MoreOnTop(files, More([], c, there), d, back);
  }

  /** What came of the steps when the device began from these files, having taken others over before. */
  ghost predicate Came(lib: Lib, from: Config, live: Config, q: Request, out: Outcome, taken: seq<Config>, now: seq<Config>)
    requires q.read.Some?
  {
    var cur := q.read.value;
    var there := DeviceStep(lib, from, cur, q.ipcFails);
    if Succeeds(lib, from, cur, q) then out.Done? && now == taken + [cur]
    else && out.Failed? && out.gate == q.backGate.Works? && out.table == q.backTable.Works?
         && (out.device <==> DeviceStep(lib, if there then cur else from, live, q.backIpcFails))
         && now == More(More(taken, cur, there), live, out.device)
  }

  lemma CameFromLive(lib: Lib, live: Config, q: Request, out: Outcome, taken: seq<Config>, now: seq<Config>)
    requires q.read.Some? && Verdict(lib, live, q).None? && Came(lib, live, live, q, out, taken, now)
    ensures out == OutcomeOf(lib, live, q) && now == taken + TakenOver(lib, live, q)
  {
    var cur := q.read.value;
    hide Verdict, More, DeviceStep;
    MoreTwice(taken, cur, DeviceStep(lib, live, cur, q.ipcFails), live, out.Failed? && out.device);
  }

  lemma CameFromAgreeing(lib: Lib, from: Config, live: Config, q: Request, out: Outcome, taken: seq<Config>, now: seq<Config>)
    requires Agree(from, live) && q.read.Some? && Came(lib, from, live, q, out, taken, now)
    ensures Came(lib, live, live, q, out, taken, now)
  {
    hide DeviceStep, Agree, More;
    AgreeingStep(lib, from, live, q.read.value, q.ipcFails);
    AgreeingStep(lib, from, live, live, q.backIpcFails);
  }

  /** What a reload came to from files that agree with live is what it comes to from live. */
  lemma CameTo(lib: Lib, from: Config, live: Config, q: Request, out: Outcome, taken: seq<Config>, now: seq<Config>)
    requires Agree(from, live) && q.read.Some? && Verdict(lib, live, q).None?
    requires Came(lib, from, live, q, out, taken, now)
    ensures out == OutcomeOf(lib, live, q) && now == taken + TakenOver(lib, live, q)
  {
    hide Came, Verdict, Agree, OutcomeOf, TakenOver;
    CameFromAgreeing(lib, from, live, q, out, taken, now);
    CameFromLive(lib, live, q, out, taken, now);
  }

  // ---------- What is in force ----------

  /** The wg device and the rules are those of this configuration. */
  ghost predicate DeviceFollows(lib: Lib, wg: Wg.Device<string>, rules: Policy.Rules, c: Config) {
    WgReload.Tracks(lib, c, wg) && PolicyCompile.New(lib, c) == Ok(rules)
  }

  lemma Followed(lib: Lib, wg: Wg.Device<string>, rules: Policy.Rules, c: Config)
    requires WgReload.Tracks(lib, c, wg) && PolicyCompile.New(lib, c) == Ok(rules)
    ensures DeviceFollows(lib, wg, rules, c)
  {
  }

  lemma FollowedIsUsable(lib: Lib, wg: Wg.Device<string>, rules: Policy.Rules, c: Config)
    requires WgReload.Sane(lib, c) && DeviceFollows(lib, wg, rules, c)
    ensures Usable(lib, c)
  {
  }

  lemma RoamingFollows(lib: Lib, before: Wg.Device<string>, after: Wg.Device<string>, rules: Policy.Rules, c: Config)
    requires DeviceFollows(lib, before, rules, c) && Wg.Roamed(before, after)
    ensures DeviceFollows(lib, after, rules, c)
  {
  }

  /** A configuration the program may follow. */
  ghost predicate Usable(lib: Lib, c: Config) {
    WgReload.Sane(lib, c) && PolicyCompile.New(lib, c).Ok?
  }

  lemma DeviceReady(lib: Lib, snap: Config, c: Config)
    requires WgReload.Sane(lib, c)
    ensures WgReload.DeltaOf(lib, snap, c).AllReady()
  {
    hide WgReload.Sane, Uapi.Delta.CanRead, Uapi.Delta.Unchanged;
    WgReload.CurCanRead(lib, c, WgReload.DeltaOf(lib, snap, c));
  }

  lemma ValidIsSane(lib: Lib, c: Config, now: int)
    requires Validation.Valid(lib, c, now)
    ensures WgReload.Sane(lib, c)
  {
  }

  /** A configuration that agrees with the live one is as usable, and agrees with what is in force. */
  lemma Agreeing(lib: Lib, snap: Config, live: Config, cur: Config)
    requires lib.OneSpelling() && Usable(lib, snap) && Usable(lib, live) && WgReload.Sane(lib, cur)
    requires Agree(snap, live) && Agree(live, cur)
    ensures Usable(lib, cur) && Agree(snap, cur)
  {
    AgreeIsEquivalence(snap, live, cur);
    Agreement.AgreeingRules(lib, live, cur);
  }

  /** Taking over c: when it works, and what the device then holds. */
  lemma DeviceStepped(lib: Lib, taken: seq<Config>, c: Config, wg: Wg.Device<string>,
                      gone: seq<string>, ids: seq<string>, fails: bool)
    requires KeyHistory.HoldsLast(lib, taken, wg) && WgReload.Sane(lib, c)
    requires var d := WgReload.DeltaOf(lib, taken[|taken| - 1], c);
             Enumerates(gone, d.old_.Keys) && Enumerates(ids, d.cur.Keys)
    ensures var d := WgReload.DeltaOf(lib, taken[|taken| - 1], c);
            && KeyHistory.HoldsLast(lib, taken + [c], Wg.IpcSet(wg, d.Script(gone, ids)))
            && WgReload.Tracks(lib, c, Wg.IpcSet(wg, d.Script(gone, ids)))
            && Wg.IpcSet(wg, d.Script(gone, ids)).port == wg.port
            && Wg.IpcSet(wg, d.Script(gone, ids)).privateKey == wg.privateKey
            && (d.AllReady() && PolicyCompile.New(lib, c).Ok? && (d.Script(gone, ids) != [] ==> !fails) <==>
                DeviceStep(lib, taken[|taken| - 1], c, fails))
  {
    hide *;
    LastTaken(lib, taken, wg);
    var snap := taken[|taken| - 1];
    KeyHistory.TakingOver(lib, taken, c, wg, gone, ids);
    WgReload.ReloadTracks(lib, snap, c, wg, gone, ids);
    StepMeaning(lib, snap, c, gone, ids, fails);
  }

  lemma LastTaken(lib: Lib, taken: seq<Config>, wg: Wg.Device<string>)
    requires KeyHistory.HoldsLast(lib, taken, wg)
    ensures taken != [] && WgReload.Sane(lib, taken[|taken| - 1]) && WgReload.Tracks(lib, taken[|taken| - 1], wg)
  {
    assert taken[|taken| - 1] in taken;
  }

  lemma StepMeaning(lib: Lib, snap: Config, c: Config, gone: seq<string>, ids: seq<string>, fails: bool)
    requires WgReload.Sane(lib, snap) && WgReload.Sane(lib, c)
    requires var d := WgReload.DeltaOf(lib, snap, c); Enumerates(gone, d.old_.Keys) && Enumerates(ids, d.cur.Keys)
    ensures var d := WgReload.DeltaOf(lib, snap, c);
            (d.AllReady() && PolicyCompile.New(lib, c).Ok? && (d.Script(gone, ids) != [] ==> !fails) <==>
             DeviceStep(lib, snap, c, fails))
  {
    hide WgReload.Sane, WgReload.Silent, PolicyCompile.New, Uapi.Delta.AllReady, Uapi.Delta.Script;
    DeviceReady(lib, snap, c);
    WgReload.NothingToTell(lib, snap, c, gone, ids);
  }

  /** What is to be put in force is sane, and what changes nothing agrees with what is in force. */
  lemma VerdictMeaning(lib: Lib, snap: Config, live: Config, q: Request)
    requires lib.OneSpelling() && Usable(lib, snap) && Usable(lib, live) && Agree(snap, live)
    ensures Verdict(lib, live, q) == None ==> WgReload.Sane(lib, q.read.value)
    ensures Verdict(lib, live, q) == Some(NoChange) ==> Usable(lib, q.read.value) && Agree(snap, q.read.value)
    ensures Verdict(lib, live, q) == None || Verdict(lib, live, q) == Some(NoChange) ==> q.read.value.self == live.self
  {
    hide Validation.Valid, WgReload.Sane, PolicyCompile.New, OwnEntryMoved;
    if q.read.Some? && Validation.Valid(lib, q.read.value, q.now) {
      ValidIsSane(lib, q.read.value, q.now);
      if Agree(live, q.read.value) { Agreeing(lib, snap, live, q.read.value); }
    }
  }

  /** wg tracks every configuration that agrees with the one it tracks. */
  lemma TracksAgreeing(lib: Lib, snap: Config, live: Config, wg: Wg.Device<string>)
    requires WgReload.Sane(lib, snap) && WgReload.Sane(lib, live) && Agree(snap, live) && WgReload.Tracks(lib, snap, wg)
    ensures WgReload.Tracks(lib, live, wg)
  {
    var d := WgReload.DeltaOf(lib, snap, live);
    var gone := SomeOrder(d.old_.Keys);
    var ids := SomeOrder(d.cur.Keys);
    Agreement.AgreeingScript(lib, snap, live, gone, ids);
    WgReload.ReloadTracks(lib, snap, live, wg, gone, ids);
    assert Wg.IpcSet(wg, []) == wg;
  }

  /**
   * What InForce comes to: wg holds exactly the live peers and allowed IPs, the rules are those of the live
   * policy, the guard closes the live ports, and every connection is translated as the live list says.
   */
  lemma InForceMeaning(lib: Lib, snap: Config, live: Config, wg: Wg.Device<string>, rules: Policy.Rules,
                       route: Addr -> string, iif: string, conn: Nat.Conn)
    requires lib.OneSpelling() && Usable(lib, snap) && Usable(lib, live) && Agree(snap, live)
    requires DeviceFollows(lib, wg, rules, snap)
    ensures DeviceFollows(lib, wg, rules, live)
    ensures Guard.ConfigOf(lib, snap) == Guard.ConfigOf(lib, live)
    ensures Nat.Leaves(NatMeaning.Table(lib, snap), route, conn) == Nat.Leaves(NatMeaning.Table(lib, live), route, conn)
    ensures Nat.Arrives(NatMeaning.Table(lib, snap), iif, conn) == Nat.Arrives(NatMeaning.Table(lib, live), iif, conn)
  {
    TracksAgreeing(lib, snap, live, wg);
    Agreement.AgreeingRules(lib, snap, live);
    Validation.GoodPeersAreUnique(lib, snap.self, snap.peers);
    Validation.GoodPeersAreUnique(lib, live.self, live.peers);
    Agreement.AgreeingGuard(lib, snap, live);
    Agreement.AgreeingEntries(lib, snap, live);
    NatMeaning.OrderDoesNotMatter(lib, snap, live, route, iif, conn);
  }

  lemma SameOthers(lib: Lib, a: Config, b: Config)
    requires WgReload.Sane(lib, a) && WgReload.Sane(lib, b) && Agree(a, b)
    ensures forall p :: p in Others(a) <==> p in Others(b)
  {
    Agreement.AgreeingEntries(lib, a, b);
  }

  /** Files with the same other machines and the same keys ask the same of wg. */
  lemma SameKeysAsked(lib: Lib, a: Config, b: Config, taken: seq<Config>, wg: Wg.Device<string>)
    requires forall p :: p in Others(a) <==> p in Others(b)
    requires forall id :: Uapi.PskText(a.secrets, id) == Uapi.PskText(b.secrets, id)
    ensures KeyHistory.SessionKeys(lib, a, wg) <==> KeyHistory.SessionKeys(lib, b, wg)
    ensures KeyHistory.NoKeySince(taken, a) <==> KeyHistory.NoKeySince(taken, b)
  {
    if KeyHistory.SessionKeys(lib, a, wg) { SameKeysHeld(lib, a, b, wg); }
    if KeyHistory.SessionKeys(lib, b, wg) { SameKeysHeld(lib, b, a, wg); }
  }

  lemma SameKeysHeld(lib: Lib, a: Config, b: Config, wg: Wg.Device<string>)
    requires forall p :: p in Others(b) ==> p in Others(a)
    requires forall id :: Uapi.PskText(a.secrets, id) == Uapi.PskText(b.secrets, id)
    requires KeyHistory.SessionKeys(lib, a, wg)
    ensures KeyHistory.SessionKeys(lib, b, wg)
  {
    forall p | p in Others(b)
      ensures Uapi.KeyOf(lib, p) in wg.peers
              && wg.peers[Uapi.KeyOf(lib, p)].psk == Uapi.PskOf(lib, Uapi.PskText(b.secrets, p.peerID))
    {
      assert p in Others(a);
    }
  }

  /**
   * After any run of reloads that left live, or what agrees with it, in force, the preshared keys in wg are
   * those of live exactly when no peer live gives none had one since it took its present public key.
   */
  lemma KeysOfLive(lib: Lib, taken: seq<Config>, live: Config, wg: Wg.Device<string>)
    requires KeyHistory.HoldsLast(lib, taken, wg) && WgReload.Sane(lib, live) && Agree(taken[|taken| - 1], live)
    ensures KeyHistory.PskHeld(lib, live, wg) <==> KeyHistory.NoKeySince(taken, live)
  {
    hide WgReload.Sane, WgReload.Tracks, KeyHistory.PskHeld;
    var snap := taken[|taken| - 1];
    assert snap in taken;
    KeyHistory.PskHeldMeaning(lib, snap, wg);
    KeyHistory.PskHeldMeaning(lib, live, wg);
    KeyHistory.KeysOfLast(lib, taken, wg);
    SameOthers(lib, snap, live);
    SameKeysAsked(lib, snap, live, taken, wg);
  }
}
