/** reload, back, rollback and waitStop of cmd/csa/main.go: a reload changes three things or goes back. */
module Agent {
  import opened Basics
  import opened Net
  import opened Configuration
  import opened Diff
  import opened Serving
  import opened Transaction
  import Guard

  /** The table that closes the direct path. */
  class Gate {
    var closed: Guard.GuardConfig
    var keep: bool
    ghost var tried: nat

    constructor (closed: Guard.GuardConfig)
      ensures this.closed == closed && !keep
    {
      this.closed, keep, tried := closed, false, 0;
    }

    method Apply(g: Guard.GuardConfig, t: Try<Guard.GuardConfig>) returns (ok: bool)
      modifies `closed, `tried
      ensures ok == t.Works? && tried == old(tried) + 1
      ensures closed == match t case Works => g case Fails(left) => left
    {
      tried := tried + 1;
      ok := t.Works?;
      closed := match t case Works => g case Fails(left) => left;
    }

    method Keep()
      modifies `keep
      ensures keep
    {
      keep := true;
    }
  }

  /** The table that swaps addresses; a configuration that makes no table leaves an empty one. */
  class Rewriter {
    var table: Nat.Rules
    var keep: bool
    ghost var tried: nat

    constructor (table: Nat.Rules)
      ensures this.table == table && !keep
    {
      this.table, keep, tried := table, false, 0;
    }

    method Apply(n: Nat.NatConfig, t: Try<Nat.Rules>) returns (ok: bool)
      modifies `table, `tried
      ensures ok == t.Works? && tried == old(tried) + 1
      ensures table == match t case Works => Nat.RulesetOf(n) case Fails(left) => left
    {
      tried := tried + 1;
      ok := t.Works?;
      if t.Fails? {
        table := t.left;
      } else if n.Empty() {
        table := Nat.Rules([], [], [], []);
      } else {
        table := Nat.Ruleset(n);
      }
    }

    method Keep()
      modifies `keep
      ensures keep
    {
      keep := true;
    }
  }

  // ---------- The agent ----------

  /** What the device had taken over, and the filter met, at some time. */
  datatype Past = Past(taken: seq<Config>, moves: seq<Filtering.Move>)

  /** The device has since taken over these files for this request, and met nothing else. */
  ghost predicate SinceThen(lib: Lib, was: Past, q: Request, now: Past, part: seq<Config>) {
    now.taken == was.taken + part && now.moves == was.moves + Device.TakingAll(lib, part, q.observe, q.now)
  }

  lemma SinceNothing(lib: Lib, now: Past, q: Request)
    ensures SinceThen(lib, now, q, now, [])
  {
    assert now.taken + [] == now.taken && now.moves + [] == now.moves;
  }

  /** The device has since taken over some files for this request, and met nothing else. */
  ghost predicate SinceIn(lib: Lib, was: Past, q: Request, now: Past) {
    |was.taken| <= |now.taken| && SinceThen(lib, was, q, now, now.taken[|was.taken|..])
  }

  lemma SinceOneMore(lib: Lib, was: Past, q: Request, now: Past, c: Config)
    requires SinceIn(lib, was, q, now)
    ensures SinceIn(lib, was, q, Past(now.taken + [c], now.moves + Device.Taking(lib, c, q.observe, q.now)))
  {
    SinceMore(lib, was, q, now, now.taken[|was.taken|..], c);
    assert (now.taken + [c])[|was.taken|..] == now.taken[|was.taken|..] + [c];
  }

  lemma SinceMore(lib: Lib, was: Past, q: Request, now: Past, part: seq<Config>, c: Config)
    requires SinceThen(lib, was, q, now, part)
    ensures SinceThen(lib, was, q, Past(now.taken + [c], now.moves + Device.Taking(lib, c, q.observe, q.now)), part + [c])
  {
    hide Device.Taking;
    Device.TakingOneMore(lib, part, c, q.observe, q.now);
    assert (was.taken + part) + [c] == was.taken + (part + [c]);
    Filter.ConcatAssociates(was.moves, Device.TakingAll(lib, part, q.observe, q.now), Device.Taking(lib, c, q.observe, q.now));
  }

  /** The events of a run are these, as far as it went, with these answers. */
  ghost predicate Answers(events: seq<Event>, answers: seq<Answer>, run: seq<Mark>) {
    && |run| == |answers| <= |events|
    && forall i :: 0 <= i < |run| ==> run[i].e == events[i] && run[i].a == answers[i]
  }

  class Agent {
    const lib: Lib
    const device: Device.Device
    const gate: Gate
    const rewriter: Rewriter
    /** The configuration the program says it follows. */
    var live: Config
    /** The private key the program read when it started. */
    ghost const secret: nat

    ghost predicate Valid() { device.lib == lib && device.flt.Valid() }

    /** wg holds exactly the last keys written, over the files the device took over. */
    ghost predicate KeysKnown()
      reads device`wg, device`snap, device`taken
    {
      && KeyHistory.HoldsLast(lib, device.taken, device.wg)
      && device.taken != [] && device.snap == device.taken[|device.taken| - 1]
    }

    /** wg listens on the port live says, with the private key read at the start. */
    ghost predicate Listens()
      reads `live, device`wg
    {
      device.wg.port == live.self.listenPort && device.wg.privateKey == secret
    }

    /** wg's keys are known, and so are the filter's memories; wg listens as it did. */
    ghost predicate Known()
      reads `live, device`wg, device`snap, device`taken, device`moves, device.flt`rules, device.flt.flows`seen, device.flt.conns`seen
    {
      KeysKnown() && device.Remembers() && Listens()
    }

    /** Since then the device has taken over files for this request, and the filter has met nothing else. */
    ghost predicate Since(was: Past, q: Request)
      reads device`taken, device`moves
    {
      SinceIn(lib, was, q, Past(device.taken, device.moves))
    }

    /** The device, the guard and the address table all carry out c. */
    ghost predicate CarriesOut(c: Config)
      reads device`wg, device`snap, device.flt`rules, gate`closed, rewriter`table
    {
      && device.snap == c && DeviceFollows(lib, device.wg, device.flt.rules, c)
      && gate.closed == Guard.ConfigOf(lib, c) && rewriter.table == NatMeaning.Table(lib, c)
    }

    /** What is in force is the live configuration, or one that agrees with it. */
    ghost predicate InForce()
      reads `live, device`wg, device`snap, device.flt`rules, gate`closed, rewriter`table
    {
      && Usable(lib, live) && Usable(lib, device.snap)
      && Agree(device.snap, live) && CarriesOut(device.snap) && Listens()
    }

    constructor (lib: Lib, device: Device.Device, gate: Gate, rewriter: Rewriter, live: Config, ghost secret: nat)
      requires device.lib == lib && device.flt.Valid()
      ensures Valid() && this.lib == lib && this.device == device && this.gate == gate && this.rewriter == rewriter
      ensures this.live == live && this.secret == secret
    {
      this.lib, this.device, this.gate, this.rewriter, this.live := lib, device, gate, rewriter, live;
      this.secret := secret;
    }

    /** One step of putting c in force on the device, or of going back to it. */
    method ReloadDevice(c: Config, ipcFails: bool, q: Request, ghost was: Past) returns (ok: bool)
      requires Valid() && Known() && WgReload.Sane(lib, c) && Since(was, q)
      modifies device, device.flt`rules, device.flt.conns
      ensures Known() && Since(was, q) && device.tried == old(device.tried) + 1
      ensures ok <==> DeviceStep(lib, old(device.snap), c, ipcFails)
      ensures device.taken == More(old(device.taken), c, ok)
      ensures ok ==> device.snap == c && DeviceFollows(lib, device.wg, device.flt.rules, c)
      ensures !ok ==> && device.snap == old(device.snap) && device.wg == old(device.wg)
                      && device.flt.rules == old(device.flt.rules)
    {
      hide *;
      KnownMeans();
      ghost var wg, taken, moves := device.wg, device.taken, device.moves;
      SinceNow(was, q);
      var r, gone, ids := device.Reload(c, ipcFails, q.observe, q.now);
      DeviceStepped(lib, taken, c, wg, gone, ids, ipcFails);
      ok := r.Ok?;
      NoMore(taken, c);
      if ok {
        SinceOneMore(lib, was, q, Past(taken, moves), c);
        Followed(lib, device.wg, device.flt.rules, c);
      }
      NowKnown();
      NowSince(was, q);
    }

    lemma KnownMeans()
      requires Valid() && Known()
      ensures device.lib == lib && device.Valid() && device.wg.port == live.self.listenPort && device.wg.privateKey == secret
      ensures KeyHistory.HoldsLast(lib, device.taken, device.wg) && device.Remembers()
      ensures device.taken != [] && device.snap == device.taken[|device.taken| - 1]
    {
      hide KeyHistory.HoldsLast, Device.Device.Remembers;
    }

    lemma NowKnown()
      requires KeyHistory.HoldsLast(lib, device.taken, device.wg) && device.Remembers()
      requires device.wg.port == live.self.listenPort && device.wg.privateKey == secret
      requires device.taken != [] && device.snap == device.taken[|device.taken| - 1]
      ensures Known()
    {
      hide KeyHistory.HoldsLast, Device.Device.Remembers;
    }

    lemma KnownListens()
      requires Known()
      ensures Listens()
    {
    }

    lemma SinceNow(was: Past, q: Request)
      requires Since(was, q)
      ensures SinceIn(lib, was, q, Past(device.taken, device.moves))
    {
      hide SinceIn;
    }

    lemma NowSince(was: Past, q: Request)
      requires SinceIn(lib, was, q, Past(device.taken, device.moves))
      ensures Since(was, q)
    {
      hide SinceIn;
    }

    /** Which steps of the way back from some files to c worked; each that did has put back its part. */
    ghost predicate WentBack(out: Outcome, q: Request, from: Config, c: Config, taken: seq<Config>)
      reads device`wg, device`snap, device`taken, device.flt`rules, gate`closed, rewriter`table
    {
      && out.Failed? && out.gate == q.backGate.Works? && out.table == q.backTable.Works?
      && (out.device <==> DeviceStep(lib, from, c, q.backIpcFails))
      && device.taken == More(taken, c, out.device)
      && (out.device ==> device.snap == c && DeviceFollows(lib, device.wg, device.flt.rules, c))
      && (out.gate ==> gate.closed == Guard.ConfigOf(lib, c))
      && (out.table ==> rewriter.table == NatMeaning.Table(lib, c))
    }

    /** back and rollback: every step is taken, whether or not the ones before it worked. */
    method Back(old_: Config, q: Request, ghost was: Past) returns (out: Outcome)
      requires Valid() && Known() && WgReload.Sane(lib, old_) && Since(was, q)
      modifies device, device.flt`rules, device.flt.conns, gate`closed, gate`tried, rewriter`table, rewriter`tried
      ensures Known() && Since(was, q) && WentBack(out, q, old(device.snap), old_, old(device.taken))
      ensures device.tried == old(device.tried) + 1 && gate.tried == old(gate.tried) + 1
      ensures rewriter.tried == old(rewriter.tried) + 1
    {
      hide WgReload.Sane, KeyHistory.HoldsLast, DeviceStep, DeviceFollows, SinceIn, Device.Device.Remembers, More;
      var d := ReloadDevice(old_, q.backIpcFails, q, was);
      var guard := Guard.MakeConfig(lib, old_);
      var g := gate.Apply(guard, q.backGate);
      var nat_ := Nat.MakeConfig(lib, old_);
      var t := rewriter.Apply(nat_, q.backTable);
      out := Failed(d, g, t);
    }

    /** The guard and the address table, once the device follows cur. */
    method PutTables(cur: Config, q: Request, ghost was: Past) returns (out: Outcome)
      requires Valid() && Known() && WgReload.Sane(lib, live) && Since(was, q)
      requires device.snap == cur && DeviceFollows(lib, device.wg, device.flt.rules, cur)
      modifies device, device.flt`rules, device.flt.conns, gate`closed, gate`tried, rewriter`table, rewriter`tried
      ensures Known() && Since(was, q)
      ensures if q.gate.Works? && q.table.Works? then out.Done? && CarriesOut(cur) && device.taken == old(device.taken)
              else WentBack(out, q, cur, live, old(device.taken))
    {
      hide WgReload.Sane, KeyHistory.HoldsLast, DeviceStep, DeviceFollows, SinceIn, Device.Device.Remembers, More;
      var guard := Guard.MakeConfig(lib, cur);
      var ok := gate.Apply(guard, q.gate);
      if !ok { out := Back(live, q, was); return; }
      var nat_ := Nat.MakeConfig(lib, cur);
      ok := rewriter.Apply(nat_, q.table);
      if !ok { out := Back(live, q, was); return; }
      out := Done;
    }

    /** Every step worked and cur is in force, or the way back to was is taken. */
    ghost predicate Concluded(out: Outcome, q: Request, from: Config, was: Config, taken: seq<Config>)
      reads device`wg, device`snap, device`taken, device.flt`rules, gate`closed, rewriter`table
    {
      q.read.Some? &&
      var cur := q.read.value;
      if Succeeds(lib, from, cur, q)
      then out.Done? && Usable(lib, cur) && CarriesOut(cur) && device.taken == taken + [cur]
      else var there := DeviceStep(lib, from, cur, q.ipcFails);
           WentBack(out, q, if there then cur else from, was, More(taken, cur, there))
    }

    lemma LiveIsSane()
      requires InForce()
      ensures WgReload.Sane(lib, live)
    {
    }

    lemma TurnedBack(out: Outcome, q: Request, from: Config, was: Config, taken: seq<Config>)
      requires q.read.Some? && !DeviceStep(lib, from, q.read.value, q.ipcFails) && WentBack(out, q, from, was, taken)
      ensures Concluded(out, q, from, was, taken)
    {
      hide DeviceStep, WentBack;
    }

    lemma WentThere(out: Outcome, q: Request, from: Config, was: Config, taken: seq<Config>)
      requires q.read.Some? && DeviceStep(lib, from, q.read.value, q.ipcFails) && Usable(lib, q.read.value)
      requires if q.gate.Works? && q.table.Works?
               then out.Done? && CarriesOut(q.read.value) && device.taken == taken + [q.read.value]
               else WentBack(out, q, q.read.value, was, taken + [q.read.value])
      ensures Concluded(out, q, from, was, taken)
    {
      hide DeviceStep, WentBack, CarriesOut, Usable;
    }

    /** The way back when the device did not take the new files over. */
    method TurnBack(q: Request, ghost was: Past, ghost from: Config, ghost taken: seq<Config>) returns (out: Outcome)
      requires Valid() && Known() && WgReload.Sane(lib, live) && Since(was, q) && q.read.Some?
      requires device.snap == from && device.taken == taken && !DeviceStep(lib, from, q.read.value, q.ipcFails)
      modifies device, device.flt`rules, device.flt.conns, gate`closed, gate`tried, rewriter`table, rewriter`tried
      ensures Known() && Since(was, q) && Concluded(out, q, from, live, taken)
    {
      hide *;
      out := Back(live, q, was);
      TurnedBack(out, q, from, live, taken);
    }

    /** The steps after the device took the new files over. */
    method GoOn(q: Request, ghost was: Past, ghost from: Config, ghost taken: seq<Config>) returns (out: Outcome)
      requires Valid() && Known() && WgReload.Sane(lib, live) && Since(was, q) && q.read.Some?
      requires device.snap == q.read.value && DeviceFollows(lib, device.wg, device.flt.rules, q.read.value)
      requires WgReload.Sane(lib, q.read.value) && device.taken == taken + [q.read.value]
      requires DeviceStep(lib, from, q.read.value, q.ipcFails)
      modifies device, device.flt`rules, device.flt.conns, gate`closed, gate`tried, rewriter`table, rewriter`tried
      ensures Known() && Since(was, q) && Concluded(out, q, from, live, taken)
    {
      hide *;
      FollowedIsUsable(lib, device.wg, device.flt.rules, q.read.value);
      out := PutTables(q.read.value, q, was);
      WentThere(out, q, from, live, taken);
    }

    /** The three steps, in their order; the first that fails turns back, and it succeeds if none does. */
    method PutInForce(q: Request, ghost was: Past) returns (out: Outcome)
      requires Valid() && InForce() && Known() && q.read.Some? && WgReload.Sane(lib, q.read.value) && Since(was, q)
      modifies device, device.flt`rules, device.flt.conns, gate`closed, gate`tried, rewriter`table, rewriter`tried
      ensures Known() && Since(was, q) && Concluded(out, q, old(device.snap), live, old(device.taken))
    {
      hide *;
      LiveIsSane();
      ghost var from, taken := device.snap, device.taken;
      NoMore(taken, q.read.value);
      var ok := ReloadDevice(q.read.value, q.ipcFails, q, was);
      if !ok {
        out := TurnBack(q, was, from, taken);
      } else {
        out := GoOn(q, was, from, taken);
      }
    }

    /** Neither the device nor the tables are different from before. */
    twostate predicate Untouched()
      reads device`wg, device`snap, device`taken, device`moves, device.flt`rules, device.flt.conns`seen
      reads gate`closed, rewriter`table
    {
      && device.snap == old(device.snap) && device.wg == old(device.wg) && device.taken == old(device.taken)
      && device.moves == old(device.moves) && device.flt.rules == old(device.flt.rules)
      && device.flt.conns.seen == old(device.flt.conns.seen)
      && gate.closed == old(gate.closed) && rewriter.table == old(rewriter.table)
    }

    /** Everything reload looks at before it changes anything; None means there is something to put in force. */
    method Examine(q: Request) returns (early: Option<Outcome>)
      ensures early == Verdict(lib, live, q)
    {
      hide Validation.Valid, IsDiff, OwnEntryMoved, Agree, Changes.Any;
      if q.read.None? { return Some(Refused(Unreadable)); }
      var cur := q.read.value;
      var problems := Validation.Validate(lib, cur, q.now);
      if problems != [] { return Some(Refused(Invalid)); }
      var change := DiffConfigs(live, cur);
      DiffDecides(change, live, cur);
      if change.selfChanged { return Some(Refused(SelfChanged)); }
      if change.selfPeerChanged { return Some(Refused(SelfPeerChanged)); }
      if !change.Any() { return Some(NoChange); }
      if !q.gateAccepts { return Some(Refused(GateRejects)); }
      if !q.tableAccepts { return Some(Refused(TableRejects)); }
      return None;
    }

    /**
     * reload. Its outcome is the one the files and the steps decide, from the live configuration. A verdict
     * touches nothing, but that the live configuration becomes an agreeing one. Unless the outcome is mixed,
     * the device, the guard and the address table afterwards all carry out the live configuration, or one
     * that agrees with it, and in any case the keys in wg and the memories of the filter are known.
     */
    method Reload(q: Request) returns (out: Outcome)
      requires Valid() && InForce() && Known() && lib.OneSpelling()
      modifies `live, device, device.flt`rules, device.flt.conns, gate`closed, gate`tried, rewriter`table, rewriter`tried
      ensures Known() && (!out.Mixed() ==> InForce())
      ensures out == OutcomeOf(lib, old(live), q) && live == NextLive(old(live), q, out)
      ensures SinceThen(lib, old(Past(device.taken, device.moves)), q, Past(device.taken, device.moves),
                        TakenOver(lib, old(live), q))
      ensures out.Done? || out.NoChange? ==> q.read.Some? && live == q.read.value && SelfKept(old(live), live)
      ensures !(out.Done? || out.NoChange?) ==> live == old(live)
      ensures Verdict(lib, old(live), q).None? <==> Acceptable(lib, old(live), q)
      ensures Verdict(lib, old(live), q).Some? ==> Untouched()
      ensures Verdict(lib, old(live), q).None? ==> Concluded(out, q, old(device.snap), old(live), old(device.taken))
    {
      hide WgReload.Silent, WgReload.Sane, PolicyCompile.New, WgReload.Tracks, KeyHistory.HoldsLast, Validation.Valid;
      hide Device.Device.Remembers, SinceThen, SelfKept, Acceptable;
      SinceNothing(lib, Past(device.taken, device.moves), q);
      var early := Examine(q);
      VerdictMeaning(lib, device.snap, live, q);
      ReloadKeepsSelf(q);
      if early.Some? {
        if early.value.NoChange? { live := q.read.value; }
        return early.value;
      }
      InForceMeans();
      SinceItself(q);
      out := Conclude(q, device.snap, live, Past(device.taken, device.moves));
    }

    lemma ReloadKeepsSelf(q: Request)
      requires InForce()
      ensures Verdict(lib, live, q).None? <==> Acceptable(lib, live, q)
      ensures var out := OutcomeOf(lib, live, q);
              out.Done? || out.NoChange? ==> q.read.Some? && SelfKept(live, q.read.value)
    {
      LiveIsSane();
      hide *;
      VerdictCauses(lib, live, q);
      var out := OutcomeOf(lib, live, q);
      if out.Done? || out.NoChange? { TakenKeepsSelf(lib, live, q); }
    }

    /** How a reload with nothing against it ends, in terms of what it began from. */
    ghost predicate Settled(out: Outcome, q: Request, from: Config, before: Config, was: Past)
      reads `live, device`wg, device`snap, device`taken, device`moves, device.flt`rules, gate`closed, rewriter`table
    {
      && out == OutcomeOf(lib, before, q) && live == NextLive(before, q, out)
      && SinceThen(lib, was, q, Past(device.taken, device.moves), TakenOver(lib, before, q))
      && Concluded(out, q, from, before, was.taken) && (!out.Mixed() ==> InForce())
    }

    /** A reload with nothing against it. */
    method Conclude(q: Request, ghost from: Config, ghost before: Config, ghost was: Past) returns (out: Outcome)
      requires Valid() && InForce() && Known() && q.read.Some? && WgReload.Sane(lib, q.read.value)
      requires Verdict(lib, before, q).None?
      requires from == device.snap && before == live && Since(was, q) && was.taken == device.taken
      requires Agree(from, before) && Usable(lib, before)
      modifies `live, device, device.flt`rules, device.flt.conns, gate`closed, gate`tried, rewriter`table, rewriter`tried
      ensures Known() && Settled(out, q, from, before, was)
    {
      hide *;
      out := PutInForce(q, was);
      KnownMeans();
      NoneKeepsSelf(lib, before, q);
      if out.Done? { live := q.read.value; }
      NowKnown();
      KnownListens();
      Concludes(out, q, from, before, was);
    }

    lemma Concludes(out: Outcome, q: Request, from: Config, before: Config, was: Past)
      requires Agree(from, before) && Usable(lib, before) && Verdict(lib, before, q).None?
      requires Concluded(out, q, from, before, was.taken) && Since(was, q) && Listens()
      requires live == if out.Done? then q.read.value else before
      ensures Settled(out, q, from, before, was)
    {
      hide Since, SinceThen, Usable, Agree, OutcomeOf, TakenOver, InForce, Concluded;
      ConcludedDecides(out, q, from, before, was);
      if !out.Mixed() { ConcludedInForce(out, q, from, before, was.taken); }
    }

    lemma InForceMeans()
      requires InForce()
      ensures Usable(lib, live) && Agree(device.snap, live)
    {
    }

    lemma SinceItself(q: Request)
      ensures Since(Past(device.taken, device.moves), q)
    {
      var now := Past(device.taken, device.moves);
      SinceNothing(lib, now, q);
      assert now.taken[|now.taken|..] == [];
    }

    /** What every step put in force, or every step put back. */
    lemma ConcludedInForce(out: Outcome, q: Request, from: Config, was: Config, taken: seq<Config>)
      requires Concluded(out, q, from, was, taken) && Usable(lib, was) && !out.Mixed() && Listens()
      requires live == if out.Done? then q.read.value else was
      ensures InForce()
    {
      hide DeviceStep, DeviceFollows, Usable, Agree;
      AgreeIsEquivalence(live, live, live);
    }

    /** What a reload without a verdict came to, from the live configuration instead of what agreed with it. */
    lemma ConcludedDecides(out: Outcome, q: Request, from: Config, before: Config, was: Past)
      requires Agree(from, before)
      requires Verdict(lib, before, q).None? && Concluded(out, q, from, before, was.taken) && Since(was, q)
      ensures out == OutcomeOf(lib, before, q) && !out.NoChange?
      ensures SinceThen(lib, was, q, Past(device.taken, device.moves), TakenOver(lib, before, q))
    {
      hide Verdict, DeviceStep, DeviceFollows, Agree, SinceThen, Succeeds, OutcomeOf, TakenOver;
      CameTo(lib, from, before, q, out, was.taken, device.taken);
      assert device.taken[|was.taken|..] == TakenOver(lib, before, q);
    }

    /** Peers roaming between two reloads change nothing that is in force. */
    method Roam(seen: map<nat, string>)
      requires Valid() && InForce() && Known()
      modifies device`wg
      ensures InForce() && Known() && Wg.Roamed(old(device.wg), device.wg)
    {
      hide KeyHistory.HoldsLast, WgReload.Tracks, WgReload.Sane, PolicyCompile.New, Wg.Roamed, DeviceFollows;
      hide Device.Device.Remembers;
      ghost var before := device.wg;
      device.Roam(seen);
      RoamingFollows(lib, before, device.wg, device.flt.rules, device.snap);
      KeyHistory.RoamingKeepsKeys(lib, device.taken, before, device.wg);
    }

    /** Where a run that began from first, when the device and the filter had that past, stands. */
    ghost predicate Ran(first: Config, was: Past, run: seq<Mark>)
      reads `live, device`taken, device`moves
    {
      && RanOn(lib, device.began, first, was.moves, run) && live == LiveAfter(first, run)
      && device.taken == was.taken + TakenBy(run) && device.moves == was.moves + MovesBy(run)
    }

    lemma RanNothing()
      ensures Ran(live, Past(device.taken, device.moves), [])
    {
      assert device.taken + [] == device.taken && device.moves + [] == device.moves;
    }

    /** A request to reload, after peers have roamed. */
    method MeetRequest(q: Request) returns (a: Answer, ghost m: Mark)
      requires Valid() && InForce() && Known() && lib.OneSpelling()
      modifies `live, device, device.flt`rules, device.flt.conns, gate`closed, gate`tried, rewriter`table, rewriter`tried
      ensures Known() && a.Told? && (!a.out.Mixed() ==> InForce())
      ensures m.e == Asked(q) && m.a == a && MarkOk(lib, device.began, old(live), old(device.moves), m)
      ensures live == NextAfter(old(live), m)
      ensures device.taken == old(device.taken) + m.taken && device.moves == old(device.moves) + m.moves
    {
      hide InForce, Known, Verdict, Concluded, Untouched, OutcomeOf, TakenOver;
      Roam(q.roamed);
      ghost var before := live;
      var out := Reload(q);
      a := Told(out);
      ghost var part := TakenOver(lib, before, q);
      m := Mark(Asked(q), a, part, Device.TakingAll(lib, part, q.observe, q.now));
    }

    /** A packet. */
    method MeetPacket(e: Event) returns (a: Answer, ghost m: Mark)
      requires Valid() && InForce() && Known() && !e.Asked?
      modifies device`moves, device.flt.flows, device.flt.conns
      ensures Known() && InForce() && a.Judged?
      ensures m.e == e && m.a == a && MarkOk(lib, device.began, live, old(device.moves), m)
      ensures device.taken == old(device.taken) + m.taken && device.moves == old(device.moves) + m.moves
    {
      hide KeysKnown, InForce, Device.Device.Remembers, Filter.LegalPacket, Filter.PassesAs, Filter.MoveOf, FilterHistory.Run;
      var passes, ev := device.Judge(e.b, e.Direction());
      a := Judged(passes);
      m := Mark(e, a, [], Filter.MoveOf(e.b, e.Direction(), 0, ev));
      assert device.taken + [] == device.taken;
    }

    /** One more event of a run. */
    method Meet(e: Event, ghost first: Config, ghost was: Past, ghost run: seq<Mark>) returns (a: Answer, ghost m: Mark)
      requires Valid() && InForce() && Known() && lib.OneSpelling() && Ran(first, was, run)
      modifies `live, device, device.flt`rules, device.flt.flows, device.flt.conns
      modifies gate`closed, gate`tried, rewriter`table, rewriter`tried
      ensures Known() && m.e == e && m.a == a && Ran(first, was, run + [m])
      ensures !(a.Told? && a.out.Mixed()) ==> InForce()
    {
      hide InForce, Known, MarkOk;
      ghost var before, taken, moves := live, device.taken, device.moves;
      if e.Asked? {
        a, m := MeetRequest(e.q);
      } else {
        a, m := MeetPacket(e);
      }
      RunSnoc(lib, device.began, first, was.moves, run, m);
      Filter.ConcatAssociates(was.moves, MovesBy(run), m.moves);
      Filter.ConcatAssociates(was.taken, TakenBy(run), m.taken);
    }

    /** What is in force when what is known is known: the live policy, by the filter as well. */
    lemma FilterFollows()
      requires InForce() && Known() && lib.OneSpelling()
      ensures Follows(lib, device.began, live, device.moves)
    {
      Agreement.AgreeingRules(lib, device.snap, live);
      FilterHistory.RunRules(device.began, device.moves);
    }

    /**
     * What is in force is what the live files say: wg's peers are the other machines by their keys, each owns
     * exactly its tunnel IP, wg listens on their port, the filter has their rules, the guard closes their ports,
     * and every connection is translated as their list says.
     */
    lemma InForceTells(route: Addr -> string, iif: string, conn: Nat.Conn)
      requires InForce() && lib.OneSpelling()
      ensures forall k: nat :: k in device.wg.peers <==>
                exists p :: p in live.peers && p.peerID != live.self.peerID && lib.parseKey(p.publicKey) == Some(k)
      ensures forall p :: p in live.peers && p.peerID != live.self.peerID ==>
                p.tunnelIP in device.wg.owner && lib.parseKey(p.publicKey) == Some(device.wg.owner[p.tunnelIP])
      ensures forall ip :: ip in device.wg.owner ==>
                exists p :: p in live.peers && p.peerID != live.self.peerID && p.tunnelIP == ip
      ensures device.wg.port == live.self.listenPort && device.wg.privateKey == secret
      ensures PolicyCompile.New(lib, live) == Ok(device.flt.rules) && gate.closed == Guard.ConfigOf(lib, live)
      ensures Nat.Leaves(rewriter.table, route, conn) == Nat.Leaves(NatMeaning.Table(lib, live), route, conn)
      ensures Nat.Arrives(rewriter.table, iif, conn) == Nat.Arrives(NatMeaning.Table(lib, live), iif, conn)
    {
      hide WgReload.Sane, WgReload.Tracks, PolicyCompile.New, Nat.Leaves, Nat.Arrives, NatMeaning.Table, Guard.ConfigOf, Agree;
      InForceMeaning(lib, device.snap, live, device.wg, device.flt.rules, route, iif, conn);
      WgReload.TracksMeaning(lib, live, device.wg);
      forall p | p in live.peers && p.peerID != live.self.peerID
        ensures p.tunnelIP in device.wg.owner && lib.parseKey(p.publicKey) == Some(device.wg.owner[p.tunnelIP])
      {
        WgReload.OtherKey(lib, live, p);
        assert WgReload.Owns(device.wg.owner, p.tunnelIP, Uapi.KeyOf(lib, p));
      }
      forall ip | ip in device.wg.owner
        ensures exists p :: p in live.peers && p.peerID != live.self.peerID && p.tunnelIP == ip
      {
        assert WgReload.Owns(device.wg.owner, ip, device.wg.owner[ip]);
      }
    }

    lemma RanKeepsSelf(first: Config, was: Past, run: seq<Mark>)
      requires WgReload.Sane(lib, first) && Ran(first, was, run)
      ensures live.self == first.self && SelfKept(first, live)
    {
      hide WgReload.Sane, RanOn;
      SelfStays(lib, device.began, first, was.moves, run);
    }

    /** The keys in wg when what is in force is live. */
    lemma KeysInForce()
      requires InForce() && Known()
      ensures KeyHistory.PskHeld(lib, live, device.wg) <==> KeyHistory.NoKeySince(device.taken, live)
    {
      hide KeyHistory.PskHeld, KeyHistory.NoKeySince, KeyHistory.HoldsLast, WgReload.Sane, WgReload.Tracks, PolicyCompile.New;
      KeysOfLive(lib, device.taken, live, device.wg);
    }

    /** Packets and reloads one after another, until a reload leaves the machine mixed. */
    method ServeUntilMixed(events: seq<Event>) returns (answers: seq<Answer>, mixed: bool, ghost run: seq<Mark>)
      requires Valid() && InForce() && Known() && lib.OneSpelling()
      modifies `live, device, device.flt`rules, device.flt.flows, device.flt.conns
      modifies gate`closed, gate`tried, rewriter`table, rewriter`tried
      ensures Ran(old(live), old(Past(device.taken, device.moves)), run) && Known() && Answers(events, answers, run)
      ensures if mixed then MixedLast(run) else NoneMixed(run) && |run| == |events| && InForce()
    {
      RanNothing();
      hide Ran, InForce, Known, MixedLast;
      answers, mixed, run := [], false, [];
      ghost var first, was := live, Past(device.taken, device.moves);
      for i := 0 to |events|
        invariant |run| == i && Ran(first, was, run) && Answers(events, answers, run)
        invariant InForce() && Known() && NoneMixed(run) && !mixed
      {
        var a, m := Meet(events[i], first, was, run);
        MixedSnoc(run, m);
        answers, run := answers + [a], run + [m];
        if a.Told? && a.out.Mixed() { return answers, true, run; }
      }
    }

    /**
     * Packets and reloads one after another, and waitStop: a mixed outcome ends the program, which then
     * leaves both tables where they are. Each answer is the one the files, the steps and the memories decide.
     * Up to a mixed one, the live configuration is the last taken over and what is in force agrees with it,
     * the filter has the rules of its policy, and the preshared keys in wg are those of the live files
     * exactly when no peer they give none had one since it took its present public key.
     */
    method Serve(events: seq<Event>) returns (answers: seq<Answer>, ghost run: seq<Mark>)
      requires Valid() && InForce() && Known() && lib.OneSpelling() && !gate.keep && !rewriter.keep
      modifies this`live, device, device.flt`rules, device.flt.flows, device.flt.conns, gate, rewriter
      ensures Follows(lib, device.began, old(live), old(device.moves))
      ensures Ran(old(live), old(Past(device.taken, device.moves)), run) && Known() && Answers(events, answers, run)
      ensures gate.keep == rewriter.keep && (if gate.keep then MixedLast(run) else NoneMixed(run))
      ensures live.self == old(live).self && SelfKept(old(live), live)
      ensures !gate.keep ==> && |run| == |events| && InForce()
                             && (KeyHistory.PskHeld(lib, live, device.wg) <==> KeyHistory.NoKeySince(device.taken, live))
    {
      hide Ran, InForce, Known, Answers, Follows, NoneMixed, MixedLast, KeyHistory.PskHeld, KeyHistory.NoKeySince;
      FilterFollows();
      LiveIsSane();
      ghost var first, was := live, Past(device.taken, device.moves);
      var mixed;
      answers, mixed, run := ServeUntilMixed(events);
      RanKeepsSelf(first, was, run);
      if mixed {
        gate.Keep();
        rewriter.Keep();
      } else {
        KeysInForce();
      }
    }
  }

  lemma Installed(lib: Lib, c: Config, key: nat, blank: Wg.Device<string>)
    requires WgReload.Sane(lib, c)
    ensures var dev := Wg.IpcSet(blank, WgReload.ConfigLines(lib, c, key));
            WgReload.Tracks(lib, c, dev) && dev.port == c.self.listenPort && dev.privateKey == key
    ensures KeyHistory.HoldsLast(lib, [c], Wg.IpcSet(blank, WgReload.ConfigLines(lib, c, key)))
  {
    WgReload.ConfigInstalls(lib, c, key, blank);
    KeyHistory.InstalledHoldsKeys(lib, c, key, blank);
  }

  /** The program starts exactly on valid files that compile, with a private key that reads and every step working. */
  ghost predicate Startable(lib: Lib, c: Config, now: int, privateKey: string, works: bool) {
    Validation.Valid(lib, c, now) && PolicyCompile.New(lib, c).Ok? && lib.parseKey(privateKey).Some? && works
  }

  /** Open: wg configured from nothing and the rules compiled, or no device; opens is whether TUN and wg take it. */
  method Open(lib: Lib, c: Config, privateKey: string, blank: Wg.Device<string>, maxMSS: Bytes.u16, opens: bool)
    returns (d: Device.Device?)
    requires WgReload.Sane(lib, c)
    ensures d != null <==> PolicyCompile.New(lib, c).Ok? && lib.parseKey(privateKey).Some? && opens
    ensures d != null ==>
              && fresh(d) && fresh(d.flt) && d.lib == lib && d.flt.Valid() && d.snap == c
              && d.taken == [c] && d.moves == [] && d.Remembers()
              && d.wg.port == c.self.listenPort && lib.parseKey(privateKey) == Some(d.wg.privateKey)
              && DeviceFollows(lib, d.wg, d.flt.rules, c) && KeyHistory.HoldsLast(lib, [c], d.wg)
  {
    hide WgReload.Tracks, PolicyCompile.New, WgReload.ConfigLines, WgReload.FirstUnreadable, KeyHistory.HoldsLast;
    var lines := WgReload.UAPIConfig(lib, c, privateKey);
    WgReload.SaneReads(lib, c);
    hide WgReload.Sane;
    if lines.Err? { return null; }
    var rules := PolicyCompile.NewRules(lib, c);
    if rules.Err? || !opens { return null; }
    Installed(lib, c, lib.parseKey(privateKey).value, blank);
    var tun := new Filter.Tun();
    var flt := new Filter.Filter(tun, rules.value, maxMSS);
    d := new Device.Device(lib, flt, Wg.IpcSet(blank, lines.value), c);
  }

  /** The guard and the address table as they are first put in force. */
  method MakeTables(lib: Lib, c: Config) returns (gate: Gate, rewriter: Rewriter)
    ensures fresh(gate) && fresh(rewriter) && !gate.keep && !rewriter.keep
    ensures gate.closed == Guard.ConfigOf(lib, c) && rewriter.table == NatMeaning.Table(lib, c)
  {
    var guard := Guard.MakeConfig(lib, c);
    gate := new Gate(guard);
    var nat_ := Nat.MakeConfig(lib, c);
    var table := Nat.Ruleset(nat_);
    rewriter := new Rewriter(table);
  }

  /** The agent about a device that follows c, once its tables are in force. */
  method MakeAgent(lib: Lib, c: Config, device: Device.Device) returns (a: Agent)
    requires device.wg.port == c.self.listenPort
    requires device.lib == lib && device.flt.Valid() && device.snap == c && device.taken == [c] && device.Remembers()
    requires Usable(lib, c) && DeviceFollows(lib, device.wg, device.flt.rules, c) && KeyHistory.HoldsLast(lib, [c], device.wg)
    ensures fresh(a) && a.lib == lib && a.device == device && a.live == c && a.Valid() && a.InForce() && a.Known()
    ensures !a.gate.keep && !a.rewriter.keep && a.secret == device.wg.privateKey
  {
    AgreeIsEquivalence(c, c, c);
    hide Usable, DeviceFollows, Agree, Device.Device.Remembers, KeyHistory.HoldsLast;
    var gate, rewriter := MakeTables(lib, c);
    a := new Agent(lib, device, gate, rewriter, c, device.wg.privateKey);
  }

  /** runRun up to where it serves reloads: the files put in force, or no agent at all. */
  method Start(lib: Lib, c: Config, now: int, privateKey: string, blank: Wg.Device<string>, maxMSS: Bytes.u16,
               opens: bool, gateWorks: bool, tableWorks: bool)
    returns (a: Agent?)
    ensures a != null <==> Startable(lib, c, now, privateKey, opens && gateWorks && tableWorks)
    ensures a != null ==> fresh(a) && a.lib == lib && a.Valid() && a.live == c && a.InForce() && a.Known()
    ensures a != null ==> a.device.taken == [c] && a.device.moves == [] && !a.gate.keep && !a.rewriter.keep
    ensures a != null ==> KeyHistory.PskHeld(lib, c, a.device.wg) && lib.parseKey(privateKey) == Some(a.secret)
  {
    hide WgReload.Sane, WgReload.Tracks, PolicyCompile.New, Validation.Valid, KeyHistory.HoldsLast, KeyHistory.PskHeld;
    var problems := Validation.Validate(lib, c, now);
    if problems != [] { return null; }
    ValidIsSane(lib, c, now);
    var device := Open(lib, c, privateKey, blank, maxMSS, opens);
    if device == null || !gateWorks || !tableWorks { return null; }
    KeyHistory.KeysOfFirst(lib, c, device.wg);
    hide DeviceFollows, Device.Device.Remembers, Agent.InForce, Agent.Known;
    a := MakeAgent(lib, c, device);
  }
}
