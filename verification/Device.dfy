/** internal/wgdev/device.go: the device, and how a new configuration is put in force on it. */
module Device {
  import opened Basics
  import opened Net
  import opened Configuration
  import opened Filtering
  import opened FilterHistory
  import Bytes
  import Filter
  import Policy
  import PolicyCompile
  import Uapi
  import Wg
  import WgReload

  datatype DeviceError = Unwritable(uapi: Uapi.ReloadError) | Uncompilable(policy: PolicyCompile.PolicyError) | IpcFailed

  /** The move a takeover is to the filter; files that do not compile are not taken over. */
  function Taking(lib: Lib, c: Config, observe: Addr -> Addr, now: int): seq<Move> {
    match PolicyCompile.New(lib, c)
    case Ok(rules) => [Move(Input.Reload(rules, observe, now), {}, {})]
    case Err(_) => []
  }

  function TakingAll(lib: Lib, files: seq<Config>, observe: Addr -> Addr, now: int): seq<Move> {
    if files == [] then [] else
    var n := |files| - 1;
    TakingAll(lib, files[..n], observe, now) + Taking(lib, files[n], observe, now)
  }

  lemma TakingOneMore(lib: Lib, files: seq<Config>, c: Config, observe: Addr -> Addr, now: int)
    ensures TakingAll(lib, files + [c], observe, now) == TakingAll(lib, files, observe, now) + Taking(lib, c, observe, now)
  {
    assert (files + [c])[..|files|] == files;
  }

  /** A takeover continues the run of the filter. */
  lemma TakingContinuesRun(r0: Policy.Rules, h: seq<Move>, rules: Policy.Rules, observe: Addr -> Addr, now: int)
    requires LegalRun(r0, h)
    ensures var m := Move(Input.Reload(rules, observe, now), {}, {});
            LegalRun(r0, h + [m]) && Run(r0, h + [m]) == After(Run(r0, h), m)
  {
    assert (h + [Move(Input.Reload(rules, observe, now), {}, {})])[..|h|] == h;
  }

  class Device {
    const lib: Lib
    const flt: Filter.Filter
    /** What wg holds: IpcSet changes it, a failing one does not, and wg itself learns where its peers are. */
    var wg: Wg.Device<string>
    var snap: Config
    ghost var tried: nat
    /** The files it took over, one after another; the last are those of snap. */
    ghost var taken: seq<Config>
    /** The rules it began with, and every packet and takeover the filter has met since. */
    ghost const began: Policy.Rules
    ghost var moves: seq<Move>

    ghost predicate Valid()
      reads this
    {
      flt.Valid()
    }

    /** The filter's rules and memories are those its run so far has left. */
    ghost predicate Remembers()
      reads `moves, flt`rules, flt.flows`seen, flt.conns`seen
    {
      LegalRun(began, moves) && flt.S() == Run(began, moves)
    }

    /** What Open leaves: wg configured from nothing, the rules compiled, the memories empty. */
    constructor (lib: Lib, flt: Filter.Filter, wg: Wg.Device<string>, snap: Config)
      requires flt.Valid() && flt.S() == State(flt.rules, map[], map[])
      ensures Valid() && this.lib == lib && this.flt == flt && this.wg == wg && this.snap == snap
      ensures taken == [snap] && moves == [] && began == flt.rules && Remembers()
    {
      this.lib, this.flt, this.wg, this.snap := lib, flt, wg, snap;
      tried, taken := 0, [snap];
      began, moves := flt.rules, [];
    }

    method IpcSet(lines: seq<Wg.Line<string>>, fails: bool) returns (ok: bool)
      modifies `wg
      ensures ok == !fails
      ensures wg == if ok then Wg.IpcSet(old(wg), lines) else old(wg)
    {
      ok := !fails;
      if ok { wg := Wg.IpcSet(wg, lines); }
    }

    /** wg by itself: authenticated packets have come from these endpoints. */
    method Roam(seen: map<nat, string>)
      modifies `wg
      ensures Wg.Roamed(old(wg), wg)
      ensures forall k :: k in wg.peers && k in seen ==> wg.peers[k].endpoint == Some(seen[k])
    {
      wg := wg.(peers := map k | k in wg.peers ::
                           if k in seen then wg.peers[k].(endpoint := Some(seen[k])) else wg.peers[k]);
    }

    /** One packet, as each one of a batch is judged by Read or by Write of the filter. */
    method Judge(b: seq<Bytes.byte>, w: Filter.Way) returns (passes: bool, ghost ev: Filter.Evicted)
      requires Valid() && Remembers()
      modifies `moves, flt.flows, flt.conns
      ensures Remembers()
      ensures passes == Filter.PassesAs(Run(began, old(moves)), b, w, 0)
      ensures Filter.LegalPacket(Run(began, old(moves)), b, w, 0, ev)
      ensures moves == old(moves) + Filter.MoveOf(b, w, 0, ev)
    {
      hide Filter.PassesAs, Filter.LegalPacket, Filter.AfterPacket, Filter.MoveOf, LegalRun, Run;
      ghost var e;
      if w.Outward? {
        passes, e := flt.AllowOut(b, w, 0);
      } else {
        passes, e := flt.AllowIn(b, w, 0);
      }
      ev := e;
      Filter.PacketContinuesRun(began, moves, b, w, 0, e);
      moves := moves + Filter.MoveOf(b, w, 0, e);
    }

    /** Reload: rules are compiled before wg is touched, and what was in force stays whole if any step fails. */
    method Reload(c: Config, ipcFails: bool, observe: Addr -> Addr, now: int)
      returns (r: Result<nat, DeviceError>, ghost gone: seq<string>, ghost ids: seq<string>)
      requires Valid() && Remembers()
      modifies this, flt`rules, flt.conns
      ensures tried == old(tried) + 1 && Remembers()
      ensures var d := WgReload.DeltaOf(lib, old(snap), c);
              && Enumerates(gone, d.old_.Keys) && Enumerates(ids, d.cur.Keys)
              && (r.Ok? <==> d.AllReady() && PolicyCompile.New(lib, c).Ok? && (d.Script(gone, ids) != [] ==> !ipcFails))
              && (r.Ok? ==> wg == Wg.IpcSet(old(wg), d.Script(gone, ids)))
      ensures taken == if r.Ok? then old(taken) + [c] else old(taken)
      ensures moves == if r.Ok? then old(moves) + Taking(lib, c, observe, now) else old(moves)
      ensures r.Ok? ==> snap == c && PolicyCompile.New(lib, c) == Ok(flt.rules)
                        && flt.S() == After(old(flt.S()), Move(Input.Reload(flt.rules, observe, now), {}, {}))
      ensures r.Err? ==> wg == old(wg) && snap == old(snap) && flt.rules == old(flt.rules) && flt.S() == old(flt.S())
    {
      hide PolicyCompile.New, LegalRun, Run, After, Uapi.Delta.AllReady, Uapi.Delta.Script;
      tried := tried + 1;
      var uapi, g, i := Uapi.UAPIReload(lib, snap, c, snap.secrets, c.secrets);
      gone, ids := g, i;
      if uapi.Err? { return Err(Unwritable(uapi.error)), gone, ids; }
      var rules := PolicyCompile.NewRules(lib, c);
      if rules.Err? { return Err(Uncompilable(rules.error)), gone, ids; }
      if uapi.value != [] {
        var ok := IpcSet(uapi.value, ipcFails);
        if !ok { return Err(IpcFailed), gone, ids; }
      }
      assert Wg.IpcSet(wg, []) == wg;
      snap, taken := c, taken + [c];
      TakingContinuesRun(began, moves, rules.value, observe, now);
      var forgotten := flt.Replace(rules.value, observe, now);
      moves := moves + Taking(lib, c, observe, now);
      r := Ok(forgotten);
    }
  }
}
