/** guardConfig of cmd/csa/main.go: what internal/guard/guard.go is told to keep closed. */
module Guard {
  import opened Basics
  import opened Net
  import opened Configuration

  datatype Mode = ModeServices | ModeAll | ModeOff

  function ParseMode(s: string): Result<Mode, string> {
    if s == "" || s == "services" then Ok(ModeServices) else if s == "all" then Ok(ModeAll)
    else if s == "off" then Ok(ModeOff) else Err(s)
  }

  datatype GuardConfig = GuardConfig(
    mode: Mode, iface: string, wgPort: int, ports: seq<int>, selfIP: Addr, keepTCP: seq<int>, keepUDP: seq<int>)

  /** The ports to close are the service ports of this machine's own entry. */
  function ConfigOf(lib: Lib, c: Config): GuardConfig {
    var mode := match ParseMode(c.self.guard.mode) case Ok(m) => m case Err(_) => ModeServices;
    match Find(c.peers, c.self.peerID)
    case None =>
      GuardConfig(mode, c.self.TunName(), c.self.listenPort, [], NoAddr, c.self.guard.keepTCP, c.self.guard.keepUDP)
    case Some(p) =>
      GuardConfig(mode, c.self.TunName(), c.self.listenPort, PortsOf(p.services), TunnelAddr(lib, p),
                  c.self.guard.keepTCP, c.self.guard.keepUDP)
  }

  /** Each field, read from the files: the machine's own settings, and the ports of its own entry in their order. */
  lemma ConfigMeaning(lib: Lib, c: Config)
    ensures var g := ConfigOf(lib, c);
            && g.wgPort == c.self.listenPort && g.iface == (if c.self.tun.name == "" then "cs0" else c.self.tun.name)
            && g.keepTCP == c.self.guard.keepTCP && g.keepUDP == c.self.guard.keepUDP
            && (g.mode == ModeAll <==> c.self.guard.mode == "all") && (g.mode == ModeOff <==> c.self.guard.mode == "off")
    ensures forall i: nat :: FirstWith(c.peers, c.self.peerID, i) ==>
              var g, p := ConfigOf(lib, c), c.peers[i];
              && |g.ports| == |p.services| && (forall j :: 0 <= j < |p.services| ==> g.ports[j] == p.services[j].port)
              && (lib.parseAddr(p.tunnelIP).Some? ==> g.selfIP == lib.parseAddr(p.tunnelIP).value)
    ensures (forall p :: p in c.peers ==> p.peerID != c.self.peerID) ==> ConfigOf(lib, c).ports == []
  {
    forall i: nat | FirstWith(c.peers, c.self.peerID, i) ensures Find(c.peers, c.self.peerID) == Some(c.peers[i]) {
      FindsFirst(c.peers, c.self.peerID, c.peers[i]);
    }
  }

  /** guardConfig. */
  method MakeConfig(lib: Lib, c: Config) returns (g: GuardConfig)
    ensures g == ConfigOf(lib, c)
  {
    var mode := ParseMode(c.self.guard.mode);
    g := GuardConfig(if mode.Ok? then mode.value else ModeServices, c.self.TunName(), c.self.listenPort, [], NoAddr,
                     c.self.guard.keepTCP, c.self.guard.keepUDP);
    var self := Find(c.peers, c.self.peerID);
    if self.Some? {
      var ports := ListPorts(self.value.services);
      g := g.(ports := ports, selfIP := TunnelAddr(lib, self.value));
    }
  }
}
