/** internal/config/config.go: the configuration of one machine, as read from its three files. */
module Configuration {
  import opened Basics
  import opened Net

  datatype Service = Service(app: string, port: int)

  /** One entry of peers.toml. The machine itself has an entry too. */
  datatype Peer = Peer(
    peerID: string, publicKey: string, tunnelIP: string,
    endpoints: seq<string>, addresses: seq<string>, services: seq<Service>)

  datatype Tun = Tun(name: string, mtu: int)

  datatype Guard = Guard(mode: string, keepTCP: seq<int>, keepUDP: seq<int>)

  datatype NatModes = NatModes(outgoing: string, incoming: string)

  datatype PskFiles = PskFiles(dir: string, mode: string)

  datatype Self = Self(
    peerID: string, privateKey: string, tunnelCIDR: string, listenPort: int,
    tun: Tun, guard: Guard, natModes: NatModes, psk: PskFiles)
  {
    function TunName(): string { if tun.name == "" then "cs0" else tun.name }
  }

  datatype Inbound = Inbound(app: string, allow: seq<string>, allowCIDR: seq<string>, expires: string)

  datatype Policy = Policy(inbound: seq<Inbound>, outbound: seq<string>)

  /** secrets is what Secrets().PSK holds: the preshared key text of every peer that has a key file. */
  datatype Config = Config(self: Self, peers: seq<Peer>, policy: Policy, secrets: map<string, string>)

  /** Config.Find: the first entry with that peer-id. */
  function Find(peers: seq<Peer>, id: string): (r: Option<Peer>)
    ensures r.Some? ==> r.value in peers && r.value.peerID == id
    ensures r.None? ==> forall p :: p in peers ==> p.peerID != id
  {
    if peers == [] then None
    else if peers[0].peerID == id then Some(peers[0])
    else Find(peers[1..], id)
  }

  /** Entry i is the first with that peer-id. */
  predicate FirstWith(peers: seq<Peer>, id: string, i: nat) {
    i < |peers| && peers[i].peerID == id && forall j :: 0 <= j < i ==> peers[j].peerID != id
  }

  lemma FirstInRest(peers: seq<Peer>, id: string, i: nat)
    requires peers != [] && peers[0].peerID != id
    ensures FirstWith(peers, id, i + 1) <==> FirstWith(peers[1..], id, i)
    ensures FirstWith(peers[1..], id, i) ==> peers[1..][i] == peers[i + 1]
  {
    assert forall j :: 1 <= j < |peers| ==> peers[j] == peers[1..][j - 1];
    if FirstWith(peers[1..], id, i) {
      forall j | 0 <= j < i + 1 ensures peers[j].peerID != id {
        if j > 0 { assert peers[1..][j - 1].peerID != id; }
      }
    }
    if FirstWith(peers, id, i + 1) {
      forall j | 0 <= j < i ensures peers[1..][j].peerID != id { assert peers[j + 1].peerID != id; }
    }
  }

  /** Of several entries with one peer-id the first is found, and none only where there is none. */
  lemma {:induction false} FindsFirst(peers: seq<Peer>, id: string, p: Peer)
    ensures Find(peers, id) == Some(p) <==> exists i: nat :: FirstWith(peers, id, i) && peers[i] == p
    ensures Find(peers, id) == None <==> forall q :: q in peers ==> q.peerID != id
  {
    if peers != [] {
      if peers[0].peerID == id {
        assert FirstWith(peers, id, 0);
      } else {
        FindsFirst(peers[1..], id, p);
        if i: nat :| FirstWith(peers[1..], id, i) && peers[1..][i] == p { FirstInRest(peers, id, i); }
        if i: nat :| FirstWith(peers, id, i) && peers[i] == p { FirstInRest(peers, id, i - 1); }
      }
    }
  }

  // ---------- Addresses ----------

  /** The tunnel IP as an address, left at its zero value when it does not parse. */
  function TunnelAddr(lib: Lib, p: Peer): Addr {
    match lib.parseAddr(p.tunnelIP) case Some(a) => a case None => NoAddr
  }

  function AddrsOf(lib: Lib, texts: seq<string>): seq<Addr> {
    if texts == [] then [] else
    var n := |texts| - 1;
    var before := AddrsOf(lib, texts[..n]);
    match lib.parseAddr(texts[n]) case Some(a) => before + [a.Unmap()] case None => before
  }

  function AddrsOfEndpoints(lib: Lib, texts: seq<string>): seq<Addr> {
    if texts == [] then [] else
    var n := |texts| - 1;
    var before := AddrsOfEndpoints(lib, texts[..n]);
    match lib.parseAddrPort(texts[n]) case Some(ap) => before + [ap.0.Unmap()] case None => before
  }

  /** The IPv4 addresses of a list, each at its first occurrence. */
  function FirstV4(addrs: seq<Addr>): seq<Addr> {
    if addrs == [] then [] else AddV4(FirstV4(addrs[..|addrs| - 1]), addrs[|addrs| - 1])
  }

  function AddV4(out: seq<Addr>, a: Addr): seq<Addr> {
    if a.V4? && a !in out then out + [a] else out
  }

  function RealIPs(lib: Lib, p: Peer): seq<Addr> {
    FirstV4(if |p.addresses| > 0 then AddrsOf(lib, p.addresses) else AddrsOfEndpoints(lib, p.endpoints))
  }

  lemma {:induction false} FirstV4Meaning(addrs: seq<Addr>)
    ensures forall a :: a in FirstV4(addrs) <==> a.V4? && a in addrs
    ensures forall i, j :: 0 <= i < j < |FirstV4(addrs)| ==> FirstV4(addrs)[i] != FirstV4(addrs)[j]
  {
    if addrs != [] {
      var n := |addrs| - 1;
      FirstV4Meaning(addrs[..n]);
      assert addrs == addrs[..n] + [addrs[n]];
    }
  }

  lemma {:induction false} AddrsOfMeaning(lib: Lib, texts: seq<string>)
    ensures forall a :: a in AddrsOf(lib, texts) <==>
              exists s :: s in texts && lib.parseAddr(s).Some? && lib.parseAddr(s).value.Unmap() == a
    ensures forall a :: a in AddrsOfEndpoints(lib, texts) <==>
              exists s :: s in texts && lib.parseAddrPort(s).Some? && lib.parseAddrPort(s).value.0.Unmap() == a
  {
    if texts != [] {
      var n := |texts| - 1;
      AddrsOfMeaning(lib, texts[..n]);
      assert texts == texts[..n] + [texts[n]];
    }
  }

  /** The real IPs are the readable IPv4 addresses of addresses, or of endpoints when there are none, each once. */
  lemma RealIPsMeaning(lib: Lib, p: Peer)
    ensures var r := RealIPs(lib, p);
            && (forall i, j :: 0 <= i < j < |r| ==> r[i] != r[j])
            && (forall a :: a in r ==> a.V4?)
    ensures |p.addresses| > 0 ==>
              forall a :: a in RealIPs(lib, p) <==>
                a.V4? && exists s :: s in p.addresses && lib.parseAddr(s).Some? && lib.parseAddr(s).value.Unmap() == a
    ensures p.addresses == [] ==>
              forall a :: a in RealIPs(lib, p) <==>
                a.V4? && exists s :: s in p.endpoints && lib.parseAddrPort(s).Some?
                                     && lib.parseAddrPort(s).value.0.Unmap() == a
  {
    AddrsOfMeaning(lib, p.addresses);
    AddrsOfMeaning(lib, p.endpoints);
    FirstV4Meaning(AddrsOf(lib, p.addresses));
    FirstV4Meaning(AddrsOfEndpoints(lib, p.endpoints));
  }

  lemma AddrsStep(lib: Lib, texts: seq<string>, i: nat)
    requires i < |texts|
    ensures AddrsOf(lib, texts[..i + 1]) ==
            match lib.parseAddr(texts[i])
            case Some(a) => AddrsOf(lib, texts[..i]) + [a.Unmap()]
            case None => AddrsOf(lib, texts[..i])
  {
    assert texts[..i + 1][..i] == texts[..i];
  }

  lemma EndpointAddrsStep(lib: Lib, texts: seq<string>, i: nat)
    requires i < |texts|
    ensures AddrsOfEndpoints(lib, texts[..i + 1]) ==
            match lib.parseAddrPort(texts[i])
            case Some(ap) => AddrsOfEndpoints(lib, texts[..i]) + [ap.0.Unmap()]
            case None => AddrsOfEndpoints(lib, texts[..i])
  {
    assert texts[..i + 1][..i] == texts[..i];
  }

  lemma FirstV4Snoc(addrs: seq<Addr>, a: Addr)
    ensures FirstV4(addrs + [a]) == AddV4(FirstV4(addrs), a)
  {
    assert (addrs + [a])[..|addrs|] == addrs;
  }

  lemma TakeNothing<T>(s: seq<T>)
    ensures s[..0] == [] && s[..|s|] == s
  {
  }

  /** The loop of RealIPs over addresses, with the set of addresses its closure has already seen. */
  method ListAddrs(lib: Lib, texts: seq<string>) returns (out: seq<Addr>)
    ensures out == FirstV4(AddrsOf(lib, texts))
  {
    out := [];
    var seen := {};
    TakeNothing(texts);
    assert FirstV4(AddrsOf(lib, texts[..0])) == [];
    hide AddrsOf, FirstV4;
    for i := 0 to |texts|
      invariant out == FirstV4(AddrsOf(lib, texts[..i]))
      invariant forall a :: a in seen <==> a in out
    {
      AddrsStep(lib, texts, i);
      var r := lib.parseAddr(texts[i]);
      if r.Some? {
        var a := r.value.Unmap();
        FirstV4Snoc(AddrsOf(lib, texts[..i]), a);
        if a.V4? && a !in seen {
          seen := seen + {a};
          out := out + [a];
        }
      }
    }
  }

  /** The loop of RealIPs over endpoints, with the set of addresses its closure has already seen. */
  method ListEndpointAddrs(lib: Lib, texts: seq<string>) returns (out: seq<Addr>)
    ensures out == FirstV4(AddrsOfEndpoints(lib, texts))
  {
    out := [];
    var seen := {};
    TakeNothing(texts);
    assert FirstV4(AddrsOfEndpoints(lib, texts[..0])) == [];
    hide AddrsOfEndpoints, FirstV4;
    for i := 0 to |texts|
      invariant out == FirstV4(AddrsOfEndpoints(lib, texts[..i]))
      invariant forall a :: a in seen <==> a in out
    {
      EndpointAddrsStep(lib, texts, i);
      var r := lib.parseAddrPort(texts[i]);
      if r.Some? {
        var a := r.value.0.Unmap();
        FirstV4Snoc(AddrsOfEndpoints(lib, texts[..i]), a);
        if a.V4? && a !in seen {
          seen := seen + {a};
          out := out + [a];
        }
      }
    }
  }

  /** Peer.RealIPs. */
  method ListRealIPs(lib: Lib, p: Peer) returns (out: seq<Addr>)
    ensures out == RealIPs(lib, p)
  {
    if |p.addresses| > 0 {
      out := ListAddrs(lib, p.addresses);
    } else {
      out := ListEndpointAddrs(lib, p.endpoints);
    }
  }

  // ---------- The order of the real IPs ----------

  /** The list the real IPs come from: addresses, or endpoints when there are none. */
  function RealTexts(p: Peer): seq<string> { if |p.addresses| > 0 then p.addresses else p.endpoints }

  /** Text i of that list reads as this IPv4 address. */
  predicate ReadsAt(lib: Lib, p: Peer, i: nat, a: Addr) {
    i < |RealTexts(p)| && a.V4? &&
    if |p.addresses| > 0 then lib.parseAddr(p.addresses[i]).Some? && lib.parseAddr(p.addresses[i]).value.Unmap() == a
    else lib.parseAddrPort(p.endpoints[i]).Some? && lib.parseAddrPort(p.endpoints[i]).value.0.Unmap() == a
  }

  /** Text i is the first that reads as this address. */
  predicate FirstAt(lib: Lib, p: Peer, i: nat, a: Addr) {
    ReadsAt(lib, p, i, a) && forall j :: 0 <= j < i ==> !ReadsAt(lib, p, j, a)
  }

  /** This address is the first that any text reads as. */
  ghost predicate FirstReal(lib: Lib, p: Peer, a: Addr) {
    exists i: nat :: ReadsAt(lib, p, i, a) && forall j: nat, b :: j < i ==> !ReadsAt(lib, p, j, b)
  }

  /** The real IPs among the first n texts. */
  function RealAmong(lib: Lib, p: Peer, n: nat): seq<Addr>
    requires n <= |RealTexts(p)|
  {
    FirstV4(if |p.addresses| > 0 then AddrsOf(lib, p.addresses[..n]) else AddrsOfEndpoints(lib, p.endpoints[..n]))
  }

  lemma RealAmongStep(lib: Lib, p: Peer, n: nat) returns (read: Option<Addr>)
    requires n < |RealTexts(p)|
    ensures (read.Some? ==> read.value.V4?) && forall a :: ReadsAt(lib, p, n, a) <==> read == Some(a)
    ensures RealAmong(lib, p, n + 1) ==
            match read case Some(a) => AddV4(RealAmong(lib, p, n), a) case None => RealAmong(lib, p, n)
  {
    read := None;
    if |p.addresses| > 0 {
      AddrsStep(lib, p.addresses, n);
      var r := lib.parseAddr(p.addresses[n]);
      if r.Some? {
        var a := r.value.Unmap();
        FirstV4Snoc(AddrsOf(lib, p.addresses[..n]), a);
        if a.V4? { read := Some(a); }
      }
    } else {
      EndpointAddrsStep(lib, p.endpoints, n);
      var r := lib.parseAddrPort(p.endpoints[n]);
      if r.Some? {
        var a := r.value.0.Unmap();
        FirstV4Snoc(AddrsOfEndpoints(lib, p.endpoints[..n]), a);
        if a.V4? { read := Some(a); }
      }
    }
  }

  lemma ReadsOnce(lib: Lib, p: Peer, i: nat, a: Addr, b: Addr)
    requires ReadsAt(lib, p, i, a) && ReadsAt(lib, p, i, b)
    ensures a == b
  {
  }

  /** at are the places, in order, at which the real IPs first occur; every text that reads has its address there. */
  ghost predicate Places(lib: Lib, p: Peer, n: nat, found: seq<Addr>, at: seq<nat>) {
    && |at| == |found| && (forall i :: 0 <= i < |at| ==> at[i] < n && FirstAt(lib, p, at[i], found[i]))
    && (forall i, j :: 0 <= i < j < |at| ==> at[i] < at[j])
    && (forall m: nat, a :: m < n && ReadsAt(lib, p, m, a) ==> a in found)
  }

  lemma NoNewPlace(lib: Lib, p: Peer, n: nat, found: seq<Addr>, at: seq<nat>)
    requires Places(lib, p, n, found, at) && forall a :: ReadsAt(lib, p, n, a) ==> a in found
    ensures Places(lib, p, n + 1, found, at)
  {
    hide ReadsAt, FirstAt;
    forall m: nat, a | m < n + 1 && ReadsAt(lib, p, m, a) ensures a in found {
      if m < n { assert ReadsAt(lib, p, m, a); }
    }
  }

  lemma NewPlace(lib: Lib, p: Peer, n: nat, found: seq<Addr>, at: seq<nat>, a: Addr)
    requires Places(lib, p, n, found, at) && a !in found
    requires ReadsAt(lib, p, n, a) && forall b :: ReadsAt(lib, p, n, b) ==> b == a
    ensures Places(lib, p, n + 1, found + [a], at + [n])
  {
    hide ReadsAt;
    assert FirstAt(lib, p, n, a);
    hide FirstAt;
    forall m: nat, b | m < n + 1 && ReadsAt(lib, p, m, b) ensures b in found + [a] {
      if m < n { assert b in found; }
    }
  }

  lemma {:induction false} RealPlaces(lib: Lib, p: Peer, n: nat) returns (at: seq<nat>)
    requires n <= |RealTexts(p)|
    ensures Places(lib, p, n, RealAmong(lib, p, n), at)
  {
    hide Places, ReadsAt, FirstAt, RealAmong;
    if n == 0 {
      NoPlaces(lib, p);
      at := [];
    } else {
      at := RealPlaces(lib, p, n - 1);
      var read := RealAmongStep(lib, p, n - 1);
      var before := RealAmong(lib, p, n - 1);
      if read.None? || read.value in before {
        NoNewPlace(lib, p, n - 1, before, at);
      } else {
        NewPlace(lib, p, n - 1, before, at, read.value);
        at := at + [n - 1];
      }
    }
  }

  lemma NoPlaces(lib: Lib, p: Peer)
    ensures Places(lib, p, 0, RealAmong(lib, p, 0), [])
  {
    assert p.addresses[..0] == [] && p.endpoints[..0] == [];
  }

  lemma PlacesOfAll(lib: Lib, p: Peer) returns (at: seq<nat>)
    ensures Places(lib, p, |RealTexts(p)|, RealIPs(lib, p), at)
  {
    assert p.addresses[..|p.addresses|] == p.addresses && p.endpoints[..|p.endpoints|] == p.endpoints;
    at := RealPlaces(lib, p, |RealTexts(p)|);
  }

  /** One real IP is before another exactly when its first occurrence in the list is before the other's. */
  lemma RealIPsOrder(lib: Lib, p: Peer, i: nat, j: nat, m: nat, n: nat)
    requires i < |RealIPs(lib, p)| && FirstAt(lib, p, m, RealIPs(lib, p)[i])
    requires j < |RealIPs(lib, p)| && FirstAt(lib, p, n, RealIPs(lib, p)[j])
    ensures i < j <==> m < n
  {
    var at := PlacesOfAll(lib, p);
    OnePlace(lib, p, m, at[i], RealIPs(lib, p)[i]);
    OnePlace(lib, p, n, at[j], RealIPs(lib, p)[j]);
  }

  lemma OnePlace(lib: Lib, p: Peer, m: nat, n: nat, a: Addr)
    requires FirstAt(lib, p, m, a) && FirstAt(lib, p, n, a)
    ensures m == n
  {
  }

  /** The first of the real IPs is the address of the first text that reads as an IPv4 address; without one there is none. */
  lemma FirstRealIP(lib: Lib, p: Peer, a: Addr)
    ensures FirstReal(lib, p, a) <==> RealIPs(lib, p) != [] && RealIPs(lib, p)[0] == a
  {
    var at := PlacesOfAll(lib, p);
    hide RealIPs;
    if RealIPs(lib, p) != [] { FirstPlace(lib, p, RealIPs(lib, p), at); }
    if FirstReal(lib, p, a) { OnlyFirst(lib, p, RealIPs(lib, p), at, a); }
  }

  /** No text before the place of the first reads as an IPv4 address. */
  lemma NoneBefore(lib: Lib, p: Peer, found: seq<Addr>, at: seq<nat>, j: nat, b: Addr)
    requires Places(lib, p, |RealTexts(p)|, found, at) && ReadsAt(lib, p, j, b)
    ensures found != [] && at[0] <= j
  {
    assert b in found;
    var i :| 0 <= i < |found| && found[i] == b;
    assert FirstAt(lib, p, at[i], b) && at[0] <= at[i];
  }

  lemma FirstPlace(lib: Lib, p: Peer, found: seq<Addr>, at: seq<nat>)
    requires Places(lib, p, |RealTexts(p)|, found, at) && found != []
    ensures FirstReal(lib, p, found[0])
  {
    forall j: nat, b | ReadsAt(lib, p, j, b) ensures at[0] <= j { NoneBefore(lib, p, found, at, j, b); }
    assert ReadsAt(lib, p, at[0], found[0]);
  }

  lemma OnlyFirst(lib: Lib, p: Peer, found: seq<Addr>, at: seq<nat>, a: Addr)
    requires Places(lib, p, |RealTexts(p)|, found, at) && FirstReal(lib, p, a)
    ensures found != [] && found[0] == a
  {
    var i: nat :| ReadsAt(lib, p, i, a) && forall j: nat, b :: j < i ==> !ReadsAt(lib, p, j, b);
    NoneBefore(lib, p, found, at, i, a);
    assert ReadsAt(lib, p, at[0], found[0]);
    ReadsOnce(lib, p, i, found[0], a);
  }

  /** The first real IP of an entry with addresses: of the first of them that reads as an IPv4 address. */
  lemma FirstAddress(lib: Lib, p: Peer, a: Addr)
    requires |p.addresses| > 0
    ensures RealIPs(lib, p) != [] && RealIPs(lib, p)[0] == a <==>
            exists i: nat ::
              && i < |p.addresses| && a.V4?
              && lib.parseAddr(p.addresses[i]).Some? && lib.parseAddr(p.addresses[i]).value.Unmap() == a
              && forall j: nat :: j < i && lib.parseAddr(p.addresses[j]).Some? ==> !lib.parseAddr(p.addresses[j]).value.Unmap().V4?
  {
    hide RealIPs, Addr.Unmap;
    FirstRealIP(lib, p, a);
    if FirstReal(lib, p, a) {
      var i: nat :| ReadsAt(lib, p, i, a) && forall j: nat, b :: j < i ==> !ReadsAt(lib, p, j, b);
      forall j: nat | j < i && lib.parseAddr(p.addresses[j]).Some?
        ensures !lib.parseAddr(p.addresses[j]).value.Unmap().V4?
      {
        assert !ReadsAt(lib, p, j, lib.parseAddr(p.addresses[j]).value.Unmap());
      }
      assert lib.parseAddr(p.addresses[i]).Some?;
    }
    if i: nat :|
      && i < |p.addresses| && a.V4?
      && lib.parseAddr(p.addresses[i]).Some? && lib.parseAddr(p.addresses[i]).value.Unmap() == a
      && forall j: nat :: j < i && lib.parseAddr(p.addresses[j]).Some? ==> !lib.parseAddr(p.addresses[j]).value.Unmap().V4?
    {
      assert ReadsAt(lib, p, i, a);
    }
  }

  /** Without addresses, of the first endpoint that reads as one. */
  lemma FirstEndpoint(lib: Lib, p: Peer, a: Addr)
    requires p.addresses == []
    ensures RealIPs(lib, p) != [] && RealIPs(lib, p)[0] == a <==>
            exists i: nat ::
              && i < |p.endpoints| && a.V4?
              && lib.parseAddrPort(p.endpoints[i]).Some? && lib.parseAddrPort(p.endpoints[i]).value.0.Unmap() == a
              && forall j: nat :: j < i && lib.parseAddrPort(p.endpoints[j]).Some? ==> !lib.parseAddrPort(p.endpoints[j]).value.0.Unmap().V4?
  {
    hide RealIPs, Addr.Unmap;
    FirstRealIP(lib, p, a);
    if FirstReal(lib, p, a) {
      var i: nat :| ReadsAt(lib, p, i, a) && forall j: nat, b :: j < i ==> !ReadsAt(lib, p, j, b);
      forall j: nat | j < i && lib.parseAddrPort(p.endpoints[j]).Some?
        ensures !lib.parseAddrPort(p.endpoints[j]).value.0.Unmap().V4?
      {
        assert !ReadsAt(lib, p, j, lib.parseAddrPort(p.endpoints[j]).value.0.Unmap());
      }
      assert lib.parseAddrPort(p.endpoints[i]).Some?;
    }
    if i: nat :|
      && i < |p.endpoints| && a.V4?
      && lib.parseAddrPort(p.endpoints[i]).Some? && lib.parseAddrPort(p.endpoints[i]).value.0.Unmap() == a
      && forall j: nat :: j < i && lib.parseAddrPort(p.endpoints[j]).Some? ==> !lib.parseAddrPort(p.endpoints[j]).value.0.Unmap().V4?
    {
      assert ReadsAt(lib, p, i, a);
    }
  }

  // ---------- peer-id/app ----------

  /** strings.Cut at the first slash. */
  function Cut(s: string): (r: Option<(string, string)>)
    ensures r.Some? ==> s == r.value.0 + "/" + r.value.1 && '/' !in r.value.0
    ensures r.None? ==> '/' !in s
  {
    if s == "" then None
    else if s[0] == '/' then Some(("", s[1..]))
    else match Cut(s[1..])
         case None => None
         case Some((a, b)) => Some(([s[0]] + a, b))
  }

  /** A slash-free id and an app read back from the text that names them. */
  lemma {:induction false} CutJoin(id: string, app: string)
    requires '/' !in id
    ensures Cut(id + "/" + app) == Some((id, app))
  {
    var s := id + "/" + app;
    if id == "" {
      assert s[1..] == app;
    } else {
      assert s[1..] == id[1..] + "/" + app;
      assert [s[0]] + id[1..] == id;
      CutJoin(id[1..], app);
    }
  }

  predicate HasApp(services: seq<Service>, app: string) {
    exists s :: s in services && s.app == app
  }

  // ---------- Services ----------

  function PortsOf(services: seq<Service>): (ports: seq<int>)
    ensures |ports| == |services| && forall i :: 0 <= i < |ports| ==> ports[i] == services[i].port
  {
    if services == [] then [] else PortsOf(services[..|services| - 1]) + [services[|services| - 1].port]
  }

  method ListPorts(services: seq<Service>) returns (ports: seq<int>)
    ensures ports == PortsOf(services)
  {
    ports := [];
    for i := 0 to |services|
      invariant ports == PortsOf(services[..i])
    {
      assert services[..i + 1][..i] == services[..i];
      ports := ports + [services[i].port];
    }
    assert services[..|services|] == services;
  }

  // ---------- Peers by id ----------

  /** A map from peer-id to entry; a later entry with the same id replaces an earlier one. */
  function ById(peers: seq<Peer>): (m: map<string, Peer>)
    ensures forall id :: id in m ==> m[id] in peers && m[id].peerID == id
    ensures forall p :: p in peers ==> p.peerID in m
  {
    if peers == [] then map[] else
    var n := |peers| - 1;
    ById(peers[..n])[peers[n].peerID := peers[n]]
  }

  /** The entries of the other machines. */
  function Others(c: Config): seq<Peer> { Without(c.peers, c.self.peerID) }

  function Without(peers: seq<Peer>, id: string): (r: seq<Peer>)
    ensures forall p :: p in r <==> p in peers && p.peerID != id
  {
    if peers == [] then [] else
    var n := |peers| - 1;
    Without(peers[..n], id) + if peers[n].peerID == id then [] else [peers[n]]
  }

  lemma WithoutStep(peers: seq<Peer>, id: string, i: nat)
    requires i < |peers|
    ensures Without(peers[..i + 1], id) ==
            if peers[i].peerID == id then Without(peers[..i], id) else Without(peers[..i], id) + [peers[i]]
  {
    assert peers[..i + 1][..i] == peers[..i];
  }

  lemma ByIdSnoc(peers: seq<Peer>, p: Peer)
    ensures ById(peers + [p]) == ById(peers)[p.peerID := p]
  {
    assert (peers + [p])[..|peers|] == peers;
  }

  ghost predicate UniqueIds(peers: seq<Peer>) {
    forall i, j :: 0 <= i < j < |peers| ==> peers[i].peerID != peers[j].peerID
  }

  /** With unique ids an entry is found by its id, in the list and in the map. */
  lemma {:induction false} LookupUnique(peers: seq<Peer>, p: Peer)
    requires UniqueIds(peers) && p in peers
    ensures Find(peers, p.peerID) == Some(p)
    ensures ById(peers)[p.peerID] == p
  {
    var i :| 0 <= i < |peers| && peers[i] == p;
    var q := Find(peers, p.peerID).value;
    var j :| 0 <= j < |peers| && peers[j] == q;
    var r := ById(peers)[p.peerID];
    var k :| 0 <= k < |peers| && peers[k] == r;
  }
}
