/**
 * The part of a wg device that its configuration protocol changes. The device is a library this
 * repository only calls; this interpreter states what the proofs assume of it: public_key selects
 * a peer and makes it if needed, remove deletes it with its allowed IPs, replace_allowed_ips drops
 * the allowed IPs it owns, allowed_ip takes an IP over from whoever owned it, and a value that is
 * not mentioned stays as it was.
 */
module Wg {
  import opened Basics

  datatype Line<A> =
    | PrivateKey(key: nat)
    | ListenPort(port: int)
    | ReplacePeers
    | PublicKey(key: nat)
    | Remove
    | ReplaceAllowedIPs
    | AllowedIP(ip: A)
    | PresharedKey(key: nat)
    | Endpoint(endpoint: string)
    | Keepalive(seconds: nat)

  /** What the device holds for one peer. No preshared key is the same as the all-zero one. */
  datatype Session = Session(psk: Option<nat>, endpoint: Option<string>, keepalive: nat)

  const Blank := Session(None, None, 0)

  /** owner says which peer a tunnel IP belongs to. */
  datatype Device<A> = Device(privateKey: nat, port: int, peers: map<nat, Session>, owner: map<A, nat>)

  /** A device in the middle of a configuration text: the peer the next line is about. */
  datatype Cursor<A> = Cursor(dev: Device<A>, at: Option<nat>)

  function Dropped<A>(owner: map<A, nat>, keys: set<nat>): map<A, nat> {
    map ip | ip in owner && owner[ip] !in keys :: owner[ip]
  }

  /** The device without those peers and whatever they own. */
  function DropKeys<A>(d: Device<A>, keys: set<nat>): Device<A> {
    d.(peers := d.peers - keys, owner := Dropped(d.owner, keys))
  }

  /** b is a after wg has learnt other endpoints for some of its peers. */
  ghost predicate Roamed<A>(a: Device<A>, b: Device<A>) {
    && b == a.(peers := b.peers) && b.peers.Keys == a.peers.Keys
    && forall k :: k in a.peers ==> b.peers[k] == a.peers[k].(endpoint := b.peers[k].endpoint)
  }

  function SessionOf<A>(d: Device<A>, key: nat): Session {
    if key in d.peers then d.peers[key] else Blank
  }

  function Step<A>(c: Cursor<A>, line: Line<A>): Cursor<A> {
    var d := c.dev;
    match line
    case PrivateKey(k) => c.(dev := d.(privateKey := k))
    case ListenPort(n) => c.(dev := d.(port := n))
    case ReplacePeers => c.(dev := d.(peers := map[], owner := map[]))
    case PublicKey(k) => Cursor(d.(peers := d.peers[k := SessionOf(d, k)]), Some(k))
    case _ =>
      if c.at.None? || c.at.value !in d.peers then c else
      var k := c.at.value;
      var s := d.peers[k];
      match line
      case Remove => Cursor(DropKeys(d, {k}), None)
      case ReplaceAllowedIPs => c.(dev := d.(owner := Dropped(d.owner, {k})))
      case AllowedIP(ip) => c.(dev := d.(owner := d.owner[ip := k]))
      case PresharedKey(psk) => c.(dev := d.(peers := d.peers[k := s.(psk := Some(psk))]))
      case Endpoint(ep) => c.(dev := d.(peers := d.peers[k := s.(endpoint := Some(ep))]))
      case Keepalive(n) => c.(dev := d.(peers := d.peers[k := s.(keepalive := n)]))
      case _ => c
  }

  function Feed<A>(c: Cursor<A>, lines: seq<Line<A>>): Cursor<A> {
    if lines == [] then c else Step(Feed(c, lines[..|lines| - 1]), lines[|lines| - 1])
  }

  /** One configuration text, applied to a running device. */
  function IpcSet<A>(d: Device<A>, lines: seq<Line<A>>): Device<A> { Feed(Cursor(d, None), lines).dev }

  lemma {:induction false} FeedAppend<A>(c: Cursor<A>, a: seq<Line<A>>, b: seq<Line<A>>)
    ensures Feed(c, a + b) == Feed(Feed(c, a), b)
  {
    if b == [] {
      assert a + b == a;
    } else {
      var n := |b| - 1;
      assert (a + b)[..|a| + n] == a + b[..n];
      FeedAppend(c, a, b[..n]);
    }
  }

  /** A text about some peer: the effect does not depend on which peer was selected before it. */
  function Block<A>(key: nat, rest: seq<Line<A>>): seq<Line<A>> { [PublicKey(key)] + rest }

  lemma FeedBlock<A>(c: Cursor<A>, key: nat, rest: seq<Line<A>>)
    ensures Feed(c, Block(key, rest)) == Feed(Cursor(c.dev.(peers := c.dev.peers[key := SessionOf(c.dev, key)]), Some(key)), rest)
  {
    FeedAppend(c, [PublicKey(key)], rest);
    assert Feed(c, [PublicKey(key)]) == Step(Feed(c, []), PublicKey(key));
  }

  lemma FeedRemove<A>(c: Cursor<A>, key: nat)
    ensures Feed(c, Block(key, [Remove])).dev == DropKeys(c.dev, {key})
  {
    FeedBlock(c, key, [Remove]);
    var made := c.dev.(peers := c.dev.peers[key := SessionOf(c.dev, key)]);
    assert Feed(Cursor(made, Some(key)), [Remove]) == Step(Feed(Cursor(made, Some(key)), []), Remove);
    assert made.peers - {key} == c.dev.peers - {key};
  }

  lemma DropKeysTwice<A>(d: Device<A>, a: set<nat>, b: set<nat>)
    ensures DropKeys(DropKeys(d, a), b) == DropKeys(d, a + b)
  {
  }

  // ---------- Setting one peer ----------

  function Merge(s: Session, psk: Option<nat>, endpoint: Option<string>, keepalive: nat): Session {
    Session(if psk.Some? then psk else s.psk, if endpoint.Some? then endpoint else s.endpoint, keepalive)
  }

  function SetPeer<A>(d: Device<A>, key: nat, ip: A, psk: Option<nat>, endpoint: Option<string>, keepalive: nat): Device<A> {
    d.(peers := d.peers[key := Merge(SessionOf(d, key), psk, endpoint, keepalive)],
       owner := Dropped(d.owner, {key})[ip := key])
  }

  lemma FeedOne<A>(c: Cursor<A>, line: Line<A>)
    ensures Feed(c, [line]) == Step(c, line)
  {
    assert Feed(c, [line]) == Step(Feed(c, []), line);
  }

  function SetLines<A>(ip: A, psk: Option<nat>, endpoint: Option<string>, keepalive: nat): seq<Line<A>> {
    [ReplaceAllowedIPs, AllowedIP(ip)] + Options(psk, endpoint, keepalive)
  }

  function Options<A>(psk: Option<nat>, endpoint: Option<string>, keepalive: nat): seq<Line<A>> {
    (match psk case Some(k) => [PresharedKey(k)] case None => [])
    + (match endpoint case Some(ep) => [Endpoint(ep)] case None => [])
    + [Keepalive(keepalive)]
  }

  lemma FeedKey<A>(c: Cursor<A>, key: nat, psk: Option<nat>)
    requires c.at == Some(key) && key in c.dev.peers
    ensures Feed(c, match psk case Some(k) => [PresharedKey(k)] case None => []) ==
            if psk.Some? then c.(dev := c.dev.(peers := c.dev.peers[key := c.dev.peers[key].(psk := psk)])) else c
  {
    if psk.Some? {
      hide Feed;
      FeedOne(c, PresharedKey(psk.value));
    }
  }

  lemma FeedEndpoint<A>(c: Cursor<A>, key: nat, endpoint: Option<string>)
    requires c.at == Some(key) && key in c.dev.peers
    ensures Feed(c, match endpoint case Some(ep) => [Endpoint(ep)] case None => []) ==
            if endpoint.Some? then c.(dev := c.dev.(peers := c.dev.peers[key := c.dev.peers[key].(endpoint := endpoint)]))
            else c
  {
    if endpoint.Some? {
      hide Feed;
      FeedOne(c, Endpoint(endpoint.value));
    }
  }

  lemma FeedOptions<A>(c: Cursor<A>, key: nat, psk: Option<nat>, endpoint: Option<string>, keepalive: nat)
    requires c.at == Some(key) && key in c.dev.peers
    ensures Feed(c, Options(psk, endpoint, keepalive)).dev
            == c.dev.(peers := c.dev.peers[key := Merge(c.dev.peers[key], psk, endpoint, keepalive)])
  {
    var p: seq<Line<A>> := match psk case Some(k) => [PresharedKey(k)] case None => [];
    var e: seq<Line<A>> := match endpoint case Some(ep) => [Endpoint(ep)] case None => [];
    hide Feed;
    FeedAppend(c, p + e, [Keepalive(keepalive)]);
    FeedAppend(c, p, e);
    FeedKey(c, key, psk);
    FeedEndpoint(Feed(c, p), key, endpoint);
    FeedOne(Feed(Feed(c, p), e), Keepalive(keepalive));
  }

  lemma FeedSet<A>(c: Cursor<A>, key: nat, ip: A, psk: Option<nat>, endpoint: Option<string>, keepalive: nat)
    ensures Feed(c, Block(key, SetLines(ip, psk, endpoint, keepalive))).dev
            == SetPeer(c.dev, key, ip, psk, endpoint, keepalive)
  {
    FeedBlock(c, key, SetLines(ip, psk, endpoint, keepalive));
    var c0 := Cursor(c.dev.(peers := c.dev.peers[key := SessionOf(c.dev, key)]), Some(key));
    var two := [ReplaceAllowedIPs, AllowedIP(ip)];
    FeedAppend(c0, two, Options(psk, endpoint, keepalive));
    FeedAppend(c0, [ReplaceAllowedIPs], [AllowedIP(ip)]);
    assert [ReplaceAllowedIPs] + [AllowedIP(ip)] == two;
    FeedOne(c0, ReplaceAllowedIPs);
    FeedOne(Feed(c0, [ReplaceAllowedIPs]), AllowedIP(ip));
    FeedOptions(Feed(c0, two), key, psk, endpoint, keepalive);
  }
}
