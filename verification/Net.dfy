/** Addresses, prefixes and ports, as Go's net/netip has them. */
module Net {
  import opened Basics

  type u32 = x: int | 0 <= x < 0x1_0000_0000

  /** netip.Addr: the zero value, an IPv4 address, or an IPv6 address with its zone. */
  datatype Addr = NoAddr | V4(v4: u32) | V6(v6: nat, zone: string) {
    /** An IPv4-mapped IPv6 address stands for the IPv4 address in its low 32 bits. */
    function Unmap(): Addr {
      if V6? && v6 / 0x1_0000_0000 == 0xffff then V4(v6 % 0x1_0000_0000) else this
    }
  }

  /** x >> n. */
  function Shift(x: nat, n: nat): nat { if n == 0 then x else Shift(x / 2, n - 1) }

  /** x with its n low bits cleared. */
  function Clear(x: nat, n: nat): (r: nat)
    ensures r <= x
  {
    if n == 0 then x else 2 * Clear(x / 2, n - 1)
  }

  lemma {:induction false} ShiftClear(x: nat, n: nat)
    ensures Shift(Clear(x, n), n) == Shift(x, n)
  {
    if n > 0 {
      ShiftClear(x / 2, n - 1);
      assert Clear(x, n) / 2 == Clear(x / 2, n - 1);
    }
  }

  /** netip.Prefix: an address and how many of its leading bits count. */
  datatype Prefix = Prefix(addr: Addr, bits: nat) {
    function Width(): nat { if addr.V4? then 32 else 128 }

    /** Prefix.Contains: same family, no zone, and the leading bits agree. */
    predicate Contains(ip: Addr) {
      bits <= Width() &&
      match (addr, ip)
      case (V4(p), V4(a)) => Shift(a, 32 - bits) == Shift(p, 32 - bits)
      case (V6(p, _), V6(a, zone)) => zone == "" && Shift(a, 128 - bits) == Shift(p, 128 - bits)
      case _ => false
    }

    /** Prefix.Masked: the same prefix with the bits that do not count cleared. */
    function Masked(): Prefix {
      if bits > Width() then this else
      match addr
      case NoAddr => this
      case V4(p) => Prefix(V4(Clear(p, 32 - bits)), bits)
      case V6(p, zone) => Prefix(V6(Clear(p, 128 - bits), zone), bits)
    }
  }

  /** Clearing the bits that do not count changes no answer of Contains. */
  lemma MaskedContains(p: Prefix, ip: Addr)
    ensures p.Masked().Contains(ip) == p.Contains(ip)
  {
    if p.bits <= p.Width() {
      match p.addr
      case NoAddr =>
      case V4(x) => ShiftClear(x, 32 - p.bits);
      case V6(x, _) => ShiftClear(x, 128 - p.bits);
    }
  }

  // ---------- Leading bits ----------

  function Pow2(n: nat): (r: nat)
    ensures r > 0
  {
    if n == 0 then 1 else 2 * Pow2(n - 1)
  }

  lemma {:induction false} Pow2Sum(m: nat, n: nat)
    ensures Pow2(m + n) == Pow2(m) * Pow2(n) && Pow2(0) == 1 && Pow2(1) == 2
  {
    if m > 0 {
      Pow2Sum(m - 1, n);
      Twice(Pow2(m - 1), Pow2(n));
    }
  }

  lemma Twice(a: nat, b: nat)
    ensures (2 * a) * b == 2 * (a * b)
  {
  }

  lemma HalvedQuotient(x: nat, p: nat)
    requires p > 0
    ensures x / (2 * p) == x / 2 / p && x / (2 * p) * (2 * p) == 2 * (x / 2 / p * p)
  {
    var q, r := x / 2 / p, x / 2 % p;
    assert x / 2 == q * p + r;
    assert x == q * (2 * p) + (2 * r + x % 2) && 2 * r + x % 2 < 2 * p;
    QuotientIs(x, 2 * p, q, 2 * r + x % 2);
    assert q * (2 * p) == 2 * (q * p);
  }

  lemma OneMore(a: int, d: int)
    ensures (a + 1) * d == a * d + d
  {
  }

  lemma {:induction false} NextMultiple(a: int, b: int, d: int)
    requires d > 0
    ensures a < b ==> a * d + d <= b * d
    decreases b - a
  {
    OneMore(a, d);
    if a + 1 < b { NextMultiple(a + 1, b, d); }
  }

  lemma QuotientIs(x: nat, d: nat, q: nat, r: nat)
    requires d > 0 && r < d && x == q * d + r
    ensures x / d == q
  {
    NextMultiple(x / d, q, d);
    NextMultiple(q, x / d, d);
    assert x == (x / d) * d + x % d;
  }

  lemma {:induction false} ShiftMeaning(x: nat, n: nat)
    ensures Shift(x, n) == x / Pow2(n) && Clear(x, n) == x / Pow2(n) * Pow2(n)
  {
    if n > 0 {
      ShiftMeaning(x / 2, n - 1);
      HalvedQuotient(x, Pow2(n - 1));
    }
  }

  /**
   * A prefix holds the addresses of its own family without a zone that agree with it in the leading bits:
   * dividing by the right power of two leaves the same.
   */
  lemma ContainsMeaning(p: Prefix, ip: Addr)
    ensures p.Contains(ip) <==>
              || (&& p.addr.V4? && ip.V4? && p.bits <= 32
                  && ip.v4 / Pow2(32 - p.bits) == p.addr.v4 / Pow2(32 - p.bits))
              || (&& p.addr.V6? && ip.V6? && ip.zone == "" && p.bits <= 128
                  && ip.v6 / Pow2(128 - p.bits) == p.addr.v6 / Pow2(128 - p.bits))
  {
    if p.addr.V4? && ip.V4? && p.bits <= 32 {
      ShiftMeaning(ip.v4, 32 - p.bits);
      ShiftMeaning(p.addr.v4, 32 - p.bits);
    }
    if p.addr.V6? && ip.V6? && p.bits <= 128 {
      ShiftMeaning(ip.v6, 128 - p.bits);
      ShiftMeaning(p.addr.v6, 128 - p.bits);
    }
  }

  /** Masking rounds the address down to a multiple of the power of two, and changes nothing else. */
  lemma MaskedMeaning(p: Prefix)
    ensures p.Masked().bits == p.bits
    ensures p.addr.V4? && p.bits <= 32 ==>
              p.Masked().addr.V4? && p.Masked().addr.v4 == p.addr.v4 / Pow2(32 - p.bits) * Pow2(32 - p.bits)
    ensures p.addr.V6? && p.bits <= 128 ==>
              && p.Masked().addr.V6? && p.Masked().addr.zone == p.addr.zone
              && p.Masked().addr.v6 == p.addr.v6 / Pow2(128 - p.bits) * Pow2(128 - p.bits)
  {
    if p.addr.V4? && p.bits <= 32 { ShiftMeaning(p.addr.v4, 32 - p.bits); }
    if p.addr.V6? && p.bits <= 128 { ShiftMeaning(p.addr.v6, 128 - p.bits); }
  }

  /** Unmapping takes ::ffff:0:0/96 to IPv4 and leaves every other address. */
  lemma UnmapMeaning(a: Addr)
    ensures a.Unmap() == if a.V6? && 0xffff_0000_0000 <= a.v6 <= 0xffff_ffff_ffff then V4(a.v6 - 0xffff_0000_0000) else a
  {
  }

  /**
   * The parsers this model does not look into: netip.ParseAddr, ParseAddrPort and ParsePrefix,
   * a calendar date at local midnight, and a base64 key. An absent result is a parse error.
   * Instants count from Go's zero time, which is 0; a key is its 32 bytes read as a number.
   */
  datatype Lib = Lib(
    parseAddr: string -> Option<Addr>,
    parseAddrPort: string -> Option<(Addr, int)>,
    parsePrefix: string -> Option<Prefix>,
    parseDate: string -> Option<int>,
    parseKey: string -> Option<nat>)
  {
    /** ParseAddr accepts one spelling of an IPv4 address only: four decimals without leading zeros. */
    ghost predicate OneSpelling() {
      forall s, t :: parseAddr(s).Some? && parseAddr(s).value.V4? && parseAddr(s) == parseAddr(t) ==> s == t
    }
  }
}
