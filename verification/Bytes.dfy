/** Octets, big-endian 16-bit words and the Internet checksum of RFC 1071. */
module Bytes {
  type byte = x: int | 0 <= x < 0x100
  type u16 = x: int | 0 <= x < 0x1_0000

  /** The 16-bit word at offset i, in network byte order. */
  function Word(b: seq<byte>, i: nat): u16
    requires i + 1 < |b|
  {
    (b[i] as int) * 0x100 + b[i + 1]
  }

  function Hi(w: u16): byte { w / 0x100 }

  function Lo(w: u16): byte { w % 0x100 }

  function SetWord(b: seq<byte>, i: nat, w: u16): (r: seq<byte>)
    requires i + 1 < |b|
    ensures |r| == |b|
    ensures Word(r, i) == w
  {
    b[i := Hi(w)][i + 1 := Lo(w)]
  }

  /** What an octet counts for in a sum of 16-bit words, by the parity of its offset. */
  function Weight(i: nat): nat { if i % 2 == 0 then 0x100 else 1 }

  /** The sum of the 16-bit words of b; an odd last octet is padded with a zero octet. */
  function WordSum(b: seq<byte>): nat {
    if b == [] then 0 else WordSum(b[..|b| - 1]) + (b[|b| - 1] as int) * Weight(|b| - 1)
  }

  lemma {:induction false} WordSumUpdate(b: seq<byte>, i: nat, v: byte)
    requires i < |b|
    ensures i % 2 == 0 ==> WordSum(b[i := v]) == WordSum(b) + 0x100 * (v - b[i])
    ensures i % 2 == 1 ==> WordSum(b[i := v]) == WordSum(b) + (v - b[i])
  {
    var n := |b| - 1;
    if i == n {
      assert b[i := v][..n] == b[..n];
    } else {
      WordSumUpdate(b[..n], i, v);
      assert b[i := v][..n] == b[..n][i := v];
    }
  }

  lemma WordSumStep(b: seq<byte>, i: nat)
    requires i % 2 == 0 && i + 1 < |b|
    ensures WordSum(b[..i + 2]) == WordSum(b[..i]) + Word(b, i)
  {
    assert b[..i + 2][..i + 1] == b[..i + 1];
    assert b[..i + 1][..i] == b[..i];
  }

  lemma WordSumSetPair(b: seq<byte>, i: nat, h: byte, l: byte)
    requires i + 1 < |b|
    ensures i % 2 == 0 ==>
              WordSum(b[i := h][i + 1 := l]) == WordSum(b) + 0x100 * (h - b[i]) + (l - b[i + 1])
    ensures i % 2 == 1 ==>
              WordSum(b[i := h][i + 1 := l]) == WordSum(b) + (h - b[i]) + 0x100 * (l - b[i + 1])
  {
    WordSumUpdate(b, i, h);
    WordSumUpdate(b[i := h], i + 1, l);
  }

  /** Writing an aligned word shifts the sum by the change in the word. */
  lemma WordSumSetWord(b: seq<byte>, i: nat, w: u16)
    requires i + 1 < |b| && i % 2 == 0
    ensures WordSum(SetWord(b, i, w)) == WordSum(b) + w - Word(b, i)
  {
    WordSumSetPair(b, i, Hi(w), Lo(w));
  }

  lemma {:induction false} WordSumBound(b: seq<byte>)
    ensures WordSum(b) <= |b| * 0xff00
  {
    if b != [] { WordSumBound(b[..|b| - 1]); }
  }

  lemma {:induction false} WordSumPositive(b: seq<byte>, i: nat)
    requires i < |b| && b[i] > 0
    ensures WordSum(b) > 0
  {
    if i < |b| - 1 { WordSumPositive(b[..|b| - 1], i); }
  }

  /** One's-complement folding of a sum into 16 bits. */
  function Fold(x: nat): u16 {
    if x < 0x1_0000 then x else Fold(x % 0x1_0000 + x / 0x1_0000)
  }

  /** Folding keeps the residue modulo 65535, and only the zero sum folds to zero. */
  lemma {:induction false} FoldResidue(x: nat)
    ensures Fold(x) % 0xffff == x % 0xffff
    ensures Fold(x) == 0 <==> x == 0
  {
    if x >= 0x1_0000 {
      var y := x % 0x1_0000 + x / 0x1_0000;
      assert x - y == 0xffff * (x / 0x1_0000);
      FoldResidue(y);
      SameResidue(x, y, x / 0x1_0000);
    }
  }

  lemma SameResidue(x: int, y: int, k: int)
    requires x == y + 0xffff * k
    ensures x % 0xffff == y % 0xffff
  {
    assert (x - y) % 0xffff == 0;
  }

  /** What a receiver checks (RFC 1071): the words, checksum included, fold to all ones. */
  predicate Verifies(sum: nat) { Fold(sum) == 0xffff }

  /** The receiver's check is the residue modulo 65535 of a sum that is not zero. */
  lemma VerifiesIffResidue(sum: nat)
    ensures Verifies(sum) <==> sum > 0 && sum % 0xffff == 0
  {
    FoldResidue(sum);
  }

  function Checksum(b: seq<byte>): u16 { 0xffff - Fold(WordSum(b)) }

  lemma ComplementResidue(x: nat, f: u16)
    requires x % 0xffff == f % 0xffff
    ensures (x + (0xffff - f)) % 0xffff == 0
  {
    SameResidue(x - f, 0, x / 0xffff - f / 0xffff);
    SameResidue(x + (0xffff - f), x - f, 1);
  }

  /** A block that is not all zero, whose aligned zero word gets the checksum, verifies. */
  lemma ChecksumVerifies(b: seq<byte>, at: nat)
    requires at % 2 == 0 && at + 1 < |b|
    requires Word(b, at) == 0 && WordSum(b) > 0
    ensures Verifies(WordSum(SetWord(b, at, Checksum(b))))
  {
    var s := WordSum(b);
    FoldResidue(s);
    WordSumSetWord(b, at, Checksum(b));
    ComplementResidue(s, Fold(s));
    VerifiesIffResidue(s + (0xffff - Fold(s)));
  }

  lemma WrapMultiple(a: nat, q: nat)
    ensures Wrap32(a + q * 0x1_0000_0000) == Wrap32(a)
  {
    var r := a % 0x1_0000_0000;
    assert a + q * 0x1_0000_0000 == (a / 0x1_0000_0000 + q) * 0x1_0000_0000 + r;
  }

  lemma WrapAdds(x: nat, y: nat)
    ensures Wrap32(Wrap32(x) + y) == Wrap32(x + y)
  {
    var q := x / 0x1_0000_0000;
    assert x == q * 0x1_0000_0000 + Wrap32(x);
    hide Wrap32;
    WrapMultiple(Wrap32(x) + y, q);
  }

  /** The octet left over counts as the high one of a word. */
  lemma WordSumOdd(b: seq<byte>)
    requires |b| % 2 == 1
    ensures WordSum(b) == WordSum(b[..|b| - 1]) + (b[|b| - 1] as int) * 0x100
  {
  }

  /** The loop of checksum that adds the words, in 32-bit arithmetic. */
  method AddWords(b: seq<byte>) returns (sum: nat)
    ensures sum == Wrap32(WordSum(b))
  {
    sum := 0;
    var i: nat := 0;
    assert b[..0] == [];
    hide WordSum, Wrap32;
    while i + 1 < |b|
      invariant i <= |b| && i % 2 == 0
      invariant sum == Wrap32(WordSum(b[..i]))
    {
      WordSumStep(b, i);
      WrapAdds(WordSum(b[..i]), Word(b, i));
      sum := Wrap32(sum + Word(b, i));
      i := i + 2;
    }
    if |b| % 2 == 1 {
      WordSumOdd(b);
      WrapAdds(WordSum(b[..i]), (b[i] as int) * 0x100);
      sum := Wrap32(sum + (b[|b| - 1] as int) * 0x100);
    } else {
      assert b[..i] == b;
    }
  }

  /** uint32 arithmetic wraps. */
  function Wrap32(x: nat): nat { x % 0x1_0000_0000 }

  /** The sum of a packet's words never reaches 32 bits. */
  lemma SmallSum(b: seq<byte>)
    requires |b| <= 0x1_0000
    ensures Wrap32(WordSum(b)) == WordSum(b)
  {
    WordSumBound(b);
  }

  /** The loop that folds the carries back, as checksum and fixChecksum both do. */
  method FoldCarries(x: nat) returns (f: u16)
    ensures f == Fold(x)
  {
    var sum := x;
    while sum >= 0x1_0000
      invariant Fold(sum) == Fold(x)
    {
      sum := sum % 0x1_0000 + sum / 0x1_0000;
    }
    f := sum;
  }

  /**
   * checksum of internal/policy/packet.go. The sum is kept in 32 bits, which is the checksum of RFC 1071
   * for every block up to 65536 octets; a longer block loses the carries out of the 32 bits.
   */
  method ComputeChecksum(b: seq<byte>) returns (c: u16)
    ensures c == 0xffff - Fold(Wrap32(WordSum(b)))
    ensures |b| <= 0x1_0000 ==> c == Checksum(b)
  {
    if |b| <= 0x1_0000 { SmallSum(b); }
    hide WordSum, Wrap32, Fold;
    var sum := AddWords(b);
    var f := FoldCarries(sum);
    c := 0xffff - f;
  }
}
