/** Bit strings, most significant bit first, and the unsigned machine words they stand for. */
module Bits {

  type Bitstring = seq<bool>
  type uint8 = x: int | 0 <= x < 0x100
  type Bytes = seq<uint8>
  type uint16 = x: int | 0 <= x < 0x1_0000

  function Zeros(n: nat): (z: Bitstring)
    ensures |z| == n
  {
    seq(n, _ => false)
  }

  function Ones(n: nat): (z: Bitstring)
    ensures |z| == n
  {
    seq(n, _ => true)
  }

  function Xor(a: Bitstring, b: Bitstring): (x: Bitstring)
    requires |a| == |b|
    ensures |x| == |a|
    ensures forall i :: 0 <= i < |x| ==> x[i] == (a[i] != b[i])
  {
    seq(|a|, i requires 0 <= i < |a| => a[i] != b[i])
  }

  lemma XorConcat(a: Bitstring, b: Bitstring, c: Bitstring, d: Bitstring)
    requires |a| == |c| && |b| == |d|
    ensures Xor(a + b, c + d) == Xor(a, c) + Xor(b, d)
  {
  }

  lemma XorZeroIffEqual(a: Bitstring, b: Bitstring)
    requires |a| == |b|
    ensures Xor(a, b) == Zeros(|a|) <==> a == b
  {
    if Xor(a, b) == Zeros(|a|) {
      forall i | 0 <= i < |a| ensures a[i] == b[i] {
        assert !Xor(a, b)[i];
      }
    }
  }

  // ---------------------------------------------------------------------------
  // Parity
  // ---------------------------------------------------------------------------

  /** Whether the number of ones is odd. */
  predicate Odd(w: Bitstring) {
    if w == [] then false else Odd(w[..|w| - 1]) != w[|w| - 1]
  }

  lemma {:induction false} OddConcat(a: Bitstring, b: Bitstring)
    ensures Odd(a + b) == (Odd(a) != Odd(b))
  {
    if b == [] {
      assert a + b == a;
    } else {
      assert (a + b)[..|a + b| - 1] == a + b[..|b| - 1];
      OddConcat(a, b[..|b| - 1]);
    }
  }

  lemma {:induction false} OddXor(a: Bitstring, b: Bitstring)
    requires |a| == |b|
    ensures Odd(Xor(a, b)) == (Odd(a) != Odd(b))
  {
    if a != [] {
      var n := |a| - 1;
      assert Xor(a, b)[..n] == Xor(a[..n], b[..n]);
      OddXor(a[..n], b[..n]);
    }
  }

  lemma {:induction false} OddZeros(n: nat)
    ensures !Odd(Zeros(n))
  {
    if n != 0 {
      assert Zeros(n)[..n - 1] == Zeros(n - 1);
      OddZeros(n - 1);
    }
  }

  // ---------------------------------------------------------------------------
  // Words
  // ---------------------------------------------------------------------------

  function Pow2(k: nat): (p: nat)
    ensures p > 0
  {
    if k == 0 then 1 else 2 * Pow2(k - 1)
  }

  /** The k low-order bits of n. */
  function BitsOf(n: nat, k: nat): (w: Bitstring)
    ensures |w| == k
  {
    if k == 0 then [] else BitsOf(n / 2, k - 1) + [n % 2 == 1]
  }

  function Value(w: Bitstring): nat {
    if w == [] then 0 else 2 * Value(w[..|w| - 1]) + if w[|w| - 1] then 1 else 0
  }

  lemma ValueAppend(w: Bitstring, b: bool)
    ensures Value(w + [b]) == 2 * Value(w) + if b then 1 else 0
  {
    assert (w + [b])[..|w|] == w;
  }

  lemma {:induction false} ValueOfBits(n: nat, k: nat)
    requires n < Pow2(k)
    ensures Value(BitsOf(n, k)) == n
  {
    if k != 0 {
      var high := BitsOf(n / 2, k - 1);
      ValueOfBits(n / 2, k - 1);
      ValueAppend(high, n % 2 == 1);
      assert BitsOf(n, k) == high + [n % 2 == 1];
    }
  }

  lemma {:induction false} BitsOfValue(w: Bitstring)
    ensures BitsOf(Value(w), |w|) == w
    ensures Value(w) < Pow2(|w|)
  {
    if w != [] {
      BitsOfValue(w[..|w| - 1]);
    }
  }

  /** A word split at bit j: the high part's bits, then the low part's. */
  lemma {:induction false} BitsSplit(hi: nat, lo: nat, k: nat, j: nat)
    requires lo < Pow2(j)
    ensures BitsOf(lo + Pow2(j) * hi, k + j) == BitsOf(hi, k) + BitsOf(lo, j)
  {
    if j != 0 {
      var m := Pow2(j - 1) * hi;
      Doubled(Pow2(j - 1), hi);
      Halved(lo, m);
      BitsSplit(hi, lo / 2, k, j - 1);
    }
  }

  lemma Doubled(p: nat, hi: nat)
    ensures 2 * p * hi == 2 * (p * hi)
  {
  }

  lemma Halved(lo: nat, m: nat)
    ensures (lo + 2 * m) / 2 == lo / 2 + m && (lo + 2 * m) % 2 == lo % 2
  {
  }

  /** Bits above the k-th do not matter. */
  lemma {:induction false} BitsDropHigh(n: nat, k: nat)
    ensures BitsOf(n + Pow2(k), k) == BitsOf(n, k)
  {
    if k != 0 {
      BitsDropHigh(n / 2, k - 1);
    }
  }

  lemma {:induction false} BitsTail(n: nat, k: nat)
    ensures BitsOf(n, k + 1)[1..] == BitsOf(n, k)
    ensures Pow2(k) <= n < Pow2(k + 1) ==> BitsOf(n, k + 1)[0]
    ensures n < Pow2(k) ==> !BitsOf(n, k + 1)[0]
  {
    if k != 0 {
      BitsTail(n / 2, k - 1);
    }
  }

  lemma Pow2Words()
    ensures Pow2(8) == 0x100 && Pow2(15) == 0x8000 && Pow2(16) == 0x1_0000
  {
    assert Pow2(8) == 16 * Pow2(4);
    assert Pow2(15) == 128 * Pow2(8);
  }

  function ByteBits(b: uint8): (w: Bitstring)
    ensures |w| == 8
  {
    BitsOf(b, 8)
  }

  function WordBits(c: uint16): (w: Bitstring)
    ensures |w| == 16
  {
    BitsOf(c, 16)
  }

  /** The C operator ^ on 8-bit operands. */
  function Xor8(a: uint8, b: uint8): (x: uint8)
    ensures ByteBits(x) == Xor(ByteBits(a), ByteBits(b))
  {
    Pow2Words();
    BitsOfValue(Xor(ByteBits(a), ByteBits(b)));
    Value(Xor(ByteBits(a), ByteBits(b)))
  }

  /** The C operator ^ on 16-bit operands. */
  function Xor16(a: uint16, b: uint16): (x: uint16)
    ensures WordBits(x) == Xor(WordBits(a), WordBits(b))
  {
    Pow2Words();
    BitsOfValue(Xor(WordBits(a), WordBits(b)));
    Value(Xor(WordBits(a), WordBits(b)))
  }

  lemma DoubledBits(c: nat, x: nat)
    requires x == 2 * c || x + 0x1_0000 == 2 * c
    ensures BitsOf(x, 16) == BitsOf(c, 15) + [false]
  {
    Pow2Words();
    if x + 0x1_0000 == 2 * c {
      BitsDropHigh(x, 16);
    }
    assert BitsOf(2 * c, 16) == BitsOf(2 * c / 2, 15) + [false];
  }

  /** A 16-bit shift left by one; the top bit is lost. */
  function Shl16(c: uint16): (x: uint16)
    ensures WordBits(x) == WordBits(c)[1..] + [false]
  {
    var x: uint16 := if c < 0x8000 then 2 * c else 2 * c - 0x1_0000;
    BitsTail(c, 15);
    DoubledBits(c, x);
    x
  }

  lemma ByteBitsInjective(a: uint8, b: uint8)
    ensures ByteBits(a) == ByteBits(b) <==> a == b
  {
    Pow2Words();
    ValueOfBits(a, 8);
    ValueOfBits(b, 8);
  }

  lemma WordBitsInjective(a: uint16, b: uint16)
    ensures WordBits(a) == WordBits(b) <==> a == b
  {
    Pow2Words();
    ValueOfBits(a, 16);
    ValueOfBits(b, 16);
  }

  /** A word assembled from its low and high bytes. */
  function Word(lo: uint8, hi: uint8): (c: uint16) {
    (lo as int) + 0x100 * (hi as int)
  }

  lemma WordBitsBytes(hi: uint8, lo: uint8)
    ensures WordBits(Word(lo, hi)) == ByteBits(hi) + ByteBits(lo)
  {
    Pow2Words();
    BitsSplit(hi, lo, 8, 8);
  }

  // ---------------------------------------------------------------------------
  // Byte strings
  // ---------------------------------------------------------------------------

  /** The bits of a byte string, in the order a most-significant-bit-first shift register takes them. */
  function BytesBits(data: seq<uint8>): (w: Bitstring)
    ensures |w| == 8 * |data|
  {
    if data == [] then [] else BytesBits(data[..|data| - 1]) + ByteBits(data[|data| - 1])
  }

  lemma {:induction false} BytesBitsConcat(a: seq<uint8>, b: seq<uint8>)
    ensures BytesBits(a + b) == BytesBits(a) + BytesBits(b)
  {
    if b == [] {
      assert a + b == a;
    } else {
      assert (a + b)[..|a + b| - 1] == a + b[..|b| - 1];
      BytesBitsConcat(a, b[..|b| - 1]);
    }
  }

  lemma {:induction false} BytesBitsAt(data: seq<uint8>, k: nat, j: nat)
    requires k < |data| && j < 8
    ensures BytesBits(data)[8 * k + j] == ByteBits(data[k])[j]
  {
    if k < |data| - 1 {
      BytesBitsAt(data[..|data| - 1], k, j);
    }
  }

  function XorBytes(a: seq<uint8>, b: seq<uint8>): (x: seq<uint8>)
    requires |a| == |b|
    ensures |x| == |a|
    ensures forall i :: 0 <= i < |x| ==> x[i] == Xor8(a[i], b[i])
  {
    seq(|a|, i requires 0 <= i < |a| => Xor8(a[i], b[i]))
  }

  lemma {:induction false} BytesBitsXor(a: seq<uint8>, b: seq<uint8>)
    requires |a| == |b|
    ensures BytesBits(XorBytes(a, b)) == Xor(BytesBits(a), BytesBits(b))
  {
    if a != [] {
      var n := |a| - 1;
      BytesBitsXor(a[..n], b[..n]);
      assert XorBytes(a, b)[..n] == XorBytes(a[..n], b[..n]);
      XorConcat(BytesBits(a[..n]), ByteBits(a[n]), BytesBits(b[..n]), ByteBits(b[n]));
    }
  }
}
