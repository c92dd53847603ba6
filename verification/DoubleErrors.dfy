/** Errors of few bits: any two valid packets differ in at least four bits, and some in no more. */
module DoubleErrors {
  import opened Bits
  import opened Crc
  import opened Packet
  import opened ErrorDetection

  // ---------------------------------------------------------------------------
  // The register as a machine word
  // ---------------------------------------------------------------------------

  function Clock(b: bv16): bv16 {
    if b & 0x8000 != 0 then (b << 1) ^ 0x1021 else b << 1
  }

  predicate Same(r: Register, b: bv16) {
    && r[0] == (b & 0x8000 != 0) && r[1] == (b & 0x4000 != 0) && r[2] == (b & 0x2000 != 0)
    && r[3] == (b & 0x1000 != 0) && r[4] == (b & 0x0800 != 0) && r[5] == (b & 0x0400 != 0)
    && r[6] == (b & 0x0200 != 0) && r[7] == (b & 0x0100 != 0) && r[8] == (b & 0x0080 != 0)
    && r[9] == (b & 0x0040 != 0) && r[10] == (b & 0x0020 != 0) && r[11] == (b & 0x0010 != 0)
    && r[12] == (b & 0x0008 != 0) && r[13] == (b & 0x0004 != 0) && r[14] == (b & 0x0002 != 0)
    && r[15] == (b & 0x0001 != 0)
  }

  lemma ClockBitsA(b: bv16)
    ensures (Clock(b) & 0x8000 != 0) == (b & 0x4000 != 0)
    ensures (Clock(b) & 0x4000 != 0) == (b & 0x2000 != 0)
    ensures (Clock(b) & 0x2000 != 0) == (b & 0x1000 != 0)
    ensures (Clock(b) & 0x1000 != 0) == ((b & 0x0800 != 0) != (b & 0x8000 != 0))
  {
  }

  lemma ClockBitsB(b: bv16)
    ensures (Clock(b) & 0x0800 != 0) == (b & 0x0400 != 0)
    ensures (Clock(b) & 0x0400 != 0) == (b & 0x0200 != 0)
    ensures (Clock(b) & 0x0200 != 0) == (b & 0x0100 != 0)
    ensures (Clock(b) & 0x0100 != 0) == (b & 0x0080 != 0)
  {
  }

  lemma ClockBitsC(b: bv16)
    ensures (Clock(b) & 0x0080 != 0) == (b & 0x0040 != 0)
    ensures (Clock(b) & 0x0040 != 0) == (b & 0x0020 != 0)
    ensures (Clock(b) & 0x0020 != 0) == ((b & 0x0010 != 0) != (b & 0x8000 != 0))
    ensures (Clock(b) & 0x0010 != 0) == (b & 0x0008 != 0)
  {
  }

  lemma ClockBitsD(b: bv16)
    ensures (Clock(b) & 0x0008 != 0) == (b & 0x0004 != 0)
    ensures (Clock(b) & 0x0004 != 0) == (b & 0x0002 != 0)
    ensures (Clock(b) & 0x0002 != 0) == (b & 0x0001 != 0)
    ensures (Clock(b) & 0x0001 != 0) == (b & 0x8000 != 0)
  {
  }

  lemma FedBit(r: Register, i: nat)
    requires i < 16
    ensures Feed(r, false)[i] ==
            if i == 15 then r[0] else if i == 3 || i == 10 then r[i + 1] != r[0] else r[i + 1]
  {
    assert i < 15 ==> (r[1..] + [false])[i] == r[i + 1];
  }

  lemma ClockFeeds(r: Register, b: bv16)
    requires Same(r, b)
    ensures Same(Feed(r, false), Clock(b))
  {
    ClockBitsA(b);
    ClockBitsB(b);
    ClockBitsC(b);
    ClockBitsD(b);
    FedBit(r, 0); FedBit(r, 1); FedBit(r, 2); FedBit(r, 3); FedBit(r, 4); FedBit(r, 5); FedBit(r, 6); FedBit(r, 7);
    FedBit(r, 8); FedBit(r, 9); FedBit(r, 10); FedBit(r, 11);
    FedBit(r, 12); FedBit(r, 13); FedBit(r, 14); FedBit(r, 15);
  }

  /** Neither b nor what it becomes in so many clocks is the top bit alone. */
  predicate Avoids(b: bv16, clocks: nat)
    decreases clocks
  {
    b != 0x8000 && (clocks == 0 || Avoids(Clock(b), clocks - 1))
  }

  lemma LastLegs()
    ensures Avoids(0x45B4, 62)
  {
    assert Avoids(0x5946, 6);
    assert Avoids(0x8E29, 14);
    assert Avoids(0x091F, 22);
    assert Avoids(0xF0E6, 30);
    assert Avoids(0x2494, 38);
    assert Avoids(0x1566, 46);
    assert Avoids(0xAC61, 54);
  }

  lemma LaterLegs()
    ensures Avoids(0x10E2, 126)
  {
    LastLegs();
    assert Avoids(0x3703, 70);
    assert Avoids(0x650B, 78);
    assert Avoids(0x6DD8, 86);
    assert Avoids(0xD5F6, 94);
    assert Avoids(0x35B3, 102);
    assert Avoids(0xDE1F, 110);
    assert Avoids(0xF031, 118);
  }

  lemma EarlierLegs()
    ensures Avoids(0xEB23, 190)
  {
    LaterLegs();
    assert Avoids(0xA824, 134);
    assert Avoids(0xAEFC, 142);
    assert Avoids(0x7B61, 150);
    assert Avoids(0x4563, 158);
    assert Avoids(0x0375, 166);
    assert Avoids(0xD849, 174);
    assert Avoids(0x6F45, 182);
  }

  lemma GeneratorAvoidsTop()
    ensures Avoids(0x1021, 254)
  {
    EarlierLegs();
    assert Avoids(0x47D3, 198);
    assert Avoids(0xB861, 206);
    assert Avoids(0x45A0, 214);
    assert Avoids(0xAA51, 222);
    assert Avoids(0x76B4, 230);
    assert Avoids(0x3730, 238);
    assert Avoids(0x3331, 246);
  }

  lemma GeneratorSame()
    ensures Same(Generator(), 0x1021)
  {
  }

  lemma TopSame(r: Register, b: bv16)
    requires Same(r, b) && r == Pad([true])
    ensures b == 0x8000
  {
  }

  lemma {:induction false} AvoidsTop(r: Register, b: bv16, clocks: nat, n: nat)
    requires Same(r, b) && Avoids(b, clocks) && n <= clocks
    ensures FeedAll(r, Zeros(n)) != Pad([true])
    decreases n
  {
    if n == 0 {
      if r == Pad([true]) {
        TopSame(r, b);
      }
    } else {
      FeedFirst(r, Zeros(n));
      assert Zeros(n)[1..] == Zeros(n - 1);
      ClockFeeds(r, b);
      AvoidsTop(Feed(r, false), Clock(b), clocks - 1, n - 1);
    }
  }

  // ---------------------------------------------------------------------------
  // Two flipped bits
  // ---------------------------------------------------------------------------

  function TwoOnes(before: nat, between: nat, after: nat): Bitstring {
    Zeros(before) + [true] + Zeros(between) + [true] + Zeros(after)
  }

  lemma FirstOne(before: nat)
    ensures FeedAll(Zeros(16), Zeros(before) + [true]) == Generator()
  {
    FeedConcat(Zeros(16), Zeros(before), [true]);
    FeedZeros(Zeros(16), before);
    assert [true][..0] == [];
    assert Feed(Zeros(16), true) == Generator();
  }

  /** The generator's order exceeds 255: two ones no further apart never cancel. */
  lemma TwoOnesLeaveRemainder(before: nat, between: nat, after: nat)
    requires between <= 254
    ensures FeedAll(Zeros(16), TwoOnes(before, between, after)) != Zeros(16)
  {
    var start := Zeros(before) + [true];
    FirstOne(before);
    FeedConcat(Zeros(16), start, Zeros(between));
    GeneratorAvoidsTop();
    GeneratorSame();
    AvoidsTop(Generator(), 0x1021, 254, between);
    FeedConcat(Zeros(16), start + Zeros(between), [true]);
    FeedToZero(FeedAll(Generator(), Zeros(between)), [true]);
    FeedConcat(Zeros(16), start + Zeros(between) + [true], Zeros(after));
    FeedZeros(FeedAll(Zeros(16), start + Zeros(between) + [true]), after);
  }

  /** The number of ones. */
  function Weight(w: Bitstring): nat {
    if w == [] then 0 else Weight(w[..|w| - 1]) + if w[|w| - 1] then 1 else 0
  }

  lemma {:induction false} WeightConcat(a: Bitstring, b: Bitstring)
    ensures Weight(a + b) == Weight(a) + Weight(b)
  {
    if b == [] {
      assert a + b == a;
    } else {
      assert (a + b)[..|a + b| - 1] == a + b[..|b| - 1];
      WeightConcat(a, b[..|b| - 1]);
    }
  }

  lemma {:induction false} WeightOdd(w: Bitstring)
    ensures Odd(w) <==> Weight(w) % 2 == 1
  {
    if w != [] {
      WeightOdd(w[..|w| - 1]);
    }
  }

  lemma {:induction false} WeightZero(w: Bitstring)
    ensures Weight(w) == 0 <==> w == Zeros(|w|)
  {
    if w != [] {
      var n := |w| - 1;
      WeightZero(w[..n]);
      assert w == w[..n] + [w[n]];
      assert Zeros(|w|)[..n] == Zeros(n);
    }
  }

  lemma {:induction false} LastOne(w: Bitstring) returns (i: nat)
    requires Weight(w) > 0
    ensures i < |w| && w == w[..i] + [true] + Zeros(|w| - i - 1) && Weight(w[..i]) == Weight(w) - 1
  {
    var n := |w| - 1;
    if w[n] {
      i := n;
      assert w == w[..n] + [true] + Zeros(0);
    } else {
      i := LastOne(w[..n]);
      assert w[..n][..i] == w[..i];
      assert w == w[..n] + [false];
      assert Zeros(n - i - 1) + [false] == Zeros(n - i);
    }
  }

  lemma WeightTwo(w: Bitstring) returns (before: nat, between: nat, after: nat)
    requires Weight(w) == 2
    ensures w == TwoOnes(before, between, after) && before + between + after + 2 == |w|
  {
    var j := LastOne(w);
    before := LastOne(w[..j]);
    assert w[..j][..before] == w[..before];
    WeightZero(w[..before]);
    between, after := j - before - 1, |w| - j - 1;
  }

  // ---------------------------------------------------------------------------
  // Packets
  // ---------------------------------------------------------------------------

  /** The number of bits of a packet that an error flips. */
  function Flips(e: PacketBytes): nat {
    Weight(BytesBits(e))
  }

  lemma CodeWordWeight(p: PacketBytes)
    ensures Weight(CodeWord(p)) == Flips(p)
  {
    var body, low, high := BytesBits(p[..CRC_OFFSET]), ByteBits(p[30]), ByteBits(p[31]);
    CodeWordParts(p);
    assert p == p[..CRC_OFFSET] + [p[30], p[31]];
    BytesBitsConcat(p[..CRC_OFFSET], [p[30], p[31]]);
    TwoByteBits(p[30], p[31]);
    WeightConcat(body, high + low);
    WeightConcat(body, low + high);
    WeightConcat(high, low);
    WeightConcat(low, high);
  }

  lemma TwoFlipsRejected(p: PacketBytes, e: PacketBytes)
    requires CrcValid(p) && Flips(e) == 2
    ensures !CrcValid(XorBytes(p, e))
  {
    UndetectedIff(p, e);
    CodeWordWeight(e);
    var before, between, after := WeightTwo(CodeWord(e));
    TwoOnesLeaveRemainder(before, between, after);
  }

  /** Any one, two or three flipped bits, wherever they are in the packet, are rejected. */
  lemma FewFlipsRejected(p: PacketBytes, e: PacketBytes)
    requires CrcValid(p) && 1 <= Flips(e) <= 3
    ensures !CrcValid(XorBytes(p, e))
  {
    if Flips(e) == 2 {
      TwoFlipsRejected(p, e);
    } else {
      WeightOdd(BytesBits(e));
      OddFlipRejected(p, e);
    }
  }

  /** The generator itself, at the end of the code word. */
  function GeneratorError(): PacketBytes {
    ZeroBytes(29) + [0x01, 0x21, 0x10]
  }

  lemma {:induction false} BitsOfOne(k: nat)
    requires k > 0
    ensures BitsOf(1, k) == Zeros(k - 1) + [true]
  {
    ZeroBits(k - 1);
  }

  lemma GeneratorCodeWord()
    ensures CodeWord(GeneratorError()) == Zeros(239) + [true] + Generator()
  {
    var e := GeneratorError();
    CodeWordParts(e);
    assert e[29] == 0x01 && e[..30][..29] == ZeroBytes(29) && e[30] == 0x21 && e[31] == 0x10;
    assert BytesBits(e[..30]) == BytesBits(ZeroBytes(29)) + ByteBits(0x01);
    BytesBitsZero(ZeroBytes(29));
    BitsOfOne(8);
    assert Zeros(232) + (Zeros(7) + [true]) == Zeros(239) + [true];
    WordBitsBytes(0x10, 0x21);
    GeneratorBits();
  }

  /** Four can be too many. */
  lemma FourFlipsUndetected(p: PacketBytes)
    requires CrcValid(p)
    ensures Flips(GeneratorError()) == 4 && CrcValid(XorBytes(p, GeneratorError()))
  {
    var e := GeneratorError();
    UndetectedIff(p, e);
    GeneratorCodeWord();
    FirstOne(239);
    FeedConcat(Zeros(16), Zeros(239) + [true], Generator());
    FeedToZero(Generator(), Generator());
    assert Pad(Generator()) == Generator();
    CodeWordWeight(e);
    GeneratorWeight();
  }

  lemma GeneratorWeight()
    ensures Weight(Zeros(239) + [true] + Generator()) == 4
  {
    var g := Zeros(3) + [true] + Zeros(6) + [true] + Zeros(4) + [true];
    assert Generator() == g;
    WeightZero(Zeros(239));
    WeightZero(Zeros(3));
    WeightZero(Zeros(6));
    WeightZero(Zeros(4));
    assert Weight([true]) == 1 by { assert [true][..0] == []; }
    WeightConcat(Zeros(239) + [true], g);
    WeightConcat(Zeros(239), [true]);
    WeightConcat(Zeros(3), [true]);
    WeightConcat(Zeros(3) + [true], Zeros(6));
    WeightConcat(Zeros(3) + [true] + Zeros(6), [true]);
    WeightConcat(Zeros(3) + [true] + Zeros(6) + [true], Zeros(4));
    WeightConcat(Zeros(3) + [true] + Zeros(6) + [true] + Zeros(4), [true]);
  }

  lemma XorTwice(p: PacketBytes, q: PacketBytes)
    ensures XorBytes(p, XorBytes(p, q)) == q
  {
    forall i | 0 <= i < PACKET_SIZE ensures XorBytes(p, XorBytes(p, q))[i] == q[i] {
      ByteXorTwice(p[i], q[i]);
    }
  }

  lemma ByteXorTwice(a: uint8, b: uint8)
    ensures Xor8(a, Xor8(a, b)) == b
  {
    var x := Xor8(a, Xor8(a, b));
    assert ByteBits(x) == ByteBits(b);
    ByteBitsInjective(x, b);
  }

  lemma XorNone(p: PacketBytes, q: PacketBytes)
    requires Flips(XorBytes(p, q)) == 0
    ensures p == q
  {
    WeightZero(BytesBits(XorBytes(p, q)));
    BytesBitsXor(p, q);
    XorZeroIffEqual(BytesBits(p), BytesBits(q));
    forall i | 0 <= i < PACKET_SIZE ensures p[i] == q[i] {
      forall j | 0 <= j < 8 ensures ByteBits(p[i])[j] == ByteBits(q[i])[j] {
        BytesBitsAt(p, i, j);
        BytesBitsAt(q, i, j);
      }
      ByteBitsInjective(p[i], q[i]);
    }
  }

  /** Two different valid packets differ in at least four bits. */
  lemma ValidPacketsApart(p: PacketBytes, q: PacketBytes)
    requires CrcValid(p) && CrcValid(q) && p != q
    ensures Flips(XorBytes(p, q)) >= 4
  {
    var e := XorBytes(p, q);
    XorTwice(p, q);
    if Flips(e) == 0 {
      XorNone(p, q);
    } else if Flips(e) < 4 {
      FewFlipsRejected(p, e);
    }
  }
}
