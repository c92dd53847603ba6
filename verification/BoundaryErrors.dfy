/** The one change on either side of the CRC boundary, bytes 29 and 30, that a valid packet survives. */
module BoundaryErrors {
  import opened Bits
  import opened Crc
  import opened Packet
  import opened ErrorDetection
  import opened DoubleErrors

  function Bit(on: bool, mask: bv16): bv16 {
    if on then mask else 0
  }

  /** Eight bits at the top of a word. */
  function AtTop(w: Bitstring): bv16
    requires |w| == 8
  {
    Bit(w[0], 0x8000) | Bit(w[1], 0x4000) | Bit(w[2], 0x2000) | Bit(w[3], 0x1000)
    | Bit(w[4], 0x0800) | Bit(w[5], 0x0400) | Bit(w[6], 0x0200) | Bit(w[7], 0x0100)
  }

  lemma AtTopHigh(w: Bitstring)
    requires |w| == 8
    ensures (AtTop(w) & 0x8000 != 0) == w[0]
    ensures (AtTop(w) & 0x4000 != 0) == w[1]
    ensures (AtTop(w) & 0x2000 != 0) == w[2]
    ensures (AtTop(w) & 0x1000 != 0) == w[3]
  {
  }

  lemma AtTopLow(w: Bitstring)
    requires |w| == 8
    ensures (AtTop(w) & 0x0800 != 0) == w[4]
    ensures (AtTop(w) & 0x0400 != 0) == w[5]
    ensures (AtTop(w) & 0x0200 != 0) == w[6]
    ensures (AtTop(w) & 0x0100 != 0) == w[7]
    ensures AtTop(w) & 0x00FF == 0
  {
  }

  lemma LowerHalf(b: bv16)
    requires b & 0x00FF == 0
    ensures b & 0x0080 == 0 && b & 0x0040 == 0 && b & 0x0020 == 0 && b & 0x0010 == 0
    ensures b & 0x0008 == 0 && b & 0x0004 == 0 && b & 0x0002 == 0 && b & 0x0001 == 0
  {
  }

  lemma AtTopSame(w: Bitstring)
    requires |w| == 8
    ensures Same(Pad(w), AtTop(w)) && AtTop(w) & 0x00FF == 0
  {
    AtTopHigh(w);
    AtTopLow(w);
    LowerHalf(AtTop(w));
    assert forall i :: 0 <= i < 16 ==> Pad(w)[i] == (i < 8 && w[i]);
  }

  function Eight(b: bv16): bv16 {
    Clock(Clock(Clock(Clock(Clock(Clock(Clock(Clock(b))))))))
  }

  /** Bits fed in are the same as bits exclusive-ored into the top beforehand. */
  lemma {:induction false} FeedAsClocks(r: Register, w: Bitstring)
    requires |w| <= 16
    ensures FeedAll(r, w) == FeedAll(Xor(r, Pad(w)), Zeros(|w|))
    decreases |w|
  {
    if w == [] {
      XorNothing(r);
    } else {
      FeedFirst(r, w);
      Absorb(r, w);
      FeedAsClocks(Feed(r, w[0]), w[1..]);
      FeedFirst(Xor(r, Pad(w)), Zeros(|w|));
      assert Zeros(|w|)[1..] == Zeros(|w| - 1);
    }
  }

  lemma TwoClocks(r: Register, b: bv16)
    requires Same(r, b)
    ensures Same(FeedAll(r, Zeros(2)), Clock(Clock(b)))
  {
    FeedOneZero(r, 0);
    FeedOneZero(r, 1);
    ClockFeeds(r, b);
    ClockFeeds(Feed(r, false), Clock(b));
  }

  lemma FourClocks(r: Register, b: bv16)
    requires Same(r, b)
    ensures Same(FeedAll(r, Zeros(4)), Clock(Clock(Clock(Clock(b)))))
  {
    TwoClocks(r, b);
    TwoClocks(FeedAll(r, Zeros(2)), Clock(Clock(b)));
    FeedConcat(r, Zeros(2), Zeros(2));
    assert Zeros(2) + Zeros(2) == Zeros(4);
  }

  lemma FeedOneZero(r: Register, n: nat)
    ensures FeedAll(r, Zeros(0)) == r && FeedAll(r, Zeros(n + 1)) == Feed(FeedAll(r, Zeros(n)), false)
  {
    assert Zeros(n + 1)[..n] == Zeros(n);
  }

  lemma EightClocks(r: Register, b: bv16)
    requires Same(r, b)
    ensures Same(FeedAll(r, Zeros(8)), Eight(b))
  {
    FourClocks(r, b);
    FourClocks(FeedAll(r, Zeros(4)), Clock(Clock(Clock(Clock(b)))));
    FeedConcat(r, Zeros(4), Zeros(4));
    assert Zeros(4) + Zeros(4) == Zeros(8);
  }

  /** Only two bytes leave the upper half of the register empty. */
  lemma OnlyTwo(b: bv16)
    requires b & 0x00FF == 0
    ensures Eight(b) & 0xFF00 == 0 ==> b == 0 || b == 0x8900
  {
  }

  lemma UpperHalf(r: Register, b: bv16)
    requires Same(r, b) && r[..8] == Zeros(8)
    ensures b & 0xFF00 == 0
  {
    assert forall i :: 0 <= i < 8 ==> r[i] == r[..8][i];
  }

  lemma ByteAtTop(a: uint8)
    ensures AtTop(ByteBits(a)) == 0 ==> a == 0
    ensures AtTop(ByteBits(a)) == 0x8900 ==> a == 0x89
  {
    var w := ByteBits(a);
    AtTopSame(w);
    assert forall i :: 0 <= i < 8 ==> Pad(w)[i] == w[i];
    Bits89();
    if AtTop(w) == 0 {
      assert w == Zeros(8);
      ZeroBits(8);
      ByteBitsInjective(a, 0);
    }
    if AtTop(w) == 0x8900 {
      assert w == ByteBits(0x89);
      ByteBitsInjective(a, 0x89);
    }
  }

  /** The byte before the CRC field and the byte the field stores first. */
  function Pair(a: uint8, b: uint8): PacketBytes {
    ZeroBytes(29) + [a, b, 0]
  }

  lemma PairCodeWord(a: uint8, b: uint8)
    ensures CodeWord(Pair(a, b)) == Zeros(232) + ByteBits(a) + (Zeros(8) + ByteBits(b))
  {
    var e := Pair(a, b);
    CodeWordParts(e);
    assert e[29] == a && e[..30][..29] == ZeroBytes(29) && e[30] == b && e[31] == 0;
    assert BytesBits(e[..30]) == BytesBits(ZeroBytes(29)) + ByteBits(a);
    BytesBitsZero(ZeroBytes(29));
    ZeroBits(8);
  }

  lemma PairRemainder(a: uint8, b: uint8)
    ensures FeedAll(Zeros(16), CodeWord(Pair(a, b))) == Zeros(16) <==>
            FeedAll(Zeros(16), ByteBits(a)) == Zeros(8) + ByteBits(b)
  {
    var field := Zeros(8) + ByteBits(b);
    PairCodeWord(a, b);
    FeedConcat(Zeros(16), Zeros(232) + ByteBits(a), field);
    FeedConcat(Zeros(16), Zeros(232), ByteBits(a));
    FeedZeros(Zeros(16), 232);
    FeedToZero(FeedAll(Zeros(16), ByteBits(a)), field);
    assert Pad(field) == field;
  }

  lemma ByteLeft(a: uint8, b: uint8)
    requires FeedAll(Zeros(16), ByteBits(a)) == Zeros(8) + ByteBits(b)
    ensures a == 0 || a == 0x89
  {
    var w := ByteBits(a);
    FeedAsClocks(Zeros(16), w);
    assert Xor(Zeros(16), Pad(w)) == Pad(w);
    AtTopSame(w);
    EightClocks(Pad(w), AtTop(w));
    assert (Zeros(8) + ByteBits(b))[..8] == Zeros(8);
    UpperHalf(FeedAll(Zeros(16), w), Eight(AtTop(w)));
    OnlyTwo(AtTop(w));
    ByteAtTop(a);
  }

  /** Of all changes of bytes 29 and 30 exactly one goes undetected, in every valid packet. */
  lemma BoundaryUndetectedIff(p: PacketBytes, e: PacketBytes)
    requires CrcValid(p) && OnlyBytes(e, 29, 31)
    ensures CrcValid(XorBytes(p, e)) <==> e == ZeroBytes(PACKET_SIZE) || e == BoundaryError()
  {
    var a, b := e[29], e[30];
    assert e == Pair(a, b);
    UndetectedIff(p, e);
    PairRemainder(a, b);
    if CrcValid(XorBytes(p, e)) {
      ByteLeft(a, b);
      OneField(a, b);
    } else if e == BoundaryError() {
      BoundaryUndetected(p);
    } else if e == ZeroBytes(PACKET_SIZE) {
      NoChangeAccepted(p, e);
    }
  }

  lemma NoChangeAccepted(p: PacketBytes, e: PacketBytes)
    requires CrcValid(p) && e == ZeroBytes(PACKET_SIZE)
    ensures CrcValid(XorBytes(p, e))
  {
    UndetectedIff(p, e);
    CodeWordZero(e);
    FeedZeros(Zeros(16), 256);
  }

  /** The field that goes with the byte is one. */
  lemma OneField(a: uint8, b: uint8)
    requires FeedAll(Zeros(16), ByteBits(a)) == Zeros(8) + ByteBits(b) && (a == 0 || a == 0x89)
    ensures Pair(a, b) == ZeroBytes(PACKET_SIZE) || Pair(a, b) == BoundaryError()
  {
    var was := if a == 0 then 0 else 0xA1;
    FieldOf(a);
    var left, right := Zeros(8) + ByteBits(b), Zeros(8) + ByteBits(was);
    assert ByteBits(b) == left[8..] && ByteBits(was) == right[8..];
    ByteBitsInjective(b, was);
  }

  lemma FieldOf(a: uint8)
    requires a == 0 || a == 0x89
    ensures FeedAll(Zeros(16), ByteBits(a)) == Zeros(8) + ByteBits(if a == 0 then 0 else 0xA1)
  {
    ZeroBits(8);
    if a == 0 {
      FeedZeros(Zeros(16), 8);
      assert Zeros(8) + Zeros(8) == Zeros(16);
    } else {
      Bits89();
      Remainder89(ByteBits(0x89));
      BoundaryField();
    }
  }
}
