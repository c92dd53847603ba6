/** What the CRC field of a packet detects, and the one boundary where it does not. */
module ErrorDetection {
  import opened Bits
  import opened Crc
  import opened Packet

  /** The packet's bits in the order in which they form a code word: the CRC's high byte is stored last. */
  function CodeWord(p: PacketBytes): (w: Bitstring)
    ensures |w| == 256
  {
    BytesBits(p[..CRC_OFFSET] + [p[31], p[30]])
  }

  lemma CodeWordParts(p: PacketBytes)
    ensures CodeWord(p) == BytesBits(p[..CRC_OFFSET]) + (ByteBits(p[31]) + ByteBits(p[30]))
  {
    BytesBitsConcat(p[..CRC_OFFSET], [p[31], p[30]]);
    TwoByteBits(p[31], p[30]);
  }

  lemma TwoByteBits(x: uint8, y: uint8)
    ensures BytesBits([x, y]) == ByteBits(x) + ByteBits(y)
  {
    assert [x, y][..1] == [x];
    assert [x][..0] == [];
    assert BytesBits([x]) == BytesBits([]) + ByteBits(x);
  }

  /** A packet is valid exactly when its code word leaves no remainder. */
  lemma ValidIffNoRemainder(p: PacketBytes)
    ensures CrcValid(p) <==> FeedAll(Ones(16), CodeWord(p)) == Zeros(16)
  {
    var body, field := p[..CRC_OFFSET], ByteBits(p[31]) + ByteBits(p[30]);
    CodeWordParts(p);
    FeedConcat(Ones(16), BytesBits(body), field);
    FeedToZero(FeedAll(Ones(16), BytesBits(body)), field);
    assert Pad(field) == field;
    WordBitsBytes(p[31], p[30]);
    WordBitsInjective(Crc16(body), Word(p[30], p[31]));
  }

  lemma CodeWordXor(p: PacketBytes, e: PacketBytes)
    ensures CodeWord(XorBytes(p, e)) == Xor(CodeWord(p), CodeWord(e))
  {
    var x := XorBytes(p, e);
    var a, b := p[..CRC_OFFSET] + [p[31], p[30]], e[..CRC_OFFSET] + [e[31], e[30]];
    assert x[..CRC_OFFSET] + [x[31], x[30]] == XorBytes(a, b);
    BytesBitsXor(a, b);
  }

  /** Whether an error goes undetected depends on the error alone, not on the packet it hits. */
  lemma UndetectedIff(p: PacketBytes, e: PacketBytes)
    requires CrcValid(p)
    ensures CrcValid(XorBytes(p, e)) <==> FeedAll(Zeros(16), CodeWord(e)) == Zeros(16)
  {
    ValidIffNoRemainder(p);
    ValidIffNoRemainder(XorBytes(p, e));
    CodeWordXor(p, e);
    assert Xor(Ones(16), Zeros(16)) == Ones(16);
    FeedLinear(Ones(16), Zeros(16), CodeWord(p), CodeWord(e));
    var r := FeedAll(Zeros(16), CodeWord(e));
    assert Xor(Zeros(16), r) == r;
  }

  /** Any change confined to 16 consecutive code-word bits is rejected. */
  lemma BurstRejected(p: PacketBytes, e: PacketBytes, from: nat, to: nat)
    requires CrcValid(p)
    requires from <= to <= 256 && to - from <= 16 && ConfinedTo(CodeWord(e), from, to)
    ensures CrcValid(XorBytes(p, e)) <==> e == ZeroBytes(PACKET_SIZE)
  {
    UndetectedIff(p, e);
    BurstLeavesRemainder(CodeWord(e), from, to);
    CodeWordZero(e);
  }

  lemma CodeWordZero(e: PacketBytes)
    ensures CodeWord(e) == Zeros(256) <==> e == ZeroBytes(PACKET_SIZE)
  {
    var b := e[..CRC_OFFSET] + [e[31], e[30]];
    BytesBitsZero(b);
    if b == ZeroBytes(PACKET_SIZE) {
      assert forall i :: 0 <= i < 30 ==> e[i] == b[i];
      assert e[30] == b[31] && e[31] == b[30];
    }
  }

  lemma BytesBitsZero(b: seq<uint8>)
    ensures BytesBits(b) == Zeros(8 * |b|) <==> b == ZeroBytes(|b|)
  {
    ZeroBytesBits(|b|);
    if BytesBits(b) == Zeros(8 * |b|) {
      forall k | 0 <= k < |b| ensures b[k] == 0 {
        ZeroByte(b, k);
      }
    }
  }

  lemma {:induction false} ZeroBytesBits(n: nat)
    ensures BytesBits(ZeroBytes(n)) == Zeros(8 * n)
  {
    if n != 0 {
      ZeroBytesBits(n - 1);
      ZeroBits(8);
      assert ZeroBytes(n)[..n - 1] == ZeroBytes(n - 1);
      assert Zeros(8 * (n - 1)) + Zeros(8) == Zeros(8 * n);
    }
  }

  lemma ZeroByte(b: seq<uint8>, k: nat)
    requires k < |b| && BytesBits(b) == Zeros(8 * |b|)
    ensures b[k] == 0
  {
    forall j | 0 <= j < 8 ensures !ByteBits(b[k])[j] {
      BytesBitsAt(b, k, j);
    }
    ZeroBits(8);
    ByteBitsInjective(b[k], 0);
  }

  /** The bytes of the packet that an error changes. */
  predicate OnlyBytes(e: PacketBytes, from: nat, to: nat) {
    forall k :: 0 <= k < PACKET_SIZE && e[k] != 0 ==> from <= k < to
  }

  /** One byte, two neighbours before the CRC field, or the CRC field: any change is rejected. */
  lemma ByteBurstRejected(p: PacketBytes, e: PacketBytes, k: nat)
    requires CrcValid(p)
    requires k + 2 <= CRC_OFFSET || k == CRC_OFFSET
    requires OnlyBytes(e, k, k + 2)
    ensures CrcValid(XorBytes(p, e)) <==> e == ZeroBytes(PACKET_SIZE)
  {
    var b := e[..CRC_OFFSET] + [e[31], e[30]];
    assert |b| == PACKET_SIZE;
    forall i | 0 <= i < 256 && CodeWord(e)[i] ensures 8 * k <= i < 8 * k + 16 {
      BytesBitsAt(b, i / 8, i % 8);
      ZeroBits(8);
      assert b[i / 8] != 0;
    }
    BurstRejected(p, e, 8 * k, 8 * k + 16);
  }

  lemma CodeWordOdd(p: PacketBytes)
    ensures Odd(CodeWord(p)) == Odd(BytesBits(p))
  {
    var body := BytesBits(p[..CRC_OFFSET]);
    CodeWordParts(p);
    OddConcat(body, ByteBits(p[31]) + ByteBits(p[30]));
    OddConcat(ByteBits(p[31]), ByteBits(p[30]));
    assert p[..31] == p[..30] + [p[30]];
    assert p[..31][..30] == p[..30] && p[..32] == p;
    assert BytesBits(p) == BytesBits(p[..31]) + ByteBits(p[31]);
    assert BytesBits(p[..31]) == body + ByteBits(p[30]);
    OddConcat(body + ByteBits(p[30]), ByteBits(p[31]));
    OddConcat(body, ByteBits(p[30]));
  }

  /** Every valid packet has an even number of ones over all 32 bytes, its CRC field included. */
  lemma ValidIsEven(p: PacketBytes)
    requires CrcValid(p)
    ensures !Odd(BytesBits(p))
  {
    ValidIffNoRemainder(p);
    FeedAllOdd(Ones(16), CodeWord(p));
    CodeWordOdd(p);
    OddZeros(16);
    OnesEven();
  }

  lemma OnesEven()
    ensures !Odd(Ones(16))
  {
    assert Ones(16) == Ones(8) + Ones(8);
    OddConcat(Ones(8), Ones(8));
  }

  /** Flipping an odd number of bits, wherever they are, is rejected. */
  lemma OddFlipRejected(p: PacketBytes, e: PacketBytes)
    requires CrcValid(p) && Odd(BytesBits(e))
    ensures !CrcValid(XorBytes(p, e))
  {
    ValidIsEven(p);
    BytesBitsXor(p, e);
    OddXor(BytesBits(p), BytesBits(e));
    if CrcValid(XorBytes(p, e)) {
      ValidIsEven(XorBytes(p, e));
    }
  }

  // The two bytes on either side of the CRC boundary are not neighbours in the code word, and a
  // change confined to them can be missed.

  function BoundaryError(): PacketBytes {
    ZeroBytes(29) + [0x89, 0xA1, 0]
  }

  function Pattern(a: nat, b: nat, c: nat): Register {
    seq(16, i => i == a || i == b || i == c)
  }

  lemma Bits89()
    ensures forall i :: 0 <= i < 8 ==> ByteBits(0x89)[i] == (i == 0 || i == 4 || i == 7)
  {
    assert Half(0x89, 0) == 0x89 && Half(0x89, 1) == 0x44 && Half(0x89, 2) == 0x22 && Half(0x89, 3) == 0x11;
    assert Half(0x89, 4) == 8 && Half(0x89, 5) == 4 && Half(0x89, 6) == 2 && Half(0x89, 7) == 1;
    forall i | 0 <= i < 8 ensures ByteBits(0x89)[i] == (i == 0 || i == 4 || i == 7) {
      BitAt(0x89, 8, i);
    }
  }

  lemma BitsA1()
    ensures forall i :: 0 <= i < 8 ==> ByteBits(0xA1)[i] == (i == 0 || i == 2 || i == 7)
  {
    assert Half(0xA1, 0) == 0xA1 && Half(0xA1, 1) == 0x50 && Half(0xA1, 2) == 0x28 && Half(0xA1, 3) == 0x14;
    assert Half(0xA1, 4) == 10 && Half(0xA1, 5) == 5 && Half(0xA1, 6) == 2 && Half(0xA1, 7) == 1;
    forall i | 0 <= i < 8 ensures ByteBits(0xA1)[i] == (i == 0 || i == 2 || i == 7) {
      BitAt(0xA1, 8, i);
    }
  }

  lemma FirstHalf89(w: Bitstring)
    requires |w| == 4 && forall i :: 0 <= i < 4 ==> w[i] == (i == 0)
    ensures FeedAll(Zeros(16), w) == Pattern(0, 7, 12)
  {
    assert w[..1][..0] == [] && w[..2][..1] == w[..1] && w[..3][..2] == w[..2] && w[..4] == w;
    assert FeedAll(Zeros(16), w[..1]) == Feed(Zeros(16), true) == Pattern(3, 10, 15);
    assert FeedAll(Zeros(16), w[..2]) == Pattern(2, 9, 14);
    assert FeedAll(Zeros(16), w[..3]) == Pattern(1, 8, 13);
  }

  lemma SecondHalf89(r: Register, w: Bitstring)
    requires |w| == 4 && (forall i :: 0 <= i < 4 ==> w[i] == (i == 0 || i == 3)) && r == Pattern(0, 7, 12)
    ensures FeedAll(r, w) == Pattern(8, 10, 15)
  {
    assert w[..1][..0] == [] && w[..2][..1] == w[..1] && w[..3][..2] == w[..2] && w[..4] == w;
    assert FeedAll(r, w[..1]) == Feed(r, true) == Pattern(6, 6, 11);
    assert FeedAll(r, w[..2]) == Pattern(5, 5, 10);
    assert FeedAll(r, w[..3]) == Pattern(4, 4, 9);
  }

  lemma Remainder89(w: Bitstring)
    requires |w| == 8 && forall i :: 0 <= i < 8 ==> w[i] == (i == 0 || i == 4 || i == 7)
    ensures FeedAll(Zeros(16), w) == Pattern(8, 10, 15)
  {
    assert w == w[..4] + w[4..];
    FeedConcat(Zeros(16), w[..4], w[4..]);
    FirstHalf89(w[..4]);
    SecondHalf89(Pattern(0, 7, 12), w[4..]);
  }

  lemma BoundaryCodeWord()
    ensures CodeWord(BoundaryError()) == Zeros(232) + ByteBits(0x89) + (ByteBits(0) + ByteBits(0xA1))
  {
    var e := BoundaryError();
    CodeWordParts(e);
    assert e[29] == 0x89 && e[..30][..29] == ZeroBytes(29);
    assert BytesBits(e[..30]) == BytesBits(ZeroBytes(29)) + ByteBits(0x89);
    BytesBitsZero(ZeroBytes(29));
  }

  lemma BoundaryField()
    ensures ByteBits(0) + ByteBits(0xA1) == Pattern(8, 10, 15)
  {
    BitsA1();
    ZeroBits(8);
  }

  lemma BoundaryRemainder()
    ensures FeedAll(Zeros(16), CodeWord(BoundaryError())) == Zeros(16)
  {
    var field := Pattern(8, 10, 15);
    BoundaryCodeWord();
    BoundaryField();
    FeedConcat(Zeros(16), Zeros(232) + ByteBits(0x89), field);
    FeedConcat(Zeros(16), Zeros(232), ByteBits(0x89));
    FeedZeros(Zeros(16), 232);
    Bits89();
    Remainder89(ByteBits(0x89));
    FeedToZero(field, field);
    assert Pad(field) == field;
  }

  /** Flipping bits of the last body byte and of the first stored CRC byte can leave any valid packet valid. */
  lemma BoundaryUndetected(p: PacketBytes)
    requires CrcValid(p)
    ensures OnlyBytes(BoundaryError(), 29, 31) && BoundaryError() != ZeroBytes(PACKET_SIZE)
    ensures CrcValid(XorBytes(p, BoundaryError()))
  {
    assert BoundaryError()[29] == 0x89;
    UndetectedIff(p, BoundaryError());
    BoundaryRemainder();
  }
}
