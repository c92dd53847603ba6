/** CRC-16 with the CCITT generator: the byte-wise loop, its bit-serial meaning, and what it detects. */
module Crc {
  import opened Bits

  /** A 16-stage shift register, most significant stage first. */
  type Register = r: Bitstring | |r| == 16 witness Zeros(16)

  /** x^12 + x^5 + 1, the generator x^16 + x^12 + x^5 + 1 without its leading term. */
  function Generator(): Register {
    seq(16, i => i == 3 || i == 10 || i == 15)
  }

  /** One clock of the shift register with input bit b. */
  function Feed(r: Register, b: bool): Register {
    var shifted := r[1..] + [false];
    if r[0] != b then Xor(shifted, Generator()) else shifted
  }

  function FeedAll(r: Register, w: Bitstring): Register {
    if w == [] then r else Feed(FeedAll(r, w[..|w| - 1]), w[|w| - 1])
  }

  lemma {:induction false} FeedConcat(r: Register, a: Bitstring, b: Bitstring)
    ensures FeedAll(r, a + b) == FeedAll(FeedAll(r, a), b)
  {
    if b == [] {
      assert a + b == a;
    } else {
      assert (a + b)[..|a + b| - 1] == a + b[..|b| - 1];
      FeedConcat(r, a, b[..|b| - 1]);
    }
  }

  lemma FeedFirst(r: Register, w: Bitstring)
    requires w != []
    ensures FeedAll(r, w) == FeedAll(Feed(r, w[0]), w[1..])
  {
    assert w == w[..1] + w[1..];
    FeedConcat(r, w[..1], w[1..]);
    assert w[..1][..0] == [];
    assert FeedAll(r, w[..1]) == Feed(FeedAll(r, []), w[0]);
  }

  // ---------------------------------------------------------------------------
  // The loop
  // ---------------------------------------------------------------------------

  /** One iteration of the inner loop: no input, the top bit alone selects the generator. */
  function BitStep(crc: uint16): uint16 {
    if crc >= 0x8000 then Xor16(Shl16(crc), 0x1021) else Shl16(crc)
  }

  function Half(n: nat, j: nat): nat {
    if j == 0 then n else Half(n, j - 1) / 2
  }

  lemma GeneratorBits()
    ensures WordBits(0x1021) == Generator()
  {
    forall i | 0 <= i < 16 ensures WordBits(0x1021)[i] == Generator()[i] {
      BitAt(0x1021, 16, i);
      GeneratorHalf(i);
    }
  }

  lemma GeneratorHalf(i: nat)
    requires i < 16
    ensures Half(0x1021, 15 - i) % 2 == 1 <==> i == 3 || i == 10 || i == 15
  {
    assert Half(0x1021, 0) == 0x1021 && Half(0x1021, 1) == 0x810 && Half(0x1021, 2) == 0x408;
    assert Half(0x1021, 3) == 0x204 && Half(0x1021, 4) == 0x102 && Half(0x1021, 5) == 0x81;
    assert Half(0x1021, 6) == 0x40 && Half(0x1021, 7) == 0x20 && Half(0x1021, 8) == 0x10;
    assert Half(0x1021, 9) == 8 && Half(0x1021, 10) == 4 && Half(0x1021, 11) == 2;
    assert Half(0x1021, 12) == 1 && Half(0x1021, 13) == 0 && Half(0x1021, 14) == 0 && Half(0x1021, 15) == 0;
  }

  lemma {:induction false} BitAt(n: nat, k: nat, i: nat)
    requires i < k
    ensures BitsOf(n, k)[i] == (Half(n, k - 1 - i) % 2 == 1)
  {
    if i < k - 1 {
      BitAt(n / 2, k - 1, i);
      HalfFirst(n, k - 1 - i);
    }
  }

  lemma {:induction false} HalfFirst(n: nat, j: nat)
    requires j > 0
    ensures Half(n, j) == Half(n / 2, j - 1)
  {
    if j > 1 {
      HalfFirst(n, j - 1);
    }
  }

  lemma BitStepFeeds(crc: uint16)
    ensures WordBits(BitStep(crc)) == Feed(WordBits(crc), false)
  {
    Pow2Words();
    BitsTail(crc, 15);
    GeneratorBits();
  }

  /** Input bits aligned with the top of the register. */
  function Pad(w: Bitstring): Register
    requires |w| <= 16
  {
    w + Zeros(16 - |w|)
  }

  /** Bits exclusive-ored into the top of the register in advance are absorbed one per clock. */
  lemma Absorb(r: Register, w: Bitstring)
    requires 0 < |w| <= 16
    ensures Feed(Xor(r, Pad(w)), false) == Xor(Feed(r, w[0]), Pad(w[1..]))
  {
    var x := Xor(r, Pad(w));
    var y := Xor(Feed(r, w[0]), Pad(w[1..]));
    assert x[0] == (r[0] != w[0]);
    forall i | 0 <= i < 16 ensures Feed(x, false)[i] == y[i] {
      if i < 15 {
        assert x[i + 1] == (r[i + 1] != Pad(w)[i + 1]);
        assert Pad(w)[i + 1] == Pad(w[1..])[i];
      }
    }
  }

  /** The outer loop's exclusive or puts the byte into the top of the register. */
  lemma LoadByte(b: uint8)
    ensures WordBits(Word(0, b)) == Pad(ByteBits(b))
  {
    WordBitsBytes(b, 0);
    ZeroBits(8);
  }

  /** The inner loop keeps: the bits of the byte still to come are exclusive-ored into the top. */
  lemma ShiftOut(crc: uint16, start: Register, bits: Bitstring, n: nat)
    requires n < |bits| <= 16
    requires WordBits(crc) == Xor(FeedAll(start, bits[..n]), Pad(bits[n..]))
    ensures WordBits(BitStep(crc)) == Xor(FeedAll(start, bits[..n + 1]), Pad(bits[n + 1..]))
  {
    BitStepFeeds(crc);
    Absorb(FeedAll(start, bits[..n]), bits[n..]);
    assert bits[n..][1..] == bits[n + 1..];
    assert bits[..n + 1][..n] == bits[..n];
  }

  lemma FeedByte(data: seq<uint8>, n: nat)
    requires n < |data|
    ensures FeedAll(Ones(16), BytesBits(data[..n + 1])) ==
            FeedAll(FeedAll(Ones(16), BytesBits(data[..n])), ByteBits(data[n]))
  {
    assert data[..n + 1][..n] == data[..n];
    FeedConcat(Ones(16), BytesBits(data[..n]), ByteBits(data[n]));
  }

  method Crc16Ccitt(data: array<uint8>, length: nat) returns (crc: uint16)
    requires length <= data.Length
    ensures WordBits(crc) == FeedAll(Ones(16), BytesBits(data[..length]))
  {
    crc := 0xFFFF;
    InitialBits();
    for index := 0 to length
      invariant WordBits(crc) == FeedAll(Ones(16), BytesBits(data[..index]))
    {
      ghost var start, bits := WordBits(crc), ByteBits(data[index]);
      LoadByte(data[index]);
      crc := Xor16(crc, Word(0, data[index]));
      assert bits[..0] == [] && bits[0..] == bits;
      for bit := 0 to 8
        invariant WordBits(crc) == Xor(FeedAll(start, bits[..bit]), Pad(bits[bit..]))
      {
        ShiftOut(crc, start, bits, bit);
        crc := BitStep(crc);
      }
      XorNothing(FeedAll(start, bits));
      assert bits[..8] == bits && bits[8..] == [];
      FeedByte(data[..], index);
      assert data[..][..index] == data[..index] && data[..][..index + 1] == data[..index + 1];
    }
  }

  lemma XorNothing(r: Register)
    ensures Xor(r, Pad([])) == r
  {
  }

  lemma InitialBits()
    ensures WordBits(0xFFFF) == Ones(16)
  {
    Pow2Words();
    AllOnes(16);
  }

  lemma {:induction false} AllOnes(k: nat)
    ensures BitsOf(Pow2(k) - 1, k) == Ones(k)
  {
    if k != 0 {
      assert (Pow2(k) - 1) / 2 == Pow2(k - 1) - 1;
      AllOnes(k - 1);
    }
  }

  lemma {:induction false} ZeroBits(k: nat)
    ensures BitsOf(0, k) == Zeros(k)
  {
    if k != 0 {
      ZeroBits(k - 1);
    }
  }

  // ---------------------------------------------------------------------------
  // Error detection
  // ---------------------------------------------------------------------------

  /** A register pattern is clocked to zero by no input exactly when it was zero. */
  lemma FeedZero(r: Register)
    ensures Feed(r, false) == Zeros(16) <==> r == Zeros(16)
  {
    if Feed(r, false) == Zeros(16) {
      assert !Feed(r, false)[15];
      assert !r[0];
      forall j | 1 <= j < 16 ensures !r[j] {
        assert Feed(r, false)[j - 1] == r[j];
      }
    }
  }

  lemma {:induction false} FeedZeros(r: Register, n: nat)
    ensures FeedAll(r, Zeros(n)) == Zeros(16) <==> r == Zeros(16)
  {
    if n != 0 {
      assert Zeros(n)[..n - 1] == Zeros(n - 1);
      FeedZeros(r, n - 1);
      FeedZero(FeedAll(r, Zeros(n - 1)));
    }
  }

  /** Feeding at most 16 bits leaves the register empty exactly when they cancel its top and the rest is zero. */
  lemma {:induction false} FeedToZero(r: Register, w: Bitstring)
    requires |w| <= 16
    ensures FeedAll(r, w) == Zeros(16) <==> r == Pad(w)
    decreases |w|
  {
    if w == [] {
      assert Pad(w) == Zeros(16);
    } else {
      FeedFirst(r, w);
      FeedToZero(Feed(r, w[0]), w[1..]);
      XorZeroIffEqual(Feed(r, w[0]), Pad(w[1..]));
      Absorb(r, w);
      FeedZero(Xor(r, Pad(w)));
      XorZeroIffEqual(r, Pad(w));
    }
  }

  lemma FeedXor(r: Register, s: Register, a: bool, b: bool)
    ensures Feed(Xor(r, s), a != b) == Xor(Feed(r, a), Feed(s, b))
  {
    var x := Feed(Xor(r, s), a != b);
    var y := Xor(Feed(r, a), Feed(s, b));
    forall i | 0 <= i < 16 ensures x[i] == y[i] {
      if i < 15 {
        assert Xor(r, s)[i + 1] == (r[i + 1] != s[i + 1]);
      }
    }
  }

  /** Superposition: the register is linear in its start value and its input. */
  lemma {:induction false} FeedLinear(r: Register, s: Register, a: Bitstring, b: Bitstring)
    requires |a| == |b|
    ensures FeedAll(Xor(r, s), Xor(a, b)) == Xor(FeedAll(r, a), FeedAll(s, b))
  {
    if a != [] {
      var n := |a| - 1;
      assert Xor(a, b)[..n] == Xor(a[..n], b[..n]);
      FeedLinear(r, s, a[..n], b[..n]);
      FeedXor(FeedAll(r, a[..n]), FeedAll(s, b[..n]), a[n], b[n]);
    }
  }

  lemma FeedOdd(r: Register, b: bool)
    ensures Odd(Feed(r, b)) == (Odd(r) != b)
  {
    var shifted := r[1..] + [false];
    assert r == [r[0]] + r[1..];
    OddConcat([r[0]], r[1..]);
    OddConcat(r[1..], [false]);
    assert Odd([r[0]]) == r[0] && !Odd([false]);
    OddXor(shifted, Generator());
    assert Odd(Generator()) by {
      assert Generator() == Zeros(3) + [true] + Zeros(6) + [true] + Zeros(4) + [true];
      OddZeros(3); OddZeros(6); OddZeros(4);
      OddConcat(Zeros(3), [true]);
      OddConcat(Zeros(3) + [true], Zeros(6));
      OddConcat(Zeros(3) + [true] + Zeros(6), [true]);
      OddConcat(Zeros(3) + [true] + Zeros(6) + [true], Zeros(4));
      OddConcat(Zeros(3) + [true] + Zeros(6) + [true] + Zeros(4), [true]);
    }
  }

  /** The generator has x + 1 as a factor: the register's parity is that of everything fed in. */
  lemma {:induction false} FeedAllOdd(r: Register, w: Bitstring)
    ensures Odd(FeedAll(r, w)) == (Odd(r) != Odd(w))
  {
    if w != [] {
      var n := |w| - 1;
      FeedAllOdd(r, w[..n]);
      FeedOdd(FeedAll(r, w[..n]), w[n]);
    }
  }

  /** An error pattern whose ones all lie in w[from..to]. */
  predicate ConfinedTo(w: Bitstring, from: nat, to: nat) {
    forall i :: 0 <= i < |w| && w[i] ==> from <= i < to
  }

  lemma PadZero(w: Bitstring)
    requires |w| <= 16
    ensures Pad(w) == Zeros(16) <==> w == Zeros(|w|)
  {
    assert w == Pad(w)[..|w|];
  }

  lemma FeedBurst(before: nat, burst: Bitstring, after: nat)
    requires |burst| <= 16
    ensures FeedAll(Zeros(16), Zeros(before) + burst + Zeros(after)) == Zeros(16) <==> burst == Zeros(|burst|)
  {
    FeedConcat(Zeros(16), Zeros(before) + burst, Zeros(after));
    FeedConcat(Zeros(16), Zeros(before), burst);
    FeedZeros(Zeros(16), before);
    FeedZeros(FeedAll(Zeros(16), burst), after);
    FeedToZero(Zeros(16), burst);
    PadZero(burst);
  }

  lemma AroundBurst(e: Bitstring, from: nat, to: nat)
    requires from <= to <= |e| && ConfinedTo(e, from, to)
    ensures e == Zeros(from) + e[from..to] + Zeros(|e| - to)
    ensures e == Zeros(|e|) <==> e[from..to] == Zeros(to - from)
  {
    assert Zeros(|e|)[from..to] == Zeros(to - from);
    assert Zeros(from) + Zeros(to - from) + Zeros(|e| - to) == Zeros(|e|);
  }

  /** A burst no longer than the register never leaves it empty. */
  lemma BurstLeavesRemainder(e: Bitstring, from: nat, to: nat)
    requires from <= to <= |e| && to - from <= 16
    requires ConfinedTo(e, from, to)
    ensures FeedAll(Zeros(16), e) == Zeros(16) <==> e == Zeros(|e|)
  {
    var before, burst, after := from, e[from..to], |e| - to;
    AroundBurst(e, from, to);
    FeedBurst(before, burst, after);
  }

  // ---------------------------------------------------------------------------
  // Polynomial division
  // ---------------------------------------------------------------------------

  /** The shift-and-add product of q with x^16 + x^12 + x^5 + 1. */
  function TimesGenerator(q: Bitstring): (p: Bitstring)
    ensures |p| == |q| + 16
  {
    if q == [] then Zeros(16)
    else
      var n := |q| - 1;
      var shifted := TimesGenerator(q[..n]) + [false];
      if q[n] then Xor(shifted, Zeros(n) + [true] + Generator()) else shifted
  }

  /** Message w followed by 16 zero bits, with start value r exclusive-ored into its first 16 bits. */
  function Dividend(r: Register, w: Bitstring): (d: Bitstring)
    ensures |d| == |w| + 16
  {
    Xor(w + Zeros(16), r + Zeros(|w|))
  }

  function Quotient(r: Register, w: Bitstring): (q: Bitstring)
    ensures |q| == |w|
  {
    if w == [] then []
    else Quotient(r, w[..|w| - 1]) + [FeedAll(r, w[..|w| - 1])[0] != w[|w| - 1]]
  }

  predicate Divides(d: Bitstring, q: Bitstring, rem: Register)
    requires |d| == |q| + 16
  {
    d == Xor(TimesGenerator(q), Zeros(|q|) + rem)
  }

  lemma {:induction false} Division(r: Register, w: Bitstring)
    ensures Divides(Dividend(r, w), Quotient(r, w), FeedAll(r, w))
  {
    if w == [] {
      assert Dividend(r, w) == r;
    } else {
      var n := |w| - 1;
      Division(r, w[..n]);
      DivisionStep(r, w, n);
    }
  }

  /** One more message bit lengthens the dividend by a zero and adds the bit above its last sixteen. */
  lemma DividendBit(r: Register, w: Bitstring, n: nat, i: nat)
    requires |w| == n + 1 && i < n + 17
    ensures Dividend(r, w)[i] == (i < n + 16 && (Dividend(r, w[..n])[i] != (i == n && w[n])))
  {
  }

  /** One more quotient bit doubles the product and adds the generator's leading one and its other terms. */
  lemma ProductBit(q: Bitstring, n: nat, i: nat)
    requires |q| == n + 1 && i < n + 17
    ensures TimesGenerator(q)[i] ==
            ((i < n + 16 && TimesGenerator(q[..n])[i]) != (q[n] && (i == n || (i > n && Generator()[i - n - 1]))))
  {
  }

  predicate DividesAt(d: Bitstring, p: Bitstring, n: nat, rem: Register, i: nat)
    requires |d| == |p| == n + 16 && i < n + 16
  {
    d[i] == (p[i] != (i >= n && rem[i - n]))
  }

  lemma DividesPoint(d: Bitstring, q: Bitstring, rem: Register, i: nat)
    requires |d| == |q| + 16 && i < |d| && Divides(d, q, rem)
    ensures DividesAt(d, TimesGenerator(q), |q|, rem, i)
  {
    assert d[i] == (TimesGenerator(q)[i] != (Zeros(|q|) + rem)[i]);
  }

  lemma DividesFromPoints(d: Bitstring, q: Bitstring, rem: Register)
    requires |d| == |q| + 16
    requires forall i :: 0 <= i < |d| ==> DividesAt(d, TimesGenerator(q), |q|, rem, i)
    ensures Divides(d, q, rem)
  {
    var p, low := TimesGenerator(q), Zeros(|q|) + rem;
    forall i | 0 <= i < |d| ensures d[i] == Xor(p, low)[i] {
      assert DividesAt(d, p, |q|, rem, i);
    }
  }

  lemma DivisionBit(r: Register, w: Bitstring, n: nat, i: nat)
    requires |w| == n + 1 && i < n + 17
    requires i < n + 16 ==>
               DividesAt(Dividend(r, w[..n]), TimesGenerator(Quotient(r, w[..n])), n, FeedAll(r, w[..n]), i)
    ensures DividesAt(Dividend(r, w), TimesGenerator(Quotient(r, w)), n + 1, FeedAll(r, w), i)
  {
    var s := FeedAll(r, w[..n]);
    assert Quotient(r, w)[..n] == Quotient(r, w[..n]);
    DividendBit(r, w, n, i);
    ProductBit(Quotient(r, w), n, i);
    if i > n {
      FeedBit(s, w[n], i - n - 1);
    }
  }

  lemma DivisionStep(r: Register, w: Bitstring, n: nat)
    requires |w| == n + 1
    requires Divides(Dividend(r, w[..n]), Quotient(r, w[..n]), FeedAll(r, w[..n]))
    ensures Divides(Dividend(r, w), Quotient(r, w), FeedAll(r, w))
  {
    var d, p, m, s := Dividend(r, w), TimesGenerator(Quotient(r, w)), n + 1, FeedAll(r, w);
    forall i | 0 <= i < |d| ensures DividesAt(d, p, m, s, i) {
      if i < n + 16 {
        DividesPoint(Dividend(r, w[..n]), Quotient(r, w[..n]), FeedAll(r, w[..n]), i);
      }
      DivisionBit(r, w, n, i);
    }
    DividesFromPoints(d, Quotient(r, w), s);
  }

  lemma FeedBit(r: Register, b: bool, j: nat)
    requires j < 16
    ensures Feed(r, b)[j] == ((j < 15 && r[j + 1]) != ((r[0] != b) && Generator()[j]))
  {
  }

  /** The multiple of the generator is fixed by its leading bits. */
  lemma {:induction false} QuotientUnique(q: Bitstring, q': Bitstring)
    requires |q| == |q'|
    requires TimesGenerator(q)[..|q|] == TimesGenerator(q')[..|q|]
    ensures q == q'
  {
    if q != [] {
      var n := |q| - 1;
      var p, p' := TimesGenerator(q), TimesGenerator(q');
      forall i | 0 <= i < n ensures TimesGenerator(q[..n])[i] == TimesGenerator(q'[..n])[i] {
        assert p[..|q|][i] == p'[..|q|][i];
        assert p[i] == TimesGenerator(q[..n])[i] && p'[i] == TimesGenerator(q'[..n])[i];
      }
      QuotientUnique(q[..n], q'[..n]);
      assert p[..|q|][n] == p'[..|q|][n];
      assert q == q[..n] + [q[n]] && q' == q'[..n] + [q'[n]];
    }
  }

  /** The register after w holds the remainder, and only it is one. */
  lemma RemainderUnique(r: Register, w: Bitstring, q: Bitstring, rem: Register)
    requires |q| == |w|
    ensures Divides(Dividend(r, w), q, rem) <==> q == Quotient(r, w) && rem == FeedAll(r, w)
  {
    Division(r, w);
    var q', rem' := Quotient(r, w), FeedAll(r, w);
    if Divides(Dividend(r, w), q, rem) {
      SameTop(Dividend(r, w), q, rem, q', rem');
      QuotientUnique(q, q');
      SameRemainder(Dividend(r, w), q, rem, rem');
    }
  }

  /** Above the remainder the dividend is the product alone. */
  lemma SameTop(d: Bitstring, q: Bitstring, rem: Register, q': Bitstring, rem': Register)
    requires |d| == |q| + 16 && |q| == |q'| && Divides(d, q, rem) && Divides(d, q', rem')
    ensures forall i :: 0 <= i < |q| ==> TimesGenerator(q)[i] == TimesGenerator(q')[i]
  {
    var n := |q|;
    forall i | 0 <= i < n ensures TimesGenerator(q)[i] == TimesGenerator(q')[i] {
      assert d[i] == (TimesGenerator(q)[i] != (Zeros(n) + rem)[i]);
      assert d[i] == (TimesGenerator(q')[i] != (Zeros(n) + rem')[i]);
    }
  }

  lemma SameRemainder(d: Bitstring, q: Bitstring, rem: Register, rem': Register)
    requires |d| == |q| + 16 && Divides(d, q, rem) && Divides(d, q, rem')
    ensures rem == rem'
  {
    var n := |q|;
    forall j | 0 <= j < 16 ensures rem[j] == rem'[j] {
      assert d[n + j] == (TimesGenerator(q)[n + j] != (Zeros(n) + rem)[n + j]);
      assert d[n + j] == (TimesGenerator(q)[n + j] != (Zeros(n) + rem')[n + j]);
    }
  }
}
