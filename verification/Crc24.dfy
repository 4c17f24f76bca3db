/** The CRC-24Q register of the frame splitter and its meaning as polynomial division.

    A uint32_t word is a natural number below 2^32; `^` and `|` are Xor and Or below, `<< 1` doubles
    modulo 2^32, and testing bit 24 or masking 24 bits is division by 2^24. */
module Crc24 {
  import opened Gf2

  type byte = x: int | 0 <= x < 256

  const CRC24Q_POLY: nat := 0x1864CFB
  const BIT24: nat := 0x1000000
  const UINT32: nat := 0x1_0000_0000

  /** A counter that wraps around counts modulo 2^32. */
  lemma WordCounts(n: nat)
    ensures (n % UINT32 + 1) % UINT32 == (n + 1) % UINT32
  {}

  /** Bitwise exclusive or. */
  function Xor(a: nat, b: nat): nat
    decreases a + b
  {
    if a == 0 && b == 0 then 0 else 2 * Xor(a / 2, b / 2) + (a + b) % 2
  }

  /** Bitwise or. */
  function Or(a: nat, b: nat): nat
    decreases a + b
  {
    if a == 0 && b == 0 then 0 else 2 * Or(a / 2, b / 2) + if a % 2 == 1 || b % 2 == 1 then 1 else 0
  }

  /** One turn of the inner loop. */
  function Shift(crc: nat): nat {
    var d := (2 * crc) % UINT32;
    if (d / BIT24) % 2 == 1 then Xor(d, CRC24Q_POLY) else d
  }

  function Shifts(crc: nat, n: nat): nat {
    if n == 0 then crc else Shift(Shifts(crc, n - 1))
  }

  /** The register before the inner loop: the message byte enters at bits 16 to 23. */
  function Enter(crc: nat, b: byte): nat {
    Xor(crc, b * 0x10000)
  }

  /** The register after a whole message. */
  function Crc(m: seq<byte>): nat {
    if m == [] then 0 else Shifts(Enter(Crc(m[..|m| - 1]), m[|m| - 1]), 8)
  }

  method Crc24q(buf: seq<byte>) returns (r: nat)
    ensures r == Crc(buf) && r < BIT24
  {
    hide Bits;
    var crc := 0;
    var k := 0;
    while k < |buf|
      invariant 0 <= k <= |buf|
      invariant crc == Crc(buf[..k]) && crc < BIT24
    {
      EnterAdds(crc, buf[k]);
      crc := Xor(crc, buf[k] as nat * 0x10000);
      ghost var start := crc;
      for i := 0 to 8
        invariant crc == Shifts(start, i) && crc < BIT24
      {
        ghost var before := crc;
        crc := (2 * crc) % UINT32;
        if (crc / BIT24) % 2 == 1 {
          crc := Xor(crc, CRC24Q_POLY);
        }
        assert crc == Shift(before);
        ShiftIsStep(before);
      }
      CrcSnoc(buf, k);
      k := k + 1;
    }
    assert buf[..k] == buf;
    CrcFits(buf);
    r := crc % BIT24;
  }

  lemma CrcSnoc(m: seq<byte>, k: nat)
    requires k < |m|
    ensures Crc(m[..k + 1]) == Shifts(Enter(Crc(m[..k]), m[k]), 8)
  {
    assert m[..k + 1][..k] == m[..k];
  }

  /** The register of a whole message fits 24 bits, so the final mask changes nothing. */
  lemma CrcFits(m: seq<byte>)
    ensures Crc(m) < BIT24 && Crc(m) % BIT24 == Crc(m)
  {
    hide *;
    var _ := CrcDivides(m);
    MaskFits(Crc(m));
  }

  lemma MaskFits(a: nat)
    requires a < BIT24
    ensures a % BIT24 == a
  {}

  // ----- Words as polynomials -----

  function Pow2(n: nat): (p: nat)
    ensures p > 0
  {
    if n == 0 then 1 else 2 * Pow2(n - 1)
  }

  lemma {:induction false} OrZero(a: nat)
    ensures Or(a, 0) == a == Or(0, a)
  {
    if a != 0 {
      OrZero(a / 2);
    }
  }

  lemma OrDigits(a: nat, b: nat)
    ensures Or(2 * a, b) == 2 * Or(a, b / 2) + b % 2 && Or(b, 2 * a) == 2 * Or(b / 2, a) + b % 2
  {
    assert 2 * a / 2 == a && 2 * a % 2 == 0;
  }

  lemma HighTwice(high: nat, k: nat)
    requires k > 0
    ensures high * Pow2(k) == 2 * (high * Pow2(k - 1))
  {}

  lemma LowHalf(low: nat, k: nat)
    requires k > 0 && low < Pow2(k)
    ensures low / 2 < Pow2(k - 1) && low == 2 * (low / 2) + low % 2
  {}

  /** Words that share no bit are or-ed by adding them. */
  lemma {:induction false} OrAdds(high: nat, low: nat, k: nat)
    requires low < Pow2(k)
    ensures Or(high * Pow2(k), low) == high * Pow2(k) + low == Or(low, high * Pow2(k))
  {
    if k == 0 {
      OrZero(high);
    } else {
      hide *;
      HighTwice(high, k);
      LowHalf(low, k);
      OrAdds(high, low / 2, k - 1);
      OrDigits(high * Pow2(k - 1), low);
    }
  }

  lemma TwoBytes(a: byte, b: byte)
    ensures Or(a as nat * 0x100, b as nat) == a as nat * 0x100 + b as nat
  {
    Pow2Values();
    hide *;
    OrAdds(a, b, 8);
  }

  lemma ThreeBytes(a: byte, b: byte, c: byte)
    ensures Or(a as nat * 0x10000, b as nat * 0x100) == a as nat * 0x10000 + b as nat * 0x100
    ensures Or(a as nat * 0x10000 + b as nat * 0x100, c as nat) == a as nat * 0x10000 + b as nat * 0x100 + c as nat
  {
    Pow2Values();
    hide *;
    OrAdds(a, b as nat * 0x100, 16);
    OrAdds(a as nat * 0x100 + b as nat, c, 8);
  }

  /** The n low bits of c, highest first. */
  function Bits(c: nat, n: nat): (r: Poly)
    ensures |r| == n
  {
    if n == 0 then [] else Bits(c / 2, n - 1) + [c % 2 == 1]
  }

  /** The coefficients of a message, each byte highest bit first. */
  function Message(m: seq<byte>): (r: Poly)
    ensures |r| == 8 * |m|
  {
    if m == [] then [] else Message(m[..|m| - 1]) + Bits(m[|m| - 1], 8)
  }

  lemma XorDigits(a: nat, b: nat)
    ensures Xor(a, b) / 2 == Xor(a / 2, b / 2)
    ensures (Xor(a, b) % 2 == 1) == ((a % 2 == 1) != (b % 2 == 1))
  {
    var h := Xor(a / 2, b / 2);
    assert Xor(a, b) == 2 * h + (a + b) % 2;
    hide *;
    HalfAndParity(h, (a + b) % 2);
    SumParity(a, b);
  }

  lemma HalfAndParity(h: nat, d: nat)
    requires d < 2
    ensures (2 * h + d) / 2 == h && (2 * h + d) % 2 == d
  {}

  lemma SumParity(a: nat, b: nat)
    ensures ((a + b) % 2 == 1) == ((a % 2 == 1) != (b % 2 == 1))
  {}

  lemma {:induction false} XorBits(a: nat, b: nat, n: nat)
    ensures Bits(Xor(a, b), n) == Add(Bits(a, n), Bits(b, n))
  {
    if n != 0 {
      XorDigits(a, b);
      XorBits(a / 2, b / 2, n - 1);
      AddSnoc(Bits(a / 2, n - 1), a % 2 == 1, Bits(b / 2, n - 1), b % 2 == 1);
    }
  }

  lemma {:induction false} XorBelow(a: nat, b: nat, n: nat)
    requires a < Pow2(n) && b < Pow2(n)
    ensures Xor(a, b) < Pow2(n)
  {
    if n != 0 {
      XorBelow(a / 2, b / 2, n - 1);
    }
  }

  lemma {:induction false} BitsInjective(a: nat, b: nat, n: nat)
    requires a < Pow2(n) && b < Pow2(n) && Bits(a, n) == Bits(b, n)
    ensures a == b
  {
    if n != 0 {
      assert Bits(a / 2, n - 1) == Bits(a, n)[..n - 1] == Bits(b / 2, n - 1);
      assert Bits(a, n)[n - 1] == Bits(b, n)[n - 1];
      BitsInjective(a / 2, b / 2, n - 1);
    }
  }

  lemma {:induction false} TopBit(c: nat, n: nat)
    requires c < Pow2(n + 1)
    ensures Bits(c, n + 1)[0] == (c >= Pow2(n))
  {
    if n != 0 {
      TopBit(c / 2, n - 1);
    }
  }

  lemma {:induction false} BitsDropTop(c: nat, n: nat)
    ensures Bits(c, n + 1)[1..] == Bits(c, n)
  {
    if n != 0 {
      BitsDropTop(c / 2, n - 1);
    }
  }

  lemma {:induction false} BitsShifted(c: nat, n: nat, k: nat)
    ensures Bits(c * Pow2(k), n + k) == Bits(c, n) + Zeros(k)
  {
    if k != 0 {
      BitsShifted(c, n, k - 1);
      assert c * Pow2(k) == 2 * (c * Pow2(k - 1));
      assert Zeros(k) == Zeros(k - 1) + [false];
    }
  }

  lemma Pow2Values()
    ensures Pow2(8) == 0x100 && Pow2(16) == 0x10000 && Pow2(24) == 0x1000000
    ensures Pow2(25) == 0x2000000
  {
    assert Pow2(4) == 0x10;
    assert Pow2(8) == 0x100;
    assert Pow2(12) == 0x1000;
    assert Pow2(16) == 0x10000;
    assert Pow2(20) == 0x100000;
    assert Pow2(24) == 0x1000000;
  }

  lemma AppendBit(c: nat, n: nat, b: nat)
    requires b <= 1
    ensures Bits(2 * c + b, n + 1) == Bits(c, n) + [b == 1]
  {
    assert (2 * c + b) / 2 == c && (2 * c + b) % 2 == b;
  }

  lemma AppendNibble(c: nat, n: nat, b3: nat, b2: nat, b1: nat, b0: nat)
    requires b3 <= 1 && b2 <= 1 && b1 <= 1 && b0 <= 1
    ensures Bits(16 * c + 8 * b3 + 4 * b2 + 2 * b1 + b0, n + 4)
         == Bits(c, n) + [b3 == 1, b2 == 1, b1 == 1, b0 == 1]
  {
    var c1 := 2 * c + b3;
    var c2 := 2 * c1 + b2;
    var c3 := 2 * c2 + b1;
    AppendBit(c, n, b3);
    AppendBit(c1, n + 1, b2);
    AppendBit(c2, n + 2, b1);
    AppendBit(c3, n + 3, b0);
  }

  /** Four more bits of the generator's word are four more coefficients. */
  lemma GeneratorNibble(c: nat, n: nat, b3: nat, b2: nat, b1: nat, b0: nat)
    requires b3 <= 1 && b2 <= 1 && b1 <= 1 && b0 <= 1 && n <= 21
    requires Bits(c, n) == GEN[..n] && GEN[n..n + 4] == [b3 == 1, b2 == 1, b1 == 1, b0 == 1]
    ensures Bits(16 * c + 8 * b3 + 4 * b2 + 2 * b1 + b0, n + 4) == GEN[..n + 4]
  {
    hide Bits;
    AppendNibble(c, n, b3, b2, b1, b0);
    assert GEN[..n + 4] == GEN[..n] + GEN[n..n + 4];
  }

  lemma GeneratorBits1()
    ensures Bits(0x1, 1) == GEN[..1]
  {}

  lemma GeneratorBits5()
    ensures Bits(0x18, 5) == GEN[..5]
  {
    hide Bits;
    GeneratorBits1();
    GeneratorNibble(0x1, 1, 1, 0, 0, 0);
  }

  lemma GeneratorBits9()
    ensures Bits(0x186, 9) == GEN[..9]
  {
    hide Bits;
    GeneratorBits5();
    GeneratorNibble(0x18, 5, 0, 1, 1, 0);
  }

  lemma GeneratorBits13()
    ensures Bits(0x1864, 13) == GEN[..13]
  {
    hide Bits;
    GeneratorBits9();
    GeneratorNibble(0x186, 9, 0, 1, 0, 0);
  }

  lemma GeneratorBits17()
    ensures Bits(0x1864C, 17) == GEN[..17]
  {
    hide Bits;
    GeneratorBits13();
    GeneratorNibble(0x1864, 13, 1, 1, 0, 0);
  }

  lemma GeneratorBits21()
    ensures Bits(0x1864CF, 21) == GEN[..21]
  {
    hide Bits;
    GeneratorBits17();
    GeneratorNibble(0x1864C, 17, 1, 1, 1, 1);
  }

  lemma GeneratorBits()
    ensures Bits(CRC24Q_POLY, 25) == GEN
  {
    hide Bits;
    GeneratorBits21();
    GeneratorNibble(0x1864CF, 21, 1, 0, 1, 1);
    assert GEN[..25] == GEN;
  }

  lemma GeneratorReduces(d: nat)
    requires Pow2(24) <= d < Pow2(25)
    ensures Xor(d, CRC24Q_POLY) < Pow2(24)
    ensures Bits(Xor(d, CRC24Q_POLY), 24) == Add(Bits(d, 25)[1..], GEN[1..])
  {
    Pow2Values();
    GeneratorBits();
    XorBits(d, CRC24Q_POLY, 25);
    XorBelow(d, CRC24Q_POLY, 25);
    var e := Xor(d, CRC24Q_POLY);
    TopBit(d, 24);
    TopBit(e, 24);
    BitsDropTop(e, 24);
  }

  lemma ShiftUnfolds(c: nat)
    requires c < BIT24
    ensures Shift(c) == if 2 * c >= BIT24 then Xor(2 * c, CRC24Q_POLY) else 2 * c
  {
    var d := 2 * c;
    assert d % UINT32 == d;
    assert (d / BIT24) % 2 == if d >= BIT24 then 1 else 0;
    hide Xor;
  }

  /** The inner loop's turn is one step of polynomial division, and the register stays
      below 2^24. */
  lemma ShiftIsStep(c: nat)
    requires c < BIT24
    ensures Shift(c) < BIT24
    ensures Bits(Shift(c), 24) == Step(Bits(c, 24))
  {
    Pow2Values();
    var d := 2 * c;
    AppendBit(c, 24, 0);
    TopBit(d, 24);
    BitsDropTop(d, 24);
    ShiftUnfolds(c);
    if d >= BIT24 {
      GeneratorReduces(d);
    } else {
      assert Add(Bits(d, 25)[1..], Zeros(24)) == Bits(d, 25)[1..];
    }
  }

  lemma {:induction false} ShiftsAreSteps(c: nat, n: nat)
    requires c < BIT24
    ensures Shifts(c, n) < BIT24
    ensures Bits(Shifts(c, n), 24) == Steps(Bits(c, 24), n)
  {
    if n != 0 {
      ShiftsAreSteps(c, n - 1);
      ShiftIsStep(Shifts(c, n - 1));
      hide Shift, Step, Bits;
    }
  }

  lemma EnterAdds(c: nat, b: byte)
    requires c < BIT24
    ensures Enter(c, b) < BIT24
    ensures Bits(Enter(c, b), 24) == Add(Bits(c, 24), Bits(b, 8) + Zeros(16))
  {
    Pow2Values();
    XorBits(c, b * 0x10000, 24);
    XorBelow(c, b * 0x10000, 24);
    BitsShifted(b, 8, 16);
  }

  lemma EnterValue(s: Poly, q: Poly, c: Poly, b: Poly, e: Poly)
    requires |c| == 24 && |b| == 8 && s + Zeros(24) == Value(q, c)
    requires e == Add(c, b + Zeros(16))
    ensures s + (b + Zeros(16)) == Value(q, e)
  {
    var v := Value(q, c);
    assert |s| == |q|;
    forall i | 0 <= i < |v|
      ensures (s + (b + Zeros(16)))[i] == Value(q, e)[i]
    {
      assert v[i] == (s + Zeros(24))[i];
    }
  }

  /** crc24q(m) is the remainder of m(x) * x^24 by the generator, and fits 24 bits. */
  lemma {:induction false} CrcDivides(m: seq<byte>) returns (q: Poly)
    ensures Crc(m) < BIT24
    ensures |q| == 8 * |m|
    ensures Message(m) + Zeros(24) == Value(q, Bits(Crc(m), 24))
  {
    if m == [] {
      q := [];
      Pow2Values();
      BitsShifted(0, 0, 24);
    } else {
      var n := |m| - 1;
      var b := m[n];
      var c := Crc(m[..n]);
      var s := Message(m[..n]);
      assert Crc(m) == Shifts(Enter(c, b), 8) && Message(m) == s + Bits(b, 8);
      var p := CrcDivides(m[..n]);
      hide *;
      EnterAdds(c, b);
      var e := Bits(Enter(c, b), 24);
      EnterValue(s, p, Bits(c, 24), Bits(b, 8), e);
      q := StepsDivide(p, e, 8);
      ShiftsAreSteps(Enter(c, b), 8);
      RegroupZeros(s, Bits(b, 8));
    }
  }

  lemma RegroupZeros(s: Poly, b: Poly)
    ensures s + b + Zeros(24) == (s + (b + Zeros(16))) + Zeros(8)
  {}

  /** crc24q(m) is the remainder, and the only one, of m(x) * x^24 by the generator. */
  lemma CrcIsRemainder(m: seq<byte>, r: Poly)
    ensures Crc(m) < BIT24
    ensures IsRemainder(Message(m) + Zeros(24), r) <==> r == Bits(Crc(m), 24)
  {
    var q := CrcDivides(m);
    var s := Message(m) + Zeros(24);
    assert s == Value(q, Bits(Crc(m), 24)) && |q| == |s| - 24;
    if IsRemainder(s, r) {
      RemainderUnique(s, r, Bits(Crc(m), 24));
    }
  }

  // ----- Checking a frame -----

  /** The three trailing bytes, big-endian. */
  function Received(f: seq<byte>): (r: nat)
    requires |f| >= 3
    ensures r < BIT24
    ensures r == f[|f| - 3] as nat * 0x10000 + f[|f| - 2] as nat * 0x100 + f[|f| - 1] as nat
  {
    ThreeBytes(f[|f| - 3], f[|f| - 2], f[|f| - 1]);
    Or(Or(f[|f| - 3] as nat * 0x10000, f[|f| - 2] as nat * 0x100), f[|f| - 1] as nat)
  }

  /** The splitter's comparison. */
  predicate CrcMatches(f: seq<byte>) {
    |f| >= 3 && Crc(f[..|f| - 3]) == Received(f)
  }

  /** The three bytes carrying a checksum, big-endian. */
  function Trailer(c: nat): (t: seq<byte>)
    requires c < BIT24
    ensures |t| == 3
  {
    [c / 0x10000, c / 0x100 % 0x100, c % 0x100]
  }

  lemma TrailerReceived(m: seq<byte>)
    ensures Crc(m) < BIT24
    ensures CrcMatches(m + Trailer(Crc(m)))
  {
    CrcFits(m);
    TrailerSplits(m, Crc(m));
  }

  lemma TrailerSplits(m: seq<byte>, c: nat)
    requires c < BIT24
    ensures (m + Trailer(c))[..|m|] == m
    ensures Received(m + Trailer(c)) == c
  {
    hide Received, Or;
  }

  lemma {:induction false} BitsSplit(c: nat, d: nat, n: nat, k: nat)
    requires d < Pow2(k)
    ensures Bits(c * Pow2(k) + d, n + k) == Bits(c, n) + Bits(d, k)
  {
    if k != 0 {
      var e := c * Pow2(k - 1) + d / 2;
      assert c * Pow2(k) == 2 * (c * Pow2(k - 1));
      assert c * Pow2(k) + d == 2 * e + d % 2;
      AppendBit(e, n + k - 1, d % 2);
      BitsSplit(c, d / 2, n, k - 1);
    }
  }

  lemma BitsOfThree(x: nat, y: nat, z: nat)
    requires x < 0x100 && y < 0x100 && z < 0x100
    ensures Bits(x * 0x10000 + y * 0x100 + z, 24) == Bits(x, 8) + Bits(y, 8) + Bits(z, 8)
  {
    Pow2Values();
    hide Pow2, Bits;
    BitsSplit(x, y, 8, 8);
    BitsSplit(x * 0x100 + y, z, 16, 8);
    assert (x * 0x100 + y) * 0x100 + z == x * 0x10000 + y * 0x100 + z;
  }

  lemma ReceivedBits(f: seq<byte>)
    requires |f| >= 3
    ensures Message(f) == Message(f[..|f| - 3]) + Bits(Received(f), 24)
  {
    var n := |f| - 3;
    LastThree(f);
    MessageWithTrailer(f, f[..n], f[n], f[n + 1], f[n + 2], Received(f));
  }

  lemma LastThree(f: seq<byte>)
    requires |f| >= 3
    ensures var n := |f| - 3; f == f[..n] + [f[n], f[n + 1], f[n + 2]]
  {}

  lemma MessageWithTrailer(f: seq<byte>, m: seq<byte>, x: byte, y: byte, z: byte, r: nat)
    requires f == m + [x, y, z]
    requires r == x as nat * 0x10000 + y as nat * 0x100 + z as nat
    ensures Message(f) == Message(m) + Bits(r, 24)
  {
    MessageOfThree(m, x, y, z);
    BitsOfThree(x, y, z);
  }

  lemma MessageOfThree(m: seq<byte>, x: byte, y: byte, z: byte)
    ensures Message(m + [x, y, z]) == Message(m) + (Bits(x, 8) + Bits(y, 8) + Bits(z, 8))
  {
    hide Message, Bits;
    MessageSnoc(m, x);
    MessageSnoc(m + [x], y);
    MessageSnoc(m + [x] + [y], z);
    assert m + [x, y, z] == m + [x] + [y] + [z];
    var p, a, b, c := Message(m), Bits(x, 8), Bits(y, 8), Bits(z, 8);
    assert p + a + b + c == p + (a + b + c);
  }

  lemma MessageSnoc(m: seq<byte>, b: byte)
    ensures Message(m + [b]) == Message(m) + Bits(b, 8)
  {
    assert (m + [b])[..|m|] == m;
  }

  /** The remainder of a whole frame is the sum of computed and received checksum. */
  lemma FrameRemainder(f: seq<byte>) returns (q: Poly)
    requires |f| >= 3
    ensures |q| == 8 * |f| - 24
    ensures Message(f) == Value(q, Add(Bits(Crc(f[..|f| - 3]), 24), Bits(Received(f), 24)))
  {
    var m := f[..|f| - 3];
    q := CrcDivides(m);
    ReceivedBits(f);
    var v := Value(q, Bits(Crc(m), 24));
    var w := Value(q, Add(Bits(Crc(m), 24), Bits(Received(f), 24)));
    forall i | 0 <= i < |v|
      ensures Message(f)[i] == w[i]
    {
      assert v[i] == (Message(m) + Zeros(24))[i];
    }
  }

  lemma MatchIsZeroSum(c: nat, r: nat)
    requires c < BIT24 && r < BIT24
    ensures Add(Bits(c, 24), Bits(r, 24)) == Zeros(24) <==> c == r
  {
    Pow2Values();
    if Add(Bits(c, 24), Bits(r, 24)) == Zeros(24) {
      forall i | 0 <= i < 24
        ensures Bits(c, 24)[i] == Bits(r, 24)[i]
      {
        assert !Add(Bits(c, 24), Bits(r, 24))[i];
      }
      BitsInjective(c, r, 24);
    }
  }

  /** The splitter's comparison holds exactly when the frame, checksum included, is a
      multiple of the generator. */
  lemma MatchIsMultiple(f: seq<byte>)
    requires |f| >= 3
    ensures CrcMatches(f) <==> IsRemainder(Message(f), Zeros(24))
  {
    var c := Crc(f[..|f| - 3]);
    CrcFits(f[..|f| - 3]);
    var q := FrameRemainder(f);
    var d := Add(Bits(c, 24), Bits(Received(f), 24));
    assert IsRemainder(Message(f), d);
    MatchIsZeroSum(c, Received(f));
    if IsRemainder(Message(f), Zeros(24)) {
      RemainderUnique(Message(f), d, Zeros(24));
    }
  }

  /** The splitter's comparison holds exactly when the CRC of the whole frame is zero. */
  lemma MatchIsZeroCrc(f: seq<byte>)
    requires |f| >= 3
    ensures CrcMatches(f) <==> Crc(f) == 0
  {
    var c := Crc(f[..|f| - 3]);
    CrcFits(f[..|f| - 3]);
    var q := FrameRemainder(f);
    var d := Add(Bits(c, 24), Bits(Received(f), 24));
    MatchIsZeroSum(c, Received(f));
    var q' := StepsDivide(q, d, 24);
    StepsZero(d, 24);
    var z := Message(f) + Zeros(24);
    assert IsRemainder(z, Steps(d, 24)) by { assert |q'| == |z| - 24; }
    CrcIsRemainder(f, Steps(d, 24));
    ZeroBits();
    Pow2Values();
    if Bits(Crc(f), 24) == Zeros(24) {
      BitsInjective(Crc(f), 0, 24);
    }
  }

  lemma ZeroBits()
    ensures Bits(0, 24) == Zeros(24)
  {
    BitsShifted(0, 0, 24);
  }

  lemma ByteBitsInjective(x: byte, y: byte)
    requires Bits(x, 8) == Bits(y, 8)
    ensures x == y
  {
    Pow2Values();
    BitsInjective(x, y, 8);
  }

  lemma {:induction false} MessageInjective(a: seq<byte>, b: seq<byte>)
    requires |a| == |b| && Message(a) == Message(b)
    ensures a == b
  {
    if a != [] {
      var n := |a| - 1;
      SuffixEqual(Message(a[..n]), Bits(a[n], 8), Message(b[..n]), Bits(b[n], 8));
      MessageInjective(a[..n], b[..n]);
      ByteBitsInjective(a[n], b[n]);
      assert a == a[..n] + [a[n]] && b == b[..n] + [b[n]];
    }
  }

  lemma SuffixEqual(p: Poly, x: Poly, q: Poly, y: Poly)
    requires |p| == |q| && p + x == q + y
    ensures p == q && x == y
  {
    assert p == (p + x)[..|p|] && x == (p + x)[|p|..];
    assert q == (q + y)[..|p|] && y == (q + y)[|p|..];
  }

  /** Two frames agree in every bit outside 24 consecutive ones. */
  ghost predicate DifferWithinBurst(a: Poly, b: Poly, from: nat)
    requires |a| == |b|
  {
    forall i :: 0 <= i < |a| && !(from <= i < from + 24) ==> a[i] == b[i]
  }

  /** Burst detection: two buffers of one length that both pass the comparison and differ
      only inside 24 consecutive bits are equal. */
  lemma BurstsDetected(a: seq<byte>, b: seq<byte>, from: nat)
    requires |a| == |b| >= 3
    ensures CrcMatches(a) && CrcMatches(b) && DifferWithinBurst(Message(a), Message(b), from) ==> a == b
  {
    if CrcMatches(a) && CrcMatches(b) && DifferWithinBurst(Message(a), Message(b), from) {
      MatchIsMultiple(a);
      MatchIsMultiple(b);
      hide Message, CrcMatches;
      BurstDetected(Message(a), Message(b), Zeros(24), from);
      MessageInjective(a, b);
    }
  }

  /** An odd number of flipped bits does not pass, because every buffer that passes has an
      even number of one bits. */
  lemma OddErrorsDetected(a: seq<byte>, b: seq<byte>)
    requires |a| == |b| >= 3
    ensures CrcMatches(a) && Odd(Add(Message(a), Message(b))) ==> !CrcMatches(b)
  {
    MatchIsEven(a);
    MatchIsEven(b);
    OddAdd(Message(a), Message(b));
    hide Message, CrcMatches, Odd;
  }

  lemma MatchIsEven(a: seq<byte>)
    requires |a| >= 3
    ensures CrcMatches(a) ==> !Odd(Message(a))
  {
    if CrcMatches(a) {
      MatchIsMultiple(a);
      DivisibleEven(Message(a));
      hide Message, CrcMatches, Odd;
    }
  }
}
