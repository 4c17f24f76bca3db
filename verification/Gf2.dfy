/** Polynomials over GF(2), written as their coefficients from the highest power down,
    and division by the degree-24 generator of CRC-24Q. */
module Gf2 {

  type Poly = seq<bool>

  function Zeros(n: nat): (r: Poly)
    ensures |r| == n && forall i :: 0 <= i < n ==> !r[i]
  {
    seq(n, i => false)
  }

  /** Addition is coefficient-wise exclusive or. */
  function Add(a: Poly, b: Poly): (r: Poly)
    requires |a| == |b|
    ensures |r| == |a|
    ensures forall i :: 0 <= i < |r| ==> r[i] == (a[i] != b[i])
  {
    seq(|a|, i requires 0 <= i < |a| => a[i] != b[i])
  }

  /** x^24 + x^23 + x^18 + x^17 + x^14 + x^11 + x^10 + x^7 + x^6 + x^5 + x^4 + x^3 + x + 1,
      the generator of section 6.1 of RFC 4880. */
  const GEN: Poly :=
    [true]
    + [true, false, false, false]
    + [false, true, true, false]
    + [false, true, false, false]
    + [true, true, false, false]
    + [true, true, true, true]
    + [true, false, true, true]

  /** The product of q and the generator. */
  function Times(q: Poly): (r: Poly)
    ensures |r| == |q| + 24
  {
    if q == [] then Zeros(24)
    else
      var n := |q| - 1;
      Add(Times(q[..n]) + [false], Zeros(n) + if q[n] then GEN else Zeros(25))
  }

  /** q * generator + c, where c has degree below 24. */
  function Value(q: Poly, c: Poly): (r: Poly)
    requires |c| == 24
    ensures |r| == |q| + 24
  {
    Add(Times(q), Zeros(|q|) + c)
  }

  /** r is the remainder of s by the generator. */
  ghost predicate IsRemainder(s: Poly, r: Poly)
    requires |s| >= 24
  {
    |r| == 24 && exists q :: |q| == |s| - 24 && s == Value(q, r)
  }

  /** One step of the division register: multiply by x and subtract the generator if the
      degree reached 24. */
  function Step(c: Poly): (r: Poly)
    requires |c| == 24
    ensures |r| == 24
  {
    Add(c[1..] + [false], if c[0] then GEN[1..] else Zeros(24))
  }

  lemma StepDivides(q: Poly, c: Poly)
    requires |c| == 24
    ensures Value(q, c) + [false] == Value(q + [c[0]], Step(c))
  {
    assert (q + [c[0]])[..|q|] == q;
  }

  lemma AppendZero(v: Poly, n: nat)
    requires n > 0
    ensures v + Zeros(n) == (v + Zeros(n - 1)) + [false]
  {}

  lemma AddSnoc(p: Poly, x: bool, q: Poly, y: bool)
    requires |p| == |q|
    ensures Add(p + [x], q + [y]) == Add(p, q) + [x != y]
  {}

  function Steps(c: Poly, n: nat): (r: Poly)
    requires |c| == 24
    ensures |r| == 24
  {
    if n == 0 then c else Step(Steps(c, n - 1))
  }

  /** Multiplying by x^n and reducing n times leaves the remainder in the register. */
  lemma {:induction false} StepsDivide(q: Poly, c: Poly, n: nat) returns (q': Poly)
    requires |c| == 24
    ensures |q'| == |q| + n
    ensures Value(q, c) + Zeros(n) == Value(q', Steps(c, n))
  {
    if n == 0 {
      q' := q;
      NoZeros(Value(q, c));
    } else {
      var p := StepsDivide(q, c, n - 1);
      q' := StepsDivideStep(Value(q, c), p, Steps(c, n - 1), n);
    }
  }

  lemma StepsDivideStep(v: Poly, p: Poly, d: Poly, n: nat) returns (q': Poly)
    requires n > 0 && |d| == 24 && v + Zeros(n - 1) == Value(p, d)
    ensures |q'| == |p| + 1
    ensures v + Zeros(n) == Value(q', Step(d))
  {
    StepDivides(p, d);
    AppendZero(v, n);
    q' := p + [d[0]];
  }

  lemma NoZeros(v: Poly)
    ensures v + Zeros(0) == v
  {}

  /** Reducing never turns a non-zero register into zero. */
  lemma {:induction false} StepsZero(c: Poly, n: nat)
    requires |c| == 24
    ensures Steps(c, n) == Zeros(24) <==> c == Zeros(24)
  {
    if n != 0 {
      StepsZero(c, n - 1);
      StepZero(Steps(c, n - 1));
    }
  }

  lemma StepZero(c: Poly)
    requires |c| == 24
    ensures Step(c) == Zeros(24) <==> c == Zeros(24)
  {
    if Step(c) == Zeros(24) {
      assert !Step(c)[23];
      forall i | 1 <= i < 24
        ensures !c[i]
      {
        assert !Step(c)[i - 1];
      }
    }
  }

  lemma {:induction false} TimesZeros(n: nat)
    ensures Times(Zeros(n)) == Zeros(n + 24)
  {
    if n != 0 {
      TimesZeros(n - 1);
      assert Zeros(n)[..n - 1] == Zeros(n - 1);
    }
  }

  /** What the last coefficient adds to a product. */
  function LastTerm(n: nat, x: bool): (r: Poly)
    ensures |r| == n + 25
  {
    Zeros(n) + if x then GEN else Zeros(25)
  }

  lemma TimesLast(q: Poly)
    requires q != []
    ensures Times(q) == Add(Times(q[..|q| - 1]) + [false], LastTerm(|q| - 1, q[|q| - 1]))
  {}

  lemma LastTermAdd(n: nat, x: bool, y: bool)
    ensures LastTerm(n, x != y) == Add(LastTerm(n, x), LastTerm(n, y))
  {}

  lemma AddRegroup(p: Poly, q: Poly, s: Poly, t: Poly)
    requires |p| == |q| && |s| == |t| == |p| + 1
    ensures Add(Add(p, q) + [false], Add(s, t)) == Add(Add(p + [false], s), Add(q + [false], t))
  {}

  lemma {:induction false} TimesAdd(a: Poly, b: Poly)
    requires |a| == |b|
    ensures Times(Add(a, b)) == Add(Times(a), Times(b))
  {
    if a != [] {
      var n := |a| - 1;
      TimesAdd(a[..n], b[..n]);
      assert Add(a, b)[..n] == Add(a[..n], b[..n]);
      hide Times, LastTerm, Add;
      TimesLast(a);
      TimesLast(b);
      TimesLast(Add(a, b));
      LastTermAdd(n, a[n], b[n]);
      AddRegroup(Times(a[..n]), Times(b[..n]), LastTerm(n, a[n]), LastTerm(n, b[n]));
    }
  }

  /** Both end coefficients of the generator are 1, so a non-zero multiple of it has two
      non-zero coefficients at least 24 places apart. */
  lemma {:induction false} MultipleSpans(q: Poly) returns (hi: nat, lo: nat)
    requires q != Zeros(|q|)
    ensures hi < |q| && hi + 24 <= lo < |q| + 24
    ensures Times(q)[hi] && Times(q)[lo]
  {
    var n := |q| - 1;
    TimesAt(q);
    ZerosSnoc(n);
    hide Times;
    if q[..n] == Zeros(n) {
      TimesZeros(n);
      assert q == q[..n] + [q[n]];
      hi, lo := n, n + 24;
    } else {
      hi, lo := MultipleSpans(q[..n]);
      if q[n] { lo := n + 24; }
    }
  }

  lemma ZerosSnoc(n: nat)
    ensures Zeros(n + 1) == Zeros(n) + [false]
  {}

  /** The last coefficient of the quotient adds the generator at the end. */
  lemma TimesAt(q: Poly)
    requires q != []
    ensures var n := |q| - 1; var t := Times(q[..n]);
            && (forall i :: 0 <= i < n ==> Times(q)[i] == t[i])
            && Times(q)[n] == (t[n] != q[n]) && Times(q)[n + 24] == q[n]
            && (!q[n] ==> forall i :: n <= i < n + 24 ==> Times(q)[i] == t[i])
  {
    hide *;
    TimesUnfolds(q);
    EndsOfGenerator();
    AddPadded(Times(q[..|q| - 1]), if q[|q| - 1] then GEN else Zeros(25), |q| - 1);
  }

  lemma AddPadded(t: Poly, g: Poly, n: nat)
    requires |t| == n + 24 && |g| == 25
    ensures var r := Add(t + [false], Zeros(n) + g);
            && (forall i :: 0 <= i < n ==> r[i] == t[i])
            && r[n] == (t[n] != g[0]) && r[n + 24] == g[24]
            && (g == Zeros(25) ==> forall i :: n <= i < n + 24 ==> r[i] == t[i])
  {
    hide *;
    var z := Zeros(n) + g;
    assert z[n] == g[0] && z[n + 24] == g[24];
    if g == Zeros(25) {
      assert forall i :: n <= i < n + 24 ==> z[i] == g[i - n];
    }
  }

  lemma EndsOfGenerator()
    ensures |GEN| == 25 && GEN[0] && GEN[24]
  {}

  lemma TimesUnfolds(q: Poly)
    requires q != []
    ensures var n := |q| - 1;
            |GEN| == 25 && Times(q) == Add(Times(q[..n]) + [false], Zeros(n) + if q[n] then GEN else Zeros(25))
  {}

  /** A register value is a multiple of the generator only when it is zero: this makes
      quotient and remainder unique. */
  lemma ValueInjective(q1: Poly, c1: Poly, q2: Poly, c2: Poly)
    requires |q1| == |q2| && |c1| == |c2| == 24
    requires Value(q1, c1) == Value(q2, c2)
    ensures q1 == q2 && c1 == c2
  {
    var q := Add(q1, q2);
    TimesAdd(q1, q2);
    forall i | 0 <= i < |q|
      ensures !Times(q)[i]
    {
      assert Value(q1, c1)[i] == Value(q2, c2)[i];
    }
    if q != Zeros(|q|) {
      var hi, lo := MultipleSpans(q);
      assert false;
    }
    forall i | 0 <= i < |q|
      ensures q1[i] == q2[i]
    {
      assert q[i] == Zeros(|q|)[i];
    }
    assert q1 == q2;
    forall i | 0 <= i < 24
      ensures c1[i] == c2[i]
    {
      assert Value(q1, c1)[|q| + i] == Value(q2, c2)[|q| + i];
    }
  }

  lemma RemainderUnique(s: Poly, r1: Poly, r2: Poly)
    requires |s| >= 24 && IsRemainder(s, r1) && IsRemainder(s, r2)
    ensures r1 == r2
  {
    var q1 :| |q1| == |s| - 24 && s == Value(q1, r1);
    var q2 :| |q2| == |s| - 24 && s == Value(q2, r2);
    ValueInjective(q1, r1, q2, r2);
  }

  /** Two polynomials with the same remainder whose difference lies in a window of at most
      24 coefficients are equal. */
  lemma BurstDetected(a: Poly, b: Poly, r: Poly, from: nat)
    requires |a| == |b| >= 24 && IsRemainder(a, r) && IsRemainder(b, r)
    requires forall i :: 0 <= i < |a| && !(from <= i < from + 24) ==> a[i] == b[i]
    ensures a == b
  {
    var q1 :| |q1| == |a| - 24 && a == Value(q1, r);
    var q2 :| |q2| == |b| - 24 && b == Value(q2, r);
    var q := Add(q1, q2);
    TimesOfDifference(q1, q2, r);
    hide Times, Value;
    if q != Zeros(|q|) {
      var hi, lo := MultipleSpans(q);
      assert false;
    }
    TimesZeros(|q|);
    forall i | 0 <= i < |a|
      ensures a[i] == b[i]
    {
      assert !Add(a, b)[i];
    }
  }

  // ----- Parity -----

  /** True when an odd number of coefficients are set. */
  function Odd(p: Poly): bool {
    if p == [] then false else Odd(p[..|p| - 1]) != p[|p| - 1]
  }

  lemma OddSnoc(p: Poly, x: bool)
    ensures Odd(p + [x]) == (Odd(p) != x)
  {
    assert (p + [x])[..|p|] == p;
  }

  lemma {:induction false} OddConcat(p: Poly, q: Poly)
    ensures Odd(p + q) == (Odd(p) != Odd(q))
  {
    if q == [] {
      assert p + q == p;
    } else {
      var r, x := q[..|q| - 1], q[|q| - 1];
      OddConcat(p, r);
      OddSnoc(p + r, x);
      assert p + q == p + r + [x];
    }
  }

  lemma {:induction false} OddAdd(a: Poly, b: Poly)
    requires |a| == |b|
    ensures Odd(Add(a, b)) == (Odd(a) != Odd(b))
  {
    if a != [] {
      var n := |a| - 1;
      OddAdd(a[..n], b[..n]);
      assert Add(a, b)[..n] == Add(a[..n], b[..n]);
    }
  }

  lemma {:induction false} ZerosEven(n: nat)
    ensures !Odd(Zeros(n))
  {
    if n != 0 {
      ZerosEven(n - 1);
      assert Zeros(n)[..n - 1] == Zeros(n - 1);
    }
  }

  lemma OddNibble(a: bool, b: bool, c: bool, d: bool)
    ensures Odd([a, b, c, d]) == ((a != b) != (c != d))
  {
    OddSnoc([a, b, c], d);
    OddSnoc([a, b], c);
    OddSnoc([a], b);
    OddSnoc([], a);
    assert [] + [a] == [a] && [a] + [b] == [a, b] && [a, b] + [c] == [a, b, c] && [a, b, c] + [d] == [a, b, c, d];
  }

  /** The generator has fourteen terms. */
  lemma GeneratorEven()
    ensures !Odd(GEN)
  {
    var g1 := [true];
    var g2 := g1 + [true, false, false, false];
    var g3 := g2 + [false, true, true, false];
    var g4 := g3 + [false, true, false, false];
    var g5 := g4 + [true, true, false, false];
    var g6 := g5 + [true, true, true, true];
    OddSnoc([], true);
    assert [] + [true] == g1;
    OddNibble(true, false, false, false);
    OddNibble(false, true, true, false);
    OddNibble(false, true, false, false);
    OddNibble(true, true, false, false);
    OddNibble(true, true, true, true);
    OddNibble(true, false, true, true);
    hide Odd;
    OddConcat(g1, [true, false, false, false]);
    OddConcat(g2, [false, true, true, false]);
    OddConcat(g3, [false, true, false, false]);
    OddConcat(g4, [true, true, false, false]);
    OddConcat(g5, [true, true, true, true]);
    OddConcat(g6, [true, false, true, true]);
  }

  /** Every multiple of the generator has an even number of terms. */
  lemma {:induction false} MultiplesEven(q: Poly)
    ensures !Odd(Times(q))
  {
    if q == [] {
      ZerosEven(24);
    } else {
      var n := |q| - 1;
      var t, g := Times(q[..n]) + [false], if q[n] then GEN else Zeros(25);
      assert Times(q) == Add(t, Zeros(n) + g);
      MultiplesEven(q[..n]);
      hide Times, Odd;
      OddSnoc(Times(q[..n]), false);
      GeneratorEven();
      ZerosEven(25);
      ZerosEven(n);
      OddConcat(Zeros(n), g);
      OddAdd(t, Zeros(n) + g);
    }
  }

  lemma DivisibleEven(s: Poly)
    requires |s| >= 24 && IsRemainder(s, Zeros(24))
    ensures !Odd(s)
  {
    var q :| |q| == |s| - 24 && s == Value(q, Zeros(24));
    MultiplesEven(q);
    ValueOfZero(q);
    hide *;
  }

  lemma ValueOfZero(q: Poly)
    ensures Value(q, Zeros(24)) == Times(q)
  {
    hide Times, GEN;
  }

  lemma TimesOfDifference(q1: Poly, q2: Poly, r: Poly)
    requires |q1| == |q2| && |r| == 24
    ensures Times(Add(q1, q2)) == Add(Value(q1, r), Value(q2, r))
  {
    TimesAdd(q1, q2);
  }
}
