/** Little-endian numbers in any base, and two's complement. */
module LittleEndian {

  function Pow(base: nat, n: nat): (r: nat)
    ensures base >= 1 ==> r >= 1
  {
    if n == 0 then 1 else base * Pow(base, n - 1)
  }

  predicate Digits(s: seq<nat>, base: nat) {
    forall i :: 0 <= i < |s| ==> s[i] < base
  }

  /** The number that the digits denote, least significant first. */
  function Value(s: seq<nat>, base: nat): nat {
    if s == [] then 0 else s[0] + base * Value(s[1..], base)
  }

  /** The `n` lowest digits of a number. */
  function Lowest(v: nat, n: nat, base: nat): (r: seq<nat>)
    requires base > 0
    ensures |r| == n
    decreases n
  {
    if n == 0 then [] else [v % base] + Lowest(v / base, n - 1, base)
  }

  lemma {:induction false} LowestDigits(v: nat, n: nat, base: nat)
    requires base > 0
    ensures Digits(Lowest(v, n, base), base)
    decreases n
  {
    if n > 0 {
      LowestDigits(v / base, n - 1, base);
      ConsDigits(v % base, Lowest(v / base, n - 1, base), base);
    }
  }

  lemma ConsDigits(d: nat, s: seq<nat>, base: nat)
    requires d < base && Digits(s, base)
    ensures Digits([d] + s, base)
  {
  }

  lemma MulMono(b: nat, x: nat, y: nat)
    requires x <= y
    ensures b * x <= b * y
  {
  }

  lemma {:induction false} ValueBound(s: seq<nat>, base: nat)
    requires Digits(s, base) && base > 0
    ensures Value(s, base) < Pow(base, |s|)
  {
    if s != [] {
      ValueBound(s[1..], base);
      BoundStep(s[0], Value(s[1..], base), Pow(base, |s| - 1), base);
    }
  }

  lemma BoundStep(d: nat, v: nat, p: nat, base: nat)
    requires d < base && v < p
    ensures d + base * v < base * p
  {
    MulMono(base, v, p - 1);
    assert base * (p - 1) == base * p - base;
  }

  lemma {:induction false} ValueLowest(v: nat, n: nat, base: nat)
    requires base > 0 && v < Pow(base, n)
    ensures Value(Lowest(v, n, base), base) == v
    decreases n
  {
    if n > 0 {
      DivBound(v, Pow(base, n - 1), base);
      ValueLowest(v / base, n - 1, base);
      assert Lowest(v, n, base)[1..] == Lowest(v / base, n - 1, base);
    }
  }

  lemma DivBound(v: nat, p: nat, base: nat)
    requires base > 0 && v < base * p
    ensures v / base < p
  {
    assert v == base * (v / base) + v % base;
    if v / base >= p {
      MulMono(base, p, v / base);
    }
  }

  lemma {:induction false} LowestValue(s: seq<nat>, base: nat)
    requires base > 0 && Digits(s, base)
    ensures Lowest(Value(s, base), |s|, base) == s
  {
    if s != [] {
      LowestValue(s[1..], base);
      DigitSplit(s[0], Value(s[1..], base), base);
    }
  }

  lemma DigitSplit(d: nat, rest: nat, base: nat)
    requires d < base
    ensures (d + base * rest) % base == d && (d + base * rest) / base == rest
  {
    var v := d + base * rest;
    assert v == base * (v / base) + v % base;
    assert base * (rest + 1) == base * rest + base;
    assert rest > 0 ==> base * (rest - 1) == base * rest - base;
    if v / base < rest {
      MulMono(base, v / base, rest - 1);
    } else if v / base > rest {
      MulMono(base, rest + 1, v / base);
    }
  }

  lemma {:induction false} ValueAppend(s: seq<nat>, t: seq<nat>, base: nat)
    ensures Value(s + t, base) == Value(s, base) + Pow(base, |s|) * Value(t, base)
  {
    if s == [] {
      assert s + t == t;
    } else {
      ValueAppend(s[1..], t, base);
      assert (s + t)[1..] == s[1..] + t;
      Distribute(base, Value(s[1..], base), Pow(base, |s| - 1), Value(t, base));
    }
  }

  lemma Distribute(b: nat, x: nat, p: nat, y: nat)
    ensures b * (x + p * y) == b * x + (b * p) * y
  {
  }

  lemma PowStep(base: nat, n: nat)
    ensures Pow(base, n + 1) == base * Pow(base, n) && Pow(base, 0) == 1
  {
  }

  lemma MulAssoc(a: nat, b: nat, c: nat)
    ensures a * (b * c) == (a * b) * c
  {
  }

  lemma {:induction false} PowAdd(base: nat, m: nat, n: nat)
    ensures Pow(base, m + n) == Pow(base, m) * Pow(base, n)
    decreases m
  {
    hide Pow;
    PowStep(base, 0);
    if m > 0 {
      PowAdd(base, m - 1, n);
      PowStep(base, m - 1);
      PowStep(base, m - 1 + n);
      MulAssoc(base, Pow(base, m - 1), Pow(base, n));
    }
  }

  // ---------------------------------------------------------- two's complement

  /** The unsigned reading of a signed number modulo `modulus`. */
  function Unsigned(v: int, modulus: nat): int {
    if v < 0 then v + modulus else v
  }

  /** The signed reading of an unsigned number below `modulus`. */
  function Signed(u: nat, modulus: nat): int {
    if 2 * u >= modulus then u - modulus else u
  }

  predicate InSigned(v: int, modulus: nat) {
    -(modulus as int) <= 2 * v < modulus
  }

  function Clamp(i: int): nat { if i < 0 then 0 else i }

  lemma SignedUnsigned(v: int, modulus: nat)
    requires InSigned(v, modulus)
    ensures 0 <= Unsigned(v, modulus) < modulus && Signed(Unsigned(v, modulus), modulus) == v
  {
  }

  /** `n` copies of a digit. */
  function Fill(d: nat, n: nat): (r: seq<nat>)
    ensures |r| == n && forall i :: 0 <= i < n ==> r[i] == d
  {
    if n == 0 then [] else [d] + Fill(d, n - 1)
  }

  lemma {:induction false} FillZero(n: nat, base: nat)
    ensures Value(Fill(0, n), base) == 0
  {
    if n > 0 {
      FillZero(n - 1, base);
      assert Fill(0, n)[1..] == Fill(0, n - 1);
    }
  }

  lemma {:induction false} FillOnes(n: nat, base: nat)
    requires base > 0
    ensures Value(Fill(base - 1, n), base) == Pow(base, n) - 1
  {
    if n > 0 {
      FillOnes(n - 1, base);
      assert Fill(base - 1, n)[1..] == Fill(base - 1, n - 1);
    }
  }

  /** The top digit's upper half marks a negative number. */
  predicate Negative(s: seq<nat>, base: nat)
    requires s != []
  {
    2 * s[|s| - 1] >= base
  }

  /** Filling up with the sign digit does not change the signed value: the reader's
      widening to sixteen bytes is two's complement sign extension. */
  lemma SignExtension(s: seq<nat>, n: nat, base: nat)
    requires s != [] && Digits(s, base) && base >= 2 && base % 2 == 0
    ensures var wide := s + Fill(if Negative(s, base) then base - 1 else 0, n);
            Signed(Value(wide, base), Pow(base, |s| + n)) == Signed(Value(s, base), Pow(base, |s|))
  {
    var top := s[|s| - 1];
    var low := s[..|s| - 1];
    assert s == low + [top];
    ValueAppend(low, [top], base);
    ValueBound(low, base);
    ValueBound(s, base);
    var p := Pow(base, |s| - 1);
    assert Value([top], base) == top by {
      assert [top][1..] == [];
    }
    HalfSplit(Value(low, base), top, p, base);
    if Negative(s, base) {
      ValueAppend(s, Fill(base - 1, n), base);
      FillOnes(n, base);
      PowAdd(base, |s|, n);
      WideNegative(Value(s, base), Pow(base, |s|), Pow(base, n));
    } else {
      ValueAppend(s, Fill(0, n), base);
      FillZero(n, base);
      PowAdd(base, |s|, n);
      WidePositive(Value(s, base), Pow(base, |s|), Pow(base, n));
    }
  }

  lemma HalfSplit(low: nat, top: nat, p: nat, base: nat)
    requires low < p && top < base && base % 2 == 0
    ensures 2 * (low + p * top) >= base * p <==> 2 * top >= base
  {
    if 2 * top >= base {
      assert p * (2 * top) >= p * base;
    } else {
      assert 2 * top <= base - 2;
      assert p * (2 * top) <= p * (base - 2);
    }
  }

  lemma WideNegative(u: nat, m: nat, q: nat)
    requires 2 * u >= m && u < m && q >= 1
    ensures Signed(u + m * (q - 1), m * q) == u - m
  {
    assert m * (q - 1) == m * q - m;
    assert m * q >= m;
  }

  lemma WidePositive(u: nat, m: nat, q: nat)
    requires 2 * u < m && q >= 1
    ensures Signed(u + m * 0, m * q) == u
  {
    assert m * q >= m;
  }
}
