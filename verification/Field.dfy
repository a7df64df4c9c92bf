/** The powers of x are all the elements but zero: division, and the logarithm tables. */
module Field {
  import opened Gf13
  import opened Arithmetic

  const ORDER: nat := 8191

  // ---------------------------------------------------------------- powers

  lemma {:induction false} PowAdd(a: Elem, m: nat, n: nat)
    ensures Pow(a, m + n) == Mul(Pow(a, m), Pow(a, n))
  {
    hide Mul;
    if n == 0 {
      MulOne(Pow(a, m));
    } else {
      PowAdd(a, m, n - 1);
      MulAssoc(Pow(a, m), Pow(a, n - 1), a);
    }
  }

  lemma {:induction false} PowOfOne(n: nat)
    ensures Pow(ONE, n) == ONE
  {
    hide Mul;
    MulOne(ONE);
    if n > 0 { PowOfOne(n - 1); }
  }

  lemma PowFirst(a: Elem)
    ensures Pow(a, 0) == ONE && Pow(a, 1) == a
  {
    MulOne(a);
    hide Mul;
    assert Pow(a, 1) == Mul(Pow(a, 0), a);
  }

  lemma {:induction false} PowMul(a: Elem, m: nat, n: nat)
    ensures Pow(Pow(a, m), n) == Pow(a, m * n)
  {
    hide Mul;
    if n > 0 {
      PowMul(a, m, n - 1);
      assert m * n == m * (n - 1) + m;
      PowAdd(a, m * (n - 1), m);
    }
  }

  /** A period of the powers of `a`. */
  lemma PowPeriod(a: Elem, d: nat, q: nat, r: nat, n: nat)
    requires Pow(a, d) == ONE && n == d * q + r
    ensures Pow(a, n) == Pow(a, r)
  {
    hide Mul, Pow;
    var m := d * q;
    PowAdd(a, m, r);
    PowMul(a, d, q);
    PowOfOne(q);
    MulOne(Pow(a, r));
  }

  function Exp2(n: nat): (r: nat)
    ensures r >= 1
  {
    if n == 0 then 1 else 2 * Exp2(n - 1)
  }

  lemma {:induction false} SquaresPow(a: Elem, n: nat)
    ensures Squares(a, n) == Pow(a, Exp2(n))
  {
    hide Mul, Pow;
    if n == 0 {
      PowFirst(a);
    } else {
      SquaresPow(a, n - 1);
      PowAdd(a, Exp2(n - 1), Exp2(n - 1));
    }
  }

  lemma XInverse()
    ensures Mul(ALPHA, 0x100d) == ONE
  {
    MulXIsMul(0x100d);
    assert MulX(0x100d) == ONE;
    hide Mul;
  }

  /** x^8191 = 1. */
  lemma AlphaOrder()
    ensures Pow(ALPHA, ORDER) == ONE
  {
    assert Exp2(13) == 8192;
    SquaresPow(ALPHA, 13);
    AlphaSquares();
    XInverse();
    hide Mul, Squares, Exp2, Pow;
    assert Pow(ALPHA, ORDER + 1) == ALPHA;
    var p := Pow(ALPHA, ORDER);
    NextPow(ALPHA, ORDER);
    MulAssoc(p, ALPHA, 0x100d);
    MulOne(p);
  }

  lemma NextPow(a: Elem, n: nat)
    ensures Pow(a, n + 1) == Mul(Pow(a, n), a)
  {
    hide Mul;
  }

  // ---------------------------------------------------------------- 8191 is prime

  predicate NoDivisor(n: nat, k: nat) {
    k < 2 || (n % k != 0 && NoDivisor(n, k - 1))
  }

  lemma {:induction false} NoDivisorAt(n: nat, k: nat, d: nat)
    requires NoDivisor(n, k) && 2 <= d <= k
    ensures n % d != 0
  {
    if d < k { NoDivisorAt(n, k - 1, d); }
  }

  lemma NoSmallDivisor()
    ensures NoDivisor(8191, 90)
  {
    assert NoDivisor(8191, 3); assert NoDivisor(8191, 6); assert NoDivisor(8191, 9); assert NoDivisor(8191, 12);
    assert NoDivisor(8191, 15); assert NoDivisor(8191, 18); assert NoDivisor(8191, 21); assert NoDivisor(8191, 24);
    assert NoDivisor(8191, 27); assert NoDivisor(8191, 30); assert NoDivisor(8191, 33); assert NoDivisor(8191, 36);
    assert NoDivisor(8191, 39); assert NoDivisor(8191, 42); assert NoDivisor(8191, 45); assert NoDivisor(8191, 48);
    assert NoDivisor(8191, 51); assert NoDivisor(8191, 54); assert NoDivisor(8191, 57); assert NoDivisor(8191, 60);
    assert NoDivisor(8191, 63); assert NoDivisor(8191, 66); assert NoDivisor(8191, 69); assert NoDivisor(8191, 72);
    assert NoDivisor(8191, 75); assert NoDivisor(8191, 78); assert NoDivisor(8191, 81); assert NoDivisor(8191, 84);
    assert NoDivisor(8191, 87); assert NoDivisor(8191, 90);
  }

  lemma Prime(d: nat)
    requires 1 < d < ORDER
    ensures ORDER % d != 0
  {
    NoSmallDivisor();
    hide NoDivisor;
    if d <= 90 {
      NoDivisorAt(ORDER, 90, d);
    } else if ORDER % d == 0 {
      var q := ORDER / d;
      assert q * d == ORDER;
      Cofactor(ORDER, q, d);
      NoDivisorAt(ORDER, 90, q);
    }
  }

  lemma Cofactor(n: nat, q: nat, d: nat)
    requires q * d == n < 91 * 91 && 90 < d < n
    ensures 2 <= q <= 90 && n % q == 0
  {
    if q > 90 { Grow(q, 91, d); }
    DivMod(d, q, 0);
  }

  lemma Grow(q: nat, k: nat, d: nat)
    requires q >= k && d >= k
    ensures q * d >= k * k
  {
    assert q * d >= k * d;
    assert k * d >= k * k;
  }

  // ---------------------------------------------------------------- the order of x

  /** The first exponent from `d` on that gives one, or 8191. */
  function FirstOne(d: nat): (r: nat)
    requires 1 <= d <= ORDER
    ensures d <= r <= ORDER
    decreases ORDER - d
  {
    if d == ORDER || Pow(ALPHA, d) == ONE then d else FirstOne(d + 1)
  }

  lemma {:induction false} BeforeFirstOne(d: nat, k: nat)
    requires 1 <= d <= ORDER && d <= k < FirstOne(d)
    ensures Pow(ALPHA, k) != ONE
    decreases ORDER - d
  {
    hide Pow;
    if d < k { BeforeFirstOne(d + 1, k); }
  }

  lemma {:induction false} FirstOneIsOne(d: nat)
    requires 1 <= d <= ORDER
    ensures Pow(ALPHA, FirstOne(d)) == ONE
    decreases ORDER - d
  {
    AlphaOrder();
    hide Pow;
    if d < ORDER && Pow(ALPHA, d) != ONE { FirstOneIsOne(d + 1); }
  }

  lemma DivideOrder(m: nat) returns (q: nat, r: nat)
    requires m > 0
    ensures ORDER == m * q + r && r < m && (r == 0 ==> ORDER % m == 0)
  {
    q, r := ORDER / m, ORDER % m;
  }

  /** The least exponent that gives one divides 8191. */
  lemma OrderDivides()
    ensures FirstOne(1) == ORDER
  {
    var m := FirstOne(1);
    FirstOneIsOne(1);
    AlphaOrder();
    PowFirst(ALPHA);
    hide Pow, FirstOne;
    var q, r := DivideOrder(m);
    PowPeriod(ALPHA, m, q, r, ORDER);
    if r > 0 {
      BeforeFirstOne(1, r);
    } else if 1 < m < ORDER {
      Prime(m);
    }
  }

  /** No smaller power of x is one. */
  lemma NotOne(d: nat)
    requires 0 < d < ORDER
    ensures Pow(ALPHA, d) != ONE
  {
    OrderDivides();
    hide Pow, FirstOne;
    BeforeFirstOne(1, d);
  }

  lemma AlphaInverse(i: nat)
    requires i <= ORDER
    ensures Mul(Pow(ALPHA, i), Pow(ALPHA, ORDER - i)) == ONE
  {
    PowAdd(ALPHA, i, ORDER - i);
    AlphaOrder();
    hide Mul, Pow;
  }

  /** The first 8191 powers of x differ. */
  lemma Distinct(i: nat, j: nat)
    requires i < j < i + ORDER && i <= ORDER
    ensures Pow(ALPHA, i) != Pow(ALPHA, j)
  {
    hide Mul, Pow;
    if Pow(ALPHA, i) == Pow(ALPHA, j) {
      AlphaInverse(i);
      AlphaOrder();
      PowAdd(ALPHA, j, ORDER - i);
      PowPeriod(ALPHA, ORDER, 1, j - i, j + (ORDER - i));
      NotOne(j - i);
    }
  }

  lemma PowNonzero(i: nat)
    requires i <= ORDER
    ensures Pow(ALPHA, i) != ZERO
  {
    AlphaInverse(i);
    MulZero(Pow(ALPHA, ORDER - i));
    assert ONE != ZERO;
    hide Mul, Pow;
  }

  // ---------------------------------------------------------------- every element is a power of x

  function ToInt(a: Elem): (r: int)
    ensures 0 <= r < 8192
  {
    a as int
  }

  lemma ToIntInjective(a: Elem, b: Elem)
    requires ToInt(a) == ToInt(b)
    ensures a == b
  {
    assert (a as int) as bv13 == a && (b as int) as bv13 == b;
  }

  ghost function Powers(n: nat): set<int> {
    set i: nat | 1 <= i <= n :: ToInt(Pow(ALPHA, i))
  }

  ghost function UpTo(n: nat): (s: set<int>)
    ensures forall i :: i in s <==> 1 <= i <= n
    ensures |s| == n
  {
    if n == 0 then {} else UpTo(n - 1) + {n}
  }

  lemma {:induction false} PowersSize(n: nat)
    requires n <= ORDER
    ensures |Powers(n)| == n
  {
    hide Pow;
    if n == 0 {
      assert Powers(0) == {};
    } else {
      PowersSize(n - 1);
      var last := ToInt(Pow(ALPHA, n));
      assert Powers(n) == Powers(n - 1) + {last};
      forall i: nat | 1 <= i < n
        ensures ToInt(Pow(ALPHA, i)) != last
      {
        Distinct(i, n);
        if ToInt(Pow(ALPHA, i)) == last { ToIntInjective(Pow(ALPHA, i), Pow(ALPHA, n)); }
      }
      assert last !in Powers(n - 1);
    }
  }

  lemma SubsetFull(a: set<int>, b: set<int>)
    requires a <= b && |a| == |b|
    ensures a == b
  {
    assert |b - a| == 0;
    assert b == a + (b - a);
  }

  /** Every element but zero is a power of x, with exponent 1 to 8191. */
  lemma Logarithm(a: Elem) returns (k: nat)
    requires a != ZERO
    ensures 1 <= k <= ORDER && Pow(ALPHA, k) == a
  {
    hide Pow, ToInt;
    PowersSize(ORDER);
    forall i: nat | 1 <= i <= ORDER
      ensures ToInt(Pow(ALPHA, i)) in UpTo(ORDER)
    {
      PowNonzero(i);
      InRange(Pow(ALPHA, i));
    }
    SubsetFull(Powers(ORDER), UpTo(ORDER));
    InRange(a);
    assert ToInt(a) in Powers(ORDER);
    k :| 1 <= k <= ORDER && ToInt(Pow(ALPHA, k)) == ToInt(a);
    ToIntInjective(Pow(ALPHA, k), a);
  }

  lemma InRange(a: Elem)
    requires a != ZERO
    ensures 1 <= ToInt(a) <= ORDER
  {
    if ToInt(a) == ToInt(ZERO) { ToIntInjective(a, ZERO); }
  }

  // ---------------------------------------------------------------- division

  /** b^(2^n - 1), by `n` rounds of squaring and multiplying. */
  function Rounds(b: Elem, n: nat): Elem {
    if n == 0 then ONE else Mul(Square(Rounds(b, n - 1)), b)
  }

  /** The inverse of `b`, b^(2^13 - 2). */
  function Inverse(b: Elem): Elem {
    Square(Rounds(b, 12))
  }

  function Div(a: Elem, b: Elem): Elem {
    Mul(a, Inverse(b))
  }

  /** Division as the code without tables does it. */
  method Divide(a: Elem, b: Elem) returns (q: Elem)
    ensures q == Div(a, b)
    ensures b != ZERO ==> Mul(q, b) == a
  {
    hide Mul;
    var r := ONE;
    var i := 0;
    while i < 12
      invariant i <= 12 && r == Rounds(b, i)
    {
      r := Multiply(r, r);
      r := Multiply(r, b);
      i := i + 1;
    }
    r := Multiply(r, r);
    q := Multiply(a, r);
    if b != ZERO { DivMul(a, b); }
  }


  lemma {:induction false} RoundsPow(b: Elem, n: nat)
    ensures Rounds(b, n) == Pow(b, Exp2(n) - 1)
  {
    hide Mul, Pow;
    if n == 0 {
      PowFirst(b);
    } else {
      RoundsPow(b, n - 1);
      var k := Exp2(n - 1) - 1;
      PowAdd(b, k, k);
      NextPow(b, k + k);
    }
  }

  /** x^8191 = 1 for every element but zero. */
  lemma OrderOfAll(b: Elem)
    requires b != ZERO
    ensures Pow(b, ORDER) == ONE
  {
    var k := Logarithm(b);
    hide Pow, Mul;
    PowMul(ALPHA, k, ORDER);
    PowMul(ALPHA, ORDER, k);
    AlphaOrder();
    PowOfOne(k);
    assert k * ORDER == ORDER * k;
  }

  lemma MulInverse(b: Elem)
    requires b != ZERO
    ensures Mul(b, Inverse(b)) == ONE && Mul(Inverse(b), b) == ONE
  {
    assert Exp2(12) == 4096;
    RoundsPow(b, 12);
    hide Mul, Pow, Rounds, Exp2;
    PowAdd(b, 4095, 4095);
    NextPow(b, 8190);
    OrderOfAll(b);
    MulComm(b, Inverse(b));
  }

  /** Division undoes multiplication. */
  lemma DivMul(a: Elem, b: Elem)
    requires b != ZERO
    ensures Mul(Div(a, b), b) == a
  {
    hide Mul, Inverse;
    MulAssoc(a, Inverse(b), b);
    MulInverse(b);
    MulOne(a);
  }

  /** There are no divisors of zero. */
  lemma NoZeroDivisors(a: Elem, b: Elem)
    ensures Mul(a, b) == ZERO <==> a == ZERO || b == ZERO
  {
    hide Mul, Inverse;
    MulZero(a);
    MulZero(b);
    if b != ZERO && Mul(a, b) == ZERO {
      MulAssoc(a, b, Inverse(b));
      MulInverse(b);
      MulOne(a);
      MulZero(Inverse(b));
    }
  }

  lemma {:induction false} AlphaNonzero(p: nat)
    ensures Pow(ALPHA, p) != ZERO
  {
    if p == 0 {
      PowNonzero(0);
    } else {
      AlphaNonzero(p - 1);
      hide Mul, Pow;
      NextPow(ALPHA, p - 1);
      NoZeroDivisors(Pow(ALPHA, p - 1), ALPHA);
      NoZeroDivisors(ALPHA, Pow(ALPHA, p - 1));
    }
  }
}
