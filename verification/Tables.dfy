/** The exponential and logarithm tables, and arithmetic by table look-up. */
module Tables {
  import opened Gf13
  import opened Field

  /** `exp` holds the powers of x, `log` the exponents; the logarithm of one is 8191, and that of
      zero is left as it was. */
  ghost predicate Filled(exp: seq<Elem>, log: seq<nat>) {
    |exp| == 8192 && |log| == 8192 &&
    (forall i :: 0 <= i < 8192 ==> exp[i] == Pow(ALPHA, i)) &&
    (forall a: Elem :: a != ZERO ==> 1 <= log[ToInt(a)] <= ORDER && Pow(ALPHA, log[ToInt(a)]) == a)
  }

  /** Fills both tables by running through the powers of x. */
  method FillTables(exp: array<Elem>, log: array<nat>)
    requires exp.Length == 8192 && log.Length == 8192 && exp as object != log as object
    modifies exp, log
    ensures Filled(exp[..], log[..]) && log[0] == old(log[0])
  {
    hide Pow, MulX, ToInt;
    PowZero();
    var a := ONE;
    var i := 0;
    while i < 8192
      invariant i <= 8192 && a == Pow(ALPHA, i)
      invariant forall j :: 0 <= j < i ==> exp[j] == Pow(ALPHA, j)
      invariant forall j :: 0 <= j < i && (j > 0 || i <= ORDER) ==> log[ToInt(Pow(ALPHA, j))] == j
      invariant log[0] == old(log[0])
    {
      exp[i] := a;
      log[ToInt(a)] := i;
      PowInRange(i);
      forall j | 0 <= j < i && (j > 0 || i < ORDER)
        ensures ToInt(Pow(ALPHA, j)) != ToInt(a)
      {
        Distinct(j, i);
        if ToInt(Pow(ALPHA, j)) == ToInt(a) { ToIntInjective(Pow(ALPHA, j), a); }
      }
      NextPower(i);
      a := MulX(a);
      i := i + 1;
    }
    forall b: Elem | b != ZERO
      ensures 1 <= log[ToInt(b)] <= ORDER && Pow(ALPHA, log[ToInt(b)]) == b
    {
      var k := Logarithm(b);
    }
  }

  lemma PowZero()
    ensures Pow(ALPHA, 0) == ONE
  {}

  lemma PowInRange(i: nat)
    requires i <= ORDER
    ensures 1 <= ToInt(Pow(ALPHA, i)) <= ORDER
  {
    PowNonzero(i);
    InRange(Pow(ALPHA, i));
    hide Pow, ToInt;
  }

  lemma NextPower(i: nat)
    ensures Pow(ALPHA, i + 1) == MulX(Pow(ALPHA, i))
  {
    MulXIsMul(Pow(ALPHA, i));
    MulComm(ALPHA, Pow(ALPHA, i));
    hide Mul, MulX;
  }

  function Wrap(s: nat): nat {
    if s >= ORDER then s - ORDER else s
  }

  predicate Sized(exp: seq<Elem>, log: seq<nat>) {
    |exp| == 8192 && |log| == 8192 && forall i :: 0 <= i < 8192 ==> log[i] <= ORDER
  }

  function TableMul(exp: seq<Elem>, log: seq<nat>, a: Elem, b: Elem): Elem
    requires Sized(exp, log)
  {
    exp[Wrap(log[ToInt(a)] + log[ToInt(b)])]
  }

  function TableDiv(exp: seq<Elem>, log: seq<nat>, a: Elem, b: Elem): Elem
    requires Sized(exp, log)
  {
    exp[Wrap(log[ToInt(a)] + ORDER - log[ToInt(b)])]
  }

  function TableMulX(exp: seq<Elem>, log: seq<nat>, a: Elem): Elem
    requires Sized(exp, log)
  {
    exp[Wrap(log[ToInt(a)] + 1)]
  }

  function TableDivX(exp: seq<Elem>, log: seq<nat>, a: Elem): Elem
    requires Sized(exp, log)
  {
    exp[Wrap(log[ToInt(a)] + ORDER - 1)]
  }

  /** A look-up at a wrapped exponent is the power. */
  lemma WrapPow(exp: seq<Elem>, log: seq<nat>, s: nat)
    requires Filled(exp, log) && s <= 2 * ORDER
    ensures Wrap(s) <= ORDER && exp[Wrap(s)] == Pow(ALPHA, s)
  {
    AlphaOrder();
    hide Pow;
    if s >= ORDER { PowPeriod(ALPHA, ORDER, 1, s - ORDER, s); }
  }

  lemma ExpSum(exp: seq<Elem>, log: seq<nat>, i: nat, j: nat)
    requires Filled(exp, log) && i <= ORDER && j <= ORDER
    ensures Wrap(i + j) <= ORDER && exp[Wrap(i + j)] == Mul(Pow(ALPHA, i), Pow(ALPHA, j))
  {
    WrapPow(exp, log, i + j);
    PowAdd(ALPHA, i, j);
    hide Pow, Mul, Filled, Wrap;
  }

  /** The exponent found for an element. */
  lemma LogIs(exp: seq<Elem>, log: seq<nat>, a: Elem)
    requires Filled(exp, log) && log[0] == 0
    ensures ToInt(a) < |log| && log[ToInt(a)] <= ORDER
    ensures Pow(ALPHA, log[ToInt(a)]) == if a == ZERO then ONE else a
  {
    hide Pow;
    PowZero();
  }

  lemma LogPositive(exp: seq<Elem>, log: seq<nat>, a: Elem)
    requires Filled(exp, log) && a != ZERO
    ensures ToInt(a) < |log| && log[ToInt(a)] >= 1
  {
    hide Pow;
  }

  /** Multiplication by tables is right exactly when neither factor is zero. */
  lemma TableMulExact(exp: seq<Elem>, log: seq<nat>, a: Elem, b: Elem)
    requires Filled(exp, log) && Sized(exp, log) && log[0] == 0
    ensures TableMul(exp, log, a, b) == Mul(a, b) <==> a != ZERO && b != ZERO
  {
    hide Pow, Mul, ToInt, Filled, Wrap;
    LogIs(exp, log, a);
    LogIs(exp, log, b);
    ExpSum(exp, log, log[ToInt(a)], log[ToInt(b)]);
    var x, y := if a == ZERO then ONE else a, if b == ZERO then ONE else b;
    assert TableMul(exp, log, a, b) == Mul(x, y);
    NoZeroDivisors(a, b);
    NoZeroDivisors(x, y);
    assert ONE != ZERO;
  }

  /** The other look-ups are right for operands that are not zero. */
  lemma TableDivIs(exp: seq<Elem>, log: seq<nat>, a: Elem, b: Elem)
    requires Filled(exp, log) && Sized(exp, log) && log[0] == 0 && a != ZERO && b != ZERO
    ensures TableDiv(exp, log, a, b) == Div(a, b)
    ensures TableMulX(exp, log, a) == MulX(a)
    ensures MulX(TableDivX(exp, log, a)) == a
  {
    hide Pow, Mul, ToInt, MulX, Div, Filled, Wrap;
    LogIs(exp, log, a);
    LogIs(exp, log, b);
    LogPositive(exp, log, a);
    QuotientPow(exp, log, log[ToInt(a)], log[ToInt(b)]);
    NeighbourPow(exp, log, log[ToInt(a)]);
    DivIs(TableDiv(exp, log, a, b), a, b);
  }

  lemma QuotientPow(exp: seq<Elem>, log: seq<nat>, i: nat, j: nat)
    requires Filled(exp, log) && i <= ORDER && j <= ORDER
    ensures Wrap(i + ORDER - j) <= ORDER && Mul(exp[Wrap(i + ORDER - j)], Pow(ALPHA, j)) == Pow(ALPHA, i)
  {
    hide Pow, Mul, Filled, Wrap;
    var n := i + ORDER - j;
    WrapPow(exp, log, n);
    PowAdd(ALPHA, n, j);
    AlphaOrder();
    PowPeriod(ALPHA, ORDER, 1, i, n + j);
  }

  lemma NeighbourPow(exp: seq<Elem>, log: seq<nat>, i: nat)
    requires Filled(exp, log) && 1 <= i <= ORDER
    ensures Wrap(i + 1) <= ORDER && exp[Wrap(i + 1)] == MulX(Pow(ALPHA, i))
    ensures Wrap(i + ORDER - 1) <= ORDER && MulX(exp[Wrap(i + ORDER - 1)]) == Pow(ALPHA, i)
  {
    hide Pow, MulX, Filled, Wrap;
    WrapPow(exp, log, i + 1);
    WrapPow(exp, log, i + ORDER - 1);
    NextPower(i);
    NextPower(i + ORDER - 1);
    AlphaOrder();
    PowPeriod(ALPHA, ORDER, 1, i, i + ORDER);
  }

  lemma DivIs(q: Elem, a: Elem, b: Elem)
    requires b != ZERO && Mul(q, b) == a
    ensures Div(a, b) == q
  {
    hide Mul, Inverse;
    MulAssoc(q, b, Inverse(b));
    MulInverse(b);
    MulOne(q);
  }

  // ---------------------------------------------------------------- what both forms promise

  /* The operations as the codes call them.  Nothing is asked of the plain forms that the tables do
     not give as well: a factor or divisor of zero is refused, and of a quotient with the dividend
     zero nothing is known. */

  method Product(a: Elem, b: Elem) returns (r: Elem)
    requires a != ZERO && b != ZERO
    ensures r == Mul(a, b) && r != ZERO
  {
    hide Mul;
    NoZeroDivisors(a, b);
    r := Multiply(a, b);
  }

  method Quotient(a: Elem, b: Elem) returns (r: Elem)
    requires b != ZERO
    ensures a != ZERO ==> r == Div(a, b) && r != ZERO
  {
    hide Mul, Div;
    r := Divide(a, b);
    NoZeroDivisors(r, b);
  }

  method TimesX(a: Elem) returns (r: Elem)
    requires a != ZERO
    ensures r == MulX(a)
  {
    r := MulX(a);
  }

  method OverX(a: Elem) returns (r: Elem)
    requires a != ZERO
    ensures Mul(r, ALPHA) == a
  {
    hide Mul;
    r := Product(a, 0x100d);
    MulAssoc(a, 0x100d, ALPHA);
    MulComm(0x100d, ALPHA);
    XInverse();
    MulOne(a);
  }
}
