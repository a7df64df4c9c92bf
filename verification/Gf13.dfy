/** The field of 8192 elements: polynomials over GF(2) modulo x^13 + x^4 + x^3 + x + 1, the
    coefficient of x^i in bit i. */
module Gf13 {
  type Elem = bv13

  const ZERO: Elem := 0
  const ONE: Elem := 1
  /** x, the element whose powers give all others but zero. */
  const ALPHA: Elem := 2

  function Add(a: Elem, b: Elem): Elem {
    a ^ b
  }

  predicate Top(a: Elem) {
    a & 0x1000 != 0
  }

  /** Multiplication by x. */
  function MulX(a: Elem): Elem {
    if Top(a) then (a << 1) ^ 0x1b else a << 1
  }

  /** One place to the left; the top bit is lost. */
  function Shift(a: Elem): Elem {
    a << 1
  }

  function Shl(b: Elem, n: nat): Elem {
    if n == 0 then b else Shift(Shl(b, n - 1))
  }

  function If(c: bool, a: Elem): Elem {
    if c then a else ZERO
  }

  /** The product after `n` rounds of shift and add, which use up the top `n` bits of `b`. */
  function MulSteps(a: Elem, b: Elem, n: nat): Elem {
    if n == 0 then ZERO else Add(MulX(MulSteps(a, b, n - 1)), If(Top(Shl(b, n - 1)), a))
  }

  function Mul(a: Elem, b: Elem): Elem {
    MulSteps(a, b, 13)
  }

  /** Shift and add, as the code without tables does it. */
  method Multiply(a: Elem, b: Elem) returns (r: Elem)
    ensures r == Mul(a, b)
  {
    hide MulX, Add, Shift, Top;
    r := ZERO;
    var rest := b;
    var i := 0;
    while i < 13
      invariant i <= 13 && r == MulSteps(a, b, i) && rest == Shl(b, i)
    {
      r := MulX(r);
      AddZero(r);
      if Top(rest) {
        r := Add(r, a);
      }
      rest := Shift(rest);
      i := i + 1;
    }
  }

  // ---------------------------------------------------------------- addition

  lemma AddZero(a: Elem)
    ensures Add(a, ZERO) == a && Add(ZERO, a) == a
  {}

  lemma AddSelf(a: Elem)
    ensures Add(a, a) == ZERO
  {}

  lemma AddComm(a: Elem, b: Elem)
    ensures Add(a, b) == Add(b, a)
  {}

  lemma AddAssoc(a: Elem, b: Elem, c: Elem)
    ensures Add(Add(a, b), c) == Add(a, Add(b, c))
  {}

  /** Sums of two sums, term by term. */
  lemma AddSwap(a: Elem, b: Elem, c: Elem, d: Elem)
    ensures Add(Add(a, b), Add(c, d)) == Add(Add(a, c), Add(b, d))
  {
    AddAssoc(a, b, Add(c, d));
    AddAssoc(b, c, d);
    AddComm(b, c);
    AddAssoc(c, b, d);
    AddAssoc(a, c, Add(b, d));
    hide Add;
  }

  lemma AddCancel(a: Elem, b: Elem)
    ensures Add(a, b) == ZERO <==> a == b
  {}

  // ---------------------------------------------------------------- linearity

  /** Multiplication by x without a case distinction. */
  function Linear(a: Elem): Elem {
    (a << 1) ^ (a >> 12) ^ ((a >> 12) << 1) ^ ((a >> 12) << 3) ^ ((a >> 12) << 4)
  }

  lemma LinearAdd(a: Elem, b: Elem)
    ensures Linear(a ^ b) == Linear(a) ^ Linear(b)
  {}

  lemma MulXIs(a: Elem)
    ensures MulX(a) == Linear(a)
  {}

  lemma MulXAdd(a: Elem, b: Elem)
    ensures MulX(Add(a, b)) == Add(MulX(a), MulX(b))
  {
    MulXIs(a);
    MulXIs(b);
    MulXIs(Add(a, b));
    LinearAdd(a, b);
    hide MulX, Linear;
  }

  lemma MulXZero()
    ensures MulX(ZERO) == ZERO
  {}

  lemma ShiftAdd(a: Elem, b: Elem)
    ensures Shift(Add(a, b)) == Add(Shift(a), Shift(b))
  {}

  lemma TopAdd(a: Elem, b: Elem)
    ensures Top(Add(a, b)) <==> Top(a) != Top(b)
  {}

  lemma {:induction false} ShlAdd(a: Elem, b: Elem, n: nat)
    ensures Shl(Add(a, b), n) == Add(Shl(a, n), Shl(b, n))
  {
    hide Add, Shift;
    if n > 0 {
      ShlAdd(a, b, n - 1);
      ShiftAdd(Shl(a, n - 1), Shl(b, n - 1));
    }
  }

  lemma IfAdd(c: bool, d: bool, a: Elem)
    ensures If(c != d, a) == Add(If(c, a), If(d, a))
  {
    AddSelf(a);
    AddZero(a);
    AddZero(ZERO);
    hide Add;
  }

  lemma AddIf(c: bool, a: Elem, b: Elem)
    ensures If(c, Add(a, b)) == Add(If(c, a), If(c, b))
    ensures If(c, MulX(a)) == MulX(If(c, a))
  {
    AddZero(ZERO);
    MulXZero();
    hide Add, MulX;
  }

  lemma {:induction false} StepsAddRight(a: Elem, b: Elem, c: Elem, n: nat)
    ensures MulSteps(a, Add(b, c), n) == Add(MulSteps(a, b, n), MulSteps(a, c, n))
  {
    hide Add, MulX, Shl, If, Top;
    if n == 0 {
      AddZero(ZERO);
    } else {
      StepsAddRight(a, b, c, n - 1);
      var x, y := Shl(b, n - 1), Shl(c, n - 1);
      ShlAdd(b, c, n - 1);
      TopAdd(x, y);
      IfAdd(Top(x), Top(y), a);
      MulXAdd(MulSteps(a, b, n - 1), MulSteps(a, c, n - 1));
      AddSwap(MulX(MulSteps(a, b, n - 1)), MulX(MulSteps(a, c, n - 1)), If(Top(x), a), If(Top(y), a));
    }
  }

  lemma {:induction false} StepsAddLeft(a: Elem, b: Elem, c: Elem, n: nat)
    ensures MulSteps(Add(a, b), c, n) == Add(MulSteps(a, c, n), MulSteps(b, c, n))
  {
    hide Add, MulX, Shl, If, Top;
    if n == 0 {
      AddZero(ZERO);
    } else {
      StepsAddLeft(a, b, c, n - 1);
      var t := Top(Shl(c, n - 1));
      AddIf(t, a, b);
      MulXAdd(MulSteps(a, c, n - 1), MulSteps(b, c, n - 1));
      AddSwap(MulX(MulSteps(a, c, n - 1)), MulX(MulSteps(b, c, n - 1)), If(t, a), If(t, b));
    }
  }

  lemma {:induction false} StepsMulXLeft(a: Elem, b: Elem, n: nat)
    ensures MulSteps(MulX(a), b, n) == MulX(MulSteps(a, b, n))
  {
    hide Add, MulX, Shl, If, Top;
    MulXZero();
    if n > 0 {
      StepsMulXLeft(a, b, n - 1);
      var t := Top(Shl(b, n - 1));
      AddIf(t, a, a);
      MulXAdd(MulX(MulSteps(a, b, n - 1)), If(t, a));
    }
  }

  // ---------------------------------------------------------------- one

  /** Taking in the top bit of `s`. */
  function Join(p: Elem, s: Elem): Elem {
    (p << 1) ^ (s >> 12)
  }

  lemma Shifts(b: Elem)
    ensures b << 0 == b && b >> 0 == b
    ensures Shift(b << 0) == b << 1
    ensures Shift(b << 1) == b << 2
    ensures Shift(b << 2) == b << 3
    ensures Shift(b << 3) == b << 4
    ensures Shift(b << 4) == b << 5
    ensures Shift(b << 5) == b << 6
    ensures Shift(b << 6) == b << 7
    ensures Shift(b << 7) == b << 8
    ensures Shift(b << 8) == b << 9
    ensures Shift(b << 9) == b << 10
    ensures Shift(b << 10) == b << 11
    ensures Shift(b << 11) == b << 12
  {}

  /** Taking in the bits of `b` from the top. */
  lemma Prefixes(b: Elem)
    ensures Join(ZERO, b) == b >> 12 && !Top(ZERO)
    ensures Join(b >> 12, b << 1) == b >> 11 && !Top(b >> 12)
    ensures Join(b >> 11, b << 2) == b >> 10 && !Top(b >> 11)
    ensures Join(b >> 10, b << 3) == b >> 9 && !Top(b >> 10)
    ensures Join(b >> 9, b << 4) == b >> 8 && !Top(b >> 9)
    ensures Join(b >> 8, b << 5) == b >> 7 && !Top(b >> 8)
    ensures Join(b >> 7, b << 6) == b >> 6 && !Top(b >> 7)
    ensures Join(b >> 6, b << 7) == b >> 5 && !Top(b >> 6)
    ensures Join(b >> 5, b << 8) == b >> 4 && !Top(b >> 5)
    ensures Join(b >> 4, b << 9) == b >> 3 && !Top(b >> 4)
    ensures Join(b >> 3, b << 10) == b >> 2 && !Top(b >> 3)
    ensures Join(b >> 2, b << 11) == b >> 1 && !Top(b >> 2)
    ensures Join(b >> 1, b << 12) == b >> 0 && !Top(b >> 1)
  {}

  lemma OneBit(s: Elem, p: Elem)
    requires !Top(p)
    ensures Add(MulX(p), If(Top(s), ONE)) == Join(p, s)
  {
    BitIs(s);
    assert MulX(p) == p << 1;
    hide Top, MulX, If;
  }

  lemma BitIs(s: Elem)
    ensures If(Top(s), ONE) == s >> 12
  {}

  lemma OneRound(b: Elem, n: nat, p: Elem, s: Elem)
    requires n > 0 && MulSteps(ONE, b, n - 1) == p && Shl(b, n - 1) == s && !Top(p)
    ensures MulSteps(ONE, b, n) == Join(p, s) && Shl(b, n) == Shift(s)
  {
    OneBit(s, p);
    hide Top, MulX, If, Add, Join, Shift;
  }

  lemma MulOneLeft(b: Elem)
    ensures Mul(ONE, b) == b
  {
    Shifts(b);
    Prefixes(b);
    hide Shl, Shift, Top, MulX, If, Add, MulSteps, Join;
    NoSteps(ONE, b);
    OneRound(b, 1, ZERO, b);
    OneRound(b, 2, b >> 12, b << 1);
    OneRound(b, 3, b >> 11, b << 2);
    OneRound(b, 4, b >> 10, b << 3);
    OneRound(b, 5, b >> 9, b << 4);
    OneRound(b, 6, b >> 8, b << 5);
    OneRound(b, 7, b >> 7, b << 6);
    OneRound(b, 8, b >> 6, b << 7);
    OneRound(b, 9, b >> 5, b << 8);
    OneRound(b, 10, b >> 4, b << 9);
    OneRound(b, 11, b >> 3, b << 10);
    OneRound(b, 12, b >> 2, b << 11);
    OneRound(b, 13, b >> 1, b << 12);
  }

  lemma NoSteps(a: Elem, b: Elem)
    ensures MulSteps(a, b, 0) == ZERO && Shl(b, 0) == b
  {}

  // ---------------------------------------------------------------- multiplying by x on the right

  /** x applied `n` times. */
  function Times(a: Elem, n: nat): Elem {
    if n == 0 then a else MulX(Times(a, n - 1))
  }

  lemma {:induction false} TimesAdd(a: Elem, b: Elem, n: nat)
    ensures Times(Add(a, b), n) == Add(Times(a, n), Times(b, n))
  {
    hide Add, MulX;
    if n > 0 {
      TimesAdd(a, b, n - 1);
      MulXAdd(Times(a, n - 1), Times(b, n - 1));
    }
  }

  lemma {:induction false} TimesMulX(a: Elem, n: nat)
    ensures Times(MulX(a), n) == MulX(Times(a, n))
  {
    hide MulX;
    if n > 0 { TimesMulX(a, n - 1); }
  }

  /** What is left of x^13 when it has been replaced by x^4 + x^3 + x + 1. */
  function Rest(a: Elem): Elem {
    Add(Times(a, 13), Replaced(a))
  }

  function Replaced(a: Elem): Elem {
    Add(Add(Times(a, 4), Times(a, 3)), Add(Times(a, 1), a))
  }

  lemma RestAdd(a: Elem, b: Elem)
    ensures Rest(Add(a, b)) == Add(Rest(a), Rest(b))
  {
    TimesAdd(a, b, 13);
    TimesAdd(a, b, 4);
    TimesAdd(a, b, 3);
    TimesAdd(a, b, 1);
    hide Add, Times;
    AddSwap(Times(a, 1), Times(b, 1), a, b);
    AddSwap(Times(a, 4), Times(b, 4), Times(a, 3), Times(b, 3));
    AddSwap(Add(Times(a, 4), Times(a, 3)), Add(Times(b, 4), Times(b, 3)), Add(Times(a, 1), a), Add(Times(b, 1), b));
    AddSwap(Times(a, 13), Times(b, 13), Replaced(a), Replaced(b));
  }

  lemma RestMulX(a: Elem)
    ensures Rest(MulX(a)) == MulX(Rest(a))
  {
    TimesMulX(a, 13);
    TimesMulX(a, 4);
    TimesMulX(a, 3);
    TimesMulX(a, 1);
    hide Add, Times, MulX;
    MulXAdd(Times(a, 1), a);
    MulXAdd(Times(a, 4), Times(a, 3));
    MulXAdd(Add(Times(a, 4), Times(a, 3)), Add(Times(a, 1), a));
    MulXAdd(Times(a, 13), Replaced(a));
  }

  lemma RestOne()
    ensures Rest(ONE) == ZERO
  {
    assert Times(ONE, 4) == 0x10;
    assert Times(ONE, 8) == 0x100;
    assert Times(ONE, 12) == 0x1000;
    assert Times(ONE, 13) == 0x1b;
  }

  lemma {:induction false} RestSteps(b: Elem, n: nat)
    ensures Rest(MulSteps(ONE, b, n)) == ZERO
  {
    hide Add, MulX, Top, Shl, Rest, If;
    if n == 0 {
      RestZero();
    } else {
      RestSteps(b, n - 1);
      var t := Top(Shl(b, n - 1));
      RestIf(t);
      RestMulX(MulSteps(ONE, b, n - 1));
      MulXZero();
      RestAdd(MulX(MulSteps(ONE, b, n - 1)), If(t, ONE));
      AddZero(ZERO);
    }
  }

  lemma RestIf(t: bool)
    ensures Rest(If(t, ONE)) == ZERO
  {
    RestOne();
    RestZero();
    hide Rest;
  }

  lemma RestZero()
    ensures Rest(ZERO) == ZERO
  {
    RestAdd(ZERO, ZERO);
    AddZero(ZERO);
    AddSelf(Rest(ZERO));
    hide Add, Rest;
  }

  /** x^13 = x^4 + x^3 + x + 1. */
  lemma Reduce(a: Elem)
    ensures Times(a, 13) == Replaced(a)
  {
    RestSteps(a, 13);
    MulOneLeft(a);
    AddCancel(Times(a, 13), Replaced(a));
    hide Add, Times, Replaced, MulSteps;
  }

  /** Shifting `b` takes its top bit out of the product. */
  lemma {:induction false} StepsShift(a: Elem, b: Elem, n: nat)
    ensures MulSteps(a, Shift(b), n) == Add(MulSteps(a, b, n + 1), If(Top(b), Times(a, n)))
  {
    hide Add, MulX, Shift, If, Top;
    if n == 0 {
      NoSteps(a, b);
      MulXZero();
      AddZero(If(Top(b), a));
      AddSelf(If(Top(b), a));
      assert MulSteps(a, b, 1) == Add(MulX(ZERO), If(Top(b), a));
    } else {
      StepsShift(a, b, n - 1);
      ShlShift(b, n - 1);
      var t, u := Top(b), Top(Shl(b, n));
      var m := MulSteps(a, b, n);
      MulXAdd(m, If(t, Times(a, n - 1)));
      AddIf(t, Times(a, n - 1), a);
      var x, y, z := MulX(m), If(t, Times(a, n)), If(u, a);
      AddSwap(x, y, z, ZERO);
      AddZero(y);
      AddZero(z);
    }
  }

  lemma {:induction false} ShlShift(b: Elem, n: nat)
    ensures Shl(Shift(b), n) == Shl(b, n + 1)
  {
    hide Shift;
    if n > 0 { ShlShift(b, n - 1); }
  }

  /** The generator's low terms as a factor. */
  lemma MulGenerator(a: Elem)
    ensures Mul(a, 0x1b) == Replaced(a)
  {
    GeneratorBits();
    hide Add, Top, Shl, MulX, If, Replaced;
    ZeroRounds(a, 0x1b, 8);
    OneMore(a, 0x1b, 8);
    OneMore(a, 0x1b, 9);
    OneMore(a, 0x1b, 10);
    OneMore(a, 0x1b, 11);
    OneMore(a, 0x1b, 12);
    Spread(a);
  }

  lemma GeneratorBits()
    ensures forall n: nat :: n < 8 ==> !Top(Shl(0x1b, n))
    ensures Top(Shl(0x1b, 8)) && Top(Shl(0x1b, 9)) && !Top(Shl(0x1b, 10)) && Top(Shl(0x1b, 11)) && Top(Shl(0x1b, 12))
  {
    assert Shl(0x1b, 4) == 0x1b0;
    assert Shl(0x1b, 8) == 0x1b00;
    assert Shl(0x1b, 12) == 0x1000;
  }

  lemma {:induction false} ZeroRounds(a: Elem, b: Elem, n: nat)
    requires forall k: nat :: k < n ==> !Top(Shl(b, k))
    ensures MulSteps(a, b, n) == ZERO
  {
    hide Add, Top, Shl, MulX;
    if n > 0 {
      ZeroRounds(a, b, n - 1);
      MulXZero();
      AddZero(ZERO);
    }
  }

  lemma OneMore(a: Elem, b: Elem, n: nat)
    ensures MulSteps(a, b, n + 1) == Add(MulX(MulSteps(a, b, n)), If(Top(Shl(b, n)), a))
  {
    hide Add, Top, Shl, MulX, If;
  }

  /** Horner's rule for x^4 + x^3 + x + 1. */
  lemma Spread(a: Elem)
    ensures var s1 := Add(MulX(ZERO), If(true, a));
      var s2 := Add(MulX(s1), If(true, a)); var s3 := Add(MulX(s2), If(false, a)); var s4 := Add(MulX(s3), If(true, a));
      Add(MulX(s4), If(true, a)) == Replaced(a)
  {
    hide Add, MulX;
    MulXZero();
    AddZero(a);
    var x1 := MulX(a);
    var x2 := MulX(x1);
    var x3 := MulX(x2);
    AddZero(Add(x2, x1));
    MulXAdd(x1, a);
    MulXAdd(x2, x1);
    MulXAdd(Add(x3, x2), a);
    MulXAdd(x3, x2);
    AddAssoc(Add(MulX(x3), x3), x1, a);
    assert Times(a, 1) == x1;
    assert Times(a, 2) == x2;
    assert Times(a, 3) == x3;
  }

  // ---------------------------------------------------------------- the ring laws

  lemma MulZero(a: Elem)
    ensures Mul(a, ZERO) == ZERO && Mul(ZERO, a) == ZERO
  {
    MulAddRight(a, ZERO, ZERO);
    MulAddLeft(ZERO, ZERO, a);
    AddZero(ZERO);
    AddSelf(Mul(a, ZERO));
    AddSelf(Mul(ZERO, a));
    hide Mul, Add;
  }

  lemma MulAddRight(a: Elem, b: Elem, c: Elem)
    ensures Mul(a, Add(b, c)) == Add(Mul(a, b), Mul(a, c))
  {
    StepsAddRight(a, b, c, 13);
    hide MulSteps, Add;
  }

  lemma MulAddLeft(a: Elem, b: Elem, c: Elem)
    ensures Mul(Add(a, b), c) == Add(Mul(a, c), Mul(b, c))
  {
    StepsAddLeft(a, b, c, 13);
    hide MulSteps, Add;
  }

  lemma MulIf(a: Elem, t: bool, b: Elem)
    ensures Mul(a, If(t, b)) == If(t, Mul(a, b)) && Mul(If(t, b), a) == If(t, Mul(b, a))
  {
    MulZero(a);
    hide Mul;
  }

  lemma MulXLeft(a: Elem, b: Elem)
    ensures Mul(MulX(a), b) == MulX(Mul(a, b))
  {
    StepsMulXLeft(a, b, 13);
    hide MulSteps, MulX;
  }

  lemma MulXParts(b: Elem)
    ensures MulX(b) == Add(Shift(b), If(Top(b), 0x1b))
  {
    AddZero(Shift(b));
  }

  /** Multiplying a factor by x multiplies the product by x. */
  lemma MulXRight(a: Elem, b: Elem)
    ensures Mul(a, MulX(b)) == MulX(Mul(a, b))
  {
    var t := Top(b);
    MulXParts(b);
    MulAddRight(a, Shift(b), If(t, 0x1b));
    MulIf(a, t, 0x1b);
    MulGenerator(a);
    Reduce(a);
    LastShift(a, b);
    hide Mul, Add, Top, MulX, Shift, Times;
    var m, y := MulX(Mul(a, b)), If(t, Times(a, 13));
    AddAssoc(m, y, y);
    AddSelf(y);
    AddZero(m);
  }

  lemma LastShift(a: Elem, b: Elem)
    ensures Mul(a, Shift(b)) == Add(MulX(Mul(a, b)), If(Top(b), Times(a, 13)))
  {
    StepsShift(a, b, 12);
    ShlShift(b, 12);
    LowBit(b);
    OneMore(a, Shift(b), 12);
    MoreTimes(a, 12);
    hide Add, Top, Shl, MulX, Shift, If, MulSteps, Times;
    var m, y := MulSteps(a, b, 13), If(Top(b), Times(a, 12));
    MulXAdd(m, y);
    AddIf(Top(b), Times(a, 12), a);
    IfNot(Top(Shl(b, 13)), a);
    AddZero(Add(MulX(m), MulX(y)));
  }

  lemma MoreTimes(a: Elem, n: nat)
    ensures Times(a, n + 1) == MulX(Times(a, n))
  {
    hide MulX;
  }

  lemma IfNot(t: bool, a: Elem)
    requires !t
    ensures If(t, a) == ZERO
  {}

  lemma LowBit(b: Elem)
    ensures !Top(Shl(b, 13))
  {
    Shifts(b);
    ShlTwelve(b);
    hide Shl, Shift;
    NextShl(b, 12);
    ShiftedOut(b);
  }

  lemma ShiftedOut(b: Elem)
    ensures !Top(Shift(b << 12))
  {}

  lemma NextShl(b: Elem, n: nat)
    ensures Shl(b, n + 1) == Shift(Shl(b, n))
  {
    hide Shift;
  }

  lemma ShlTwelve(b: Elem)
    ensures Shl(b, 12) == b << 12
  {
    Shifts(b);
    hide Shl, Shift;
    NoSteps(b, b);
    NextShl(b, 0);
    NextShl(b, 1);
    NextShl(b, 2);
    NextShl(b, 3);
    NextShl(b, 4);
    NextShl(b, 5);
    NextShl(b, 6);
    NextShl(b, 7);
    NextShl(b, 8);
    NextShl(b, 9);
    NextShl(b, 10);
    NextShl(b, 11);
  }

  lemma {:induction false} AssocSteps(a: Elem, b: Elem, c: Elem, n: nat)
    ensures MulSteps(Mul(a, b), c, n) == Mul(a, MulSteps(b, c, n))
  {
    hide Add, MulX, Top, Shl, Mul, If;
    if n == 0 {
      MulZero(a);
    } else {
      AssocSteps(a, b, c, n - 1);
      var t := Top(Shl(c, n - 1));
      var m := MulSteps(b, c, n - 1);
      MulAddRight(a, MulX(m), If(t, b));
      MulXRight(a, m);
      MulIf(a, t, b);
    }
  }

  lemma MulAssoc(a: Elem, b: Elem, c: Elem)
    ensures Mul(Mul(a, b), c) == Mul(a, Mul(b, c))
  {
    AssocSteps(a, b, c, 13);
    hide MulSteps;
  }

  lemma {:induction false} CommSteps(a: Elem, b: Elem, n: nat)
    ensures Mul(MulSteps(ONE, b, n), a) == MulSteps(a, b, n)
  {
    hide Add, MulX, Top, Shl, Mul, If;
    if n == 0 {
      MulZero(a);
    } else {
      CommSteps(a, b, n - 1);
      var t := Top(Shl(b, n - 1));
      var m := MulSteps(ONE, b, n - 1);
      MulAddLeft(MulX(m), If(t, ONE), a);
      MulXLeft(m, a);
      MulIf(a, t, ONE);
      MulOneLeft(a);
    }
  }

  lemma MulComm(a: Elem, b: Elem)
    ensures Mul(a, b) == Mul(b, a)
  {
    CommSteps(a, b, 13);
    MulOneLeft(b);
    hide MulSteps;
  }

  lemma MulOne(a: Elem)
    ensures Mul(a, ONE) == a && Mul(ONE, a) == a
  {
    MulOneLeft(a);
    MulComm(a, ONE);
    hide Mul;
  }

  /** The square of a sum has no mixed terms. */
  lemma SquareAdd(a: Elem, b: Elem)
    ensures Mul(Add(a, b), Add(a, b)) == Add(Mul(a, a), Mul(b, b))
  {
    hide Mul, Add;
    MulAddLeft(a, b, Add(a, b));
    MulAddRight(a, a, b);
    MulAddRight(b, a, b);
    MulComm(a, b);
    var x, y, z := Mul(a, a), Mul(a, b), Mul(b, b);
    AddAssoc(x, y, Add(y, z));
    AddAssoc(y, y, z);
    AddSelf(y);
    AddZero(z);
  }

  /** Products of two products, factor by factor. */
  lemma MulSwap(a: Elem, b: Elem, c: Elem, d: Elem)
    ensures Mul(Mul(a, b), Mul(c, d)) == Mul(Mul(a, c), Mul(b, d))
  {
    hide Mul;
    MulAssoc(a, b, Mul(c, d));
    MulAssoc(b, c, d);
    MulComm(b, c);
    MulAssoc(c, b, d);
    MulAssoc(a, c, Mul(b, d));
  }

  // ---------------------------------------------------------------- powers

  function Pow(a: Elem, n: nat): Elem {
    if n == 0 then ONE else Mul(Pow(a, n - 1), a)
  }

  function Square(a: Elem): Elem {
    Mul(a, a)
  }

  /** `n` squarings. */
  function Squares(a: Elem, n: nat): Elem {
    if n == 0 then a else Square(Squares(a, n - 1))
  }

  lemma MulXIsMul(a: Elem)
    ensures MulX(a) == Mul(ALPHA, a)
  {
    MulXLeft(ONE, a);
    MulOne(a);
    assert MulX(ONE) == ALPHA;
    hide Mul, MulX;
  }

  // ---------------------------------------------------------------- squares by bits

  lemma SquareMulX(a: Elem, b: Elem, c: Elem)
    requires Square(a) == b && c == MulX(MulX(b))
    ensures Square(MulX(a)) == c
  {
    MulXLeft(a, MulX(a));
    MulXRight(a, a);
    hide Mul, MulX;
  }

  lemma SquareBits()
    ensures Square(0x1) == 0x1
    ensures Square(0x2) == 0x4
    ensures Square(0x4) == 0x10
    ensures Square(0x8) == 0x40
    ensures Square(0x10) == 0x100
    ensures Square(0x20) == 0x400
    ensures Square(0x40) == 0x1000
    ensures Square(0x80) == 0x36
    ensures Square(0x100) == 0xd8
    ensures Square(0x200) == 0x360
    ensures Square(0x400) == 0xd80
    ensures Square(0x800) == 0x161b
    ensures Square(0x1000) == 0x185a
  {
    PowersOfX();
    MulOne(ONE);
    hide Mul, MulX, Square;
    assert Square(ONE) == ONE by { SquareOne(); }
    SquareMulX(0x1, 0x1, 0x4);
    SquareMulX(0x2, 0x4, 0x10);
    SquareMulX(0x4, 0x10, 0x40);
    SquareMulX(0x8, 0x40, 0x100);
    SquareMulX(0x10, 0x100, 0x400);
    SquareMulX(0x20, 0x400, 0x1000);
    SquareMulX(0x40, 0x1000, 0x36);
    SquareMulX(0x80, 0x36, 0xd8);
    SquareMulX(0x100, 0xd8, 0x360);
    SquareMulX(0x200, 0x360, 0xd80);
    SquareMulX(0x400, 0xd80, 0x161b);
    SquareMulX(0x800, 0x161b, 0x185a);
  }

  lemma SquareOne()
    ensures Square(ONE) == ONE && Square(ZERO) == ZERO
  {
    MulOne(ONE);
    MulZero(ZERO);
    hide Mul;
  }

  lemma PowersOfX()
    ensures MulX(0x1) == 0x2 && MulX(MulX(0x1)) == 0x4
    ensures MulX(0x2) == 0x4 && MulX(MulX(0x4)) == 0x10
    ensures MulX(0x4) == 0x8 && MulX(MulX(0x10)) == 0x40
    ensures MulX(0x8) == 0x10 && MulX(MulX(0x40)) == 0x100
    ensures MulX(0x10) == 0x20 && MulX(MulX(0x100)) == 0x400
    ensures MulX(0x20) == 0x40 && MulX(MulX(0x400)) == 0x1000
    ensures MulX(0x40) == 0x80 && MulX(MulX(0x1000)) == 0x36
    ensures MulX(0x80) == 0x100 && MulX(MulX(0x36)) == 0xd8
    ensures MulX(0x100) == 0x200 && MulX(MulX(0xd8)) == 0x360
    ensures MulX(0x200) == 0x400 && MulX(MulX(0x360)) == 0xd80
    ensures MulX(0x400) == 0x800 && MulX(MulX(0xd80)) == 0x161b
    ensures MulX(0x800) == 0x1000 && MulX(MulX(0x161b)) == 0x185a
  {}

  function And(e: Elem, mask: Elem): Elem {
    e & mask
  }

  /** A bit taken out of an element is zero or that power of x. */
  lemma SquarePart(e: Elem, bit: Elem, square: Elem)
    requires Square(bit) == square && (And(e, bit) == ZERO || And(e, bit) == bit) && bit != ZERO
    ensures Square(And(e, bit)) == If(And(e, bit) != ZERO, square)
  {
    SquareOne();
    hide Mul, And, Square;
  }

  lemma LowBits(e: Elem)
    ensures And(e, 0x1) == ZERO || And(e, 0x1) == 0x1
    ensures And(e, 0x2) == ZERO || And(e, 0x2) == 0x2
    ensures And(e, 0x4) == ZERO || And(e, 0x4) == 0x4
    ensures And(e, 0x8) == ZERO || And(e, 0x8) == 0x8
    ensures And(e, 0x10) == ZERO || And(e, 0x10) == 0x10
  {}

  lemma MiddleBits(e: Elem)
    ensures And(e, 0x20) == ZERO || And(e, 0x20) == 0x20
    ensures And(e, 0x40) == ZERO || And(e, 0x40) == 0x40
    ensures And(e, 0x80) == ZERO || And(e, 0x80) == 0x80
    ensures And(e, 0x100) == ZERO || And(e, 0x100) == 0x100
  {}

  lemma HighBits(e: Elem)
    ensures And(e, 0x200) == ZERO || And(e, 0x200) == 0x200
    ensures And(e, 0x400) == ZERO || And(e, 0x400) == 0x400
  {}

  lemma TopBits(e: Elem)
    ensures And(e, 0x800) == ZERO || And(e, 0x800) == 0x800
    ensures And(e, 0x1000) == ZERO || And(e, 0x1000) == 0x1000
  {}

  lemma LowMasks(e: Elem)
    ensures And(e, 0x3) == Add(And(e, 0x1), And(e, 0x2))
    ensures And(e, 0x7) == Add(And(e, 0x3), And(e, 0x4))
    ensures And(e, 0xf) == Add(And(e, 0x7), And(e, 0x8))
    ensures And(e, 0x1f) == Add(And(e, 0xf), And(e, 0x10))
  {}

  lemma MiddleMasks(e: Elem)
    ensures And(e, 0x3f) == Add(And(e, 0x1f), And(e, 0x20))
    ensures And(e, 0x7f) == Add(And(e, 0x3f), And(e, 0x40))
    ensures And(e, 0xff) == Add(And(e, 0x7f), And(e, 0x80))
    ensures And(e, 0x1ff) == Add(And(e, 0xff), And(e, 0x100))
  {}

  lemma HighMasks(e: Elem)
    ensures And(e, 0x3ff) == Add(And(e, 0x1ff), And(e, 0x200))
    ensures And(e, 0x7ff) == Add(And(e, 0x3ff), And(e, 0x400))
  {}

  lemma TopMasks(e: Elem)
    ensures And(e, 0xfff) == Add(And(e, 0x7ff), And(e, 0x800))
    ensures And(e, 0x1fff) == Add(And(e, 0xfff), And(e, 0x1000))
  {}

  lemma AllBits(e: Elem)
    ensures And(e, 0x1fff) == e
  {}

  /** The square of the low bits. */
  function LowForm(e: Elem): Elem {
    Add(Add(Add(Add(If(And(e, 0x1) != ZERO, 0x1),
      If(And(e, 0x2) != ZERO, 0x4)),
      If(And(e, 0x4) != ZERO, 0x10)),
      If(And(e, 0x8) != ZERO, 0x40)),
      If(And(e, 0x10) != ZERO, 0x100))
  }

  function MiddleForm(e: Elem): Elem {
    Add(Add(Add(Add(LowForm(e),
      If(And(e, 0x20) != ZERO, 0x400)),
      If(And(e, 0x40) != ZERO, 0x1000)),
      If(And(e, 0x80) != ZERO, 0x36)),
      If(And(e, 0x100) != ZERO, 0xd8))
  }

  /** The square by the bits of its root. */
  function SquareForm(e: Elem): Elem {
    Add(Add(Add(Add(MiddleForm(e),
      If(And(e, 0x200) != ZERO, 0x360)),
      If(And(e, 0x400) != ZERO, 0xd80)),
      If(And(e, 0x800) != ZERO, 0x161b)),
      If(And(e, 0x1000) != ZERO, 0x185a))
  }

  lemma SquareMore(e: Elem, mask: Elem, bit: Elem, wider: Elem, s: Elem, square: Elem)
    requires And(e, wider) == Add(And(e, mask), And(e, bit)) && Square(And(e, mask)) == s
    requires Square(bit) == square && (And(e, bit) == ZERO || And(e, bit) == bit) && bit != ZERO
    ensures Square(And(e, wider)) == Add(s, If(And(e, bit) != ZERO, square))
  {
    SquarePart(e, bit, square);
    SquareAdd(And(e, mask), And(e, bit));
    hide Mul, And, Add, If;
  }

  lemma SquareLow(e: Elem)
    ensures Square(And(e, 0x1f)) == LowForm(e)
  {
    SquareBits();
    LowBits(e);
    LowMasks(e);
    hide Mul, Add, If, And, Square, MiddleForm, SquareForm;
    SquarePart(e, 0x1, 0x1);
    var s0 := If(And(e, 0x1) != ZERO, 0x1);
    SquareMore(e, 0x1, 0x2, 0x3, s0, 0x4);
    var s1 := Add(s0, If(And(e, 0x2) != ZERO, 0x4));
    SquareMore(e, 0x3, 0x4, 0x7, s1, 0x10);
    var s2 := Add(s1, If(And(e, 0x4) != ZERO, 0x10));
    SquareMore(e, 0x7, 0x8, 0xf, s2, 0x40);
    var s3 := Add(s2, If(And(e, 0x8) != ZERO, 0x40));
    SquareMore(e, 0xf, 0x10, 0x1f, s3, 0x100);
  }

  lemma SquareMiddle(e: Elem)
    ensures Square(And(e, 0x1ff)) == MiddleForm(e)
  {
    SquareBits();
    MiddleBits(e);
    MiddleMasks(e);
    SquareLow(e);
    hide Mul, Add, If, And, Square, LowForm, SquareForm;
    var s4 := LowForm(e);
    SquareMore(e, 0x1f, 0x20, 0x3f, s4, 0x400);
    var s5 := Add(s4, If(And(e, 0x20) != ZERO, 0x400));
    SquareMore(e, 0x3f, 0x40, 0x7f, s5, 0x1000);
    var s6 := Add(s5, If(And(e, 0x40) != ZERO, 0x1000));
    SquareMore(e, 0x7f, 0x80, 0xff, s6, 0x36);
    var s7 := Add(s6, If(And(e, 0x80) != ZERO, 0x36));
    SquareMore(e, 0xff, 0x100, 0x1ff, s7, 0xd8);
  }

  lemma SquareHigh(e: Elem)
    ensures Square(And(e, 0x1fff)) == SquareForm(e)
  {
    SquareBits();
    HighBits(e);
    HighMasks(e);
    TopBits(e);
    TopMasks(e);
    SquareMiddle(e);
    hide Mul, Add, If, And, Square, LowForm, MiddleForm;
    var s8 := MiddleForm(e);
    SquareMore(e, 0x1ff, 0x200, 0x3ff, s8, 0x360);
    var s9 := Add(s8, If(And(e, 0x200) != ZERO, 0x360));
    SquareMore(e, 0x3ff, 0x400, 0x7ff, s9, 0xd80);
    var s10 := Add(s9, If(And(e, 0x400) != ZERO, 0xd80));
    SquareMore(e, 0x7ff, 0x800, 0xfff, s10, 0x161b);
    var s11 := Add(s10, If(And(e, 0x800) != ZERO, 0x161b));
    SquareMore(e, 0xfff, 0x1000, 0x1fff, s11, 0x185a);
  }

  lemma SquareIs(e: Elem)
    ensures Square(e) == SquareForm(e)
  {
    SquareHigh(e);
    AllBits(e);
    hide And, Square, SquareForm;
  }

  // ---------------------------------------------------------------- thirteen squarings

  lemma ConstantSquares()
    ensures Square(0x2) == 0x4
    ensures Square(0x4) == 0x10
    ensures Square(0x10) == 0x100
    ensures Square(0x100) == 0xd8
    ensures Square(0xd8) == 0x1176
    ensures Square(0x1176) == 0xd96
    ensures Square(0xd96) == 0x1a61
    ensures Square(0x1a61) == 0x1920
    ensures Square(0x1920) == 0xa99
    ensures Square(0xa99) == 0x140c
    ensures Square(0x140c) == 0x158a
    ensures Square(0x158a) == 0x1570
    ensures Square(0x1570) == 0x2
  {
    SquareIs(0x2);
    SquareIs(0x4);
    SquareIs(0x10);
    SquareIs(0x100);
    SquareIs(0xd8);
    SquareIs(0x1176);
    SquareIs(0xd96);
    SquareIs(0x1a61);
    SquareIs(0x1920);
    SquareIs(0xa99);
    SquareIs(0x140c);
    SquareIs(0x158a);
    SquareIs(0x1570);
    hide Square;
  }

  /** The powers of x that squaring leads through, and back to x. */
  lemma AlphaSquares()
    ensures Squares(ALPHA, 13) == ALPHA
  {
    ConstantSquares();
    hide Square, Squares;
    MoreSquares(ALPHA, 0);
    MoreSquares(ALPHA, 1);
    MoreSquares(ALPHA, 2);
    MoreSquares(ALPHA, 3);
    MoreSquares(ALPHA, 4);
    MoreSquares(ALPHA, 5);
    MoreSquares(ALPHA, 6);
    MoreSquares(ALPHA, 7);
    MoreSquares(ALPHA, 8);
    MoreSquares(ALPHA, 9);
    MoreSquares(ALPHA, 10);
    MoreSquares(ALPHA, 11);
    MoreSquares(ALPHA, 12);
  }

  lemma MoreSquares(a: Elem, n: nat)
    ensures Squares(a, 0) == a && Squares(a, n + 1) == Square(Squares(a, n))
  {
    hide Square;
  }
}
