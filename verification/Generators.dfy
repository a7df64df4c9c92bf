/** The generators of the four codes, and their roots. */
module Generators {
  import opened Gf13
  import opened Field
  import opened BitStrings
  import opened BchCode

  // ---------------------------------------------------------------- Horner's rule, eight bits at a time

  function Back(t: Elem): Elem {
    t ^ (t << 1) ^ (t << 3) ^ (t << 4)
  }

  function Jump1(a: Elem): Elem {
    (a << 1) ^ Back(a >> 12)
  }

  function Jump2(a: Elem): Elem {
    (a << 2) ^ Back(a >> 11)
  }

  function Jump3(a: Elem): Elem {
    (a << 3) ^ Back(a >> 10)
  }

  function Jump4(a: Elem): Elem {
    (a << 4) ^ Back(a >> 9)
  }

  function Jump5(a: Elem): Elem {
    (a << 5) ^ Back(a >> 8)
  }

  function Jump6(a: Elem): Elem {
    (a << 6) ^ Back(a >> 7)
  }

  function Jump7(a: Elem): Elem {
    (a << 7) ^ Back(a >> 6)
  }

  /** x^j times `a`: what is shifted out at the top comes back as x^4 + x^3 + x + 1. */
  function Jump(a: Elem, j: nat): Elem {
    if j == 1 then Jump1(a) else if j == 3 then Jump3(a) else if j == 5 then Jump5(a) else Jump7(a)
  }

  lemma JumpOn1(a: Elem)
    ensures Linear(Jump1(a)) == Jump2(a)
  {}

  lemma JumpOn2(a: Elem)
    ensures Linear(Jump2(a)) == Jump3(a)
  {}

  lemma JumpOn3(a: Elem)
    ensures Linear(Jump3(a)) == Jump4(a)
  {}

  lemma JumpOn4(a: Elem)
    ensures Linear(Jump4(a)) == Jump5(a)
  {}

  lemma JumpOn5(a: Elem)
    ensures Linear(Jump5(a)) == Jump6(a)
  {}

  lemma JumpOn6(a: Elem)
    ensures Linear(Jump6(a)) == Jump7(a)
  {}

  lemma JumpFirst(a: Elem)
    ensures Linear(a) == Jump1(a)
  {}

  lemma JumpIs(a: Elem, j: nat)
    requires j == 1 || j == 3 || j == 5 || j == 7
    ensures Jump(a, j) == Mul(Pow(ALPHA, j), a)
  {
    hide MulX, Linear, Mul, Pow, Jump1, Jump2, Jump3, Jump4, Jump5, Jump6, Jump7, Times;
    JumpFirst(a);
    MulXIs(a);
    FirstTimes(a);
    MulXIs(Jump1(a));
    JumpOn1(a);
    MoreTimes(a, 1);
    MulXIs(Jump2(a));
    JumpOn2(a);
    MoreTimes(a, 2);
    MulXIs(Jump3(a));
    JumpOn3(a);
    MoreTimes(a, 3);
    MulXIs(Jump4(a));
    JumpOn4(a);
    MoreTimes(a, 4);
    MulXIs(Jump5(a));
    JumpOn5(a);
    MoreTimes(a, 5);
    MulXIs(Jump6(a));
    JumpOn6(a);
    MoreTimes(a, 6);
    TimesIsMul(a, j);
  }

  lemma FirstTimes(a: Elem)
    ensures Times(a, 1) == MulX(a)
  {
    hide MulX;
  }

  lemma {:induction false} TimesIsMul(a: Elem, j: nat)
    ensures Times(a, j) == Mul(Pow(ALPHA, j), a)
  {
    hide Mul, MulX;
    if j == 0 {
      MulOne(a);
    } else {
      TimesIsMul(a, j - 1);
      var p := Pow(ALPHA, j - 1);
      MulXIsMul(Mul(p, a));
      MulAssoc(ALPHA, p, a);
      MulComm(ALPHA, p);
    }
  }

  function NextBit(v: Elem, b: bool, j: nat): Elem {
    Add(If(b, ONE), Jump(v, j))
  }

  predicate BitSet(b: Elem, mask: Elem) {
    b & mask != 0
  }

  /** The bits of a byte, the lowest first. */
  function ByteBits(b: Elem): Bits {
    [BitSet(b, 1), BitSet(b, 2), BitSet(b, 4), BitSet(b, 8), BitSet(b, 0x10), BitSet(b, 0x20), BitSet(b, 0x40),
      BitSet(b, 0x80)]
  }

  /** Eight rounds of Horner's rule at x^j. */
  function Byte(v: Elem, b: Elem, j: nat): Elem {
    var v4 := NextBit(NextBit(NextBit(NextBit(v, BitSet(b, 0x80), j), BitSet(b, 0x40), j), BitSet(b, 0x20), j),
      BitSet(b, 0x10), j);
    NextBit(NextBit(NextBit(NextBit(v4, BitSet(b, 8), j), BitSet(b, 4), j), BitSet(b, 2), j), BitSet(b, 1), j)
  }

  lemma EvalFirst(b: bool, w: Bits, x: Elem)
    ensures Eval([b] + w, x) == Add(If(b, ONE), Mul(x, Eval(w, x)))
  {
    hide Add, Mul, Pow, If;
    EvalConcat([b], w, x);
    PowFirst(x);
    assert [b][..0] == [];
    EvalEmpty(x);
    AddZero(If(b, ONE));
    assert Eval([b], x) == Add(Eval([b][..0], x), If(b, Pow(x, 0)));
  }

  lemma EvalEmpty(x: Elem)
    ensures Eval([], x) == ZERO
  {}

  lemma OneRound(b: bool, w: Bits, j: nat)
    requires j == 1 || j == 3 || j == 5 || j == 7
    ensures Eval([b] + w, Pow(ALPHA, j)) == NextBit(Eval(w, Pow(ALPHA, j)), b, j)
  {
    hide Add, Mul, Pow, Eval, Jump, If;
    EvalFirst(b, w, Pow(ALPHA, j));
    JumpIs(Eval(w, Pow(ALPHA, j)), j);
  }

  lemma FourRounds(d: Bits, w: Bits, j: nat)
    requires |d| == 4 && (j == 1 || j == 3 || j == 5 || j == 7)
    ensures Eval(d + w, Pow(ALPHA, j)) ==
      NextBit(NextBit(NextBit(NextBit(Eval(w, Pow(ALPHA, j)), d[3], j), d[2], j), d[1], j), d[0], j)
  {
    hide NextBit, Pow, Eval;
    OneRound(d[3], w, j);
    OneRound(d[2], [d[3]] + w, j);
    OneRound(d[1], [d[2]] + ([d[3]] + w), j);
    OneRound(d[0], [d[1]] + ([d[2]] + ([d[3]] + w)), j);
    assert d + w == [d[0]] + ([d[1]] + ([d[2]] + ([d[3]] + w)));
  }

  /** A byte in front of a word. */
  lemma ByteEval(b: Elem, w: Bits, j: nat)
    requires j == 1 || j == 3 || j == 5 || j == 7
    ensures Eval(ByteBits(b) + w, Pow(ALPHA, j)) == Byte(Eval(w, Pow(ALPHA, j)), b, j)
  {
    hide NextBit, Pow, Eval, BitSet;
    var d := ByteBits(b);
    FourRounds(d[4..], w, j);
    FourRounds(d[..4], d[4..] + w, j);
    assert d + w == d[..4] + (d[4..] + w);
  }

  // ---------------------------------------------------------------- the codes

  /** A code: how many syndromes it uses, its generator as bytes, the lowest first, the
      generator's degree, and the size of its checksum. */
  datatype Code = Code(syns: nat, bytes: seq<Elem>, degree: nat, eccBytes: nat)

  /** Generator 0x201b. */
  const ONE_BIT := Code(2, [0x1b, 0x20], 13, 2)

  /** Generator 0x4d5154b. */
  const TWO_BIT := Code(4, [0x4b, 0x15, 0xd5, 0x4], 26, 4)

  /** Generator 0xbaf5b2bded. */
  const THREE_BIT := Code(6, [0xed, 0xbd, 0xb2, 0xf5, 0xba], 39, 5)

  /** Generator 0x14523043ab86ab. */
  const FOUR_BIT := Code(8, [0xab, 0x86, 0xab, 0x43, 0x30, 0x52, 0x14], 52, 7)

  predicate IsCode(c: Code) {
    c == ONE_BIT || c == TWO_BIT || c == THREE_BIT || c == FOUR_BIT
  }

  function AllBits(bytes: seq<Elem>): (w: Bits)
    ensures |w| == 8 * |bytes|
  {
    if bytes == [] then [] else ByteBits(bytes[0]) + AllBits(bytes[1..])
  }

  function Generator(c: Code): (g: Bits)
    requires IsCode(c)
    ensures |g| == c.degree + 1
  {
    AllBits(c.bytes)[..c.degree + 1]
  }

  lemma {:induction false} AllBitsAt(bytes: seq<Elem>, k: nat, i: nat)
    requires k < |bytes| && i < 8
    ensures AllBits(bytes)[8 * k + i] == ByteBits(bytes[k])[i]
  {
    hide ByteBits;
    if k > 0 { AllBitsAt(bytes[1..], k - 1, i); }
  }

  /** Horner's rule on bytes. */
  function BytesEval(bytes: seq<Elem>, j: nat): Elem {
    if bytes == [] then ZERO else Byte(BytesEval(bytes[1..], j), bytes[0], j)
  }

  lemma BytesFrom(bytes: seq<Elem>, k: nat, j: nat)
    requires k < |bytes|
    ensures BytesEval(bytes[k..], j) == Byte(BytesEval(bytes[k + 1..], j), bytes[k], j)
  {
    hide Byte;
    assert bytes[k..][1..] == bytes[k + 1..];
  }

  lemma BytesEnds(bytes: seq<Elem>, j: nat)
    ensures BytesEval(bytes[|bytes|..], j) == ZERO && bytes[0..] == bytes
  {}

  lemma {:induction false} AllBitsEval(bytes: seq<Elem>, j: nat)
    requires j == 1 || j == 3 || j == 5 || j == 7
    ensures Eval(AllBits(bytes), Pow(ALPHA, j)) == BytesEval(bytes, j)
  {
    hide Byte, Pow, Eval, ByteBits;
    if bytes == [] {
      EvalEmpty(Pow(ALPHA, j));
    } else {
      AllBitsEval(bytes[1..], j);
      ByteEval(bytes[0], AllBits(bytes[1..]), j);
    }
  }

  lemma OneBitProper()
    ensures Proper(Generator(ONE_BIT)) && AllBits(ONE_BIT.bytes) == Generator(ONE_BIT) + Zeros(2)
  {
    hide AllBits;
    AllBitsAt(ONE_BIT.bytes, 0, 0);
    AllBitsAt(ONE_BIT.bytes, 1, 5);
    AllBitsAt(ONE_BIT.bytes, 1, 6);
    AllBitsAt(ONE_BIT.bytes, 1, 7);
  }

  lemma OneBitAt1()
    ensures Byte(Byte(0, 0x20, 1), 0x1b, 1) == ZERO
  {}

  lemma TwoBitProper()
    ensures Proper(Generator(TWO_BIT)) && AllBits(TWO_BIT.bytes) == Generator(TWO_BIT) + Zeros(5)
  {
    hide AllBits;
    AllBitsAt(TWO_BIT.bytes, 0, 0);
    AllBitsAt(TWO_BIT.bytes, 3, 2);
    AllBitsAt(TWO_BIT.bytes, 3, 3);
    AllBitsAt(TWO_BIT.bytes, 3, 4);
    AllBitsAt(TWO_BIT.bytes, 3, 5);
    AllBitsAt(TWO_BIT.bytes, 3, 6);
    AllBitsAt(TWO_BIT.bytes, 3, 7);
  }

  lemma TwoBitAt1()
    ensures Byte(Byte(Byte(Byte(0, 0x4, 1), 0xd5, 1), 0x15, 1), 0x4b, 1) == ZERO
  {}

  lemma TwoBitAt3()
    ensures Byte(Byte(Byte(Byte(0, 0x4, 3), 0xd5, 3), 0x15, 3), 0x4b, 3) == ZERO
  {}

  lemma ThreeBitProper()
    ensures Proper(Generator(THREE_BIT)) && AllBits(THREE_BIT.bytes) == Generator(THREE_BIT) + Zeros(0)
  {
    hide AllBits;
    AllBitsAt(THREE_BIT.bytes, 0, 0);
    AllBitsAt(THREE_BIT.bytes, 4, 7);
  }

  lemma ThreeBitAt1()
    ensures Byte(Byte(Byte(Byte(Byte(0, 0xba, 1), 0xf5, 1), 0xb2, 1), 0xbd, 1), 0xed, 1) == ZERO
  {}

  lemma ThreeBitAt3()
    ensures Byte(Byte(Byte(Byte(Byte(0, 0xba, 3), 0xf5, 3), 0xb2, 3), 0xbd, 3), 0xed, 3) == ZERO
  {}

  lemma ThreeBitAt5()
    ensures Byte(Byte(Byte(Byte(Byte(0, 0xba, 5), 0xf5, 5), 0xb2, 5), 0xbd, 5), 0xed, 5) == ZERO
  {}

  lemma FourBitProper()
    ensures Proper(Generator(FOUR_BIT)) && AllBits(FOUR_BIT.bytes) == Generator(FOUR_BIT) + Zeros(3)
  {
    hide AllBits;
    AllBitsAt(FOUR_BIT.bytes, 0, 0);
    AllBitsAt(FOUR_BIT.bytes, 6, 4);
    AllBitsAt(FOUR_BIT.bytes, 6, 5);
    AllBitsAt(FOUR_BIT.bytes, 6, 6);
    AllBitsAt(FOUR_BIT.bytes, 6, 7);
  }

  lemma FourBitAt1()
    ensures ZERO ==
      Byte(Byte(Byte(Byte(Byte(Byte(Byte(0, 0x14, 1), 0x52, 1), 0x30, 1), 0x43, 1), 0xab, 1), 0x86, 1), 0xab, 1)
  {}

  lemma FourBitAt3()
    ensures ZERO ==
      Byte(Byte(Byte(Byte(Byte(Byte(Byte(0, 0x14, 3), 0x52, 3), 0x30, 3), 0x43, 3), 0xab, 3), 0x86, 3), 0xab, 3)
  {}

  lemma FourBitAt5()
    ensures ZERO ==
      Byte(Byte(Byte(Byte(Byte(Byte(Byte(0, 0x14, 5), 0x52, 5), 0x30, 5), 0x43, 5), 0xab, 5), 0x86, 5), 0xab, 5)
  {}

  lemma FourBitAt7()
    ensures ZERO ==
      Byte(Byte(Byte(Byte(Byte(Byte(Byte(0, 0x14, 7), 0x52, 7), 0x30, 7), 0x43, 7), 0xab, 7), 0x86, 7), 0xab, 7)
  {}

  /** The value of a polynomial over GF(2) at a square is the square of its value. */
  lemma {:induction false} EvalSquare(w: Bits, x: Elem)
    ensures Eval(w, Mul(x, x)) == Mul(Eval(w, x), Eval(w, x))
  {
    hide Add, Mul, Pow, If;
    if w == [] {
      MulZero(ZERO);
    } else {
      var n := |w| - 1;
      EvalSquare(w[..n], x);
      var v, t := Eval(w[..n], x), If(w[n], Pow(x, n));
      SquareAdd(v, t);
      PowSquare(x, n);
      MulIf(Pow(x, n), w[n], Pow(x, n));
      SquareOfIf(w[n], Pow(x, n));
    }
  }

  lemma SquareOfIf(t: bool, a: Elem)
    ensures Mul(If(t, a), If(t, a)) == If(t, Mul(a, a))
  {
    hide Mul;
    MulZero(ZERO);
  }

  lemma {:induction false} PowSquare(x: Elem, n: nat)
    ensures Pow(Mul(x, x), n) == Mul(Pow(x, n), Pow(x, n))
  {
    hide Mul;
    if n == 0 {
      MulOne(ONE);
    } else {
      PowSquare(x, n - 1);
      MulSwap(Pow(x, n - 1), Pow(x, n - 1), x, x);
    }
  }

  lemma RootDoubles(w: Bits, j: nat)
    requires Eval(w, Pow(ALPHA, j)) == ZERO
    ensures Eval(w, Pow(ALPHA, 2 * j)) == ZERO
  {
    hide Mul, Pow, Eval;
    EvalSquare(w, Pow(ALPHA, j));
    PowAdd(ALPHA, j, j);
    MulZero(ZERO);
  }

  ghost predicate Roots(g: Bits, syns: nat) {
    forall j: nat {:trigger Pow(ALPHA, j)} :: 1 <= j <= syns ==> Eval(g, Pow(ALPHA, j)) == ZERO
  }

  lemma OneBitBytes(j: nat)
    ensures BytesEval(ONE_BIT.bytes, j) == Byte(Byte(ZERO, 0x20, j), 0x1b, j)
  {
    hide Byte, BytesEval;
    var bytes := ONE_BIT.bytes;
    BytesEnds(bytes, j);
    BytesFrom(bytes, 0, j);
    BytesFrom(bytes, 1, j);
  }

  lemma OneBitRoots()
    ensures Proper(Generator(ONE_BIT)) && Roots(Generator(ONE_BIT), 2)
  {
    hide Byte, Eval, Pow, Generator, AllBits, BytesEval;
    OneBitProper();
    var g := Generator(ONE_BIT);
    OneBitAt1();
    OneBitBytes(1);
    AllBitsEval(ONE_BIT.bytes, 1);
    EvalPadded(g, 2, Pow(ALPHA, 1));
    RootDoubles(g, 1);
  }

  lemma TwoBitBytes(j: nat)
    ensures BytesEval(TWO_BIT.bytes, j) == Byte(Byte(Byte(Byte(ZERO, 0x4, j), 0xd5, j), 0x15, j), 0x4b, j)
  {
    hide Byte, BytesEval;
    var bytes := TWO_BIT.bytes;
    BytesEnds(bytes, j);
    BytesFrom(bytes, 0, j);
    BytesFrom(bytes, 1, j);
    BytesFrom(bytes, 2, j);
    BytesFrom(bytes, 3, j);
  }

  lemma TwoBitRoots()
    ensures Proper(Generator(TWO_BIT)) && Roots(Generator(TWO_BIT), 4)
  {
    hide Byte, Eval, Pow, Generator, AllBits, BytesEval;
    TwoBitProper();
    var g := Generator(TWO_BIT);
    TwoBitAt1();
    TwoBitBytes(1);
    AllBitsEval(TWO_BIT.bytes, 1);
    EvalPadded(g, 5, Pow(ALPHA, 1));
    TwoBitAt3();
    TwoBitBytes(3);
    AllBitsEval(TWO_BIT.bytes, 3);
    EvalPadded(g, 5, Pow(ALPHA, 3));
    RootDoubles(g, 1);
    RootDoubles(g, 2);
  }

  lemma ThreeBitBytes(j: nat)
    ensures BytesEval(THREE_BIT.bytes, j) == Byte(Byte(Byte(Byte(Byte(ZERO, 0xba, j), 0xf5, j), 0xb2, j), 0xbd, j),
      0xed, j)
  {
    hide Byte, BytesEval;
    var bytes := THREE_BIT.bytes;
    BytesEnds(bytes, j);
    BytesFrom(bytes, 0, j);
    BytesFrom(bytes, 1, j);
    BytesFrom(bytes, 2, j);
    BytesFrom(bytes, 3, j);
    BytesFrom(bytes, 4, j);
  }

  lemma ThreeBitRoots()
    ensures Proper(Generator(THREE_BIT)) && Roots(Generator(THREE_BIT), 6)
  {
    hide Byte, Eval, Pow, Generator, AllBits, BytesEval;
    ThreeBitProper();
    var g := Generator(THREE_BIT);
    ThreeBitAt1();
    ThreeBitBytes(1);
    AllBitsEval(THREE_BIT.bytes, 1);
    EvalPadded(g, 0, Pow(ALPHA, 1));
    ThreeBitAt3();
    ThreeBitBytes(3);
    AllBitsEval(THREE_BIT.bytes, 3);
    EvalPadded(g, 0, Pow(ALPHA, 3));
    ThreeBitAt5();
    ThreeBitBytes(5);
    AllBitsEval(THREE_BIT.bytes, 5);
    EvalPadded(g, 0, Pow(ALPHA, 5));
    RootDoubles(g, 1);
    RootDoubles(g, 2);
    RootDoubles(g, 3);
  }

  lemma FourBitBytes(j: nat)
    ensures BytesEval(FOUR_BIT.bytes, j) == Byte(Byte(Byte(Byte(Byte(Byte(Byte(ZERO, 0x14, j), 0x52, j), 0x30, j),
      0x43, j), 0xab, j), 0x86, j), 0xab, j)
  {
    hide Byte, BytesEval;
    var bytes := FOUR_BIT.bytes;
    BytesEnds(bytes, j);
    BytesFrom(bytes, 0, j);
    BytesFrom(bytes, 1, j);
    BytesFrom(bytes, 2, j);
    BytesFrom(bytes, 3, j);
    BytesFrom(bytes, 4, j);
    BytesFrom(bytes, 5, j);
    BytesFrom(bytes, 6, j);
  }

  lemma FourBitRoots()
    ensures Proper(Generator(FOUR_BIT)) && Roots(Generator(FOUR_BIT), 8)
  {
    hide Byte, Eval, Pow, Generator, AllBits, BytesEval;
    FourBitProper();
    var g := Generator(FOUR_BIT);
    FourBitAt1();
    FourBitBytes(1);
    AllBitsEval(FOUR_BIT.bytes, 1);
    EvalPadded(g, 3, Pow(ALPHA, 1));
    FourBitAt3();
    FourBitBytes(3);
    AllBitsEval(FOUR_BIT.bytes, 3);
    EvalPadded(g, 3, Pow(ALPHA, 3));
    FourBitAt5();
    FourBitBytes(5);
    AllBitsEval(FOUR_BIT.bytes, 5);
    EvalPadded(g, 3, Pow(ALPHA, 5));
    FourBitAt7();
    FourBitBytes(7);
    AllBitsEval(FOUR_BIT.bytes, 7);
    EvalPadded(g, 3, Pow(ALPHA, 7));
    RootDoubles(g, 1);
    RootDoubles(g, 2);
    RootDoubles(g, 3);
    RootDoubles(g, 4);
  }

  /** The roots of each generator: x to the powers 1 to `syns`. */
  lemma CodeRoots(c: Code)
    requires IsCode(c)
    ensures Proper(Generator(c)) && Roots(Generator(c), c.syns)
  {
    OneBitRoots();
    TwoBitRoots();
    ThreeBitRoots();
    FourBitRoots();
    hide Roots, Generator;
  }
}
