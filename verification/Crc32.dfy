/** The checksum of 32 bits, kept inverted so that erased data has an erased checksum.

    A register is a string of 32 bits, the least significant first: the first is the coefficient
    of x^31, the last that of x^0. */
module Crc32 {
  import opened BitStrings

  const WIDTH: nat := 32

  /** The polynomial of IEEE Std 802.3, section 3.2.9, without x^32: the coefficients of x^31 to
      x^0, as in the constant 0xedb88320. */
  const POLY: Bits := POLY_20 + POLY_83 + POLY_B8 + POLY_ED
  const POLY_20: Bits := [false, false, false, false, false, true, false, false]
  const POLY_83: Bits := [true, true, false, false, false, false, false, true]
  const POLY_B8: Bits := [false, false, false, true, true, true, false, true]
  const POLY_ED: Bits := [true, false, true, true, false, true, true, true]

  lemma PolyBytes()
    ensures Value(POLY_20) == 0x20 && Value(POLY_83) == 0x83 && Value(POLY_B8) == 0xb8 && Value(POLY_ED) == 0xed
  {
    hide Value;
    ValueOfNibbles(POLY_20);
    ValueOfNibbles(POLY_83);
    ValueOfNibbles(POLY_B8);
    ValueOfNibbles(POLY_ED);
  }

  lemma ValueOfNibbles(b: Bits)
    requires |b| == 8
    ensures Value(b) == Nibble(b[0], b[1], b[2], b[3]) + 16 * Nibble(b[4], b[5], b[6], b[7])
  {
    hide Value;
    ValueOfNibble(b);
    ValueOfNibble(b[4..]);
    ValueOfNone(b[4..][4..]);
  }

  lemma ValueOfNone(b: Bits)
    requires b == []
    ensures Value(b) == 0
  {}

  lemma ValueOfNibble(b: Bits)
    requires |b| >= 4
    ensures Value(b) == Nibble(b[0], b[1], b[2], b[3]) + 16 * Value(b[4..])
  {
    assert b[1..][1..] == b[2..];
    assert b[2..][1..] == b[3..];
    assert b[3..][1..] == b[4..];
    assert Value(b[3..]) == (if b[3] then 1 else 0) + 2 * Value(b[4..]);
    assert Value(b[2..]) == (if b[2] then 1 else 0) + 2 * Value(b[3..]);
    assert Value(b[1..]) == (if b[1] then 1 else 0) + 2 * Value(b[2..]);
  }

  function Nibble(a: bool, b: bool, c: bool, d: bool): nat {
    (if a then 1 else 0) + (if b then 2 else 0) + (if c then 4 else 0) + (if d then 8 else 0)
  }

  // ---------------------------------------------------------------- the shift register

  predicate IsPoly(poly: Bits) {
    |poly| == WIDTH && poly[WIDTH - 1]
  }

  /** One division step: x is multiplied in, and the polynomial taken off if x^32 comes out. */
  function Step(poly: Bits, r: Bits): (r': Bits)
    requires |poly| == |r| == WIDTH
    ensures |r'| == WIDTH
  {
    Xor(r[1..] + [false], if r[0] then poly else Zeros(WIDTH))
  }

  function Steps(poly: Bits, r: Bits, n: nat): (r': Bits)
    requires |poly| == |r| == WIDTH
    ensures |r'| == WIDTH
  {
    if n == 0 then r else Step(poly, Steps(poly, r, n - 1))
  }

  /** A message bit added to the leading coefficient. */
  function Fed(r: Bits, bit: bool): (r': Bits)
    requires |r| == WIDTH
    ensures |r'| == WIDTH
  {
    r[0 := r[0] != bit]
  }

  /** The register after the bits of a message, one division step for each. */
  function Register(poly: Bits, r: Bits, m: Bits): (r': Bits)
    requires |poly| == |r| == WIDTH
    ensures |r'| == WIDTH
  {
    if m == [] then r else Step(poly, Fed(Register(poly, r, m[..|m| - 1]), m[|m| - 1]))
  }

  // ---------------------------------------------------------------- polynomial division

  /** x^32 and the polynomial, the highest term first. */
  function Full(poly: Bits): Bits {
    [true] + poly
  }

  /** x^32 + poly after `n` zeros, or zeros only. */
  function Taken(poly: Bits, n: nat, t: bool): (r: Bits)
    requires |poly| == WIDTH
    ensures |r| == n + WIDTH + 1
  {
    Zeros(n) + if t then Full(poly) else Zeros(WIDTH + 1)
  }

  /** The product of a polynomial `q` and x^32 + poly, the highest terms first. */
  function Times(poly: Bits, q: Bits): (r: Bits)
    requires |poly| == WIDTH
    ensures |r| == |q| + WIDTH
  {
    if q == [] then Zeros(WIDTH)
    else
      var n := |q| - 1;
      Xor(Times(poly, q[..n]) + [false], Taken(poly, n, q[n]))
  }

  /** The quotient bits that come out of the register. */
  function QuotientBits(poly: Bits, m: Bits): (q: Bits)
    requires |poly| == WIDTH
    ensures |q| == |m|
  {
    if m == [] then []
    else
      var n := |m| - 1;
      QuotientBits(poly, m[..n]) + [Register(poly, Zeros(WIDTH), m[..n])[0] != m[n]]
  }

  /** What the register holds is the remainder of the message times x^32, divided by the
      polynomial. */
  lemma {:induction false} RegisterIsRemainder(poly: Bits, m: Bits)
    requires |poly| == WIDTH
    ensures m + Zeros(WIDTH) == Xor(Times(poly, QuotientBits(poly, m)), Zeros(|m|) + Register(poly, Zeros(WIDTH), m))
  {
    hide Step, Fed, Full, Taken;
    if m == [] {
      assert [] + Zeros(WIDTH) == Zeros(WIDTH);
    } else {
      var n := |m| - 1;
      RegisterIsRemainder(poly, m[..n]);
      var q, r := QuotientBits(poly, m[..n]), Register(poly, Zeros(WIDTH), m[..n]);
      var t := r[0] != m[n];
      TimesNext(poly, q, t);
      RemainderStep(poly, m[..n], m[n], Times(poly, q), r, Step(poly, Fed(r, m[n])));
      hide Times;
      assert m[..n] + [m[n]] == m;
    }
  }

  lemma TimesNext(poly: Bits, q: Bits, t: bool)
    requires |poly| == WIDTH
    ensures Times(poly, q + [t]) == Xor(Times(poly, q) + [false], Taken(poly, |q|, t))
  {
    assert (q + [t])[..|q|] == q;
  }

  lemma RemainderStep(poly: Bits, m: Bits, bit: bool, product: Bits, r: Bits, r': Bits)
    requires |poly| == |r| == WIDTH && |product| == |m| + WIDTH && r' == Step(poly, Fed(r, bit))
    requires m + Zeros(WIDTH) == Xor(product, Zeros(|m|) + r)
    ensures m + [bit] + Zeros(WIDTH) == Xor(Xor(product + [false], Taken(poly, |m|, r[0] != bit)), Zeros(|m| + 1) + r')
  {
    hide Step, Fed, Taken;
    var right := Xor(Xor(product + [false], Taken(poly, |m|, r[0] != bit)), Zeros(|m| + 1) + r');
    forall i | 0 <= i < |right|
      ensures (m + [bit] + Zeros(WIDTH))[i] == right[i]
    {
      StepBit(poly, r, bit, i - |m| - 1);
      TakenBit(poly, |m|, r[0] != bit, i);
      DividendBit(m, product, r, i);
    }
  }

  lemma TakenBit(poly: Bits, n: nat, t: bool, i: nat)
    requires |poly| == WIDTH && i < n + WIDTH + 1
    ensures Taken(poly, n, t)[i] == (t && i >= n && (i == n || poly[i - n - 1]))
  {}

  lemma StepBit(poly: Bits, r: Bits, bit: bool, k: int)
    requires |poly| == |r| == WIDTH
    ensures 0 <= k < WIDTH ==>
      Step(poly, Fed(r, bit))[k] == ((k + 1 < WIDTH && r[k + 1]) != (r[0] != bit && poly[k]))
  {}

  lemma DividendBit(m: Bits, product: Bits, r: Bits, i: nat)
    requires |r| == WIDTH && |product| == |m| + WIDTH && m + Zeros(WIDTH) == Xor(product, Zeros(|m|) + r)
    ensures i < |m| + WIDTH ==> (i < |m| && m[i]) == (product[i] != (i >= |m| && r[i - |m|]))
  {
    if i < |m| + WIDTH { assert (m + Zeros(WIDTH))[i] == (product[i] != (Zeros(|m|) + r)[i]); }
  }

  // ---------------------------------------------------------------- linearity

  lemma StepXor(poly: Bits, a: Bits, b: Bits)
    requires |poly| == |a| == |b| == WIDTH
    ensures Step(poly, Xor(a, b)) == Xor(Step(poly, a), Step(poly, b))
  {}

  lemma {:induction false} StepsXor(poly: Bits, a: Bits, b: Bits, n: nat)
    requires |poly| == |a| == |b| == WIDTH
    ensures Steps(poly, Xor(a, b), n) == Xor(Steps(poly, a, n), Steps(poly, b, n))
  {
    hide Step;
    if n > 0 {
      StepsXor(poly, a, b, n - 1);
      StepXor(poly, Steps(poly, a, n - 1), Steps(poly, b, n - 1));
    }
  }

  /** Two messages from two registers. */
  lemma {:induction false} RegisterXor(poly: Bits, a: Bits, b: Bits, m: Bits, n: Bits)
    requires |poly| == |a| == |b| == WIDTH && |m| == |n|
    ensures Register(poly, Xor(a, b), Xor(m, n)) == Xor(Register(poly, a, m), Register(poly, b, n))
  {
    hide Step;
    if m != [] {
      var k := |m| - 1;
      RegisterXor(poly, a, b, m[..k], n[..k]);
      assert Xor(m, n)[..k] == Xor(m[..k], n[..k]);
      var x, y := Register(poly, a, m[..k]), Register(poly, b, n[..k]);
      assert Fed(Xor(x, y), m[k] != n[k]) == Xor(Fed(x, m[k]), Fed(y, n[k]));
      StepXor(poly, Fed(x, m[k]), Fed(y, n[k]));
    }
  }

  lemma {:induction false} RegisterConcat(poly: Bits, r: Bits, a: Bits, b: Bits)
    requires |poly| == |r| == WIDTH
    ensures Register(poly, r, a + b) == Register(poly, Register(poly, r, a), b)
  {
    hide Step;
    if b == [] {
      assert a + b == a;
    } else {
      var k := |b| - 1;
      assert (a + b)[..|a| + k] == a + b[..k];
      RegisterConcat(poly, r, a, b[..k]);
    }
  }

  /** Low zeros are shifted out. */
  lemma {:induction false} StepsShift(poly: Bits, h: Bits, n: nat)
    requires |poly| == WIDTH && |h| + n == WIDTH
    ensures Steps(poly, Zeros(n) + h, n) == h + Zeros(n)
    decreases n
  {
    if n > 0 {
      StepsOn(poly, Zeros(n) + h, n - 1);
      StepShift(poly, h, n);
      hide Steps, Step;
      StepsShift(poly, h + [false], n - 1);
      assert h + [false] + Zeros(n - 1) == h + Zeros(n);
    } else {
      assert Zeros(0) + h == h + Zeros(0);
    }
  }

  lemma StepShift(poly: Bits, h: Bits, n: nat)
    requires |poly| == WIDTH && |h| + n == WIDTH && n > 0
    ensures Step(poly, Zeros(n) + h) == Zeros(n - 1) + (h + [false])
  {}

  lemma {:induction false} StepsOn(poly: Bits, r: Bits, n: nat)
    requires |poly| == |r| == WIDTH
    ensures Steps(poly, r, n + 1) == Steps(poly, Step(poly, r), n)
  {
    hide Step;
    if n > 0 { StepsOn(poly, r, n - 1); }
  }

  /** A word of zeros but for one bit. */
  function OneBit(k: nat, bit: bool): (r: Bits)
    requires k < WIDTH
    ensures |r| == WIDTH
  {
    Zeros(WIDTH)[k := bit]
  }

  lemma StepsOneBit(poly: Bits, k: nat, bit: bool)
    requires |poly| == WIDTH && k < WIDTH
    ensures Steps(poly, OneBit(k, bit), k) == OneBit(0, bit)
  {
    hide Steps;
    var h := [bit] + Zeros(WIDTH - k - 1);
    assert OneBit(k, bit) == Zeros(k) + h;
    StepsShift(poly, h, k);
    assert h + Zeros(k) == OneBit(0, bit);
  }

  /** A short message at the low end of a word. */
  function Word(m: Bits): (r: Bits)
    requires |m| <= WIDTH
    ensures |r| == WIDTH
  {
    m + Zeros(WIDTH - |m|)
  }

  lemma WordOneMore(r: Bits, m: Bits)
    requires |r| == WIDTH && 0 < |m| <= WIDTH
    ensures Xor(r, Word(m)) == Xor(Xor(r, Word(m[..|m| - 1])), OneBit(|m| - 1, m[|m| - 1]))
  {}

  lemma FedXor(r: Bits, bit: bool)
    requires |r| == WIDTH
    ensures Fed(r, bit) == Xor(r, OneBit(0, bit))
  {}

  /** Up to 32 message bits can be added at once. */
  lemma {:induction false} RegisterAtOnce(poly: Bits, r: Bits, m: Bits)
    requires |poly| == |r| == WIDTH && |m| <= WIDTH
    ensures Register(poly, r, m) == Steps(poly, Xor(r, Word(m)), |m|)
  {
    hide Step, Fed, Word, OneBit;
    if m == [] {
      assert Xor(r, Word(m)) == r by { EmptyWord(r); }
    } else {
      var k := |m| - 1;
      RegisterAtOnce(poly, r, m[..k]);
      WordOneMore(r, m);
      StepsXor(poly, Xor(r, Word(m[..k])), OneBit(k, m[k]), k);
      StepsOneBit(poly, k, m[k]);
      FedXor(Steps(poly, Xor(r, Word(m[..k])), k), m[k]);
    }
  }

  lemma EmptyWord(r: Bits)
    requires |r| == WIDTH
    ensures Xor(r, Word([])) == r
  {}

  // ---------------------------------------------------------------- the table

  const TABLE_SIZE: nat := 256

  function TableEntry(poly: Bits, i: nat): (r: Bits)
    requires |poly| == WIDTH
    ensures |r| == WIDTH
  {
    Steps(poly, Binary(i, WIDTH), 8)
  }

  ghost predicate Filled(poly: Bits, table: seq<Bits>, n: nat) {
    |poly| == WIDTH && n <= |table| == TABLE_SIZE && forall i: nat :: i < n ==> table[i] == TableEntry(poly, i)
  }

  /** The division steps for one table entry. */
  method FillEntry(poly: Bits, i: nat) returns (r: Bits)
    requires |poly| == WIDTH
    ensures |r| == WIDTH && r == TableEntry(poly, i)
  {
    hide Steps, Step;
    r := Binary(i, WIDTH);
    var j := 0;
    StepsNone(poly, r);
    while j < 8
      invariant j <= 8 && |r| == WIDTH && r == Steps(poly, Binary(i, WIDTH), j)
    {
      StepsNext(poly, Binary(i, WIDTH), j);
      r := Xor(r[1..] + [false], if r[0] then poly else Zeros(WIDTH));
      j := j + 1;
    }
  }

  method FillTable(poly: Bits, table: array<Bits>)
    requires |poly| == WIDTH && table.Length == TABLE_SIZE
    modifies table
    ensures Filled(poly, table[..], TABLE_SIZE)
  {
    hide TableEntry;
    var i := 0;
    while i < TABLE_SIZE
      invariant i <= TABLE_SIZE && Filled(poly, table[..], i)
    {
      ghost var before := table[..];
      table[i] := FillEntry(poly, i);
      assert table[..] == before[i := table[i]];
      i := i + 1;
    }
  }

  lemma StepsNone(poly: Bits, r: Bits)
    requires |poly| == |r| == WIDTH
    ensures Steps(poly, r, 0) == r
  {}

  lemma StepsNext(poly: Bits, r: Bits, n: nat)
    requires |poly| == |r| == WIDTH
    ensures var s := Steps(poly, r, n);
      Steps(poly, r, n + 1) == Xor(s[1..] + [false], if s[0] then poly else Zeros(WIDTH))
  {}

  const INIT: Bits := Not(Zeros(WIDTH))

  /** 0xff000000. */
  const TOP: Bits := Zeros(24) + Not(Zeros(8))

  /** The checksum: the register is fed with the inverted message, and is itself inverted. */
  function Crc(c: Bits, m: Bits): (r: Bits)
    requires |c| == WIDTH
    ensures |r| == WIDTH
  {
    Not(Register(POLY, Not(c), Not(m)))
  }

  /** One table lookup does the work of eight division steps. */
  lemma TableStep(table: seq<Bits>, c: Bits, byte: Bits)
    requires Filled(POLY, table, TABLE_SIZE) && |c| == WIDTH && |byte| == 8
    ensures Value(Xor(c[..8], byte)) < TABLE_SIZE && |table[Value(Xor(c[..8], byte))]| == WIDTH
    ensures Crc(c, byte) == Xor(Xor(c[8..] + Zeros(8), table[Value(Xor(c[..8], byte))]), TOP)
  {
    hide Steps, Register, Binary, Value;
    var low := Xor(c[..8], byte);
    assert Pow2(8) == 256;
    BinaryValue(low, 24);
    var d, w := Not(c), Not(byte);
    RegisterAtOnce(POLY, d, w);
    assert Xor(d, Word(w)) == Xor(low + Zeros(24), Zeros(8) + d[8..]);
    StepsXor(POLY, low + Zeros(24), Zeros(8) + d[8..], 8);
    StepsShift(POLY, d[8..], 8);
    var entry := table[Value(low)];
    assert Not(Xor(entry, d[8..] + Zeros(8))) == Xor(Xor(c[8..] + Zeros(8), entry), TOP);
  }

  method Crc32Nand(table: array<Bits>, block: array<bool>, carry: Bits) returns (c: Bits)
    requires Filled(POLY, table[..], TABLE_SIZE) && block.Length % 8 == 0 && |carry| == WIDTH
    ensures |c| == WIDTH && c == Crc(carry, block[..])
  {
    hide Filled, Crc, Value, POLY;
    c := carry;
    assert block[..0] == [];
    CrcNothing(c);
    var i := 0;
    while i < block.Length / 8
      invariant i <= block.Length / 8 && |c| == WIDTH && c == Crc(carry, block[..8 * i])
    {
      var byte := block[8 * i..8 * i + 8];
      CrcConcat(carry, block[..8 * i], byte);
      assert block[..8 * i] + byte == block[..8 * (i + 1)];
      TableStep(table[..], c, byte);
      assert table.Length == TABLE_SIZE by { FilledSize(table[..]); }
      c := Xor(Xor(c[8..] + Zeros(8), table[Value(Xor(c[..8], byte))]), TOP);
      i := i + 1;
    }
    assert block[..8 * i] == block[..];
  }

  lemma FilledSize(table: seq<Bits>)
    requires Filled(POLY, table, TABLE_SIZE)
    ensures |table| == TABLE_SIZE
  {}

  lemma CrcNothing(c: Bits)
    requires |c| == WIDTH
    ensures Crc(c, []) == c
  {
    assert Not([]) == [];
    assert Not(Not(c)) == c;
  }

  /** A checksum can be carried from one part of a message to the next. */
  lemma CrcConcat(c: Bits, a: Bits, b: Bits)
    requires |c| == WIDTH
    ensures Crc(c, a + b) == Crc(Crc(c, a), b)
  {
    hide Register;
    assert Not(a + b) == Not(a) + Not(b);
    RegisterConcat(POLY, Not(c), Not(a), Not(b));
    var r := Register(POLY, Not(c), Not(a));
    assert Not(Not(r)) == r;
  }

  // ---------------------------------------------------------------- what the checksum promises

  lemma {:induction false} RegisterZeros(poly: Bits, n: nat)
    requires |poly| == WIDTH
    ensures Register(poly, Zeros(WIDTH), Zeros(n)) == Zeros(WIDTH)
  {
    if n > 0 {
      RegisterZeros(poly, n - 1);
      assert Zeros(n)[..n - 1] == Zeros(n - 1);
    }
  }

  /** Erased data of any length has the erased checksum. */
  lemma ErasedCrc(m: Bits)
    requires forall i :: 0 <= i < |m| ==> m[i]
    ensures Crc(INIT, m) == INIT
  {
    hide Register;
    assert Not(m) == Zeros(|m|) && Not(INIT) == Zeros(WIDTH);
    RegisterZeros(POLY, |m|);
  }

  lemma StepKeepsNonzero(poly: Bits, r: Bits)
    requires IsPoly(poly) && |r| == WIDTH && r != Zeros(WIDTH)
    ensures Step(poly, r) != Zeros(WIDTH)
  {
    var s := Step(poly, r);
    assert s[WIDTH - 1] == r[0];
    if !r[0] {
      var k :| 0 <= k < WIDTH && r[k];
      assert s[k - 1] == r[k];
    }
  }

  lemma {:induction false} StepsKeepNonzero(poly: Bits, r: Bits, n: nat)
    requires IsPoly(poly) && |r| == WIDTH && r != Zeros(WIDTH)
    ensures Steps(poly, r, n) != Zeros(WIDTH)
  {
    hide Step;
    if n > 0 {
      StepsKeepNonzero(poly, r, n - 1);
      StepKeepsNonzero(poly, Steps(poly, r, n - 1));
    }
  }

  /** Zeros shift the register. */
  lemma {:induction false} RegisterShift(poly: Bits, r: Bits, n: nat)
    requires |poly| == |r| == WIDTH
    ensures Register(poly, r, Zeros(n)) == Steps(poly, r, n)
  {
    hide Step;
    if n > 0 {
      RegisterShift(poly, r, n - 1);
      assert Zeros(n)[..n - 1] == Zeros(n - 1);
      var s := Steps(poly, r, n - 1);
      assert Fed(s, false) == s;
    }
  }

  /** An error burst of up to 32 bits, at any place, leaves its mark. */
  lemma BurstRegister(poly: Bits, before: nat, d: Bits, after: nat)
    requires IsPoly(poly) && |d| <= WIDTH && d != Zeros(|d|)
    ensures Register(poly, Zeros(WIDTH), Zeros(before) + d + Zeros(after)) != Zeros(WIDTH)
  {
    hide Register, Steps;
    var z := Zeros(WIDTH);
    RegisterConcat(poly, z, Zeros(before) + d, Zeros(after));
    RegisterConcat(poly, z, Zeros(before), d);
    RegisterZeros(poly, before);
    RegisterAtOnce(poly, z, d);
    assert Xor(z, Word(d)) == Word(d);
    var k :| 0 <= k < |d| && d[k];
    assert Word(d)[k];
    StepsKeepNonzero(poly, Word(d), |d|);
    RegisterShift(poly, Steps(poly, Word(d), |d|), after);
    StepsKeepNonzero(poly, Steps(poly, Word(d), |d|), after);
  }

  lemma XorSelf(x: Bits)
    ensures Xor(x, x) == Zeros(|x|)
  {}

  /** Messages that differ only inside 32 consecutive bits, which includes four consecutive bytes,
      have equal checksums only if they are equal. */
  lemma BurstDetected(c: Bits, before: Bits, a: Bits, b: Bits, after: Bits)
    requires |c| == WIDTH && |a| == |b| <= WIDTH
    ensures Crc(c, before + a + after) == Crc(c, before + b + after) <==> a == b
  {
    hide Register;
    if a != b {
      var m, n := before + a + after, before + b + after;
      var d := Xor(a, b);
      assert exists k :: 0 <= k < |d| && d[k];
      assert d != Zeros(|d|);
      BurstRegister(POLY, |before|, d, |after|);
      RegisterXor(POLY, Not(c), Not(c), Not(m), Not(n));
      assert Xor(Not(c), Not(c)) == Zeros(WIDTH);
      assert Xor(Not(m), Not(n)) == Zeros(|before|) + d + Zeros(|after|);
      var x, y := Register(POLY, Not(c), Not(m)), Register(POLY, Not(c), Not(n));
      XorSelf(x);
      assert Not(x) == Not(y) ==> Not(Not(x)) == Not(Not(y));
      assert Not(Not(x)) == x && Not(Not(y)) == y;
    }
  }

  /** The checksum of a message from the usual start is the inverted remainder of the inverted
      message, times x^32, by the polynomial. */
  lemma CrcIsRemainder(m: Bits)
    ensures var q := QuotientBits(POLY, Not(m));
      Not(m) + Zeros(WIDTH) == Xor(Times(POLY, q), Zeros(|m|) + Not(Crc(INIT, m)))
  {
    hide Register, Times, QuotientBits;
    RegisterIsRemainder(POLY, Not(m));
    assert Not(INIT) == Zeros(WIDTH);
    var r := Register(POLY, Zeros(WIDTH), Not(m));
    assert Not(Not(r)) == r;
  }
}
