/** The BCH codes for chunks of up to 1016 bytes: generation, verification and repair.

    Buffers are arrays of bits: bit p of a buffer is bit p % 8 of its byte p / 8. */
module Bch {
  import opened Gf13
  import opened Field
  import Tables
  import opened Polynomials
  import opened PowerSums
  import opened BitStrings
  import opened BchCode
  import opened Generators
  import opened BerlekampMassey
  import opened ErrorLocation

  predicate Layout(c: Code, chunk: array<bool>, ecc: array<bool>) {
    IsCode(c) && chunk.Length % 8 == 0 && ecc.Length == 8 * c.eccBytes && chunk != ecc
  }

  lemma CodeFacts(c: Code)
    requires IsCode(c)
    ensures Proper(Generator(c)) && |Generator(c)| == c.degree + 1 && Roots(Generator(c), c.syns)
    ensures 8 < c.degree <= 8 * c.eccBytes && c.syns <= MAX_SYNS && c.syns % 2 == 0
  {
    hide Generator, Roots, Proper;
    CodeRoots(c);
  }

  /** The checksum that belongs to a chunk; all bits are kept inverted. */
  function Checksum(c: Code, chunk: Bits): (r: Bits)
    requires IsCode(c) && |chunk| % 8 == 0
    ensures |r| == c.degree
  {
    CodeFacts(c);
    Remainder(Generator(c), Not(chunk))
  }

  /** The chunk agrees with the stored checksum. */
  predicate Consistent(c: Code, chunk: Bits, ecc: Bits)
    requires IsCode(c) && |chunk| % 8 == 0 && |ecc| == 8 * c.eccBytes
  {
    CodeFacts(c);
    Checksum(c, chunk) == Not(ecc[..c.degree])
  }

  /** Chunk and checksum as one word. */
  function Word(c: Code, chunk: Bits, ecc: Bits): (w: Bits)
    requires IsCode(c) && |ecc| == 8 * c.eccBytes
    ensures |w| == |chunk| + c.degree
  {
    CodeFacts(c);
    Not(chunk) + Not(ecc[..c.degree])
  }

  // ---------------------------------------------------------------- generation and verification

  /** Divides by x eight times, reducing by the generator. */
  method DivideByte(g: Bits, r: Bits) returns (r': Bits)
    requires Proper(g) && |r| == |g| - 1
    ensures r' == DividedBy(g, r, 8)
  {
    r' := r;
    var j := 0;
    while j < 8
      invariant j <= 8 && |r'| == |r| && r' == DividedBy(g, r, j)
    {
      r' := (if r'[0] then Xor(r' + [false], g) else r' + [false])[1..];
      j := j + 1;
    }
  }

  method ChunkRemainder(c: Code, chunk: array<bool>) returns (remainder: Bits)
    requires IsCode(c) && chunk.Length % 8 == 0
    ensures remainder == Checksum(c, chunk[..])
  {
    CodeFacts(c);
    var g := Generator(c);
    hide Generator, DividedBy, Divided;
    remainder := Zeros(c.degree);
    assert Not(chunk[..0]) == [];
    var i := 0;
    while i < chunk.Length / 8
      invariant i <= chunk.Length / 8 && |remainder| == c.degree
      invariant remainder == Remainder(g, Not(chunk[..8 * i]))
    {
      remainder := WithByte(g, remainder, Not(chunk[8 * i..8 * i + 8]));
      remainder := DivideByte(g, remainder);
      NextByte(chunk[..], i);
      i := i + 1;
    }
    assert chunk[..8 * i] == chunk[..];
  }

  lemma NextByte(a: Bits, i: nat)
    requires 8 * i + 8 <= |a|
    ensures var w := Not(a[..8 * (i + 1)]); w[..|w| - 8] == Not(a[..8 * i]) && w[|w| - 8..] == Not(a[8 * i..8 * i + 8])
  {}

  /** Stores a remainder, inverted; the bits beyond the degree are ones. */
  method PackPoly(c: Code, poly: Bits, ecc: array<bool>)
    requires IsCode(c) && |poly| == c.degree && ecc.Length == 8 * c.eccBytes
    modifies ecc
    ensures c.degree <= ecc.Length && Not(ecc[..c.degree]) == poly
    ensures forall i :: c.degree <= i < ecc.Length ==> ecc[i]
  {
    CodeFacts(c);
    var i := 0;
    while i < ecc.Length
      invariant i <= ecc.Length
      invariant forall j :: 0 <= j < i ==> ecc[j] == !(j < c.degree && poly[j])
    {
      ecc[i] := !(i < c.degree && poly[i]);
      i := i + 1;
    }
  }

  /** Reads a stored remainder, last byte first, and masks the bits beyond the degree. */
  method UnpackPoly(c: Code, ecc: array<bool>) returns (poly: Bits)
    requires IsCode(c) && ecc.Length == 8 * c.eccBytes
    ensures c.degree <= ecc.Length && poly == Not(ecc[..c.degree])
  {
    CodeFacts(c);
    poly := [];
    var i := c.eccBytes;
    while i > 0
      invariant 0 <= i <= c.eccBytes && poly == Not(ecc[8 * i..])
    {
      i := i - 1;
      poly := Not(ecc[8 * i..8 * i + 8]) + poly;
    }
    poly := poly[..c.degree];
  }

  method Generate(c: Code, chunk: array<bool>, ecc: array<bool>)
    requires Layout(c, chunk, ecc)
    modifies ecc
    ensures Consistent(c, chunk[..], ecc[..])
  {
    hide Checksum;
    var r := ChunkRemainder(c, chunk);
    PackPoly(c, r, ecc);
  }

  method Verify(c: Code, chunk: array<bool>, ecc: array<bool>) returns (r: int)
    requires Layout(c, chunk, ecc)
    ensures r == 0 || r == -1
    ensures r == 0 <==> Consistent(c, chunk[..], ecc[..])
  {
    hide Checksum;
    var remainder := ChunkRemainder(c, chunk);
    var poly := UnpackPoly(c, ecc);
    r := if remainder == poly then 0 else -1;
  }

  /** A consistent word is a code word. */
  lemma ConsistentEval(c: Code, chunk: Bits, ecc: Bits, j: nat)
    requires IsCode(c) && |chunk| % 8 == 0 && |ecc| == 8 * c.eccBytes && Consistent(c, chunk, ecc) && 1 <= j <= c.syns
    ensures Eval(Word(c, chunk, ecc), Pow(ALPHA, j)) == ZERO
  {
    CodeFacts(c);
    hide Generator, Eval, Pow, Remainder;
    CodewordEval(Generator(c), Not(chunk), Pow(ALPHA, j));
  }

  // ---------------------------------------------------------------- repair

  /** One syndrome: the received word evaluated at `x`. */
  method Syndrome(c: Code, chunk: array<bool>, remainder: Bits, x: Elem) returns (y: Elem)
    requires |remainder| == c.degree && x != ZERO
    ensures y == Eval(Not(chunk[..]) + remainder, x)
  {
    hide Add, Mul, If;
    y := ZERO;
    var t := ONE;
    ghost var w := Not(chunk[..]) + remainder;
    assert w[..0] == [];
    var i := 0;
    while i < chunk.Length
      invariant i <= chunk.Length && y == Eval(w[..i], x) && t == Pow(x, i) && t != ZERO
    {
      y, t := EvalRound(y, t, !chunk[i], x, w, i);
      i := i + 1;
    }
    var k := 0;
    while k < c.degree
      invariant k <= c.degree && i == chunk.Length && y == Eval(w[..i + k], x) && t == Pow(x, i + k) && t != ZERO
    {
      y, t := EvalRound(y, t, remainder[k], x, w, i + k);
      k := k + 1;
    }
    assert w[..i + k] == w;
  }

  method EvalRound(y: Elem, t: Elem, bit: bool, x: Elem, ghost w: Bits, ghost i: nat) returns (y': Elem, t': Elem)
    requires i < |w| && bit == w[i] && y == Eval(w[..i], x) && t == Pow(x, i) && x != ZERO && t != ZERO
    ensures y' == Eval(w[..i + 1], x) && t' == Pow(x, i + 1) && t' != ZERO
  {
    hide Add, Mul;
    AddZero(y);
    assert w[..i + 1][..i] == w[..i];
    y' := if bit then Add(y, t) else y;
    t' := Tables.Product(t, x);
  }

  /** Evaluates x * sigma(x). */
  method EvaluateLocator(sigma: array<Elem>, x: Elem) returns (sum: Elem)
    requires sigma.Length == MAX_POLY && x != ZERO
    ensures sum == SumAt(sigma[..], x, MAX_POLY)
  {
    hide Add, Mul;
    sum := ZERO;
    var t := x;
    PowFirst(x);
    var i := 0;
    while i < MAX_POLY
      invariant i <= MAX_POLY && sum == SumAt(sigma[..], x, i) && t == Pow(x, i + 1) && t != ZERO
    {
      var coefficient := sigma[i];
      if coefficient == ZERO {
        MulZero(t);
        AddZero(sum);
      } else {
        var product := Tables.Product(coefficient, t);
        sum := Add(sum, product);
      }
      t := Tables.Product(t, x);
      i := i + 1;
    }
  }

  /** The place of bit `p` of the word: the inverse of x^p. */
  ghost function Place(p: nat): (x: Elem) {
    Inverse(Pow(ALPHA, p))
  }

  lemma PlaceNonzero(p: nat)
    ensures Mul(Place(p), Pow(ALPHA, p)) == ONE && Place(p) != ZERO
  {
    hide Mul, Pow, Inverse;
    AlphaNonzero(p);
    MulInverse(Pow(ALPHA, p));
    MulZero(Pow(ALPHA, p));
    assert ONE != ZERO;
  }

  /** Divides by x: from the place of one bit to the next. */
  method NextPlace(x: Elem, ghost p: nat) returns (r: Elem)
    requires x == Place(p)
    ensures r == Place(p + 1)
  {
    hide Mul, Inverse, Div;
    PlaceNonzero(p);
    r := Tables.OverX(x);
    MulComm(ALPHA, Pow(ALPHA, p));
    MulAssoc(r, ALPHA, Pow(ALPHA, p));
    hide Pow;
    NextPow(ALPHA, p);
    AlphaNonzero(p + 1);
    Tables.DivIs(r, ONE, Pow(ALPHA, p + 1));
    DivOne(Pow(ALPHA, p + 1));
  }

  lemma DivOne(b: Elem)
    ensures Div(ONE, b) == Inverse(b)
  {
    hide Mul, Inverse;
    MulOne(Inverse(b));
  }

  lemma FirstPlace()
    ensures Place(0) == ONE
  {
    hide Mul, Inverse;
    MulInverse(ONE);
    MulOne(Inverse(ONE));
  }

  /** All syndromes of the received word. */
  method Syndromes(c: Code, chunk: array<bool>, ecc: array<bool>) returns (s: array<Elem>)
    requires Layout(c, chunk, ecc)
    ensures fresh(s) && s.Length == c.syns <= MAX_SYNS
    ensures forall k :: 0 <= k < c.syns ==> s[k] == Eval(Word(c, chunk[..], ecc[..]), Pow(ALPHA, k + 1))
  {
    hide Mul, Eval, MulX, Pow, IsCode, Not;
    CodeFacts(c);
    var remainder := UnpackPoly(c, ecc);
    ghost var w := Not(chunk[..]) + remainder;
    ghost var bits := chunk[..];
    s := new Elem[c.syns](i => ZERO);
    var x := ALPHA;
    PowFirst(ALPHA);
    var i := 0;
    while i < c.syns
      invariant i <= c.syns && x == Pow(ALPHA, i + 1) != ZERO && chunk[..] == bits && ecc[..] == old(ecc[..])
      invariant forall k :: 0 <= k < i ==> s[k] == Eval(w, Pow(ALPHA, k + 1))
    {
      var y := Syndrome(c, chunk, remainder, x);
      s[i] := y;
      MulXIsMul(x);
      MulComm(ALPHA, x);
      NextPow(ALPHA, i + 1);
      AlphaNonzero(i + 2);
      x := Tables.TimesX(x);
      i := i + 1;
    }
  }

  /** The original chunk and checksum agree, the received ones differ from them in at most
      `syns / 2` of the bits that count, and the word is short enough for the code. */
  ghost predicate Repairable(c: Code, chunk0: Bits, ecc0: Bits, chunk: Bits, ecc: Bits) {
    IsCode(c) && |chunk| == |chunk0| && |chunk| % 8 == 0 && |ecc| == |ecc0| == 8 * c.eccBytes &&
    Consistent(c, chunk0, ecc0) && |chunk| + c.degree <= ORDER &&
    2 * |Errors(Word(c, chunk0, ecc0), Word(c, chunk, ecc))| <= c.syns
  }

  lemma RepairableReceived(c: Code, chunk0: Bits, ecc0: Bits, chunk: Bits, ecc: Bits, s: Poly)
    requires Repairable(c, chunk0, ecc0, chunk, ecc) && |s| == c.syns
    requires forall k :: 0 <= k < c.syns ==> s[k] == Eval(Word(c, chunk, ecc), Pow(ALPHA, k + 1))
    ensures Received(Word(c, chunk0, ecc0), Word(c, chunk, ecc), c.syns, s)
  {
    hide Eval, Pow, Consistent, Errors, IsCode, Word;
    forall k: nat | k < c.syns
      ensures At(s, k) == Eval(Word(c, chunk, ecc), Pow(ALPHA, k + 1)) &&
        Eval(Word(c, chunk0, ecc0), Pow(ALPHA, k + 1)) == ZERO
    {
      ConsistentEval(c, chunk0, ecc0, k + 1);
    }
  }

  /** The locator vanishes at the place of bit `p`. */
  ghost predicate Vanishes(sigma: Poly, p: nat) {
    SumAt(sigma, Place(p), MAX_POLY) == ZERO
  }

  /** The locator vanishes at the places of the wrong bits. */
  ghost predicate Locates(sigma: Poly, w0: Bits, w: Bits) {
    |w0| == |w| && forall p: nat :: p < |w| ==> (Vanishes(sigma, p) <==> w0[p] != w[p])
  }

  lemma LocatesErrors(w0: Bits, w: Bits, syns: nat, s: Poly, g: Poly, l: nat, sigma: Poly)
    requires Received(w0, w, syns, s) && Generates(g, l, s, syns) && At(g, 0) == ONE && Degree(g, l)
    requires l <= |Errors(w0, w)| && 2 * |Errors(w0, w)| <= syns <= MAX_SYNS && sigma == FirstHalf(g)
    ensures Locates(sigma, w0, w)
  {
    hide Mul, Pow, Eval, Conv, SumAt, Rev, Errors, Place;
    forall p: nat | p < |w|
      ensures Vanishes(sigma, p) <==> w0[p] != w[p]
    {
      PlaceNonzero(p);
      SameLocator(g, l, sigma, Place(p));
      SumAtRoot(g, Place(p), Pow(ALPHA, p), l, MAX_POLY);
      RootsAreErrors(w0, w, syns, s, g, l, p);
    }
  }

  /** Eight coefficients are enough. */
  lemma SameLocator(g: Poly, l: nat, sigma: Poly, x: Elem)
    requires Degree(g, l) && l < 8 && sigma == FirstHalf(g)
    ensures SumAt(sigma, x, MAX_POLY) == SumAt(g, x, MAX_POLY)
  {
    hide SumAt;
    SumAtSame(g, sigma, x, MAX_POLY);
  }

  /** Flips bit `i` of a buffer, bit `p` of the word, if the locator vanishes there. */
  method FlipIfError(sigma: array<Elem>, x: Elem, bits: array<bool>, i: nat, ghost p: nat)
    requires sigma.Length == MAX_POLY && sigma as object != bits as object && i < bits.Length
    requires x == Place(p)
    modifies bits
    ensures forall j :: 0 <= j < bits.Length && j != i ==> bits[j] == old(bits[j])
    ensures bits[i] == (old(bits[i]) != Vanishes(old(sigma[..]), p))
  {
    hide Mul, Pow, SumAt, Place;
    PlaceNonzero(p);
    var sum := EvaluateLocator(sigma, x);
    if sum == ZERO {
      bits[i] := !bits[i];
    }
  }

  /** Flips exactly those of the first `count` bits of a buffer, which are the bits of the word from
      `p` on, at whose places the locator vanishes. */
  method RepairBuffer(sigma: array<Elem>, x: Elem, bits: array<bool>, count: nat, ghost p: nat) returns (x': Elem)
    requires sigma.Length == MAX_POLY && sigma as object != bits as object && count <= bits.Length
    requires x == Place(p)
    modifies bits
    ensures x' == Place(p + count)
    ensures forall i :: 0 <= i < bits.Length ==>
      bits[i] == (old(bits[i]) != (i < count && Vanishes(old(sigma[..]), p + i)))
  {
    hide Vanishes, Place;
    ghost var poly := sigma[..];
    x' := x;
    var i := 0;
    while i < count
      invariant i <= count && x' == Place(p + i) && sigma[..] == poly
      invariant forall j :: i <= j < bits.Length ==> bits[j] == old(bits[j])
      invariant forall j :: 0 <= j < i ==> bits[j] == (old(bits[j]) != Vanishes(poly, p + j))
    {
      FlipIfError(sigma, x', bits, i, p + i);
      x' := NextPlace(x', p + i);
      i := i + 1;
    }
  }

  /** The received word at the first `n` powers of x. */
  ghost function SyndromeValues(w: Bits, n: nat): (s: Poly)
    ensures |s| == n && forall k :: 0 <= k < n ==> s[k] == Eval(w, Pow(ALPHA, k + 1))
  {
    seq(n, k requires 0 <= k < n => Eval(w, Pow(ALPHA, k + 1)))
  }

  /** Repairs chunk and checksum in place: flips the bits at whose places the locator vanishes, the first
      coefficients of a shortest recurrence `g` of the syndromes.  If they can be repaired, they end up
      as they were. */
  method Repair(c: Code, chunk: array<bool>, ecc: array<bool>, ghost chunk0: Bits, ghost ecc0: Bits)
    returns (ghost g: Poly, ghost l: nat)
    requires Layout(c, chunk, ecc)
    modifies chunk, ecc
    ensures Recurrence(SyndromeValues(Word(c, old(chunk[..]), old(ecc[..])), c.syns), c.syns, g, l)
    ensures forall i :: 0 <= i < chunk.Length ==> chunk[i] == (old(chunk[i]) != Vanishes(FirstHalf(g), i))
    ensures forall i :: 0 <= i < ecc.Length ==>
      ecc[i] == (old(ecc[i]) != (i < c.degree && Vanishes(FirstHalf(g), chunk.Length + i)))
    ensures Repairable(c, chunk0, ecc0, old(chunk[..]), old(ecc[..])) ==>
      chunk[..] == chunk0 && c.degree <= ecc.Length && ecc[..c.degree] == ecc0[..c.degree] &&
        Consistent(c, chunk[..], ecc[..])
  {
    hide Mul, Pow, Eval, Locates, Repairable, IsCode, Vanishes, Place, Recurrence, FirstHalf, Word, SyndromeValues;
    hide Consistent;
    CodeFacts(c);
    ghost var w0, w := Word0(c, chunk0, ecc0), Word(c, chunk[..], ecc[..]);
    ghost var can := Repairable(c, chunk0, ecc0, chunk[..], ecc[..]);
    var sigma;
    sigma, g, l := FindLocator(c, chunk, ecc, chunk0, ecc0);
    FirstPlace();
    var x := RepairBuffer(sigma, ONE, chunk, chunk.Length, 0);
    x := RepairBuffer(sigma, x, ecc, c.degree, chunk.Length);
    if can {
      RepairableSizes(c, chunk0, ecc0, old(chunk[..]), old(ecc[..]));
      Corrected(c, chunk0, ecc0, old(chunk[..]), old(ecc[..]), chunk[..], ecc[..], FirstHalf(g));
      Restored(c, chunk0, ecc0, chunk[..], ecc[..]);
    }
  }

  /** With the right bits flipped the word is the original one. */
  lemma Corrected(c: Code, chunk0: Bits, ecc0: Bits, chunk: Bits, ecc: Bits, chunk': Bits, ecc': Bits, sigma: Poly)
    requires IsCode(c) && |chunk| == |chunk'| && |ecc| == |ecc'| == |ecc0| == 8 * c.eccBytes && c.degree <= |ecc|
    requires Locates(sigma, Word(c, chunk0, ecc0), Word(c, chunk, ecc)) && |chunk0| == |chunk|
    requires forall i :: 0 <= i < |chunk| ==> chunk'[i] == (chunk[i] != Vanishes(sigma, i))
    requires forall i :: 0 <= i < |ecc| ==> ecc'[i] == (ecc[i] != (i < c.degree && Vanishes(sigma, |chunk| + i)))
    ensures forall i :: 0 <= i < |chunk| ==> Word(c, chunk0, ecc0)[i] == !chunk'[i]
    ensures forall i :: 0 <= i < c.degree ==> Word(c, chunk0, ecc0)[|chunk| + i] == !ecc'[i]
  {
    hide IsCode, Vanishes;
    var w0, w := Word(c, chunk0, ecc0), Word(c, chunk, ecc);
    forall i | 0 <= i < |chunk| ensures w0[i] == !chunk'[i] { assert w[i] == !chunk[i]; }
    forall i | 0 <= i < c.degree ensures w0[|chunk| + i] == !ecc'[i] { assert w[|chunk| + i] == !ecc[i]; }
  }

  /** The original word, or anything if there is none. */
  ghost function Word0(c: Code, chunk0: Bits, ecc0: Bits): Bits
    requires IsCode(c)
  {
    if |ecc0| == 8 * c.eccBytes then Word(c, chunk0, ecc0) else []
  }

  lemma RepairableSizes(c: Code, chunk0: Bits, ecc0: Bits, chunk: Bits, ecc: Bits)
    requires Repairable(c, chunk0, ecc0, chunk, ecc)
    ensures |chunk| == |chunk0| && |ecc| == |ecc0| == 8 * c.eccBytes && |chunk| % 8 == 0 && IsCode(c)
    ensures Consistent(c, chunk0, ecc0)
  {
    hide Consistent, Errors;
  }

  lemma Restored(c: Code, chunk0: Bits, ecc0: Bits, chunk: Bits, ecc: Bits)
    requires IsCode(c) && |chunk| == |chunk0| && |ecc| == |ecc0| == 8 * c.eccBytes && |chunk| % 8 == 0
    requires Consistent(c, chunk0, ecc0)
    requires forall i :: 0 <= i < |chunk| ==> Word(c, chunk0, ecc0)[i] == !chunk[i]
    requires c.degree <= |ecc| && forall i :: 0 <= i < c.degree ==> Word(c, chunk0, ecc0)[|chunk| + i] == !ecc[i]
    ensures chunk == chunk0 && ecc[..c.degree] == ecc0[..c.degree] && Consistent(c, chunk, ecc)
  {
    hide IsCode, Checksum;
    CodeFacts(c);
    var w := Word(c, chunk0, ecc0);
    forall i | 0 <= i < |chunk| ensures chunk[i] == chunk0[i] { assert w[i] == !chunk0[i]; }
    forall i | 0 <= i < c.degree ensures ecc[i] == ecc0[i] { assert w[|chunk| + i] == !ecc0[i]; }
  }

  /** Computes the syndromes and the error locator. */
  method FindLocator(c: Code, chunk: array<bool>, ecc: array<bool>, ghost chunk0: Bits, ghost ecc0: Bits)
    returns (sigma: array<Elem>, ghost g: Poly, ghost l: nat)
    requires Layout(c, chunk, ecc)
    ensures fresh(sigma) && sigma.Length == MAX_POLY && sigma[..] == FirstHalf(g)
    ensures Recurrence(SyndromeValues(Word(c, chunk[..], ecc[..]), c.syns), c.syns, g, l)
    ensures Repairable(c, chunk0, ecc0, chunk[..], ecc[..]) ==>
      Locates(sigma[..], Word0(c, chunk0, ecc0), Word(c, chunk[..], ecc[..]))
  {
    hide Mul, Pow, Eval, Locates, Repairable, IsCode, Generates, Degree, Errors, Word, Received;
    CodeFacts(c);
    ghost var bits, checks := chunk[..], ecc[..];
    ghost var w0, w := Word0(c, chunk0, ecc0), Word(c, bits, checks);
    ghost var can := Repairable(c, chunk0, ecc0, bits, checks);
    var s := Syndromes(c, chunk, ecc);
    sigma := new Elem[MAX_POLY](i => ZERO);
    g, l := FindRecurrence(s, c.syns, sigma);
    assert s[..] == SyndromeValues(w, c.syns);
    if can {
      RepairableSizes(c, chunk0, ecc0, bits, checks);
      RepairableReceived(c, chunk0, ecc0, bits, checks, s[..]);
      FewErrors(c, chunk0, ecc0, bits, checks);
      LocatorPredicts(w0, w, c.syns, s[..]);
      LocatesErrors(w0, w, c.syns, s[..], g, l, sigma[..]);
    }
  }

  lemma FewErrors(c: Code, chunk0: Bits, ecc0: Bits, chunk: Bits, ecc: Bits)
    requires Repairable(c, chunk0, ecc0, chunk, ecc)
    ensures 2 * |Errors(Word(c, chunk0, ecc0), Word(c, chunk, ecc))| <= c.syns
  {
    hide Consistent, Errors;
  }
}
