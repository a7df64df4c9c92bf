/** Words of bits as polynomials, and the words that the generator divides. */
module BchCode {
  import opened Gf13
  import opened Field
  import opened Polynomials
  import opened PowerSums
  import opened BitStrings

  /** The value at `x` of the polynomial with these bits, the constant term first. */
  function Eval(w: Bits, x: Elem): Elem {
    if w == [] then ZERO else Add(Eval(w[..|w| - 1], x), If(w[|w| - 1], Pow(x, |w| - 1)))
  }

  lemma {:induction false} EvalXor(a: Bits, b: Bits, x: Elem)
    requires |a| == |b|
    ensures Eval(Xor(a, b), x) == Add(Eval(a, x), Eval(b, x))
  {
    hide Add, Pow, If;
    if a == [] {
      AddZero(ZERO);
    } else {
      var n := |a| - 1;
      EvalXor(a[..n], b[..n], x);
      assert Xor(a, b)[..n] == Xor(a[..n], b[..n]);
      IfAdd(a[n], b[n], Pow(x, n));
      AddSwap(Eval(a[..n], x), Eval(b[..n], x), If(a[n], Pow(x, n)), If(b[n], Pow(x, n)));
    }
  }

  lemma {:induction false} EvalConcat(a: Bits, b: Bits, x: Elem)
    ensures Eval(a + b, x) == Add(Eval(a, x), Mul(Pow(x, |a|), Eval(b, x)))
  {
    hide Add, Pow, If, Mul;
    if b == [] {
      assert a + b == a;
      MulZero(Pow(x, |a|));
      AddZero(Eval(a, x));
    } else {
      var n := |b| - 1;
      EvalConcat(a, b[..n], x);
      assert (a + b)[..|a| + n] == a + b[..n];
      var p := Pow(x, |a|);
      PowAdd(x, |a|, n);
      MulIf(p, b[n], Pow(x, n));
      MulAddRight(p, Eval(b[..n], x), If(b[n], Pow(x, n)));
      AddAssoc(Eval(a, x), Mul(p, Eval(b[..n], x)), If(b[n], Pow(x, |a| + n)));
    }
  }

  lemma {:induction false} EvalZeros(n: nat, x: Elem)
    ensures Eval(Zeros(n), x) == ZERO
  {
    hide Add, Pow;
    AddZero(ZERO);
    if n > 0 {
      assert Zeros(n)[..n - 1] == Zeros(n - 1);
      EvalZeros(n - 1, x);
    }
  }

  lemma EvalPadded(a: Bits, n: nat, x: Elem)
    ensures Eval(a + Zeros(n), x) == Eval(a, x)
  {
    hide Add, Pow, Mul, Eval;
    EvalConcat(a, Zeros(n), x);
    EvalZeros(n, x);
    MulZero(Pow(x, |a|));
    AddZero(Eval(a, x));
  }

  /** Taking out a factor of x. */
  lemma EvalTail(w: Bits, x: Elem)
    requires w != [] && !w[0]
    ensures Eval(w, x) == Mul(x, Eval(w[1..], x))
  {
    hide Add, Pow, Mul;
    assert w == w[..1] + w[1..];
    EvalConcat(w[..1], w[1..], x);
    PowFirst(x);
    assert w[..1][..0] == [];
    assert Eval(w[..1], x) == ZERO by { OneFalse(w[..1], x); }
    AddZero(Mul(x, Eval(w[1..], x)));
  }

  lemma OneFalse(w: Bits, x: Elem)
    requires |w| == 1 && !w[0]
    ensures Eval(w, x) == ZERO
  {
    hide Add, Pow;
    AddZero(ZERO);
    assert w[..0] == [];
    assert Eval(w[..0], x) == ZERO;
  }

  // ---------------------------------------------------------------- remainders

  /** A generator, constant term first, with its first and last bits set. */
  predicate Proper(g: Bits) {
    |g| > 8 && g[0] && g[|g| - 1]
  }

  /** One division step: the generator is added if the lowest bit is set, and x divided out. */
  function Divided(g: Bits, r: Bits): (r': Bits)
    requires Proper(g) && |r| == |g| - 1
    ensures |r'| == |r|
  {
    (if r[0] then Xor(r + [false], g) else r + [false])[1..]
  }

  function DividedBy(g: Bits, r: Bits, n: nat): (r': Bits)
    requires Proper(g) && |r| == |g| - 1
    ensures |r'| == |r|
  {
    if n == 0 then r else Divided(g, DividedBy(g, r, n - 1))
  }

  /** The eight bits of a byte added to the low bits. */
  function WithByte(g: Bits, r: Bits, byte: Bits): (r': Bits)
    requires Proper(g) && |r| == |g| - 1 && |byte| == 8
    ensures |r'| == |r|
  {
    Xor(r, byte + Zeros(|r| - 8))
  }

  /** The remainder of a word of whole bytes. */
  function Remainder(g: Bits, w: Bits): (r: Bits)
    requires Proper(g) && |w| % 8 == 0
    ensures |r| == |g| - 1
  {
    if w == [] then Zeros(|g| - 1)
    else DividedBy(g, WithByte(g, Remainder(g, w[..|w| - 8]), w[|w| - 8..]), 8)
  }

  lemma DividedEval(g: Bits, r: Bits, x: Elem)
    requires Proper(g) && |r| == |g| - 1 && Eval(g, x) == ZERO
    ensures Mul(x, Eval(Divided(g, r), x)) == Eval(r, x)
  {
    hide Add, Pow, Mul, Eval;
    var w := r + [false];
    assert [false] == Zeros(1);
    EvalPadded(r, 1, x);
    if r[0] {
      EvalXor(w, g, x);
      AddZero(Eval(w, x));
      EvalTail(Xor(w, g), x);
    } else {
      EvalTail(w, x);
    }
  }

  lemma {:induction false} DividedByEval(g: Bits, r: Bits, x: Elem, n: nat)
    requires Proper(g) && |r| == |g| - 1 && Eval(g, x) == ZERO
    ensures Mul(Pow(x, n), Eval(DividedBy(g, r, n), x)) == Eval(r, x)
  {
    hide Add, Mul, Eval, Pow;
    if n == 0 {
      PowFirst(x);
      MulOne(Eval(r, x));
    } else {
      DividedByEval(g, r, x, n - 1);
      var q := DividedBy(g, r, n - 1);
      DividedEval(g, q, x);
      NextPow(x, n - 1);
      MulAssoc(Pow(x, n - 1), x, Eval(Divided(g, q), x));
    }
  }

  /** At a root of the generator, a word is worth its remainder moved up by its length. */
  lemma {:induction false} RemainderEval(g: Bits, w: Bits, x: Elem)
    requires Proper(g) && |w| % 8 == 0 && Eval(g, x) == ZERO
    ensures Mul(Pow(x, |w|), Eval(Remainder(g, w), x)) == Eval(w, x)
  {
    hide Add, Mul, Eval, Pow;
    if w == [] {
      EvalZeros(|g| - 1, x);
      MulZero(Pow(x, 0));
      assert w == Zeros(0);
      EvalZeros(0, x);
    } else {
      var n := |w| - 8;
      var front, byte := w[..n], w[n..];
      RemainderEval(g, front, x);
      var r := Remainder(g, front);
      var b := byte + Zeros(|r| - 8);
      EvalPadded(byte, |r| - 8, x);
      EvalXor(r, b, x);
      DividedByEval(g, Xor(r, b), x, 8);
      var p := Pow(x, n);
      PowAdd(x, n, 8);
      MulAssoc(p, Pow(x, 8), Eval(Remainder(g, w), x));
      MulAddRight(p, Eval(r, x), Eval(byte, x));
      assert w == front + byte;
      EvalConcat(front, byte, x);
    }
  }

  /** A word followed by its remainder vanishes at every root of the generator. */
  lemma CodewordEval(g: Bits, w: Bits, x: Elem)
    requires Proper(g) && |w| % 8 == 0 && Eval(g, x) == ZERO
    ensures Eval(w + Remainder(g, w), x) == ZERO
  {
    hide Add, Mul, Eval, Pow, Remainder;
    RemainderEval(g, w, x);
    EvalConcat(w, Remainder(g, w), x);
    AddSelf(Eval(w, x));
  }

  // ---------------------------------------------------------------- error locations

  /** The powers of x that stand for the set bits. */
  function Locations(e: Bits): (xs: seq<Elem>)
    ensures |xs| <= |e|
  {
    if e == [] then []
    else Locations(e[..|e| - 1]) + (if e[|e| - 1] then [Pow(ALPHA, |e| - 1)] else [])
  }

  lemma {:induction false} LocationAt(e: Bits, k: nat) returns (p: nat)
    requires k < |Locations(e)|
    ensures p < |e| && e[p] && Locations(e)[k] == Pow(ALPHA, p)
  {
    hide Pow;
    var n := |e| - 1;
    if k < |Locations(e[..n])| {
      p := LocationAt(e[..n], k);
    } else {
      p := n;
    }
  }

  lemma {:induction false} LocationOf(e: Bits, p: nat) returns (k: nat)
    requires p < |e| && e[p]
    ensures k < |Locations(e)| && Locations(e)[k] == Pow(ALPHA, p)
  {
    hide Pow;
    var n := |e| - 1;
    if p < n {
      k := LocationOf(e[..n], p);
    } else {
      k := |Locations(e[..n])|;
    }
  }

  lemma {:induction false} LocationsDistinct(e: Bits)
    requires |e| <= ORDER
    ensures DistinctSeq(Locations(e))
  {
    hide Pow;
    if e != [] {
      var n := |e| - 1;
      LocationsDistinct(e[..n]);
      forall k | 0 <= k < |Locations(e[..n])|
        ensures Locations(e[..n])[k] != Pow(ALPHA, n)
      {
        var p := LocationAt(e[..n], k);
        Distinct(p, n);
      }
    }
  }

  /** The value of the error word at x^j is a power sum of the locations. */
  lemma {:induction false} EvalLocations(e: Bits, j: nat)
    ensures Eval(e, Pow(ALPHA, j)) == PowerSum(Locations(e), j)
  {
    hide Add, Mul, Pow;
    if e != [] {
      var n := |e| - 1;
      EvalLocations(e[..n], j);
      PowMul(ALPHA, j, n);
      PowMul(ALPHA, n, j);
      assert j * n == n * j;
      var xs := Locations(e[..n]);
      if e[n] {
        assert (xs + [Pow(ALPHA, n)])[..|xs|] == xs;
      } else {
        AddZero(Eval(e[..n], Pow(ALPHA, j)));
        assert Locations(e) == xs;
      }
    }
  }
}
