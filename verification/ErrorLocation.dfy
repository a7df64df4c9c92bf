/** The recurrence of the syndromes tells where the errors are. */
module ErrorLocation {
  import opened Gf13
  import opened Field
  import opened Polynomials
  import opened PowerSums
  import opened BitStrings
  import opened BchCode

  /** `w0` is a code word with roots 1 to `syns`; `s` holds the syndromes of `w`. */
  ghost predicate Received(w0: Bits, w: Bits, syns: nat, s: Poly) {
    |w0| == |w| <= ORDER && |s| == syns &&
    forall k: nat {:trigger At(s, k)} :: k < syns ==>
      At(s, k) == Eval(w, Pow(ALPHA, k + 1)) && Eval(w0, Pow(ALPHA, k + 1)) == ZERO
  }

  function Errors(w0: Bits, w: Bits): seq<Elem>
    requires |w0| == |w|
  {
    Locations(Xor(w0, w))
  }

  /** The syndromes are power sums of the error locations. */
  lemma SyndromesAreSums(w0: Bits, w: Bits, syns: nat, s: Poly)
    requires Received(w0, w, syns, s)
    ensures Sums(s, Errors(w0, w))
  {
    hide Add, Mul, Pow, Eval, PowerSum;
    forall k: nat | k < |s|
      ensures At(s, k) == PowerSum(Errors(w0, w), k + 1)
    {
      EvalXor(w0, w, Pow(ALPHA, k + 1));
      EvalLocations(Xor(w0, w), k + 1);
      AddZero(At(s, k));
    }
  }

  /** The locator of the errors predicts all syndromes. */
  lemma LocatorPredicts(w0: Bits, w: Bits, syns: nat, s: Poly)
    requires Received(w0, w, syns, s)
    ensures Generates(Locator(Errors(w0, w)), |Errors(w0, w)|, s, syns) && At(Locator(Errors(w0, w)), 0) == ONE
  {
    hide Add, Mul, Pow, Eval, PowerSum, Conv, Rev, Locator, AllConv;
    var xs := Errors(w0, w);
    var v := |xs|;
    SyndromesAreSums(w0, w, syns, s);
    LocatorFirst(xs);
    forall k | 0 <= k < v
      ensures Rev(Locator(xs), v, xs[k]) == ZERO
    {
      LocatorRoots(xs, k);
    }
    var n := v + 1;
    forall k: int | v <= k < syns
      ensures Conv(Locator(xs), s, k, n) == ZERO
    {
      ConvSums(Locator(xs), s, xs, k, v + 1);
      RootsPredict(Locator(xs), xs, k, v);
    }
  }

  /** A predictor no longer than the number of errors vanishes at every error location. */
  lemma ErrorsAreRoots(w0: Bits, w: Bits, syns: nat, s: Poly, c: Poly, l: nat)
    requires Received(w0, w, syns, s) && Generates(c, l, s, syns) && l <= |Errors(w0, w)| && 2 * |Errors(w0, w)| <= syns
    ensures forall k :: 0 <= k < |Errors(w0, w)| ==> Rev(c, l, Errors(w0, w)[k]) == ZERO
  {
    hide Add, Mul, Pow, Eval, PowerSum, Conv, Rev, AllConv, Weighted, Locations;
    var xs := Errors(w0, w);
    SyndromesAreSums(w0, w, syns, s);
    var a := Weights(c, l, xs);
    forall e: nat | e < |xs|
      ensures Weighted(a, xs, e) == ZERO
    {
      assert Conv(c, s, l + e, l + 1) == ZERO;
      ConvSums(c, s, xs, l + e, l + 1);
      AllConvWeighted(c, xs, l + e, l, a);
    }
    LocationsDistinct(Xor(w0, w));
    Independent(a, xs);
    forall k | 0 <= k < |xs|
      ensures Rev(c, l, xs[k]) == ZERO
    {
      assert a[k] == ZERO;
      NoZeroDivisors(xs[k], Rev(c, l, xs[k]));
      var p := LocationAt(Xor(w0, w), k);
      PowNonzero(p);
    }
  }

  /** Such a predictor vanishes at x^p exactly when bit `p` is wrong. */
  lemma RootsAreErrors(w0: Bits, w: Bits, syns: nat, s: Poly, c: Poly, l: nat, p: nat)
    requires Received(w0, w, syns, s) && Generates(c, l, s, syns) && At(c, 0) == ONE
    requires l <= |Errors(w0, w)| && 2 * |Errors(w0, w)| <= syns && p < |w|
    ensures Rev(c, l, Pow(ALPHA, p)) == ZERO <==> w0[p] != w[p]
  {
    hide Add, Mul, Pow, Eval, Conv, Rev, Locations;
    var e := Xor(w0, w);
    var xs := Errors(w0, w);
    ErrorsAreRoots(w0, w, syns, s, c, l);
    if e[p] {
      var k := LocationOf(e, p);
    } else if Rev(c, l, Pow(ALPHA, p)) == ZERO {
      var ys := xs + [Pow(ALPHA, p)];
      LocationsDistinct(e);
      forall k | 0 <= k < |xs|
        ensures xs[k] != Pow(ALPHA, p)
      {
        var q := LocationAt(e, k);
        if q < p { Distinct(q, p); } else { Distinct(p, q); }
      }
      RootBound(c, l, ys);
    }
  }

  // ---------------------------------------------------------------- evaluating at the inverse

  /** The sum of p_i * x^(i+1) for i < n. */
  function SumAt(p: Poly, x: Elem, n: nat): Elem {
    if n == 0 then ZERO else Add(SumAt(p, x, n - 1), Mul(At(p, n - 1), Pow(x, n)))
  }

  lemma {:induction false} SumAtRev(c: Poly, x: Elem, y: Elem, l: nat)
    requires Mul(x, y) == ONE
    ensures SumAt(c, x, l + 1) == Mul(Rev(c, l, y), Pow(x, l + 1))
  {
    hide Add, Mul, Pow;
    if l == 0 {
      AddZero(Mul(At(c, 0), Pow(x, 1)));
      assert SumAt(c, x, 0) == ZERO;
    } else {
      SumAtRev(c, x, y, l - 1);
      var r, q := Rev(c, l - 1, y), Pow(x, l);
      NextPow(x, l);
      MulAddLeft(Mul(y, r), At(c, l), Pow(x, l + 1));
      MulComm(q, x);
      MulComm(y, r);
      MulAssoc(r, y, Mul(x, q));
      MulAssoc(y, x, q);
      MulComm(x, y);
      MulOne(q);
    }
  }

  lemma {:induction false} SumAtTail(c: Poly, x: Elem, l: nat, n: nat)
    requires Degree(c, l) && n > l
    ensures SumAt(c, x, n) == SumAt(c, x, l + 1)
  {
    hide Add, Mul, Pow;
    if n > l + 1 {
      SumAtTail(c, x, l, n - 1);
      MulZero(Pow(x, n));
      AddZero(SumAt(c, x, n - 1));
    }
  }

  lemma {:induction false} SumAtSame(c: Poly, d: Poly, x: Elem, n: nat)
    requires forall i: int {:trigger At(c, i)} :: 0 <= i < n ==> At(d, i) == At(c, i)
    ensures SumAt(d, x, n) == SumAt(c, x, n)
  {
    hide Add, Mul, Pow;
    if n > 0 {
      SumAtSame(c, d, x, n - 1);
      assert At(d, n - 1) == At(c, n - 1);
    }
  }

  /** The polynomial vanishes at `x` exactly when, reversed, it does at the inverse. */
  lemma SumAtRoot(c: Poly, x: Elem, y: Elem, l: nat, n: nat)
    requires Mul(x, y) == ONE && Degree(c, l) && n > l
    ensures SumAt(c, x, n) == ZERO <==> Rev(c, l, y) == ZERO
  {
    hide Add, Mul, Pow, Rev, SumAt, Degree;
    SumAtTail(c, x, l, n);
    SumAtRev(c, x, y, l);
    NoZeroDivisors(Rev(c, l, y), Pow(x, l + 1));
    InversePow(x, y, l + 1);
  }

  lemma {:induction false} InversePow(x: Elem, y: Elem, n: nat)
    requires Mul(x, y) == ONE
    ensures Mul(Pow(x, n), Pow(y, n)) == ONE && Pow(x, n) != ZERO
  {
    hide Mul;
    assert ONE != ZERO;
    if n == 0 {
      MulOne(ONE);
    } else {
      InversePow(x, y, n - 1);
      MulSwap(Pow(x, n - 1), x, Pow(y, n - 1), y);
      MulOne(ONE);
      MulZero(Pow(y, n));
    }
  }
}
