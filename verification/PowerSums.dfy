/** Sequences of power sums: what predicts them, and what a predictor says about their terms. */
module PowerSums {
  import opened Gf13
  import opened Field
  import opened Polynomials

  /** The sum of the `e`-th powers. */
  function PowerSum(xs: seq<Elem>, e: nat): Elem {
    if xs == [] then ZERO else Add(PowerSum(xs[..|xs| - 1], e), Pow(xs[|xs| - 1], e))
  }

  /** The sum of a_k * x_k^e. */
  function Weighted(a: seq<Elem>, xs: seq<Elem>, e: nat): Elem
    requires |a| == |xs|
  {
    if xs == [] then ZERO
    else Add(Weighted(a[..|xs| - 1], xs[..|xs| - 1], e), Mul(a[|xs| - 1], Pow(xs[|xs| - 1], e)))
  }

  // ---------------------------------------------------------------- predictors and power sums

  /** The sum of c_i * x^(n+1-i) for i < p. */
  function ConvPow(c: Poly, x: Elem, n: nat, p: nat): Elem
    requires p <= n + 1
  {
    if p == 0 then ZERO else Add(ConvPow(c, x, n, p - 1), Mul(At(c, p - 1), Pow(x, n + 2 - p)))
  }

  /** It is x^(n+1-l) times the polynomial reversed. */
  lemma {:induction false} ConvPowRev(c: Poly, x: Elem, n: nat, l: nat)
    requires l <= n
    ensures ConvPow(c, x, n, l + 1) == Mul(Pow(x, n + 1 - l), Rev(c, l, x))
  {
    hide Mul, Add, Pow;
    var y := Pow(x, n + 1 - l);
    MulComm(At(c, l), y);
    if l == 0 {
      assert ConvPow(c, x, n, 0) == ZERO;
      AddZero(Mul(At(c, 0), y));
    } else {
      ConvPowRev(c, x, n, l - 1);
      var r := Rev(c, l - 1, x);
      NextPow(x, n + 1 - l);
      MulAssoc(y, x, r);
      MulAddRight(y, Mul(x, r), At(c, l));
    }
  }

  /** The sum over all x_k of ConvPow. */
  function AllConv(c: Poly, xs: seq<Elem>, n: nat, p: nat): Elem
    requires p <= n + 1
  {
    if xs == [] then ZERO else Add(AllConv(c, xs[..|xs| - 1], n, p), ConvPow(c, xs[|xs| - 1], n, p))
  }

  lemma {:induction false} AllConvNone(c: Poly, xs: seq<Elem>, n: nat)
    ensures AllConv(c, xs, n, 0) == ZERO
  {
    hide Mul, Add;
    AddZero(ZERO);
    if xs != [] { AllConvNone(c, xs[..|xs| - 1], n); }
  }

  lemma {:induction false} AllConvMore(c: Poly, xs: seq<Elem>, n: nat, p: nat)
    requires p <= n
    ensures AllConv(c, xs, n, p + 1) == Add(AllConv(c, xs, n, p), Mul(At(c, p), PowerSum(xs, n + 1 - p)))
  {
    hide Mul, Add, Pow, At;
    if xs == [] {
      MulZero(At(c, p));
      AddZero(ZERO);
    } else {
      var ys, x := xs[..|xs| - 1], xs[|xs| - 1];
      AllConvMore(c, ys, n, p);
      var u, v := PowerSum(ys, n + 1 - p), Pow(x, n + 1 - p);
      MulAddRight(At(c, p), u, v);
      AddSwap(AllConv(c, ys, n, p), Mul(At(c, p), u), ConvPow(c, x, n, p), Mul(At(c, p), v));
    }
  }

  /** Term k of `s` is the power sum of exponent k + 1. */
  ghost predicate Sums(s: Poly, xs: seq<Elem>) {
    forall k: nat {:trigger At(s, k)} :: k < |s| ==> At(s, k) == PowerSum(xs, k + 1)
  }

  lemma {:induction false} ConvSums(c: Poly, s: Poly, xs: seq<Elem>, n: nat, p: nat)
    requires Sums(s, xs) && n < |s| && p <= n + 1
    ensures Conv(c, s, n, p) == AllConv(c, xs, n, p)
  {
    hide Mul, Add, PowerSum;
    if p == 0 {
      AllConvNone(c, xs, n);
    } else {
      ConvSums(c, s, xs, n, p - 1);
      AllConvMore(c, xs, n, p - 1);
      assert At(s, n - (p - 1)) == PowerSum(xs, n - (p - 1) + 1);
    }
  }

  /** A polynomial that vanishes at every x_k predicts the power sums. */
  lemma {:induction false} RootsPredict(c: Poly, xs: seq<Elem>, n: nat, l: nat)
    requires l <= n && forall k :: 0 <= k < |xs| ==> Rev(c, l, xs[k]) == ZERO
    ensures AllConv(c, xs, n, l + 1) == ZERO
  {
    hide Mul, Add, Rev;
    AddZero(ZERO);
    if xs != [] {
      RootsPredict(c, xs[..|xs| - 1], n, l);
      ConvPowRev(c, xs[|xs| - 1], n, l);
      MulZero(Pow(xs[|xs| - 1], n + 1 - l));
    }
  }

  // ---------------------------------------------------------------- independence

  /** The weights x_k * c~(x_k), where c~ is c reversed. */
  function Weights(c: Poly, l: nat, xs: seq<Elem>): (a: seq<Elem>)
    ensures |a| == |xs| && forall k :: 0 <= k < |xs| ==> a[k] == Mul(xs[k], Rev(c, l, xs[k]))
  {
    seq(|xs|, k requires 0 <= k < |xs| => Mul(xs[k], Rev(c, l, xs[k])))
  }

  lemma {:induction false} AllConvWeighted(c: Poly, xs: seq<Elem>, n: nat, l: nat, a: seq<Elem>)
    requires l <= n && |a| == |xs| && forall k :: 0 <= k < |xs| ==> a[k] == Mul(xs[k], Rev(c, l, xs[k]))
    ensures AllConv(c, xs, n, l + 1) == Weighted(a, xs, n - l)
  {
    hide Mul, Add, Rev, Pow;
    if xs != [] {
      var k := |xs| - 1;
      AllConvWeighted(c, xs[..k], n, l, a[..k]);
      var x, r := xs[k], Rev(c, l, xs[k]);
      ConvPowRev(c, x, n, l);
      NextPow(x, n - l);
      var y := Pow(x, n - l);
      MulAssoc(y, x, r);
      MulComm(y, Mul(x, r));
    }
  }

  lemma {:induction false} WeightedShift(a: seq<Elem>, b: seq<Elem>, xs: seq<Elem>, y: Elem, e: nat)
    requires |a| == |b| == |xs| && forall k :: 0 <= k < |xs| ==> b[k] == Mul(a[k], Add(xs[k], y))
    ensures Weighted(b, xs, e) == Add(Weighted(a, xs, e + 1), Mul(y, Weighted(a, xs, e)))
  {
    hide Mul, Add, Pow;
    if xs == [] {
      MulZero(y);
      AddZero(ZERO);
    } else {
      var k := |xs| - 1;
      WeightedShift(a[..k], b[..k], xs[..k], y, e);
      var w, x, p := a[k], xs[k], Pow(xs[k], e);
      var u, v := Weighted(a[..k], xs[..k], e + 1), Weighted(a[..k], xs[..k], e);
      NextPow(x, e);
      MulAddRight(w, x, y);
      MulAddLeft(Mul(w, x), Mul(w, y), p);
      MulAssoc(w, x, p);
      MulComm(x, p);
      MulComm(w, y);
      MulAssoc(y, w, p);
      MulAddRight(y, v, Mul(w, p));
      AddSwap(u, Mul(y, v), Mul(w, Pow(x, e + 1)), Mul(y, Mul(w, p)));
    }
  }

  lemma {:induction false} WeightedZero(a: seq<Elem>, xs: seq<Elem>, e: nat)
    requires |a| == |xs| && forall k :: 0 <= k < |xs| ==> a[k] == ZERO
    ensures Weighted(a, xs, e) == ZERO
  {
    hide Mul, Add, Pow;
    AddZero(ZERO);
    if xs != [] {
      var k := |xs| - 1;
      WeightedZero(a[..k], xs[..k], e);
      MulZero(Pow(xs[k], e));
    }
  }

  /** Weights whose weighted power sums all vanish are zero: a Vandermonde matrix is regular. */
  lemma {:induction false} Independent(a: seq<Elem>, xs: seq<Elem>)
    requires |a| == |xs| && DistinctSeq(xs)
    requires forall e: nat {:trigger Weighted(a, xs, e)} :: e < |xs| ==> Weighted(a, xs, e) == ZERO
    ensures forall k :: 0 <= k < |xs| ==> a[k] == ZERO
    decreases |xs|
  {
    hide Mul, Add, Pow, Weighted;
    if xs != [] {
      var n := |xs| - 1;
      var y := xs[n];
      var b := seq(n + 1, k requires 0 <= k <= n => Mul(a[k], Add(xs[k], y)));
      forall e: nat | e < n
        ensures Weighted(b[..n], xs[..n], e) == ZERO
      {
        WeightedShift(a, b, xs, y, e);
        MulZero(y);
        AddZero(ZERO);
        assert Weighted(a, xs, e + 1) == ZERO && Weighted(a, xs, e) == ZERO;
        LastWeight(b, xs, e, a[n], y);
      }
      Independent(b[..n], xs[..n]);
      forall k | 0 <= k < n
        ensures a[k] == ZERO
      {
        assert b[..n][k] == ZERO;
        NoZeroDivisors(a[k], Add(xs[k], y));
        AddCancel(xs[k], y);
      }
      assert Weighted(a, xs, 0) == ZERO;
      FirstSum(a, xs);
    }
  }

  lemma LastWeight(b: seq<Elem>, xs: seq<Elem>, e: nat, w: Elem, y: Elem)
    requires |b| == |xs| > 0 && xs[|xs| - 1] == y && b[|xs| - 1] == Mul(w, Add(y, y))
    ensures Weighted(b, xs, e) == Weighted(b[..|xs| - 1], xs[..|xs| - 1], e)
  {
    hide Mul, Add, Pow;
    AddSelf(y);
    MulZero(w);
    MulZero(Pow(y, e));
    AddZero(Weighted(b[..|xs| - 1], xs[..|xs| - 1], e));
  }

  lemma FirstSum(a: seq<Elem>, xs: seq<Elem>)
    requires |a| == |xs| > 0 && forall k :: 0 <= k < |xs| - 1 ==> a[k] == ZERO
    ensures Weighted(a, xs, 0) == a[|xs| - 1]
  {
    hide Mul, Add;
    var n := |xs| - 1;
    WeightedZero(a[..n], xs[..n], 0);
    MulOne(a[n]);
    AddZero(a[n]);
    assert Pow(xs[n], 0) == ONE;
  }

  // ---------------------------------------------------------------- the locator

  /** (1 + x z) times p. */
  function TimesLinear(p: Poly, x: Elem): (q: Poly)
    ensures |q| == |p| + 1 && forall i :: 0 <= i <= |p| ==> q[i] == LinearTerm(p, x, i)
  {
    seq(|p| + 1, i requires 0 <= i <= |p| => LinearTerm(p, x, i))
  }

  function LinearTerm(p: Poly, x: Elem, i: int): Elem {
    Add(At(p, i), Mul(x, At(p, i - 1)))
  }

  /** The product of all 1 + x_k z. */
  function Locator(xs: seq<Elem>): (p: Poly)
    ensures |p| == |xs| + 1
  {
    if xs == [] then [ONE] else TimesLinear(Locator(xs[..|xs| - 1]), xs[|xs| - 1])
  }

  lemma {:induction false} LocatorFirst(xs: seq<Elem>)
    ensures At(Locator(xs), 0) == ONE
  {
    hide Mul, Add;
    if xs != [] {
      LocatorFirst(xs[..|xs| - 1]);
      MulZero(xs[|xs| - 1]);
      AddZero(ONE);
    }
  }

  lemma {:induction false} TimesLinearRev(p: Poly, x: Elem, j: nat, y: Elem)
    requires 0 < j <= |p|
    ensures Rev(TimesLinear(p, x), j, y) == Add(Rev(p, j, y), Mul(x, Rev(p, j - 1, y)))
  {
    hide Mul, Add;
    var q := TimesLinear(p, x);
    if j == 1 {
      MulZero(x);
      AddZero(At(p, 0));
      assert Rev(q, 0, y) == At(p, 0) && Rev(p, 0, y) == At(p, 0);
      AddAssoc(Mul(y, At(p, 0)), At(p, 1), Mul(x, At(p, 0)));
    } else {
      TimesLinearRev(p, x, j - 1, y);
      var u, v := Rev(p, j - 1, y), Rev(p, j - 2, y);
      MulAddRight(y, u, Mul(x, v));
      MulAssoc(y, x, v);
      MulAssoc(x, y, v);
      MulComm(x, y);
      AddSwap(Mul(y, u), Mul(x, Mul(y, v)), At(p, j), Mul(x, At(p, j - 1)));
      MulAddRight(x, Mul(y, v), At(p, j - 1));
    }
  }

  /** Reversed, the factor 1 + x z is y + x. */
  lemma LinearFactor(p: Poly, x: Elem, n: nat, y: Elem)
    requires |p| == n + 1
    ensures Rev(TimesLinear(p, x), n + 1, y) == Mul(Add(y, x), Rev(p, n, y))
  {
    hide Mul, Add, TimesLinear;
    TimesLinearRev(p, x, n + 1, y);
    AddZero(Mul(y, Rev(p, n, y)));
    MulAddLeft(y, x, Rev(p, n, y));
  }

  /** The reversed locator vanishes at every x_k. */
  lemma {:induction false} LocatorRoots(xs: seq<Elem>, k: nat)
    requires k < |xs|
    ensures Rev(Locator(xs), |xs|, xs[k]) == ZERO
  {
    hide Mul, Add, Rev, TimesLinear;
    var n := |xs| - 1;
    LinearFactor(Locator(xs[..n]), xs[n], n, xs[k]);
    if k < n {
      LocatorRoots(xs[..n], k);
      assert xs[..n][k] == xs[k];
    } else {
      AddSelf(xs[k]);
    }
    MulZero(Add(xs[k], xs[n]));
    MulZero(Rev(Locator(xs[..n]), n, xs[k]));
  }
}
