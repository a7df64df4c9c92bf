/** Polynomials over the field, as coefficient sequences that are zero beyond their end. */
module Polynomials {
  import opened Gf13
  import opened Field

  type Poly = seq<Elem>

  function At(p: Poly, i: int): Elem {
    if 0 <= i < |p| then p[i] else ZERO
  }

  /** The sum of c_i * s_(k-i) for i < n. */
  function Conv(c: Poly, s: Poly, k: int, n: nat): Elem {
    if n == 0 then ZERO else Add(Conv(c, s, k, n - 1), Mul(At(c, n - 1), At(s, k - (n - 1))))
  }

  /** No coefficient beyond `l`. */
  ghost predicate Degree(p: Poly, l: int) {
    forall i: int {:trigger At(p, i)} :: i > l ==> At(p, i) == ZERO
  }

  /** `c` predicts every term of `s` from term `l` on and before term `n`. */
  ghost predicate Generates(c: Poly, l: nat, s: Poly, n: int) {
    forall k: int {:trigger Conv(c, s, k, l + 1)} :: l <= k < n ==> Conv(c, s, k, l + 1) == ZERO
  }

  // ---------------------------------------------------------------- sums of products

  /** The sum over i < p and j < q of c_i * d_j * s_(n-i-j). */
  function Double(c: Poly, d: Poly, s: Poly, n: int, p: nat, q: nat): Elem {
    if p == 0 then ZERO
    else Add(Double(c, d, s, n, p - 1, q), Mul(At(c, p - 1), Conv(d, s, n - (p - 1), q)))
  }

  lemma {:induction false} DoubleNone(c: Poly, d: Poly, s: Poly, n: int, p: nat)
    ensures Double(c, d, s, n, p, 0) == ZERO
  {
    hide Mul, Add;
    AddZero(ZERO);
    if p > 0 {
      DoubleNone(c, d, s, n, p - 1);
      MulZero(At(c, p - 1));
    }
  }

  /** One more term in the inner sum. */
  lemma {:induction false} DoubleInner(c: Poly, d: Poly, s: Poly, n: int, p: nat, q: nat)
    ensures Double(c, d, s, n, p, q + 1) == Add(Double(c, d, s, n, p, q), Mul(At(d, q), Conv(c, s, n - q, p)))
  {
    hide Mul, Add;
    if p == 0 {
      MulZero(At(d, q));
      AddZero(ZERO);
    } else {
      DoubleInner(c, d, s, n, p - 1, q);
      var a, b, x := At(c, p - 1), At(d, q), At(s, n - q - (p - 1));
      var u, v := Conv(d, s, n - (p - 1), q), Conv(c, s, n - q, p - 1);
      MulAddRight(a, u, Mul(b, x));
      MulAddRight(b, v, Mul(a, x));
      MulAssoc(a, b, x);
      MulAssoc(b, a, x);
      MulComm(a, b);
      AddSwap(Double(c, d, s, n, p - 1, q), Mul(b, v), Mul(a, u), Mul(a, Mul(b, x)));
    }
  }

  /** Both orders of summation give the same. */
  lemma {:induction false} DoubleSwap(c: Poly, d: Poly, s: Poly, n: int, p: nat, q: nat)
    ensures Double(c, d, s, n, p, q) == Double(d, c, s, n, q, p)
  {
    hide Mul, Add;
    if q == 0 {
      DoubleNone(c, d, s, n, p);
    } else {
      DoubleSwap(c, d, s, n, p, q - 1);
      DoubleInner(c, d, s, n, p, q - 1);
    }
  }

  lemma {:induction false} DoubleZero(c: Poly, d: Poly, s: Poly, n: int, p: nat, q: nat)
    requires forall k: int :: n - p < k <= n ==> Conv(d, s, k, q) == ZERO
    ensures Double(c, d, s, n, p, q) == ZERO
  {
    hide Mul, Add;
    AddZero(ZERO);
    if p > 0 {
      DoubleZero(c, d, s, n, p - 1, q);
      MulZero(At(c, p - 1));
    }
  }

  lemma {:induction false} DoubleFirst(c: Poly, d: Poly, s: Poly, n: int, p: nat, q: nat)
    requires p > 0 && forall k: int :: n - p < k < n ==> Conv(d, s, k, q) == ZERO
    ensures Double(c, d, s, n, p, q) == Mul(At(c, 0), Conv(d, s, n, q))
  {
    hide Mul, Add;
    if p == 1 {
      AddZero(Mul(At(c, 0), Conv(d, s, n, q)));
      assert Double(c, d, s, n, 0, q) == ZERO;
    } else {
      DoubleFirst(c, d, s, n, p - 1, q);
      MulZero(At(c, p - 1));
      AddZero(Mul(At(c, 0), Conv(d, s, n, q)));
    }
  }

  /** If `d` predicts the sequence up to and including term `n`, then so does every `c` that
      predicts it up to term `n` and is short enough. */
  lemma TwoPredictors(c: Poly, l: nat, d: Poly, m: nat, s: Poly, n: nat)
    requires Generates(c, l, s, n) && Generates(d, m, s, n + 1) && At(d, 0) == ONE && l + m <= n
    ensures Conv(c, s, n, l + 1) == ZERO
  {
    hide Mul, Add, Conv;
    DoubleZero(c, d, s, n, l + 1, m + 1);
    DoubleSwap(c, d, s, n, l + 1, m + 1);
    DoubleFirst(d, c, s, n, m + 1, l + 1);
    MulOne(Conv(c, s, n, l + 1));
  }

  /** Zero coefficients add nothing. */
  lemma {:induction false} ConvTail(c: Poly, s: Poly, k: int, l: nat, n: nat)
    requires l <= n && Degree(c, l - 1)
    ensures Conv(c, s, k, n) == Conv(c, s, k, l)
  {
    hide Mul, Add;
    if n > l {
      ConvTail(c, s, k, l, n - 1);
      MulZero(At(s, k - (n - 1)));
      AddZero(Conv(c, s, k, n - 1));
    }
  }

  // ---------------------------------------------------------------- adding a multiple

  /** `a` plus `f` times `b` shifted by `m` places. */
  ghost predicate Updated(a: Poly, b: Poly, f: Elem, m: nat, r: Poly) {
    forall i: int {:trigger At(r, i)} :: At(r, i) == Add(At(a, i), Mul(At(b, i - m), f))
  }

  lemma {:induction false} ConvUpdated(a: Poly, b: Poly, f: Elem, m: nat, r: Poly, s: Poly, k: int, n: nat)
    requires Updated(a, b, f, m, r)
    ensures Conv(r, s, k, n) == Add(Conv(a, s, k, n), Mul(f, Conv(b, s, k - m, if n >= m then n - m else 0)))
  {
    hide Mul, Add;
    if n == 0 {
      MulZero(f);
      AddZero(ZERO);
    } else {
      ConvUpdated(a, b, f, m, r, s, k, n - 1);
      var x, y, z := At(a, n - 1), At(b, n - 1 - m), At(s, k - (n - 1));
      assert At(r, n - 1) == Add(x, Mul(y, f));
      MulAddLeft(x, Mul(y, f), z);
      var u, v := Conv(a, s, k, n - 1), Mul(f, Conv(b, s, k - m, if n - 1 >= m then n - 1 - m else 0));
      var w := Mul(Mul(y, f), z);
      AddSwap(u, v, Mul(x, z), w);
      if n > m {
        MulComm(y, f);
        MulAssoc(f, y, z);
        MulAddRight(f, Conv(b, s, k - m, n - 1 - m), Mul(y, z));
      } else {
        MulZero(f);
        MulZero(z);
        AddZero(v);
      }
    }
  }

  // ---------------------------------------------------------------- reversed evaluation

  /** The sum of c_i * y^(l-i) for i <= l. */
  function Rev(c: Poly, l: nat, y: Elem): Elem {
    if l == 0 then At(c, 0) else Add(Mul(y, Rev(c, l - 1, y)), At(c, l))
  }

  /** The partial results of evaluating at `y`: the quotient of division by z + y. */
  function Quotient(c: Poly, l: nat, y: Elem): (q: Poly)
    ensures |q| == l && forall i :: 0 <= i < l ==> q[i] == Rev(c, i, y)
  {
    seq(l, i requires 0 <= i < l => Rev(c, i, y))
  }

  /** Division by z + y. */
  lemma {:induction false} Divides(c: Poly, q: Poly, l: nat, y: Elem, z: Elem)
    requires l > 0 && forall i: nat :: i < l ==> At(q, i) == Rev(c, i, y)
    ensures Rev(c, l, z) == Add(Mul(Add(z, y), Rev(q, l - 1, z)), Rev(c, l, y))
  {
    hide Mul, Add, At;
    var f := Add(z, y);
    if l == 1 {
      var c0, c1 := At(c, 0), At(c, 1);
      assert Rev(c, 1, z) == Add(Mul(z, c0), c1) && Rev(c, 1, y) == Add(Mul(y, c0), c1) by {
        assert Rev(c, 0, z) == c0 && Rev(c, 0, y) == c0;
      }
      MulAddLeft(z, y, c0);
      SplitCancel(Mul(z, c0), Mul(y, c0), c1);
      assert Rev(q, 0, z) == c0;
    } else {
      Divides(c, q, l - 1, y, z);
      var r, t, cl := Rev(q, l - 2, z), At(q, l - 1), At(c, l);
      assert t == Rev(c, l - 1, y);
      MulAddRight(z, Mul(f, r), t);
      MulAddRight(f, Mul(z, r), t);
      MulAssoc(z, f, r);
      MulAssoc(f, z, r);
      MulComm(z, f);
      MulAddLeft(z, y, t);
      var w := Mul(f, Mul(z, r));
      AddAssoc(w, Mul(z, t), Mul(y, t));
      SplitCancel(Add(w, Mul(z, t)), Mul(y, t), cl);
    }
  }

  lemma SplitCancel(a: Elem, b: Elem, c: Elem)
    ensures Add(Add(a, b), Add(b, c)) == Add(a, c)
  {
    hide Add;
    AddAssoc(a, b, Add(b, c));
    AddAssoc(b, b, c);
    AddSelf(b);
    AddZero(c);
  }

  ghost predicate DistinctSeq(xs: seq<Elem>) {
    forall i, j :: 0 <= i < j < |xs| ==> xs[i] != xs[j]
  }

  /** A polynomial whose first coefficient is one has no more roots than its degree. */
  lemma {:induction false} RootBound(c: Poly, l: nat, xs: seq<Elem>)
    requires At(c, 0) == ONE && DistinctSeq(xs)
    requires forall i :: 0 <= i < |xs| ==> Rev(c, l, xs[i]) == ZERO
    ensures |xs| <= l
    decreases l
  {
    hide Mul, Add;
    if xs != [] {
      var n := |xs| - 1;
      var y := xs[n];
      assert ONE != ZERO;
      if l > 0 {
        var q := Quotient(c, l, y);
        assert At(q, 0) == ONE;
        forall i | 0 <= i < n
          ensures Rev(q, l - 1, xs[..n][i]) == ZERO
        {
          var z := xs[i];
          Divides(c, q, l, y, z);
          AddZero(Mul(Add(z, y), Rev(q, l - 1, z)));
          NoZeroDivisors(Add(z, y), Rev(q, l - 1, z));
          AddCancel(z, y);
        }
        RootBound(q, l - 1, xs[..n]);
      }
    }
  }
}
