/** The shortest linear recurrence of the syndromes. */
module BerlekampMassey {
  import opened Gf13
  import opened Field
  import opened Polynomials
  import Tables

  const MAX_SYNS: nat := 8
  const MAX_POLY: nat := 16

  /** What holds before term `n` is looked at: `c`, of length `l`, predicts all terms before it; `b`
      is the predictor before the last change of length, `m` terms ago, when it was wrong by `e`. */
  ghost predicate State(c: Poly, b: Poly, s: Poly, n: nat, l: nat, m: nat, e: Elem) {
    At(c, 0) == ONE && l <= n && Degree(c, l) && Generates(c, l, s, n) && e != ZERO && m >= 1 &&
    if l == 0 then m == n + 1 && Degree(b, 0)
    else
      m <= n && l <= n - m + 1 && Degree(b, n - m + 1 - l) && Generates(b, n - m + 1 - l, s, n - m) &&
      Conv(b, s, n - m, n - m + 2 - l) == e
  }

  lemma Start(c: Poly, b: Poly, s: Poly)
    requires At(c, 0) == ONE && Degree(c, 0) && Degree(b, 0)
    ensures State(c, b, s, 0, 0, 1, ONE)
  {}

  /** The predictor is right about term `n`. */
  lemma StepRight(c: Poly, b: Poly, s: Poly, n: nat, l: nat, m: nat, e: Elem)
    requires State(c, b, s, n, l, m, e) && Conv(c, s, n, l + 1) == ZERO
    ensures State(c, b, s, n + 1, l, m + 1, e)
  {
    hide Conv, Degree, Mul, Add;
  }

  /** How the discrepancy `d` is cancelled at term `n`, and nothing disturbed before. */
  lemma Cancel(c: Poly, b: Poly, s: Poly, n: nat, l: nat, m: nat, e: Elem, d: Elem, r: Poly, l': nat, k: nat)
    requires State(c, b, s, n, l, m, e) && l > 0 && Conv(c, s, n, l + 1) == d
    requires Updated(c, b, Div(d, e), m, r) && l' >= l && l' + l >= n + 1 && l' <= k <= n
    ensures Conv(r, s, k, l' + 1) == ZERO
  {
    hide Mul, Add, Div, Conv, Degree;
    var f := Div(d, e);
    var lb := n - m + 1 - l;
    ConvUpdated(c, b, f, m, r, s, k, l' + 1);
    DegreeMore(c, l, l);
    ConvTail(c, s, k, l + 1, l' + 1);
    ConvTail(b, s, k - m, lb + 1, l' + 1 - m);
    MulZero(f);
    AddZero(ZERO);
    DivMul(d, e);
    AddSelf(d);
  }

  lemma DegreeMore(c: Poly, l: int, l': int)
    requires Degree(c, l) && l <= l'
    ensures Degree(c, l')
  {}

  lemma UpdatedDegree(c: Poly, b: Poly, f: Elem, m: nat, r: Poly, l: int, lb: int, l': int)
    requires Updated(c, b, f, m, r) && Degree(c, l) && Degree(b, lb) && l <= l' && lb + m <= l'
    ensures Degree(r, l')
  {
    hide Mul, Add;
    forall i: int | i > l'
      ensures At(r, i) == ZERO
    {
      assert At(c, i) == ZERO && At(b, i - m) == ZERO;
      MulZero(f);
      AddZero(ZERO);
    }
  }

  lemma UpdatedFirst(c: Poly, b: Poly, f: Elem, m: nat, r: Poly)
    requires Updated(c, b, f, m, r) && m >= 1 && At(c, 0) == ONE
    ensures At(r, 0) == ONE
  {
    hide Mul, Add;
    assert At(b, 0 - m) == ZERO;
    MulZero(f);
    AddZero(ONE);
  }

  /** The predictor is wrong, and has to become longer. */
  lemma StepLonger(c: Poly, b: Poly, s: Poly, n: nat, l: nat, m: nat, e: Elem, d: Elem, r: Poly)
    requires State(c, b, s, n, l, m, e) && Conv(c, s, n, l + 1) == d && d != ZERO && 2 * l <= n
    requires Updated(c, b, Div(d, e), m, r)
    ensures State(r, c, s, n + 1, n + 1 - l, 1, d)
  {
    hide Mul, Add, Div, Conv, Degree, Updated;
    var l' := n + 1 - l;
    UpdatedFirst(c, b, Div(d, e), m, r);
    UpdatedDegree(c, b, Div(d, e), m, r, l, if l == 0 then 0 else n - m + 1 - l, l');
    var p := l' + 1;
    forall k: int | l' <= k < n + 1
      ensures Conv(r, s, k, p) == ZERO
    {
      Cancel(c, b, s, n, l, m, e, d, r, l', k);
    }
  }

  /** The predictor is wrong, but long enough to be corrected. */
  lemma StepCorrected(c: Poly, b: Poly, s: Poly, n: nat, l: nat, m: nat, e: Elem, d: Elem, r: Poly)
    requires State(c, b, s, n, l, m, e) && Conv(c, s, n, l + 1) == d && 2 * l > n
    requires Updated(c, b, Div(d, e), m, r)
    ensures State(r, b, s, n + 1, l, m + 1, e)
  {
    hide Mul, Add, Div, Conv, Degree, Updated;
    UpdatedFirst(c, b, Div(d, e), m, r);
    UpdatedDegree(c, b, Div(d, e), m, r, l, n - m + 1 - l, l);
    var p := l + 1;
    forall k: int | l <= k < n + 1
      ensures Conv(r, s, k, p) == ZERO
    {
      Cancel(c, b, s, n, l, m, e, d, r, l, k);
    }
  }

  // ---------------------------------------------------------------- the algorithm

  /** dst + c * src shifted by `shift` places, cut off at MAX_POLY. */
  method PolyAdd(dst: array<Elem>, src: array<Elem>, c: Elem, shift: int)
    requires dst.Length == MAX_POLY && src.Length == MAX_POLY && dst != src && c != ZERO
    modifies dst
    ensures forall i :: 0 <= i < MAX_POLY ==> dst[i] == Add(old(dst[i]), Mul(At(src[..], i - shift), c))
  {
    hide Mul, Add;
    MulZero(c);
    forall i | 0 <= i < MAX_POLY ensures Add(old(dst[i]), ZERO) == old(dst[i]) { AddZero(old(dst[i])); }
    var i := 0;
    while i < MAX_POLY
      invariant i <= MAX_POLY
      invariant forall j :: 0 <= j < MAX_POLY ==>
        dst[j] == Add(old(dst[j]), if 0 <= j - shift < i then Mul(src[j - shift], c) else ZERO)
    {
      var p := i + shift;
      var v := src[i];
      if 0 <= p < MAX_POLY && v != ZERO {
        var product := Tables.Product(v, c);
        AddZero(old(dst[p]));
        dst[p] := Add(dst[p], product);
      }
      i := i + 1;
    }
  }

  /** The discrepancy of the predictor at term `n`. */
  method Discrepancy(s: array<Elem>, c: array<Elem>, n: nat, l: nat) returns (d: Elem)
    requires n < s.Length && l <= n && c.Length == MAX_POLY && n < MAX_POLY && c[0] == ONE
    ensures d == Conv(c[..], s[..], n, l + 1)
  {
    hide Mul, Add;
    d := s[n];
    MulOne(d);
    AddZero(d);
    assert Conv(c[..], s[..], n, 0) == ZERO;
    var i := 1;
    while i <= l
      invariant 1 <= i <= l + 1 && d == Conv(c[..], s[..], n, i)
    {
      if c[i] == ZERO || s[n - i] == ZERO {
        MulZero(c[i]);
        MulZero(s[n - i]);
        AddZero(d);
      } else {
        var product := Tables.Product(c[i], s[n - i]);
        d := Add(d, product);
      }
      i := i + 1;
    }
  }

  /** What PolyAdd leaves in the array is the whole sum. */
  lemma WholeSum(c: Poly, b: Poly, s: Poly, n: nat, l: nat, m: nat, e: Elem, f: Elem, r: Poly)
    requires State(c, b, s, n, l, m, e) && n + 1 < MAX_POLY && |c| == |b| == |r| == MAX_POLY
    requires forall i :: 0 <= i < MAX_POLY ==> r[i] == Add(c[i], Mul(At(b, i - m), f))
    ensures Updated(c, b, f, m, r)
  {
    hide Mul, Add, Conv, Generates;
    forall i: int
      ensures At(r, i) == Add(At(c, i), Mul(At(b, i - m), f))
    {
      MulZero(f);
      AddZero(ZERO);
      if i >= MAX_POLY { assert At(b, i - m) == ZERO; }
    }
  }

  /** A recurrence of length `v` that predicts everything bounds the length. */
  lemma NotTooLong(c: Poly, b: Poly, s: Poly, n: nat, l: nat, m: nat, e: Elem, d: Elem, g: Poly, v: nat)
    requires State(c, b, s, n, l, m, e) && Conv(c, s, n, l + 1) == d && d != ZERO
    requires Generates(g, v, s, n + 1) && At(g, 0) == ONE
    ensures n + 1 - l <= v
  {
    hide Conv, Degree;
    if l + v <= n { TwoPredictors(c, l, g, v, s, n); }
  }

  lemma AllTooLong(c: Poly, b: Poly, s: Poly, n: nat, l: nat, m: nat, e: Elem, d: Elem, count: nat)
    requires State(c, b, s, n, l, m, e) && Conv(c, s, n, l + 1) == d && d != ZERO && n < count
    ensures Shortest(s, count, n + 1 - l)
  {
    hide State, Conv, Generates;
    forall g: Poly, v: nat | Generates(g, v, s, count) && At(g, 0) == ONE
      ensures n + 1 - l <= v
    {
      GeneratesLess(g, v, s, count, n + 1);
      NotTooLong(c, b, s, n, l, m, e, d, g, v);
    }
  }

  lemma GeneratesLess(g: Poly, v: nat, s: Poly, n: int, n': int)
    requires Generates(g, v, s, n) && n' <= n
    ensures Generates(g, v, s, n')
  {
    hide Conv;
  }

  /** The coefficients copied out: 16 bytes, which are 8 coefficients. */
  function FirstHalf(c: Poly): (r: Poly)
    ensures |r| == MAX_POLY && forall i :: 0 <= i < MAX_POLY ==> r[i] == if i < 8 then At(c, i) else ZERO
  {
    seq(MAX_POLY, i requires 0 <= i < MAX_POLY => if i < 8 then At(c, i) else ZERO)
  }

  /** No recurrence that predicts the first `n` terms is shorter than `l`. */
  ghost predicate Shortest(s: Poly, n: nat, l: nat) {
    forall g: Poly, v: nat :: Generates(g, v, s, n) && At(g, 0) == ONE ==> l <= v
  }

  /** `c` is a shortest recurrence, of length `l`, of the first `n` terms. */
  ghost predicate Recurrence(s: Poly, n: nat, c: Poly, l: nat) {
    At(c, 0) == ONE && Degree(c, l) && Generates(c, l, s, n) && Shortest(s, n, l)
  }

  /** Finds a recurrence that predicts all `count` terms of `s`, and as short a one as there is. */
  method FindRecurrence(s: array<Elem>, count: nat, sigma: array<Elem>)
    returns (ghost c: Poly, ghost l: nat)
    requires count <= s.Length <= MAX_SYNS && sigma.Length == MAX_POLY && sigma != s
    modifies sigma
    ensures Recurrence(s[..], count, c, l) && l <= count
    ensures sigma[..] == FirstHalf(c)
  {
    hide Mul, Add, Div, Conv, State, Degree;
    var cc, bb := new Elem[MAX_POLY](i => ZERO), new Elem[MAX_POLY](i => ZERO);
    bb[0] := ONE;
    cc[0] := ONE;
    UnitDegree(cc[..]);
    UnitDegree(bb[..]);
    Start(cc[..], bb[..], s[..]);
    var len: nat, m: nat, b := 0, 1, ONE;
    var n := 0;
    while n < count
      invariant n <= count && State(cc[..], bb[..], s[..], n, len, m, b)
      invariant cc.Length == bb.Length == MAX_POLY && cc != bb && fresh(cc) && fresh(bb)
      invariant Shortest(s[..], count, len)
    {
      len, m, b, cc, bb := Round(s, n, len, m, b, cc, bb, count);
      n := n + 1;
    }
    c, l := cc[..], len;
    assert At(c, 0) == ONE && Degree(c, l) && Generates(c, l, s[..], count) && l <= count by {
      StateMeans(cc[..], bb[..], s[..], n, len, m, b);
    }
    CopyOut(cc, sigma);
  }

  lemma StateMeans(c: Poly, b: Poly, s: Poly, n: nat, l: nat, m: nat, e: Elem)
    requires State(c, b, s, n, l, m, e)
    ensures At(c, 0) == ONE && Degree(c, l) && Generates(c, l, s, n) && l <= n && e != ZERO
  {
    hide Conv;
  }

  lemma UnitDegree(p: Poly)
    requires |p| == MAX_POLY && forall i :: 0 < i < MAX_POLY ==> p[i] == ZERO
    ensures Degree(p, 0)
  {}

  method CopyOut(c: array<Elem>, sigma: array<Elem>)
    requires c.Length == sigma.Length == MAX_POLY && c != sigma
    modifies sigma
    ensures sigma[..] == FirstHalf(c[..])
  {
    var i := 0;
    while i < MAX_POLY
      invariant i <= MAX_POLY
      invariant forall j :: 0 <= j < i ==> sigma[j] == if j < 8 then c[j] else ZERO
    {
      sigma[i] := if i < 8 then c[i] else ZERO;
      i := i + 1;
    }
  }

  /** One round: looks at term `n`. */
  method Round(s: array<Elem>, n: nat, l: nat, m: nat, e: Elem, c: array<Elem>, b: array<Elem>,
               ghost count: nat)
    returns (l': nat, m': nat, e': Elem, c': array<Elem>, b': array<Elem>)
    requires n < count <= s.Length <= MAX_SYNS && c.Length == b.Length == MAX_POLY && c != b && c != s && b != s
    requires State(c[..], b[..], s[..], n, l, m, e)
    requires Shortest(s[..], count, l)
    modifies c, b
    ensures c'.Length == b'.Length == MAX_POLY && c' != b' && (c' == c || fresh(c')) && (b' == b || fresh(b'))
    ensures State(c'[..], b'[..], s[..], n + 1, l', m', e')
    ensures Shortest(s[..], count, l')
  {
    hide Mul, Add, Div, Conv, State, Degree, Updated;
    StateMeans(c[..], b[..], s[..], n, l, m, e);
    ghost var was := c[..];
    var d := Discrepancy(s, c, n, l);
    var mult := Tables.Quotient(d, e);
    l', m', e', c', b' := l, m, e, c, b;
    if d == ZERO {
      StepRight(was, b[..], s[..], n, l, m, e);
      m' := m + 1;
    } else if l * 2 <= n {
      var t := new Elem[MAX_POLY](i requires 0 <= i < MAX_POLY reads c => c[i]);
      PolyAdd(c, b, mult, m);
      WholeSum(was, b[..], s[..], n, l, m, e, mult, c[..]);
      StepLonger(was, b[..], s[..], n, l, m, e, d, c[..]);
      AllTooLong(was, b[..], s[..], n, l, m, e, d, count);
      assert t[..] == was;
      b', l', e', m' := t, n + 1 - l, d, 1;
    } else {
      PolyAdd(c, b, mult, m);
      WholeSum(was, b[..], s[..], n, l, m, e, mult, c[..]);
      StepCorrected(was, b[..], s[..], n, l, m, e, d, c[..]);
      m' := m + 1;
    }
  }
}
