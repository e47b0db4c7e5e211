/**
 * `eval_poly`, `poly_fit_4` and the sample times of `fit_track_polynomials`
 * (examples/gvp_testing.rs), over exact reals.
 */
module PolyFit {
  import opened Prelude
  import opened LinearSolve

  // ---- polynomials -------------------------------------------------------------

  function Pow(t: real, i: nat): real { if i == 0 then 1.0 else Times(Pow(t, i - 1), t) }

  function Powers(t: real, n: nat): (r: Vec)
    ensures |r| == n && forall i | 0 <= i < n :: r[i] == Pow(t, i)
  {
    seq(n, i requires 0 <= i < n => Pow(t, i))
  }

  /** The value at t of c[0] + c[1]*t + c[2]*t^2 + ... */
  function Poly(c: Vec, t: real): real { Dot(Powers(t, |c|), c, |c|) }

  /** Horner's scheme on the coefficients from index i on. */
  function Horner(c: Vec, t: real, i: nat): real
    requires i <= |c|
    decreases |c| - i
  {
    if i == |c| then 0.0 else Times(Horner(c, t, i + 1), t) + c[i]
  }

  lemma {:induction false} HornerSplits(c: Vec, t: real, i: nat)
    requires i <= |c|
    ensures Poly(c, t) == Dot(Powers(t, |c|), c, i) + Times(Pow(t, i), Horner(c, t, i))
    decreases |c| - i
  {
    hide Times;
    var p, h := Pow(t, i), Horner(c, t, i);
    TimesFacts(p, h, 0.0);
    TimesFacts(h, p, 0.0);
    if i < |c| {
      HornerSplits(c, t, i + 1);
      var h' := Horner(c, t, i + 1);
      TimesFacts(p, Times(h', t), c[i]);
      TimesFacts(p, t, h');
      TimesFacts(t, h', h');
    } else {
      TimesFacts(0.0, p, p);
      TimesFacts(p, 0.0, 0.0);
    }
  }

  lemma HornerIsPoly(c: Vec, t: real)
    ensures Horner(c, t, 0) == Poly(c, t)
  {
    HornerSplits(c, t, 0);
    TimesFacts(1.0, Horner(c, t, 0), 0.0);
  }

  method EvalPoly(coeffs: Vec, t: real) returns (result: real)
    ensures result == Poly(coeffs, t)
  {
    result := 0.0;
    for i := |coeffs| downto 0
      invariant result == Horner(coeffs, t, i)
    {
      result := Times(result, t) + coeffs[i];
    }
    HornerIsPoly(coeffs, t);
  }

  predicate AllZero(c: Vec) { forall i | 0 <= i < |c| :: c[i] == 0.0 }

  ghost predicate Distinct<T>(roots: seq<T>) { forall i, j | 0 <= i < j < |roots| :: roots[i] != roots[j] }

  /** Synthetic division by (t - r). */
  function Deflated(c: Vec, r: real): (q: Vec)
    requires |c| > 0
    ensures |q| == |c| - 1
  {
    seq(|c| - 1, i requires 0 <= i < |c| - 1 => Horner(c, r, i + 1))
  }

  lemma {:induction false} Division(c: Vec, r: real, t: real, i: nat)
    requires i < |c|
    ensures Horner(c, t, i) - Horner(c, r, i) == Times(t - r, Horner(Deflated(c, r), t, i))
    decreases |c| - i
  {
    hide Times;
    if i + 1 < |c| {
      Division(c, r, t, i + 1);
      DivisionStep(Horner(c, t, i + 1), Horner(c, r, i + 1), Horner(Deflated(c, r), t, i + 1), r, t);
    } else {
      TimesFacts(0.0, t, 0.0);
      TimesFacts(0.0, r, 0.0);
      TimesFacts(t - r, 0.0, 0.0);
      TimesFacts(0.0, t - r, 0.0);
    }
  }

  lemma DivisionStep(p: real, s: real, q: real, r: real, t: real)
    requires p - s == Times(t - r, q)
    ensures Times(p, t) - Times(s, r) == Times(t - r, Times(q, t) + s)
  {
    hide Times;
    TimesFacts(t - r, Times(q, t), s);
    TimesFacts(t - r, q, t);
    TimesFacts(t, p, s);
    TimesFacts(s, t, r);
    TimesFacts(p, t, t);
    TimesFacts(s, t - r, 0.0);
    TimesFacts(p - s, t, 0.0);
  }

  /** A polynomial with as many distinct roots as coefficients is zero. */
  lemma {:induction false} TooManyRoots(c: Vec, roots: seq<real>)
    requires |roots| >= |c| && Distinct(roots)
    requires forall i | 0 <= i < |roots| :: Horner(c, roots[i], 0) == 0.0
    ensures AllZero(c)
    decreases |c|
  {
    hide Times;
    if |c| > 0 {
      var r := roots[0];
      var q := Deflated(c, r);
      forall i | 0 <= i < |roots| - 1 ensures Horner(q, roots[1..][i], 0) == 0.0 {
        Division(c, r, roots[i + 1], 0);
        NonzeroFactor(roots[i + 1] - r, Horner(q, roots[i + 1], 0));
      }
      TooManyRoots(q, roots[1..]);
      forall i | 0 <= i < |c| ensures c[i] == 0.0 {
        assert i > 0 ==> Horner(c, r, i) == q[i - 1];
        assert i < |c| - 1 ==> Horner(c, r, i + 1) == q[i];
        TimesFacts(0.0, r, 0.0);
      }
    }
  }

  /** Multiplication by (t - r). */
  function TimesLinear(q: Vec, r: real): (c: Vec)
    ensures |c| == |q| + 1
  {
    seq(|q| + 1, i requires 0 <= i <= |q| => Sub(if i > 0 then q[i - 1] else 0.0, r, if i < |q| then q[i] else 0.0))
  }

  lemma {:induction false} TimesLinearValue(q: Vec, r: real, t: real, i: nat)
    requires i <= |q|
    ensures Horner(TimesLinear(q, r), t, i) == (if i > 0 then q[i - 1] else 0.0) + Times(t - r, Horner(q, t, i))
    decreases |q| - i
  {
    hide Times;
    var c := TimesLinear(q, r);
    if i < |q| {
      TimesLinearValue(q, r, t, i + 1);
      TimesLinearStep(Horner(q, t, i + 1), q[i], r, t);
    } else {
      TimesFacts(0.0, t, 0.0);
      TimesFacts(t - r, 0.0, 0.0);
      TimesFacts(r, 0.0, 0.0);
      TimesFacts(0.0, r, 0.0);
      TimesFacts(0.0, t - r, 0.0);
    }
  }

  lemma TimesLinearStep(h: real, x: real, r: real, t: real)
    ensures Times(x + Times(t - r, h), t) - Times(r, x) == Times(t - r, Times(h, t) + x)
  {
    hide Times;
    TimesFacts(t - r, Times(h, t), x);
    TimesFacts(t - r, h, t);
    TimesFacts(t, x, Times(t - r, h));
    TimesFacts(t, Times(t - r, h), 0.0);
    TimesFacts(x + Times(t - r, h), t, 0.0);
    TimesFacts(x, t, r);
    TimesFacts(x, t - r, 0.0);
    TimesFacts(x, r, 0.0);
  }

  /** A polynomial with leading coefficient 1 that vanishes at fewer than N given points, padded to N. */
  lemma {:induction false} Vanishing(roots: seq<real>, n: nat) returns (c: Vec)
    requires |roots| < n
    ensures |c| == n && c[n - 1] == 1.0
    ensures forall i | 0 <= i < |roots| :: Horner(c, roots[i], 0) == 0.0
    decreases |roots|
  {
    hide Times, Horner;
    if roots == [] {
      c := seq(n, i => if i == n - 1 then 1.0 else 0.0);
    } else {
      var q := Vanishing(roots[1..], n - 1);
      c := TimesLinear(q, roots[0]);
      SubZero(q[n - 2], roots[0]);
      forall i | 0 <= i < |roots| ensures Horner(c, roots[i], 0) == 0.0 {
        TimesLinearValue(q, roots[0], roots[i], 0);
        TimesFacts(0.0, Horner(q, roots[i], 0), 0.0);
        TimesFacts(roots[i] - roots[0], 0.0, 0.0);
        TimesFacts(0.0, roots[i] - roots[0], 0.0);
        if i > 0 { assert Horner(q, roots[1..][i - 1], 0) == 0.0; }
      }
    }
  }

  // ---- sums over samples ---------------------------------------------------------

  /** The number of different sample times. */
  ghost function DistinctTimes(ts: seq<real>): nat { |TimeSet(ts)| }

  ghost function TimeSet(ts: seq<real>): set<real> { set t | t in ts }

  /** The values of t^i, and of a polynomial, at the sample times. */
  function Column(ts: seq<real>, i: nat): (r: seq<real>)
    ensures |r| == |ts| && forall k | 0 <= k < |ts| :: r[k] == Pow(ts[k], i)
  {
    seq(|ts|, k requires 0 <= k < |ts| => Pow(ts[k], i))
  }

  function Fitted(c: Vec, ts: seq<real>): (r: seq<real>)
    ensures |r| == |ts| && forall k | 0 <= k < |ts| :: r[k] == Poly(c, ts[k])
  {
    seq(|ts|, k requires 0 <= k < |ts| => Poly(c, ts[k]))
  }

  /** Sum of t^i * v over the first n samples. */
  function Moment(ts: seq<real>, vs: seq<real>, i: nat, n: nat): real
    requires n <= |ts| && n <= |vs|
  {
    if n == 0 then 0.0 else Moment(ts, vs, i, n - 1) + Times(Pow(ts[n - 1], i), vs[n - 1])
  }

  function Moments(ts: seq<real>, vs: seq<real>, n: nat): (r: Vec)
    requires n <= |ts| && n <= |vs|
    ensures |r| == N && forall i | 0 <= i < N :: r[i] == Moment(ts, vs, i, n)
  {
    seq(N, i requires 0 <= i < N => Moment(ts, vs, i, n))
  }

  /** Entry (i, j) is the sum of t^i * t^j over the first n samples. */
  function Gram(ts: seq<real>, n: nat): (a: Matrix)
    requires n <= |ts|
    ensures Shaped(a) && forall i | 0 <= i < N :: a[i] == Moments(ts, Column(ts, i), n)
  {
    seq(N, i requires 0 <= i < N => Moments(ts, Column(ts, i), n))
  }

  /** The sum of e(t) * v over the samples, by coefficients of e. */
  lemma {:induction false} CrossIsMoments(ts: seq<real>, e: Vec, vs: seq<real>, n: nat)
    requires n <= |ts| && n <= |vs| && |e| == N
    ensures Dot(Fitted(e, ts), vs, n) == Dot(Moments(ts, vs, n), e, |e|)
  {
    hide Times, Pow;
    var m := Moments(ts, vs, n);
    if n == 0 {
      DotVanishes(m, e, |e|);
    } else {
      CrossIsMoments(ts, e, vs, n - 1);
      var m' := Moments(ts, vs, n - 1);
      var v := vs[n - 1];
      var p := Powers(ts[n - 1], |e|);
      NextMoments(ts, vs, n - 1);
      DotAxpy(m', -v, p, e, |e|);
      NegatedTimes(v, Poly(e, ts[n - 1]));
    }
  }

  lemma NegatedTimes(v: real, y: real)
    ensures Times(-v, y) == -Times(y, v)
  {}

  lemma NextMoments(ts: seq<real>, vs: seq<real>, n: nat)
    requires n < |ts| && n < |vs|
    ensures Moments(ts, vs, n + 1) == Axpy(Moments(ts, vs, n), -vs[n], Powers(ts[n], N))
  {
    hide Times, Pow;
    var m, w := Moments(ts, vs, n + 1), Axpy(Moments(ts, vs, n), -vs[n], Powers(ts[n], N));
    forall i | 0 <= i < N ensures m[i] == w[i] { NegatedTimes(vs[n], Pow(ts[n], i)); }
  }

  function Residuals(ts: seq<real>, ys: seq<real>, c: Vec): (r: seq<real>)
    requires |ts| <= |ys|
    ensures |r| == |ts| && forall k | 0 <= k < |ts| :: r[k] == Poly(c, ts[k]) - ys[k]
  {
    seq(|ts|, k requires 0 <= k < |ts| => Poly(c, ts[k]) - ys[k])
  }

  /** The summed squared residual. */
  function Sse(ts: seq<real>, ys: seq<real>, c: Vec): real
    requires |ts| <= |ys|
  {
    var r := Residuals(ts, ys, c); Dot(r, r, |r|)
  }

  lemma {:induction false} SquaresNonneg(v: seq<real>, n: nat)
    requires n <= |v|
    ensures Dot(v, v, n) >= 0.0
    ensures Dot(v, v, n) == 0.0 ==> forall k | 0 <= k < n :: v[k] == 0.0
  {
    hide Times;
    if n > 0 {
      SquaresNonneg(v, n - 1);
      SquareNonneg(v[n - 1]);
    }
  }

  lemma SquareNonneg(x: real)
    ensures Times(x, x) >= 0.0
    ensures x != 0.0 ==> Times(x, x) > 0.0
  {
    hide Times;
    TimesFacts(0.0, x, 0.0);
    if x > 0.0 { PositiveProduct(x, x); }
    if x < 0.0 {
      PositiveProduct(-x, -x);
      NegatedTimes(x, -x);
      NegatedTimes(x, x);
    }
  }

  lemma PositiveProduct(x: real, y: real)
    requires x > 0.0 && y > 0.0
    ensures Times(x, y) > 0.0
  {}

  lemma PolySub(d: Vec, c: Vec, t: real)
    requires |d| == |c|
    ensures Poly(Axpy(d, 1.0, c), t) == Poly(d, t) - Poly(c, t)
  {
    hide Times, Dot, Pow;
    var e := Axpy(d, 1.0, c);
    var p := Powers(t, |c|);
    TimesFacts(0.0, Dot(c, p, |c|), 0.0);
    DotAxpy(d, 1.0, c, p, |c|);
    DotSymmetric(e, p, |c|);
    DotSymmetric(d, p, |c|);
    DotSymmetric(c, p, |c|);
  }

  /** |r + f|^2 == |r|^2 + 2 f.r + |f|^2 */
  lemma SquareOfSum(r: Vec, f: Vec, n: nat)
    requires |r| == |f| == n
    ensures var s := Axpy(r, -1.0, f);
            Dot(s, s, n) == Dot(r, r, n) + 2.0 * Dot(f, r, n) + Dot(f, f, n)
  {
    hide Times, Dot;
    var s := Axpy(r, -1.0, f);
    TimesFacts(0.0, Dot(f, s, n), 0.0);
    TimesFacts(0.0, Dot(f, r, n), 0.0);
    TimesFacts(0.0, Dot(f, f, n), 0.0);
    DotAxpy(r, -1.0, f, s, n);
    DotSymmetric(r, s, n);
    DotSymmetric(f, s, n);
    DotAxpy(r, -1.0, f, r, n);
    DotAxpy(r, -1.0, f, f, n);
    DotSymmetric(r, f, n);
  }

  /** The squared error of d, around c, with e = d - c. */
  lemma SseExpands(ts: seq<real>, ys: seq<real>, c: Vec, d: Vec)
    requires |ts| <= |ys| && |c| == |d|
    ensures var f := Fitted(Axpy(d, 1.0, c), ts);
            Sse(ts, ys, d) == Sse(ts, ys, c) + 2.0 * Dot(f, Residuals(ts, ys, c), |ts|) + Dot(f, f, |ts|)
  {
    var f, r, s := Fitted(Axpy(d, 1.0, c), ts), Residuals(ts, ys, c), Residuals(ts, ys, d);
    ResidualsAdd(ts, ys, c, d);
    SquareOfSum(r, f, |ts|);
  }

  lemma ResidualsAdd(ts: seq<real>, ys: seq<real>, c: Vec, d: Vec)
    requires |ts| <= |ys| && |c| == |d|
    ensures Residuals(ts, ys, d) == Axpy(Residuals(ts, ys, c), -1.0, Fitted(Axpy(d, 1.0, c), ts))
  {
    hide Times, Poly;
    forall k | 0 <= k < |ts|
      ensures Residuals(ts, ys, d)[k] == Sub(Residuals(ts, ys, c)[k], -1.0, Fitted(Axpy(d, 1.0, c), ts)[k])
    {
      TimesFacts(0.0, Fitted(Axpy(d, 1.0, c), ts)[k], 0.0);
      PolySub(d, c, ts[k]);
    }
  }

  // ---- the normal equations ------------------------------------------------------

  lemma {:induction false} MomentSub(ts: seq<real>, us: seq<real>, vs: seq<real>, ws: seq<real>, i: nat, n: nat)
    requires n <= |ts| && n <= |us| && n <= |vs| && n <= |ws|
    requires forall k | 0 <= k < n :: us[k] == vs[k] - ws[k]
    ensures Moment(ts, us, i, n) == Moment(ts, vs, i, n) - Moment(ts, ws, i, n)
  {
    hide Times, Pow;
    if n > 0 {
      MomentSub(ts, us, vs, ws, i, n - 1);
      TimesFacts(Pow(ts[n - 1], i), vs[n - 1], ws[n - 1]);
    }
  }

  lemma {:induction false} MomentIsDot(ts: seq<real>, vs: seq<real>, i: nat, n: nat)
    requires n <= |ts| && n <= |vs|
    ensures Moment(ts, vs, i, n) == Dot(Column(ts, i), vs, n)
  {
    hide Times, Pow;
    if n > 0 { MomentIsDot(ts, vs, i, n - 1); }
  }

  /** A Gram row times c is a moment of the fitted values. */
  lemma GramTimes(ts: seq<real>, c: Vec, i: nat)
    requires |c| == N
    ensures Dot(Moments(ts, Column(ts, i), |ts|), c, |c|) == Moment(ts, Fitted(c, ts), i, |ts|)
  {
    CrossIsMoments(ts, c, Column(ts, i), |ts|);
    DotSymmetric(Fitted(c, ts), Column(ts, i), |ts|);
    MomentIsDot(ts, Fitted(c, ts), i, |ts|);
  }

  /** A solution of the normal equations leaves residuals orthogonal to every quartic. */
  lemma Orthogonal(ts: seq<real>, ys: seq<real>, c: Vec, e: Vec)
    requires |ts| <= |ys| && |e| == N
    requires Solves(Gram(ts, |ts|), Moments(ts, ys, |ts|), c)
    ensures Dot(Fitted(e, ts), Residuals(ts, ys, c), |ts|) == 0.0
  {
    var rs := Residuals(ts, ys, c);
    CrossIsMoments(ts, e, rs, |ts|);
    forall i | 0 <= i < N ensures Moments(ts, rs, |ts|)[i] == 0.0 {
      GramTimes(ts, c, i);
      MomentSub(ts, rs, Fitted(c, ts), ys, i, |ts|);
      assert Dot(Gram(ts, |ts|)[i], c, |Gram(ts, |ts|)|) == Moments(ts, ys, |ts|)[i];
    }
    DotVanishes(Moments(ts, rs, |ts|), e, |e|);
  }

  /** With five distinct times only the zero quartic vanishes on every sample. */
  lemma VanishingQuarticIsZero(ts: seq<real>, c: Vec)
    requires DistinctTimes(ts) >= N && |c| == N
    requires forall k | 0 <= k < |ts| :: Poly(c, ts[k]) == 0.0
    ensures c == ZEROS
  {
    var roots := Pick(TimeSet(ts), N);
    forall i | 0 <= i < |roots| ensures Horner(c, roots[i], 0) == 0.0 {
      assert roots[i] in ts;
      HornerIsPoly(c, roots[i]);
    }
    TooManyRoots(c, roots);
  }

  lemma {:induction false} Pick<T>(s: set<T>, n: nat) returns (r: seq<T>)
    requires |s| >= n
    ensures |r| == n && Distinct(r) && forall i | 0 <= i < n :: r[i] in s
    decreases n
  {
    if n == 0 {
      r := [];
    } else {
      var x :| x in s;
      var rest := Pick(s - {x}, n - 1);
      r := [x] + rest;
    }
  }

  lemma {:induction false} Enumerate<T>(s: set<T>) returns (r: seq<T>)
    ensures |r| == |s| && forall x | x in s :: x in r
  {
    if s == {} {
      r := [];
    } else {
      var x :| x in s;
      var rest := Enumerate(s - {x});
      r := [x] + rest;
    }
  }

  /** The normal equations are nonsingular exactly when there are five distinct sample times. */
  lemma GramNonsingularExactly(ts: seq<real>)
    ensures Nonsingular(Gram(ts, |ts|)) <==> DistinctTimes(ts) >= N
  {
    var g := Gram(ts, |ts|);
    if DistinctTimes(ts) >= N {
      forall x: Vec | Solves(g, ZEROS, x) ensures x == ZEROS { KernelIsZero(ts, x); }
    } else {
      FewTimesSingular(ts);
    }
  }

  lemma KernelIsZero(ts: seq<real>, x: Vec)
    requires DistinctTimes(ts) >= N && Solves(Gram(ts, |ts|), ZEROS, x)
    ensures x == ZEROS
  {
    var f := Fitted(x, ts);
    forall i | 0 <= i < N ensures Moments(ts, f, |ts|)[i] == 0.0 {
      GramTimes(ts, x, i);
      assert Dot(Gram(ts, |ts|)[i], x, |Gram(ts, |ts|)|) == ZEROS[i];
    }
    CrossIsMoments(ts, x, f, |ts|);
    DotVanishes(Moments(ts, f, |ts|), x, |x|);
    SquaresNonneg(f, |ts|);
    VanishingQuarticIsZero(ts, x);
  }

  lemma FewTimesSingular(ts: seq<real>)
    requires DistinctTimes(ts) < N
    ensures !Nonsingular(Gram(ts, |ts|))
  {
    var g := Gram(ts, |ts|);
    var roots := Enumerate(TimeSet(ts));
    var c := Vanishing(roots, N);
    forall k | 0 <= k < |ts| ensures Poly(c, ts[k]) == 0.0 {
      assert ts[k] in TimeSet(ts);
      var i :| 0 <= i < |roots| && roots[i] == ts[k];
      HornerIsPoly(c, ts[k]);
    }
    forall i | 0 <= i < N ensures Dot(g[i], c, |g|) == ZEROS[i] {
      GramTimes(ts, c, i);
      MomentOfZero(ts, Fitted(c, ts), i, |ts|);
    }
    assert Solves(g, ZEROS, c) && c[N - 1] != ZEROS[N - 1];
  }

  lemma {:induction false} MomentOfZero(ts: seq<real>, vs: seq<real>, i: nat, n: nat)
    requires n <= |ts| && n <= |vs| && forall k | 0 <= k < n :: vs[k] == 0.0
    ensures Moment(ts, vs, i, n) == 0.0
  {
    hide Times;
    if n > 0 {
      MomentOfZero(ts, vs, i, n - 1);
      TimesFacts(Pow(ts[n - 1], i), 0.0, 0.0);
      TimesFacts(0.0, Pow(ts[n - 1], i), 0.0);
    }
  }

  /** Best among all quartics, and the only best one. */
  ghost predicate UniqueMinimiser(ts: seq<real>, ys: seq<real>, c: Vec)
    requires |ts| <= |ys|
  {
    |c| == N && forall d: Vec | |d| == N ::
      Sse(ts, ys, c) <= Sse(ts, ys, d) && (Sse(ts, ys, d) == Sse(ts, ys, c) ==> d == c)
  }

  lemma NormalSolutionMinimises(ts: seq<real>, ys: seq<real>, c: Vec)
    requires |ts| <= |ys| && DistinctTimes(ts) >= N
    requires Solves(Gram(ts, |ts|), Moments(ts, ys, |ts|), c)
    ensures UniqueMinimiser(ts, ys, c)
  {
    forall d: Vec | |d| == N
      ensures Sse(ts, ys, c) <= Sse(ts, ys, d)
      ensures Sse(ts, ys, d) == Sse(ts, ys, c) ==> d == c
    {
      var e := Axpy(d, 1.0, c);
      SseExpands(ts, ys, c, d);
      Orthogonal(ts, ys, c, e);
      SquaresNonneg(Fitted(e, ts), |ts|);
      if Sse(ts, ys, d) == Sse(ts, ys, c) {
        VanishingQuarticIsZero(ts, e);
        forall i | 0 <= i < N ensures d[i] == c[i] {
          assert e[i] == 0.0;
          TimesFacts(0.0, c[i], 0.0);
        }
      }
    }
  }

  /** Samples that lie on a quartic give that quartic back. */
  lemma FitReproduces(ts: seq<real>, ys: seq<real>, c: Vec, p: Vec)
    requires |ts| <= |ys| && |p| == N && UniqueMinimiser(ts, ys, c)
    requires forall k | 0 <= k < |ts| :: ys[k] == Poly(p, ts[k])
    ensures c == p
  {
    DotVanishes(Residuals(ts, ys, p), Residuals(ts, ys, p), |ts|);
    SquaresNonneg(Residuals(ts, ys, c), |ts|);
  }

  // ---- the fit ---------------------------------------------------------------------

  lemma PowSteps(t: real, i: nat)
    ensures Pow(t, 0) == 1.0 && Pow(t, i + 1) == Times(Pow(t, i), t)
  {}

  /** v + f * y */
  function Plus(v: real, f: real, y: real): real { v + Times(f, y) }

  /** A row of the Gram matrix after one more sample at t, with f = t^i. */
  function RowPlus(u: Vec, f: real, t: real): (w: Vec)
    requires |u| == N
    ensures |w| == N && forall j | 0 <= j < N :: w[j] == Plus(u[j], f, Pow(t, j))
  {
    seq(N, j requires 0 <= j < N => Plus(u[j], f, Pow(t, j)))
  }

  /** Row i gains ti * t^j in every column, vty[i] gains ti * y. */
  method AddToRow(vtv: array<seq<real>>, vty: array<real>, i: nat, t: real, y: real, ti: real)
    requires Arrays(vtv, vty) && i < N
    modifies vtv, vty
    ensures Arrays(vtv, vty)
    ensures vtv[..] == old(vtv[..])[i := RowPlus(old(vtv[i]), ti, t)]
    ensures vty[..] == old(vty[..])[i := Plus(old(vty[i]), ti, y)]
  {
    hide Times, Pow, RowPlus;
    PowSteps(t, 0);
    var tj := 1.0;
    ghost var u, w := vtv[i], RowPlus(vtv[i], ti, t);
    for j := 0 to N
      invariant |vtv[i]| == N && tj == Pow(t, j)
      invariant forall r | 0 <= r < N && r != i :: vtv[r] == old(vtv[r])
      invariant forall r | 0 <= r < N :: vty[r] == old(vty[r])
      invariant forall r | 0 <= r < N :: vtv[i][r] == if r < j then w[r] else u[r]
    {
      PowSteps(t, j);
      vtv[i] := vtv[i][j := Plus(vtv[i][j], ti, tj)];
      tj := Times(tj, t);
    }
    assert vtv[i] == w;
    vty[i] := Plus(vty[i], ti, y);
  }

  /** Accumulates one sample into the normal equations. */
  method AddSample(vtv: array<seq<real>>, vty: array<real>, t: real, y: real)
    requires Arrays(vtv, vty)
    modifies vtv, vty
    ensures Arrays(vtv, vty)
    ensures forall i | 0 <= i < N :: vtv[i] == RowPlus(old(vtv[i]), Pow(t, i), t)
    ensures forall i | 0 <= i < N :: vty[i] == Plus(old(vty[i]), Pow(t, i), y)
  {
    hide Times, Pow, Plus, RowPlus;
    PowSteps(t, 0);
    var ti := 1.0;
    for i := 0 to N
      invariant Arrays(vtv, vty) && ti == Pow(t, i)
      invariant forall r | 0 <= r < i :: vtv[r] == RowPlus(old(vtv[r]), Pow(t, r), t)
      invariant forall r | 0 <= r < i :: vty[r] == Plus(old(vty[r]), Pow(t, r), y)
      invariant forall r | i <= r < N :: vtv[r] == old(vtv[r]) && vty[r] == old(vty[r])
    {
      ghost var g, m := vtv[..], vty[..];
      PowSteps(t, i);
      AddToRow(vtv, vty, i, t, y, ti);
      assert forall r | 0 <= r < N && r != i :: vtv[..][r] == g[r] && vty[..][r] == m[r];
      ti := Times(ti, t);
    }
  }

  lemma NextEntry(ts: seq<real>, i: nat, j: nat, n: nat)
    requires n < |ts|
    ensures Moment(ts, Column(ts, i), j, n + 1) == Plus(Moment(ts, Column(ts, i), j, n), Pow(ts[n], i), Pow(ts[n], j))
  {
    hide Times, Pow;
    TimesFacts(Pow(ts[n], i), Pow(ts[n], j), 0.0);
  }

  lemma NextMoment(ts: seq<real>, ys: seq<real>, i: nat, n: nat)
    requires n < |ts| && n < |ys|
    ensures Moment(ts, ys, i, n + 1) == Plus(Moment(ts, ys, i, n), Pow(ts[n], i), ys[n])
  {
    hide Times, Pow;
  }

  lemma EmptySums(ts: seq<real>, ys: seq<real>)
    ensures forall i | 0 <= i < N :: Gram(ts, 0)[i] == ZEROS
    ensures Moments(ts, ys, 0) == ZEROS
  {
    forall i | 0 <= i < N ensures Gram(ts, 0)[i] == ZEROS {
      forall j | 0 <= j < N ensures Gram(ts, 0)[i][j] == 0.0 {}
    }
  }

  /** Adding sample n to the normal equations of n samples gives those of n + 1. */
  lemma NextGram(ts: seq<real>, i: nat, n: nat)
    requires n < |ts| && i < N
    ensures Gram(ts, n + 1)[i] == RowPlus(Gram(ts, n)[i], Pow(ts[n], i), ts[n])
  {
    hide Times, Pow, Moment, Plus, Column, RowPlus;
    var w, u := Gram(ts, n + 1)[i], Gram(ts, n)[i];
    var v := RowPlus(u, Pow(ts[n], i), ts[n]);
    forall j | 0 <= j < N ensures w[j] == v[j] { NextEntry(ts, i, j, n); }
  }

  /**
   * Fits a quartic to the first |ts| samples. There is a result exactly when five of the times
   * differ, and it is then the unique least-squares quartic.
   */
  method PolyFit4(ts: seq<real>, ys: seq<real>) returns (r: Option<Vec>)
    requires |ts| <= |ys|
    ensures r.Some? <==> DistinctTimes(ts) >= N
    ensures r.Some? ==> UniqueMinimiser(ts, ys, r.value)
    ensures r.Some? ==> forall p: Vec ::
              |p| == N && (forall k | 0 <= k < |ts| :: ys[k] == Poly(p, ts[k])) ==> r.value == p
  {
    hide Times, Pow, Moment, Plus, Column, RowPlus, Poly, Sse, TimeSet;
    EmptySums(ts, ys);
    var vtv := new seq<real>[N](_ => [0.0, 0.0, 0.0, 0.0, 0.0]);
    var vty := new real[N](_ => 0.0);
    for k := 0 to |ts|
      invariant fresh(vtv) && fresh(vty) && Arrays(vtv, vty)
      invariant vtv[..] == Gram(ts, k) && vty[..] == Moments(ts, ys, k)
    {
      ghost var g, m := vtv[..], vty[..];
      AddSample(vtv, vty, ts[k], ys[k]);
      forall i | 0 <= i < N ensures vtv[i] == Gram(ts, k + 1)[i] && vty[i] == Moments(ts, ys, k + 1)[i] {
        NextGram(ts, i, k);
        NextMoment(ts, ys, i, k);
        assert g[i] == Gram(ts, k)[i] && m[i] == Moments(ts, ys, k)[i];
      }
    }
    assert vtv[..] == Gram(ts, |ts|) && vty[..] == Moments(ts, ys, |ts|);
    r := Solve5x5(vtv, vty);
    GramNonsingularExactly(ts);
    if r.Some? {
      NormalSolutionMinimises(ts, ys, r.value);
      forall p: Vec | |p| == N && forall k | 0 <= k < |ts| :: ys[k] == Poly(p, ts[k])
        ensures r.value == p
      {
        FitReproduces(ts, ys, r.value, p);
      }
    }
  }

  // ---- the sample times of a track ---------------------------------------------

  const SAMPLES: nat := 21

  function SampleTimes(duration: real): (ts: seq<real>)
    ensures |ts| == SAMPLES && forall i | 0 <= i < SAMPLES :: ts[i] == i as real * duration / 20.0
  {
    seq(SAMPLES, i requires 0 <= i < SAMPLES => i as real * duration / 20.0)
  }

  /** A track fit always has enough sample times unless its duration is zero. */
  lemma SampleTimesSuffice(duration: real)
    ensures DistinctTimes(SampleTimes(duration)) >= N <==> duration != 0.0
  {
    var ts := SampleTimes(duration);
    var all := TimeSet(ts);
    if duration == 0.0 {
      forall t | t in all ensures t in {0.0} {}
      Subset(all, {0.0});
    } else {
      assert ts[0] in all && ts[1] in all && ts[2] in all && ts[3] in all && ts[4] in all;
      Subset({ts[0], ts[1], ts[2], ts[3], ts[4]}, all);
    }
  }

  lemma {:induction false} Subset<T>(a: set<T>, b: set<T>)
    requires a <= b
    ensures |a| <= |b|
  {
    if a != {} {
      var x :| x in a;
      Subset(a - {x}, b - {x});
    }
  }
}
