/** Cumulative and running performance: means of the logged instant
    performances as numpy computes them, where one NaN entry makes the sum,
    and so the mean, NaN. The rounding to two decimals is not modelled. */
module Performance {
  import opened Values
  import opened Config

  predicate HasNaN(xs: seq<Num>)
  {
    exists i :: 0 <= i < |xs| && xs[i].NaN?
  }

  /** Float addition: NaN absorbs everything. */
  function Add(a: Num, b: Num): Num
  {
    if a.NaN? || b.NaN? then NaN else Fin(a.v + b.v)
  }

  /** sum() over a float array, left to right. */
  function Total(xs: seq<Num>): Num
  {
    if xs == [] then Fin(0.0) else Add(Total(xs[..|xs| - 1]), xs[|xs| - 1])
  }

  /** sum(xs) / len(xs). */
  function Mean(xs: seq<Num>): Num
    requires |xs| > 0
  {
    match Total(xs)
    case NaN => NaN
    case Fin(s) => Fin(s / |xs| as real)
  }

  /** Python's xs[-w:]: the last w entries, or all of them when there are fewer. */
  function Last(xs: seq<Num>, w: nat): (r: seq<Num>)
    ensures |r| == if |xs| < w then |xs| else w
    ensures r == xs[|xs| - |r|..]
  {
    if |xs| < w then xs else xs[|xs| - w..]
  }

  /** The mean over every logged trial. */
  function Cumulative(xs: seq<Num>): Num
    requires |xs| > 0
  {
    Mean(xs)
  }

  /** The mean over the last ten logged trials, or over all of them when there
      are fewer. */
  function Running(xs: seq<Num>): Num
    requires |xs| > 0
  {
    Mean(Last(xs, RunningWindow))
  }

  /** One NaN anywhere makes the sum NaN, and only a NaN does. */
  lemma {:induction false} TotalNaN(xs: seq<Num>)
    ensures Total(xs).NaN? <==> HasNaN(xs)
  {
    if xs != [] {
      var init := xs[..|xs| - 1];
      TotalNaN(init);
      assert forall i :: 0 <= i < |init| ==> init[i] == xs[i];
      if HasNaN(xs) && !xs[|xs| - 1].NaN? {
        var i :| 0 <= i < |xs| && xs[i].NaN?;
        assert init[i].NaN?;
      }
    }
  }

  /** The cumulative performance is NaN exactly when some logged trial is NaN:
      the code does not leave NaN entries out of the mean. */
  lemma CumulativeNaN(xs: seq<Num>)
    requires |xs| > 0
    ensures Cumulative(xs).NaN? <==> HasNaN(xs)
  {
    TotalNaN(xs);
  }

  /** The running performance is NaN exactly when one of the last ten logged
      trials is: an older NaN is forgotten once it leaves the window. */
  lemma RunningNaN(xs: seq<Num>)
    requires |xs| > 0
    ensures Running(xs).NaN? <==> HasNaN(Last(xs, RunningWindow))
    ensures !HasNaN(xs) ==> Running(xs).Fin?
  {
    TotalNaN(Last(xs, RunningWindow));
    var w := Last(xs, RunningWindow);
    if HasNaN(w) {
      var i :| 0 <= i < |w| && w[i].NaN?;
      assert xs[|xs| - |w| + i] == w[i];
    }
  }

  /** Until the window fills, the running and cumulative performance agree. */
  lemma RunningEqualsCumulativeEarly(xs: seq<Num>)
    requires 0 < |xs| <= RunningWindow
    ensures Running(xs) == Cumulative(xs)
  {
    assert Last(xs, RunningWindow) == xs;
  }

  /** Once the window is full, the running performance is the cumulative
      performance of the last ten entries alone. */
  lemma RunningIsCumulativeOfWindow(xs: seq<Num>)
    requires |xs| >= RunningWindow
    ensures Running(xs) == Cumulative(xs[|xs| - RunningWindow..])
  {
  }

  /** n copies of x added up. */
  function Times(n: nat, x: real): real
  {
    if n == 0 then 0.0 else Times(n - 1, x) + x
  }

  lemma {:induction false} TimesIsProduct(n: nat, x: real)
    ensures Times(n, x) == n as real * x
  {
    if n > 0 {
      TimesIsProduct(n - 1, x);
    }
  }

  /** The sum of n finite entries lies between n times the smallest allowed and
      n times the largest allowed value. */
  lemma {:induction false} TotalWithin(xs: seq<Num>, lo: real, hi: real)
    requires forall i :: 0 <= i < |xs| ==> xs[i].Fin? && lo <= xs[i].v <= hi
    ensures Total(xs).Fin?
    ensures Times(|xs|, lo) <= Total(xs).v <= Times(|xs|, hi)
  {
    if xs != [] {
      TotalWithin(xs[..|xs| - 1], lo, hi);
    }
  }

  /** A mean of finite values within [lo, hi] is finite and within [lo, hi]. */
  lemma MeanWithin(xs: seq<Num>, lo: real, hi: real)
    requires |xs| > 0
    requires forall i :: 0 <= i < |xs| ==> xs[i].Fin? && lo <= xs[i].v <= hi
    ensures Mean(xs).Fin? && lo <= Mean(xs).v <= hi
  {
    TotalWithin(xs, lo, hi);
    var m := DivBounds(Total(xs).v, |xs|, lo, hi);
    assert Mean(xs) == Fin(m);
  }

  lemma DivBounds(s: real, n: nat, lo: real, hi: real) returns (m: real)
    requires n > 0 && Times(n, lo) <= s <= Times(n, hi)
    ensures m == s / n as real && lo <= m <= hi
  {
    TimesIsProduct(n, lo);
    TimesIsProduct(n, hi);
    m := s / n as real;
    assert m * n as real == s;
  }

  /** Performances logged as percentages keep both means within 0 .. 100. */
  lemma PerformanceWithinPercent(xs: seq<Num>)
    requires |xs| > 0
    requires forall i :: 0 <= i < |xs| ==> xs[i].Fin? && 0.0 <= xs[i].v <= 100.0
    ensures Cumulative(xs).Fin? && 0.0 <= Cumulative(xs).v <= 100.0
    ensures Running(xs).Fin? && 0.0 <= Running(xs).v <= 100.0
  {
    MeanWithin(xs, 0.0, 100.0);
    var w := Last(xs, RunningWindow);
    assert forall i :: 0 <= i < |w| ==> w[i] == xs[|xs| - |w| + i];
    MeanWithin(w, 0.0, 100.0);
  }

  /** The same value on every trial is its own mean. */
  lemma MeanOfConstant(xs: seq<Num>, c: real)
    requires |xs| > 0
    requires forall i :: 0 <= i < |xs| ==> xs[i] == Fin(c)
    ensures Mean(xs) == Fin(c)
  {
    MeanWithin(xs, c, c);
  }

  /** The cumulative performance can be kept incrementally: appending one
      finite value x to n finite values moves the mean to (n * mean + x) / (n + 1). */
  lemma CumulativeIncremental(xs: seq<Num>, x: real)
    requires |xs| > 0 && !HasNaN(xs)
    ensures Cumulative(xs).Fin? && Cumulative(xs + [Fin(x)]).Fin?
    ensures Cumulative(xs + [Fin(x)]).v
         == (|xs| as real * Cumulative(xs).v + x) / (|xs| as real + 1.0)
  {
    TotalNaN(xs);
    var ys := xs + [Fin(x)];
    assert ys[..|ys| - 1] == xs;
    var n := |xs| as real;
    var s := Total(xs).v;
    assert Total(ys) == Fin(s + x);
    assert n * (s / n) == s;
  }
}
