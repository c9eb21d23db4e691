/** Intensity-weighted fusion of per-telescope estimates into one event-level
    value: `sum(w * e) / sum(w)`, the expression the DL2 writer evaluates
    once for the energy and once for the classifier score. */
module Fusion {

  function Sum(xs: seq<real>): real
  {
    if xs == [] then 0.0 else xs[0] + Sum(xs[1..])
  }

  /** `sum(w_i * e_i)` over paired weights and estimates. */
  function WeightedSum(ws: seq<real>, es: seq<real>): real
    requires |ws| == |es|
  {
    if ws == [] then 0.0 else ws[0] * es[0] + WeightedSum(ws[1..], es[1..])
  }

  /** The weighted mean. The source divides without a guard, so a zero total
      weight is excluded here. */
  function Fuse(ws: seq<real>, es: seq<real>): real
    requires |ws| == |es| && Sum(ws) != 0.0
  {
    WeightedSum(ws, es) / Sum(ws)
  }

  /** The fused value is the one value that, given every weight, reproduces
      the weighted sum. */
  lemma FuseReproducesWeightedSum(ws: seq<real>, es: seq<real>)
    requires |ws| == |es| && Sum(ws) != 0.0
    ensures Fuse(ws, es) * Sum(ws) == WeightedSum(ws, es)
  {
    QuotientTimes(WeightedSum(ws, es), Sum(ws));
  }

  lemma QuotientTimes(x: real, s: real)
    requires s != 0.0
    ensures (x / s) * s == x
  {
  }

  function Mean(es: seq<real>): real
    requires |es| > 0
  {
    Sum(es) / (|es| as real)
  }

  function Min(es: seq<real>): (m: real)
    requires |es| > 0
    ensures forall i :: 0 <= i < |es| ==> m <= es[i]
    ensures exists i :: 0 <= i < |es| && m == es[i]
  {
    if |es| == 1 then es[0]
    else
      var rest := Min(es[1..]);
      assert forall i :: 1 <= i < |es| ==> es[i] == es[1..][i - 1];
      if es[0] <= rest then es[0] else rest
  }

  function Max(es: seq<real>): (m: real)
    requires |es| > 0
    ensures forall i :: 0 <= i < |es| ==> es[i] <= m
    ensures exists i :: 0 <= i < |es| && m == es[i]
  {
    if |es| == 1 then es[0]
    else
      var rest := Max(es[1..]);
      assert forall i :: 1 <= i < |es| ==> es[i] == es[1..][i - 1];
      if rest <= es[0] then es[0] else rest
  }

  /** One contributing telescope: the fused value is its own estimate. */
  lemma FuseSingle(w: real, e: real)
    requires w != 0.0
    ensures Fuse([w], [e]) == e
  {
    assert Sum([w]) == w;
    assert WeightedSum([w], [e]) == w * e;
  }

  lemma {:induction false} SumConstant(ws: seq<real>, w: real)
    requires forall i :: 0 <= i < |ws| ==> ws[i] == w
    ensures Sum(ws) == (|ws| as real) * w
  {
    if ws != [] {
      SumConstant(ws[1..], w);
    }
  }

  lemma {:induction false} WeightedSumConstant(ws: seq<real>, es: seq<real>, w: real)
    requires |ws| == |es|
    requires forall i :: 0 <= i < |ws| ==> ws[i] == w
    ensures WeightedSum(ws, es) == w * Sum(es)
  {
    if ws != [] {
      WeightedSumConstant(ws[1..], es[1..], w);
    }
  }

  /** Dividing an inequality by a positive factor. */
  lemma LeByPositive(a: real, b: real, s: real)
    requires s > 0.0 && a * s <= b * s
    ensures a <= b
  {
    assert (b - a) * s >= 0.0;
  }

  lemma BetweenByPositive(r: real, s: real, x: real, lo: real, hi: real)
    requires s > 0.0 && r * s == x && lo * s <= x <= hi * s
    ensures lo <= r <= hi
  {
    LeByPositive(lo, r, s);
    LeByPositive(r, hi, s);
  }

  lemma QuotientBetween(x: real, s: real, lo: real, hi: real)
    requires s > 0.0 && lo * s <= x <= hi * s
    ensures lo <= x / s <= hi
  {
    BetweenByPositive(x / s, s, x, lo, hi);
  }

  /** Cancelling a common non-zero factor: the arithmetic step behind the
      equal-weights case, with the sums as plain values. */
  lemma CancelFactor(r: real, s: real, x: real, n: real, w: real, y: real)
    requires n != 0.0 && w != 0.0
    requires s == n * w && x == w * y && r * s == x
    ensures r == y / n
  {
    assert r * (n * w) == w * y;
    assert (r * n - y) * w == 0.0;
  }

  /** Equal intensities: the fused value is the arithmetic mean. */
  lemma FuseEqualWeights(ws: seq<real>, es: seq<real>, w: real)
    requires |ws| == |es| > 0 && w != 0.0
    requires forall i :: 0 <= i < |ws| ==> ws[i] == w
    ensures Sum(ws) != 0.0
    ensures Fuse(ws, es) == Mean(es)
  {
    SumConstant(ws, w);
    WeightedSumConstant(ws, es, w);
    FuseReproducesWeightedSum(ws, es);
    CancelFactor(Fuse(ws, es), Sum(ws), WeightedSum(ws, es), |es| as real, w, Sum(es));
  }

  /** With non-negative weights, estimates at least `lo` give a weighted
      sum at least `lo` times the total weight. */
  lemma {:induction false} WeightedSumAbove(ws: seq<real>, es: seq<real>, lo: real)
    requires |ws| == |es|
    requires forall i :: 0 <= i < |ws| ==> ws[i] >= 0.0
    requires forall i :: 0 <= i < |es| ==> lo <= es[i]
    ensures lo * Sum(ws) <= WeightedSum(ws, es)
  {
    if ws != [] {
      WeightedSumAbove(ws[1..], es[1..], lo);
      StepAbove(ws[0], es[0], Sum(ws[1..]), WeightedSum(ws[1..], es[1..]), Sum(ws), WeightedSum(ws, es), lo);
    }
  }

  /** With non-negative weights, estimates at most `hi` give a weighted
      sum at most `hi` times the total weight. */
  lemma {:induction false} WeightedSumBelow(ws: seq<real>, es: seq<real>, hi: real)
    requires |ws| == |es|
    requires forall i :: 0 <= i < |ws| ==> ws[i] >= 0.0
    requires forall i :: 0 <= i < |es| ==> es[i] <= hi
    ensures WeightedSum(ws, es) <= hi * Sum(ws)
  {
    if ws != [] {
      WeightedSumBelow(ws[1..], es[1..], hi);
      StepBelow(ws[0], es[0], Sum(ws[1..]), WeightedSum(ws[1..], es[1..]), Sum(ws), WeightedSum(ws, es), hi);
    }
  }

  /** One more non-negative weight `w` with an estimate `e >= lo`. */
  lemma StepAbove(w: real, e: real, s: real, x: real, total: real, sum: real, lo: real)
    requires w >= 0.0 && lo <= e && lo * s <= x
    requires total == w + s && sum == w * e + x
    ensures lo * total <= sum
  {
    assert w * (e - lo) >= 0.0;
  }

  /** One more non-negative weight `w` with an estimate `e <= hi`. */
  lemma StepBelow(w: real, e: real, s: real, x: real, total: real, sum: real, hi: real)
    requires w >= 0.0 && e <= hi && x <= hi * s
    requires total == w + s && sum == w * e + x
    ensures sum <= hi * total
  {
    assert w * (hi - e) >= 0.0;
  }

  /** Non-negative intensities with a positive total: when every estimate
      lies in `[lo, hi]`, so does the fused value. */
  lemma FuseWithin(ws: seq<real>, es: seq<real>, lo: real, hi: real)
    requires |ws| == |es| > 0
    requires forall i :: 0 <= i < |ws| ==> ws[i] >= 0.0
    requires forall i :: 0 <= i < |es| ==> lo <= es[i] <= hi
    requires Sum(ws) > 0.0
    ensures lo <= Fuse(ws, es) <= hi
  {
    WeightedSumAbove(ws, es, lo);
    WeightedSumBelow(ws, es, hi);
    QuotientBetween(WeightedSum(ws, es), Sum(ws), lo, hi);
  }

  /** The convex bound: the fused value lies between the smallest and the
      largest estimate. */
  lemma FuseBetweenMinAndMax(ws: seq<real>, es: seq<real>)
    requires |ws| == |es| > 0
    requires forall i :: 0 <= i < |ws| ==> ws[i] >= 0.0
    requires Sum(ws) > 0.0
    ensures Min(es) <= Fuse(ws, es) <= Max(es)
  {
    var lo, hi := Min(es), Max(es);
    assert forall i :: 0 <= i < |es| ==> lo <= es[i] <= hi;
    FuseWithin(ws, es, lo, hi);
  }

  /** Every weight multiplied by `k`. */
  function Scale(k: real, ws: seq<real>): (r: seq<real>)
    ensures |r| == |ws|
  {
    if ws == [] then [] else [k * ws[0]] + Scale(k, ws[1..])
  }

  lemma {:induction false} SumScaled(ws: seq<real>, k: real)
    ensures Sum(Scale(k, ws)) == k * Sum(ws)
  {
    if ws != [] {
      SumScaled(ws[1..], k);
      assert Scale(k, ws)[1..] == Scale(k, ws[1..]);
    }
  }

  lemma {:induction false} WeightedSumScaled(ws: seq<real>, es: seq<real>, k: real)
    requires |ws| == |es|
    ensures WeightedSum(Scale(k, ws), es) == k * WeightedSum(ws, es)
  {
    if ws != [] {
      WeightedSumScaled(ws[1..], es[1..], k);
      assert Scale(k, ws)[1..] == Scale(k, ws[1..]);
    }
  }

  /** A common non-zero factor cancels from a quotient. */
  lemma QuotientScaled(x: real, s: real, k: real)
    requires s != 0.0 && k != 0.0
    ensures k * s != 0.0 && (k * x) / (k * s) == x / s
  {
    QuotientTimes(x, s);
    assert (k * x) == (x / s) * (k * s);
  }

  /** The intensity unit does not matter: scaling every weight by the same
      non-zero factor leaves the fused value unchanged. */
  lemma FuseScaleInvariant(ws: seq<real>, es: seq<real>, k: real)
    requires |ws| == |es| && Sum(ws) != 0.0 && k != 0.0
    ensures Sum(Scale(k, ws)) != 0.0
    ensures Fuse(Scale(k, ws), es) == Fuse(ws, es)
  {
    SumScaled(ws, k);
    WeightedSumScaled(ws, es, k);
    QuotientScaled(WeightedSum(ws, es), Sum(ws), k);
  }

  /** Three telescopes of intensity 100, 200 and 300 estimating 1.0, 1.2 and
      0.9 TeV fuse to 610/600 TeV, about 1.0167 TeV. */
  lemma FuseWorkedExample()
    ensures Fuse([100.0, 200.0, 300.0], [1.0, 1.2, 0.9]) == 61.0 / 60.0
  {
    assert Sum([100.0, 200.0, 300.0]) == 600.0;
    assert WeightedSum([100.0, 200.0, 300.0], [1.0, 1.2, 0.9]) == 610.0;
  }
}
