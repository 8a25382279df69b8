/**
 Exponentially weighted moving averages over exact reals.  `Value` holds one average;
 `CasLoop` shows what its retry loop does under concurrent callers.
 */
module Ewma {
  import opened Wrappers
  import opened Reals
  import CasLoop

  const DEFAULT_ALPHA: real := 0.05

  function Blend(alpha: real, old': real, x: real): real {
    old' * (1.0 - alpha) + x * alpha
  }

  /** The average after the observations `xs`, oldest first. */
  function Average(alpha: real, start: real, xs: seq<real>): real {
    if xs == [] then start
    else
      var n := |xs| - 1;
      Blend(alpha, Average(alpha, start, xs[..n]), xs[n])
  }

  lemma {:induction false} AverageConcat(alpha: real, start: real, xs: seq<real>, ys: seq<real>)
    ensures Average(alpha, start, xs + ys) == Average(alpha, Average(alpha, start, xs), ys)
  {
    if ys == [] {
      assert xs + ys == xs;
    } else {
      var n := |ys| - 1;
      AverageConcat(alpha, start, xs, ys[..n]);
      assert (xs + ys)[..|xs + ys| - 1] == xs + ys[..n];
    }
  }

  function Flatten(rounds: seq<seq<real>>): seq<real> {
    if rounds == [] then [] else Flatten(rounds[..|rounds| - 1]) + rounds[|rounds| - 1]
  }

  class Value {
    const alpha: real
    var bits: real

    constructor WithAlpha(alpha: real)
      ensures 0.0 < this.alpha <= 1.0
      ensures this.alpha == if 0.0 < alpha <= 1.0 then alpha else 0.05
      ensures bits == 0.0
    {
      this.alpha := if alpha <= 0.0 || alpha > 1.0 then DEFAULT_ALPHA else alpha;
      this.bits := 0.0;
    }

    /** The word once the rivals of the first `k` rounds have committed. */
    ghost function Word(start: real, rivals: seq<seq<real>>, k: nat): real
      requires k <= |rivals|
    {
      Average(alpha, start, Flatten(rivals[..k]))
    }

    /** The environment is explicit: `rivals[k]` are the values other callers commit
        between this call's load and its swap in round `k`.  The call retries through the
        rounds whose rivals changed the word, and stores the average that puts its own
        value after every rival value committed so far. */
    method Observe(value: real, rivals: seq<seq<real>>) returns (failures: nat)
      modifies this`bits
      ensures failures <= |rivals|
      ensures forall k | 0 <= k < failures :: Word(old(bits), rivals, k) != Word(old(bits), rivals, k + 1)
      ensures failures < |rivals| ==> Word(old(bits), rivals, failures) == Word(old(bits), rivals, failures + 1)
      ensures var rounds := if failures < |rivals| then failures + 1 else failures;
              bits == Average(alpha, old(bits), Flatten(rivals[..rounds]) + [value])
      ensures rivals == [] ==> bits == Blend(alpha, old(bits), value)
    {
      failures := 0;
      while true
        invariant failures <= |rivals|
        invariant forall k | 0 <= k < failures :: Word(old(bits), rivals, k) != Word(old(bits), rivals, k + 1)
        invariant bits == Word(old(bits), rivals, failures)
        decreases |rivals| - failures
      {
        var seen := bits;
        var next := Blend(alpha, seen, value);
        if failures < |rivals| {
          bits := Average(alpha, bits, rivals[failures]);
          AverageConcat(alpha, old(bits), Flatten(rivals[..failures]), rivals[failures]);
          assert rivals[..failures + 1][..failures] == rivals[..failures];
        }
        ghost var rounds := if failures < |rivals| then failures + 1 else failures;
        if bits == seen {
          AverageConcat(alpha, old(bits), Flatten(rivals[..rounds]), [value]);
          assert [value][..0] == [];
          bits := next;
          return;
        }
        failures := failures + 1;
      }
    }

    function Get(): real
      reads this
    {
      bits
    }
  }

  /******* Closed form *******/

  function Power(r: real, k: nat): real {
    if k == 0 then 1.0 else r * Power(r, k - 1)
  }

  /** The sum over the first `m` of `n` observations, oldest first, of
      alpha * keep^(n - 1 - i) * x_i. */
  function WeightedSum(alpha: real, keep: real, xs: seq<real>, n: nat, m: nat): real
    requires m <= n && m <= |xs|
  {
    if m == 0 then 0.0
    else WeightedSum(alpha, keep, xs, n, m - 1) + alpha * Power(keep, n - m) * xs[m - 1]
  }

  lemma {:induction false} OneOlder(alpha: real, keep: real, xs: seq<real>, ys: seq<real>, n: nat, m: nat)
    requires m <= n && m <= |xs| && xs <= ys
    ensures WeightedSum(alpha, keep, ys, n + 1, m) == WeightedSum(alpha, keep, xs, n, m) * keep
  {
    if m == 0 {
    } else {
      OneOlder(alpha, keep, xs, ys, n, m - 1);
      TermOlder(keep, WeightedSum(alpha, keep, xs, n, m - 1), alpha, Power(keep, n - m), xs[m - 1]);
      assert Power(keep, n + 1 - m) == keep * Power(keep, n - m);
    }
  }

  lemma TermOlder(keep: real, w: real, alpha: real, p: real, x: real)
    ensures w * keep + alpha * (keep * p) * x == (w + alpha * p * x) * keep
  {
  }

  /** After n observations the average is (1-alpha)^n of the starting value plus the sum
      of alpha * (1-alpha)^(n-i) * x_i over the observations x_1 .. x_n. */
  lemma {:induction false} ClosedForm(alpha: real, start: real, xs: seq<real>)
    ensures Average(alpha, start, xs)
         == Power(1.0 - alpha, |xs|) * start + WeightedSum(alpha, 1.0 - alpha, xs, |xs|, |xs|)
  {
    if xs == [] {
    } else {
      var n, keep := |xs| - 1, 1.0 - alpha;
      ClosedForm(alpha, start, xs[..n]);
      OneOlder(alpha, keep, xs[..n], xs, n, n);
      NewestTerm(alpha, keep, Power(keep, n), start, WeightedSum(alpha, keep, xs[..n], n, n), xs[n]);
    }
  }

  lemma NewestTerm(alpha: real, keep: real, p: real, start: real, w: real, x: real)
    ensures (p * start + w) * keep + x * alpha == keep * p * start + (w * keep + alpha * 1.0 * x)
  {
  }

  lemma {:induction false} PowerBounds(r: real, k: nat)
    requires 0.0 <= r <= 1.0
    ensures 0.0 <= Power(r, k) <= 1.0
  {
    if k == 0 {
    } else {
      PowerBounds(r, k - 1);
      Product(r, Power(r, k - 1));
      Product(1.0 - r, Power(r, k - 1));
    }
  }

  lemma BlendNonNegative(alpha: real, a: real, x: real)
    requires 0.0 <= alpha <= 1.0 && 0.0 <= a && 0.0 <= x
    ensures 0.0 <= Blend(alpha, a, x)
  {
    Product(a, 1.0 - alpha);
    Product(x, alpha);
  }

  lemma BlendMonotonic(alpha: real, a: real, x: real, cap: real, top: real)
    requires 0.0 <= alpha <= 1.0 && a <= cap && x <= top
    ensures Blend(alpha, a, x) <= Blend(alpha, cap, top)
  {
    Product(cap - a, 1.0 - alpha);
    Product(top - x, alpha);
  }

  lemma Headroom(top: real, alpha: real, p: real)
    ensures Blend(alpha, top * (1.0 - p), top) == top * (1.0 - (1.0 - alpha) * p)
  {
  }

  lemma {:induction false} AverageNonNegative(alpha: real, xs: seq<real>)
    requires 0.0 < alpha <= 1.0
    requires forall i | 0 <= i < |xs| :: 0.0 <= xs[i]
    ensures 0.0 <= Average(alpha, 0.0, xs)
  {
    if xs == [] {
    } else {
      var n := |xs| - 1;
      AverageNonNegative(alpha, xs[..n]);
      BlendNonNegative(alpha, Average(alpha, 0.0, xs[..n]), xs[n]);
    }
  }

  lemma {:induction false} AverageMonotonic(alpha: real, xs: seq<real>, ys: seq<real>)
    requires 0.0 < alpha <= 1.0 && |xs| == |ys|
    requires forall i | 0 <= i < |xs| :: xs[i] <= ys[i]
    ensures Average(alpha, 0.0, xs) <= Average(alpha, 0.0, ys)
  {
    if xs == [] {
    } else {
      var n := |xs| - 1;
      AverageMonotonic(alpha, xs[..n], ys[..n]);
      BlendMonotonic(alpha, Average(alpha, 0.0, xs[..n]), xs[n], Average(alpha, 0.0, ys[..n]), ys[n]);
    }
  }

  /** The average of equal observations approaches them geometrically. */
  lemma {:induction false} AverageOfConstant(alpha: real, xs: seq<real>, top: real)
    requires forall i | 0 <= i < |xs| :: xs[i] == top
    ensures Average(alpha, 0.0, xs) == top * (1.0 - Power(1.0 - alpha, |xs|))
  {
    if xs == [] {
    } else {
      var n := |xs| - 1;
      AverageOfConstant(alpha, xs[..n], top);
      Headroom(top, alpha, Power(1.0 - alpha, n));
    }
  }

  /** Observations in [0, top] keep an average that starts at 0 in [0, top*(1-(1-alpha)^n)];
      by `AverageOfConstant` the upper bound is attained. */
  lemma AverageBounds(alpha: real, xs: seq<real>, top: real)
    requires 0.0 < alpha <= 1.0 && 0.0 <= top
    requires forall i | 0 <= i < |xs| :: 0.0 <= xs[i] <= top
    ensures 0.0 <= Average(alpha, 0.0, xs) <= top * (1.0 - Power(1.0 - alpha, |xs|)) <= top
  {
    var tops := seq(|xs|, _ => top);
    AverageNonNegative(alpha, xs);
    AverageMonotonic(alpha, xs, tops);
    AverageOfConstant(alpha, tops, top);
    PowerBounds(1.0 - alpha, |xs|);
    Product(top, Power(1.0 - alpha, |xs|));
  }

  lemma UnitBounds(alpha: real, xs: seq<real>)
    requires 0.0 < alpha <= 1.0
    requires forall i | 0 <= i < |xs| :: 0.0 <= xs[i] <= 1.0
    ensures 0.0 <= Average(alpha, 0.0, xs) <= 1.0 - Power(1.0 - alpha, |xs|)
  {
    AverageBounds(alpha, xs, 1.0);
  }

  /******* Concurrent callers *******/

  function Picked(xs: seq<real>, order: seq<nat>): seq<real>
    requires forall k | 0 <= k < |order| :: order[k] < |xs|
  {
    seq(|order|, k requires 0 <= k < |order| => xs[order[k]])
  }

  lemma {:induction false} SequentialIsAverage(alpha: real, xs: seq<real>, start: real, order: seq<nat>)
    requires forall k | 0 <= k < |order| :: order[k] < |xs|
    ensures CasLoop.Sequential((w, x) => Blend(alpha, w, x), xs, start, order)
         == Average(alpha, start, Picked(xs, order))
  {
    if order == [] {
    } else {
      var n := |order| - 1;
      SequentialIsAverage(alpha, xs, start, order[..n]);
      assert Picked(xs, order)[..n] == Picked(xs, order[..n]);
    }
  }

  /** Any interleaving of concurrent `Observe` calls leaves the average of the committed
      values in commit order. */
  lemma ConcurrentObserve(alpha: real, start: real, xs: seq<real>, schedule: seq<CasLoop.Action>)
    requires CasLoop.Exec((w, x) => Blend(alpha, w, x), xs, start, schedule).Some?
    ensures var s := CasLoop.Exec((w, x) => Blend(alpha, w, x), xs, start, schedule).value;
            && (forall k | 0 <= k < |s.order| :: s.order[k] < |xs|)
            && s.word == Average(alpha, start, Picked(xs, s.order))
  {
    var next := (w, x) => Blend(alpha, w, x);
    CasLoop.Linearizable(next, xs, start, schedule);
    SequentialIsAverage(alpha, xs, start, CasLoop.Exec(next, xs, start, schedule).value.order);
  }

  /** So the bounds above hold at every moment of every interleaving. */
  lemma ConcurrentObserveBounds(alpha: real, xs: seq<real>, schedule: seq<CasLoop.Action>, top: real)
    requires 0.0 < alpha <= 1.0 && 0.0 <= top && (forall i | 0 <= i < |xs| :: 0.0 <= xs[i] <= top)
    requires CasLoop.Exec((w, x) => Blend(alpha, w, x), xs, 0.0, schedule).Some?
    ensures var s := CasLoop.Exec((w, x) => Blend(alpha, w, x), xs, 0.0, schedule).value;
            0.0 <= s.word <= top * (1.0 - Power(1.0 - alpha, |s.order|)) <= top
  {
    var next := (w, x) => Blend(alpha, w, x);
    ConcurrentObserve(alpha, 0.0, xs, schedule);
    AverageBounds(alpha, Picked(xs, CasLoop.Exec(next, xs, 0.0, schedule).value.order), top);
  }

  /** 1, 2, ..., k. */
  function Rising(k: nat): seq<real> {
    seq(k, i requires 0 <= i < k => (i + 1) as real)
  }

  lemma BlendBetween(alpha: real, a: real, x: real)
    requires 0.0 < alpha <= 1.0 && a < x
    ensures a < Blend(alpha, a, x) <= x
  {
    var gap := x - a;
    assert Blend(alpha, a, x) == a + gap * alpha == x - gap * (1.0 - alpha);
    Product(gap, 1.0 - alpha);
    assert gap * alpha > 0.0;
  }

  lemma {:induction false} RisingStaysBehind(alpha: real, k: nat, r: nat)
    requires 0.0 < alpha <= 1.0 && r <= k
    ensures CasLoop.Folded((w, x) => Blend(alpha, w, x), Rising(k), 0.0, r) <= r as real
  {
    if r == 0 {
    } else {
      RisingStaysBehind(alpha, k, r - 1);
      BlendBetween(alpha, CasLoop.Folded((w, x) => Blend(alpha, w, x), Rising(k), 0.0, r - 1), r as real);
    }
  }

  /** `k` concurrent `Observe` calls can need every one of the k(k+1) steps and suffer every
      one of the k(k-1)/2 failures that `CasLoop.ProgressBound` allows. */
  lemma {:induction false} WorstCase(alpha: real, k: nat)
    requires 0.0 < alpha <= 1.0
    ensures var schedule := CasLoop.Contention(k, k);
            var s := CasLoop.Exec((w, x) => Blend(alpha, w, x), Rising(k), 0.0, schedule);
            s.Some? && 2 * CasLoop.Failures(s.value.charges, k) == k * (k - 1) && |schedule| == k * (k + 1)
  {
    var next := (w, x) => Blend(alpha, w, x);
    forall r: nat | r < k ensures CasLoop.Folded(next, Rising(k), 0.0, r + 1) != CasLoop.Folded(next, Rising(k), 0.0, r) {
      RisingStaysBehind(alpha, k, r);
      BlendBetween(alpha, CasLoop.Folded(next, Rising(k), 0.0, r), (r + 1) as real);
    }
    CasLoop.BoundsAreAttained(next, Rising(k), 0.0);
  }
}
