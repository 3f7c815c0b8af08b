/**
 * The declick carry of the sample player.  After every discontinuous jump of
 * the play head the last emitted sample is captured; each following output
 * sample adds the carry and then shrinks it by 0.999, snapping it to exactly
 * zero once it falls inside (-0.0001, 0.0001).
 */
module Declick {

  const DecayFactor: real := 0.999
  const Epsilon: real := 0.0001

  function Abs(x: real): real
  {
    if x < 0.0 then -x else x
  }

  /** One per-sample step of the carry. */
  function DecayStep(c: real): (d: real)
    ensures Abs(d) <= Abs(c)
    ensures d == 0.0 || Abs(d) >= Epsilon
    ensures c == 0.0 ==> d == 0.0
  {
    var m := c * DecayFactor;
    if m < Epsilon && m > -Epsilon then 0.0 else m
  }

  /** The carry after `n` per-sample steps. */
  function DecayN(c: real, n: nat): real
  {
    if n == 0 then c else DecayStep(DecayN(c, n - 1))
  }

  /** The carry never grows in magnitude. */
  lemma {:induction false} DecayNeverGrows(c: real, n: nat)
    ensures Abs(DecayN(c, n)) <= Abs(c)
  {
    if n > 0 {
      DecayNeverGrows(c, n - 1);
    }
  }

  /** Once the carry is zero it stays zero. */
  lemma {:induction false} ZeroStaysZero(c: real, m: nat, n: nat)
    requires m <= n && DecayN(c, m) == 0.0
    ensures DecayN(c, n) == 0.0
  {
    if n > m {
      ZeroStaysZero(c, m, n - 1);
    }
  }

  /** After `k` samples the carry is at most |c| / (1 + k/1000). */
  predicate Bounded(c: real, n: nat, k: real)
  {
    Abs(DecayN(c, n)) * (1.0 + k / 1000.0) <= Abs(c)
  }

  /** The decay is at least as fast as |c| / (1 + n/1000). */
  lemma {:induction false} DecayBound(c: real, n: nat)
    ensures Bounded(c, n, n as real)
  {
    if n > 0 {
      DecayBound(c, n - 1);
      StepBound(DecayN(c, n - 1), (n - 1) as real, Abs(c));
      assert n as real == (n - 1) as real + 1.0;
    }
  }

  /** One step of the carry keeps the bound of DecayBound, one sample further on. */
  lemma StepBound(d: real, k: real, c: real)
    requires k >= 0.0
    requires Abs(d) * (1.0 + k / 1000.0) <= c
    ensures Abs(DecayStep(d)) * (1.0 + (k + 1.0) / 1000.0) <= c
  {
    var e := DecayStep(d);
    if e != 0.0 {
      var x := DecayFactor * (1.0 + (k + 1.0) / 1000.0);
      assert x <= 1.0 + k / 1000.0;
      assert Abs(d) * x <= Abs(d) * (1.0 + k / 1000.0);
      assert Abs(e) == Abs(d) * DecayFactor;
      assert Abs(e) * (1.0 + (k + 1.0) / 1000.0) == Abs(d) * x;
    }
  }

  /** Whatever its start, the carry is exactly zero after 10^7 * |c| samples. */
  lemma ReachesZero(c: real, n: nat)
    requires n as real >= 10000000.0 * Abs(c)
    ensures DecayN(c, n) == 0.0
  {
    var d := DecayN(c, n);
    if n == 0 {
      assert d == c;
    } else {
      assert d == DecayStep(DecayN(c, n - 1));
      DecayBound(c, n);
      TooSmallToSurvive(Abs(d), 1.0 + n as real / 1000.0, Abs(c));
    }
  }

  /** A carry that is zero or at least Epsilon, and bounded as DecayBound says, is zero. */
  lemma TooSmallToSurvive(a: real, f: real, c: real)
    requires a >= 0.0 && c >= 0.0
    requires a == 0.0 || a >= Epsilon
    requires a * f <= c && f >= 1.0 + 10000.0 * c
    ensures a == 0.0
  {
    assert a != 0.0 ==> f * Epsilon <= f * a;
  }
}
