/** Sum, total variation and score of the probabilities recorded for one candidate. */
module Scores {
  import RealFacts

  function Abs(x: real): real {
    if x < 0.0 then -x else x
  }

  function Total(ps: seq<real>): real {
    if ps == [] then 0.0 else Total(ps[..|ps| - 1]) + ps[|ps| - 1]
  }

  /** The accumulated `gap`: the first probability is its own predecessor. */
  function Variation(ps: seq<real>): (v: real)
    ensures v >= 0.0
  {
    if |ps| <= 1 then 0.0
    else Variation(ps[..|ps| - 1]) + Abs(ps[|ps| - 1] - ps[|ps| - 2])
  }

  datatype Stats = Stats(nconns: nat, avg: real, gap: real, score: real)

  /** What getAllServers stores: the score divides by the total gap, not by the average one. */
  function Summarized(sum: real, gap: real, nconns: nat): Stats
    requires nconns >= 1 && gap >= 0.0
  {
    Stats(nconns, sum / nconns as real, gap / nconns as real, sum / (gap + 1.0))
  }

  function StatsOf(ps: seq<real>): Stats
    requires ps != []
  {
    Summarized(Total(ps), Variation(ps), |ps|)
  }

  predicate Proper(ps: seq<real>) {
    ps != [] && forall i | 0 <= i < |ps| :: 0.0 < ps[i] < 1.0
  }

  predicate AllEqual(ps: seq<real>) {
    forall i, j | 0 <= i < j < |ps| :: ps[i] == ps[j]
  }

  lemma {:induction false} TotalBounds(ps: seq<real>)
    requires Proper(ps)
    ensures 0.0 < Total(ps) < |ps| as real
    ensures Variation(ps) <= |ps| as real - 1.0
    decreases |ps|
  {
    var init := ps[..|ps| - 1];
    if init == [] {
      assert Total(init) == 0.0;
    } else {
      TotalBounds(init);
    }
  }

  lemma {:induction false} NoVariation(ps: seq<real>)
    ensures Variation(ps) == 0.0 <==> AllEqual(ps)
    decreases |ps|
  {
    var n := |ps|;
    if n > 1 {
      var init := ps[..n - 1];
      NoVariation(init);
      if Variation(ps) == 0.0 {
        assert AllEqual(init) && ps[n - 1] == ps[n - 2];
        forall i, j | 0 <= i < j < n ensures ps[i] == ps[j] {
          if i < n - 2 { assert init[i] == init[n - 2]; }
          if j < n - 2 { assert init[j] == init[n - 2]; }
        }
      }
    }
  }

  lemma RatioBounds(total: real, n: real, v1: real)
    requires 0.0 < total < n && 1.0 <= v1 <= n
    ensures 0.0 < total / n <= total / v1 <= total
    ensures total / v1 == total <==> v1 == 1.0
  {
    RealFacts.DivBound(total, n, 0.0);
    RealFacts.DivBound(total, v1, 0.0);
    var score := total / v1;
    RealFacts.DivTimes(total, v1);
    RealFacts.MulOrder(v1, n, score);
    RealFacts.DivBound(total, n, score);
    RealFacts.MulOrder(1.0, v1, total);
    RealFacts.DivBound(total, v1, total);
  }

  /** The sum of one number is the number, and sums of parts add up. */
  lemma {:induction false} TotalConcat(a: seq<real>, b: seq<real>)
    ensures |b| == 1 ==> Total(b) == b[0]
    ensures Total(a + b) == Total(a) + Total(b)
    decreases |b|
  {
    if b == [] {
      assert a + b == a;
    } else {
      var b' := b[..|b| - 1];
      TotalConcat(a, b');
      assert (a + b)[..|a + b| - 1] == a + b';
    }
  }

  /** The score is the quotient of the sum and the total variation plus one; the average and the
      gap are the quotients of the sum and the total variation by the number. */
  lemma ScoreTimesGap(ps: seq<real>, s: Stats)
    requires ps != [] && s == StatsOf(ps)
    ensures Determined(Total(ps), Variation(ps), |ps|, s)
  {
    FiguresTimes(Total(ps), Variation(ps), |ps|, s);
  }

  /** Number, sum and total variation of the probabilities determine all figures. */
  predicate Determined(sum: real, gap: real, n: nat, s: Stats) {
    s.nconns == n && s.score * (gap + 1.0) == sum && s.avg * n as real == sum && s.gap * n as real == gap
  }

  lemma FiguresTimes(sum: real, gap: real, n: nat, s: Stats)
    requires n >= 1 && gap >= 0.0 && s == Summarized(sum, gap, n)
    ensures Determined(sum, gap, n, s)
  {
    RealFacts.DivTimes(sum, gap + 1.0);
    RealFacts.DivTimes(sum, n as real);
    RealFacts.DivTimes(gap, n as real);
  }

  lemma AverageTimesCount(ps: seq<real>, s: Stats)
    requires ps != [] && s == StatsOf(ps)
    ensures s.avg * |ps| as real == Total(ps)
  {
    RealFacts.DivBound(Total(ps), |ps| as real, s.avg);
  }

  /** Main bounds: the score lies between the average and the sum, and reaches the sum exactly
      for constant probabilities. AverageTimesCount and ScoreTimesGap determine both exactly. */
  lemma ScoreBounds(ps: seq<real>, s: Stats)
    requires Proper(ps) && s == StatsOf(ps)
    ensures s.nconns == |ps|
    ensures 0.0 < s.avg <= s.score <= Total(ps) < |ps| as real
    ensures s.score == Total(ps) <==> AllEqual(ps)
  {
    TotalBounds(ps);
    NoVariation(ps);
    RatioBounds(Total(ps), |ps| as real, Variation(ps) + 1.0);
  }

  lemma LargerDivisor(total: real, small: real, large: real)
    requires 0.0 < total && 0.0 < small <= large
    ensures total / large <= total / small
    ensures total / large == total / small <==> small == large
  {
    var q := total / small;
    RealFacts.DivBound(total, small, q);
    RealFacts.DivBound(total, small, 0.0);
    RealFacts.MulOrder(small, large, q);
    RealFacts.DivBound(total, large, q);
  }

  /** The project report divides by the average gap plus one. The code's score is never higher,
      and the two agree exactly for one record or for constant probabilities. */
  lemma CodeAgainstReport(ps: seq<real>, s: Stats)
    requires Proper(ps) && s == StatsOf(ps)
    ensures s.score <= Total(ps) / (s.gap + 1.0)
    ensures s.score == Total(ps) / (s.gap + 1.0) <==> |ps| == 1 || AllEqual(ps)
  {
    TotalBounds(ps);
    NoVariation(ps);
    AverageGap(Variation(ps), |ps| as real);
    LargerDivisor(Total(ps), s.gap + 1.0, Variation(ps) + 1.0);
  }

  lemma AverageGap(v: real, n: real)
    requires 0.0 <= v && 1.0 <= n
    ensures 0.0 <= v / n <= v
    ensures v / n == v <==> v == 0.0 || n == 1.0
  {
    RealFacts.DivBound(v, n, 0.0);
    RealFacts.DivBound(v, n, v);
    if v > 0.0 { RealFacts.MulOrder(1.0, n, v); }
    RealFacts.DivOrder(0.0, v, n);
  }

  // ------------------------------------------------------- variation and spread

  function Max(ps: seq<real>): (m: real)
    requires ps != []
    ensures m in ps && forall i | 0 <= i < |ps| :: ps[i] <= m
  {
    var n := |ps| - 1;
    if n == 0 then ps[0]
    else
      var m := Max(ps[..n]);
      assert forall i | 0 <= i < n :: ps[i] == ps[..n][i];
      if m < ps[n] then ps[n] else m
  }

  function Min(ps: seq<real>): (m: real)
    requires ps != []
    ensures m in ps && forall i | 0 <= i < |ps| :: m <= ps[i]
  {
    var n := |ps| - 1;
    if n == 0 then ps[0]
    else
      var m := Min(ps[..n]);
      assert forall i | 0 <= i < n :: ps[i] == ps[..n][i];
      if ps[n] < m then ps[n] else m
  }

  /** The net change from a to b, counted upwards or downwards. */
  function Change(up: bool, a: real, b: real): real {
    if up then b - a else a - b
  }

  predicate Follows(ps: seq<real>, up: bool) {
    forall i, j | 0 <= i < j < |ps| :: Change(up, ps[i], ps[j]) >= 0.0
  }

  predicate Monotone(ps: seq<real>) {
    Follows(ps, true) || Follows(ps, false)
  }

  lemma {:induction false} VariationSplit(ps: seq<real>, k: nat)
    requires k < |ps|
    ensures Variation(ps) == Variation(ps[..k + 1]) + Variation(ps[k..])
    decreases |ps|
  {
    var n := |ps|;
    if k == n - 1 {
      assert ps[..k + 1] == ps;
    } else {
      VariationSplit(ps[..n - 1], k);
      assert ps[..n - 1][..k + 1] == ps[..k + 1];
      assert ps[k..][..n - k - 1] == ps[..n - 1][k..];
    }
  }

  /** Steps that follow a direction, extended by one more. */
  lemma FollowsSnoc(ps: seq<real>, up: bool)
    requires |ps| > 1
    ensures Follows(ps, up) <==>
            Follows(ps[..|ps| - 1], up) && Change(up, ps[|ps| - 2], ps[|ps| - 1]) >= 0.0
  {
  }

  /** Total variation is at least the net change, with equality exactly when every step goes
      in that direction. */
  lemma {:induction false} VariationReach(ps: seq<real>, up: bool)
    requires ps != []
    ensures Variation(ps) >= Change(up, ps[0], ps[|ps| - 1])
    ensures Variation(ps) == Change(up, ps[0], ps[|ps| - 1]) <==> Follows(ps, up)
    decreases |ps|
  {
    if |ps| > 1 {
      VariationReach(ps[..|ps| - 1], up);
      FollowsSnoc(ps, up);
    }
  }

  lemma VariationEnds(ps: seq<real>)
    requires ps != []
    ensures Abs(ps[|ps| - 1] - ps[0]) <= Variation(ps)
  {
  }

  /** Cut at two positions, the variation falls into three parts. */
  lemma VariationThree(ps: seq<real>, i: nat, j: nat)
    requires i <= j < |ps|
    ensures Variation(ps) == Variation(ps[..i + 1]) + Variation(ps[i..j + 1]) + Variation(ps[j..])
  {
    VariationSplit(ps, i);
    VariationSplit(ps[i..], j - i);
    SliceOfTail(ps, i, j);
  }

  lemma SliceOfTail(ps: seq<real>, i: nat, j: nat)
    requires i <= j < |ps|
    ensures ps[i..][..j - i + 1] == ps[i..j + 1] && ps[i..][j - i..] == ps[j..]
  {
  }

  /** Between any two positions the variation covers their difference; if it covers no more,
      nothing moves before or after them. */
  lemma VariationBetween(ps: seq<real>, i: nat, j: nat, up: bool)
    requires i <= j < |ps|
    ensures Variation(ps) >= Change(up, ps[i], ps[j])
    ensures Variation(ps) == Change(up, ps[i], ps[j]) ==> ps[i] == ps[0] && ps[j] == ps[|ps| - 1]
  {
    VariationThree(ps, i, j);
    VariationReach(ps[i..j + 1], up);
    VariationEnds(ps[..i + 1]);
    VariationEnds(ps[j..]);
  }

  /** Main result: nconns * gap is at least the spread of the probabilities, with equality
      exactly on monotone sequences. */
  lemma GapCoversSpread(ps: seq<real>, s: Stats)
    requires ps != [] && s == StatsOf(ps)
    ensures s.gap * |ps| as real == Variation(ps) >= Max(ps) - Min(ps)
    ensures s.gap * |ps| as real == Max(ps) - Min(ps) <==> Monotone(ps)
  {
    RealFacts.DivBound(Variation(ps), |ps| as real, s.gap);
    SpreadIsReached(ps);
  }

  lemma SpreadIsReached(ps: seq<real>)
    requires ps != []
    ensures Variation(ps) >= Max(ps) - Min(ps)
    ensures Variation(ps) == Max(ps) - Min(ps) <==> Monotone(ps)
  {
    var i :| 0 <= i < |ps| && ps[i] == Min(ps);
    var j :| 0 <= j < |ps| && ps[j] == Max(ps);
    VariationReach(ps, true);
    VariationReach(ps, false);
    if i <= j { VariationBetween(ps, i, j, true); } else { VariationBetween(ps, j, i, false); }
  }
}
