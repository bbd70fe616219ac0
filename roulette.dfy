/**
 * Properties of the roulette wheel that `_roulette_selection` in Genetic.py
 * builds, with exact real arithmetic in place of floats.
 */
module RouletteWheel {
  import opened Base
  import opened Operators
  import opened Selection

  ghost predicate NonNegative(p: seq<real>) {
    forall i :: 0 <= i < |p| ==> p[i] >= 0.0
  }

  ghost predicate NonDecreasing(q: seq<real>) {
    forall i, j :: 0 <= i < j < |q| ==> q[i] <= q[j]
  }

  lemma {:induction false} SumScoresConcat(a: seq<Scored>, b: seq<Scored>)
    ensures SumScores(a + b) == SumScores(a) + SumScores(b)
    decreases |b|
  {
    if b == [] {
      assert a + b == a;
    } else {
      assert (a + b)[..|a + b| - 1] == a + b[..|b| - 1];
      assert (a + b)[|a + b| - 1] == b[|b| - 1];
      SumScoresConcat(a, b[..|b| - 1]);
    }
  }

  /** The total of the scores does not depend on their order. */
  lemma {:induction false} SumScoresPermutation(s: seq<Scored>, t: seq<Scored>)
    requires multiset(s) == multiset(t)
    ensures SumScores(s) == SumScores(t)
    decreases |s|
  {
    if s == [] {
      assert |t| == |multiset(t)| == 0;
    } else {
      var x := s[|s| - 1];
      assert s == s[..|s| - 1] + [x];
      assert x in multiset(t);
      var j :| 0 <= j < |t| && t[j] == x;
      assert t == t[..j] + [x] + t[j + 1..];
      var rest := t[..j] + t[j + 1..];
      assert multiset(t) == multiset(t[..j]) + multiset{x} + multiset(t[j + 1..]);
      assert multiset(s) == multiset(s[..|s| - 1]) + multiset{x};
      assert multiset(rest) == multiset(t[..j]) + multiset(t[j + 1..]);
      assert multiset(s[..|s| - 1]) == multiset(s) - multiset{x};
      assert multiset(rest) == multiset(t) - multiset{x};
      SumScoresPermutation(s[..|s| - 1], rest);
      SumScoresConcat(t[..j] + [x], t[j + 1..]);
      SumScoresConcat(t[..j], [x]);
      SumScoresConcat(t[..j], t[j + 1..]);
      assert SumScores([x]) == SumScores([]) + x.1;
    }
  }

  /** A sum of non-negative scores is zero exactly when every score is zero. */
  lemma {:induction false} SumScoresZero(s: seq<Scored>)
    requires forall i :: 0 <= i < |s| ==> s[i].1 >= 0.0
    ensures SumScores(s) >= 0.0
    ensures SumScores(s) == 0.0 <==> forall i :: 0 <= i < |s| ==> s[i].1 == 0.0
  {
    if s != [] {
      SumScoresZero(s[..|s| - 1]);
      assert forall i :: 0 <= i < |s| - 1 ==> s[..|s| - 1][i] == s[i];
    }
  }

  /** The running sums of non-negative numbers never decrease. */
  lemma {:induction false} CumulativeNonDecreasing(p: seq<real>)
    requires NonNegative(p)
    ensures NonDecreasing(Cumulative(p))
  {
    var q := Cumulative(p);
    forall i | 0 <= i < |q| - 1
      ensures q[i] <= q[i + 1]
    {
      assert p[..i + 2][..i + 1] == p[..i + 1];
    }
    forall i, j | 0 <= i < j < |q|
      ensures q[i] <= q[j]
    {
      StepsChain(q, i, j);
    }
  }

  lemma {:induction false} StepsChain(q: seq<real>, i: nat, j: nat)
    requires i <= j < |q|
    requires forall k :: 0 <= k < |q| - 1 ==> q[k] <= q[k + 1]
    ensures q[i] <= q[j]
    decreases j - i
  {
    if i < j {
      StepsChain(q, i, j - 1);
    }
  }

  lemma {:induction false} SumDivided(w: seq<real>, p: seq<real>, t: real)
    requires t != 0.0 && |p| == |w|
    requires forall i :: 0 <= i < |w| ==> p[i] == w[i] / t
    ensures SumReals(p) == SumReals(w) / t
  {
    if w != [] {
      SumDivided(w[..|w| - 1], p[..|p| - 1], t);
    }
  }

  /** The scores of a ranking, in order. */
  function Weights(s: seq<Scored>): (w: seq<real>)
    ensures |w| == |s| && forall i :: 0 <= i < |s| ==> w[i] == s[i].1
  {
    seq(|s|, i requires 0 <= i < |s| => s[i].1)
  }

  /** Summing one entry at a time from the front or from the back gives one total. */
  lemma {:induction false} SumRealsOfScores(s: seq<Scored>, w: seq<real>)
    requires |w| == |s| && forall i :: 0 <= i < |s| ==> w[i] == s[i].1
    ensures SumReals(w) == SumScores(s)
  {
    if s != [] {
      SumRealsOfScores(s[..|s| - 1], w[..|w| - 1]);
    }
  }

  /** The wheel's weights total the ranking's scores, whatever the order. */
  lemma WheelTotals(vals: seq<Chromosome>, f: FitnessFunction)
    ensures var ranked := Ranked(vals, f);
      SumScores(ranked) == SumScores(ChromosomesFitness(vals, f)) &&
      |ranked| == |vals| && WellScored(vals, f, ranked)
  {
    var ranked := Ranked(vals, f);
    RankedIsPermutation(vals, f);
    SortByScoreSorted(ChromosomesFitness(vals, f));
    SumScoresPermutation(ranked, ChromosomesFitness(vals, f));
  }

  lemma DivNonNegative(x: real, t: real)
    requires x >= 0.0 && t > 0.0
    ensures x / t >= 0.0
  {
    var y := x / t;
    assert y * t == x;
  }

  /** The last running sum is the whole sum. */
  lemma CumulativeEndsAtSum(p: seq<real>)
    requires |p| > 0
    ensures Cumulative(p)[|p| - 1] == SumReals(p)
  {
    assert p[..|p|] == p;
  }

  /** Each probability is the ranked score over the total. */
  lemma ProbabilitiesAreShares(vals: seq<Chromosome>, f: FitnessFunction, ranked: seq<Scored>, total: real)
    requires total > 0.0 && WellScored(vals, f, ranked)
    ensures var p := Probabilities(vals, f, ranked, total);
      forall i :: 0 <= i < |ranked| ==> p[i] == ranked[i].1 / total && p[i] >= 0.0
  {
    var p := Probabilities(vals, f, ranked, total);
    forall i | 0 <= i < |ranked|
      ensures p[i] == ranked[i].1 / total && p[i] >= 0.0
    {
      DivNonNegative(ranked[i].1, total);
    }
  }

  lemma DivSelf(t: real)
    requires t != 0.0
    ensures t / t == 1.0
  {
  }

  /** The probabilities of a wheel with a positive total sum to 1. */
  lemma ProbabilitiesSumToOne(vals: seq<Chromosome>, f: FitnessFunction, ranked: seq<Scored>, total: real)
    requires total > 0.0 && SumScores(ranked) == total && WellScored(vals, f, ranked)
    ensures NonNegative(Probabilities(vals, f, ranked, total))
    ensures SumReals(Probabilities(vals, f, ranked, total)) == 1.0
  {
    var p := Probabilities(vals, f, ranked, total);
    var w := Weights(ranked);
    ProbabilitiesAreShares(vals, f, ranked, total);
    SumDivided(w, p, total);
    SumRealsOfScores(ranked, w);
    DivSelf(total);
  }

  /**
   * With a positive total the wheel's probabilities are non-negative and
   * their running sums, `q_values`, never decrease and end at exactly 1.
   */
  lemma WheelIsDistribution(vals: seq<Chromosome>, f: FitnessFunction, ranked: seq<Scored>, total: real)
    requires ranked == Ranked(vals, f) && total == SumScores(ChromosomesFitness(vals, f))
    requires total > 0.0
    ensures |ranked| == |vals| > 0 && WellScored(vals, f, ranked)
    ensures NonDecreasing(Cumulative(Probabilities(vals, f, ranked, total)))
    ensures Cumulative(Probabilities(vals, f, ranked, total))[|vals| - 1] == 1.0
  {
    WheelTotals(vals, f);
    ProbabilitiesSumToOne(vals, f, ranked, total);
    var p := Probabilities(vals, f, ranked, total);
    CumulativeEndsAtSum(p);
    CumulativeNonDecreasing(p);
  }

  /**
   * On a non-decreasing wheel a draw lands in at most one sector: in none
   * when it is above the last running sum, otherwise in exactly one.
   */
  lemma {:induction false} WheelPicksOne(q: seq<real>, r: real, k: nat)
    requires k <= |q| && NonDecreasing(q)
    ensures k == 0 || r > q[k - 1] ==> WheelPicks(q, r, k) == []
    ensures k > 0 && r <= q[k - 1] ==>
      |WheelPicks(q, r, k)| == 1 && InSector(q, r, WheelPicks(q, r, k)[0])
  {
    if k > 0 {
      WheelPicksOne(q, r, k - 1);
      var before := WheelPicks(q, r, k - 1);
      if k > 1 && r <= q[k - 2] {
        assert !InSector(q, r, k - 1);
        assert WheelPicks(q, r, k) == before;
      } else if r <= q[k - 1] {
        assert InSector(q, r, k - 1) && before == [];
        assert WheelPicks(q, r, k) == [k - 1];
      } else if k > 1 {
        assert q[k - 2] <= q[k - 1];
      }
    }
  }

  /**
   * A draw that lands on a sector with a positive draw value `r` lands on a
   * chromosome of positive weight: a zero-fitness chromosome has an empty
   * sector.
   */
  lemma ZeroWeightSectorIsEmpty(p: seq<real>, r: real, i: nat)
    requires NonNegative(p) && i < |p| && r > 0.0
    requires InSector(Cumulative(p), r, i)
    ensures p[i] > 0.0
  {
    var q := Cumulative(p);
    if i == 0 {
      assert p[..1][..0] == [];
      assert q[0] == SumReals(p[..1][..0]) + p[0];
    } else {
      assert p[..i + 1][..i] == p[..i];
    }
  }

  lemma {:induction false} SpinPicksOnePerDraw(ranked: seq<Scored>, q: seq<real>, spins: seq<real>)
    requires |q| == |ranked| > 0 && NonDecreasing(q)
    requires forall c :: 0 <= c < |spins| ==> spins[c] <= q[|q| - 1]
    ensures |SpinPicks(ranked, q, spins)| == |spins|
  {
    if spins != [] {
      SpinPicksOnePerDraw(ranked, q, spins[..|spins| - 1]);
      WheelPicksOne(q, spins[|spins| - 1], |q|);
    }
  }

  /**
   * With a positive total fitness and draws from `random.random()` (at most
   * 1), roulette selection yields exactly one chromosome per draw, so
   * `chr1, chr2 = selection(2)` always unpacks.
   */
  lemma RouletteYieldsOnePerDraw(vals: seq<Chromosome>, f: FitnessFunction, spins: seq<real>)
    requires SumScores(ChromosomesFitness(vals, f)) > 0.0
    requires forall c :: 0 <= c < |spins| ==> spins[c] <= 1.0
    ensures RouletteSelection(vals, f, spins).Ok?
    ensures |RouletteSelection(vals, f, spins).value| == |spins|
  {
    var ranked := Ranked(vals, f);
    var total := SumScores(ChromosomesFitness(vals, f));
    WheelIsDistribution(vals, f, ranked, total);
    SpinPicksOnePerDraw(ranked, Cumulative(Probabilities(vals, f, ranked, total)), spins);
  }

  /** The total clipped fitness is zero exactly when no chromosome has a positive fitness. */
  lemma TotalIsZero(vals: seq<Chromosome>, f: FitnessFunction)
    ensures SumScores(ChromosomesFitness(vals, f)) == 0.0 <==> forall j :: 0 <= j < |vals| ==> f(vals[j]) <= 0.0
  {
    var s := Scores(vals, f);
    ChromosomesFitnessSorted(vals, f);
    SumScoresPermutation(ChromosomesFitness(vals, f), s);
    SumScoresZero(s);
    assert (forall i :: 0 <= i < |s| ==> s[i].1 == 0.0) <==>
      (forall j :: 0 <= j < |vals| ==> f(vals[j]) <= 0.0) by {
      assert forall i :: 0 <= i < |s| ==> s[i].1 == GetFitness(f, vals[i]);
    }
  }

  /** The two draws of `chr1, chr2 = self._roulette_selection(2)` yield exactly two chromosomes. */
  lemma RouletteYieldsTwo(vals: seq<Chromosome>, f: FitnessFunction, spin1: real, spin2: real)
    requires SumScores(ChromosomesFitness(vals, f)) > 0.0 && spin1 <= 1.0 && spin2 <= 1.0
    ensures RouletteSelection(vals, f, [spin1, spin2]).Ok?
    ensures |RouletteSelection(vals, f, [spin1, spin2]).value| == 2
  {
    RouletteYieldsOnePerDraw(vals, f, [spin1, spin2]);
  }

  /**
   * Roulette selection over a non-empty population raises
   * `ZeroDivisionError` exactly when no chromosome has a positive fitness.
   */
  lemma RouletteDegenerate(vals: seq<Chromosome>, f: FitnessFunction, spins: seq<real>)
    ensures RouletteSelection(vals, f, spins).Err? <==>
      |vals| > 0 && forall j :: 0 <= j < |vals| ==> f(vals[j]) <= 0.0
  {
    TotalIsZero(vals, f);
  }

  lemma {:induction false} SpinPicksInRange(vals: seq<Chromosome>, f: FitnessFunction, ranked: seq<Scored>, q: seq<real>, spins: seq<real>)
    requires |q| == |ranked| && WellScored(vals, f, ranked)
    ensures forall c :: 0 <= c < |SpinPicks(ranked, q, spins)| ==> SpinPicks(ranked, q, spins)[c] < |vals|
  {
    if spins != [] {
      SpinPicksInRange(vals, f, ranked, q, spins[..|spins| - 1]);
      var last := WheelPicks(q, spins[|spins| - 1], |q|);
      assert forall c :: 0 <= c < |last| ==> Slotted(ranked, last)[c] == ranked[last[c]].0;
    }
  }

  /** Roulette selection only ever yields slots of the population. */
  lemma RoulettePicksInRange(vals: seq<Chromosome>, f: FitnessFunction, spins: seq<real>)
    requires RouletteSelection(vals, f, spins).Ok?
    ensures forall c :: 0 <= c < |RouletteSelection(vals, f, spins).value| ==>
      RouletteSelection(vals, f, spins).value[c] < |vals|
  {
    var ranked := Ranked(vals, f);
    var total := SumScores(ChromosomesFitness(vals, f));
    RankedIsPermutation(vals, f);
    if |ranked| == 0 {
      SpinPicksInRange(vals, f, ranked, [], spins);
    } else {
      SpinPicksInRange(vals, f, ranked, Cumulative(Probabilities(vals, f, ranked, total)), spins);
    }
  }
}
