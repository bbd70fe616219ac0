/**
 * The example fitness functions of `ExampleProblems`: `summer` counts the
 * ones, `oddsy_evensy` rewards ones at even positions and punishes ones at
 * odd positions, and `shop_problem` scores eight shops that are open or
 * closed by a chain of profit rules. Each is a loop (or a chain of
 * conditionals) that updates an accumulator, proved against a function
 * that states the score.
 */
module Examples {
  import opened Base
  import opened Operators

  // ---------------------------------------------------------------------------
  // summer
  // ---------------------------------------------------------------------------

  /** The sum of the elements. */
  function Sum(c: seq<int>): int {
    if c == [] then 0 else Sum(c[..|c| - 1]) + c[|c| - 1]
  }

  /** `summer`: add every element to the running fitness. */
  method Summer(chromosome: seq<int>) returns (fitness: int)
    ensures fitness == Sum(chromosome)
  {
    fitness := 0;
    for i := 0 to |chromosome|
      invariant fitness == Sum(chromosome[..i])
    {
      assert chromosome[..i + 1][..i] == chromosome[..i];
      fitness := fitness + chromosome[i];
    }
    assert chromosome[..|chromosome|] == chromosome;
  }

  /** On a chromosome of bits, `summer` counts the ones, so it lies between zero and the length. */
  lemma {:induction false} SummerCountsOnes(c: seq<int>)
    requires IsBits(c)
    ensures Sum(c) == multiset(c)[1]
    ensures 0 <= Sum(c) <= |c|
  {
    if c != [] {
      var front := c[..|c| - 1];
      assert c == front + [c[|c| - 1]];
      SummerCountsOnes(front);
    }
  }

  // ---------------------------------------------------------------------------
  // oddsy_evensy
  // ---------------------------------------------------------------------------

  /** What the element `x` at position `k` adds: `k * x` at an even position, `-(k * x)` at an odd one. */
  function Weighed(k: nat, x: int): int {
    if k % 2 == 0 then k * x else -(k * x)
  }

  /** The weighed sum of the elements, each by its position. */
  function Alternation(c: seq<int>): int {
    if c == [] then 0 else Alternation(c[..|c| - 1]) + Weighed(|c| - 1, c[|c| - 1])
  }

  /** `oddsy_evensy`: walk the positions, adding or subtracting position times element. */
  method OddsyEvensy(chromosome: seq<int>) returns (fitness: int)
    ensures fitness == Alternation(chromosome)
  {
    fitness := 0;
    for c := 0 to |chromosome|
      invariant fitness == Alternation(chromosome[..c])
    {
      assert chromosome[..c + 1][..c] == chromosome[..c];
      var i := chromosome[c];
      if c % 2 == 0 {
        fitness := fitness + c * i;
      } else {
        fitness := fitness - c * i;
      }
    }
    assert chromosome[..|chromosome|] == chromosome;
  }

  /** The string `1010...` of the given length, which the problem is after. */
  function Alternating(n: nat): (c: seq<int>)
    ensures |c| == n && IsBits(c)
  {
    seq(n, k requires 0 <= k < n => if k % 2 == 0 then 1 else 0)
  }

  /** The all-zeros chromosome scores nothing. */
  lemma {:induction false} ZerosScoreNothing(n: nat)
    ensures Alternation(seq(n, k requires 0 <= k < n => 0)) == 0
  {
    if n > 0 {
      var zeros := seq(n, k requires 0 <= k < n => 0);
      assert zeros[..n - 1] == seq(n - 1, k requires 0 <= k < n - 1 => 0);
      ZerosScoreNothing(n - 1);
    }
  }

  /** No chromosome of bits scores more than the alternating one of its length. */
  lemma {:induction false} AlternatingScoresBest(c: seq<int>)
    requires IsBits(c)
    ensures Alternation(c) <= Alternation(Alternating(|c|))
  {
    if c != [] {
      var n := |c|;
      assert Alternating(n)[..n - 1] == Alternating(n - 1);
      AlternatingScoresBest(c[..n - 1]);
    }
  }

  // ---------------------------------------------------------------------------
  // shop_problem
  // ---------------------------------------------------------------------------

  /** `[bool(i) for i in chromosome]`: a shop is open when its element is non-zero. */
  function Opened(chromosome: seq<int>): (o: seq<bool>)
    ensures |o| == |chromosome| && forall i :: 0 <= i < |o| ==> (o[i] <==> chromosome[i] != 0)
  {
    seq(|chromosome|, i requires 0 <= i < |chromosome| => chromosome[i] != 0)
  }

  /**
   * The profit of eight shops `a` to `h`, open or closed, as the sum of
   * what each rule of the code adds.
   */
  function ShopScore(o: seq<bool>): int
    requires |o| == 8
  {
    var a, b, c, d, f, g, h := o[0], o[1], o[2], o[3], o[5], o[6], o[7];
    var ruleA := if g && !d then 400 else if !d then 100 else 0;
    var ruleB := if !d && !a then 800 else 0;
    var ruleC := if !b then 600 else 0;
    var ruleD := if !g && h then 200 else if !g then 150 else 0;
    var ruleF := if !h then 400 else 0;
    var ruleG := if d then 220 else 80;
    var ruleH := if !f && !a then 380 else 0;
    ruleA + ruleB + ruleC + ruleD + ruleF + ruleG + ruleH
  }

  /**
   * `shop_problem`: unpack the eight shop flags, which raises `ValueError`
   * for any other length, then apply the rules one after another.
   */
  method ShopProblem(chromosome: seq<int>) returns (r: Result<int>)
    ensures |chromosome| != 8 ==> r == Err(ValueError)
    ensures |chromosome| == 8 ==> r == Ok(ShopScore(Opened(chromosome)))
    ensures r.Ok? ==> 220 <= r.value <= 2660
  {
    var open := Opened(chromosome);
    if |open| != 8 {
      return Err(ValueError);
    }
    var a, b, c, d, e, f, g, h := open[0], open[1], open[2], open[3], open[4], open[5], open[6], open[7];
    var score := 0;
    if g && !d {
      score := score + 400;
    } else if !d {
      score := score + 100;
    }
    if !d && !a {
      score := score + 800;
    }
    if !b {
      score := score + 600;
    }
    if !g && h {
      score := score + 200;
    } else if !g {
      score := score + 150;
    }
    if !h {
      score := score + 400;
    }
    if d {
      score := score + 220;
    } else {
      score := score + 80;
    }
    if !f && !a {
      score := score + 380;
    }
    ShopScoreBounds(open);
    r := Ok(score);
  }

  /** Every combination of open shops scores between 220 and 2660. */
  lemma ShopScoreBounds(o: seq<bool>)
    requires |o| == 8
    ensures 220 <= ShopScore(o) <= 2660
  {
  }

  /** Both bounds are met: only `g` open scores 2660, and `a`, `b`, `d`, `g`, `h` open score 220. */
  lemma ShopScoreExtremes()
    ensures ShopScore([false, false, false, false, false, false, true, false]) == 2660
    ensures ShopScore([true, true, false, true, false, false, true, true]) == 220
  {
  }

  /** Whether shop `e` is open never changes the score: no rule of the code reads it. */
  lemma ShopIgnoresE(o: seq<bool>, open: bool)
    requires |o| == 8
    ensures ShopScore(o[4 := open]) == ShopScore(o)
  {
  }

  /** The `G` rule adds 220 when `d` is open and 80 otherwise, and the other rules add nothing negative. */
  lemma ShopScoreAtLeastRuleG(o: seq<bool>)
    requires |o| == 8
    ensures ShopScore(o) >= if o[3] then 220 else 80
  {
  }
}
