/**
 * The genetic operators of `Population` in Genetic.py: single-point,
 * two-point and fixed-common-feature crossover, and the one-bit mutation.
 * Every random draw is an argument: `randrange(0, n)` is a `nat` taken
 * modulo `n` (so every value the draw can produce is covered), and the
 * `random.choice([0, 1])` calls of the fixed-common crossover read a stream
 * of draws indexed by position.
 */
module Operators {
  import opened Base

  /** A chromosome is a Python list of ints; the engine keeps them 0 or 1. */
  type Chromosome = seq<int>

  predicate IsBit(b: int) { b == 0 || b == 1 }

  predicate IsBits(c: Chromosome) { forall i :: 0 <= i < |c| ==> IsBit(c[i]) }

  /**
   * `_single_point_crossover`: `chr1[:k] + chr2[k:]` and `chr2[:k] + chr1[k:]`.
   * For parents of one length, both children have that length and at every
   * position the two children hold the two parent bits, kept before the
   * point and swapped from it on.
   */
  function SinglePoint(chr1: Chromosome, chr2: Chromosome, point: nat): (children: (Chromosome, Chromosome))
    ensures |chr1| == |chr2| && point <= |chr1| ==>
      |children.0| == |chr1| && |children.1| == |chr1| &&
      forall i :: 0 <= i < |chr1| ==>
        if i < point then children.0[i] == chr1[i] && children.1[i] == chr2[i]
        else children.0[i] == chr2[i] && children.1[i] == chr1[i]
  {
    (Take(chr1, point) + Drop(chr2, point), Take(chr2, point) + Drop(chr1, point))
  }

  /**
   * `_two_point_crossover`: `chr1[:a] + chr2[a:b] + chr1[b:]` and the mirror
   * child (for `a > b` the middle slice is empty, as in Python).
   */
  function TwoPoint(chr1: Chromosome, chr2: Chromosome, a: nat, b: nat): (children: (Chromosome, Chromosome))
    ensures |chr1| == |chr2| && a <= b <= |chr1| ==>
      children == (chr1[..a] + chr2[a..b] + chr1[b..], chr2[..a] + chr1[a..b] + chr2[b..])
  {
    (Take(chr1, a) + Slice(chr2, a, b) + Drop(chr1, b),
     Take(chr2, a) + Slice(chr1, a, b) + Drop(chr2, b))
  }

  /**
   * For parents of one length and `a <= b`, both two-point children have
   * that length and exactly the positions in `[a, b)` are exchanged.
   */
  lemma TwoPointExchangesSegment(chr1: Chromosome, chr2: Chromosome, a: nat, b: nat)
    requires |chr1| == |chr2| && a <= b <= |chr1|
    ensures var (c3, c4) := TwoPoint(chr1, chr2, a, b);
      |c3| == |chr1| && |c4| == |chr1| &&
      forall i :: 0 <= i < |chr1| ==>
        if a <= i < b then c3[i] == chr2[i] && c4[i] == chr1[i]
        else c3[i] == chr1[i] && c4[i] == chr2[i]
  {
    var (c3, c4) := TwoPoint(chr1, chr2, a, b);
    assert c3 == chr1[..a] + chr2[a..b] + chr1[b..];
    assert c4 == chr2[..a] + chr1[a..b] + chr2[b..];
    forall i | 0 <= i < |chr1|
      ensures if a <= i < b then c3[i] == chr2[i] && c4[i] == chr1[i]
              else c3[i] == chr1[i] && c4[i] == chr2[i]
    {
      SegmentAt(chr1, chr2, a, b, i);
      SegmentAt(chr2, chr1, a, b, i);
    }
  }

  /** Indexing `x[..a] + y[a..b] + x[b..]` at `i`. */
  lemma SegmentAt(x: Chromosome, y: Chromosome, a: nat, b: nat, i: nat)
    requires |x| == |y| && a <= b <= |x| && i < |x|
    ensures (x[..a] + y[a..b] + x[b..])[i] == if a <= i < b then y[i] else x[i]
  {
    if i >= b {
      assert (x[..a] + y[a..b] + x[b..])[i] == x[b..][i - b];
    }
  }

  /**
   * `_random_single_point_crossover`: the point is `randrange(0, len(chr1))`,
   * which raises on an empty first parent.
   */
  function RandomSinglePoint(chr1: Chromosome, chr2: Chromosome, draw: nat): (r: Result<(Chromosome, Chromosome)>)
    ensures r.Err? <==> |chr1| == 0
    ensures r.Ok? ==> r.value == SinglePoint(chr1, chr2, draw % |chr1|)
  {
    if |chr1| == 0 then Err(ValueError) else Ok(SinglePoint(chr1, chr2, draw % |chr1|))
  }

  /**
   * `_random_two_point_crossover`: two `randrange(0, len(chr1))` draws,
   * ordered so that the first cut is the smaller.
   */
  function RandomTwoPoint(chr1: Chromosome, chr2: Chromosome, drawA: nat, drawB: nat): (r: Result<(Chromosome, Chromosome)>)
    ensures r.Err? <==> |chr1| == 0
    ensures r.Ok? ==>
      var a, b := drawA % |chr1|, drawB % |chr1|;
      r.value == TwoPoint(chr1, chr2, Min(a, b), Max(a, b)) && Min(a, b) <= Max(a, b) < |chr1|
  {
    if |chr1| == 0 then Err(ValueError)
    else
      var a, b := drawA % |chr1|, drawB % |chr1|;
      Ok(TwoPoint(chr1, chr2, Min(a, b), Max(a, b)))
  }

  /** The bit that `random.choice([0, 1])` returns for draw number `k`. */
  function NoiseBit(noise: nat -> nat, k: nat): (b: int)
    ensures IsBit(b)
  {
    noise(k) % 2
  }

  /**
   * `_fixed_common_feature_crossover`, as a value: `zip` stops at the shorter
   * parent; where the parents agree both children copy the bit, elsewhere
   * the first child takes noise draw `2i` and the second draw `2i + 1`.
   */
  function FixedCommon(chr1: Chromosome, chr2: Chromosome, noise: nat -> nat): (children: (Chromosome, Chromosome))
    ensures |children.0| == |children.1| == Min(|chr1|, |chr2|)
    ensures forall i :: 0 <= i < |children.0| && chr1[i] == chr2[i] ==>
      children.0[i] == chr1[i] && children.1[i] == chr1[i]
    ensures forall i :: 0 <= i < |children.0| && chr1[i] != chr2[i] ==>
      IsBit(children.0[i]) && IsBit(children.1[i])
    ensures IsBits(chr1) ==> IsBits(children.0) && IsBits(children.1)
  {
    var n := Min(|chr1|, |chr2|);
    (seq(n, i requires 0 <= i < n => if chr1[i] == chr2[i] then chr1[i] else NoiseBit(noise, 2 * i)),
     seq(n, i requires 0 <= i < n => if chr1[i] == chr2[i] then chr1[i] else NoiseBit(noise, 2 * i + 1)))
  }

  /**
   * `_fixed_common_feature_crossover` as the source runs it: one pass over
   * the zipped parents appending to the two children.
   */
  method FixedCommonCrossover(chr1: Chromosome, chr2: Chromosome, noise: nat -> nat)
    returns (chr3: Chromosome, chr4: Chromosome)
    ensures (chr3, chr4) == FixedCommon(chr1, chr2, noise)
  {
    var n := Min(|chr1|, |chr2|);
    chr3, chr4 := [], [];
    var i := 0;
    while i < n
      invariant 0 <= i <= n
      invariant chr3 == FixedCommon(chr1, chr2, noise).0[..i]
      invariant chr4 == FixedCommon(chr1, chr2, noise).1[..i]
    {
      if chr1[i] == chr2[i] {
        chr3 := chr3 + [chr1[i]];
        chr4 := chr4 + [chr1[i]];
      } else {
        chr3 := chr3 + [NoiseBit(noise, 2 * i)];
        chr4 := chr4 + [NoiseBit(noise, 2 * i + 1)];
      }
      i := i + 1;
    }
    assert FixedCommon(chr1, chr2, noise).0[..n] == FixedCommon(chr1, chr2, noise).0;
    assert FixedCommon(chr1, chr2, noise).1[..n] == FixedCommon(chr1, chr2, noise).1;
  }

  /**
   * `_mutate`, as a value: when the draw `r` is at most the mutation chance,
   * the bit at `randrange(0, len)` becomes `(b + 1) % 2` (raising on an
   * empty chromosome); otherwise the chromosome is returned as it was.
   */
  function Mutated(c: Chromosome, r: real, flip: nat, chance: real): (m: Result<Chromosome>)
    ensures r > chance ==> m == Ok(c)
    ensures r <= chance && |c| == 0 ==> m == Err(ValueError)
    ensures r <= chance && |c| > 0 ==>
      m.Ok? && |m.value| == |c| && m.value[flip % |c|] == (c[flip % |c|] + 1) % 2 &&
      forall i :: 0 <= i < |c| && i != flip % |c| ==> m.value[i] == c[i]
  {
    if r <= chance then
      if |c| == 0 then Err(ValueError)
      else
        var k := flip % |c|;
        Ok(c[k := (c[k] + 1) % 2])
    else Ok(c)
  }

  /**
   * On a bit chromosome a mutation that fires changes exactly one position:
   * the result is again bits, of the same length, and differs from the input
   * at `flip % len` and nowhere else.
   */
  lemma MutationFlipsExactlyOneBit(c: Chromosome, r: real, flip: nat, chance: real)
    requires IsBits(c) && |c| > 0 && r <= chance
    ensures Mutated(c, r, flip, chance).Ok?
    ensures var m := Mutated(c, r, flip, chance).value;
      IsBits(m) && |m| == |c| &&
      forall i :: 0 <= i < |c| ==> (m[i] != c[i] <==> i == flip % |c|)
  {
  }

  /** On bits, mutating twice with the same draws gives the chromosome back. */
  lemma MutationIsInvolution(c: Chromosome, r: real, flip: nat, chance: real)
    requires IsBits(c) && Mutated(c, r, flip, chance).Ok?
    ensures Mutated(Mutated(c, r, flip, chance).value, r, flip, chance) == Ok(c)
  {
    if r <= chance {
      var k := flip % |c|;
      var m := Mutated(c, r, flip, chance).value;
      assert m == c[k := (c[k] + 1) % 2];
      assert m[k := (m[k] + 1) % 2] == c;
    }
  }

  /** A crossover of two bit parents of one length keeps that length and the bits. */
  lemma SinglePointKeepsShape(chr1: Chromosome, chr2: Chromosome, point: nat)
    requires |chr1| == |chr2| && point <= |chr1| && IsBits(chr1) && IsBits(chr2)
    ensures var (c3, c4) := SinglePoint(chr1, chr2, point);
      |c3| == |c4| == |chr1| && IsBits(c3) && IsBits(c4)
  {
  }

  lemma TwoPointKeepsShape(chr1: Chromosome, chr2: Chromosome, a: nat, b: nat)
    requires |chr1| == |chr2| && a <= b <= |chr1| && IsBits(chr1) && IsBits(chr2)
    ensures var (c3, c4) := TwoPoint(chr1, chr2, a, b);
      |c3| == |c4| == |chr1| && IsBits(c3) && IsBits(c4)
  {
    TwoPointExchangesSegment(chr1, chr2, a, b);
  }

  /**
   * Every crossover only redistributes the parents' bits: at each position
   * the pair of child bits is the pair of parent bits, in some order.
   */
  lemma SinglePointSwapsPairs(chr1: Chromosome, chr2: Chromosome, point: nat, i: nat)
    requires |chr1| == |chr2| && point <= |chr1| && i < |chr1|
    ensures var (c3, c4) := SinglePoint(chr1, chr2, point);
      multiset{c3[i], c4[i]} == multiset{chr1[i], chr2[i]}
  {
  }

  /** Exchanging the parents exchanges the children. */
  lemma SinglePointSymmetric(chr1: Chromosome, chr2: Chromosome, point: nat)
    ensures var (c3, c4) := SinglePoint(chr1, chr2, point);
      SinglePoint(chr2, chr1, point) == (c4, c3)
  {
  }

  lemma TwoPointSymmetric(chr1: Chromosome, chr2: Chromosome, a: nat, b: nat)
    ensures var (c3, c4) := TwoPoint(chr1, chr2, a, b);
      TwoPoint(chr2, chr1, a, b) == (c4, c3)
  {
  }
}
