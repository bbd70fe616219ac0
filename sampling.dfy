/**
 * The two chromosome generators of `Population`: every string of a given
 * length over `"01"`, in the order `itertools.product` yields them, and
 * random samples of bits drawn without replacement from a pool of as
 * many zeros as ones. The draws of `random.sample` are an input.
 */
module Sampling {
  import opened Base
  import opened Operators

  /** A string over `"01"`. */
  predicate IsBitString(s: string) {
    forall k :: 0 <= k < |s| ==> s[k] == '0' || s[k] == '1'
  }

  /** The number a `"01"` string spells in binary, most significant digit first. */
  function ValueOf(s: string): nat {
    if s == [] then 0 else (if s[0] == '1' then Pow2(|s| - 1) else 0) + ValueOf(s[1..])
  }

  /** Prefix every string with the character `c`. */
  function PrefixAll(c: char, ss: seq<string>): (r: seq<string>)
    ensures |r| == |ss| && forall i :: 0 <= i < |ss| ==> r[i] == [c] + ss[i]
  {
    seq(|ss|, i requires 0 <= i < |ss| => [c] + ss[i])
  }

  /**
   * `itertools.product("01", repeat=n)`, each tuple joined: the strings
   * starting with `'0'` come before those starting with `'1'`, each half in
   * the order of the shorter product.
   */
  function Product(n: nat): (r: seq<string>)
    ensures |r| == Pow2(n)
  {
    if n == 0 then [""]
    else
      var rest := Product(n - 1);
      PrefixAll('0', rest) + PrefixAll('1', rest)
  }

  /** `generate_all_possibilities`: a negative repeat count raises `ValueError`. */
  function AllPossibilities(n: int): (r: Result<seq<string>>)
    ensures n < 0 <==> r.Err?
    ensures r.Err? ==> r.error == ValueError
    ensures r.Ok? ==> r.value == Product(n)
  {
    if n < 0 then Err(ValueError) else Ok(Product(n))
  }

  /** Entry `i` of the product has length `n`, is over `"01"` and spells `i` in binary. */
  lemma {:induction false} ProductSpellsIndex(n: nat, i: nat)
    requires i < Pow2(n)
    ensures |Product(n)[i]| == n && IsBitString(Product(n)[i]) && ValueOf(Product(n)[i]) == i
  {
    if n > 0 {
      var rest := Product(n - 1);
      var half := Pow2(n - 1);
      if i < half {
        ProductSpellsIndex(n - 1, i);
        ProductHalves(n, i);
        Prepend('0', rest[i]);
      } else {
        ProductSpellsIndex(n - 1, i - half);
        ProductHalves(n, i - half);
        Prepend('1', rest[i - half]);
      }
    }
  }

  /** A digit in front of a `"01"` string adds its weight at the new top place. */
  lemma Prepend(c: char, t: string)
    requires (c == '0' || c == '1') && IsBitString(t)
    ensures IsBitString([c] + t) && ValueOf([c] + t) == (if c == '1' then Pow2(|t|) else 0) + ValueOf(t)
  {
    var s := [c] + t;
    assert s[0] == c && |s| - 1 == |t| && s[1..] == t;
    forall k | 0 <= k < |s|
      ensures s[k] == '0' || s[k] == '1'
    {
      if k > 0 {
        assert s[k] == t[k - 1];
      }
    }
  }

  /** A string of length `n` over `"01"` spells a number below `2^n`. */
  lemma {:induction false} ValueBelow(s: string)
    requires IsBitString(s)
    ensures ValueOf(s) < Pow2(|s|)
  {
    if s != [] {
      ValueBelow(s[1..]);
    }
  }

  /** Every string of length `n` over `"01"` stands in the product, at the place its value names. */
  lemma {:induction false} ProductHoldsEvery(s: string)
    requires IsBitString(s)
    ensures ValueOf(s) < Pow2(|s|) && Product(|s|)[ValueOf(s)] == s
  {
    ValueBelow(s);
    if s != [] {
      var t := s[1..];
      ProductHoldsEvery(t);
      assert s == [s[0]] + t;
      PrefixedPlace(s[0], t);
    }
  }

  /** A digit in front of a string found in the product gives a string found in the next longer product. */
  lemma PrefixedPlace(c: char, t: string)
    requires (c == '0' || c == '1') && IsBitString(t)
    requires ValueOf(t) < Pow2(|t|) && Product(|t|)[ValueOf(t)] == t
    ensures ValueOf([c] + t) < Pow2(|t| + 1) && Product(|t| + 1)[ValueOf([c] + t)] == [c] + t
  {
    var v, s, p := ValueOf(t), [c] + t, Product(|t| + 1);
    ProductHalves(|t| + 1, v);
    Prepend(c, t);
    if c == '0' {
      assert ValueOf(s) == v && p[v] == ['0'] + t;
    } else {
      assert ValueOf(s) == Pow2(|t|) + v && p[Pow2(|t|) + v] == ['1'] + t;
    }
  }

  /** Place `v` of the first half starts with `'0'`, place `v` of the second with `'1'`, both followed by place `v` of the shorter product. */
  lemma ProductHalves(n: nat, v: nat)
    requires n > 0 && v < Pow2(n - 1)
    ensures Product(n)[v] == ['0'] + Product(n - 1)[v]
    ensures Product(n)[Pow2(n - 1) + v] == ['1'] + Product(n - 1)[v]
  {
    var rest := Product(n - 1);
    assert Product(n) == PrefixAll('0', rest) + PrefixAll('1', rest);
  }

  /**
   * `generate_all_possibilities(n)` for `n >= 0`: `2^n` strings, each of
   * length `n` over `"01"`, pairwise distinct, and every such string is
   * among them.
   */
  lemma AllPossibilitiesComplete(n: nat)
    ensures var r := AllPossibilities(n).value;
      |r| == Pow2(n) &&
      (forall i :: 0 <= i < |r| ==> |r[i]| == n && IsBitString(r[i])) &&
      (forall i, j :: 0 <= i < j < |r| ==> r[i] != r[j]) &&
      (forall s :: |s| == n && IsBitString(s) ==> s in r)
  {
    var r := Product(n);
    forall i | 0 <= i < |r|
      ensures |r[i]| == n && IsBitString(r[i]) && ValueOf(r[i]) == i
    {
      ProductSpellsIndex(n, i);
    }
    forall s | |s| == n && IsBitString(s)
      ensures s in r
    {
      ProductHoldsEvery(s);
    }
  }

  // ---------------------------------------------------------------------------
  // generate_random_sample
  // ---------------------------------------------------------------------------

  /** `[0]*L + [1]*L`. */
  function BitChoices(L: nat): (pool: seq<int>)
    ensures |pool| == 2 * L && multiset(pool)[0] == L && multiset(pool)[1] == L
  {
    var zeros := seq(L, k requires 0 <= k < L => 0);
    var ones := seq(L, k requires 0 <= k < L => 1);
    Zeros(L);
    Ones(L);
    zeros + ones
  }

  lemma {:induction false} Zeros(L: nat)
    ensures var zeros := seq(L, k requires 0 <= k < L => 0);
      multiset(zeros)[0] == L && multiset(zeros)[1] == 0
  {
    if L > 0 {
      var zeros := seq(L, k requires 0 <= k < L => 0);
      assert zeros == seq(L - 1, k requires 0 <= k < L - 1 => 0) + [0];
      Zeros(L - 1);
    }
  }

  lemma {:induction false} Ones(L: nat)
    ensures var ones := seq(L, k requires 0 <= k < L => 1);
      multiset(ones)[1] == L && multiset(ones)[0] == 0
  {
    if L > 0 {
      var ones := seq(L, k requires 0 <= k < L => 1);
      assert ones == seq(L - 1, k requires 0 <= k < L - 1 => 1) + [1];
      Ones(L - 1);
    }
  }

  /**
   * `random.sample(pool, k)` with its draws made explicit: each pick names
   * (modulo what is left) one of the remaining elements, which is taken out
   * of the pool. Sampling more than the pool holds raises `ValueError`.
   */
  function Sample(pool: seq<int>, k: nat, picks: nat -> nat): (r: Result<seq<int>>)
    ensures r.Err? <==> k > |pool|
    ensures r.Err? ==> r.error == ValueError
    ensures r.Ok? ==> |r.value| == k && multiset(r.value) <= multiset(pool)
    decreases k
  {
    if k > |pool| then Err(ValueError)
    else if k == 0 then Ok([])
    else
      var j := picks(0) % |pool|;
      var rest := pool[..j] + pool[j + 1..];
      assert pool == pool[..j] + [pool[j]] + pool[j + 1..];
      var tail := Sample(rest, k - 1, (i: nat) => picks(i + 1));
      Ok([pool[j]] + tail.value)
  }

  /** The first `n` samples of the generator, sample `i` drawn with the picks `draws(i)`. */
  function Samples(pool: seq<int>, L: nat, draws: nat -> (nat -> nat), n: nat): (r: seq<seq<int>>)
    requires L <= |pool|
    ensures |r| == n
  {
    if n == 0 then [] else Samples(pool, L, draws, n - 1) + [Sample(pool, L, draws(n - 1)).value]
  }

  lemma {:induction false} SamplesAre(pool: seq<int>, L: nat, draws: nat -> (nat -> nat), n: nat)
    requires L <= |pool|
    ensures forall i :: 0 <= i < n ==> Sample(pool, L, draws(i)) == Ok(Samples(pool, L, draws, n)[i])
  {
    if n > 0 {
      var front, all := Samples(pool, L, draws, n - 1), Samples(pool, L, draws, n);
      SamplesAre(pool, L, draws, n - 1);
      forall i | 0 <= i < n
        ensures Sample(pool, L, draws(i)) == Ok(all[i])
      {
        if i < n - 1 {
          assert all[i] == front[i];
        } else {
          assert Sample(pool, L, draws(i)).Ok?;
        }
      }
    }
  }

  /**
   * `generate_random_sample`, with the generator's samples collected in
   * order: sample `i` uses the picks `draws(i)`. A negative length raises
   * `ValueError` at the first sample; a count of zero or less yields
   * nothing.
   */
  method RandomSample(count: int, L: int, draws: nat -> (nat -> nat)) returns (r: Result<seq<seq<int>>>)
    ensures count <= 0 ==> r == Ok([])
    ensures count > 0 && L < 0 ==> r == Err(ValueError)
    ensures count > 0 && L >= 0 ==> r.Ok? && |r.value| == count
    ensures r.Ok? ==> forall i :: 0 <= i < |r.value| ==>
      Sample(BitChoices(L), L, draws(i)) == Ok(r.value[i])
  {
    if count <= 0 {
      return Ok([]);
    }
    if L < 0 {
      return Err(ValueError);
    }
    var pool := BitChoices(L);
    var samples: seq<seq<int>> := [];
    for sample := 0 to count
      invariant samples == Samples(pool, L, draws, sample)
    {
      var drawn := Sample(pool, L, draws(sample));
      samples := samples + [drawn.value];
    }
    SamplesAre(pool, L, draws, count);
    r := Ok(samples);
  }

  /**
   * Every sample is a chromosome of length `L` made of bits, with at most
   * `L` zeros and at most `L` ones, as drawing without replacement from the
   * pool allows.
   */
  lemma SampleIsChromosome(L: nat, picks: nat -> nat)
    ensures var r := Sample(BitChoices(L), L, picks);
      r.Ok? && |r.value| == L && IsBits(r.value) &&
      multiset(r.value)[0] <= L && multiset(r.value)[1] <= L
  {
    var pool := BitChoices(L);
    var s := Sample(pool, L, picks).value;
    forall k | 0 <= k < |s|
      ensures IsBit(s[k])
    {
      assert s[k] in multiset(s);
      assert s[k] in multiset(pool);
    }
  }
}
