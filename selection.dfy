/**
 * Fitness ranking and the two selection strategies of `Population` in
 * Genetic.py. A chromosome is named by its slot in the population; a
 * ranking is a sequence of (slot, clipped fitness) pairs, which is what the
 * source's `(chromosome, fitness)` tuples carry.
 */
module Selection {
  import opened Base
  import opened Operators

  /** The caller-supplied fitness function; the model assumes it is pure. */
  type FitnessFunction = Chromosome -> real

  /** A slot of the population and the clipped fitness of its chromosome. */
  type Scored = (nat, real)

  /** `get_fitness`: the fitness, with every score at or below zero turned into zero. */
  function GetFitness(f: FitnessFunction, c: Chromosome): (score: real)
    ensures score >= 0.0 && score >= f(c)
    ensures score == 0.0 || score == f(c)
  {
    if f(c) <= 0.0 then 0.0 else f(c)
  }

  ghost predicate Ascending(s: seq<Scored>) {
    forall i, j :: 0 <= i < j < |s| ==> s[i].1 <= s[j].1
  }

  ghost predicate Descending(s: seq<Scored>) {
    forall i, j :: 0 <= i < j < |s| ==> s[i].1 >= s[j].1
  }

  /** Inserts `x` after every entry, from the front, whose score is at most its own. */
  function Insert(x: Scored, s: seq<Scored>): (r: seq<Scored>)
    ensures |r| == |s| + 1
  {
    if s == [] then [x]
    else if x.1 < s[0].1 then [x] + s
    else [s[0]] + Insert(x, s[1..])
  }

  /** Inserting into an ascending ranking keeps it ascending. */
  lemma {:induction false} InsertSorted(x: Scored, s: seq<Scored>)
    requires Ascending(s)
    ensures Ascending(Insert(x, s))
  {
    if s != [] && x.1 >= s[0].1 {
      InsertSorted(x, s[1..]);
      var rest := Insert(x, s[1..]);
      assert rest[0] == x || rest[0] == s[1];
      assert Insert(x, s) == [s[0]] + rest;
      forall k | 0 <= k < |rest|
        ensures s[0].1 <= rest[k].1
      {
        assert rest[0].1 <= rest[k].1 || k == 0;
      }
    }
  }

  /** Insertion adds exactly `x`. */
  lemma {:induction false} InsertPermutes(x: Scored, s: seq<Scored>)
    ensures multiset(Insert(x, s)) == multiset(s) + multiset{x}
  {
    if s != [] && x.1 >= s[0].1 {
      InsertPermutes(x, s[1..]);
      assert Insert(x, s) == [s[0]] + Insert(x, s[1..]);
      assert s == [s[0]] + s[1..];
    }
  }

  /**
   * Python's `sorted(..., key=score)`: an insertion sort that puts a later
   * entry after earlier entries of equal score, so it is stable.
   */
  function SortByScore(s: seq<Scored>): (r: seq<Scored>)
    ensures |r| == |s|
  {
    if s == [] then [] else Insert(s[|s| - 1], SortByScore(s[..|s| - 1]))
  }

  /** The sort is ascending and a permutation of its input. */
  lemma {:induction false} SortByScoreSorted(s: seq<Scored>)
    ensures Ascending(SortByScore(s)) && multiset(SortByScore(s)) == multiset(s)
  {
    if s != [] {
      SortByScoreSorted(s[..|s| - 1]);
      InsertSorted(s[|s| - 1], SortByScore(s[..|s| - 1]));
      InsertPermutes(s[|s| - 1], SortByScore(s[..|s| - 1]));
      assert s == s[..|s| - 1] + [s[|s| - 1]];
    }
  }

  /** Python's `s[::-1]`. */
  function Reverse<T>(s: seq<T>): (r: seq<T>)
    ensures |r| == |s|
    ensures forall i :: 0 <= i < |s| ==> r[i] == s[|s| - 1 - i]
  {
    if s == [] then [] else Reverse(s[1..]) + [s[0]]
  }

  lemma {:induction false} ReverseIsPermutation<T>(s: seq<T>)
    ensures multiset(Reverse(s)) == multiset(s)
  {
    if s != [] {
      ReverseIsPermutation(s[1..]);
      assert s == [s[0]] + s[1..];
    }
  }

  /** Each slot of the population with the clipped fitness of its chromosome, in population order. */
  function Scores(vals: seq<Chromosome>, f: FitnessFunction): (s: seq<Scored>)
    ensures |s| == |vals|
    ensures forall i :: 0 <= i < |vals| ==> s[i] == (i, GetFitness(f, vals[i]))
  {
    seq(|vals|, i requires 0 <= i < |vals| => (i as nat, GetFitness(f, vals[i])))
  }

  /**
   * `get_chromosomes_fitness`: the scored population sorted ascending and
   * then reversed.
   */
  function ChromosomesFitness(vals: seq<Chromosome>, f: FitnessFunction): (r: seq<Scored>)
    ensures |r| == |vals|
  {
    Reverse(SortByScore(Scores(vals, f)))
  }

  /**
   * `get_chromosomes_fitness` is in non-increasing order of clipped fitness
   * and holds every scored chromosome once.
   */
  lemma ChromosomesFitnessSorted(vals: seq<Chromosome>, f: FitnessFunction)
    ensures Descending(ChromosomesFitness(vals, f))
    ensures multiset(ChromosomesFitness(vals, f)) == multiset(Scores(vals, f))
  {
    var sorted := SortByScore(Scores(vals, f));
    SortByScoreSorted(Scores(vals, f));
    ReverseIsPermutation(sorted);
  }

  /** Every entry names a slot of the population and carries that chromosome's clipped fitness. */
  ghost predicate WellScored(vals: seq<Chromosome>, f: FitnessFunction, r: seq<Scored>) {
    forall i :: 0 <= i < |r| ==> r[i].0 < |vals| && r[i].1 == GetFitness(f, vals[r[i].0])
  }

  /** Every slot of a population of `n` is named. */
  ghost predicate Covers(n: nat, r: seq<Scored>) {
    forall slot :: 0 <= slot < n ==> slot in Slots(r)
  }

  /** No slot is named twice. */
  ghost predicate SlotsDistinct(r: seq<Scored>) {
    forall i, j :: 0 <= i < j < |r| ==> r[i].0 != r[j].0
  }

  /**
   * Any permutation of the scored population names every slot exactly once,
   * and carries with each slot the clipped fitness of its chromosome.
   */
  lemma PermutationOfScores(vals: seq<Chromosome>, f: FitnessFunction, r: seq<Scored>)
    requires multiset(r) == multiset(Scores(vals, f))
    ensures |r| == |vals|
    ensures WellScored(vals, f, r) && Covers(|vals|, r) && SlotsDistinct(r)
  {
    var s := Scores(vals, f);
    assert |r| == |multiset(r)| == |multiset(s)| == |vals|;
    forall i | 0 <= i < |r|
      ensures r[i].0 < |vals| && r[i].1 == GetFitness(f, vals[r[i].0])
    {
      assert r[i] in multiset(s);
    }
    forall i, j | 0 <= i < j < |r|
      ensures r[i].0 != r[j].0
    {
      if r[i].0 == r[j].0 {
        DistinctScores(vals, f, r[i]);
        MultiplicityAtLeastTwo(r, i, j);
        assert false;
      }
    }
    forall slot | 0 <= slot < |vals|
      ensures slot in Slots(r)
    {
      assert s[slot] in multiset(r);
      var i :| 0 <= i < |r| && r[i] == s[slot];
      assert Slots(r)[i] == slot;
    }
  }

  /** No entry occurs twice in the scored population. */
  lemma DistinctScores(vals: seq<Chromosome>, f: FitnessFunction, x: Scored)
    ensures multiset(Scores(vals, f))[x] <= 1
  {
    var s := Scores(vals, f);
    if x.0 < |vals| && x == s[x.0] {
      assert s == s[..x.0] + [x] + s[x.0 + 1..];
      assert x !in s[..x.0];
      assert x !in s[x.0 + 1..];
    } else {
      assert x !in s;
    }
  }

  lemma MultiplicityAtLeastTwo<T>(s: seq<T>, i: nat, j: nat)
    requires i < j < |s| && s[i] == s[j]
    ensures multiset(s)[s[i]] >= 2
  {
    assert s == s[..i] + [s[i]] + s[i + 1..j] + [s[j]] + s[j + 1..];
  }

  /** The head of a non-increasing, covering ranking holds the largest score. */
  lemma HeadIsMaximal(vals: seq<Chromosome>, f: FitnessFunction, r: seq<Scored>)
    requires |r| > 0 && Descending(r) && WellScored(vals, f, r) && Covers(|vals|, r)
    ensures forall j :: 0 <= j < |vals| ==> GetFitness(f, vals[j]) <= r[0].1
  {
    forall j | 0 <= j < |vals|
      ensures GetFitness(f, vals[j]) <= r[0].1
    {
      assert j in Slots(r);
      var i :| 0 <= i < |r| && Slots(r)[i] == j;
      assert i == 0 || r[0].1 >= r[i].1;
    }
  }

  /**
   * `_get_fittest_chromosome`: the head of `get_chromosomes_fitness`; it
   * raises on an empty population. The head carries the largest clipped
   * fitness of the population, and that is the score of its own chromosome.
   */
  function Fittest(vals: seq<Chromosome>, f: FitnessFunction): (best: Result<Scored>)
    ensures best.Err? <==> |vals| == 0
    ensures best.Err? ==> best.error == IndexError
    ensures best.Ok? ==>
      best.value.0 < |vals| && best.value.1 == GetFitness(f, vals[best.value.0]) &&
      forall j :: 0 <= j < |vals| ==> GetFitness(f, vals[j]) <= best.value.1
  {
    var r := ChromosomesFitness(vals, f);
    ChromosomesFitnessSorted(vals, f);
    PermutationOfScores(vals, f, r);
    if |r| == 0 then Err(IndexError)
    else
      HeadIsMaximal(vals, f, r);
      Ok(r[0])
  }

  /** The slots named by a ranking, in its order. */
  function Slots(s: seq<Scored>): (r: seq<nat>)
    ensures |r| == |s| && forall i :: 0 <= i < |s| ==> r[i] == s[i].0
  {
    seq(|s|, i requires 0 <= i < |s| => s[i].0)
  }

  /**
   * The order both selections work in: `sorted(get_chromosomes_fitness(), key=score)`,
   * ascending again (ties stay in the reversed order that
   * `get_chromosomes_fitness` left them in).
   */
  function Ranked(vals: seq<Chromosome>, f: FitnessFunction): (r: seq<Scored>)
    ensures |r| == |vals|
  {
    SortByScore(ChromosomesFitness(vals, f))
  }

  /**
   * The ranking is ascending in clipped fitness and names every slot of the
   * population exactly once, each with its chromosome's clipped fitness.
   */
  lemma RankedIsPermutation(vals: seq<Chromosome>, f: FitnessFunction)
    ensures Ascending(Ranked(vals, f))
    ensures WellScored(vals, f, Ranked(vals, f)) && Covers(|vals|, Ranked(vals, f))
    ensures SlotsDistinct(Ranked(vals, f))
  {
    var fit := ChromosomesFitness(vals, f);
    ChromosomesFitnessSorted(vals, f);
    SortByScoreSorted(fit);
    PermutationOfScores(vals, f, Ranked(vals, f));
  }

  /** The bottom `n // 2` slots of the ranking, which cutoff selection drops. */
  function CutoffDropped(vals: seq<Chromosome>, f: FitnessFunction): (dropped: seq<nat>)
    ensures |dropped| == |vals| / 2
  {
    var r := Ranked(vals, f);
    Slots(r[..|vals| / 2])
  }

  /** The slots `_cutoff_selection` picks from: `prev_sorted_by_fitness[n//2:]`. */
  function CutoffSurvivors(vals: seq<Chromosome>, f: FitnessFunction): (kept: seq<nat>)
    ensures |kept| == |vals| - |vals| / 2
  {
    var r := Ranked(vals, f);
    Slots(r[|vals| / 2..])
  }

  /** Cutting a ranking that names no slot twice puts each of its slots on exactly one side. */
  lemma SplitSlots(r: seq<Scored>, m: nat, slot: nat)
    requires m <= |r| && SlotsDistinct(r) && slot in Slots(r)
    ensures (slot in Slots(r[m..])) != (slot in Slots(r[..m]))
  {
    var i :| 0 <= i < |r| && Slots(r)[i] == slot;
    if i < m {
      assert Slots(r[..m])[i] == slot;
      forall a | 0 <= a < |r| - m
        ensures Slots(r[m..])[a] != slot
      {
        assert r[m + a].0 != r[i].0;
      }
    } else {
      assert Slots(r[m..])[i - m] == slot;
      forall b | 0 <= b < m
        ensures Slots(r[..m])[b] != slot
      {
        assert r[b].0 != r[i].0;
      }
    }
  }

  /** Every slot cutoff selection keeps is a slot of the population. */
  lemma CutoffSurvivorsInRange(vals: seq<Chromosome>, f: FitnessFunction)
    ensures forall k :: 0 <= k < |CutoffSurvivors(vals, f)| ==> CutoffSurvivors(vals, f)[k] < |vals|
  {
    var r := Ranked(vals, f);
    RankedIsPermutation(vals, f);
    var n := |vals|;
    var kept := CutoffSurvivors(vals, f);
    assert kept == Slots(r[n / 2..]);
    forall a | 0 <= a < |kept|
      ensures kept[a] < n
    {
      assert kept[a] == r[n / 2 + a].0;
    }
  }

  /** Cutoff selection splits the population: every slot is either kept or dropped, never both. */
  lemma CutoffPartitions(vals: seq<Chromosome>, f: FitnessFunction)
    ensures forall slot :: 0 <= slot < |vals| ==>
      (slot in CutoffSurvivors(vals, f)) != (slot in CutoffDropped(vals, f))
  {
    var r := Ranked(vals, f);
    RankedIsPermutation(vals, f);
    var n := |vals|;
    assert CutoffSurvivors(vals, f) == Slots(r[n / 2..]);
    assert CutoffDropped(vals, f) == Slots(r[..n / 2]);
    forall slot | 0 <= slot < n
      ensures (slot in Slots(r[n / 2..])) != (slot in Slots(r[..n / 2]))
    {
      SplitSlots(r, n / 2, slot);
    }
  }

  /** No chromosome that cutoff selection drops has a higher clipped fitness than one it keeps. */
  lemma CutoffKeepsTheFittest(vals: seq<Chromosome>, f: FitnessFunction, k: nat, d: nat)
    requires k in CutoffSurvivors(vals, f) && d in CutoffDropped(vals, f)
    ensures k < |vals| && d < |vals|
    ensures GetFitness(f, vals[d]) <= GetFitness(f, vals[k])
  {
    var r := Ranked(vals, f);
    RankedIsPermutation(vals, f);
    var n := |vals|;
    var a :| 0 <= a < n - n / 2 && CutoffSurvivors(vals, f)[a] == k;
    var b :| 0 <= b < n / 2 && CutoffDropped(vals, f)[b] == d;
    assert k == r[n / 2 + a].0;
    assert d == r[b].0;
    assert r[b].1 <= r[n / 2 + a].1;
  }

  /**
   * `_cutoff_selection(num_to_select)`: one `random.choice` among the
   * survivors per draw; `random.choice` of an empty list raises.
   */
  function CutoffSelection(vals: seq<Chromosome>, f: FitnessFunction, choices: seq<nat>): (picks: Result<seq<nat>>)
    ensures picks.Err? <==> |vals| == 0 && |choices| > 0
    ensures picks.Ok? ==> |picks.value| == |choices|
    ensures picks.Ok? ==> forall c :: 0 <= c < |choices| ==> picks.value[c] in CutoffSurvivors(vals, f)
  {
    var kept := CutoffSurvivors(vals, f);
    if |kept| == 0 then
      if |choices| == 0 then Ok([]) else Err(IndexError)
    else
      var picks := seq(|choices|, c requires 0 <= c < |choices| => kept[choices[c] % |kept|]);
      assert forall c :: 0 <= c < |choices| ==> picks[c] in kept by {
        forall c | 0 <= c < |choices| ensures picks[c] in kept {
          assert picks[c] == kept[choices[c] % |kept|];
        }
      }
      Ok(picks)
  }

  // ---------------------------------------------------------------------------
  // Roulette selection
  // ---------------------------------------------------------------------------

  /** Python's `sum(x[1] for x in s)`. */
  function SumScores(s: seq<Scored>): real
  {
    if s == [] then 0.0 else SumScores(s[..|s| - 1]) + s[|s| - 1].1
  }

  function SumReals(p: seq<real>): real
  {
    if p == [] then 0.0 else SumReals(p[..|p| - 1]) + p[|p| - 1]
  }

  /** The ranking has one entry per chromosome, and each names a slot of the population. */
  lemma RankedSlotsInRange(vals: seq<Chromosome>, f: FitnessFunction)
    ensures |Ranked(vals, f)| == |vals|
    ensures forall i :: 0 <= i < |Ranked(vals, f)| ==> Ranked(vals, f)[i].0 < |vals|
  {
    RankedIsPermutation(vals, f);
  }

  /** `p_values`: each ranked chromosome's recomputed clipped fitness over the total. */
  function Probabilities(vals: seq<Chromosome>, f: FitnessFunction, ranked: seq<Scored>, total: real): (p: seq<real>)
    requires total != 0.0
    requires forall i :: 0 <= i < |ranked| ==> ranked[i].0 < |vals|
    ensures |p| == |ranked|
  {
    seq(|ranked|, i requires 0 <= i < |ranked| => GetFitness(f, vals[ranked[i].0]) / total)
  }

  /** `q_values`: the running sums of the probabilities. */
  function Cumulative(p: seq<real>): (q: seq<real>)
    ensures |q| == |p|
  {
    seq(|p|, i requires 0 <= i < |p| => SumReals(p[..i + 1]))
  }

  /** Whether a draw `r` lands in the wheel sector of index `i`. */
  predicate InSector(q: seq<real>, r: real, i: nat)
    requires i < |q|
  {
    if i == 0 then r <= q[0] else r <= q[i] && r > q[i - 1]
  }

  /** The indices among the first `k` that a draw `r` lands on, in order. */
  function WheelPicks(q: seq<real>, r: real, k: nat): (picks: seq<nat>)
    requires k <= |q|
    ensures forall i :: 0 <= i < k ==> (i in picks <==> InSector(q, r, i))
    ensures forall j :: 0 <= j < |picks| ==> picks[j] < k
  {
    if k == 0 then []
    else WheelPicks(q, r, k - 1) + (if InSector(q, r, k - 1) then [k - 1] else [])
  }

  /** The slots of the ranking at the given indices. */
  function Slotted(ranked: seq<Scored>, picks: seq<nat>): (r: seq<nat>)
    requires forall j :: 0 <= j < |picks| ==> picks[j] < |ranked|
    ensures |r| == |picks|
  {
    seq(|picks|, j requires 0 <= j < |picks| => ranked[picks[j]].0)
  }

  /** What the draws `spins` yield, in order: the slot of every sector each lands on. */
  function SpinPicks(ranked: seq<Scored>, q: seq<real>, spins: seq<real>): seq<nat>
    requires |q| == |ranked|
  {
    if spins == [] then []
    else
      SpinPicks(ranked, q, spins[..|spins| - 1]) +
        Slotted(ranked, WheelPicks(q, spins[|spins| - 1], |q|))
  }

  /**
   * `_roulette_selection`, as a value: rank, total the clipped fitness,
   * build the wheel and yield what each draw lands on. A population whose
   * total is zero raises at the first division.
   */
  function RouletteSelection(vals: seq<Chromosome>, f: FitnessFunction, spins: seq<real>): (picks: Result<seq<nat>>)
    ensures picks.Err? <==> |vals| > 0 && SumScores(ChromosomesFitness(vals, f)) == 0.0
    ensures picks.Err? ==> picks.error == ZeroDivisionError
  {
    var ranked := Ranked(vals, f);
    var total := SumScores(ChromosomesFitness(vals, f));
    RankedSlotsInRange(vals, f);
    if |ranked| > 0 && total == 0.0 then Err(ZeroDivisionError)
    else if |ranked| == 0 then Ok(SpinPicks(ranked, [], spins))
    else Ok(SpinPicks(ranked, Cumulative(Probabilities(vals, f, ranked, total)), spins))
  }

  /** The `p_values` loop of `_roulette_selection`. */
  method ProbabilityValues(vals: seq<Chromosome>, f: FitnessFunction, ranked: seq<Scored>, total: real)
    returns (p: seq<real>)
    requires total != 0.0
    requires forall i :: 0 <= i < |ranked| ==> ranked[i].0 < |vals|
    ensures p == Probabilities(vals, f, ranked, total)
  {
    p := [];
    for i := 0 to |ranked|
      invariant p == Probabilities(vals, f, ranked, total)[..i]
    {
      p := p + [GetFitness(f, vals[ranked[i].0]) / total];
    }
  }

  /** The `q_values` loop of `_roulette_selection`: running sums. */
  method CumulativeValues(p: seq<real>) returns (q: seq<real>)
    ensures q == Cumulative(p)
  {
    q := [];
    var cumP := 0.0;
    for i := 0 to |p|
      invariant cumP == SumReals(p[..i])
      invariant q == Cumulative(p)[..i]
    {
      assert p[..i + 1][..i] == p[..i];
      cumP := cumP + p[i];
      q := q + [cumP];
    }
  }

  /** One draw of `_roulette_selection`: a scan over every sector of the wheel. */
  method Spin(ranked: seq<Scored>, q: seq<real>, r: real) returns (picks: seq<nat>)
    requires |q| == |ranked|
    ensures picks == Slotted(ranked, WheelPicks(q, r, |q|))
  {
    picks := [];
    for index := 0 to |q|
      invariant picks == Slotted(ranked, WheelPicks(q, r, index))
    {
      if index == 0 {
        if r <= q[index] {
          picks := picks + [ranked[index].0];
        }
      } else {
        if r <= q[index] && r > q[index - 1] {
          picks := picks + [ranked[index].0];
        }
      }
    }
  }

  /** `_roulette_selection` as the source runs it, loop by loop. */
  method Roulette(vals: seq<Chromosome>, f: FitnessFunction, spins: seq<real>) returns (res: Result<seq<nat>>)
    ensures res == RouletteSelection(vals, f, spins)
  {
    var fitnesses := ChromosomesFitness(vals, f);
    var ranked := SortByScore(fitnesses);
    var total := SumScores(fitnesses);
    RankedSlotsInRange(vals, f);
    var q: seq<real> := [];
    if |ranked| > 0 {
      if total == 0.0 {
        return Err(ZeroDivisionError);
      }
      var p := ProbabilityValues(vals, f, ranked, total);
      q := CumulativeValues(p);
    }
    var picks: seq<nat> := [];
    for c := 0 to |spins|
      invariant picks == SpinPicks(ranked, q, spins[..c])
    {
      var more := Spin(ranked, q, spins[c]);
      assert spins[..c + 1][..c] == spins[..c];
      picks := picks + more;
    }
    assert spins[..|spins|] == spins;
    res := Ok(picks);
  }
}
