/**
 * The `Population` class of Genetic.py as a Dafny class: its settings are
 * fields that the validating setters update, its chromosomes are arrays
 * (Python lists updated in place), and `next_generation` and `simulate`
 * are methods proved against the value-level model of the generation step.
 */
module Genetic {
  import opened Base
  import opened Operators
  import opened Selection
  import opened RouletteWheel
  import opened Generation

  /** The contents of a sequence of lists. */
  function Contents(arrs: seq<array<int>>): (vals: seq<Chromosome>)
    reads arrs
    ensures |vals| == |arrs| && forall i :: 0 <= i < |arrs| ==> vals[i] == arrs[i][..]
  {
    seq(|arrs|, i reads arrs requires 0 <= i < |arrs| => arrs[i][..])
  }

  lemma ContentsAre(arrs: seq<array<int>>, vals: seq<Chromosome>)
    requires |arrs| == |vals| && forall x :: 0 <= x < |arrs| ==> arrs[x][..] == vals[x]
    ensures Contents(arrs) == vals
  {
  }

  /** No list object stands twice. */
  predicate Distinct(arrs: seq<array<int>>) {
    forall i, j :: 0 <= i < j < |arrs| ==> arrs[i] != arrs[j]
  }

  /** A new list with the given contents. */
  method NewList(bits: Chromosome) returns (a: array<int>)
    ensures fresh(a) && a[..] == bits
  {
    a := new int[|bits|](j requires 0 <= j < |bits| => bits[j]);
    assert a[..] == bits;
  }

  /** A new list for each of the given contents, in order. */
  method NewLists(vals: seq<Chromosome>) returns (lists: seq<array<int>>)
    ensures |lists| == |vals| && Distinct(lists)
    ensures forall j :: 0 <= j < |vals| ==> fresh(lists[j]) && lists[j][..] == vals[j]
  {
    lists := [];
    for i := 0 to |vals|
      invariant |lists| == i && Distinct(lists)
      invariant forall j :: 0 <= j < i ==> fresh(lists[j]) && lists[j][..] == vals[j]
    {
      var a := NewList(vals[i]);
      lists := lists + [a];
    }
  }

  /** An element handed to the `chromosomes` setter: a character of a string, or an int. */
  datatype Cell = Char(c: char) | Int(n: int)

  /**
   * Python's `int(x)` on one element: an int is itself, a character must
   * be a decimal digit.
   */
  function IntOf(x: Cell): (r: Result<int>)
    ensures x.Int? ==> r == Ok(x.n)
    ensures x.Char? ==> (r.Ok? <==> '0' <= x.c <= '9')
    ensures x.Char? && r.Ok? ==> 0 <= r.value <= 9 && r.value == x.c as int - '0' as int
    ensures r.Err? ==> r.error == ValueError
  {
    match x
    case Int(n) => Ok(n)
    case Char(c) => if '0' <= c <= '9' then Ok(c as int - '0' as int) else Err(ValueError)
  }

  /** `[int(chr) for chr in chromosome]`: the first element that is not a number raises. */
  function ConvertRow(row: seq<Cell>): (r: Result<Chromosome>)
    ensures r.Ok? <==> forall k :: 0 <= k < |row| ==> IntOf(row[k]).Ok?
    ensures r.Ok? ==> |r.value| == |row| && forall k :: 0 <= k < |row| ==> r.value[k] == IntOf(row[k]).value
    ensures r.Err? ==> r.error == ValueError
  {
    if row == [] then Ok([])
    else
      var front := ConvertRow(row[..|row| - 1]);
      var last := IntOf(row[|row| - 1]);
      if front.Err? then front
      else if last.Err? then Err(last.error)
      else Ok(front.value + [last.value])
  }

  /** `[[int(chr) for chr in chromosome] for chromosome in chromosome_list]`. */
  function Convert(raw: seq<seq<Cell>>): (r: Result<seq<Chromosome>>)
    ensures r.Ok? <==> forall i :: 0 <= i < |raw| ==> ConvertRow(raw[i]).Ok?
    ensures r.Ok? ==> |r.value| == |raw| && forall i :: 0 <= i < |raw| ==> r.value[i] == ConvertRow(raw[i]).value
    ensures r.Err? ==> r.error == ValueError
  {
    if raw == [] then Ok([])
    else
      var front := Convert(raw[..|raw| - 1]);
      var last := ConvertRow(raw[|raw| - 1]);
      if front.Err? then front
      else if last.Err? then Err(last.error)
      else Ok(front.value + [last.value])
  }

  /** A string of `'0'` and `'1'` characters, as the setter is usually given. */
  function Text(s: string): seq<Cell> {
    seq(|s|, k requires 0 <= k < |s| => Char(s[k]))
  }

  /** A list of ints, as `next_generation` hands the new population over. */
  function Ints(c: Chromosome): seq<Cell> {
    seq(|c|, k requires 0 <= k < |c| => Int(c[k]))
  }

  /** Converting a `"01"` string gives the bits it spells, one per character. */
  lemma ConvertBitString(s: string)
    requires forall k :: 0 <= k < |s| ==> s[k] == '0' || s[k] == '1'
    ensures ConvertRow(Text(s)).Ok?
    ensures var c := ConvertRow(Text(s)).value;
      |c| == |s| && IsBits(c) && forall k :: 0 <= k < |s| ==> (c[k] == 1 <==> s[k] == '1')
  {
    var row := Text(s);
    forall k | 0 <= k < |row|
      ensures IntOf(row[k]).Ok?
    {
      assert row[k] == Char(s[k]);
    }
  }

  /** Converting lists of ints changes nothing: `int` of an int is the int itself. */
  lemma ConvertInts(vals: seq<Chromosome>)
    ensures Convert(seq(|vals|, i requires 0 <= i < |vals| => Ints(vals[i]))) == Ok(vals)
  {
    var raw := seq(|vals|, i requires 0 <= i < |vals| => Ints(vals[i]));
    forall i | 0 <= i < |raw|
      ensures ConvertRow(raw[i]) == Ok(vals[i])
    {
      var row := raw[i];
      assert forall k :: 0 <= k < |row| ==> row[k] == Int(vals[i][k]);
      assert ConvertRow(row).value == vals[i];
    }
    assert Convert(raw).value == vals;
  }

  /** The keys of `_break_conditions`. */
  predicate KnownBreak(name: string) {
    name == "generation" || name == "fitness"
  }

  /** `[self.get_fitness(chromosome) for chromosome in self.chromosomes]`. */
  function Fitnesses(vals: seq<Chromosome>, f: FitnessFunction): (p: seq<real>)
    ensures |p| == |vals| && forall i :: 0 <= i < |vals| ==> p[i] == GetFitness(f, vals[i])
  {
    seq(|vals|, i requires 0 <= i < |vals| => GetFitness(f, vals[i]))
  }

  /** `_get_average_fitness`: the sum of the clipped fitnesses over their number. */
  function Average(vals: seq<Chromosome>, f: FitnessFunction): (r: Result<real>)
    ensures r.Err? <==> |vals| == 0
    ensures r.Err? ==> r.error == ZeroDivisionError
  {
    if |vals| == 0 then Err(ZeroDivisionError)
    else Ok(SumReals(Fitnesses(vals, f)) / (|vals| as real))
  }

  lemma {:induction false} SumRealsBounded(p: seq<real>, hi: real)
    requires forall i :: 0 <= i < |p| ==> 0.0 <= p[i] <= hi
    ensures 0.0 <= SumReals(p) <= (|p| as real) * hi
  {
    if p != [] {
      SumRealsBounded(p[..|p| - 1], hi);
    }
  }

  /**
   * The average clipped fitness of a population is never negative and
   * never above the score of the fittest chromosome, so the maximum curve
   * that `simulate` plots lies on or above the average curve.
   */
  lemma AverageAtMostFittest(vals: seq<Chromosome>, f: FitnessFunction)
    requires |vals| > 0
    ensures 0.0 <= Average(vals, f).value <= Fittest(vals, f).value.1
  {
    var p := Fitnesses(vals, f);
    var best := Fittest(vals, f).value.1;
    forall i | 0 <= i < |p|
      ensures 0.0 <= p[i] <= best
    {
      assert p[i] == GetFitness(f, vals[i]);
    }
    MeanAtMost(p, best);
  }

  /** The mean of non-negative scores, all at most `hi`, lies between zero and `hi`. */
  lemma MeanAtMost(p: seq<real>, hi: real)
    requires |p| > 0 && forall i :: 0 <= i < |p| ==> 0.0 <= p[i] <= hi
    ensures 0.0 <= SumReals(p) / (|p| as real) <= hi
  {
    SumRealsBounded(p, hi);
    MeanBounded(SumReals(p), |p| as real, hi);
  }

  lemma MeanBounded(sum: real, n: real, hi: real)
    requires n > 0.0 && 0.0 <= sum <= n * hi
    ensures 0.0 <= sum / n <= hi
  {
    assert (n * hi) / n == hi;
  }

  /** Each parent's place holds that parent's list, each offspring's place a list of the offspring's bits. */
  ghost predicate Placed(olds: seq<array<int>>, newGen: seq<array<int>>, children: seq<Child>)
    requires |newGen| == |children|
    reads newGen
  {
    forall j :: 0 <= j < |newGen| ==>
      (children[j].Parent? ==> children[j].slot < |olds| && newGen[j] == olds[children[j].slot]) &&
      (children[j].Offspring? ==> newGen[j][..] == children[j].bits)
  }

  lemma PlacedExtend(olds: seq<array<int>>, newGen: seq<array<int>>, children: seq<Child>, a: array<int>, c: Child)
    requires |newGen| == |children| && Placed(olds, newGen, children)
    requires c.Parent? ==> c.slot < |olds| && a == olds[c.slot]
    requires c.Offspring? ==> a[..] == c.bits
    ensures Placed(olds, newGen + [a], children + [c])
  {
    var g, cs := newGen + [a], children + [c];
    forall j | 0 <= j < |g|
      ensures (cs[j].Parent? ==> cs[j].slot < |olds| && g[j] == olds[cs[j].slot]) &&
              (cs[j].Offspring? ==> g[j][..] == cs[j].bits)
    {
      if j < |newGen| {
        assert g[j] == newGen[j] && cs[j] == children[j];
      }
    }
  }

  /**
   * A parent's place holds one of the old lists; an offspring's place holds
   * a list that is none of them and stands nowhere else.
   */
  ghost predicate OffspringApart(olds: seq<array<int>>, newGen: seq<array<int>>, children: seq<Child>)
    requires |newGen| == |children|
  {
    (forall j :: 0 <= j < |newGen| ==> (newGen[j] in olds <==> children[j].Parent?)) &&
    (forall j, k :: 0 <= j < |newGen| && 0 <= k < |newGen| && j != k && children[j].Offspring? && children[k].Offspring? ==>
      newGen[j] != newGen[k])
  }

  lemma ApartExtend(olds: seq<array<int>>, newGen: seq<array<int>>, children: seq<Child>, a: array<int>, c: Child)
    requires |newGen| == |children| && OffspringApart(olds, newGen, children)
    requires a in olds <==> c.Parent?
    requires c.Offspring? ==> a !in newGen
    ensures OffspringApart(olds, newGen + [a], children + [c])
  {
    var g, cs := newGen + [a], children + [c];
    forall j, k | 0 <= j < |g| && 0 <= k < |g| && j != k && cs[j].Offspring? && cs[k].Offspring?
      ensures g[j] != g[k]
    {
      if j < |newGen| && k < |newGen| {
        assert g[j] == newGen[j] && g[k] == newGen[k] && cs[j] == children[j] && cs[k] == children[k];
      } else if j < |newGen| {
        assert g[j] in newGen;
      } else {
        assert g[k] in newGen;
      }
    }
    forall j | 0 <= j < |g|
      ensures g[j] in olds <==> cs[j].Parent?
    {
      if j < |newGen| {
        assert g[j] == newGen[j] && cs[j] == children[j];
      }
    }
  }

  /** An offspring's list stands at no other place, and no old list is an offspring's. */
  lemma ApartMeansDistinct(olds: seq<array<int>>, newGen: seq<array<int>>, children: seq<Child>, j: nat, k: nat)
    requires |newGen| == |children| && OffspringApart(olds, newGen, children)
    requires j < |newGen| && k < |newGen| && j != k && children[j].Offspring?
    ensures newGen[j] != newGen[k] && newGen[j] !in olds
  {
  }

  /** Every recorded average is at least zero and at most the maximum recorded with it. */
  ghost predicate InOrder(maxes: seq<real>, avgs: seq<real>) {
    |maxes| == |avgs| && forall k :: 0 <= k < |maxes| ==> 0.0 <= avgs[k] <= maxes[k]
  }

  lemma RecordedInOrder(maxes: seq<real>, avgs: seq<real>, best: real, avg: real)
    requires InOrder(maxes, avgs) && 0.0 <= avg <= best
    ensures InOrder(maxes + [best], avgs + [avg])
  {
  }

  /**
   * Placed children hold what the heap model of the mutation pass starts
   * from: the object behind each place has the contents the heap gives its id.
   */
  lemma PlacesHoldHeap(olds: seq<array<int>>, newGen: seq<array<int>>, children: seq<Child>)
    requires |newGen| == |children| && ChildrenInRange(|olds|, children) && Placed(olds, newGen, children)
    ensures var ids, heap := Ids(|olds|, children), InitialHeap(Contents(olds), children);
      IdsIn(heap, ids) &&
      (forall j :: 0 <= j < |newGen| ==> newGen[j][..] == heap[ids[j]]) &&
      (forall x :: 0 <= x < |olds| ==> olds[x][..] == heap[x])
  {
    var vals := Contents(olds);
    var ids, heap := Ids(|olds|, children), InitialHeap(vals, children);
    forall x | 0 <= x < |olds|
      ensures olds[x][..] == heap[x]
    {
      OldInHeap(vals, children, x);
    }
    forall j | 0 <= j < |newGen|
      ensures newGen[j][..] == heap[ids[j]]
    {
      if children[j].Parent? {
        OldInHeap(vals, children, children[j].slot);
      }
    }
  }

  /** The heap model keeps the old lists in their slots. */
  lemma OldInHeap(vals: seq<Chromosome>, children: seq<Child>, x: nat)
    requires x < |vals|
    ensures InitialHeap(vals, children)[x] == vals[x]
  {
    assert InitialHeap(vals, children)[x] == InitialHeap(vals, children)[..|vals|][x];
  }

  /**
   * Two places hold the same object exactly when the heap model gives them
   * the same id, and a place holds an old list exactly when its id is that
   * list's slot.
   */
  lemma PlacesAlias(olds: seq<array<int>>, newGen: seq<array<int>>, children: seq<Child>)
    requires |newGen| == |children| && ChildrenInRange(|olds|, children) && Distinct(olds)
    requires Placed(olds, newGen, children) && OffspringApart(olds, newGen, children)
    ensures var ids := Ids(|olds|, children);
      (forall j, k :: 0 <= j < |newGen| && 0 <= k < |newGen| ==> (newGen[j] == newGen[k] <==> ids[j] == ids[k])) &&
      (forall j, x :: 0 <= j < |newGen| && 0 <= x < |olds| ==> (newGen[j] == olds[x] <==> ids[j] == x))
  {
    var n, ids := |olds|, Ids(|olds|, children);
    forall j, x | 0 <= j < |newGen| && 0 <= x < n
      ensures newGen[j] == olds[x] <==> ids[j] == x
    {
      if children[j].Offspring? {
        assert newGen[j] !in olds;
      }
    }
    forall j, k | 0 <= j < |newGen| && 0 <= k < |newGen|
      ensures newGen[j] == newGen[k] <==> ids[j] == ids[k]
    {
      if j != k && children[j].Offspring? {
        ApartMeansDistinct(olds, newGen, children, j, k);
      } else if j != k && children[k].Offspring? {
        ApartMeansDistinct(olds, newGen, children, k, j);
      }
    }
  }

  /**
   * The generation at which the "generation" condition first holds: the
   * least count `n >= 0` with `n >= v`.
   */
  function BreakGeneration(v: real): (n: nat)
    ensures n as real >= v && (n == 0 || (n - 1) as real < v)
  {
    if v <= 0.0 then 0
    else
      var f := (-v).Floor;
      assert f as real <= -v < f as real + 1.0;
      -f
  }

  /** A count that reaches `v` while the count before it did not is `BreakGeneration(v)`. */
  lemma StopsAtBreakValue(count: nat, v: real)
    requires count as real >= v && (count == 0 || (count - 1) as real < v)
    ensures count == BreakGeneration(v)
  {
  }

  /** For a whole break value `v >= 0`, such as the default 1000, the run stops at exactly `v` generations. */
  lemma WholeBreakValue(v: real)
    requires v >= 0.0 && v == v.Floor as real
    ensures BreakGeneration(v) == v.Floor && BreakGeneration(1000.0) == 1000
  {
    StopsAtBreakValue(v.Floor, v);
    StopsAtBreakValue(1000, 1000.0);
  }

  /** The draws of one generation: those of the breeding loop and those of the mutation pass. */
  type GenerationDraws = (nat -> PairDraw, nat -> MutationDraw)

  /** One generation as `simulate` breeds it: `next_generation` with that generation's draws. */
  function Step(cfg: Config): (step: (seq<Chromosome>, GenerationDraws) -> Result<seq<Chromosome>>)
    ensures forall vals, d :: step(vals, d) == NextGenerationValues(cfg, vals, d.0, d.1)
  {
    (vals: seq<Chromosome>, d: GenerationDraws) => NextGenerationValues(cfg, vals, d.0, d.1)
  }

  /** `k` generations bred one after another by `step`, generation `i` (from 1) with `draws[i - 1]`; the error of the first that raises. */
  function Run(step: (seq<Chromosome>, GenerationDraws) -> Result<seq<Chromosome>>, vals: seq<Chromosome>, draws: seq<GenerationDraws>, k: nat)
    : (r: Result<seq<Chromosome>>)
    requires k <= |draws|
    ensures k == 0 ==> r == Ok(vals)
  {
    if k == 0 then Ok(vals)
    else
      var prev := Run(step, vals, draws, k - 1);
      if prev.Err? then prev else step(prev.value, draws[k - 1])
  }

  /** The population after `k` generations of `simulate`; the error of the first generation that raises. */
  function Evolved(cfg: Config, vals: seq<Chromosome>, draws: seq<GenerationDraws>, k: nat): (r: Result<seq<Chromosome>>)
    requires k <= |draws|
    ensures k == 0 ==> r == Ok(vals)
  {
    Run(Step(cfg), vals, draws, k)
  }

  /** Generation `k + 1` of a run that reached generation `k` is the step from it. */
  lemma EvolvedStep(cfg: Config, vals: seq<Chromosome>, draws: seq<GenerationDraws>, k: nat, now: seq<Chromosome>)
    requires k < |draws| && Evolved(cfg, vals, draws, k) == Ok(now)
    ensures Evolved(cfg, vals, draws, k + 1) == NextGenerationValues(cfg, now, draws[k].0, draws[k].1)
  {
    assert Run(Step(cfg), vals, draws, k + 1) == Step(cfg)(now, draws[k]);
  }

  /** A property every successful step keeps holds of every generation a run reaches. */
  lemma {:induction false} RunKeeps(step: (seq<Chromosome>, GenerationDraws) -> Result<seq<Chromosome>>, P: seq<Chromosome> -> bool,
                                    vals: seq<Chromosome>, draws: seq<GenerationDraws>, k: nat)
    requires k <= |draws| && P(vals)
    requires forall v, i {:trigger step(v, draws[i])} :: 0 <= i < |draws| && P(v) && step(v, draws[i]).Ok? ==> P(step(v, draws[i]).value)
    ensures Run(step, vals, draws, k).Ok? ==> P(Run(step, vals, draws, k).value)
  {
    if k > 0 {
      var prev := Run(step, vals, draws, k - 1);
      RunKeeps(step, P, vals, draws, k - 1);
      if prev.Ok? {
        var next := step(prev.value, draws[k - 1]);
        assert Run(step, vals, draws, k) == next;
      }
    }
  }

  /** When no step from a population with the property raises and every step keeps it, no run raises. */
  lemma {:induction false} RunSucceeds(step: (seq<Chromosome>, GenerationDraws) -> Result<seq<Chromosome>>, P: seq<Chromosome> -> bool,
                                       vals: seq<Chromosome>, draws: seq<GenerationDraws>, k: nat)
    requires k <= |draws| && P(vals)
    requires forall v, i {:trigger step(v, draws[i])} :: 0 <= i < |draws| && P(v) ==> step(v, draws[i]).Ok? && P(step(v, draws[i]).value)
    ensures Run(step, vals, draws, k).Ok? && P(Run(step, vals, draws, k).value)
  {
    if k > 0 {
      RunSucceeds(step, P, vals, draws, k - 1);
      var prev := Run(step, vals, draws, k - 1).value;
      var next := step(prev, draws[k - 1]);
      assert Run(step, vals, draws, k) == next;
    }
  }

  /** Every generation of a run from bit chromosomes of length `L` is made of bit chromosomes of length `L`. */
  lemma EvolvedKeepsShape(cfg: Config, vals: seq<Chromosome>, draws: seq<GenerationDraws>, k: nat, L: nat)
    requires k <= |draws| && Uniform(vals, L) && Evolved(cfg, vals, draws, k).Ok?
    ensures Uniform(Evolved(cfg, vals, draws, k).value, L)
  {
    var P := (v: seq<Chromosome>) => Uniform(v, L);
    var step := Step(cfg);
    forall v, i | 0 <= i < |draws| && P(v) && step(v, draws[i]).Ok?
      ensures P(step(v, draws[i]).value)
    {
      GenerationKeepsShape(cfg, v, draws[i].0, draws[i].1, L);
    }
    RunKeeps(step, P, vals, draws, k);
  }

  /**
   * Under cutoff selection with a known crossover method, a run from a
   * non-empty population of bit chromosomes of one length `L >= 1` never
   * raises, however many generations it breeds.
   */
  lemma CutoffRunSucceeds(cfg: Config, vals: seq<Chromosome>, draws: seq<GenerationDraws>, k: nat, L: nat)
    requires k <= |draws| && Uniform(vals, L) && L >= 1 && |vals| >= 1
    requires cfg.selection == "cutoff" && KnownCrossover(cfg.crossover)
    ensures Evolved(cfg, vals, draws, k).Ok? && Uniform(Evolved(cfg, vals, draws, k).value, L)
  {
    var P := (v: seq<Chromosome>) => Uniform(v, L) && |v| >= 1;
    var step := Step(cfg);
    forall v, i | 0 <= i < |draws| && P(v)
      ensures step(v, draws[i]).Ok? && P(step(v, draws[i]).value)
    {
      CutoffStep(cfg, v, draws[i].0, draws[i].1, L);
    }
    RunSucceeds(step, P, vals, draws, k);
  }

  /** One generation under cutoff selection from a non-empty population of bit chromosomes of length `L >= 1`. */
  lemma CutoffStep(cfg: Config, vals: seq<Chromosome>, pd: nat -> PairDraw, md: nat -> MutationDraw, L: nat)
    requires Uniform(vals, L) && L >= 1 && |vals| >= 1
    requires cfg.selection == "cutoff" && KnownCrossover(cfg.crossover)
    ensures var next := NextGenerationValues(cfg, vals, pd, md); next.Ok? && Uniform(next.value, L) && |next.value| >= 1
  {
    assert SelectionCannotFail(cfg, vals, pd);
    GenerationSucceeds(cfg, vals, pd, md, L);
    GenerationKeepsShape(cfg, vals, pd, md, L);
  }

  /** No generation before the `k`-th has a chromosome whose clipped fitness reaches `v`. */
  ghost predicate FitnessBelowBefore(cfg: Config, vals: seq<Chromosome>, draws: seq<GenerationDraws>, k: nat, v: real)
    requires k <= |draws|
  {
    forall j :: 0 <= j < k ==>
      Evolved(cfg, vals, draws, j).Ok? &&
      Fittest(Evolved(cfg, vals, draws, j).value, cfg.fitness).Ok? &&
      Fittest(Evolved(cfg, vals, draws, j).value, cfg.fitness).value.1 < v
  }

  lemma FitnessBelowExtend(cfg: Config, vals: seq<Chromosome>, draws: seq<GenerationDraws>, k: nat, v: real, now: seq<Chromosome>)
    requires k < |draws| && FitnessBelowBefore(cfg, vals, draws, k, v) && Evolved(cfg, vals, draws, k) == Ok(now)
    requires Fittest(now, cfg.fitness).Ok? && Fittest(now, cfg.fitness).value.1 < v
    ensures FitnessBelowBefore(cfg, vals, draws, k + 1, v)
  {
    forall j | 0 <= j < k + 1
      ensures Evolved(cfg, vals, draws, j).Ok? &&
        Fittest(Evolved(cfg, vals, draws, j).value, cfg.fitness).Ok? &&
        Fittest(Evolved(cfg, vals, draws, j).value, cfg.fitness).value.1 < v
    {
      if j == k {
        assert Evolved(cfg, vals, draws, j).value == now;
      }
    }
  }

  /** How `simulate` ends: the break condition holds, a call raises, or the run uses up its draws. */
  datatype Outcome = Finished | Stopped(error: Error) | OutOfDraws

  class Population {
    /** `_chromosomes`: `None` until the setter runs, then a list of lists. */
    var populated: bool
    var chromosomes: seq<array<int>>
    var mutationChance: real
    var crossoverChance: real
    var fitness: FitnessFunction
    var chromosomeLength: int
    var breakCondition: string
    var breakValue: real
    var generationCount: int
    var selectionMethod: string
    var crossoverMethod: string

    /**
     * What the setters maintain: known method and condition names,
     * probabilities in [0, 1], and lists that the setter created afresh,
     * one object per place.
     */
    predicate Valid()
      reads this
    {
      KnownSelection(selectionMethod) && KnownCrossover(crossoverMethod) && KnownBreak(breakCondition) &&
      0.0 <= mutationChance <= 1.0 && 0.0 <= crossoverChance <= 1.0 &&
      (!populated ==> chromosomes == []) && Distinct(chromosomes)
    }

    /** The values of the population's lists. */
    function Values(): (vals: seq<Chromosome>)
      reads this, chromosomes
      ensures |vals| == |chromosomes|
    {
      Contents(chromosomes)
    }

    /** The settings `next_generation` reads. */
    function Cfg(): Config
      reads this
    {
      Config(selectionMethod, crossoverMethod, mutationChance, crossoverChance, fitness)
    }

    /** Everything but the chromosomes and the generation counter. */
    function Settings(): (Config, string, real)
      reads this
    {
      (Cfg(), breakCondition, breakValue)
    }

    /** `__init__`: the default settings, and no chromosomes yet. */
    constructor ()
      ensures Valid() && !populated && chromosomes == []
      ensures mutationChance == 0.2 && crossoverChance == 1.0 && chromosomeLength == 0
      ensures breakCondition == "generation" && breakValue == 1000.0 && generationCount == 0
      ensures selectionMethod == "cutoff" && crossoverMethod == "1_point"
      ensures forall c :: fitness(c) == 0.0
    {
      populated := false;
      chromosomes := [];
      mutationChance := 0.2;
      crossoverChance := 1.0;
      fitness := _ => 0.0;
      chromosomeLength := 0;
      breakCondition := "generation";
      breakValue := 1000.0;
      generationCount := 0;
      selectionMethod := "cutoff";
      crossoverMethod := "1_point";
    }

    /** `_set_mutation_chance`: a value outside [0, 1] raises and is not stored. */
    method SetMutationChance(chance: real) returns (s: Status)
      requires Valid()
      modifies this
      ensures Valid()
      ensures chance > 1.0 || chance < 0.0 ==> s == Raised(ValueError) && mutationChance == old(mutationChance)
      ensures 0.0 <= chance <= 1.0 ==> s == Done && mutationChance == chance
      ensures populated == old(populated) && chromosomes == old(chromosomes) && crossoverChance == old(crossoverChance)
      ensures fitness == old(fitness) && chromosomeLength == old(chromosomeLength)
      ensures breakCondition == old(breakCondition) && breakValue == old(breakValue)
      ensures generationCount == old(generationCount)
      ensures selectionMethod == old(selectionMethod) && crossoverMethod == old(crossoverMethod)
    {
      if chance > 1.0 || chance < 0.0 {
        return Raised(ValueError);
      }
      mutationChance := chance;
      s := Done;
    }

    /** `_set_crossover_chance`: a value outside [0, 1] raises and is not stored. */
    method SetCrossoverChance(chance: real) returns (s: Status)
      requires Valid()
      modifies this
      ensures Valid()
      ensures chance > 1.0 || chance < 0.0 ==> s == Raised(ValueError) && crossoverChance == old(crossoverChance)
      ensures 0.0 <= chance <= 1.0 ==> s == Done && crossoverChance == chance
      ensures populated == old(populated) && chromosomes == old(chromosomes) && mutationChance == old(mutationChance)
      ensures fitness == old(fitness) && chromosomeLength == old(chromosomeLength)
      ensures breakCondition == old(breakCondition) && breakValue == old(breakValue)
      ensures generationCount == old(generationCount)
      ensures selectionMethod == old(selectionMethod) && crossoverMethod == old(crossoverMethod)
    {
      if chance > 1.0 || chance < 0.0 {
        return Raised(ValueError);
      }
      crossoverChance := chance;
      s := Done;
    }

    /** `_set_chromosome_lenth`: the stored length of a chromosome. */
    method SetChromosomeLength(length: int)
      requires Valid()
      modifies this
      ensures Valid() && chromosomeLength == length
      ensures populated == old(populated) && chromosomes == old(chromosomes)
      ensures mutationChance == old(mutationChance) && crossoverChance == old(crossoverChance)
      ensures fitness == old(fitness)
      ensures breakCondition == old(breakCondition) && breakValue == old(breakValue)
      ensures generationCount == old(generationCount)
      ensures selectionMethod == old(selectionMethod) && crossoverMethod == old(crossoverMethod)
    {
      chromosomeLength := length;
    }

    /** `_set_fitness_function`. */
    method SetFitnessFunction(f: FitnessFunction)
      requires Valid()
      modifies this
      ensures Valid() && fitness == f
      ensures populated == old(populated) && chromosomes == old(chromosomes)
      ensures mutationChance == old(mutationChance) && crossoverChance == old(crossoverChance)
      ensures chromosomeLength == old(chromosomeLength)
      ensures breakCondition == old(breakCondition) && breakValue == old(breakValue)
      ensures generationCount == old(generationCount)
      ensures selectionMethod == old(selectionMethod) && crossoverMethod == old(crossoverMethod)
    {
      fitness := f;
    }

    /** `_set_crossover_method`: a name that is not a crossover method raises and is not stored. */
    method SetCrossoverMethod(name: string) returns (s: Status)
      requires Valid()
      modifies this
      ensures Valid()
      ensures KnownCrossover(name) ==> s == Done && crossoverMethod == name
      ensures !KnownCrossover(name) ==> s == Raised(TypeError) && crossoverMethod == old(crossoverMethod)
      ensures populated == old(populated) && chromosomes == old(chromosomes)
      ensures mutationChance == old(mutationChance) && crossoverChance == old(crossoverChance)
      ensures fitness == old(fitness) && chromosomeLength == old(chromosomeLength)
      ensures breakCondition == old(breakCondition) && breakValue == old(breakValue)
      ensures generationCount == old(generationCount) && selectionMethod == old(selectionMethod)
    {
      if KnownCrossover(name) {
        crossoverMethod := name;
        s := Done;
      } else {
        s := Raised(TypeError);
      }
    }

    /** `_set_selection_method`: a name that is not a selection method raises and is not stored. */
    method SetSelectionMethod(name: string) returns (s: Status)
      requires Valid()
      modifies this
      ensures Valid()
      ensures KnownSelection(name) ==> s == Done && selectionMethod == name
      ensures !KnownSelection(name) ==> s == Raised(TypeError) && selectionMethod == old(selectionMethod)
      ensures populated == old(populated) && chromosomes == old(chromosomes)
      ensures mutationChance == old(mutationChance) && crossoverChance == old(crossoverChance)
      ensures fitness == old(fitness) && chromosomeLength == old(chromosomeLength)
      ensures breakCondition == old(breakCondition) && breakValue == old(breakValue)
      ensures generationCount == old(generationCount) && crossoverMethod == old(crossoverMethod)
    {
      if KnownSelection(name) {
        selectionMethod := name;
        s := Done;
      } else {
        s := Raised(TypeError);
      }
    }

    /**
     * `set_break_condition`: an unknown condition name raises and neither
     * the name nor the value is stored.
     */
    method SetBreakCondition(name: string, value: real) returns (s: Status)
      requires Valid()
      modifies this
      ensures Valid()
      ensures KnownBreak(name) ==> s == Done && breakCondition == name && breakValue == value
      ensures !KnownBreak(name) ==>
        s == Raised(KeyError) && breakCondition == old(breakCondition) && breakValue == old(breakValue)
      ensures populated == old(populated) && chromosomes == old(chromosomes)
      ensures mutationChance == old(mutationChance) && crossoverChance == old(crossoverChance)
      ensures fitness == old(fitness) && chromosomeLength == old(chromosomeLength)
      ensures generationCount == old(generationCount)
      ensures selectionMethod == old(selectionMethod) && crossoverMethod == old(crossoverMethod)
    {
      if KnownBreak(name) {
        breakValue := value;
        breakCondition := name;
        s := Done;
      } else {
        s := Raised(KeyError);
      }
    }

    /**
     * The hand-over at the end of `_set_chromosomes`: new lists with the
     * given contents, then the stored length of the first, which raises
     * when there is none (after the list has been stored).
     */
    method Install(vals: seq<Chromosome>) returns (s: Status)
      requires Valid()
      modifies this
      ensures Valid() && populated && Values() == vals
      ensures forall i :: 0 <= i < |chromosomes| ==> fresh(chromosomes[i])
      ensures |vals| == 0 ==> s == Raised(IndexError) && chromosomeLength == old(chromosomeLength)
      ensures |vals| > 0 ==> s == Done && chromosomeLength == |vals[0]|
      ensures mutationChance == old(mutationChance) && crossoverChance == old(crossoverChance)
      ensures fitness == old(fitness)
      ensures breakCondition == old(breakCondition) && breakValue == old(breakValue)
      ensures generationCount == old(generationCount)
      ensures selectionMethod == old(selectionMethod) && crossoverMethod == old(crossoverMethod)
    {
      var lists := NewLists(vals);
      chromosomes := lists;
      populated := true;
      assert Values() == vals;
      if |vals| == 0 {
        return Raised(IndexError);
      }
      chromosomeLength := |vals[0]|;
      s := Done;
    }

    /**
     * `_set_chromosomes`: every element goes through `int`; a malformed
     * element raises before anything is stored.
     */
    method SetChromosomes(raw: seq<seq<Cell>>) returns (s: Status)
      requires Valid()
      modifies this
      ensures Valid()
      ensures Convert(raw).Err? ==>
        s == Raised(ValueError) && populated == old(populated) && chromosomes == old(chromosomes) &&
        chromosomeLength == old(chromosomeLength)
      ensures Convert(raw).Ok? ==> populated && Values() == Convert(raw).value
      ensures Convert(raw).Ok? ==> forall i :: 0 <= i < |chromosomes| ==> fresh(chromosomes[i])
      ensures Convert(raw).Ok? && |raw| == 0 ==> s == Raised(IndexError) && chromosomeLength == old(chromosomeLength)
      ensures Convert(raw).Ok? && |raw| > 0 ==> s == Done && chromosomeLength == |raw[0]|
      ensures mutationChance == old(mutationChance) && crossoverChance == old(crossoverChance)
      ensures fitness == old(fitness)
      ensures breakCondition == old(breakCondition) && breakValue == old(breakValue)
      ensures generationCount == old(generationCount)
      ensures selectionMethod == old(selectionMethod) && crossoverMethod == old(crossoverMethod)
    {
      var converted := Convert(raw);
      if converted.Err? {
        return Raised(converted.error);
      }
      s := Install(converted.value);
    }

    /** `average_fitness`; iterating over the unset `None` list raises `TypeError` before any chromosome is set. */
    function AverageFitness(): (r: Result<real>)
      reads this, chromosomes
      ensures !populated ==> r == Err(TypeError)
      ensures populated ==> r == Average(Values(), fitness)
    {
      if !populated then Err(TypeError) else Average(Values(), fitness)
    }

    /** `fittest_chromosome`: the head of `get_chromosomes_fitness`. */
    function FittestChromosome(): (r: Result<Scored>)
      reads this, chromosomes
      ensures !populated ==> r == Err(TypeError)
      ensures populated ==> (r.Err? <==> |chromosomes| == 0)
      ensures r.Ok? ==>
        r.value.0 < |chromosomes| && r.value.1 == GetFitness(fitness, chromosomes[r.value.0][..]) &&
        forall j :: 0 <= j < |chromosomes| ==> GetFitness(fitness, chromosomes[j][..]) <= r.value.1
    {
      if !populated then Err(TypeError) else Fittest(Values(), fitness)
    }

    /**
     * `_has_reached_break_generation` without the echo: the generation
     * condition compares the counter, the fitness condition the score of
     * the fittest chromosome, with the break value.
     */
    function BreakReached(): (r: Result<bool>)
      reads this, chromosomes
      ensures breakCondition == "generation" ==> r == Ok(generationCount as real >= breakValue)
      ensures breakCondition == "fitness" ==>
        (r.Ok? <==> FittestChromosome().Ok?) &&
        (r.Ok? ==> (r.value <==> FittestChromosome().value.1 >= breakValue))
      ensures !KnownBreak(breakCondition) ==> r == Err(KeyError)
    {
      if breakCondition == "generation" then Ok(generationCount as real >= breakValue)
      else if breakCondition == "fitness" then
        var best := FittestChromosome();
        if best.Err? then Err(best.error) else Ok(best.value.1 >= breakValue)
      else Err(KeyError)
    }

    /**
     * `_mutate`: when the draw is at most the mutation chance, the bit at
     * the drawn index of the list itself is flipped.
     */
    method Mutate(a: array<int>, d: MutationDraw) returns (s: Status)
      modifies a
      ensures var m := Mutated(old(a[..]), d.r, d.flip, mutationChance);
        (m.Ok? ==> s == Done && a[..] == m.value) &&
        (m.Err? ==> s == Raised(m.error) && a[..] == old(a[..]))
    {
      if d.r <= mutationChance {
        if a.Length == 0 {
          return Raised(ValueError);
        }
        var k := d.flip % a.Length;
        a[k] := (a[k] + 1) % 2;
      }
      s := Done;
    }

    /** `self._selection_methods[self._selection_method](2)`, unpacked into two slots. */
    method SelectParents(d: PairDraw) returns (r: Result<(nat, nat)>)
      ensures r == SelectPair(Cfg(), Values(), d)
    {
      var vals := Values();
      if selectionMethod == "cutoff" {
        r := CutoffPair(vals, fitness, d);
      } else if selectionMethod == "roulette" {
        var picks := Roulette(vals, fitness, [d.spin1, d.spin2]);
        if picks.Err? {
          r := Err(picks.error);
        } else if |picks.value| != 2 {
          r := Err(ValueError);
        } else {
          r := Ok((picks.value[0], picks.value[1]));
        }
      } else {
        r := Err(KeyError);
      }
    }

    /** `crossover(chr1, chr2)`, with the fixed-common method run as its loop. */
    method Cross(chr1: Chromosome, chr2: Chromosome, d: PairDraw) returns (r: Result<Crossing>)
      ensures r == Crossover(Cfg(), chr1, chr2, d)
    {
      if d.gate <= crossoverChance {
        if crossoverMethod == "1_point" {
          var children := RandomSinglePoint(chr1, chr2, d.pointA);
          r := if children.Err? then Err(children.error) else Ok(Crossed(children.value.0, children.value.1));
        } else if crossoverMethod == "2_point" {
          var children := RandomTwoPoint(chr1, chr2, d.pointA, d.pointB);
          r := if children.Err? then Err(children.error) else Ok(Crossed(children.value.0, children.value.1));
        } else if crossoverMethod == "fixed_common" {
          var chr3, chr4 := FixedCommonCrossover(chr1, chr2, d.noise);
          r := Ok(Crossed(chr3, chr4));
        } else {
          r := Err(KeyError);
        }
      } else {
        r := Ok(Unchanged);
      }
    }

    /** One pass of the breeding loop's body: select two parents and cross them. */
    method BreedRound(d: PairDraw) returns (r: Result<(Child, Child)>)
      ensures r == BreedPair(Cfg(), Values(), d)
    {
      var pair := SelectParents(d);
      if pair.Err? {
        return Err(pair.error);
      }
      var s1, s2 := pair.value.0, pair.value.1;
      var crossing := Cross(chromosomes[s1][..], chromosomes[s2][..], d);
      if crossing.Err? {
        r := Err(crossing.error);
      } else if crossing.value.Unchanged? {
        r := Ok((Parent(s1), Parent(s2)));
      } else {
        r := Ok((Offspring(crossing.value.chr3), Offspring(crossing.value.chr4)));
      }
    }

    /** The object a child of a round puts into the new generation: the parent list itself, or a new list. */
    method Place(c: Child) returns (a: array<int>)
      requires ChildInRange(|chromosomes|, c)
      ensures c.Parent? ==> a == chromosomes[c.slot]
      ensures c.Offspring? ==> fresh(a) && a[..] == c.bits
    {
      match c
      case Parent(slot) => a := chromosomes[slot];
      case Offspring(bits) => a := NewList(bits);
    }

    /**
     * The `while` loop of `next_generation`: rounds of selection and
     * crossover until the new generation is at least as long as the old.
     * It yields the children of the breeding model, in order.
     */
    method BreedChildren(pd: nat -> PairDraw) returns (children: seq<Child>, s: Status)
      ensures Breed(Cfg(), Values(), pd).Err? ==> s == Raised(Breed(Cfg(), Values(), pd).error)
      ensures Breed(Cfg(), Values(), pd).Ok? ==> s == Done && Breed(Cfg(), Values(), pd).value == children
    {
      var n := |chromosomes|;
      ghost var cfg, vals := Cfg(), Values();
      children := [];
      var round := 0;
      while |children| < n
        invariant |children| == 2 * round <= n + 1
        invariant cfg == Cfg() && vals == Values()
        invariant RunRounds(RoundOf(cfg, vals, pd), round) == Ok(children)
        decreases n - |children|
      {
        var r := BreedRound(pd(round));
        assert r == RoundOf(cfg, vals, pd)(round);
        if r.Err? {
          BreedFailsAt(cfg, vals, pd, round);
          assert Breed(cfg, vals, pd) == Err(r.error);
          return children, Raised(r.error);
        }
        children := children + [r.value.0, r.value.1];
        round := round + 1;
      }
      assert round == (n + 1) / 2;
      assert Breed(cfg, vals, pd) == Ok(children);
      s := Done;
    }

    /**
     * The appends of the breeding loop: a parent's place is the old list
     * itself, an offspring's place a new list of its bits.
     */
    method PlaceAll(children: seq<Child>) returns (newGen: seq<array<int>>)
      requires ChildrenInRange(|chromosomes|, children)
      ensures |newGen| == |children|
      ensures Placed(chromosomes, newGen, children) && OffspringApart(chromosomes, newGen, children)
      ensures forall j :: 0 <= j < |newGen| && children[j].Offspring? ==> fresh(newGen[j])
    {
      newGen := [];
      for j := 0 to |children|
        invariant |newGen| == j
        invariant Placed(chromosomes, newGen, children[..j]) && OffspringApart(chromosomes, newGen, children[..j])
        invariant forall i :: 0 <= i < j && children[i].Offspring? ==> fresh(newGen[i])
      {
        var c := children[j];
        assert ChildInRange(|chromosomes|, c);
        var a := Place(c);
        assert children[..j + 1] == children[..j] + [c];
        PlacedExtend(chromosomes, newGen, children[..j], a, c);
        ApartExtend(chromosomes, newGen, children[..j], a, c);
        newGen := newGen + [a];
      }
      assert children[..|children|] == children;
    }

    /**
     * `next_generation`: breed a new generation, mutate it in place, and
     * hand it to the `chromosomes` setter. A parent the gate passed
     * through is an old list itself, so the mutation pass also changes the
     * old population's lists; a raising pass leaves the population as it
     * was, with those lists as far as the pass got.
     */
    method NextGeneration(pd: nat -> PairDraw, md: nat -> MutationDraw) returns (s: Status)
      requires Valid()
      modifies this, chromosomes
      ensures Valid() && populated == old(populated)
      ensures !old(populated) ==>
        s == Raised(TypeError) && chromosomes == old(chromosomes) && chromosomeLength == old(chromosomeLength)
      ensures old(populated) ==>
        var next := NextGenerationValues(old(Cfg()), old(Values()), pd, md);
        (next.Ok? ==> s == Done && Values() == next.value && chromosomeLength == |next.value[0]|) &&
        (next.Err? ==> s == Raised(next.error) && chromosomes == old(chromosomes) && chromosomeLength == old(chromosomeLength))
      ensures old(populated) ==> Contents(old(chromosomes)) == ParentsAfter(old(Cfg()), old(Values()), pd, md)
      ensures forall i :: 0 <= i < |chromosomes| ==> chromosomes[i] in old(chromosomes) || fresh(chromosomes[i])
      ensures mutationChance == old(mutationChance) && crossoverChance == old(crossoverChance)
      ensures fitness == old(fitness)
      ensures breakCondition == old(breakCondition) && breakValue == old(breakValue)
      ensures generationCount == old(generationCount)
      ensures selectionMethod == old(selectionMethod) && crossoverMethod == old(crossoverMethod)
    {
      if !populated {
        return Raised(TypeError);
      }
      ghost var cfg, vals := Cfg(), Values();
      var children, bred := BreedChildren(pd);
      if bred.Raised? {
        NextGenerationOfFailed(cfg, vals, pd, md);
        return bred;
      }
      NextGenerationOfBred(cfg, vals, pd, md);
      s := ReplaceWith(children, md);
    }

    /**
     * `simulate` without the echo and the plot window: reset the counter,
     * then breed generations until the break condition holds, recording
     * the best and the average fitness of each new generation when `plot`
     * is set. Generation `k` (from 1) consumes the draws `draws[k - 1]`;
     * a run that needs more generations than there are draws ends
     * `OutOfDraws`.
     */
    method Simulate(plot: bool, draws: seq<GenerationDraws>)
      returns (outcome: Outcome, maxes: seq<real>, avgs: seq<real>)
      requires Valid()
      modifies this, chromosomes
      ensures Valid() && populated == old(populated) && Settings() == old(Settings())
      ensures Halted(plot, draws, old(Cfg()), old(Values()), outcome, maxes, avgs)
    {
      ghost var cfg, vals := Cfg(), Values();
      maxes, avgs := [], [];
      generationCount := 0;
      assert Values() == vals;
      while true
        invariant Valid() && populated == old(populated) && Settings() == old(Settings()) && Cfg() == cfg
        invariant Looping(plot, draws, cfg, vals, maxes, avgs)
        invariant forall i :: 0 <= i < |chromosomes| ==> chromosomes[i] in old(chromosomes) || fresh(chromosomes[i])
        decreases |draws| - generationCount
      {
        var halt;
        halt, outcome, maxes, avgs := Tick(plot, draws, maxes, avgs, cfg, vals);
        if halt {
          return;
        }
      }
    }

    /**
     * How a run of `simulate` from the values `vals` under the settings
     * `cfg` ends, with the counter at `k`:
     * - it finishes exactly when the break condition holds; under
     *   "generation" the counter is then the least that reaches the break
     *   value, under "fitness" the fittest score reaches it;
     * - it runs out of draws only with the condition still unmet;
     * - the population is the `k`-th generation of the run, unless
     *   generation `k` raised, and then the run stopped with that error and
     *   the population holds the lists that generation left behind;
     *   otherwise it stopped only because the break test itself raised;
     * - before any chromosome is set, `next_generation` and the fitness
     *   test raise `TypeError`: the run ends after at most one generation,
     *   and breeds that one only under "generation";
     * - no earlier generation reached the break value: under "generation"
     *   the counter before the last stayed below it, and under "fitness"
     *   so did every earlier fittest score;
     * - one point per generation is recorded when plotting and none
     *   otherwise, the average never above the best.
     */
    ghost predicate Halted(plot: bool, draws: seq<GenerationDraws>, cfg: Config, vals: seq<Chromosome>,
                           outcome: Outcome, maxes: seq<real>, avgs: seq<real>)
      reads this, chromosomes
    {
      var k := generationCount;
      0 <= k <= |draws| &&
      (outcome == Finished ==> BreakReached() == Ok(true)) &&
      (outcome == OutOfDraws ==> k == |draws| && BreakReached() == Ok(false)) &&
      (outcome == Finished && breakCondition == "generation" ==> k == BreakGeneration(breakValue)) &&
      (breakCondition == "generation" && k > 0 ==> ((k - 1) as real) < breakValue) &&
      (outcome == Finished && breakCondition == "fitness" ==>
        FittestChromosome().Ok? && FittestChromosome().value.1 >= breakValue) &&
      (!populated ==> k <= 1 && (k == 1 ==> breakCondition == "generation") && (outcome.Stopped? ==> outcome.error == TypeError)) &&
      (populated && !outcome.Stopped? ==> Evolved(cfg, vals, draws, k) == Ok(Values())) &&
      (populated && outcome.Stopped? ==>
        (Evolved(cfg, vals, draws, k) == Ok(Values()) && BreakReached() == Err(outcome.error)) ||
        (k > 0 && Evolved(cfg, vals, draws, k) == Err(outcome.error) && Evolved(cfg, vals, draws, k - 1).Ok? &&
         Values() == ParentsAfter(cfg, Evolved(cfg, vals, draws, k - 1).value, draws[k - 1].0, draws[k - 1].1))) &&
      (populated && breakCondition == "fitness" ==> FitnessBelowBefore(cfg, vals, draws, k, breakValue)) &&
      (!plot ==> maxes == [] && avgs == []) &&
      (plot && !outcome.Stopped? ==> |maxes| == |avgs| == k) &&
      (!outcome.Stopped? && k > 0 ==> populated && |chromosomes| > 0) &&
      InOrder(maxes, avgs)
    }

    /** What holds at the head of `simulate`'s loop, for a run from `vals` under the settings `cfg`. */
    ghost predicate Looping(plot: bool, draws: seq<GenerationDraws>, cfg: Config, vals: seq<Chromosome>, maxes: seq<real>, avgs: seq<real>)
      reads this, chromosomes
    {
      0 <= generationCount <= |draws| &&
      (breakCondition == "generation" && generationCount > 0 ==> ((generationCount - 1) as real) < breakValue) &&
      (!populated ==> generationCount == 0) &&
      (populated ==> Evolved(cfg, vals, draws, generationCount) == Ok(Values())) &&
      (populated && breakCondition == "fitness" ==> FitnessBelowBefore(cfg, vals, draws, generationCount, breakValue)) &&
      (!plot ==> maxes == [] && avgs == []) &&
      (plot ==> |maxes| == |avgs| == generationCount) &&
      (generationCount > 0 ==> populated && |chromosomes| > 0) &&
      InOrder(maxes, avgs)
    }

    /**
     * One pass of `simulate`'s loop: the break test, and unless it holds
     * (or raises, or the draws are used up) one more generation.
     */
    method Tick(plot: bool, draws: seq<GenerationDraws>, maxes: seq<real>, avgs: seq<real>, ghost cfg: Config, ghost vals: seq<Chromosome>)
      returns (halt: bool, outcome: Outcome, maxes': seq<real>, avgs': seq<real>)
      requires Valid() && Cfg() == cfg && Looping(plot, draws, cfg, vals, maxes, avgs)
      modifies this, chromosomes
      ensures Valid() && populated == old(populated) && Settings() == old(Settings())
      ensures forall i :: 0 <= i < |chromosomes| ==> chromosomes[i] in old(chromosomes) || fresh(chromosomes[i])
      ensures halt ==> Halted(plot, draws, cfg, vals, outcome, maxes', avgs')
      ensures !halt ==> generationCount == old(generationCount) + 1 && Looping(plot, draws, cfg, vals, maxes', avgs')
    {
      var reached := BreakReached();
      if reached.Err? || reached.value || generationCount == |draws| {
        outcome := if reached.Err? then Stopped(reached.error) else if reached.value then Finished else OutOfDraws;
        if outcome == Finished && breakCondition == "generation" {
          StopsAtBreakValue(generationCount, breakValue);
        }
        return true, outcome, maxes, avgs;
      }
      halt, outcome, maxes', avgs' := BreedNext(plot, draws, maxes, avgs, cfg, vals);
    }

    /** A generation `k` that raised `e` ends the run as `Halted` describes. */
    lemma RaisedHalts(plot: bool, draws: seq<GenerationDraws>, cfg: Config, vals: seq<Chromosome>,
                      e: Error, maxes: seq<real>, avgs: seq<real>, k: nat, prev: seq<Chromosome>)
      requires generationCount == k + 1 <= |draws|
      requires !populated ==> k == 0 && e == TypeError && breakCondition == "generation"
      requires breakCondition == "generation" ==> (k as real) < breakValue
      requires populated ==>
        Evolved(cfg, vals, draws, k) == Ok(prev) && NextGenerationValues(cfg, prev, draws[k].0, draws[k].1) == Err(e) &&
        Values() == ParentsAfter(cfg, prev, draws[k].0, draws[k].1)
      requires populated && breakCondition == "fitness" ==> FitnessBelowBefore(cfg, vals, draws, k + 1, breakValue)
      requires (!plot ==> maxes == [] && avgs == []) && InOrder(maxes, avgs)
      ensures Halted(plot, draws, cfg, vals, Stopped(e), maxes, avgs)
    {
      if populated {
        RaisedHaltsPopulated(plot, draws, cfg, vals, e, maxes, avgs, k, prev);
      } else {
        RaisedHaltsUnset(plot, draws, cfg, vals, maxes, avgs);
      }
    }

    /** The first generation bred before any chromosome is set raises `TypeError` and ends the run. */
    lemma RaisedHaltsUnset(plot: bool, draws: seq<GenerationDraws>, cfg: Config, vals: seq<Chromosome>,
                           maxes: seq<real>, avgs: seq<real>)
      requires !populated && generationCount == 1 <= |draws|
      requires breakCondition == "generation" && 0.0 < breakValue
      requires (!plot ==> maxes == [] && avgs == []) && InOrder(maxes, avgs)
      ensures Halted(plot, draws, cfg, vals, Stopped(TypeError), maxes, avgs)
    {
    }

    /** A generation `k` of a populated run that raised `e` ends the run as `Halted` describes. */
    lemma RaisedHaltsPopulated(plot: bool, draws: seq<GenerationDraws>, cfg: Config, vals: seq<Chromosome>,
                               e: Error, maxes: seq<real>, avgs: seq<real>, k: nat, prev: seq<Chromosome>)
      requires populated && generationCount == k + 1 <= |draws|
      requires breakCondition == "generation" ==> (k as real) < breakValue
      requires Evolved(cfg, vals, draws, k) == Ok(prev) && NextGenerationValues(cfg, prev, draws[k].0, draws[k].1) == Err(e)
      requires Values() == ParentsAfter(cfg, prev, draws[k].0, draws[k].1)
      requires breakCondition == "fitness" ==> FitnessBelowBefore(cfg, vals, draws, k + 1, breakValue)
      requires (!plot ==> maxes == [] && avgs == []) && InOrder(maxes, avgs)
      ensures Halted(plot, draws, cfg, vals, Stopped(e), maxes, avgs)
    {
      EvolvedStep(cfg, vals, draws, k, prev);
      assert k + 1 - 1 == k;
      assert Evolved(cfg, vals, draws, k + 1) == Err(e) && Evolved(cfg, vals, draws, k + 1 - 1) == Ok(prev);
    }

    /** A generation `k` bred without raising leaves `simulate`'s loop as `Looping` describes. */
    lemma BredLoops(plot: bool, draws: seq<GenerationDraws>, cfg: Config, vals: seq<Chromosome>,
                    maxes: seq<real>, avgs: seq<real>, k: nat, prev: seq<Chromosome>)
      requires generationCount == k + 1 <= |draws| && populated && |chromosomes| > 0
      requires Evolved(cfg, vals, draws, k) == Ok(prev) && NextGenerationValues(cfg, prev, draws[k].0, draws[k].1) == Ok(Values())
      requires breakCondition == "generation" ==> (k as real) < breakValue
      requires breakCondition == "fitness" ==> FitnessBelowBefore(cfg, vals, draws, k + 1, breakValue)
      requires (!plot ==> maxes == [] && avgs == []) && (plot ==> |maxes| == |avgs| == k + 1) && InOrder(maxes, avgs)
      ensures Looping(plot, draws, cfg, vals, maxes, avgs)
    {
      EvolvedStep(cfg, vals, draws, k, prev);
    }

    /** The breeding half of a pass of `simulate`'s loop, once the break test has come out false. */
    method BreedNext(plot: bool, draws: seq<GenerationDraws>, maxes: seq<real>, avgs: seq<real>, ghost cfg: Config, ghost vals: seq<Chromosome>)
      returns (halt: bool, outcome: Outcome, maxes': seq<real>, avgs': seq<real>)
      requires Valid() && Cfg() == cfg && Looping(plot, draws, cfg, vals, maxes, avgs)
      requires BreakReached() == Ok(false) && generationCount < |draws|
      modifies this, chromosomes
      ensures Valid() && populated == old(populated) && Settings() == old(Settings())
      ensures forall i :: 0 <= i < |chromosomes| ==> chromosomes[i] in old(chromosomes) || fresh(chromosomes[i])
      ensures halt ==> Halted(plot, draws, cfg, vals, outcome, maxes', avgs')
      ensures !halt ==> generationCount == old(generationCount) + 1 && Looping(plot, draws, cfg, vals, maxes', avgs')
    {
      ghost var k, now := generationCount, Values();
      assert breakCondition == "generation" ==> k as real < breakValue;
      if populated && breakCondition == "fitness" {
        FitnessBelowExtend(cfg, vals, draws, k, breakValue, now);
      }
      var pd, md := draws[generationCount].0, draws[generationCount].1;
      var st;
      st, maxes', avgs' := Advance(plot, pd, md, maxes, avgs);
      if st.Raised? {
        RaisedHalts(plot, draws, cfg, vals, st.error, maxes', avgs', k, now);
        return true, Stopped(st.error), maxes', avgs';
      }
      BredLoops(plot, draws, cfg, vals, maxes', avgs', k, now);
      halt, outcome := false, Finished;
    }

    /**
     * The plot bookkeeping of `simulate`: `self.fittest_chromosome[1]` and
     * `self.average_fitness` of a non-empty population, which raise
     * nothing, appended to the two curves.
     */
    method Record(maxes: seq<real>, avgs: seq<real>) returns (maxes': seq<real>, avgs': seq<real>)
      requires populated && |chromosomes| > 0 && InOrder(maxes, avgs)
      ensures maxes' == maxes + [FittestChromosome().value.1] && avgs' == avgs + [AverageFitness().value]
      ensures InOrder(maxes', avgs')
    {
      var best := FittestChromosome().value.1;
      var avg := AverageFitness().value;
      AverageAtMostFittest(Values(), fitness);
      RecordedInOrder(maxes, avgs, best, avg);
      maxes', avgs' := maxes + [best], avgs + [avg];
    }

    /** The first half of `simulate`'s loop body: count one more generation and breed it. */
    method CountAndBreed(pd: nat -> PairDraw, md: nat -> MutationDraw) returns (s: Status)
      requires Valid()
      modifies this, chromosomes
      ensures Valid() && populated == old(populated) && generationCount == old(generationCount) + 1
      ensures !old(populated) ==> s == Raised(TypeError)
      ensures old(populated) ==>
        var next := NextGenerationValues(old(Cfg()), old(Values()), pd, md);
        (next.Ok? ==> s == Done && Values() == next.value) &&
        (next.Err? ==> s == Raised(next.error) && Values() == ParentsAfter(old(Cfg()), old(Values()), pd, md))
      ensures s == Done ==> populated && |chromosomes| > 0
      ensures forall i :: 0 <= i < |chromosomes| ==> chromosomes[i] in old(chromosomes) || fresh(chromosomes[i])
      ensures Settings() == old(Settings())
    {
      ghost var cfg, vals := Cfg(), Values();
      generationCount := generationCount + 1;
      assert Values() == vals;
      s := NextGeneration(pd, md);
    }

    /**
     * The body of `simulate`'s loop: count one more generation, breed it,
     * and when `plot` is set record its best and average fitness.
     */
    method Advance(plot: bool, pd: nat -> PairDraw, md: nat -> MutationDraw, maxes: seq<real>, avgs: seq<real>)
      returns (s: Status, maxes': seq<real>, avgs': seq<real>)
      requires Valid() && InOrder(maxes, avgs)
      modifies this, chromosomes
      ensures Valid() && populated == old(populated) && generationCount == old(generationCount) + 1
      ensures !old(populated) ==> s == Raised(TypeError)
      ensures old(populated) ==>
        var next := NextGenerationValues(old(Cfg()), old(Values()), pd, md);
        (next.Ok? ==> s == Done && Values() == next.value) &&
        (next.Err? ==> s == Raised(next.error) && Values() == ParentsAfter(old(Cfg()), old(Values()), pd, md))
      ensures s == Done ==> populated && |chromosomes| > 0
      ensures s == Done && plot ==>
        maxes' == maxes + [FittestChromosome().value.1] && avgs' == avgs + [AverageFitness().value]
      ensures s.Raised? || !plot ==> maxes' == maxes && avgs' == avgs
      ensures InOrder(maxes', avgs')
      ensures forall i :: 0 <= i < |chromosomes| ==> chromosomes[i] in old(chromosomes) || fresh(chromosomes[i])
      ensures Settings() == old(Settings())
    {
      s := CountAndBreed(pd, md);
      maxes', avgs' := Track(plot, s, maxes, avgs);
    }

    /** The plot bookkeeping after a generation that ended with `s`: a point is recorded only when plotting and nothing raised. */
    method Track(plot: bool, s: Status, maxes: seq<real>, avgs: seq<real>) returns (maxes': seq<real>, avgs': seq<real>)
      requires InOrder(maxes, avgs) && (s == Done ==> populated && |chromosomes| > 0)
      ensures s == Done && plot ==>
        maxes' == maxes + [FittestChromosome().value.1] && avgs' == avgs + [AverageFitness().value]
      ensures s.Raised? || !plot ==> maxes' == maxes && avgs' == avgs
      ensures InOrder(maxes', avgs')
    {
      maxes', avgs' := maxes, avgs;
      if s == Done && plot {
        maxes', avgs' := Record(maxes, avgs);
      }
    }

    /**
     * The rest of `next_generation` once the breeding loop is done: the
     * children take their places, the mutation pass runs over the places,
     * and the setter stores copies of the mutated lists.
     */
    method ReplaceWith(children: seq<Child>, md: nat -> MutationDraw) returns (s: Status)
      requires Valid() && populated && ChildrenInRange(|chromosomes|, children) && |children| >= |chromosomes|
      modifies this, chromosomes
      ensures Valid() && populated
      ensures var next := MutateChildren(old(Values()), children, mutationChance, md);
        (next.Ok? ==> s == Done && Values() == next.value && chromosomeLength == |next.value[0]|) &&
        (next.Err? ==> s == Raised(next.error) && chromosomes == old(chromosomes) && chromosomeLength == old(chromosomeLength))
      ensures Contents(old(chromosomes)) ==
        MutationPass(InitialHeap(old(Values()), children), Ids(|old(chromosomes)|, children), mutationChance, md, 0).0[..|old(chromosomes)|]
      ensures forall i :: 0 <= i < |chromosomes| ==> chromosomes[i] in old(chromosomes) || fresh(chromosomes[i])
      ensures mutationChance == old(mutationChance) && crossoverChance == old(crossoverChance)
      ensures fitness == old(fitness)
      ensures breakCondition == old(breakCondition) && breakValue == old(breakValue)
      ensures generationCount == old(generationCount)
      ensures selectionMethod == old(selectionMethod) && crossoverMethod == old(crossoverMethod)
    {
      var newGen, mutated := PlaceAndMutate(children, md);
      if mutated.Raised? {
        return mutated;
      }
      s := Install(Contents(newGen));
    }

    /**
     * The appends of the breeding loop and the mutation pass over their
     * places, against the heap model: the old lists end up as the pass
     * leaves the first objects, the places as it leaves theirs.
     */
    method PlaceAndMutate(children: seq<Child>, md: nat -> MutationDraw) returns (newGen: seq<array<int>>, s: Status)
      requires ChildrenInRange(|chromosomes|, children) && Distinct(chromosomes)
      modifies chromosomes
      ensures var pass := MutationPass(InitialHeap(old(Values()), children), Ids(|chromosomes|, children), mutationChance, md, 0);
        s == pass.1 && Contents(chromosomes) == pass.0[..|chromosomes|] &&
        (s == Done ==> Contents(newGen) == Gathered(pass.0, Ids(|chromosomes|, children)))
    {
      ghost var vals := Values();
      newGen := PlaceAll(children);
      ghost var ids, heap := Ids(|chromosomes|, children), InitialHeap(vals, children);
      PlacesHoldHeap(chromosomes, newGen, children);
      PlacesAlias(chromosomes, newGen, children);
      s := MutateAll(newGen, md, ids, heap);
      ghost var pass := MutationPass(heap, ids, mutationChance, md, 0);
      ghost var olds := pass.0[..|vals|];
      forall x | 0 <= x < |chromosomes|
        ensures chromosomes[x][..] == olds[x]
      {
      }
      ContentsAre(chromosomes, olds);
      if s == Done {
        ContentsAre(newGen, Gathered(pass.0, ids));
      }
    }

    /**
     * `[self._mutate(chromosome) for chromosome in new_generation]`: every
     * place mutates the list behind it in place. Proved against the heap
     * model of the mutation pass: `ids` names the object at each place and
     * `heap` holds the objects' contents, the old population first.
     */
    method MutateAll(newGen: seq<array<int>>, md: nat -> MutationDraw, ghost ids: seq<nat>, ghost heap: seq<Chromosome>)
      returns (s: Status)
      requires |ids| == |newGen| && IdsIn(heap, ids) && |chromosomes| <= |heap|
      requires forall j :: 0 <= j < |newGen| ==> newGen[j][..] == heap[ids[j]]
      requires forall x :: 0 <= x < |chromosomes| ==> chromosomes[x][..] == heap[x]
      requires forall j, k :: 0 <= j < |newGen| && 0 <= k < |newGen| ==> (newGen[j] == newGen[k] <==> ids[j] == ids[k])
      requires forall j, x :: 0 <= j < |newGen| && 0 <= x < |chromosomes| ==> (newGen[j] == chromosomes[x] <==> ids[j] == x)
      modifies set j | 0 <= j < |newGen| :: newGen[j]
      ensures var pass := MutationPass(heap, ids, mutationChance, md, 0);
        s == pass.1 &&
        (forall j :: 0 <= j < |newGen| ==> newGen[j][..] == pass.0[ids[j]]) &&
        (forall x :: 0 <= x < |chromosomes| ==> chromosomes[x][..] == pass.0[x])
    {
      ghost var h := heap;
      for i := 0 to |newGen|
        invariant |h| == |heap| && IdsIn(h, ids)
        invariant MutationPass(h, ids, mutationChance, md, i) == MutationPass(heap, ids, mutationChance, md, 0)
        invariant forall j :: 0 <= j < |newGen| ==> newGen[j][..] == h[ids[j]]
        invariant forall x :: 0 <= x < |chromosomes| ==> chromosomes[x][..] == h[x]
      {
        var st := Mutate(newGen[i], md(i));
        if st.Raised? {
          return st;
        }
        h := h[ids[i] := newGen[i][..]];
      }
      s := Done;
    }
  }
}
