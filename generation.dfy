/**
 * One step of `Population.next_generation` in Genetic.py, on values.
 *
 * The breeding loop selects a pair of parents and passes them through the
 * crossover gate until the new generation is at least as large as the old.
 * A parent that the gate lets through unchanged is the very list object of
 * the old population, and a selection can return one object twice, so one
 * object can stand at several places of the new generation. The mutation
 * pass then flips bits in place, once per place. The model keeps that
 * aliasing explicit: every place of the new generation carries an object
 * id (the parent's slot, or a fresh id for an offspring), and the mutation
 * pass updates a heap of object contents indexed by id.
 */
module Generation {
  import opened Base
  import opened Operators
  import opened Selection
  import opened RouletteWheel

  /** The random draws one round of the breeding loop consumes. */
  datatype PairDraw = PairDraw(
    choice1: nat, choice2: nat,  // the two `random.choice` picks of cutoff selection
    spin1: real, spin2: real,    // the two `random.random()` draws of roulette selection
    gate: real,                  // the `random.random()` draw of the crossover gate
    pointA: nat, pointB: nat,    // the `randrange` cuts of single- and two-point crossover
    noise: nat -> nat)           // the `random.choice([0, 1])` draws of fixed-common crossover

  /** The draws `_mutate` consumes: the gate `random.random()` and the `randrange` flip index. */
  datatype MutationDraw = MutationDraw(r: real, flip: nat)

  /** The settings of the population that `next_generation` reads. */
  datatype Config = Config(
    selection: string,
    crossover: string,
    mutationChance: real,
    crossoverChance: real,
    fitness: FitnessFunction)

  /** The keys of `_selection_methods`. */
  predicate KnownSelection(name: string) {
    name == "cutoff" || name == "roulette"
  }

  /** The keys of `_crossover_methods`. */
  predicate KnownCrossover(name: string) {
    name == "1_point" || name == "2_point" || name == "fixed_common"
  }

  /** `chr1, chr2 = self._cutoff_selection(2)`. */
  function CutoffPair(vals: seq<Chromosome>, f: FitnessFunction, d: PairDraw): (r: Result<(nat, nat)>)
    ensures r.Err? <==> |vals| == 0
    ensures r.Err? ==> r.error == IndexError
    ensures r.Ok? ==> r.value.0 < |vals| && r.value.1 < |vals|
    ensures r.Ok? ==> r.value.0 in CutoffSurvivors(vals, f) && r.value.1 in CutoffSurvivors(vals, f)
  {
    var picks := CutoffSelection(vals, f, [d.choice1, d.choice2]);
    if picks.Err? then Err(picks.error)
    else
      CutoffSurvivorsInRange(vals, f);
      Ok((picks.value[0], picks.value[1]))
  }

  /**
   * `chr1, chr2 = self._roulette_selection(2)`: a wheel that does not yield
   * exactly two chromosomes fails to unpack.
   */
  function RoulettePair(vals: seq<Chromosome>, f: FitnessFunction, d: PairDraw): (r: Result<(nat, nat)>)
    ensures r.Ok? ==> r.value.0 < |vals| && r.value.1 < |vals|
    ensures r.Err? ==> r.error == ZeroDivisionError || r.error == ValueError
  {
    var picks := RouletteSelection(vals, f, [d.spin1, d.spin2]);
    if picks.Err? then Err(picks.error)
    else if |picks.value| != 2 then Err(ValueError)
    else
      RoulettePicksInRange(vals, f, [d.spin1, d.spin2]);
      Ok((picks.value[0], picks.value[1]))
  }

  /** `self._selection_methods[self._selection_method](2)`: an unknown name is a `KeyError`. */
  function SelectPair(cfg: Config, vals: seq<Chromosome>, d: PairDraw): (r: Result<(nat, nat)>)
    ensures r.Ok? ==> r.value.0 < |vals| && r.value.1 < |vals|
    ensures !KnownSelection(cfg.selection) ==> r == Err(KeyError)
  {
    if cfg.selection == "cutoff" then CutoffPair(vals, cfg.fitness, d)
    else if cfg.selection == "roulette" then RoulettePair(vals, cfg.fitness, d)
    else Err(KeyError)
  }

  /** What `crossover` yields: the two parents as they were, or two new lists. */
  datatype Crossing = Unchanged | Crossed(chr3: Chromosome, chr4: Chromosome)

  /**
   * `crossover`: when the gate draw is at most `crossover_chance` the
   * selected method recombines the parents, otherwise `chr1` and `chr2` are
   * yielded as they are. Parents of one length `L` made of bits give two
   * bit children of length `L`.
   */
  function Crossover(cfg: Config, chr1: Chromosome, chr2: Chromosome, d: PairDraw): (r: Result<Crossing>)
    ensures d.gate > cfg.crossoverChance ==> r == Ok(Unchanged)
    ensures d.gate <= cfg.crossoverChance ==>
      (r.Err? <==> !KnownCrossover(cfg.crossover) || (cfg.crossover != "fixed_common" && |chr1| == 0)) &&
      (r.Ok? ==> r.value.Crossed?)
    ensures r.Err? ==> r.error == (if KnownCrossover(cfg.crossover) then ValueError else KeyError)
    ensures r.Ok? && r.value.Crossed? && |chr1| == |chr2| && IsBits(chr1) && IsBits(chr2) ==>
      |r.value.chr3| == |chr1| && |r.value.chr4| == |chr1| && IsBits(r.value.chr3) && IsBits(r.value.chr4)
  {
    if d.gate <= cfg.crossoverChance then
      if cfg.crossover == "1_point" then
        var children := RandomSinglePoint(chr1, chr2, d.pointA);
        if children.Err? then Err(children.error)
        else
          if |chr1| == |chr2| && IsBits(chr1) && IsBits(chr2) then
            SinglePointKeepsShape(chr1, chr2, d.pointA % |chr1|);
            Ok(Crossed(children.value.0, children.value.1))
          else Ok(Crossed(children.value.0, children.value.1))
      else if cfg.crossover == "2_point" then
        var children := RandomTwoPoint(chr1, chr2, d.pointA, d.pointB);
        if children.Err? then Err(children.error)
        else
          var a, b := d.pointA % |chr1|, d.pointB % |chr1|;
          if |chr1| == |chr2| && IsBits(chr1) && IsBits(chr2) then
            TwoPointKeepsShape(chr1, chr2, Min(a, b), Max(a, b));
            Ok(Crossed(children.value.0, children.value.1))
          else Ok(Crossed(children.value.0, children.value.1))
      else if cfg.crossover == "fixed_common" then
        var children := FixedCommon(chr1, chr2, d.noise);
        Ok(Crossed(children.0, children.1))
      else Err(KeyError)
    else Ok(Unchanged)
  }

  /** A place of the new generation: a parent object passed through, or a new list. */
  datatype Child = Parent(slot: nat) | Offspring(bits: Chromosome)

  /** Every parent a sequence of children names is a slot of a population of `n`. */
  ghost predicate ChildrenInRange(n: nat, children: seq<Child>) {
    forall j :: 0 <= j < |children| ==> ChildInRange(n, children[j])
  }

  ghost predicate ChildInRange(n: nat, c: Child) {
    c.Parent? ==> c.slot < n
  }

  /** One round of the breeding loop: select two parents and cross them. */
  function BreedPair(cfg: Config, vals: seq<Chromosome>, d: PairDraw): (r: Result<(Child, Child)>)
    ensures r.Ok? ==> ChildInRange(|vals|, r.value.0) && ChildInRange(|vals|, r.value.1)
    ensures r.Ok? && d.gate <= cfg.crossoverChance ==> r.value.0.Offspring? && r.value.1.Offspring?
  {
    var pair := SelectPair(cfg, vals, d);
    if pair.Err? then Err(pair.error)
    else
      var s1, s2 := pair.value.0, pair.value.1;
      var crossing := Crossover(cfg, vals[s1], vals[s2], d);
      if crossing.Err? then Err(crossing.error)
      else if crossing.value.Unchanged? then
        assert d.gate > cfg.crossoverChance;
        Ok((Parent(s1), Parent(s2)))
      else Ok((Offspring(crossing.value.chr3), Offspring(crossing.value.chr4)))
  }

  /** The outcome of the first `k` rounds of the breeding loop, round by round. */
  function Rounds(cfg: Config, vals: seq<Chromosome>, pd: nat -> PairDraw, k: nat): (rounds: seq<Result<(Child, Child)>>)
    ensures |rounds| == k && forall i :: 0 <= i < k ==> rounds[i] == BreedPair(cfg, vals, pd(i))
  {
    seq(k, i requires 0 <= i < k => BreedPair(cfg, vals, pd(i)))
  }

  /**
   * The children of a run of rounds, in order, two per round; the first
   * failing round ends the run with its error.
   */
  function Collect(rounds: seq<Result<(Child, Child)>>): (r: Result<seq<Child>>)
    ensures r.Ok? <==> forall i :: 0 <= i < |rounds| ==> rounds[i].Ok?
    ensures r.Ok? ==> |r.value| == 2 * |rounds|
    ensures r.Ok? ==> forall i :: 0 <= i < |rounds| ==>
      r.value[2 * i] == rounds[i].value.0 && r.value[2 * i + 1] == rounds[i].value.1
  {
    if rounds == [] then Ok([])
    else
      var earlier := Collect(rounds[..|rounds| - 1]);
      var last := rounds[|rounds| - 1];
      if earlier.Err? then earlier
      else if last.Err? then Err(last.error)
      else Ok(earlier.value + [last.value.0, last.value.1])
  }

  /** A failed run carries the error of its first failing round. */
  lemma {:induction false} CollectFirstError(rounds: seq<Result<(Child, Child)>>, i: nat)
    requires i < |rounds| && rounds[i].Err? && forall i' :: 0 <= i' < i ==> rounds[i'].Ok?
    ensures Collect(rounds) == Err(rounds[i].error)
  {
    var earlier := rounds[..|rounds| - 1];
    if i < |rounds| - 1 {
      CollectFirstError(earlier, i);
    } else {
      assert Collect(earlier).Ok?;
    }
  }

  /** The child at place `j` of a completed run is one of the children of round `j / 2`. */
  lemma ChildOfRound(rounds: seq<Result<(Child, Child)>>, j: nat)
    requires Collect(rounds).Ok? && j < |Collect(rounds).value|
    ensures j / 2 < |rounds| && rounds[j / 2].Ok?
    ensures Collect(rounds).value[j] == rounds[j / 2].value.0 || Collect(rounds).value[j] == rounds[j / 2].value.1
  {
    var i := j / 2;
    assert j == 2 * i || j == 2 * i + 1;
  }

  /** Round `i` of the breeding loop: the draws `pd(i)` select and cross one pair. */
  function RoundOf(cfg: Config, vals: seq<Chromosome>, pd: nat -> PairDraw): (round: nat -> Result<(Child, Child)>)
  {
    (i: nat) => BreedPair(cfg, vals, pd(i))
  }

  /** Every round names only slots of the old population. */
  lemma RoundsInRange(cfg: Config, vals: seq<Chromosome>, pd: nat -> PairDraw)
    ensures forall i :: RoundOf(cfg, vals, pd)(i).Ok? ==>
      ChildInRange(|vals|, RoundOf(cfg, vals, pd)(i).value.0) && ChildInRange(|vals|, RoundOf(cfg, vals, pd)(i).value.1)
  {
    forall i: nat
      ensures RoundOf(cfg, vals, pd)(i).Ok? ==>
        ChildInRange(|vals|, RoundOf(cfg, vals, pd)(i).value.0) && ChildInRange(|vals|, RoundOf(cfg, vals, pd)(i).value.1)
    {
      assert RoundOf(cfg, vals, pd)(i) == BreedPair(cfg, vals, pd(i));
    }
  }

  /**
   * The first `k` rounds of a breeding loop whose round `i` has outcome
   * `round(i)`, run one after the other: each round that succeeds appends
   * its two children, and the first one that fails ends the loop with its
   * error.
   */
  function RunRounds(round: nat -> Result<(Child, Child)>, k: nat): (r: Result<seq<Child>>)
    ensures r.Ok? ==> |r.value| == 2 * k
  {
    if k == 0 then Ok([])
    else
      var before := RunRounds(round, k - 1);
      var last := round(k - 1);
      if before.Err? then before
      else if last.Err? then Err(last.error)
      else Ok(before.value + [last.value.0, last.value.1])
  }

  /** Rounds that name only slots below `n` breed children that name only slots below `n`. */
  lemma {:induction false} RunRoundsInRange(round: nat -> Result<(Child, Child)>, k: nat, n: nat)
    requires forall i :: round(i).Ok? ==> ChildInRange(n, round(i).value.0) && ChildInRange(n, round(i).value.1)
    ensures RunRounds(round, k).Ok? ==> ChildrenInRange(n, RunRounds(round, k).value)
  {
    if k > 0 {
      RunRoundsInRange(round, k - 1, n);
    }
  }

  /** Once a round has failed, later rounds change nothing. */
  lemma {:induction false} RunRoundsStayFailed(round: nat -> Result<(Child, Child)>, k: nat, m: nat)
    requires k <= m && RunRounds(round, k).Err?
    ensures RunRounds(round, m) == RunRounds(round, k)
    decreases m
  {
    if k < m {
      RunRoundsStayFailed(round, k, m - 1);
    }
  }

  /** A run whose round `k` fails ends with that round's error. */
  lemma RunRoundsFailAt(round: nat -> Result<(Child, Child)>, k: nat, m: nat)
    requires k < m && RunRounds(round, k).Ok? && round(k).Err?
    ensures RunRounds(round, m) == Err(round(k).error)
  {
    RunRoundsStayFailed(round, k + 1, m);
  }

  /**
   * The whole breeding loop: rounds are added while the new generation is
   * shorter than the old one, so there are `ceil(n / 2)` of them and the
   * new generation has `n + n % 2` places.
   */
  function Breed(cfg: Config, vals: seq<Chromosome>, pd: nat -> PairDraw): (r: Result<seq<Child>>)
    ensures r.Ok? ==> |r.value| == |vals| + |vals| % 2 && ChildrenInRange(|vals|, r.value)
  {
    HalfUp(|vals|);
    RoundsInRange(cfg, vals, pd);
    RunRoundsInRange(RoundOf(cfg, vals, pd), (|vals| + 1) / 2, |vals|);
    RunRounds(RoundOf(cfg, vals, pd), (|vals| + 1) / 2)
  }

  /** Running the rounds one after the other is collecting the outcomes of all of them. */
  lemma {:induction false} RunRoundsCollect(round: nat -> Result<(Child, Child)>, rounds: seq<Result<(Child, Child)>>)
    requires forall i :: 0 <= i < |rounds| ==> rounds[i] == round(i)
    ensures RunRounds(round, |rounds|) == Collect(rounds)
  {
    if rounds != [] {
      RunRoundsCollect(round, rounds[..|rounds| - 1]);
    }
  }

  lemma BreedCollects(cfg: Config, vals: seq<Chromosome>, pd: nat -> PairDraw)
    ensures Breed(cfg, vals, pd) == Collect(Rounds(cfg, vals, pd, (|vals| + 1) / 2))
  {
    var round, rounds := RoundOf(cfg, vals, pd), Rounds(cfg, vals, pd, (|vals| + 1) / 2);
    forall i | 0 <= i < |rounds|
      ensures rounds[i] == round(i)
    {
      assert round(i) == BreedPair(cfg, vals, pd(i));
    }
    RunRoundsCollect(round, rounds);
  }

  lemma HalfUp(n: nat)
    ensures 2 * ((n + 1) / 2) == n + n % 2
  {
  }

  /**
   * The object behind each place of the new generation: a parent is the
   * object of its slot, an offspring at place `j` the fresh object `n + j`.
   */
  function Ids(n: nat, children: seq<Child>): (ids: seq<nat>)
    requires ChildrenInRange(n, children)
    ensures |ids| == |children|
    ensures forall j :: 0 <= j < |ids| ==> ids[j] < n + |children|
    ensures forall j :: 0 <= j < |ids| ==> (ids[j] < n <==> children[j].Parent?)
  {
    seq(|children|, j requires 0 <= j < |children| => if children[j].Parent? then children[j].slot else n + j)
  }

  /** Object contents before the mutation pass: the old population, then the offspring. */
  function InitialHeap(vals: seq<Chromosome>, children: seq<Child>): (heap: seq<Chromosome>)
    ensures |heap| == |vals| + |children|
    ensures heap[..|vals|] == vals
    ensures forall j :: 0 <= j < |children| && children[j].Offspring? ==> heap[|vals| + j] == children[j].bits
  {
    vals + seq(|children|, j requires 0 <= j < |children| => if children[j].Offspring? then children[j].bits else [])
  }

  ghost predicate IdsIn(heap: seq<Chromosome>, ids: seq<nat>) {
    forall j :: 0 <= j < |ids| ==> ids[j] < |heap|
  }

  /**
   * `[self._mutate(chromosome) for chromosome in new_generation]` from place
   * `i` on: each place mutates the object behind it, so an object at two
   * places is mutated twice. A failing `_mutate` ends the pass with the
   * objects as far as they were changed.
   */
  function MutationPass(heap: seq<Chromosome>, ids: seq<nat>, chance: real, md: nat -> MutationDraw, i: nat)
    : (r: (seq<Chromosome>, Status))
    requires i <= |ids| && IdsIn(heap, ids)
    ensures |r.0| == |heap|
    ensures r.1.Raised? ==> r.1.error == ValueError
    decreases |ids| - i
  {
    if i == |ids| then (heap, Done)
    else
      var m := Mutated(heap[ids[i]], md(i).r, md(i).flip, chance);
      if m.Err? then (heap, Raised(m.error))
      else MutationPass(heap[ids[i] := m.value], ids, chance, md, i + 1)
  }

  /** The contents of the places of the new generation. */
  function Gathered(heap: seq<Chromosome>, ids: seq<nat>): (r: seq<Chromosome>)
    requires IdsIn(heap, ids)
    ensures |r| == |ids| && forall j :: 0 <= j < |ids| ==> r[j] == heap[ids[j]]
  {
    seq(|ids|, j requires 0 <= j < |ids| => heap[ids[j]])
  }

  /**
   * The mutation pass over a bred generation, and the hand-over of its
   * lists to the `chromosomes` setter, which raises on an empty list.
   */
  function MutateChildren(vals: seq<Chromosome>, children: seq<Child>, chance: real, md: nat -> MutationDraw)
    : (r: Result<seq<Chromosome>>)
    requires ChildrenInRange(|vals|, children)
    ensures r.Ok? ==> |r.value| == |children| > 0
    ensures |children| == 0 ==> r == Err(IndexError)
  {
    var ids := Ids(|vals|, children);
    var pass := MutationPass(InitialHeap(vals, children), ids, chance, md, 0);
    if pass.1.Raised? then Err(pass.1.error)
    else if |ids| == 0 then Err(IndexError)
    else Ok(Gathered(pass.0, ids))
  }

  /**
   * `next_generation` on values: breed, mutate, and hand the new lists to
   * the `chromosomes` setter. A new generation always has `n + n % 2`
   * chromosomes, and an empty population cannot produce one.
   */
  function NextGenerationValues(cfg: Config, vals: seq<Chromosome>, pd: nat -> PairDraw, md: nat -> MutationDraw)
    : (r: Result<seq<Chromosome>>)
    ensures r.Ok? ==> |vals| >= 1 && |r.value| == |vals| + |vals| % 2
    ensures |vals| == 0 ==> r == Err(IndexError)
  {
    var children := Breed(cfg, vals, pd);
    if children.Err? then Err(children.error)
    else MutateChildren(vals, children.value, cfg.mutationChance, md)
  }

  /**
   * The contents of the old population's lists once `next_generation` has
   * run, or has raised during its mutation pass: a parent that the gate
   * passed through is the old list itself, so its mutations land on it.
   */
  function ParentsAfter(cfg: Config, vals: seq<Chromosome>, pd: nat -> PairDraw, md: nat -> MutationDraw)
    : (r: seq<Chromosome>)
    ensures |r| == |vals|
  {
    var children := Breed(cfg, vals, pd);
    if children.Err? then vals
    else
      var ids := Ids(|vals|, children.value);
      MutationPass(InitialHeap(vals, children.value), ids, cfg.mutationChance, md, 0).0[..|vals|]
  }

  /** A generation whose breeding loop completes is its children's mutation pass and hand-over. */
  lemma NextGenerationOfBred(cfg: Config, vals: seq<Chromosome>, pd: nat -> PairDraw, md: nat -> MutationDraw)
    requires Breed(cfg, vals, pd).Ok?
    ensures var children := Breed(cfg, vals, pd).value;
      NextGenerationValues(cfg, vals, pd, md) == MutateChildren(vals, children, cfg.mutationChance, md) &&
      ParentsAfter(cfg, vals, pd, md) ==
        MutationPass(InitialHeap(vals, children), Ids(|vals|, children), cfg.mutationChance, md, 0).0[..|vals|]
  {
  }

  /** A generation whose breeding loop fails raises its error and leaves the old lists alone. */
  lemma NextGenerationOfFailed(cfg: Config, vals: seq<Chromosome>, pd: nat -> PairDraw, md: nat -> MutationDraw)
    requires Breed(cfg, vals, pd).Err?
    ensures NextGenerationValues(cfg, vals, pd, md) == Err(Breed(cfg, vals, pd).error)
    ensures ParentsAfter(cfg, vals, pd, md) == vals
  {
  }

  /** A round that fails before the new generation is full makes the whole breeding loop fail with its error. */
  lemma BreedFailsAt(cfg: Config, vals: seq<Chromosome>, pd: nat -> PairDraw, k: nat)
    requires 2 * k < |vals| && RunRounds(RoundOf(cfg, vals, pd), k).Ok? && RoundOf(cfg, vals, pd)(k).Err?
    ensures Breed(cfg, vals, pd) == Err(RoundOf(cfg, vals, pd)(k).error)
  {
    RunRoundsFailAt(RoundOf(cfg, vals, pd), k, (|vals| + 1) / 2);
  }

  // ---------------------------------------------------------------------------
  // Properties of the generation step
  // ---------------------------------------------------------------------------

  /** Every chromosome is made of bits and has length `L`. */
  ghost predicate Uniform(vals: seq<Chromosome>, L: nat) {
    forall j :: 0 <= j < |vals| ==> |vals[j]| == L && IsBits(vals[j])
  }

  /** Every child of a round is a parent of the population or a bit list of length `L`. */
  ghost predicate ChildrenUniform(n: nat, children: seq<Child>, L: nat) {
    forall j :: 0 <= j < |children| ==> ChildUniform(n, children[j], L)
  }

  ghost predicate ChildUniform(n: nat, c: Child, L: nat) {
    match c
    case Parent(slot) => slot < n
    case Offspring(bits) => |bits| == L && IsBits(bits)
  }

  lemma BreedPairUniform(cfg: Config, vals: seq<Chromosome>, d: PairDraw, L: nat)
    requires Uniform(vals, L) && BreedPair(cfg, vals, d).Ok?
    ensures ChildUniform(|vals|, BreedPair(cfg, vals, d).value.0, L)
    ensures ChildUniform(|vals|, BreedPair(cfg, vals, d).value.1, L)
  {
  }

  lemma BreedUniform(cfg: Config, vals: seq<Chromosome>, pd: nat -> PairDraw, L: nat)
    requires Uniform(vals, L) && Breed(cfg, vals, pd).Ok?
    ensures ChildrenUniform(|vals|, Breed(cfg, vals, pd).value, L)
  {
    BreedCollects(cfg, vals, pd);
    var rounds := Rounds(cfg, vals, pd, (|vals| + 1) / 2);
    var children := Breed(cfg, vals, pd).value;
    forall j | 0 <= j < |children|
      ensures ChildUniform(|vals|, children[j], L)
    {
      ChildOfRound(rounds, j);
      BreedPairUniform(cfg, vals, pd(j / 2), L);
    }
  }

  /** The objects behind the places of the new generation have length `L` and are bits. */
  ghost predicate PlacesUniform(heap: seq<Chromosome>, ids: seq<nat>, L: nat)
    requires IdsIn(heap, ids)
  {
    forall j :: 0 <= j < |ids| ==> |heap[ids[j]]| == L && IsBits(heap[ids[j]])
  }

  /**
   * The mutation pass keeps every object of the new generation a bit list
   * of length `L`, and with `L >= 1` it never fails.
   */
  lemma {:induction false} MutationPassUniform(heap: seq<Chromosome>, ids: seq<nat>, chance: real, md: nat -> MutationDraw, i: nat, L: nat)
    requires i <= |ids| && IdsIn(heap, ids) && PlacesUniform(heap, ids, L)
    ensures var r := MutationPass(heap, ids, chance, md, i);
      IdsIn(r.0, ids) && PlacesUniform(r.0, ids, L) && (L >= 1 ==> r.1 == Done)
    decreases |ids| - i
  {
    if i < |ids| {
      var m := Mutated(heap[ids[i]], md(i).r, md(i).flip, chance);
      if m.Ok? {
        var next := heap[ids[i] := m.value];
        if md(i).r <= chance {
          MutationFlipsExactlyOneBit(heap[ids[i]], md(i).r, md(i).flip, chance);
        }
        assert PlacesUniform(next, ids, L);
        MutationPassUniform(next, ids, chance, md, i + 1, L);
      }
    }
  }

  /**
   * Mutating a bred generation whose children are parents or bit lists of
   * length `L` gives bit lists of length `L`, and with `L >= 1` it never fails.
   */
  lemma MutateChildrenUniform(vals: seq<Chromosome>, children: seq<Child>, chance: real, md: nat -> MutationDraw, L: nat)
    requires Uniform(vals, L) && ChildrenUniform(|vals|, children, L)
    ensures ChildrenInRange(|vals|, children)
    ensures MutateChildren(vals, children, chance, md).Ok? ==> Uniform(MutateChildren(vals, children, chance, md).value, L)
    ensures L >= 1 && |children| > 0 ==> MutateChildren(vals, children, chance, md).Ok?
  {
    HeapUniform(vals, children, L);
    var ids, heap := Ids(|vals|, children), InitialHeap(vals, children);
    MutationPassUniform(heap, ids, chance, md, 0, L);
    var pass := MutationPass(heap, ids, chance, md, 0);
    GatheredUniform(pass.0, ids, L);
  }

  /** Children that are parents or bit lists of length `L` start the mutation pass on such lists only. */
  lemma HeapUniform(vals: seq<Chromosome>, children: seq<Child>, L: nat)
    requires Uniform(vals, L) && ChildrenUniform(|vals|, children, L)
    ensures ChildrenInRange(|vals|, children)
    ensures PlacesUniform(InitialHeap(vals, children), Ids(|vals|, children), L)
  {
    assert ChildrenInRange(|vals|, children) by {
      forall j | 0 <= j < |children|
        ensures ChildInRange(|vals|, children[j])
      {
        assert ChildUniform(|vals|, children[j], L);
      }
    }
    var ids := Ids(|vals|, children);
    var heap := InitialHeap(vals, children);
    forall j | 0 <= j < |ids|
      ensures |heap[ids[j]]| == L && IsBits(heap[ids[j]])
    {
      assert ChildUniform(|vals|, children[j], L);
      if children[j].Parent? {
        assert heap[ids[j]] == heap[..|vals|][ids[j]];
      }
    }
  }

  lemma GatheredUniform(heap: seq<Chromosome>, ids: seq<nat>, L: nat)
    requires IdsIn(heap, ids) && PlacesUniform(heap, ids, L)
    ensures Uniform(Gathered(heap, ids), L)
  {
  }

  /**
   * A population of bit chromosomes of one length `L` breeds a new
   * generation of bit chromosomes of length `L`, whatever the draws.
   */
  lemma GenerationKeepsShape(cfg: Config, vals: seq<Chromosome>, pd: nat -> PairDraw, md: nat -> MutationDraw, L: nat)
    requires Uniform(vals, L)
    requires NextGenerationValues(cfg, vals, pd, md).Ok?
    ensures Uniform(NextGenerationValues(cfg, vals, pd, md).value, L)
  {
    BreedUniform(cfg, vals, pd, L);
    MutateChildrenUniform(vals, Breed(cfg, vals, pd).value, cfg.mutationChance, md, L);
  }

  /** The breeding rounds never fail under the conditions of `GenerationSucceeds`. */
  ghost predicate SelectionCannotFail(cfg: Config, vals: seq<Chromosome>, pd: nat -> PairDraw) {
    cfg.selection == "cutoff" ||
    (cfg.selection == "roulette" && SumScores(ChromosomesFitness(vals, cfg.fitness)) > 0.0 &&
     forall k :: pd(k).spin1 <= 1.0 && pd(k).spin2 <= 1.0)
  }

  lemma SelectPairSucceeds(cfg: Config, vals: seq<Chromosome>, d: PairDraw)
    requires |vals| >= 1
    requires cfg.selection == "cutoff" ||
      (cfg.selection == "roulette" && SumScores(ChromosomesFitness(vals, cfg.fitness)) > 0.0 &&
       d.spin1 <= 1.0 && d.spin2 <= 1.0)
    ensures SelectPair(cfg, vals, d).Ok?
  {
    if cfg.selection == "roulette" {
      RoulettePairSucceeds(cfg, vals, d);
    }
  }

  lemma RoulettePairSucceeds(cfg: Config, vals: seq<Chromosome>, d: PairDraw)
    requires cfg.selection == "roulette" && SumScores(ChromosomesFitness(vals, cfg.fitness)) > 0.0
    requires d.spin1 <= 1.0 && d.spin2 <= 1.0
    ensures SelectPair(cfg, vals, d).Ok?
  {
    RouletteYieldsTwo(vals, cfg.fitness, d.spin1, d.spin2);
  }

  lemma BreedPairSucceeds(cfg: Config, vals: seq<Chromosome>, d: PairDraw, L: nat)
    requires Uniform(vals, L) && L >= 1 && |vals| >= 1 && KnownCrossover(cfg.crossover)
    requires cfg.selection == "cutoff" ||
      (cfg.selection == "roulette" && SumScores(ChromosomesFitness(vals, cfg.fitness)) > 0.0 &&
       d.spin1 <= 1.0 && d.spin2 <= 1.0)
    ensures BreedPair(cfg, vals, d).Ok?
  {
    SelectPairSucceeds(cfg, vals, d);
    var pair := SelectPair(cfg, vals, d).value;
    assert |vals[pair.0]| == L;
    CrossoverSucceeds(cfg, vals[pair.0], vals[pair.1], d);
    PairThenCross(cfg, vals, d);
  }

  /** A round succeeds once its selection and its crossover do. */
  lemma PairThenCross(cfg: Config, vals: seq<Chromosome>, d: PairDraw)
    requires SelectPair(cfg, vals, d).Ok?
    requires var pair := SelectPair(cfg, vals, d).value; Crossover(cfg, vals[pair.0], vals[pair.1], d).Ok?
    ensures BreedPair(cfg, vals, d).Ok?
  {
  }

  lemma CrossoverSucceeds(cfg: Config, chr1: Chromosome, chr2: Chromosome, d: PairDraw)
    requires KnownCrossover(cfg.crossover) && |chr1| >= 1
    ensures Crossover(cfg, chr1, chr2, d).Ok?
  {
  }

  lemma BreedSucceeds(cfg: Config, vals: seq<Chromosome>, pd: nat -> PairDraw, L: nat)
    requires Uniform(vals, L) && L >= 1 && |vals| >= 1
    requires KnownCrossover(cfg.crossover) && SelectionCannotFail(cfg, vals, pd)
    ensures Breed(cfg, vals, pd).Ok?
  {
    BreedCollects(cfg, vals, pd);
    var rounds := Rounds(cfg, vals, pd, (|vals| + 1) / 2);
    forall i | 0 <= i < |rounds|
      ensures rounds[i].Ok?
    {
      BreedPairSucceeds(cfg, vals, pd(i), L);
    }
  }

  /**
   * A non-empty population of bit chromosomes of one length `L >= 1`, with
   * a known crossover method, always produces a new generation under
   * cutoff selection, and under roulette selection when some chromosome
   * has a positive fitness and the spins come from `random.random()`.
   */
  lemma GenerationSucceeds(cfg: Config, vals: seq<Chromosome>, pd: nat -> PairDraw, md: nat -> MutationDraw, L: nat)
    requires Uniform(vals, L) && L >= 1 && |vals| >= 1
    requires KnownCrossover(cfg.crossover) && SelectionCannotFail(cfg, vals, pd)
    ensures NextGenerationValues(cfg, vals, pd, md).Ok?
  {
    BreedSucceeds(cfg, vals, pd, L);
    BreedUniform(cfg, vals, pd, L);
    MutateChildrenUniform(vals, Breed(cfg, vals, pd).value, cfg.mutationChance, md, L);
  }

  /** The pass from place `i` on leaves alone every object no later place names. */
  lemma {:induction false} MutationPassUntouched(heap: seq<Chromosome>, ids: seq<nat>, chance: real, md: nat -> MutationDraw, i: nat, x: nat)
    requires i <= |ids| && IdsIn(heap, ids) && x < |heap|
    requires forall j :: i <= j < |ids| ==> ids[j] != x
    ensures MutationPass(heap, ids, chance, md, i).0[x] == heap[x]
    decreases |ids| - i
  {
    if i < |ids| {
      var m := Mutated(heap[ids[i]], md(i).r, md(i).flip, chance);
      if m.Ok? {
        MutationPassUntouched(heap[ids[i] := m.value], ids, chance, md, i + 1, x);
      }
    }
  }

  /**
   * When no object stands at two places, a completed pass mutates each
   * place exactly once, from its own contents with its own draws.
   */
  lemma {:induction false} DistinctPlacesMutateOnce(heap: seq<Chromosome>, ids: seq<nat>, chance: real, md: nat -> MutationDraw, i: nat)
    requires i <= |ids| && IdsIn(heap, ids)
    requires forall j, k :: 0 <= j < k < |ids| ==> ids[j] != ids[k]
    requires MutationPass(heap, ids, chance, md, i).1 == Done
    ensures forall j :: i <= j < |ids| ==>
      Mutated(heap[ids[j]], md(j).r, md(j).flip, chance) == Ok(MutationPass(heap, ids, chance, md, i).0[ids[j]])
    decreases |ids| - i
  {
    if i < |ids| {
      var m := Mutated(heap[ids[i]], md(i).r, md(i).flip, chance);
      var next := heap[ids[i] := m.value];
      DistinctPlacesMutateOnce(next, ids, chance, md, i + 1);
      MutationPassUntouched(next, ids, chance, md, i + 1, ids[i]);
      forall j | i < j < |ids|
        ensures next[ids[j]] == heap[ids[j]]
      {
        assert ids[j] != ids[i];
      }
    }
  }

  /**
   * When every round recombines (each gate draw is at most the crossover
   * chance), every place of the new generation is its own fresh list, and
   * each is the corresponding offspring mutated once.
   */
  lemma RecombinedGenerationMutatesEachChildOnce(cfg: Config, vals: seq<Chromosome>, pd: nat -> PairDraw, md: nat -> MutationDraw)
    requires forall k :: pd(k).gate <= cfg.crossoverChance
    requires NextGenerationValues(cfg, vals, pd, md).Ok?
    ensures var children := Breed(cfg, vals, pd).value;
      var next := NextGenerationValues(cfg, vals, pd, md).value;
      forall j :: 0 <= j < |next| ==>
        children[j].Offspring? &&
        Mutated(children[j].bits, md(j).r, md(j).flip, cfg.mutationChance) == Ok(next[j])
  {
    var children := Breed(cfg, vals, pd).value;
    AllOffspring(cfg, vals, pd);
    OffspringMutatedOnce(vals, children, cfg.mutationChance, md);
  }

  /** A mutation pass over offspring only mutates each place once. */
  lemma OffspringMutatedOnce(vals: seq<Chromosome>, children: seq<Child>, chance: real, md: nat -> MutationDraw)
    requires forall j :: 0 <= j < |children| ==> children[j].Offspring?
    ensures ChildrenInRange(|vals|, children)
    ensures MutateChildren(vals, children, chance, md).Ok? ==>
      forall j :: 0 <= j < |children| ==>
        Mutated(children[j].bits, md(j).r, md(j).flip, chance) == Ok(MutateChildren(vals, children, chance, md).value[j])
  {
    var n := |vals|;
    var ids := Ids(n, children);
    var heap := InitialHeap(vals, children);
    assert forall j :: 0 <= j < |ids| ==> ids[j] == n + j;
    if MutationPass(heap, ids, chance, md, 0).1 == Done {
      DistinctPlacesMutateOnce(heap, ids, chance, md, 0);
    }
  }

  lemma AllOffspring(cfg: Config, vals: seq<Chromosome>, pd: nat -> PairDraw)
    requires forall k :: pd(k).gate <= cfg.crossoverChance
    requires Breed(cfg, vals, pd).Ok?
    ensures forall j :: 0 <= j < |Breed(cfg, vals, pd).value| ==> Breed(cfg, vals, pd).value[j].Offspring?
  {
    BreedCollects(cfg, vals, pd);
    var rounds := Rounds(cfg, vals, pd, (|vals| + 1) / 2);
    var children := Breed(cfg, vals, pd).value;
    forall j | 0 <= j < |children|
      ensures children[j].Offspring?
    {
      ChildOfRound(rounds, j);
    }
  }

  /**
   * When every round recombines, no list of the old population stands in
   * the new generation, so the mutation pass leaves all of them as they were.
   */
  lemma RecombinedGenerationLeavesParents(cfg: Config, vals: seq<Chromosome>, pd: nat -> PairDraw, md: nat -> MutationDraw)
    requires forall k :: pd(k).gate <= cfg.crossoverChance
    ensures ParentsAfter(cfg, vals, pd, md) == vals
  {
    var children := Breed(cfg, vals, pd);
    if children.Ok? {
      AllOffspring(cfg, vals, pd);
      var n := |vals|;
      var ids := Ids(n, children.value);
      var heap := InitialHeap(vals, children.value);
      var after := MutationPass(heap, ids, cfg.mutationChance, md, 0).0;
      forall x | 0 <= x < n
        ensures after[x] == vals[x]
      {
        MutationPassUntouched(heap, ids, cfg.mutationChance, md, 0, x);
        assert heap[x] == heap[..n][x];
      }
    }
  }

  /**
   * Aliasing made visible: a one-chromosome population under cutoff
   * selection picks its only chromosome twice; when the gate passes both
   * through, the new generation holds that one object twice, so both
   * places see both mutations. Two flips of the same bit cancel out, and
   * the new generation is the old chromosome twice.
   */
  lemma SharedParentIsMutatedTwice(cfg: Config, c: Chromosome, pd: nat -> PairDraw, md: nat -> MutationDraw)
    requires |c| >= 1 && IsBits(c) && cfg.selection == "cutoff"
    requires pd(0).gate > cfg.crossoverChance
    requires md(0).r <= cfg.mutationChance && md(1).r <= cfg.mutationChance
    requires md(0).flip % |c| == md(1).flip % |c|
    ensures NextGenerationValues(cfg, [c], pd, md) == Ok([c, c])
  {
    OnlyParentPassesTwice(cfg, [c], pd);
    FlippedTwice(c, [Parent(0), Parent(0)], cfg.mutationChance, md);
  }

  /** A one-chromosome population under cutoff selection whose gate stays shut breeds its parent twice. */
  lemma OnlyParentPassesTwice(cfg: Config, vals: seq<Chromosome>, pd: nat -> PairDraw)
    requires |vals| == 1 && cfg.selection == "cutoff" && pd(0).gate > cfg.crossoverChance
    ensures Breed(cfg, vals, pd) == Ok([Parent(0), Parent(0)])
  {
    assert (|vals| + 1) / 2 == 1;
    BreedCollects(cfg, vals, pd);
    OnlyParentRound(cfg, vals, pd(0));
    CollectSingle(Rounds(cfg, vals, pd, 1));
  }

  lemma OnlyParentRound(cfg: Config, vals: seq<Chromosome>, d: PairDraw)
    requires |vals| == 1 && cfg.selection == "cutoff" && d.gate > cfg.crossoverChance
    ensures BreedPair(cfg, vals, d) == Ok((Parent(0), Parent(0)))
  {
    OnlyParentIsPicked(vals, cfg.fitness, d);
    assert SelectPair(cfg, vals, d) == Ok((0, 0));
    assert Crossover(cfg, vals[0], vals[0], d) == Ok(Unchanged);
  }

  lemma CollectSingle(rounds: seq<Result<(Child, Child)>>)
    requires |rounds| == 1 && rounds[0].Ok?
    ensures Collect(rounds) == Ok([rounds[0].value.0, rounds[0].value.1])
  {
    var (a, b) := rounds[0].value;
    assert rounds[..|rounds| - 1] == [];
    assert Collect(rounds[..|rounds| - 1]) == Ok([]);
    assert [] + [a, b] == [a, b];
  }

  lemma OnlyParentIsPicked(vals: seq<Chromosome>, f: FitnessFunction, d: PairDraw)
    requires |vals| == 1
    ensures CutoffPair(vals, f, d) == Ok((0, 0))
  {
    var r := CutoffPair(vals, f, d);
    assert r.Ok?;
    var (a, b) := r.value;
    assert a == 0 && b == 0;
    assert r == Ok((a, b));
  }

  lemma FlippedTwice(c: Chromosome, children: seq<Child>, chance: real, md: nat -> MutationDraw)
    requires children == [Parent(0), Parent(0)]
    requires |c| >= 1 && IsBits(c)
    requires md(0).r <= chance && md(1).r <= chance
    requires md(0).flip % |c| == md(1).flip % |c|
    ensures ChildrenInRange(1, children)
    ensures MutateChildren([c], children, chance, md) == Ok([c, c])
  {
    assert ChildInRange(1, children[0]) && ChildInRange(1, children[1]);
    var ids := Ids(1, children);
    assert ids == [0, 0];
    var heap := InitialHeap([c], children);
    assert heap[0] == c;
    var k := md(0).flip % |c|;
    var once := c[k := (c[k] + 1) % 2];
    assert Mutated(c, md(0).r, md(0).flip, chance) == Ok(once);
    assert once[k := (once[k] + 1) % 2] == c;
    assert Mutated(once, md(1).r, md(1).flip, chance) == Ok(c);
    var heap1 := heap[0 := once];
    var heap2 := heap1[0 := c];
    assert MutationPass(heap2, ids, chance, md, 2) == (heap2, Done);
    assert MutationPass(heap1, ids, chance, md, 1) == (heap2, Done);
    assert MutationPass(heap, ids, chance, md, 0) == (heap2, Done);
    assert Gathered(heap2, ids) == [c, c];
  }
}
