# A verified model of a bit-string genetic algorithm

This project models the engine of a small Python genetic-algorithm library,
together with two small cores that sit beside it:

- `Population` in Genetic.py. It holds a population of bit chromosomes, its
  settings (mutation and crossover chance, selection and crossover method,
  break condition) and a fitness function. It selects parents by cutoff or
  roulette selection and recombines them by single-point, two-point or
  fixed-common-feature crossover. It flips one bit per chromosome with the
  mutation chance and replaces the population generation by generation until
  a break condition holds. It can also enumerate every chromosome of a length
  and sample random ones.
- `Problem` in Problem.py. It holds a table of named parameters, each with a
  list of options, and decodes bitlists into integers and option indices.
- `ExampleProblems` in ExampleUsage.py. It holds the three integer fitness
  functions `summer`, `oddsy_evensy` and `shop_problem`.

Python's `random` module becomes explicit input. Each function or method takes
the draws it consumes: a `randrange(0, n)` pick is a `nat` taken modulo `n`,
so every in-range value is covered. A `random.random()` result is a `real`.
The draw streams of a generation are `PairDraw` (one per round of the breeding
loop) and `MutationDraw` (one per place of the new generation).

The modules follow the source:

| module | file | models |
|---|---|---|
| `Base` | `base.dfy` | Python errors, `Result`, slicing that clamps like Python's, `%` with Python's sign rule, `int.bit_length` |
| `Operators` | `operators.dfy` | the crossover operators and `_mutate` on values; the fixed-common loop as a method |
| `Selection` | `selection.dfy` | `get_fitness`, `get_chromosomes_fitness` (a stable sort, then a reversal), the fittest chromosome, cutoff and roulette selection, and the roulette loops as methods |
| `RouletteWheel` | `roulette.dfy` | the properties of the roulette wheel |
| `Generation` | `generation.dfy` | one `next_generation` step on values, with the aliasing the source has made explicit |
| `Genetic` | `population.dfy` | the `Population` class: settings as fields, chromosomes as arrays, setters, `next_generation` and `simulate` as methods |
| `Sampling` | `sampling.dfy` | `generate_all_possibilities` and `generate_random_sample` |
| `Problems` | `problem.dfy` | `bitlist_to_int` and the `Problem` class |
| `Examples` | `examples.dfy` | `summer`, `oddsy_evensy`, `shop_problem` |

## Aliasing in `next_generation`

A crossover gate that stays shut yields the parent lists themselves, and one
selection can return the same list twice. One list object can therefore stand
at several places of the new generation, and the mutation pass flips bits of
that object once per place. In `Population`, chromosomes are `array<int>`
objects. `NextGeneration` places parent arrays by reference and offspring
as new arrays, then mutates every place in place.

The value model in `Generation` sits beside it. `Ids` gives each place an
object id (the parent's slot, or a fresh id) and `MutationPass` updates a heap
of contents indexed by id. `PlacesAlias` proves that two places share an array
exactly when they share an id. The consequences are proved in three lemmas:

- `SharedParentIsMutatedTwice`: a shared object is mutated twice, and two
  flips of the same bit cancel out.
- `RecombinedGenerationLeavesParents`: once every gate recombines, the old
  lists are left alone.
- `RecombinedGenerationMutatesEachChildOnce`: once every gate recombines,
  every place is mutated exactly once.

The setter copies every list, so after `NextGeneration` the population again
holds distinct objects. The old lists themselves may have been changed: the
`ParentsAfter` ensures of `NextGeneration` states what the old lists hold.

## Model

Definitions that carry no `ensures` of their own have no row. Examples are `Problems.Str` and `Problems.Join` (`str(x)` and `"".join(...)`, Problem.py:13) and `Selection.SpinPicks` (the draw loop of Genetic.py:67-75). The rows of the members whose contracts they serve cite the same lines.

| member | source | states |
|---|---|---|
| Base.PyMod | Problem.py:13 | Python's `%`: for a positive divisor the remainder lies in `[0, b)` and agrees with Dafny's; for a negative divisor it lies in `(b, 0]` and `a == q * b + r` with `q` the floor quotient, so for example `5 % -3` is `-1` |
| Base.Take | Genetic.py:114 | `s[:k]` keeps the first `min(k, len(s))` entries |
| Base.Drop | Genetic.py:114 | `s[k:]` keeps what follows the first `min(k, len(s))` entries, in order |
| Base.Slice | Genetic.py:126 | `s[a:b]` within bounds is the segment from `a` to `b` |
| Base.BitLengthBounds | Problem.py:27 | `x.bit_length()` is the least width that holds `abs(x)`: `2^(k-1) <= abs(x) < 2^k` |
| Operators.SinglePoint | Genetic.py:112-115 | for parents of one length and a point within it, both children keep that length; before the point each child keeps its own parent's bit, and from the point on the bits are swapped |
| Operators.SinglePointSwapsPairs | Genetic.py:112-115 | at each position the two child bits are the two parent bits, in some order |
| Operators.SinglePointKeepsShape | Genetic.py:112-115 | two bit parents of length L give two bit children of length L |
| Operators.SinglePointSymmetric | Genetic.py:112-115 | exchanging the parents exchanges the children |
| Operators.RandomSinglePoint | Genetic.py:108-110 | the point is the draw modulo the length of the first parent; an empty first parent raises |
| Operators.TwoPoint | Genetic.py:124-137 | for ordered cuts within the length, the children are `chr1[:a]+chr2[a:b]+chr1[b:]` and its mirror |
| Operators.SegmentAt | Genetic.py:133-134 | position `i` of `x[:a] + y[a:b] + x[b:]` comes from `y` exactly when `a <= i < b` and from `x` otherwise |
| Operators.TwoPointExchangesSegment | Genetic.py:124-137 | both children keep the parents' length; exactly the positions in `[a, b)` are exchanged and all others are kept |
| Operators.TwoPointKeepsShape | Genetic.py:124-137 | two bit parents of length L give two bit children of length L |
| Operators.TwoPointSymmetric | Genetic.py:124-137 | exchanging the parents exchanges the children |
| Operators.RandomTwoPoint | Genetic.py:117-122 | the two draws, taken modulo the length, are ordered as `min <= max < len`; an empty first parent raises |
| Operators.NoiseBit | Genetic.py:147-148 | `random.choice([0, 1])` yields a bit |
| Operators.FixedCommon | Genetic.py:139-150 | both children have length `min(len(chr1), len(chr2))`; where the parents agree both children copy the bit, elsewhere each child gets a bit; bit parents give bit children |
| Operators.FixedCommonCrossover | Genetic.py:139-150 | the appending loop builds exactly the children of `FixedCommon` |
| Operators.Mutated | Genetic.py:152-157 | above the chance, the chromosome is unchanged; at or below it, the bit at `flip % len` becomes `(b + 1) % 2`, the length and all other positions stay, and an empty chromosome raises |
| Operators.MutationFlipsExactlyOneBit | Genetic.py:152-157 | a mutation that fires keeps bits and length and differs from its input exactly at the flip index |
| Operators.MutationIsInvolution | Genetic.py:156 | on bits, mutating twice with the same draws gives the chromosome back |
| Selection.GetFitness | Genetic.py:77-83 | the score is never negative; it is the fitness when that is positive and zero otherwise |
| Selection.Insert | Genetic.py:87 | one step of the stable sort adds one entry |
| Selection.InsertSorted | Genetic.py:87 | inserting into an ascending ranking keeps it ascending |
| Selection.InsertPermutes | Genetic.py:87 | insertion adds exactly the one entry to the multiset |
| Selection.SortByScore | Genetic.py:87 | `sorted(..., key=score)` keeps the number of entries |
| Selection.SortByScoreSorted | Genetic.py:87 | `sorted(..., key=score)` is ascending and a permutation of its input |
| Selection.Reverse | Genetic.py:87 | `[::-1]` reads the sequence backwards |
| Selection.ReverseIsPermutation | Genetic.py:87 | reversing keeps the multiset of entries |
| Selection.Scores | Genetic.py:87 | slot `i` carries the clipped fitness of chromosome `i` |
| Selection.DistinctScores | Genetic.py:87 | no scored entry occurs twice, since each carries its own slot |
| Selection.ChromosomesFitness | Genetic.py:85-87 | one scored entry per chromosome |
| Selection.ChromosomesFitnessSorted | Genetic.py:85-87 | `get_chromosomes_fitness` is in non-increasing order of clipped fitness and holds every scored chromosome exactly once |
| Selection.PermutationOfScores | Genetic.py:85-87 | any reordering of the scored population names every slot exactly once, each with its own clipped fitness |
| Selection.HeadIsMaximal | Genetic.py:269-271 | the head of a non-increasing covering ranking carries the largest score |
| Selection.Ranked | Genetic.py:43 | the ascending ranking both selections use has one entry per chromosome |
| Selection.RankedSlotsInRange | Genetic.py:43-44 | every entry of the ranking names a slot of the population |
| Selection.Slots | Genetic.py:44 | `[x[0] for x in ...]` lists the slots of the ranking, in its order |
| Selection.Fittest | Genetic.py:269-271 | an empty population raises `IndexError`; otherwise the result names a chromosome, carries its clipped fitness, and no chromosome scores more |
| Selection.RankedIsPermutation | Genetic.py:50-51 | the ranking both selections use is ascending and names every slot exactly once, each with its clipped fitness |
| Selection.CutoffSurvivors | Genetic.py:40-44 | cutoff selection keeps `n - n // 2` slots |
| Selection.CutoffDropped | Genetic.py:40-44 | cutoff selection drops `n // 2` slots |
| Selection.CutoffSurvivorsInRange | Genetic.py:40-44 | every kept slot is a slot of the population |
| Selection.CutoffPartitions | Genetic.py:40-44 | every slot is either kept or dropped, never both |
| Selection.SplitSlots | Genetic.py:44 | cutting a ranking that names no slot twice at `n // 2` puts each of its slots on exactly one side |
| Selection.CutoffKeepsTheFittest | Genetic.py:38-46 | no dropped chromosome has a higher clipped fitness than a kept one |
| Selection.CutoffSelection | Genetic.py:38-46 | one pick per draw, each among the survivors; it raises exactly when the population is empty and a pick is asked for |
| Selection.Probabilities | Genetic.py:56-59 | one probability per ranked chromosome |
| Selection.ProbabilityValues | Genetic.py:56-59 | the `p_values` loop computes exactly `Probabilities` |
| Selection.Cumulative | Genetic.py:61-65 | one running sum per probability |
| Selection.CumulativeValues | Genetic.py:61-65 | the `q_values` loop computes exactly the running sums |
| Selection.Slotted | Genetic.py:71-74 | one slot of the ranking per picked index |
| Selection.WheelPicks | Genetic.py:69-75 | an index is picked exactly when the draw lands in its sector: `r <= q[0]` for index 0, `q[i-1] < r <= q[i]` otherwise |
| Selection.Spin | Genetic.py:69-75 | the scan over the wheel for one draw yields the slots of exactly the sectors it lands in |
| Selection.RouletteSelection | Genetic.py:48-75 | a non-empty population whose clipped fitness totals zero raises `ZeroDivisionError`, and nothing else raises |
| Selection.Roulette | Genetic.py:48-75 | the loops of `_roulette_selection` compute exactly `RouletteSelection` |
| RouletteWheel.SumScoresPermutation | Genetic.py:52 | the total fitness does not depend on the order of the ranking |
| RouletteWheel.WheelTotals | Genetic.py:50-52 | the wheel's weights total the scores that `total_fitness` adds up |
| RouletteWheel.SumRealsOfScores | Genetic.py:52 | adding the scores from either end gives one total |
| RouletteWheel.SumScoresZero | Genetic.py:52 | a total of non-negative scores is non-negative, and zero exactly when every score is zero |
| RouletteWheel.ProbabilitiesSumToOne | Genetic.py:56-59 | with a positive total, the probabilities are non-negative and sum to 1 |
| RouletteWheel.ProbabilitiesAreShares | Genetic.py:56-59 | probability `i` is the ranked score over the total, never negative |
| RouletteWheel.SumDivided | Genetic.py:56-59 | shares of a common total sum to the sum over that total |
| RouletteWheel.CumulativeNonDecreasing | Genetic.py:61-65 | running sums of non-negative values never decrease |
| RouletteWheel.CumulativeEndsAtSum | Genetic.py:61-65 | the last running sum is the sum of all probabilities |
| RouletteWheel.WheelIsDistribution | Genetic.py:56-65 | with a positive total, `q_values` never decreases and its last value is exactly 1 |
| RouletteWheel.WheelPicksOne | Genetic.py:67-75 | on a non-decreasing wheel a draw above the last value lands nowhere, and any other draw lands in exactly one sector |
| RouletteWheel.ZeroWeightSectorIsEmpty | Genetic.py:56-75 | a positive draw never lands on a chromosome of zero clipped fitness |
| RouletteWheel.SpinPicksOnePerDraw | Genetic.py:67-75 | draws no larger than the last value yield one chromosome each |
| RouletteWheel.RouletteYieldsOnePerDraw | Genetic.py:67-75 | with a positive total and draws from `random.random()`, roulette selection succeeds and yields exactly one chromosome per draw |
| RouletteWheel.RouletteYieldsTwo | Genetic.py:177 | under those conditions `chr1, chr2 = selection(2)` always unpacks |
| RouletteWheel.TotalIsZero | Genetic.py:52 | the total clipped fitness is zero exactly when no chromosome has a positive fitness |
| RouletteWheel.RouletteDegenerate | Genetic.py:52-58 | roulette selection raises exactly when the population is non-empty and no fitness is positive |
| RouletteWheel.SpinPicksInRange | Genetic.py:67-75 | every slot the spins yield is a slot of the population |
| RouletteWheel.RoulettePicksInRange | Genetic.py:48-75 | roulette selection yields only slots of the population |
| Generation.CutoffPair | Genetic.py:38-46 | two picks among the cutoff survivors; an empty population raises `IndexError` |
| Generation.RoulettePair | Genetic.py:177 | two slots of the population, or `ZeroDivisionError` from the wheel, or `ValueError` when the wheel does not yield exactly two |
| Generation.SelectPair | Genetic.py:177 | the picks are slots of the population; an unknown method name raises `KeyError` |
| Generation.Crossover | Genetic.py:99-106 | a gate draw above the chance yields the parents unchanged; at or below it the selected method recombines, raising only for an unknown name or an empty first parent; bit parents of one length give bit children of that length |
| Generation.CrossoverSucceeds | Genetic.py:99-106 | a known method on a non-empty first parent never raises |
| Generation.BreedPair | Genetic.py:175-181 | the children of a round name slots of the population, and a gate at or below the chance yields two new lists |
| Generation.Collect | Genetic.py:175-181 | a run of rounds succeeds exactly when every round does, with the two children of round `i` at places `2i` and `2i + 1` |
| Generation.Rounds | Genetic.py:175-181 | round `i` of the breeding loop is `BreedPair` with the draws of round `i` |
| Generation.RoundsInRange | Genetic.py:175-181 | every successful round names only slots of the old population |
| Generation.CollectFirstError | Genetic.py:175-181 | a failed run raises the error of its first failing round |
| Generation.ChildOfRound | Genetic.py:180-181 | place `j` holds one of the children of round `j / 2` |
| Generation.RunRounds | Genetic.py:175-181 | a completed run of `k` rounds has `2k` places |
| Generation.RunRoundsInRange | Genetic.py:175-181 | rounds that name only old slots breed children that name only old slots |
| Generation.RunRoundsStayFailed | Genetic.py:175-181 | once a round has raised, later rounds change nothing |
| Generation.RunRoundsFailAt | Genetic.py:175-181 | a loop whose round `k` raises ends with that round's error |
| Generation.RunRoundsCollect | Genetic.py:175-181 | running the rounds one after the other is collecting their outcomes |
| Generation.Breed | Genetic.py:172-181 | the loop runs `ceil(n / 2)` rounds, so the new generation has `n + n % 2` places, all naming slots of the old population |
| Generation.BreedCollects | Genetic.py:172-181 | the breeding loop is the collection of its `ceil(n / 2)` rounds |
| Generation.BreedFailsAt | Genetic.py:175-181 | a round that raises before the new generation is full makes the whole loop raise its error |
| Generation.Ids | Genetic.py:180-183 | a place names an old list exactly when its child is a parent |
| Generation.InitialHeap | Genetic.py:180-183 | before the pass, the heap holds the old lists and then the offspring |
| Generation.MutationPass | Genetic.py:183 | the pass keeps the number of objects and raises only `ValueError` |
| Generation.Gathered | Genetic.py:183 | place `j` of the new generation holds the contents of the object behind it |
| Generation.MutateChildren | Genetic.py:183-185 | a completed pass hands over one list per place; an empty generation makes the setter raise `IndexError` |
| Generation.NextGenerationValues | Genetic.py:170-185 | a new generation has `n + n % 2` chromosomes, and an empty population raises `IndexError` |
| Generation.ParentsAfter | Genetic.py:170-185 | `next_generation` leaves the old population with one list per slot |
| Generation.NextGenerationOfBred | Genetic.py:170-185 | once the breeding loop completes, the result is its children's mutation pass, and the old lists are what that pass leaves |
| Generation.NextGenerationOfFailed | Genetic.py:170-185 | a breeding loop that raises makes `next_generation` raise and leaves the old lists alone |
| Generation.BreedPairUniform | Genetic.py:175-181 | from bit chromosomes of length L, every child is a parent or a bit list of length L |
| Generation.BreedUniform | Genetic.py:175-181 | the same holds for every child of the breeding loop |
| Generation.MutationPassUniform | Genetic.py:183 | the pass keeps every object a bit list of length L, and with `L >= 1` it never raises |
| Generation.HeapUniform | Genetic.py:180-183 | such children start the pass on bit lists of length L only |
| Generation.GatheredUniform | Genetic.py:183 | the gathered places are bit lists of length L |
| Generation.MutateChildrenUniform | Genetic.py:183-185 | mutating such children gives bit lists of length L, and with `L >= 1` and some children it succeeds |
| Generation.GenerationKeepsShape | Genetic.py:170-185 | a population of bit chromosomes of length L breeds bit chromosomes of length L, whatever the draws |
| Generation.SelectPairSucceeds | Genetic.py:177 | cutoff selection never raises on a non-empty population; roulette selection never raises with a positive total and draws from `random.random()` |
| Generation.RoulettePairSucceeds | Genetic.py:177 | roulette selection yields a pair under those conditions |
| Generation.PairThenCross | Genetic.py:175-181 | a round succeeds once its selection and its crossover do |
| Generation.BreedPairSucceeds | Genetic.py:175-181 | under those conditions, with a known crossover and bit chromosomes of length `L >= 1`, a round never raises |
| Generation.BreedSucceeds | Genetic.py:175-181 | under those conditions the breeding loop never raises |
| Generation.GenerationSucceeds | Genetic.py:170-185 | under those conditions `next_generation` always produces a new generation |
| Generation.MutationPassUntouched | Genetic.py:183 | an object that no later place names keeps its contents |
| Generation.DistinctPlacesMutateOnce | Genetic.py:183 | when no object stands at two places, each place is mutated exactly once, from its own contents with its own draws |
| Generation.AllOffspring | Genetic.py:99-106 | when every gate recombines, every place holds an offspring |
| Generation.OffspringMutatedOnce | Genetic.py:183 | offspring places are each mutated once |
| Generation.RecombinedGenerationMutatesEachChildOnce | Genetic.py:170-185 | when every gate recombines, each new chromosome is its offspring mutated once |
| Generation.RecombinedGenerationLeavesParents | Genetic.py:170-185 | when every gate recombines, the old lists are left as they were |
| Generation.OnlyParentIsPicked | Genetic.py:38-46 | a one-chromosome population under cutoff selection picks that chromosome twice |
| Generation.OnlyParentRound | Genetic.py:99-106 | with the gate shut, that round passes the one parent through twice |
| Generation.CollectSingle | Genetic.py:180-181 | a single successful round gives its two children |
| Generation.OnlyParentPassesTwice | Genetic.py:172-181 | the breeding loop of such a population holds its one list object twice |
| Generation.FlippedTwice | Genetic.py:183 | that shared object is mutated at both places, and two flips of one bit cancel out |
| Generation.SharedParentIsMutatedTwice | Genetic.py:170-185 | the new generation is then the old chromosome twice, as the aliasing dictates |
| Genetic.Contents | Genetic.py:261 | the contents of a sequence of lists, one per list |
| Genetic.ContentsAre | Genetic.py:261 | lists holding the given values one by one have exactly those contents |
| Genetic.NewList | Genetic.py:257 | a new list with the given contents |
| Genetic.NewLists | Genetic.py:257 | one new list per row, in order, no two the same object |
| Genetic.IntOf | Genetic.py:257 | `int(x)` of an int is the int; of a character it is its digit value, and a non-digit raises `ValueError` |
| Genetic.ConvertRow | Genetic.py:257 | a row converts exactly when every element does, element by element |
| Genetic.Convert | Genetic.py:257 | the list of rows converts exactly when every row does, row by row |
| Genetic.ConvertBitString | Genetic.py:257 | a `"01"` string converts to the bits it spells |
| Genetic.ConvertInts | Genetic.py:257 | converting lists of ints changes nothing |
| Genetic.Fitnesses | Genetic.py:254 | one clipped fitness per chromosome |
| Genetic.Average | Genetic.py:253-254 | an empty population raises `ZeroDivisionError` |
| Genetic.SumRealsBounded | Genetic.py:254 | a sum of `n` scores in `[0, hi]` lies in `[0, n * hi]` |
| Genetic.MeanAtMost | Genetic.py:254 | the mean of scores in `[0, hi]` lies in `[0, hi]` |
| Genetic.MeanBounded | Genetic.py:254 | a sum within `[0, n * hi]` divided by `n` lies within `[0, hi]` |
| Genetic.AverageAtMostFittest | Genetic.py:197-198 | the average clipped fitness is never negative and never above the fittest chromosome's score |
| Genetic.RecordedInOrder | Genetic.py:196-198 | appending a best score and an average below it keeps the two curves in order |
| Genetic.PlacedExtend | Genetic.py:180-181 | appending a child's object keeps every place holding its parent's list or its offspring's bits |
| Genetic.ApartExtend | Genetic.py:180-181 | appending a new list keeps offspring lists apart from all other places |
| Genetic.ApartMeansDistinct | Genetic.py:180-181 | an offspring's list stands at no other place and is no old list |
| Genetic.PlacesHoldHeap | Genetic.py:180-183 | placed children hold what the heap model starts from |
| Genetic.OldInHeap | Genetic.py:180-183 | the heap model keeps each old list at its slot |
| Genetic.PlacesAlias | Genetic.py:177-183 | two places hold the same array exactly when they share an id, and a place holds an old list exactly when its id is that slot |
| Genetic.BreakGeneration | Genetic.py:32 | the least counter that reaches the break value: it is at least `v`, and the counter before it is below `v` (zero when `v <= 0`) |
| Genetic.StopsAtBreakValue | Genetic.py:191-193 | a counter that reaches `v` while the one before it did not is exactly `BreakGeneration(v)`: counting up from zero, "generation" stops there and nowhere else |
| Genetic.WholeBreakValue | Genetic.py:32 | for a whole break value `v >= 0` the run stops after exactly `v` generations, so after 1000 under the default break value |
| Genetic.Step | Genetic.py:193-194 | definition: one pass of the simulate loop takes the current values to `NextGenerationValues` of them under that generation's draws |
| Genetic.Run | Genetic.py:192-194 | definition: the fold of a step over the first `k` draws, stopping at the first error; zero steps leave the values as they are |
| Genetic.Evolved | Genetic.py:191-194 | generation `k` of a run: zero generations leave the values unchanged, and each further one applies `next_generation` to the last unless an earlier one raised |
| Genetic.EvolvedStep | Genetic.py:193-194 | once generation `k` exists, generation `k + 1` is `NextGenerationValues` of it under the `k`-th draws |
| Genetic.RunKeeps | Genetic.py:191-194 | a property of populations that every step keeps holds of every generation a run reaches |
| Genetic.RunSucceeds | Genetic.py:191-194 | when no step from a population with the property raises and every step keeps it, no generation of the run raises |
| Genetic.EvolvedKeepsShape | Genetic.py:170-194 | every generation of a run from bit chromosomes of length `L` is made of bit chromosomes of length `L` |
| Genetic.CutoffStep | Genetic.py:170-185 | under cutoff selection and a known crossover, one generation from a non-empty population of bit chromosomes of length `L >= 1` raises nothing and gives again a non-empty population of that shape |
| Genetic.CutoffRunSucceeds | Genetic.py:191-194 | under cutoff selection and a known crossover, no generation of a run from such a population raises, and each keeps the shape |
| Genetic.FitnessBelowExtend | Genetic.py:34 | if no generation before `k` reached the break value under "fitness" and generation `k` does not either, then none before `k + 1` did |
| Genetic.Population.constructor | Genetic.py:10-36 | the default settings: chance 0.2 and 1, cutoff, single-point, break condition "generation" at 1000 with the generation counter at 0, a zero fitness, and no chromosomes |
| Genetic.Population.Values | Genetic.py:261 | one value per list of the population |
| Genetic.Population.SetMutationChance | Genetic.py:226-230 | a value outside `[0, 1]` raises `ValueError` and is not stored; otherwise it is stored; nothing else changes |
| Genetic.Population.SetCrossoverChance | Genetic.py:235-239 | a value outside `[0, 1]` raises `ValueError` and is not stored; otherwise it is stored; nothing else changes |
| Genetic.Population.SetChromosomeLength | Genetic.py:244-248 | the length is stored; nothing else changes |
| Genetic.Population.SetFitnessFunction | Genetic.py:263-264 | the function is stored; nothing else changes |
| Genetic.Population.SetCrossoverMethod | Genetic.py:279-283 | an unknown name raises `TypeError` and changes nothing; a known name is stored |
| Genetic.Population.SetSelectionMethod | Genetic.py:285-289 | an unknown name raises `TypeError` and changes nothing; a known name is stored |
| Genetic.Population.SetBreakCondition | Genetic.py:291-297 | an unknown condition raises `KeyError` and stores neither name nor value; a known one stores both |
| Genetic.Population.Install | Genetic.py:256-258 | new, distinct lists with the given contents are stored; the length of the first is stored, and an empty list raises `IndexError` after storing |
| Genetic.Population.SetChromosomes | Genetic.py:256-258 | every element goes through `int`; a malformed element raises `ValueError` before anything is stored; otherwise as `Install` |
| Genetic.Population.AverageFitness | Genetic.py:253-254 | the comprehension over the unset `None` list raises `TypeError` before any chromosome is set; otherwise the average of the population's values |
| Genetic.Population.FittestChromosome | Genetic.py:269-271 | `TypeError` before any chromosome is set, `IndexError` on an empty population, and otherwise a chromosome whose clipped fitness no other exceeds |
| Genetic.Population.BreakReached | Genetic.py:159-167 | "generation" compares the counter with the break value, "fitness" compares the fittest score, raising as that does; an unknown name raises `KeyError` |
| Genetic.Population.Mutate | Genetic.py:152-157 | the list itself is updated to `Mutated` of its old contents, and left alone when that raises |
| Genetic.Population.SelectParents | Genetic.py:177 | the two selected slots are those of `SelectPair` on the population's values |
| Genetic.Population.Cross | Genetic.py:99-106 | the children are those of `Crossover`, with fixed-common run as its loop |
| Genetic.Population.BreedRound | Genetic.py:177-179 | one round of the loop body yields `BreedPair` on the population's values |
| Genetic.Population.Place | Genetic.py:180-181 | a parent's place is the old list itself, an offspring's place a new list of its bits |
| Genetic.Population.BreedChildren | Genetic.py:175-181 | the `while` loop yields the children of `Breed`, or raises its error |
| Genetic.Population.PlaceAll | Genetic.py:180-181 | every place holds its parent's list or a new list of its offspring, and offspring lists are apart from all others |
| Genetic.Population.MutateAll | Genetic.py:183 | mutating every place in place leaves the places and the old lists exactly as the heap model's pass does |
| Genetic.Population.PlaceAndMutate | Genetic.py:180-183 | the appends and the in-place pass leave the old lists and the new places as the heap model's pass does |
| Genetic.Population.ReplaceWith | Genetic.py:180-185 | a completed pass stores copies of the mutated places and their length; a raising pass keeps the old population, whose lists hold what the pass left |
| Genetic.Population.NextGeneration | Genetic.py:170-185 | before any chromosome is set it raises `TypeError`; otherwise the population becomes `NextGenerationValues` of the old values, or keeps its lists when that raises; in both cases the old lists hold `ParentsAfter`; the settings do not change |
| Genetic.Population.Record | Genetic.py:196-198 | the best score and the average of a non-empty population are appended, and the curves stay in order |
| Genetic.Population.CountAndBreed | Genetic.py:193-194 | the counter goes up by one; before any chromosome is set `TypeError` is raised; otherwise the population becomes `NextGenerationValues` of the old values, or holds `ParentsAfter` of them when that raises; the settings do not change |
| Genetic.Population.Track | Genetic.py:196-198 | when plotting and nothing raised, the best score and average of the population are appended; otherwise the curves do not change; they stay in order |
| Genetic.Population.Advance | Genetic.py:193-198 | what `CountAndBreed` states, and when `plot` is set and nothing raised, the new generation's best and average scores are appended to the curves, which stay in order; otherwise the curves do not change |
| Genetic.Population.RaisedHalts | Genetic.py:192-194 | a generation `k` that raised ends the run as `Halted` describes: the run stops at `k + 1` with that error and the lists it left behind |
| Genetic.Population.RaisedHaltsUnset | Genetic.py:192-194 | before any chromosome is set, a false "generation" test at counter 0 is followed by the `TypeError` of `next_generation`, and the run stops at counter 1 |
| Genetic.Population.RaisedHaltsPopulated | Genetic.py:192-194 | on a populated run, generation `k + 1` raising `e` after generation `k` existed stops the run with `e`, leaving `ParentsAfter` of generation `k` |
| Genetic.Population.BredLoops | Genetic.py:192-198 | a generation `k` bred without raising, with the break test false before it, leaves the loop at counter `k + 1` holding generation `k + 1` of the run |
| Genetic.Population.BreedNext | Genetic.py:193-198 | after a false break test, one more generation: either the run stops with the error it raised, as `Halted` describes, or the counter goes up by one and the loop's invariant `Looping` holds again |
| Genetic.Population.Tick | Genetic.py:192-198 | one pass of the loop: when the break test holds, raises, or the draws are used up, the run ends as `Halted` describes; otherwise the counter goes up by one and `Looping` holds again |
| Genetic.Population.Simulate | Genetic.py:187-220 | the counter starts at zero and the final state is as `Halted` states: the run finishes only when the break test holds, under "generation" with the counter at `BreakGeneration` of the break value (and under "generation" the counter before the last stayed below the break value, also when a generation raised) and under "fitness" with the fittest score at or above it, and with no earlier generation reaching it; it runs out of draws only with the test still false; the population is generation `k` of the run (`Evolved`); it stops with an error only when the break test raised on generation `k`, or when generation `k` itself raised, leaving `ParentsAfter` of generation `k - 1`; before any chromosome is set it stops with `TypeError` after at most one generation, and breeds that one only under "generation"; one point per generation is recorded when plotting and none otherwise, the average never above the best; the settings do not change |
| Sampling.PrefixAll | Genetic.py:91 | every string gets the digit in front |
| Sampling.Product | Genetic.py:91 | `itertools.product("01", repeat=n)` has `2^n` entries |
| Sampling.AllPossibilities | Genetic.py:89-91 | a negative length raises `ValueError`; otherwise the joined product |
| Sampling.Prepend | Genetic.py:91 | a digit in front of a `"01"` string adds its weight at the new top place |
| Sampling.ProductSpellsIndex | Genetic.py:91 | entry `i` of the product has length `n`, is over `"01"`, and spells `i` in binary |
| Sampling.ValueBelow | Genetic.py:91 | a `"01"` string of length `n` spells a number below `2^n` |
| Sampling.ProductHalves | Genetic.py:91 | the first half of the product starts with `'0'` and the second with `'1'`, each followed by the shorter product |
| Sampling.PrefixedPlace | Genetic.py:91 | a digit in front of a string found in the product gives a string found in the next longer one |
| Sampling.ProductHoldsEvery | Genetic.py:91 | every `"01"` string of length `n` stands in the product, at the place its value names |
| Sampling.AllPossibilitiesComplete | Genetic.py:89-91 | `2^n` strings, each of length `n` over `"01"`, pairwise distinct, and every such string among them |
| Sampling.BitChoices | Genetic.py:95 | the pool holds `L` zeros and `L` ones |
| Sampling.Zeros | Genetic.py:95 | `[0] * L` holds `L` zeros and no one |
| Sampling.Ones | Genetic.py:95 | `[1] * L` holds `L` ones and no zero |
| Sampling.Sample | Genetic.py:97 | `random.sample` raises `ValueError` exactly when asked for more than the pool holds; otherwise `k` elements drawn without replacement |
| Sampling.Samples | Genetic.py:96-97 | the first `n` samples of the generator |
| Sampling.SamplesAre | Genetic.py:96-97 | sample `i` is drawn with the picks `draws(i)` |
| Sampling.RandomSample | Genetic.py:93-97 | no sample for a count of zero or less; `ValueError` for a negative length; otherwise exactly `count` samples, sample `i` drawn with `draws(i)` from `L` zeros and `L` ones |
| Sampling.SampleIsChromosome | Genetic.py:93-97 | every sample is a bit chromosome of length `L` with at most `L` zeros and at most `L` ones |
| Problems.Decimal | Problem.py:13 | `str(n)` of a natural number has at least one digit |
| Problems.ParseBase2 | Problem.py:13 | `int(s, 2)` of a non-empty `"01"` string is its binary value; an empty string raises `ValueError`, and so does any other refused text |
| Problems.ModBound | Problem.py:13 | `% 0` raises `ZeroDivisionError`; a positive bound gives a remainder in `[0, m)`, a negative one Python's remainder `PyMod(x, m)` in `(m, 0]`; against `math.inf` a non-negative value stays and a negative one raises `OverflowError` |
| Problems.BitlistToInt | Problem.py:8-13 | an empty bitlist raises `ValueError`; a result is `min_value` plus `ModBound` of the parsed value, which is Python's remainder for a finite bound of either sign, and lies in `[min_value, min_value + m)` for a positive bound `m` |
| Problems.JoinOfBits | Problem.py:13 | joining the spellings of bits gives the `"01"` string of their big-endian value |
| Problems.BitlistToIntOfBits | Problem.py:8-13 | on a non-empty list of bits the result is `min_value` plus the big-endian value modulo `m`, within `[min_value, min_value + m)`, and the value itself against `math.inf` |
| Problems.ZeroBoundRaises | Problem.py:13 | a zero bound raises `ZeroDivisionError` |
| Problems.ExampleValue | Problem.py:11 | `[0,1,0,1,1]` has the big-endian value 11 |
| Problems.DocumentedExample | Problem.py:11-13 | `bitlist_to_int([0,1,0,1,1])` is 11, as documented |
| Problems.BigDigitRaises | Problem.py:13 | a leading element from 2 to 9 spells a digit base 2 refuses, so decoding raises `ValueError` |
| Problems.Spell | Problem.py:44-46 | a spelling in `width` bits has `width` bits |
| Problems.SpellValue | Problem.py:44-46 | a number below `2^width`, spelled in `width` bits and read back, is the number |
| Problems.WidthFits | Problem.py:27 | `(len - 1).bit_length()` bits index every option, and for two or more options no fewer would |
| Problems.Zeros | Problem.py:27-29 | `n` zeros |
| Problems.Problem.constructor | Problem.py:5-6 | no parameters |
| Problems.Problem.AddParameter | Problem.py:15-19 | the named entry is set to the options, keeping its place when it exists and going last otherwise; every other entry stays; the total bitlist width changes by exactly the difference of the entry's widths |
| Problems.AppendWidth | Problem.py:29 | a new parameter adds its width to the total |
| Problems.ReplaceWidth | Problem.py:19-29 | replacing a parameter's options changes the total by the difference of the widths |
| Problems.UnchangedWidth | Problem.py:29 | entries that agree give one total |
| Problems.Problem.GetBitlist | Problem.py:21-29 | all zeros; for a non-empty name, `KeyError` exactly when it is missing, and otherwise, for two or more options, the least width that indexes every option, for a single option no bit and for an empty option list one bit (`(-1).bit_length()` is 1); for no name or the empty one, zeros of the total width |
| Problems.Problem.GetParameterValue | Problem.py:37-46 | an int index picks the option at the index modulo the number of options, a list index the option its decoding names, always in range; a missing name raises `KeyError`, no options raise `ZeroDivisionError`, and any other index gives `None` |
| Problems.ParameterRoundTrip | Problem.py:21-46 | for two or more options, every option index spelled in the width `get_bitlist` gives decodes back to that option |
| Problems.OneOptionBitlistRaises | Problem.py:27-45 | one option gets the empty bitlist, and decoding the empty bitlist raises `ValueError` |
| Examples.Summer | ExampleUsage.py:21-30 | the loop returns the sum of the elements |
| Examples.SummerCountsOnes | ExampleUsage.py:21-30 | on bits the sum is the number of ones, between zero and the length |
| Examples.OddsyEvensy | ExampleUsage.py:8-19 | the loop returns the sum of `c * bit` over even positions minus that over odd positions |
| Examples.Alternating | ExampleUsage.py:10-11 | the alternating chromosome `1010...` is bits of the given length |
| Examples.ZerosScoreNothing | ExampleUsage.py:8-19 | the all-zeros chromosome scores 0 |
| Examples.AlternatingScoresBest | ExampleUsage.py:8-19 | no bit chromosome scores more than the alternating one of its length |
| Examples.Opened | ExampleUsage.py:70 | a shop is open exactly when its element is non-zero |
| Examples.ShopProblem | ExampleUsage.py:53-100 | any length but 8 raises `ValueError` at the unpack; otherwise the conditionals add up the rules' amounts, between 220 and 2660 |
| Examples.ShopScoreBounds | ExampleUsage.py:69-100 | every combination of open shops scores between 220 and 2660 |
| Examples.ShopScoreExtremes | ExampleUsage.py:69-100 | both bounds are reached |
| Examples.ShopIgnoresE | ExampleUsage.py:70-100 | shop `e` never changes the score |
| Examples.ShopScoreAtLeastRuleG | ExampleUsage.py:91-95 | the G rule adds 220 when `d` is open and 80 otherwise, and no rule subtracts |

## Left out

- Console echo and plotting: `simulate` and `_has_reached_break_generation` print, and `simulate` draws with matplotlib (Genetic.py:161-165, 200-217). These are I/O, and `Population.Simulate` models `simulate(echo=False)`. `simulate` returns the two curves only when plotting; the model always returns them, empty when not plotting.
- Genetic.Population.Simulate: with `echo` set, the report after the loop (Genetic.py:200-204) reads `average_fitness` and `fittest_chromosome`. These raise when the loop ran no generation on an unset or empty population, for example under "generation" with a break value `<= 0`. They raise `TypeError` on an unset population, and `ZeroDivisionError` or `IndexError` on an empty one. The model returns `Finished` there.
- Python's `random`: its draws are inputs, as described above. `Population.Simulate` takes a finite list of draws, one entry per generation; a run that needs more generations than that ends `OutOfDraws`, which the source has no counterpart for.
- Floating point: scores, probabilities and running sums are exact reals. The source's roulette wheel can end slightly below 1.0, so a draw near 1.0 may land nowhere; the model cannot show this.
- Problems.BitlistToInt: against `math.inf` the model returns the exact value. Python's float modulo rounds values above 2^53 and raises `OverflowError` for values above about 2^1024.
- Problems.ModBound: against `math.inf` the model returns the exact value. Python's float modulo rounds values above 2^53 and raises `OverflowError` for values above about 2^1024.
- Problems.ParseBase2: models `int(s, 2)` only for the characters that `Join` can produce (decimal digits and `-`). Whitespace, underscores and `0b` prefixes never arise. A list element such as 10 spells `"10"`, which base 2 accepts as two digits; the model keeps that behaviour.
- Genetic.IntOf: the character side accepts only the ASCII digits `0`-`9`. Python's `int` also accepts other Unicode decimal digits and surrounding whitespace.
- Genetic.Population.SetChromosomeLength: the `isinstance` check that raises `TypeError` is left out, because the Dafny argument is always an `int`.
- The fitness function is a pure Dafny function from a chromosome to a real. A Python fitness function may have side effects or return other numeric types.
- Genetic.Population.Simulate: it does not restate that each recorded point is that generation's best and average score. `Population.Advance` states this for each generation, and Simulate keeps the curves in order.
- The breeding loop and the appends: the source appends each pair as soon as its round ends. The model first runs all rounds (`Population.BreedChildren`) and then places the children (`Population.PlaceAll`). Both orders give the same new generation, because a round never reads the new generation.
- Selection and sampling are lazy generators in the source. The model collects them into sequences; every consumer in the source reads them in full or unpacks a fixed number.
- Sampling.Sample: the pick at each step is taken modulo the remaining pool and removes that element. Python's `random.sample` picks positions with its own scheme. Over all draws, both give every ordered selection without replacement.
- `Problem.get_score` (Problem.py:31-35) has no behaviour, and the cannonball demo (Problem.py:49-77) is floating-point trigonometry and printing.
- `ExampleProblems.weird_oddsy_evensy` and `main` in ExampleUsage.py, GraphicalExamples.py, test.py and Tester.py are demos and user interface, and are not part of this model.
- Where the code differs from what a reader might expect, or from its docstrings, the model follows the code:
  - The crossover and mutation gates use `<=`, so a draw of exactly 0.0 still recombines or mutates when the chance is 0.
  - No check rejects chromosomes of unequal length.
  - The shop docstring lists an E rule and gives the A rule as 100. The code has no E rule, and its A rule adds 400 when G is open and D is not.
  - `generate_random_sample` draws `L` of the `2L` pool items without replacement, as `random.sample` does. That is a random permutation of the pool truncated to `L`, so a sample holds at most `L` zeros and at most `L` ones, not independent bits.
