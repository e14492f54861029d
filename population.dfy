/**
 * The GA population: parallel vectors of genomes and their fitness scores,
 * a generation counter and the best fitness of the last generation bred.
 */
module Populations {
  import opened MaxElement
  import opened Genetics

  /** Extending a prefix by one entry appends that entry. */
  lemma PrefixSnoc<T>(s: seq<T>, i: nat)
    requires i < |s|
    ensures s[..i + 1] == s[..i] + [s[i]]
  {
  }

  /** Left-to-right total of a sequence of fitness scores. */
  function Sum(s: seq<real>): real
  {
    if s == [] then 0.0 else Sum(s[..|s| - 1]) + s[|s| - 1]
  }

  /** A sum of values none above `m` is at most `|s|` times `m`. */
  lemma {:induction false} SumAtMost(s: seq<real>, m: real)
    requires forall i :: 0 <= i < |s| ==> s[i] <= m
    ensures Sum(s) <= |s| as real * m
  {
    if s != [] {
      SumAtMost(s[..|s| - 1], m);
    }
  }

  /** A sum of values none below `m` is at least `|s|` times `m`. */
  lemma {:induction false} SumAtLeast(s: seq<real>, m: real)
    requires forall i :: 0 <= i < |s| ==> m <= s[i]
    ensures |s| as real * m <= Sum(s)
  {
    if s != [] {
      SumAtLeast(s[..|s| - 1], m);
    }
  }

  /** A total of at most `n * hi` averages to at most `hi`. */
  lemma MeanAtMost(total: real, n: real, hi: real)
    requires n > 0.0 && total <= n * hi
    ensures total / n <= hi
  {
  }

  /** A total of at least `n * lo` averages to at least `lo`. */
  lemma MeanAtLeast(total: real, n: real, lo: real)
    requires n > 0.0 && n * lo <= total
    ensures lo <= total / n
  {
  }

  /** How the first maximum of a prefix moves when the prefix grows by one element. */
  lemma FirstMaxIndexStep(s: seq<real>, i: nat)
    requires i < |s|
    ensures FirstMaxIndex(s[..i + 1]) ==
              if i == 0 then 0 else if s[..i][FirstMaxIndex(s[..i])] < s[i] then i else FirstMaxIndex(s[..i])
  {
    assert s[..i + 1][..i] == s[..i];
  }

  class Population {
    var population: seq<Genes>
    /** One fitness score per genome, at the same index. */
    var fitness: seq<real>
    var topology: seq<nat>
    var generation: int
    var bestFitness: real
    /** The fitness vector the most recent GA step consumed. */
    ghost var lastScores: seq<real>

    ghost predicate Valid()
      reads this
    {
      |population| == |fitness| && Conforming(population, GeneCount(topology)) &&
      generation >= 0 &&
      (generation == 0 ==> bestFitness == 0.0) &&
      (generation > 0 ==> |lastScores| > 0 && bestFitness == lastScores[FirstMaxIndex(lastScores)])
    }

    /** Builds `popSize` networks of the given topology; `init` holds their randomly initialised genes. */
    constructor (popSize: nat, topology: seq<nat>, init: seq<Genes>)
      requires |init| == popSize && Conforming(init, GeneCount(topology))
      ensures Valid()
      ensures this.topology == topology && generation == 0 && bestFitness == 0.0
      ensures population == init && |fitness| == popSize
      ensures forall i :: 0 <= i < popSize ==> fitness[i] == 0.0
    {
      this.topology := topology;
      generation := 0;
      bestFitness := 0.0;
      new;
      Reset(popSize, topology, init);
    }

    /** Starts over with `popSize` fresh networks of `newTopology`, all scores 0, generation 0. */
    method Reset(popSize: nat, newTopology: seq<nat>, init: seq<Genes>)
      requires |init| == popSize && Conforming(init, GeneCount(newTopology))
      modifies this
      ensures Valid()
      ensures topology == newTopology && generation == 0 && bestFitness == 0.0
      ensures population == init && |population| == popSize
      ensures |fitness| == popSize && forall i :: 0 <= i < popSize ==> fitness[i] == 0.0
    {
      topology := newTopology;
      generation := 0;
      bestFitness := 0.0;
      lastScores := [];
      population := [];
      fitness := [];
      fitness := seq(popSize, _ => 0.0);
      var i := 0;
      while i < popSize
        invariant 0 <= i <= popSize
        invariant population == init[..i]
        modifies this`population
      {
        population := population + [init[i]];
        i := i + 1;
      }
    }

    /** Mean of the fitness scores over the population size. */
    method GetAverageFitness() returns (avg: real)
      requires Valid() && |population| > 0
      ensures avg == Sum(fitness) / (|population| as real)
      ensures avg <= fitness[FirstMaxIndex(fitness)]
      ensures (forall i :: 0 <= i < |fitness| ==> fitness[i] >= 0.0) ==> avg >= 0.0
    {
      var total := 0.0;
      var i := 0;
      while i < |fitness|
        invariant 0 <= i <= |fitness|
        invariant total == Sum(fitness[..i])
      {
        assert fitness[..i + 1][..i] == fitness[..i];
        total := total + fitness[i];
        i := i + 1;
      }
      assert fitness[..i] == fitness;
      var n := |population| as real;
      avg := total / n;
      var top := fitness[FirstMaxIndex(fitness)];
      SumAtMost(fitness, top);
      MeanAtMost(total, n, top);
      if forall i :: 0 <= i < |fitness| ==> fitness[i] >= 0.0 {
        SumAtLeast(fitness, 0.0);
        MeanAtLeast(total, n, 0.0);
      }
    }

    /** The genes of one network, by index. */
    method GetBrain(index: nat) returns (brain: Genes)
      requires Valid() && index < |population|
      ensures brain == population[index]
      ensures |brain| == GeneCount(topology) && InUnitRange(brain)
    {
      brain := population[index];
    }

    /** Records the score of the network at `index`; nothing else changes. */
    method SetFitness(index: nat, score: real)
      requires Valid() && index < |fitness|
      modifies this`fitness
      ensures Valid()
      ensures fitness == old(fitness)[index := score]
      ensures |fitness| == |old(fitness)|
    {
      fitness := fitness[index := score];
    }

    /** The generation counter: 0 after a reset, one more after every GA step. */
    function Generation(): (g: int)
      reads this
      requires Valid()
      ensures g >= 0
      ensures g == 0 ==> BestFitness() == 0.0
    {
      generation
    }

    /** The largest score the most recent GA step saw, or 0 before any step. */
    function BestFitness(): (b: real)
      reads this
      requires Valid()
      ensures generation == 0 ==> b == 0.0
      ensures generation > 0 ==> b in lastScores && forall v :: v in lastScores ==> v <= b
    {
      if generation > 0 then FirstMaxIsMaximum(lastScores); bestFitness else bestFitness
    }

    /** The number of networks held; there is one score per network. */
    function Size(): (n: nat)
      reads this
      requires Valid()
      ensures n == |population| && n == |fitness|
    {
      |population|
    }

    /**
     * Tournament selection: of the drawn indices, the first one whose score
     * beats every earlier draw's (starting from -1) wins.
     */
    method SelectParent(draws: seq<nat>) returns (winner: nat)
      requires Valid() && |draws| == TournamentSize
      requires DrawsBelow(draws, |population|) && HasContender(fitness, draws)
      ensures winner == TournamentWinner(fitness, draws)
      ensures winner < |population| && winner in draws
      ensures forall j :: 0 <= j < |draws| ==> fitness[draws[j]] <= fitness[winner]
    {
      ghost var vals := Drawn(fitness, draws);
      var found := false;
      var best := NoWinnerYet;
      winner := 0;
      var i := 0;
      while i < TournamentSize
        invariant 0 <= i <= TournamentSize
        invariant found <==> exists j :: 0 <= j < i && vals[j] > NoWinnerYet
        invariant !found ==> best == NoWinnerYet
        invariant found ==> i > 0 && winner == draws[FirstMaxIndex(vals[..i])] && best == vals[FirstMaxIndex(vals[..i])]
      {
        FirstMaxIndexStep(vals, i);
        var index := draws[i];
        if fitness[index] > best {
          best := fitness[index];
          winner := index;
          found := true;
        }
        i := i + 1;
      }
      assert vals[..i] == vals;
    }

    /** Uniform crossover: each child gene from the first parent when its coin is below one half, else from the second. */
    method Crossover(parentA: Genes, parentB: Genes, coins: seq<real>) returns (child: Genes)
      requires |parentB| >= |parentA| && |coins| >= |parentA|
      ensures child == Crossed(parentA, parentB, coins)
      ensures |child| == |parentA|
      ensures forall i :: 0 <= i < |child| ==> child[i] == parentA[i] || child[i] == parentB[i]
    {
      child := [];
      var i := 0;
      while i < |parentA|
        invariant 0 <= i <= |parentA|
        invariant child == Crossed(parentA, parentB, coins)[..i]
      {
        if coins[i] < CoinThreshold {
          child := child + [parentA[i]];
        } else {
          child := child + [parentB[i]];
        }
        i := i + 1;
      }
    }

    /** Per gene: when the roll is below the rate, add the noise and clamp to [-1, 1]. */
    method Mutate(genes: Genes, rolls: seq<real>, noise: seq<real>) returns (mutated: Genes)
      requires |rolls| >= |genes| && |noise| >= |genes|
      ensures mutated == Mutated(genes, rolls, noise)
      ensures |mutated| == |genes|
      ensures forall i :: 0 <= i < |genes| && rolls[i] >= MutationRate ==> mutated[i] == genes[i]
      ensures forall i :: 0 <= i < |genes| && rolls[i] < MutationRate ==> -1.0 <= mutated[i] <= 1.0
    {
      mutated := genes;
      var i := 0;
      while i < |mutated|
        invariant 0 <= i <= |mutated| == |genes|
        invariant mutated[..i] == Mutated(genes, rolls, noise)[..i]
        invariant mutated[i..] == genes[i..]
      {
        if rolls[i] < MutationRate {
          var gene := mutated[i] + noise[i];
          if gene > 1.0 {
            gene := 1.0;
          }
          if gene < -1.0 {
            gene := -1.0;
          }
          mutated := mutated[i := gene];
        }
        i := i + 1;
      }
    }

    /** One child of a GA step: two tournaments, crossover of their winners, then mutation. */
    method BreedChild(b: Breeding) returns (child: Genes)
      requires Valid() && BreedingFits(b, fitness, GeneCount(topology))
      ensures child == Offspring(population, fitness, GeneCount(topology), b)
      ensures |child| == GeneCount(topology) && InUnitRange(child)
    {
      OffspringConforms(population, fitness, GeneCount(topology), b);
      var parentA := SelectParent(b.tourA);
      var parentB := SelectParent(b.tourB);
      child := Crossover(population[parentA], population[parentB], b.coins);
      child := Mutate(child, b.rolls, b.noise);
    }

    /**
     * The breeding loop of a GA step: the first fittest genome in slot 0,
     * then one bred child in every other slot.
     */
    method Breed(rng: seq<Breeding>) returns (newGeneration: seq<Genes>)
      requires Valid() && |population| >= 1
      requires BreedingPlan(rng, fitness, GeneCount(topology))
      ensures newGeneration == NextGeneration(population, fitness, GeneCount(topology), rng)
      ensures |newGeneration| == |population|
      ensures newGeneration[0] == population[FirstMaxIndex(fitness)]
      ensures Conforming(newGeneration, GeneCount(topology))
    {
      ghost var next := NextGeneration(population, fitness, GeneCount(topology), rng);
      NextGenerationConforms(population, fitness, GeneCount(topology), rng);
      var bestBrainIndex := FirstMaxIndex(fitness);
      newGeneration := [population[bestBrainIndex]];
      var i := 1;
      while i < |population|
        invariant 1 <= i <= |population|
        invariant newGeneration == next[..i]
      {
        NextGenerationAt(population, fitness, GeneCount(topology), rng, i);
        var child := BreedChild(rng[i - 1]);
        PrefixSnoc(next, i);
        newGeneration := newGeneration + [child];
        i := i + 1;
      }
    }

    /**
     * One GA step: record the best score, breed the next generation, then
     * zero all scores and count the generation.
     */
    method Evolve(rng: seq<Breeding>)
      requires Valid() && |population| >= 1
      requires BreedingPlan(rng, fitness, GeneCount(topology))
      modifies this
      ensures topology == old(topology) && Valid()
      ensures population == NextGeneration(old(population), old(fitness), GeneCount(old(topology)), rng)
      ensures |population| == |old(population)|
      ensures population[0] == old(population)[FirstMaxIndex(old(fitness))]
      ensures bestFitness in old(fitness) && forall i :: 0 <= i < |old(fitness)| ==> old(fitness)[i] <= bestFitness
      ensures |fitness| == |old(fitness)| && forall i :: 0 <= i < |fitness| ==> fitness[i] == 0.0
      ensures generation == old(generation) + 1
    {
      var bestBrainIndex := FirstMaxIndex(fitness);
      FirstMaxIsMaximum(fitness);
      var newGeneration := Breed(rng);
      bestFitness := fitness[bestBrainIndex];
      lastScores := fitness;
      population := newGeneration;
      fitness := seq(|fitness|, _ => 0.0);
      generation := generation + 1;
    }
  }
}
