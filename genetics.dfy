/**
 * The genetic operators on flat gene vectors, as values: tournament
 * selection, uniform crossover, clamped mutation, and the generation a GA
 * step builds from them. Every random draw is an explicit argument.
 */
module Genetics {
  import opened MaxElement

  /** The flat weight-and-bias vector of one network. */
  type Genes = seq<real>

  /** Draws per tournament. */
  const TournamentSize: nat := 5
  /** A coin below this value takes the gene from the first parent. */
  const CoinThreshold: real := 0.5
  /** A roll below this value mutates the gene. */
  const MutationRate: real := 0.05
  /** The running best a tournament starts from: below every fitness the trainer produces. */
  const NoWinnerYet: real := -1.0

  /**
   * The number of genes a network of this topology holds: per layer after
   * the first, one weight per incoming connection plus one bias per neuron.
   */
  function GeneCount(topology: seq<nat>): (n: nat)
    ensures |topology| == 2 ==> n == topology[1] * topology[0] + topology[1]
  {
    if |topology| < 2 then 0
    else GeneCount(topology[..|topology| - 1])
         + topology[|topology| - 1] * topology[|topology| - 2] + topology[|topology| - 1]
  }

  /** Appending a layer of n neurons adds n weights per neuron of the previous last layer and n biases. */
  lemma GeneCountSnoc(topology: seq<nat>, n: nat)
    requires |topology| >= 1
    ensures GeneCount(topology + [n]) == GeneCount(topology) + n * topology[|topology| - 1] + n
  {
    assert (topology + [n])[..|topology|] == topology;
  }

  /**
   * A network with one hidden layer holds a weight per input for each hidden
   * neuron, a weight per hidden neuron for each output, and one bias per
   * hidden and output neuron.
   */
  lemma {:induction false} GeneCountThreeLayers(inputs: nat, hidden: nat, outputs: nat)
    ensures GeneCount([inputs, hidden, outputs]) == hidden * inputs + outputs * hidden + hidden + outputs
  {
    assert [inputs, hidden, outputs][..2] == [inputs, hidden];
  }

  predicate InUnitRange(g: Genes)
  {
    forall i :: 0 <= i < |g| ==> -1.0 <= g[i] <= 1.0
  }

  /** Every genome has exactly `n` genes, all in [-1, 1]. */
  predicate Conforming(pop: seq<Genes>, n: nat)
  {
    forall i :: 0 <= i < |pop| ==> |pop[i]| == n && InUnitRange(pop[i])
  }

  /** Cuts a value to [-1, 1]: first the upper bound, then the lower. */
  function Clamp(x: real): (r: real)
    ensures -1.0 <= r <= 1.0
    ensures -1.0 <= x <= 1.0 ==> r == x
    ensures x > 1.0 ==> r == 1.0
    ensures x < -1.0 ==> r == -1.0
  {
    var y := if x > 1.0 then 1.0 else x;
    if y < -1.0 then -1.0 else y
  }

  /** Gene by gene, the first parent's value when the coin is below one half, else the second's. */
  function Crossed(a: Genes, b: Genes, coins: seq<real>): (child: Genes)
    requires |b| >= |a| && |coins| >= |a|
    ensures |child| == |a|
    ensures forall i :: 0 <= i < |a| ==> child[i] == a[i] || child[i] == b[i]
    ensures forall i :: 0 <= i < |a| && coins[i] < CoinThreshold ==> child[i] == a[i]
    ensures forall i :: 0 <= i < |a| && coins[i] >= CoinThreshold ==> child[i] == b[i]
  {
    seq(|a|, i requires 0 <= i < |a| => if coins[i] < CoinThreshold then a[i] else b[i])
  }

  /** Genes whose roll is below the rate get their noise added and are clamped; the rest are kept. */
  function Mutated(g: Genes, rolls: seq<real>, noise: seq<real>): (r: Genes)
    requires |rolls| >= |g| && |noise| >= |g|
    ensures |r| == |g|
    ensures forall i :: 0 <= i < |g| && rolls[i] >= MutationRate ==> r[i] == g[i]
    ensures forall i :: 0 <= i < |g| && rolls[i] < MutationRate ==> -1.0 <= r[i] <= 1.0
  {
    seq(|g|, i requires 0 <= i < |g| => if rolls[i] < MutationRate then Clamp(g[i] + noise[i]) else g[i])
  }

  /** Every index drawn lies in [0, n). */
  predicate DrawsBelow(draws: seq<nat>, n: nat)
  {
    forall j :: 0 <= j < |draws| ==> draws[j] < n
  }

  /** Some drawn genome's fitness beats the starting best of -1. */
  predicate HasContender(fitness: seq<real>, draws: seq<nat>)
    requires DrawsBelow(draws, |fitness|)
  {
    exists j :: 0 <= j < |draws| && fitness[draws[j]] > NoWinnerYet
  }

  /** The fitness of each draw, in draw order. */
  function Drawn(fitness: seq<real>, draws: seq<nat>): (vals: seq<real>)
    requires DrawsBelow(draws, |fitness|)
    ensures |vals| == |draws|
    ensures forall j :: 0 <= j < |draws| ==> vals[j] == fitness[draws[j]]
  {
    seq(|draws|, j requires 0 <= j < |draws| => fitness[draws[j]])
  }

  /**
   * The tournament's winner: the first draw whose fitness is the largest
   * among the draws.
   */
  function TournamentWinner(fitness: seq<real>, draws: seq<nat>): (w: nat)
    requires DrawsBelow(draws, |fitness|) && HasContender(fitness, draws)
    ensures w < |fitness|
    ensures fitness[w] > NoWinnerYet
    ensures exists k :: 0 <= k < |draws| && draws[k] == w &&
              (forall j :: 0 <= j < |draws| ==> fitness[draws[j]] <= fitness[w]) &&
              (forall j :: 0 <= j < k ==> fitness[draws[j]] < fitness[w])
  {
    var vals := Drawn(fitness, draws);
    var k := FirstMaxIndex(vals);
    var j :| 0 <= j < |draws| && fitness[draws[j]] > NoWinnerYet;
    assert vals[j] <= vals[k];
    draws[k]
  }

  /** The random draws that make one child: two tournaments, crossover coins, mutation rolls and noise. */
  datatype Breeding = Breeding(tourA: seq<nat>, tourB: seq<nat>, coins: seq<real>, rolls: seq<real>, noise: seq<real>)

  /** Draws of the shape one child of a population of `size` genomes with `genes` genes each consumes. */
  predicate BreedingShape(b: Breeding, size: nat, genes: nat)
  {
    |b.tourA| == TournamentSize && |b.tourB| == TournamentSize &&
    DrawsBelow(b.tourA, size) && DrawsBelow(b.tourB, size) &&
    |b.coins| == genes && |b.rolls| == genes && |b.noise| == genes
  }

  /** Well-shaped draws whose two tournaments both have a winner under these scores. */
  predicate BreedingFits(b: Breeding, fitness: seq<real>, genes: nat)
  {
    BreedingShape(b, |fitness|, genes) &&
    HasContender(fitness, b.tourA) && HasContender(fitness, b.tourB)
  }

  /** One non-elite child: crossover of the two tournament winners, then mutation. */
  function Offspring(pop: seq<Genes>, fitness: seq<real>, genes: nat, b: Breeding): Genes
    requires |pop| == |fitness| && Conforming(pop, genes) && BreedingFits(b, fitness, genes)
  {
    var pa := pop[TournamentWinner(fitness, b.tourA)];
    var pb := pop[TournamentWinner(fitness, b.tourB)];
    Mutated(Crossed(pa, pb, b.coins), b.rolls, b.noise)
  }

  /** Draws for every non-elite slot of a population of `|fitness|` genomes. */
  predicate BreedingPlan(rng: seq<Breeding>, fitness: seq<real>, genes: nat)
  {
    |rng| + 1 == |fitness| && forall i :: 0 <= i < |rng| ==> BreedingFits(rng[i], fitness, genes)
  }

  /** The next generation: the first fittest genome copied to slot 0, one bred child in every other slot. */
  function NextGeneration(pop: seq<Genes>, fitness: seq<real>, genes: nat, rng: seq<Breeding>): seq<Genes>
    requires |pop| == |fitness| && |pop| >= 1 && Conforming(pop, genes) && BreedingPlan(rng, fitness, genes)
  {
    [pop[FirstMaxIndex(fitness)]] +
    seq(|rng|, i requires 0 <= i < |rng| => Offspring(pop, fitness, genes, rng[i]))
  }

  /**
   * When every score beats the starting best of -1, every tournament has a
   * winner, so draws of the right shape always make a usable plan.
   */
  lemma ScoredPlanFits(rng: seq<Breeding>, fitness: seq<real>, genes: nat)
    requires |rng| + 1 == |fitness|
    requires forall i :: 0 <= i < |rng| ==> BreedingShape(rng[i], |fitness|, genes)
    requires forall i :: 0 <= i < |fitness| ==> fitness[i] > NoWinnerYet
    ensures BreedingPlan(rng, fitness, genes)
  {
    forall i | 0 <= i < |rng| ensures BreedingFits(rng[i], fitness, genes) {
      assert fitness[rng[i].tourA[0]] > NoWinnerYet;
      assert fitness[rng[i].tourB[0]] > NoWinnerYet;
    }
  }

  /** Every slot after the first holds the child bred from the draws one position earlier in the plan. */
  lemma NextGenerationAt(pop: seq<Genes>, fitness: seq<real>, genes: nat, rng: seq<Breeding>, i: nat)
    requires |pop| == |fitness| && |pop| >= 1 && Conforming(pop, genes) && BreedingPlan(rng, fitness, genes)
    requires 1 <= i < |pop|
    ensures BreedingFits(rng[i - 1], fitness, genes)
    ensures |NextGeneration(pop, fitness, genes, rng)| == |pop|
    ensures NextGeneration(pop, fitness, genes, rng)[i] == Offspring(pop, fitness, genes, rng[i - 1])
  {
  }

  /** Crossover of two conforming parents is conforming. */
  lemma CrossedConforms(a: Genes, b: Genes, coins: seq<real>)
    requires |a| == |b| && |coins| >= |a| && InUnitRange(a) && InUnitRange(b)
    ensures InUnitRange(Crossed(a, b, coins))
  {
    var c := Crossed(a, b, coins);
    forall i | 0 <= i < |c| ensures -1.0 <= c[i] <= 1.0 {
      assert c[i] == a[i] || c[i] == b[i];
    }
  }

  /** Mutation keeps genes that were in [-1, 1] there. */
  lemma MutatedConforms(g: Genes, rolls: seq<real>, noise: seq<real>)
    requires |rolls| >= |g| && |noise| >= |g| && InUnitRange(g)
    ensures InUnitRange(Mutated(g, rolls, noise))
  {
    var r := Mutated(g, rolls, noise);
    forall i | 0 <= i < |r| ensures -1.0 <= r[i] <= 1.0 {
      if rolls[i] >= MutationRate {
        assert r[i] == g[i];
      }
    }
  }

  /** A bred child has the parents' gene count and stays in [-1, 1]. */
  lemma OffspringConforms(pop: seq<Genes>, fitness: seq<real>, genes: nat, b: Breeding)
    requires |pop| == |fitness| && Conforming(pop, genes) && BreedingFits(b, fitness, genes)
    ensures |Offspring(pop, fitness, genes, b)| == genes
    ensures InUnitRange(Offspring(pop, fitness, genes, b))
  {
    var pa := pop[TournamentWinner(fitness, b.tourA)];
    var pb := pop[TournamentWinner(fitness, b.tourB)];
    CrossedConforms(pa, pb, b.coins);
    MutatedConforms(Crossed(pa, pb, b.coins), b.rolls, b.noise);
  }

  /**
   * A GA step keeps the population size, puts the first fittest genome
   * unchanged in slot 0, and keeps every genome at the topology's gene count
   * with all genes in [-1, 1].
   */
  lemma NextGenerationConforms(pop: seq<Genes>, fitness: seq<real>, genes: nat, rng: seq<Breeding>)
    requires |pop| == |fitness| && |pop| >= 1 && Conforming(pop, genes) && BreedingPlan(rng, fitness, genes)
    ensures |NextGeneration(pop, fitness, genes, rng)| == |pop|
    ensures NextGeneration(pop, fitness, genes, rng)[0] == pop[FirstMaxIndex(fitness)]
    ensures Conforming(NextGeneration(pop, fitness, genes, rng), genes)
  {
    var next := NextGeneration(pop, fitness, genes, rng);
    forall i | 0 <= i < |next| ensures |next[i]| == genes && InUnitRange(next[i]) {
      if i > 0 {
        OffspringConforms(pop, fitness, genes, rng[i - 1]);
      }
    }
  }

  /**
   * Every gene of a bred child that was not picked for mutation is the gene
   * at the same position of one of the two tournament winners.
   */
  lemma OffspringGeneOrigin(pop: seq<Genes>, fitness: seq<real>, genes: nat, b: Breeding, i: nat)
    requires |pop| == |fitness| && Conforming(pop, genes) && BreedingFits(b, fitness, genes)
    requires i < genes && b.rolls[i] >= MutationRate
    ensures var child := Offspring(pop, fitness, genes, b);
            child[i] == pop[TournamentWinner(fitness, b.tourA)][i] ||
            child[i] == pop[TournamentWinner(fitness, b.tourB)][i]
  {
  }
}
