/**
 * The trainer: scoring one network by a headless game, the network shape the
 * menu's hidden-node counter selects, the menu buttons, and one training
 * generation run sequentially.
 */
module Training {
  import opened Geometry
  import opened SnakeBody
  import opened Simulation
  import opened Genetics
  import opened Populations

  const InputNodes: nat := 11
  const DefaultHiddenNodes: nat := 8
  const OutputNodes: nat := 3
  const PopulationSize: nat := 500
  const MaxStepsPerGame: int := 2500
  /** A game ends once more than this many steps pass without the score rising above its best. */
  const StarvationLimit: int := 150
  /** What one eaten food is worth against one survived step. */
  const FoodReward: real := 1000.0

  /**
   * A network as the model sees it: the topology and genes give the function
   * from the game-state inputs to the outputs. Its layers are not modelled.
   */
  type Network = (seq<nat>, Genes) -> (seq<real> -> seq<real>)

  /** The random genomes a population reset draws for each topology. */
  type Initializer = seq<nat> -> seq<Genes>

  /** Every topology gets a full population of conforming genomes. */
  ghost predicate RandomInit(init: Initializer)
  {
    forall t :: |init(t)| == PopulationSize && Conforming(init(t), GeneCount(t))
  }

  /** Survived steps plus the food reward for each point scored. */
  function Fitness(steps: int, score: int): (f: real)
    ensures steps >= 0 && score >= 0 ==> f >= 0.0
    ensures score >= 0 && 0 <= steps < 1000 ==> f < (score + 1) as real * FoodReward
  {
    steps as real + score as real * FoodReward
  }

  /**
   * A headless game in progress: the arena, the position in the food
   * stream, the steps played, the best score so far and the steps since the
   * score last rose above it.
   */
  datatype Episode = Episode(arena: Arena, cursor: nat, steps: int, best: int, since: int)

  /** A new game: the start arena, the stream unread, every counter 0. */
  const StartEpisode: Episode := Episode(StartArena, 0, 0, 0, 0)

  /** The arena after network steering: only the heading changes, by the outputs for the observation. */
  function Steered(brain: seq<real> -> seq<real>, a: Arena): (s: Arena)
    requires |a.body| >= 1
    ensures s.body == a.body && s.food == a.food && s.score == a.score
  {
    a.(heading := Steer(a.heading, brain(Observation(a.body, a.food))))
  }

  /** The counters after one step that ended in arena `a` at stream position `cursor`. */
  function Counted(e: Episode, a: Arena, cursor: nat): (next: Episode)
    ensures next.arena == a && next.cursor == cursor && next.steps == e.steps + 1
    ensures a.score > e.best ==> next.best == a.score && next.since == 0
    ensures a.score <= e.best ==> next.best == e.best && next.since == e.since + 1
  {
    var rose := a.score > e.best;
    Episode(a, cursor, e.steps + 1, if rose then a.score else e.best, if rose then 0 else e.since + 1)
  }

  /** One step of a game from `e`, the step-cap and collision tests passed: steer, tick, count. */
  ghost function Step(brain: seq<real> -> seq<real>, draw: nat -> Point, e: Episode): (next: Episode)
    requires DrawsInGrid(draw) && Fair(draw) && |e.arena.body| >= 1
    ensures next.steps == e.steps + 1 && |next.arena.body| >= 1
  {
    var t := Tick(Steered(brain, e.arena), draw, e.cursor);
    Counted(e, t.0, t.1)
  }

  /**
   * The rest of a headless game: stop when the head is off the arena or on
   * the body or the step cap is reached; otherwise advance.
   */
  ghost function Play(brain: seq<real> -> seq<real>, draw: nat -> Point, maxSteps: int, e: Episode): Episode
    requires DrawsInGrid(draw) && Fair(draw) && |e.arena.body| >= 1
    decreases maxSteps - e.steps, 1
  {
    if !InGrid(e.arena.body[0]) || SelfCollides(e.arena.body) || e.steps >= maxSteps then e
    else Advance(brain, draw, maxSteps, e)
  }

  /**
   * One pass of the game loop: steer by the network's outputs for the
   * observation, tick, count the step, reset the starvation counter when
   * the score rises above its best; stop once that counter passes 150,
   * else play on.
   */
  ghost function Advance(brain: seq<real> -> seq<real>, draw: nat -> Point, maxSteps: int, e: Episode): Episode
    requires DrawsInGrid(draw) && Fair(draw) && |e.arena.body| >= 1 && e.steps < maxSteps
    decreases maxSteps - e.steps, 0
  {
    var next := Step(brain, draw, e);
    if next.since > StarvationLimit then next else Play(brain, draw, maxSteps, next)
  }

  /** Where the game stops: at a collision or the cap, with nothing left to play. */
  lemma PlayStops(brain: seq<real> -> seq<real>, draw: nat -> Point, maxSteps: int, e: Episode)
    requires DrawsInGrid(draw) && Fair(draw) && |e.arena.body| >= 1
    requires !InGrid(e.arena.body[0]) || SelfCollides(e.arena.body) || e.steps >= maxSteps
    ensures Play(brain, draw, maxSteps, e) == e
  {
  }

  /** Where the game goes on: one step, then either starvation ends it or the rest is played. */
  lemma PlayContinues(brain: seq<real> -> seq<real>, draw: nat -> Point, maxSteps: int, e: Episode)
    requires DrawsInGrid(draw) && Fair(draw) && |e.arena.body| >= 1
    requires InGrid(e.arena.body[0]) && !SelfCollides(e.arena.body) && e.steps < maxSteps
    ensures Step(brain, draw, e).since > StarvationLimit ==> Play(brain, draw, maxSteps, e) == Step(brain, draw, e)
    ensures Step(brain, draw, e).since <= StarvationLimit ==>
              Play(brain, draw, maxSteps, e) == Play(brain, draw, maxSteps, Step(brain, draw, e))
  {
  }

  /** A game state the fitness loop can be in: a sound snake inside the arena and consistent counters. */
  ghost predicate Sound(e: Episode, maxSteps: int)
  {
    |e.arena.body| >= 2 && InGrid(e.arena.body[0]) && !SelfCollides(e.arena.body) &&
    0 <= e.steps && (e.steps <= maxSteps || e.steps == 0) &&
    0 <= e.since <= e.steps && e.since <= StarvationLimit &&
    0 <= e.arena.score <= e.best
  }

  /** A step keeps the state sound up to the starvation counter, which may reach 151. */
  lemma StepSound(brain: seq<real> -> seq<real>, draw: nat -> Point, maxSteps: int, e: Episode)
    requires DrawsInGrid(draw) && Fair(draw) && Sound(e, maxSteps) && e.steps < maxSteps
    ensures var n := Step(brain, draw, e);
            e.best <= n.best && 0 <= n.since <= StarvationLimit + 1 &&
            (n.since <= StarvationLimit ==> Sound(n, maxSteps))
  {
    var t := Tick(Steered(brain, e.arena), draw, e.cursor);
    assert |t.0.body| >= 2 && !SelfCollides(t.0.body);
  }

  /**
   * How a game that had played `steps` steps with best score `best` ended:
   * never past the step cap (unless it was already past it); only at the
   * cap or when more than 150 steps passed without a new best score; the
   * counter since the last rise never exceeds the steps; the best score
   * only grew and bounds the final score.
   */
  ghost predicate Ended(r: Episode, steps: int, best: int, maxSteps: int)
  {
    steps <= r.steps <= (if maxSteps > steps then maxSteps else steps) &&
    (r.steps >= maxSteps || r.since == StarvationLimit + 1) &&
    0 <= r.since <= r.steps && r.since <= StarvationLimit + 1 &&
    best <= r.best && 0 <= r.arena.score <= r.best
  }

  /**
   * Where a game that starts sound ends: never past the step cap; only at
   * the cap or when more than 150 steps pass without a new best score
   * (the wall and body tests never stop it); the counter since the last
   * rise never exceeds the steps; the best score only grows and bounds the
   * final score.
   */
  lemma {:induction false} PlayOutcome(brain: seq<real> -> seq<real>, draw: nat -> Point, maxSteps: int, e: Episode)
    requires DrawsInGrid(draw) && Fair(draw) && Sound(e, maxSteps)
    ensures Ended(Play(brain, draw, maxSteps, e), e.steps, e.best, maxSteps)
    decreases maxSteps - e.steps
  {
    if e.steps < maxSteps {
      var next := Step(brain, draw, e);
      StepSound(brain, draw, maxSteps, e);
      if next.since <= StarvationLimit {
        PlayOutcome(brain, draw, maxSteps, next);
      }
    }
  }

  /** The fitness of one network: the survived steps and the final score of its game, by `Fitness`. */
  ghost function GameFitness(topology: seq<nat>, genes: Genes, net: Network, maxSteps: int, draw: nat -> Point): real
    requires DrawsInGrid(draw) && Fair(draw)
  {
    var r := Play(net(topology, genes), draw, maxSteps, StartEpisode);
    Fitness(r.steps, r.arena.score)
  }

  /** A game from the start arena never scores a negative fitness. */
  lemma GameFitnessNonNegative(topology: seq<nat>, genes: Genes, net: Network, maxSteps: int, draw: nat -> Point)
    requires DrawsInGrid(draw) && Fair(draw)
    ensures GameFitness(topology, genes, net, maxSteps, draw) >= 0.0
  {
    PlayOutcome(net(topology, genes), draw, maxSteps, StartEpisode);
  }

  /**
   * The two world calls of one pass of the fitness loop: steer by the
   * network, then tick. The new state is the steered arena ticked.
   */
  method SteerAndTick(world: World, brain: seq<real> -> seq<real>, draw: nat -> Point, cursor: nat) returns (next: nat)
    requires world.Valid() && DrawsInGrid(draw) && Fair(draw)
    modifies world, world.snake, world.food
    ensures world.Valid()
    ensures (world.State(), next) == Tick(Steered(brain, old(world.State())), draw, cursor)
  {
    world.HandleAiInput(brain);
    ghost var steered := world.State();
    next := world.Update(draw, cursor);
    TickOutcomeIsTick(steered, world.State(), draw, cursor, next);
  }

  /** The values of `f` at 0, 1, ..., n - 1, in that order. */
  ghost function Tabulated(n: nat, f: nat -> real): (s: seq<real>)
    ensures |s| == n
  {
    if n == 0 then [] else Tabulated(n - 1, f) + [f(n - 1)]
  }

  /** Entry i of a tabulation is the value at i. */
  lemma {:induction false} TabulatedAt(n: nat, f: nat -> real, i: nat)
    requires i < n
    ensures Tabulated(n, f)[i] == f(i)
  {
    if i < n - 1 {
      TabulatedAt(n - 1, f, i);
    }
  }

  /** The game fitness of genome k of `genomes` playing on food stream k. */
  ghost function ScoreOf(topology: seq<nat>, genomes: seq<Genes>, net: Network, streams: nat -> (nat -> Point)): nat -> real
    requires forall i :: DrawsInGrid(streams(i)) && Fair(streams(i))
  {
    (k: nat) => if k < |genomes| then GameFitness(topology, genomes[k], net, MaxStepsPerGame, streams(k)) else 0.0
  }

  /** The game fitness of each genome in order, genome i playing on food stream i. */
  ghost function GameScores(topology: seq<nat>, genomes: seq<Genes>, net: Network, streams: nat -> (nat -> Point)): (scores: seq<real>)
    requires forall i :: DrawsInGrid(streams(i)) && Fair(streams(i))
    ensures |scores| == |genomes|
  {
    Tabulated(|genomes|, ScoreOf(topology, genomes, net, streams))
  }

  /** The score at index i is the game fitness of genome i on stream i. */
  lemma GameScoresAt(topology: seq<nat>, genomes: seq<Genes>, net: Network, streams: nat -> (nat -> Point), i: nat)
    requires forall i :: DrawsInGrid(streams(i)) && Fair(streams(i))
    requires i < |genomes|
    ensures GameScores(topology, genomes, net, streams)[i] == GameFitness(topology, genomes[i], net, MaxStepsPerGame, streams(i))
  {
    TabulatedAt(|genomes|, ScoreOf(topology, genomes, net, streams), i);
  }

  /** No genome scores a negative fitness. */
  lemma GameScoresNonNegative(topology: seq<nat>, genomes: seq<Genes>, net: Network, streams: nat -> (nat -> Point))
    requires forall i :: DrawsInGrid(streams(i)) && Fair(streams(i))
    ensures forall i :: 0 <= i < |genomes| ==> GameScores(topology, genomes, net, streams)[i] >= 0.0
  {
    forall i | 0 <= i < |genomes|
      ensures GameScores(topology, genomes, net, streams)[i] >= 0.0
    {
      GameScoresAt(topology, genomes, net, streams, i);
      GameFitnessNonNegative(topology, genomes[i], net, MaxStepsPerGame, streams(i));
    }
  }

  /**
   * Plays one headless game with the given network from a new snake and
   * food at (10, 10) until the step cap or until more than 150 steps pass
   * without the score rising above its best; returns the fitness, which is
   * the game's fitness by `GameFitness`. The ghost result is the game's
   * state at exit: the arena, the counters and the best score.
   */
  method EvaluateBrainFitness(topology: seq<nat>, genes: Genes, net: Network, maxSteps: int, draw: nat -> Point)
    returns (fitness: real, ghost game: Episode)
    requires DrawsInGrid(draw) && Fair(draw)
    ensures game == Play(net(topology, genes), draw, maxSteps, StartEpisode)
    ensures fitness == GameFitness(topology, genes, net, maxSteps, draw)
    ensures fitness == Fitness(game.steps, game.arena.score) && fitness >= 0.0
    ensures Ended(game, 0, 0, maxSteps)
  {
    PlayOutcome(net(topology, genes), draw, maxSteps, StartEpisode);
    var snake := new Snake();
    var food := new Food(10, 10);
    var world := new World(snake, food);
    var brain := net(topology, genes);
    var cursor: nat := 0;
    var stepCount := 0;
    var scoreAtLastFood := 0;
    var stepsSinceLastFood := 0;
    while true
      invariant world.snake == snake && world.food == food
      invariant world.Valid()
      invariant stepCount <= maxSteps || stepCount == 0
      invariant Play(brain, draw, maxSteps, Episode(world.State(), cursor, stepCount, scoreAtLastFood, stepsSinceLastFood))
                == Play(brain, draw, maxSteps, StartEpisode)
      decreases maxSteps - stepCount
    {
      ghost var e := Episode(world.State(), cursor, stepCount, scoreAtLastFood, stepsSinceLastFood);
      var hitSelf := snake.HitItself();
      if world.HitWall() || hitSelf || stepCount >= maxSteps {
        PlayStops(brain, draw, maxSteps, e);
        break;
      }
      PlayContinues(brain, draw, maxSteps, e);
      cursor := SteerAndTick(world, brain, draw, cursor);
      ghost var ticked := world.State();
      stepCount := stepCount + 1;
      stepsSinceLastFood := stepsSinceLastFood + 1;
      if world.score > scoreAtLastFood {
        scoreAtLastFood := world.score;
        stepsSinceLastFood := 0;
      }
      assert Episode(ticked, cursor, stepCount, scoreAtLastFood, stepsSinceLastFood) == Counted(e, ticked, cursor);
      if stepsSinceLastFood > StarvationLimit {
        break;
      }
    }
    game := Episode(world.State(), cursor, stepCount, scoreAtLastFood, stepsSinceLastFood);
    fitness := stepCount as real + world.score as real * FoodReward;
  }

  /** The layer sizes for a hidden-node count: inputs, the hidden layer when there is one, outputs. */
  function Topology(hidden: nat): seq<nat>
  {
    if hidden > 0 then [InputNodes, hidden, OutputNodes] else [InputNodes, OutputNodes]
  }

  /**
   * The topology always has at least two layers, starts with the 11 inputs,
   * ends with the 3 outputs, has no empty layer, and has a hidden layer
   * exactly when the count is positive.
   */
  lemma TopologyShape(hidden: nat)
    ensures |Topology(hidden)| >= 2
    ensures Topology(hidden)[0] == InputNodes && Topology(hidden)[|Topology(hidden)| - 1] == OutputNodes
    ensures forall i :: 0 <= i < |Topology(hidden)| ==> Topology(hidden)[i] > 0
    ensures |Topology(hidden)| == 3 <==> hidden > 0
    ensures hidden > 0 ==> Topology(hidden)[1] == hidden
  {
  }

  /** Genes per network: 15 per hidden node plus 3 output biases, or 36 with no hidden layer. */
  lemma {:induction false} TopologyGeneCount(hidden: nat)
    ensures GeneCount(Topology(hidden)) == if hidden > 0 then 15 * hidden + 3 else 36
  {
    var t := Topology(hidden);
    if hidden > 0 {
      assert t[..2] == [InputNodes, hidden];
      assert GeneCount(t[..2]) == hidden * 11 + hidden;
    }
  }

  /** An on-screen button as x, y, width and height. */
  datatype Rect = Rect(x: int, y: int, w: int, h: int)

  /** Inside the left and top edges, outside the right and bottom ones. */
  predicate PointInRect(px: int, py: int, r: Rect)
  {
    r.x <= px < r.x + r.w && r.y <= py < r.y + r.h
  }

  const ResetButton: Rect := Rect(350, 200, 100, 50)
  const MinusButton: Rect := Rect(300, 300, 50, 50)
  const PlusButton: Rect := Rect(450, 300, 50, 50)

  /** No click lands on two menu buttons. */
  lemma ButtonsDisjoint(px: int, py: int)
    ensures !(PointInRect(px, py, ResetButton) && PointInRect(px, py, MinusButton))
    ensures !(PointInRect(px, py, ResetButton) && PointInRect(px, py, PlusButton))
    ensures !(PointInRect(px, py, MinusButton) && PointInRect(px, py, PlusButton))
  {
  }

  /** A click that restarts training: the reset button, minus with hidden nodes left, or plus. */
  predicate ClickResets(px: int, py: int, hidden: nat)
  {
    PointInRect(px, py, ResetButton) ||
    (PointInRect(px, py, MinusButton) && hidden > 0) ||
    PointInRect(px, py, PlusButton)
  }

  class Trainer {
    const population: Population
    var topology: seq<nat>
    var hiddenNodes: nat
    /** The average fitness of every generation trained since the last reset. */
    var fitnessHistory: seq<real>

    ghost predicate Valid()
      reads this, population
    {
      topology == Topology(hiddenNodes) && population.Valid() &&
      population.topology == topology && |population.population| == PopulationSize
    }

    /** Eight hidden nodes, a population of 500 networks of that shape, no history. */
    constructor (init: Initializer)
      requires RandomInit(init)
      ensures Valid()
      ensures hiddenNodes == DefaultHiddenNodes && topology == [InputNodes, DefaultHiddenNodes, OutputNodes]
      ensures fitnessHistory == []
      ensures population.population == init(topology) && population.generation == 0 && population.bestFitness == 0.0
      ensures |population.fitness| == PopulationSize && forall i :: 0 <= i < PopulationSize ==> population.fitness[i] == 0.0
      ensures fresh(population)
    {
      var t: seq<nat> := [InputNodes, DefaultHiddenNodes, OutputNodes];
      topology := t;
      hiddenNodes := DefaultHiddenNodes;
      fitnessHistory := [];
      population := new Population(PopulationSize, t, init(t));
    }

    /** Rebuilds the topology from the hidden-node count, resets the population to it, and clears the history. */
    method ResetTraining(init: Initializer)
      requires RandomInit(init)
      modifies this, population
      ensures Valid()
      ensures hiddenNodes == old(hiddenNodes) && topology == Topology(hiddenNodes)
      ensures fitnessHistory == []
      ensures population.population == init(topology) && population.generation == 0 && population.bestFitness == 0.0
      ensures forall i :: 0 <= i < |population.fitness| ==> population.fitness[i] == 0.0
    {
      topology := [];
      topology := topology + [InputNodes];
      if hiddenNodes > 0 {
        topology := topology + [hiddenNodes];
      }
      topology := topology + [OutputNodes];
      population.Reset(PopulationSize, topology, init(topology));
      fitnessHistory := [];
    }

    /**
     * A mouse click on the menu: the reset button restarts training, minus
     * removes a hidden node when there is one and restarts, plus adds one
     * and restarts.
     */
    method HandleMenuClick(px: int, py: int, init: Initializer)
      requires Valid() && RandomInit(init)
      modifies this, population
      ensures Valid()
      ensures PointInRect(px, py, MinusButton) && old(hiddenNodes) > 0 ==> hiddenNodes == old(hiddenNodes) - 1
      ensures PointInRect(px, py, PlusButton) ==> hiddenNodes == old(hiddenNodes) + 1
      ensures !PointInRect(px, py, MinusButton) && !PointInRect(px, py, PlusButton) ==> hiddenNodes == old(hiddenNodes)
      ensures PointInRect(px, py, MinusButton) && old(hiddenNodes) == 0 ==> hiddenNodes == 0
      ensures ClickResets(px, py, old(hiddenNodes)) ==>
                fitnessHistory == [] && population.generation == 0 && population.population == init(topology) &&
                population.bestFitness == 0.0 && |population.fitness| == PopulationSize &&
                forall i :: 0 <= i < PopulationSize ==> population.fitness[i] == 0.0
      ensures !ClickResets(px, py, old(hiddenNodes)) ==>
                fitnessHistory == old(fitnessHistory) && topology == old(topology) &&
                population.population == old(population.population) && population.fitness == old(population.fitness) &&
                population.generation == old(population.generation) && population.bestFitness == old(population.bestFitness)
    {
      if PointInRect(px, py, ResetButton) {
        ResetTraining(init);
      }
      if PointInRect(px, py, MinusButton) {
        if hiddenNodes > 0 {
          hiddenNodes := hiddenNodes - 1;
          ResetTraining(init);
        }
      }
      if PointInRect(px, py, PlusButton) {
        hiddenNodes := hiddenNodes + 1;
        ResetTraining(init);
      }
    }

    /**
     * Scores every network of the population by its own game, in index
     * order, each with its own food stream: the score at index i is the
     * game fitness of genome i. No score is negative.
     */
    method EvaluateAll(net: Network, streams: nat -> (nat -> Point)) returns (results: seq<real>)
      requires Valid()
      requires forall i :: DrawsInGrid(streams(i)) && Fair(streams(i))
      ensures results == GameScores(topology, population.population, net, streams)
      ensures |results| == PopulationSize && forall i :: 0 <= i < |results| ==> results[i] >= 0.0
    {
      ghost var scores := GameScores(topology, population.population, net, streams);
      results := [];
      var i := 0;
      while i < population.Size()
        invariant 0 <= i <= PopulationSize
        invariant results == scores[..i]
      {
        var genes := population.GetBrain(i);
        var fitness: real;
        ghost var game;
        fitness, game :=
          EvaluateBrainFitness(topology, genes, net, MaxStepsPerGame, streams(i));
        GameScoresAt(topology, population.population, net, streams, i);
        PrefixSnoc(scores, i);
        results := results + [fitness];
        i := i + 1;
      }
      assert scores[..i] == scores;
      GameScoresNonNegative(topology, population.population, net, streams);
    }

    /**
     * The bookkeeping after the games: write each score back at its
     * genome's index, in index order, and append their average to the
     * history. Nothing else changes.
     */
    method RecordScores(results: seq<real>)
      requires Valid() && |results| == PopulationSize
      modifies this`fitnessHistory, population`fitness
      ensures Valid()
      ensures population.fitness == results
      ensures fitnessHistory == old(fitnessHistory) + [Sum(results) / (PopulationSize as real)]
    {
      var i := 0;
      while i < PopulationSize
        invariant 0 <= i <= PopulationSize
        invariant population.Valid() && |population.fitness| == PopulationSize
        invariant forall j :: 0 <= j < i ==> population.fitness[j] == results[j]
        modifies population`fitness
      {
        population.SetFitness(i, results[i]);
        i := i + 1;
      }
      assert population.fitness == results;
      var avgFitness := population.GetAverageFitness();
      fitnessHistory := fitnessHistory + [avgFitness];
    }

    /**
     * One generation, run one game after another: score every network with
     * its own food stream, record the scores, append their average to the
     * history, and evolve. Every score is at least 0, so every tournament
     * of the GA step has a winner.
     */
    method RunTrainingStep(net: Network, streams: nat -> (nat -> Point), rng: seq<Breeding>)
      returns (ghost scores: seq<real>)
      requires Valid()
      requires forall i :: DrawsInGrid(streams(i)) && Fair(streams(i))
      requires |rng| + 1 == PopulationSize
      requires forall j :: 0 <= j < |rng| ==> BreedingShape(rng[j], PopulationSize, GeneCount(topology))
      modifies this, population
      ensures Valid() && topology == old(topology) && hiddenNodes == old(hiddenNodes)
      ensures scores == GameScores(topology, old(population.population), net, streams)
      ensures |scores| == PopulationSize && forall i :: 0 <= i < |scores| ==> scores[i] >= 0.0
      ensures BreedingPlan(rng, scores, GeneCount(topology))
      ensures fitnessHistory == old(fitnessHistory) + [Sum(scores) / (PopulationSize as real)]
      ensures population.population == NextGeneration(old(population.population), scores, GeneCount(topology), rng)
      ensures population.generation == old(population.generation) + 1
      ensures population.bestFitness in scores
      ensures forall i :: 0 <= i < |scores| ==> scores[i] <= population.bestFitness
      ensures |population.fitness| == PopulationSize && forall i :: 0 <= i < PopulationSize ==> population.fitness[i] == 0.0
    {
      var results := EvaluateAll(net, streams);
      RecordScores(results);
      ScoredPlanFits(rng, results, GeneCount(topology));
      population.Evolve(rng);
      scores := results;
    }
  }
}
