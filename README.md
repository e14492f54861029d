# Snake GA trainer — a Dafny model of its core

This project models the core of a C++ program that trains small neural
networks to play Snake with a genetic algorithm (GA):

- **the snake** (`SnakeBody`): a deque of cells with the head at the
  front, and its heading. Moving pushes a new head and pops the tail.
  Growing repeats the last cell. Two linear scans detect self-collision and
  whether a cell is on the body; neither scan looks at the head.
- **the world** (`Simulation`): the 50 × 30 arena. The world's constructor
  fixes a 1000 × 600 pixel area and 20-pixel cells. The world computes the
  six-value observation (four danger flags and two food-direction signs). It
  steers from W/S/A/D keys or from the first largest network output. One
  tick moves the snake and resets the game on a wall or self collision.
  When the head is on the food, the tick grows the snake, scores a point and
  redraws the food until the body scan does not find it.
- **the population** (`Genetics`, `Populations`): genomes and their
  fitness scores kept as parallel vectors. A GA step:
  - copies the first fittest genome into slot 0;
  - breeds every other slot from two five-draw tournaments, uniform
    crossover, and mutation that clamps to [-1, 1];
  - zeroes the scores and counts the generation.

  `Genetics` states all of this on values. The `Population` class does it
  in place with loops, and each of its methods is proved equal to the value
  definition.
- **the trainer** (`Training`):
  - the fitness of one network: a headless game capped by a step limit
    and by a 150-step starvation guard, scored as `steps + 1000 * score`;
  - the topology `[11, h, 3]`, or `[11, 3]` when there are no hidden
    nodes;
  - the menu buttons that reset training and change the hidden-node count;
  - one training generation, run sequentially.

Randomness becomes explicit input:
- Food placement reads an infinite stream `draw: nat -> Point` from a
  cursor. It requires that every draw lies in the arena and that every cell
  is drawn again from any point of the stream.
- The GA reads one `Breeding` record per bred child: two tournaments of
  indices, crossover coins, mutation rolls and noise.
- Population resets read the random genomes from an `Initializer`.

A network is an opaque function from the observation to the outputs.

Behaviour of the code worth knowing, which the model follows:
- **The food can land on the head.** The body scan never examines index 0,
  so redrawing stops on the head's cell as readily as on any free cell.
  This is also why redrawing always ends: after growth the head's cell is
  never found by the scan (`GrownKeepsHeadClear`). A one-cell body always
  leaves (0, 0) or (1, 0) free.
- **A game is never ended by a collision.** The world resets itself inside
  the tick, so the fitness loop's wall and self-collision tests never fail.
  A game ends only at the step cap or by starvation, which
  `PlayOutcome` proves and `EvaluateBrainFitness` states.
- **The scan ranges differ.** The danger test skips the tail, so the cell
  the tail is about to leave counts as safe. Self-collision and food
  placement scan the whole body after the head.
- **An empty network output means Up.** `std::max_element` on an empty
  range yields index 0, so the snake turns Up. An index past 3 leaves the
  heading alone.
- **Tournament selection needs a score above -1.** It starts from a best
  of -1 and a null winner, so it needs at least one drawn score above -1.
  That is a precondition (`HasContender`). The trainer always meets it,
  because every fitness it computes is at least 0 (`GameFitnessNonNegative`,
  `GameScoresNonNegative`), and scores above -1 give every tournament a
  winner (`ScoredPlanFits`).

## Model

| member | source | states |
|---|---|---|
| Geometry.Shift | src/Snake.cpp:19-32 | the new head is one cell away, on the side the heading names (y grows downwards) |
| Geometry.Opposite | src/World.cpp:62-85 | each heading's reverse is a different heading |
| Geometry.ShiftOppositeReturns | src/Snake.cpp:19-32 | a step followed by a step in the opposite heading returns to the start cell |
| Geometry.ShiftInjective | src/Snake.cpp:19-32 | the four headings reach four different cells |
| SnakeBody.ScanEnd | src/Snake.cpp:82-88 | the scan stops one short of the end exactly when the tail is skipped on a body of more than one cell |
| SnakeBody.Moved | src/Snake.cpp:15-36 | a move keeps the length, puts the shifted head in front and moves every other cell up by one |
| SnakeBody.Grown | src/Snake.cpp:78-80 | growing keeps the body as a prefix and repeats the last cell |
| SnakeBody.OnBodySkipTailImplies | src/Snake.cpp:82-96 | a cell found with the tail skipped is also found by the full scan |
| SnakeBody.SelfCollidesIsHeadOnBody | src/Snake.cpp:64-96 | self-collision is exactly the full body scan finding the head's cell |
| SnakeBody.OnBody | src/Snake.cpp:82-96 | the scan: some cell after the head equals the point, the tail left out when asked on a body of more than one cell |
| SnakeBody.SelfCollides | src/Snake.cpp:64-76 | a body of two or more cells whose head equals a later cell |
| SnakeBody.GrownScanWithSkip | src/Snake.cpp:78-96 | after growth, the tail-skipping scan finds exactly the cells the full scan of the old body finds |
| SnakeBody.GrownKeepsHeadClear | src/World.cpp:42-57 | a moved body clear of its head stays clear after growth, so the head's cell is free for the food |
| SnakeBody.Snake.constructor | src/Snake.cpp:7-13 | the body is (25,25), (24,25), (23,25) and the heading is right |
| SnakeBody.Snake.Update | src/Snake.cpp:15-36 | the body becomes the moved body; length and heading are kept |
| SnakeBody.Snake.Grow | src/Snake.cpp:78-80 | the body becomes the grown body; heading kept |
| SnakeBody.Snake.HitItself | src/Snake.cpp:64-76 | true exactly when some cell after the head equals the head; false for bodies shorter than two |
| SnakeBody.Snake.IsPointOnBody | src/Snake.cpp:82-96 | true exactly when a cell after the head equals the point, the tail excluded when asked and the body is longer than one |
| MaxElement.FirstMaxIndex | src/Population.cpp:51-53 | the index is that of the first largest element, or 0 for an empty sequence |
| MaxElement.FirstMaxUnique | src/World.cpp:148-149 | the first-largest position is unique |
| MaxElement.FirstMaxIsMaximum | src/Population.cpp:51-52 | the value found occurs in the sequence and bounds every element |
| Simulation.ActionHeading | src/World.cpp:151-164 | output 0, 1, 2, 3 selects up, down, left, right, and no other index selects those headings |
| Simulation.Toward | src/World.cpp:128-138 | the food-direction input is -1, 0 or 1 as the food lies before, level with or after the head |
| Simulation.Food.constructor | src/food.cpp:9-11 | the food starts at the given cell |
| Simulation.World.constructor | src/World.cpp:10-15 | 1000 × 600 pixels in 20-pixel cells (50 × 30 cells), score 0 |
| Simulation.Steer | src/World.cpp:143-165 | the first largest output's index selects the heading when below 4; a larger index keeps the heading; an empty output selects up |
| Simulation.Observation | src/World.cpp:109-141 | the value observation: a danger flag for the cells up, down, left and right of the head (off the arena or found by the tail-skipping scan), then the signs of the food's offset on x and y |
| Simulation.GrownHasFreeCell | src/World.cpp:42-57 | a grown body whose head was clear of the rest leaves a free arena cell, so the redraw ends; a grown body of two or more stays clear of its head |
| Simulation.FirstFreeDraw | src/World.cpp:49-57 | the index is at or after the cursor, the full body scan does not find its cell, and it finds every earlier draw from the cursor on |
| Simulation.Tick | src/World.cpp:35-60 | one tick on values: the head ends in the arena; a body of two or more stays clear of its head; the food stays in the arena; the score is kept, rises by one, or the game starts over; the stream never moves back |
| Simulation.TickOutcome | src/World.cpp:35-60 | a tick case by case: a wall or self collision restarts the game with the stream untouched; eating grows the body, keeps the heading, scores one and puts the food on the first draw the full scan misses; otherwise only the body moves |
| Simulation.TickOutcomeIsTick | src/World.cpp:35-60 | the case-by-case outcome of a tick holds exactly when the new arena and stream position are those of the value tick |
| Simulation.World.HitWall | src/World.cpp:103-107 | true exactly when the head is outside the arena |
| Simulation.World.IsEatingFood | src/World.cpp:99-101 | the head is on the food cell |
| Simulation.World.IsDangerAt | src/World.cpp:167-178 | a cell outside the arena is dangerous; inside, exactly when it equals a body cell other than the head and the tail |
| Simulation.World.GameState | src/World.cpp:109-141 | six inputs: the danger flag of each neighbour in up, down, left, right order, then the signs of the food's offset on each axis; equal to the value observation of the body and food |
| Simulation.World.Reset | src/World.cpp:87-97 | the start body, heading right, food at (10,10), score 0 |
| Simulation.World.HandleInput | src/World.cpp:62-85 | W/S/A/D select a heading unless it reverses the current one; other events change nothing; the result is never the reverse of the old heading |
| Simulation.KeyHeading | src/World.cpp:64-80 | W is up, S is down, A is left, D is right |
| Simulation.World.HandleAiInput | src/World.cpp:143-165 | the heading becomes the one the first largest output selects; an index past 3 keeps it; an empty output selects up; the new heading is `Steer` of the old one for the outputs on the observation |
| Simulation.World.RelocateFood | src/World.cpp:45-57 | the food ends on the first drawn cell the full body scan does not find; every earlier draw was on the body; the food is in the arena |
| Simulation.World.Update | src/World.cpp:35-60 | a move into a wall or the body leaves exactly the reset state; eating grows the snake, adds one point and relocates the food; otherwise only the body moves (`TickOutcome`); the head stays in the arena and a body of two or more stays clear of its head |
| Genetics.GeneCount | src/NeuralNetwork.cpp:7-10 | a two-layer network holds one weight per connection and one bias per output |
| Genetics.GeneCountThreeLayers | src/NeuralNetwork.cpp:7-10 | a one-hidden-layer network holds hidden × inputs + outputs × hidden weights plus a bias per hidden and output neuron |
| Genetics.GeneCountSnoc | src/NeuralNetwork.cpp:7-10 | appending a layer of n neurons adds n weights per neuron of the previous last layer and n biases |
| Genetics.Clamp | src/Population.cpp:120-121 | the result lies in [-1, 1], equals the input inside that range and the nearer bound outside it |
| Genetics.Crossed | src/Population.cpp:92-108 | the child has the first parent's length; each gene comes from the first parent when its coin is below one half, otherwise from the second |
| Genetics.Mutated | src/Population.cpp:110-125 | the length is kept; genes whose roll is not below 0.05 are kept; mutated genes lie in [-1, 1] |
| Genetics.TournamentWinner | src/Population.cpp:76-90 | the winner is a drawn index whose score is the largest among the draws and above -1, and no earlier draw scores as high |
| Genetics.Offspring | src/Population.cpp:64-67 | the child bred from one set of draws: the mutated crossover of the two tournament winners (its properties are the lemmas below) |
| Genetics.NextGeneration | src/Population.cpp:55-69 | the first fittest genome, then one bred child per remaining slot (its properties are the lemmas below) |
| Genetics.NextGenerationAt | src/Population.cpp:63-69 | slot i of the next generation is the child bred from the i-th set of draws |
| Genetics.ScoredPlanFits | src/Population.cpp:79-89 | when every score is above -1, every tournament has a winner |
| Genetics.CrossedConforms | src/Population.cpp:92-108 | crossover of parents with genes in [-1, 1] has genes in [-1, 1] |
| Genetics.MutatedConforms | src/Population.cpp:117-123 | mutation keeps genes in [-1, 1] |
| Genetics.OffspringConforms | src/Population.cpp:63-69 | a bred child has the topology's gene count and genes in [-1, 1] |
| Genetics.NextGenerationConforms | src/Population.cpp:50-74 | the next generation has the same size, the first fittest genome unchanged in slot 0, and every genome conforming to the topology |
| Genetics.OffspringGeneOrigin | src/Population.cpp:92-123 | an unmutated gene of a child is the gene at the same position of one of the two tournament winners |
| Populations.Sum | src/Population.cpp:35-38 | the total of the scores, summed from the front |
| Populations.SumAtMost | src/Population.cpp:34-40 | a total of n values none above m is at most n × m |
| Populations.SumAtLeast | src/Population.cpp:34-40 | a total of n values none below m is at least n × m |
| Populations.FirstMaxIndexStep | src/Population.cpp:82-88 | the running best of a tournament moves to a new draw only on a strictly larger score |
| Populations.Population.constructor | src/Population.cpp:8-12 | the population is the given genomes of the topology, all scores 0, generation 0, best 0 |
| Populations.Population.Reset | src/Population.cpp:14-32 | exactly popSize genomes of the new topology and popSize scores of 0; generation and best fitness 0 |
| Populations.Population.GetAverageFitness | src/Population.cpp:34-40 | the total of the scores over the population size; never above the best score, and not negative when no score is |
| Populations.Population.GetBrain | src/Population.cpp:42-44 | the genome at the index, with the topology's gene count |
| Populations.Population.SetFitness | src/Population.cpp:46-48 | only the score at the index changes |
| Populations.Population.Generation | include/Population.hpp:34 | the counter is never negative, and the best fitness is 0 while it is 0 |
| Populations.Population.BestFitness | include/Population.hpp:36-37 | 0 before any GA step; afterwards a score of the last step's fitness vector that no score in it exceeds |
| Populations.Population.Size | include/Population.hpp:39-40 | the number of genomes, equal to the number of scores |
| Populations.Population.SelectParent | src/Population.cpp:76-90 | the winner is the first drawn index with the largest drawn score |
| Populations.Population.Crossover | src/Population.cpp:92-108 | the child equals the uniform crossover of the parents under the coins |
| Populations.Population.Mutate | src/Population.cpp:110-125 | the genes equal the clamped mutation under the rolls and noise |
| Populations.Population.BreedChild | src/Population.cpp:64-67 | the child is the mutated crossover of the two tournament winners, and it conforms |
| Populations.Population.Breed | src/Population.cpp:55-69 | the new generation equals the value definition: the first fittest genome in slot 0, then one bred child per slot |
| Populations.Population.Evolve | src/Population.cpp:50-74 | the population becomes the next generation; the best fitness is the largest old score; all scores 0; generation plus one; topology and size kept |
| Training.Fitness | src/Trainer.cpp:27 | steps + 1000 × score; not negative for a non-negative step count and score; fewer than 1000 steps never make up for one point |
| Training.Steered | src/World.cpp:143-165 | network steering changes only the heading |
| Training.Counted | src/Trainer.cpp:19-24 | one more step; a score above the best becomes the best and restarts the starvation counter, otherwise the counter grows by one |
| Training.Step | src/Trainer.cpp:17-24 | one pass of the fitness loop: one more step, a non-empty body |
| Training.Play | src/Trainer.cpp:16-26 | the loop: stop at a wall or self collision or at the cap, else advance |
| Training.Advance | src/Trainer.cpp:17-25 | one step, then stop once more than 150 steps passed without a new best score, else play on |
| Training.StepSound | src/Trainer.cpp:17-24 | a step from a sound state keeps the snake sound and in the arena, never lowers the best score and counts at most 151 steps since it last rose |
| Training.PlayOutcome | src/Trainer.cpp:16-26 | a game never passes the cap; it ends only at the cap or 151 steps after the last new best score; that counter never exceeds the steps; the best score only grows and bounds the final score |
| Training.GameFitnessNonNegative | src/Trainer.cpp:7-28 | the fitness of the game a network plays from the start arena is never negative |
| Training.GameScores | src/Trainer.cpp:235-245 | one score per genome |
| Training.GameScoresAt | src/Trainer.cpp:235-245 | the score at index i is the game fitness of genome i on food stream i |
| Training.GameScoresNonNegative | src/Trainer.cpp:235-245 | no genome's score is negative |
| Training.SteerAndTick | src/Trainer.cpp:17-18 | the world's new state and stream position are the value tick of the steered arena |
| Training.EvaluateBrainFitness | src/Trainer.cpp:7-28 | the fitness is `GameFitness` of the network; the game state at exit is the played game's (`Play`); the fitness is steps + 1000 × final score and not negative; steps never exceed the cap; the game ends only at the cap or 151 steps after the last new best score, and that counter never exceeds the steps; the best score bounds the final one |
| Training.GameFitness | src/Trainer.cpp:7-28 | the value definition of one network's fitness: steps + 1000 × score of the game it plays from the start arena (`Play`) |
| Training.Topology | src/Trainer.cpp:139-145 | [11, h, 3] when there are hidden nodes, else [11, 3] |
| Training.TopologyShape | src/Trainer.cpp:138-145 | at least two layers, 11 first, 3 last, none empty, and a hidden layer exactly when the count is positive |
| Training.TopologyGeneCount | src/Trainer.cpp:138-146 | a network holds 15h + 3 genes with h hidden nodes, and 36 with none |
| Training.ButtonsDisjoint | src/Trainer.cpp:47-51 | no click lands on two menu buttons |
| Training.ClickResets | src/Trainer.cpp:79-96 | the clicks that restart training: the reset button, minus while hidden nodes remain, or plus |
| Training.Trainer.constructor | src/Trainer.cpp:34-41 | eight hidden nodes, topology [11, 8, 3], a new population, owned by the trainer, of those genomes with 500 zero scores, best fitness 0, generation 0, and an empty history |
| Training.Trainer.ResetTraining | src/Trainer.cpp:138-148 | the topology is rebuilt from the hidden-node count, the population reset to it, and the history cleared |
| Training.Trainer.HandleMenuClick | src/Trainer.cpp:74-97 | minus removes a hidden node only when there is one; plus adds exactly one; a click that changes the count or hits reset restarts training (fresh genomes, 500 zero scores, best fitness 0, generation 0, empty history); any other click changes nothing: count, topology, history, genomes, scores, best fitness and generation are kept |
| Training.Trainer.EvaluateAll | src/Trainer.cpp:235-241 | the results are `GameScores` of the genomes: 500 scores, none negative, the one at index i the game fitness of genome i on stream i |
| Training.Trainer.RecordScores | src/Trainer.cpp:243-248 | the fitness vector becomes the scores in index order and their average is appended to the history |
| Training.Trainer.RunTrainingStep | src/Trainer.cpp:231-257 | the scores are the game fitness of each old genome on its own stream; their average is appended to the history; the population becomes the next generation bred from those scores; the best fitness is the largest score; the 500 scores are zeroed; the generation advances by one |

## Left out

- Rendering, the window, the event loop and mode switching are left out: `draw`, `draw_grid`, `draw_body_part`, `render`, `renderGraph`, `run`, `update`, the keyboard part of `handleEvents`, `startVisualization`, `stopVisualization`, `runVisualizationStep`, `SDL_Delay`. They only draw or change screens. The menu click is modelled as `HandleMenuClick` without the check that the trainer is in its menu mode.
- Console logging, such as the score printed on reset and the per-generation line, produces no state.
- Concurrency is left out. `RunTrainingStep` evaluates the networks one after another and writes the scores back in index order. Each game reads its own food stream, an arbitrary one, so any interleaving of the asynchronous games over a shared generator is covered by some choice of streams.
- Random number generation is left out. `Food::move_randomly` is not part of this model; the food cells it yields are the `draw` stream, assumed to stay in the arena and to reach every cell again. The Mersenne Twister draws of the GA, their uniform and normal distributions, and the random initial genes are explicit inputs with only their ranges and lengths constrained.
- The network's layers, activation, feed-forward pass and gene get/set are not part of this model. A network is an opaque function from the observation to the outputs. The source shows an older three-argument network class that the rest of the code does not call.
- The trainer's network is `[11, h, 3]`, but the observation has 6 values and the steering reads 4 outputs. The model keeps the topology as written and leaves the output-to-heading mismatch to the opaque network.
- `evaluate_brain_fitness` calls a four-argument `World` constructor with an 800 × 600 area, and it reads a `getScore` accessor. Neither is in the source. The model uses the two-argument constructor shown (a 50 × 30 arena) and reads the score field.
- Fixed-width arithmetic is left out. The `int` step counter, score and generation counter, the `size_t` hidden-node count and the `double` fitness values are unbounded integers and exact reals, so overflow and rounding are not modelled.
- Undefined behaviour is excluded by preconditions: an index out of range in `getBrain` or `setFitness`, a tournament with no draw above -1, an average over an empty population, `evolve` on an empty population (`max_element` of an empty vector is dereferenced, src/Population.cpp:51-52), and crossover with a second parent shorter than the first (src/Population.cpp:102).
- Genetics.GeneCount: the per-layer count (weights plus biases for each pair of adjacent layers) is assumed for every topology. The network class that the population calls is not part of this model; the three-layer count agrees with the shapes allocated at src/NeuralNetwork.cpp:7-10.
- Populations.Population.GetAverageFitness: the division by the population size is exact real division; floating-point rounding is not modelled.
- Simulation.World.Update: the food stream must reach every arena cell from any position, a fairness property of `move_randomly` that the source does not state. Without it, the redraw loop need not end.
