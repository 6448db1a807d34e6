# Pocket cube search, modelled in Dafny

This project models the core of `Rubik_2x2x2.py`, a solver for the 2x2x2
(pocket) Rubik's cube. It covers:

- the move table, `RULES`;
- the `Cube` state and its operations `__init__`, `__str__`, `__eq__`,
  `applicableRules`, `applyRule` and `goal`;
- the heuristic functions `changetoNum`, `manhattan` and `retryManhattan`;
- the two solvers: the best-first `GraphSearch`, and the depth-bounded
  `backTrack` with its iterative-deepening driver `iDBackTrack`.

The project has five modules, one per concern:

- `Rules` (`rules.dfy`) holds the twelve moves and their sticker
  permutations. It proves that each row is a permutation of the 24
  positions and that X' undoes X.
- `CubeState` (`cube.dfy`) holds the cube as a value.
  - `config` is the spaced text of six groups of four, and `tiles` is the
    same text without the spaces.
  - `depth`, `rule`, `parent` and the heuristic are the search metadata.
  - `applyRule` is a method whose three loops are proved against
    `Applied`. `goal` is proved against `Solved`, the six single-coloured
    faces.
- `Heuristic` (`heuristic.dfy`) keeps the heuristic as the integer
  `hNum`, sixteen times the source's value.
  - `retryManhattan` is proved against `HNum`.
  - The lemmas show that the heuristic is zero exactly at the goal and
    never more than 120/16.
- `GraphSearch` (`graph_search.dfy`) keeps the search's nodes in an arena,
  a sequence indexed by creation order.
  - OPEN and CLOSED hold arena positions, and a node's `parent` is a
    position.
  - The loop keeps OPEN sorted by the key and every node stored once per
    tile string.
  - The loop ends: each turn either stores a new tile string, which
    shrinks the set of strings not yet seen over the start's colours, or
    shortens OPEN.
  - At the end, either the path from the start to a solved node is
    rebuilt from the parents, or no sequence of moves solves the start.
- `BackTrack` (`backtrack.dfy`) describes `backTrack` by the function
  `Search` on tile strings. The method is proved to return exactly
  `Search`'s rendered result and its two counters.
  - Lemmas show that a success is a repeat-free solution within the
    bound, and that a repeat-free solution within the bound is always
    found.
  - `iDBackTrack` finds the smallest succeeding bound. Its solution is a
    shortest solution of the cube.

The global counters (`numNodesGen`, `numNodesExpanded`, `backCalls`,
`fails`, `numDepthsTried`) are returned as results, not kept in
module-level state. `BackTrack.IDBackTrack` returns what all of its rounds
add to `numDepthsTried`, `backCalls` and `fails`. The model copies
`deepcopy` by value semantics: every `Cube` is a value.

Behaviour of the code the model keeps:

- Each round of `iDBackTrack(stateList, maxDepth)` tries every bound from 0
  up to `maxDepth - 1`. The next round tries again from 0 with
  `maxDepth + 1` (`Rubik_2x2x2.py:323-328`). `BackTrack.IDBackTrack`
  counts the bounds tried, and the calls and fails of every search,
  accordingly.
- The relaxation in `GraphSearch` (`Rubik_2x2x2.py:261-272`) acts on the
  fresh copy `sp`, not on the stored node. It therefore changes nothing
  that the search keeps: `GraphSearch.Repropagate` returns the store
  unchanged.
  - At the root, `sp.parent` is `None`. `min(s, None, key=attrgetter('depth'))`
    then raises when the first expansion meets an already-stored state. The
    model returns this as the outcome `ParentMissing`, exactly when the
    start is unsolved and one of its twelve successors repeats the start
    or an earlier successor.
- When OPEN runs empty, `path` is never assigned and `return path` raises.
  The model returns this as the outcome `PathUnbound` and proves that no
  sequence of moves then solves the start.
- `__init__` assigns `heuristicval`, whose lower-case spelling differs
  from the `heuristicVal` the search reads. The root's heuristic is set
  only when it is first popped. The model leaves the root's `hNum`
  unconstrained until then.

## Model

| member | source | states |
|---|---|---|
| Rules.TableInverse | Rubik_2x2x2.py:22-47 | each row of the table is undone by the row of the inverse move (X' undoes X, both ways) |
| Rules.TableIsPermutation | Rubik_2x2x2.py:22-47 | every row of the table is a permutation of the 24 sticker positions |
| Rules.TurnRoundTrip | Rubik_2x2x2.py:169-170 | turning tiles by a move and then by its inverse gives back the tiles |
| Rules.TurnKeepsColours | Rubik_2x2x2.py:169-170 | a turn keeps the multiset of sticker colours |
| CubeState.NewCube | Rubik_2x2x2.py:74-85 | `Cube(config)` is valid: tiles are config without spaces; depth 0, no rule, no parent, heuristic 0 |
| CubeState.Display | Rubik_2x2x2.py:87-93 | `str(cube)` is the tiles in groups of four, each followed by a space |
| CubeState.EqIffSameTiles | Rubik_2x2x2.py:96-97 | for valid cubes, `==` holds exactly when the tiles are equal; depth, rule and parent play no part |
| CubeState.ApplicableRules | Rubik_2x2x2.py:149-150 | all twelve moves, each exactly once |
| CubeState.JoinPieces | Rubik_2x2x2.py:166-167 | the first loop of `applyRule` concatenates the pieces |
| CubeState.PermuteInPlace | Rubik_2x2x2.py:168-170 | position j of the new tiles takes the sticker at the table row's j-th entry |
| CubeState.Regroup | Rubik_2x2x2.py:174-178 | the rebuild loop writes groups of four separated by single spaces, with no trailing space |
| CubeState.ApplyRule | Rubik_2x2x2.py:153-183 | `applyRule` returns exactly `Applied`: the turned tiles, their grouped config and the rule set, with depth, parent and heuristic copied |
| CubeState.Applied | Rubik_2x2x2.py:153-183 | the result is a valid cube with the same colour multiset and a well-formed config; the metadata is copied from the receiver |
| CubeState.ApplyInverseRestores | Rubik_2x2x2.py:153-183 | applying a move and then its inverse restores both the tiles and the config |
| CubeState.Goal | Rubik_2x2x2.py:186-196 | `goal()` holds exactly when each of the six faces shows one colour |
| CubeState.FacesSolved | Rubik_2x2x2.py:190-196 | the pieces `goal()` reads are the six faces of the tiles, and all are single-coloured iff the cube is solved |
| CubeState.DefaultIsGoal | Rubik_2x2x2.py:366-370 | the default cube `Cube()` is accepted and is a goal |
| CubeState.OneMoveFromGoal | Rubik_2x2x2.py:376-384 | "GRGR YYYY OGOG BOBO WWWW BRBR" is not a goal, and applying R to it gives a goal |
| Heuristic.ChangeToNum | Rubik_2x2x2.py:198-210 | codes are at most 5, and below 5 exactly for W, R, G, Y, O |
| Heuristic.ChangeToNumInjective | Rubik_2x2x2.py:198-210 | on the six colours, equal codes mean equal colours |
| Heuristic.ManhattanZero | Rubik_2x2x2.py:211-212 | the sum is zero iff the sequences agree on every position `zip` pairs |
| Heuristic.ManhattanBound | Rubik_2x2x2.py:211-212 | per-position differences of at most k give a sum of at most k times the shorter length |
| Heuristic.GoalPatternFaces | Rubik_2x2x2.py:220 | the goal list gives position i the code i / 4, the index of its face |
| Heuristic.RetryManhattan | Rubik_2x2x2.py:217-226 | the method returns `HNum` of the tiles: 0 at a goal, else the distance of the tile codes from the goal list |
| Heuristic.HNumOfGoal | Rubik_2x2x2.py:218-219 | a goal scores 0 |
| Heuristic.HNumBound | Rubik_2x2x2.py:217-226 | the heuristic is at most 120/16 |
| Heuristic.HNumZeroIffGoal | Rubik_2x2x2.py:217-226 | over the six colours, the heuristic is zero iff the cube is solved |
| GraphSearch.KeyOrder | Rubik_2x2x2.py:260 | the integer key orders nodes exactly as `heuristicVal + depth` does over the reals |
| GraphSearch.SortAfterAppend | Rubik_2x2x2.py:259-260 | append and sort keep OPEN's elements plus the new one, and keep OPEN sorted |
| GraphSearch.SortAfterAppendIsStableSort | Rubik_2x2x2.py:259-260 | the new node goes after every key not above its own and before every larger key, as a stable sort places it |
| GraphSearch.InListsIffSeen | Rubik_2x2x2.py:254 | `sp in OPEN or sp in CLOSED` holds iff the successor's tiles are already stored |
| GraphSearch.PopLists | Rubik_2x2x2.py:242-248 | moving OPEN's head to CLOSED keeps every stored node in exactly one list, OPEN sorted |
| GraphSearch.PopStore | Rubik_2x2x2.py:244 | scoring the popped node keeps the store and its tiles; only the root's score may change |
| GraphSearch.AddLists | Rubik_2x2x2.py:259-260 | adding a new node to OPEN keeps the list invariant |
| GraphSearch.AddStore | Rubik_2x2x2.py:255-258 | a child with unseen tiles, parent s and depth one more keeps the store invariant |
| GraphSearch.TryRule | Rubik_2x2x2.py:253-272 | a successor is added iff its tiles are unseen; the root's relaxation fails iff it is already seen; invariants kept |
| GraphSearch.Expand | Rubik_2x2x2.py:252-272 | expansion fails iff at the root with a clash; otherwise every successor is seen afterwards and the invariants hold |
| GraphSearch.Repropagate | Rubik_2x2x2.py:264-272 | the depth propagation loops leave the store unchanged |
| GraphSearch.NoSolution | Rubik_2x2x2.py:241-272 | a store closed under expansion contains every state the start reaches, so none is solved |
| GraphSearch.PathReplays | Rubik_2x2x2.py:273-277 | replaying a path's rules from its first tiles gives its last tiles |
| GraphSearch.Reconstruct | Rubik_2x2x2.py:273-277 | following parents from s gives a path from the root to s whose length matches s's depth |
| GraphSearch.StartSearching | Rubik_2x2x2.py:239-240 | OPEN = [start], CLOSED = [] establishes the loop invariant |
| GraphSearch.Pop | Rubik_2x2x2.py:242-248 | popping and scoring the head reaches the popped state |
| GraphSearch.GoalReached | Rubik_2x2x2.py:249-251 | closing a goal leaves a rebuildable path; a solved start is closed at once and alone |
| GraphSearch.RootFailure | Rubik_2x2x2.py:262-265 | the relaxation's parent is missing exactly at the root's first expansion, when that expansion clashes |
| GraphSearch.AfterExpand | Rubik_2x2x2.py:252-272 | an expansion restores the invariant, and the unseen states or OPEN's length decrease |
| GraphSearch.Exhausted | Rubik_2x2x2.py:241 | when OPEN is empty, every stored node is closed and no sequence of moves solves the start |
| GraphSearch.Step | Rubik_2x2x2.py:242-272 | one loop turn: expanded with progress, a closed goal, or the root failure |
| GraphSearch.GraphSearch | Rubik_2x2x2.py:236-278 | Found gives a path from the start to a goal whose length is depth+1 and whose scores are the heuristic; a solved start gives [start] after one expansion; ParentMissing iff the root's expansion clashes; PathUnbound means no solution, and expanded = generated + 1 |
| GraphSearch.Conclude | Rubik_2x2x2.py:273-278 | after the loop: a goal gives its path, an empty OPEN leaves `path` unbound with no solution |
| BackTrack.RenderClassifies | Rubik_2x2x2.py:315 | the five-way failure test is true exactly for failures, and 'NULL' starts exactly the successes |
| BackTrack.SearchOrder | Rubik_2x2x2.py:287-298 | a repeat gives Failed-1; otherwise a goal gives NULL; otherwise a bound <= 0 gives Failed-3; Failed-5 needs a positive bound |
| BackTrack.TryFrom | Rubik_2x2x2.py:306-318 | the rule loop ends in a success with at least one step, or in Failed-5 |
| BackTrack.Duplicated | Rubik_2x2x2.py:287-291 | the scan finds a duplicate iff some later state has the first state's tiles |
| BackTrack.BackTrack | Rubik_2x2x2.py:283-318 | returns the rendering of `Search` and its call and fail counts |
| BackTrack.Push | Rubik_2x2x2.py:307-312 | the new state is the first state turned by the rule, put at the front of the list |
| BackTrack.TryRules | Rubik_2x2x2.py:306-318 | the loop over the twelve rules returns the rendering and counts of `TryFrom` from rule 0 |
| BackTrack.TryRule | Rubik_2x2x2.py:307-317 | one rule: a success returns `TryFrom`'s result, and a failure leaves the rest of the loop to decide with its counts added |
| BackTrack.RuleOutcome | Rubik_2x2x2.py:314-317 | a sub-result not among the failures extends the trace by the state and rule; a failure counts one fail |
| BackTrack.RenderStep | Rubik_2x2x2.py:316 | a step in front of a solution appends "tiles rule " to the rendered trace |
| BackTrack.SearchSound | Rubik_2x2x2.py:283-318 | a success has at most `bound` steps, each step's tiles are the previous ones turned by its rule, and it is a repeat-free solution |
| BackTrack.SearchComplete | Rubik_2x2x2.py:283-318 | every repeat-free solution of at most `bound` moves makes the search succeed |
| BackTrack.CallsCount | Rubik_2x2x2.py:313-317 | recursive calls = fails + the number of steps of a success |
| BackTrack.PlanNotRepeated | Rubik_2x2x2.py:287-291 | a path from which a repeat-free solution exists has no duplicate |
| BackTrack.CutLoops | Rubik_2x2x2.py:287-291 | every solution can be shortened to a repeat-free one |
| BackTrack.SmallestBound | Rubik_2x2x2.py:323-327 | the least bound below n at which the search succeeds; None iff every such bound fails |
| BackTrack.SmallestBoundGrows | Rubik_2x2x2.py:320-328 | later rounds keep an earlier smallest bound, and anything new lies beyond the earlier range |
| BackTrack.Round | Rubik_2x2x2.py:323-327 | one round returns the search at the smallest succeeding bound below `maxDepth`, with `least + 1` bounds tried; otherwise nothing, with `max(maxDepth, 0)` tried; its calls and fails are those of the searches it ran |
| BackTrack.RoundStep | Rubik_2x2x2.py:324-325 | one more bound adds one to the bounds tried and that search's calls and fails |
| BackTrack.IDBackTrack | Rubik_2x2x2.py:320-328 | returns the search at the smallest succeeding bound below `lastDepth`, otherwise None; its counters are those of every round until then, the last one stopping at that bound |
| BackTrack.LastRound | Rubik_2x2x2.py:326-327 | a round that finds a success, or the last round, ends the deepening with that round's result and counters |
| BackTrack.NextRound | Rubik_2x2x2.py:328 | a fruitless round adds its counters to those of the later rounds |
| BackTrack.SplitBefore | Rubik_2x2x2.py:323-328 | when a later round succeeds, the first round's counters split off in front of the rest |
| BackTrack.RoundCount | Rubik_2x2x2.py:313-317 | within one round whose earlier bounds fail, calls = fails, plus the steps of a success at the last bound |
| BackTrack.RoundsCount | Rubik_2x2x2.py:313-317 | rounds whose bounds all fail add as many calls as fails |
| BackTrack.DeepeningCount | Rubik_2x2x2.py:313-328 | over the whole deepening, `backCalls` = `fails` + the number of moves of the solution found, or `backCalls` = `fails` when none is found |
| BackTrack.FruitlessCount | Rubik_2x2x2.py:313-328 | a deepening that finds nothing adds as many calls as fails |
| BackTrack.FoundCount | Rubik_2x2x2.py:313-328 | a deepening that succeeds at bound `least` adds `least` more calls than fails |
| BackTrack.LastRoundCount | Rubik_2x2x2.py:313-327 | the round that stops at the smallest succeeding bound adds `least` more calls than fails |
| BackTrack.SmallestBoundShortest | Rubik_2x2x2.py:320-328 | the solution at the smallest bound has exactly that many steps, and no repeat-free solution is shorter |
| BackTrack.ShortestOfAll | Rubik_2x2x2.py:320-328 | the solution `iDBackTrack` returns is no longer than any solution of the cube |
| BackTrack.SolvableFound | Rubik_2x2x2.py:320-328 | a cube with a solution shorter than n gets a smallest bound below n |

## Left out

- Output and the command line: `main`, `toGrid`, every `print`, and the `isVerbose` parameter.
- Timing: `time.time()` and the module-level timestamps.
- Floating point: the heuristic is kept as `hNum`, sixteen times `heuristicVal`, an integer. OPEN's key is `hNum + 16 * depth`, and `GraphSearch.KeyOrder` shows that it orders nodes exactly as the real-valued sum does.
- `copy.deepcopy` and object identity: cubes are values, and `parent` is a position in the node store instead of a reference.
- Global counters: they are returned as results instead of being accumulated in module-level variables, so each search starts from zero.
- CubeState.NewCube: it requires six groups of four separated by single spaces, with no comma in any group. The source accepts any string, but `goal()` and `applyRule` are only meaningful on such configurations.
- GraphSearch.GraphSearch: the start must be a fresh cube, with depth 0 and no parent. The source's callers pass exactly that.
- BackTrack.BackTrack: the `ruleSet == 'NULL'` test never holds, because `applicableRules` returns a list. The Failed-4 branch is therefore not modelled, and `Failed-2` is never produced.
- BackTrack.IDBackTrack: the source recurses without end when no bound succeeds. The `lastDepth` parameter is the `maxDepth` of the last round that runs, and `None` means that no round up to it succeeded.
