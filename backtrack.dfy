/** The depth-bounded backtracking search of Rubik_2x2x2.py (`backTrack`)
    and the iterative deepening around it (`iDBackTrack`).

    `Search` and `TryFrom` say what one call of `backTrack` returns, over
    the tiles of the path from the current state back to the start; the
    method `BackTrack` is proved to compute exactly that, and the lemmas
    below are about `Search`: the order of its checks, that a success is a
    repeat-free solution within the bound, that a repeat-free solution
    within the bound is always found, and what the two counters add up
    to. `IDBackTrack` returns the success at the smallest bound, which is
    a shortest solution. */
module BackTrack {
  import opened Rules
  import opened CubeState

  function Max(a: int, b: int): int
  {
    if a < b then b else a
  }

  // ---------------------------------------------------------------------
  // Results
  // ---------------------------------------------------------------------

  /** One segment of a solution: the tiles a move leads to, and the move. */
  datatype Step = Step(tiles: string, move: Move)

  /** What `backTrack` returns: a solution, listed first move first, or
      the failure that ended the search. The program also names
      `Failed-2` and `Failed-4`, but never returns them: nothing produces
      `Failed-2`, and `applicableRules` returns a list, never 'NULL'. */
  datatype Verdict = Success(steps: seq<Step>) | Failed1 | Failed3 | Failed5

  /** A verdict with what the call adds to the two counters: `backCalls`
      (calls made below this one) and `fails` (of those, the ones that
      failed). */
  datatype Run = Run(verdict: Verdict, calls: nat, fails: nat)

  /** The moves of a solution. */
  function Moves(steps: seq<Step>): (ms: seq<Move>)
    ensures |ms| == |steps|
  {
    seq(|steps|, k requires 0 <= k < |steps| => steps[k].move)
  }

  /** The text of the segments: the innermost call's segment comes first,
      since each level appends its own segment to what the level below
      returned. */
  function Trace(steps: seq<Step>): string
  {
    if steps == [] then "" else Trace(steps[1..]) + Segment(steps[0])
  }

  /** `str(newState.tiles + " " + rule + " ")`: the tiles, then the rule's
      name, each followed by a space. */
  function Segment(step: Step): string
  {
    step.tiles + " " + Name(step.move) + " "
  }

  /** The string `backTrack` returns. */
  function Render(v: Verdict): string
  {
    match v
    case Success(steps) => "NULL" + Trace(steps)
    case Failed1 => "Failed-1"
    case Failed3 => "Failed-3"
    case Failed5 => "Failed-5"
  }

  /** The caller's test that a returned path is one of the failure codes. */
  predicate IsFailure(s: string)
  {
    s == "Failed-1" || s == "Failed-2" || s == "Failed-3" || s == "Failed-4" || s == "Failed-5"
  }

  /** `result[0:4] == 'NULL'`: a slice of a shorter string is the whole
      string, which then differs from 'NULL'. */
  predicate StartsNull(s: string)
  {
    |s| >= 4 && s[..4] == "NULL"
  }

  /** A rendered verdict is a failure code exactly when the verdict is a
      failure, and starts with 'NULL' exactly when it is a success, so
      both callers read the verdict back correctly. */
  lemma RenderClassifies(v: Verdict)
    ensures IsFailure(Render(v)) <==> !v.Success?
    ensures StartsNull(Render(v)) <==> v.Success?
  {
    if v.Success? {
      var s := Render(v);
      assert s[..4] == "NULL";
      assert s[0] == 'N';
    } else {
      assert Render(v)[..4] == "Fail";
    }
  }

  // ---------------------------------------------------------------------
  // The search, as a function of the path
  // ---------------------------------------------------------------------

  /** Every entry is the 24 tiles of a cube. */
  predicate Sized(path: seq<string>)
  {
    forall k :: 0 <= k < |path| ==> |path[k]| == 24
  }

  /** The tiles of the cubes of a state list. */
  function TilesOf(cubes: seq<Cube>): (path: seq<string>)
    ensures |path| == |cubes|
    ensures forall k :: 0 <= k < |cubes| ==> path[k] == cubes[k].tiles
  {
    seq(|cubes|, k requires 0 <= k < |cubes| => cubes[k].tiles)
  }

  /** The current state occurs again further down the path. */
  predicate Repeats(path: seq<string>)
  {
    exists i :: 1 <= i < |path| && path[i] == path[0]
  }

  /** One call of `backTrack` on a state list whose tiles are `path`
      (current state first): a repeated state fails with `Failed-1`, a
      goal succeeds with no moves whatever the bound, an exhausted bound
      fails with `Failed-3`, and otherwise the rules are tried in
      order. */
  function Search(path: seq<string>, bound: int): (run: Run)
    requires |path| >= 1 && Sized(path)
    decreases bound, 13
  {
    if Repeats(path) then Run(Failed1, 0, 0)
    else if Solved(path[0]) then Run(Success([]), 0, 0)
    else if bound <= 0 then Run(Failed3, 0, 0)
    else TryFrom(path, bound, 0)
  }

  /** The loop over the rules from the `k`-th on: apply the rule, search
      one level deeper from the new state pushed on the path, and stop at
      the first success, adding this step in front of its moves; after
      the last rule, `Failed-5`. */
  function TryFrom(path: seq<string>, bound: int, k: nat): (run: Run)
    requires |path| >= 1 && Sized(path) && bound > 0 && k <= 12
    ensures run.verdict.Success? || run.verdict.Failed5?
    ensures run.verdict.Success? ==> run.verdict.steps != []
    decreases bound, 12 - k
  {
    if k == 12 then Run(Failed5, 0, 0)
    else
      var next := Turn(path[0], AllMoves[k]);
      var sub := Search([next] + path, bound - 1);
      if sub.verdict.Success? then
        Run(Success([Step(next, AllMoves[k])] + sub.verdict.steps), 1 + sub.calls, sub.fails)
      else
        var rest := TryFrom(path, bound, k + 1);
        Run(rest.verdict, 1 + sub.calls + rest.calls, sub.fails + 1 + rest.fails)
  }

  /** The checks come in the program's order: `Failed-1` exactly for a
      repeated state, the empty solution exactly for a goal not repeated
      (even when the bound is 0 or less), `Failed-3` exactly when neither
      holds and the bound is used up; any other outcome (a non-empty
      solution or `Failed-5`) comes from trying the rules. */
  lemma SearchOrder(path: seq<string>, bound: int)
    requires |path| >= 1 && Sized(path)
    ensures Search(path, bound).verdict.Failed1? <==> Repeats(path)
    ensures Search(path, bound).verdict == Success([]) <==> !Repeats(path) && Solved(path[0])
    ensures Search(path, bound).verdict.Failed3? <==> !Repeats(path) && !Solved(path[0]) && bound <= 0
    ensures Search(path, bound).verdict.Failed5? ==> bound > 0
  {
  }

  // ---------------------------------------------------------------------
  // The program's two functions
  // ---------------------------------------------------------------------

  /** `Search` with the counters `calls` and `fails` already added. */
  function Shifted(run: Run, calls: nat, fails: nat): Run
  {
    Run(run.verdict, run.calls + calls, run.fails + fails)
  }

  /** The scan of `backTrack` over the rest of the list for a state equal
      to the first (by `__eq__`): it finds one exactly when the current
      state repeats. */
  method Duplicated(stateList: seq<Cube>) returns (found: bool)
    requires |stateList| >= 1 && AllValid(stateList)
    ensures found == Repeats(TilesOf(stateList))
  {
    var state := stateList[0];
    ghost var tl := TilesOf(stateList);
    for i := 1 to |stateList|
      invariant forall k :: 1 <= k < i ==> tl[k] != tl[0]
    {
      EqIffSameTiles(stateList[i], state);
      if Eq(stateList[i], state) {
        return true;
      }
    }
    return false;
  }

  /** `backTrack(stateList, depthBound)`: the duplicate scan, the goal
      test and the bound test, then the loop over the rules. It returns
      what `Search` says, as the program's string, with the counts it adds
      to `backCalls` and `fails`. The caller's list is a value and is left
      as it was. */
  method BackTrack(stateList: seq<Cube>, depthBound: int) returns (path: string, calls: nat, fails: nat)
    requires |stateList| >= 1 && AllValid(stateList)
    ensures var run := Search(TilesOf(stateList), depthBound);
      path == Render(run.verdict) && calls == run.calls && fails == run.fails
    decreases depthBound, 2
  {
    var state := stateList[0];
    var duplicate := Duplicated(stateList);
    if duplicate {
      return "Failed-1", 0, 0;
    }
    if Goal(state) {
      return "NULL", 0, 0;
    }
    if depthBound <= 0 {
      return "Failed-3", 0, 0;
    }
    path, calls, fails := TryRules(stateList, depthBound);
  }

  /** `newState = state.applyRule(rule)` and the new state inserted at
      the front of a copy of the list: the list grows by the turned state. */
  method Push(stateList: seq<Cube>, rule: Move) returns (newState: Cube, newStateList: seq<Cube>)
    requires |stateList| >= 1 && AllValid(stateList)
    ensures newState.tiles == Turn(stateList[0].tiles, rule)
    ensures newStateList == [newState] + stateList && AllValid(newStateList)
    ensures TilesOf(newStateList) == [newState.tiles] + TilesOf(stateList)
  {
    newState := ApplyRule(stateList[0], rule);
    newStateList := [newState] + stateList;
    assert TilesOf(newStateList) == [newState.tiles] + TilesOf(stateList);
  }

  /** The loop of `backTrack` over the rules, in the order
      `applicableRules` lists them: the first path that is not a failure
      code is returned, and when every rule fails the result is
      `Failed-5`. */
  method TryRules(stateList: seq<Cube>, depthBound: int) returns (path: string, calls: nat, fails: nat)
    requires |stateList| >= 1 && AllValid(stateList) && depthBound > 0
    ensures var run := TryFrom(TilesOf(stateList), depthBound, 0);
      path == Render(run.verdict) && calls == run.calls && fails == run.fails
    decreases depthBound, 1
  {
    ghost var tl := TilesOf(stateList);
    var ruleSet := ApplicableRules(stateList[0]);
    calls, fails := 0, 0;
    var j := 0;
    while j < |ruleSet|
      invariant 0 <= j <= 12
      invariant TryFrom(tl, depthBound, 0) == Shifted(TryFrom(tl, depthBound, j), calls, fails)
    {
      var found, sub, subCalls, subFails := TryRule(stateList, depthBound, j, ruleSet[j]);
      calls, fails := calls + subCalls, fails + subFails;
      if found {
        return sub, calls, fails;
      }
      j := j + 1;
    }
    assert TryFrom(tl, depthBound, j) == Run(Failed5, 0, 0);
    return "Failed-5", calls, fails;
  }

  /** One turn of that loop: the rule's state is pushed on a copy of the
      list and searched one level deeper (one more `backCalls`). A path
      that is not a failure code comes back with this step's segment
      appended; a failure counts one more `fails` and leaves the rest of
      the loop to the next rule. */
  method TryRule(stateList: seq<Cube>, depthBound: int, j: nat, rule: Move)
      returns (found: bool, path: string, calls: nat, fails: nat)
    requires |stateList| >= 1 && AllValid(stateList) && depthBound > 0 && j < 12 && rule == AllMoves[j]
    ensures var run := TryFrom(TilesOf(stateList), depthBound, j);
      found ==> run.verdict.Success? && path == Render(run.verdict) && calls == run.calls && fails == run.fails
    ensures var tl := TilesOf(stateList);
      !found ==> TryFrom(tl, depthBound, j) == Shifted(TryFrom(tl, depthBound, j + 1), calls, fails)
    decreases depthBound, 0
  {
    ghost var tl := TilesOf(stateList);
    var newState, newStateList := Push(stateList, rule);
    var sub, subCalls, subFails := BackTrack(newStateList, depthBound - 1);
    RuleOutcome(tl, depthBound, j, sub, subCalls, subFails);
    calls, fails := 1 + subCalls, subFails;
    if !IsFailure(sub) {
      return true, sub + Segment(Step(newState.tiles, rule)), calls, fails;
    }
    fails := fails + 1;
    return false, sub, calls, fails;
  }

  /** Trying the `k`-th rule: a success below is this step's success, a
      failure below moves on to the next rule, with the counts of the
      call below and of its failure added. */
  lemma TryFromAt(path: seq<string>, bound: int, k: nat)
    requires |path| >= 1 && Sized(path) && bound > 0 && k < 12
    ensures var next := Turn(path[0], AllMoves[k]);
      var sub := Search([next] + path, bound - 1);
      (sub.verdict.Success? ==>
         TryFrom(path, bound, k) == Run(Success([Step(next, AllMoves[k])] + sub.verdict.steps), 1 + sub.calls, sub.fails)) &&
      (!sub.verdict.Success? ==>
         TryFrom(path, bound, k) == Shifted(TryFrom(path, bound, k + 1), 1 + sub.calls, sub.fails + 1))
  {
  }

  /** What the caller of the search one level down makes of the string it
      gets back: not a failure code means this rule's success, with its
      segment appended; a failure code means one more fail and the next
      rule. */
  lemma RuleOutcome(path: seq<string>, bound: int, k: nat, sub: string, subCalls: nat, subFails: nat)
    requires |path| >= 1 && Sized(path) && bound > 0 && k < 12
    requires var below := Search([Turn(path[0], AllMoves[k])] + path, bound - 1);
      sub == Render(below.verdict) && subCalls == below.calls && subFails == below.fails
    ensures var run := TryFrom(path, bound, k);
      !IsFailure(sub) ==>
        run.verdict.Success? && run.calls == 1 + subCalls && run.fails == subFails &&
        Render(run.verdict) == sub + Segment(Step(Turn(path[0], AllMoves[k]), AllMoves[k]))
    ensures IsFailure(sub) ==> TryFrom(path, bound, k) == Shifted(TryFrom(path, bound, k + 1), 1 + subCalls, subFails + 1)
  {
    var next := Turn(path[0], AllMoves[k]);
    var below := Search([next] + path, bound - 1);
    RenderClassifies(below.verdict);
    TryFromAt(path, bound, k);
    if below.verdict.Success? {
      RenderStep(Step(next, AllMoves[k]), below.verdict.steps);
    }
  }

  /** A step in front of a solution appends its segment to the string. */
  lemma RenderStep(step: Step, steps: seq<Step>)
    ensures Render(Success([step] + steps)) == Render(Success(steps)) + Segment(step)
  {
    assert ([step] + steps)[1..] == steps;
  }

  /** The least bound below `n` at which the search succeeds, if any. */
  function SmallestBound(path: seq<string>, n: int): (least: Option<nat>)
    requires |path| >= 1 && Sized(path)
    ensures least.Some? ==> least.value < n && Search(path, least.value).verdict.Success?
    ensures least.Some? ==> forall k :: 0 <= k < least.value ==> !Search(path, k).verdict.Success?
    ensures least.None? ==> forall k :: 0 <= k < n ==> !Search(path, k).verdict.Success?
    decreases n
  {
    if n <= 0 then None
    else
      var below := SmallestBound(path, n - 1);
      if below.Some? then below
      else if Search(path, n - 1).verdict.Success? then Some(n - 1)
      else None
  }

  /** What the deepening adds to the program's three counters:
      `numDepthsTried`, `backCalls` and `fails`. */
  datatype Tally = Tally(tried: nat, calls: nat, fails: nat)

  function Plus(a: Tally, b: Tally): Tally
  {
    Tally(a.tried + b.tried, a.calls + b.calls, a.fails + b.fails)
  }

  lemma PlusAssociates(a: Tally, b: Tally, c: Tally)
    ensures Plus(a, Plus(b, c)) == Plus(Plus(a, b), c)
  {
  }

  /** The counters of one round that runs `backTrack` at the bounds 0 to
      n - 1: n bounds tried, and each search's calls and fails. */
  function RoundTally(path: seq<string>, n: nat): (t: Tally)
    requires |path| >= 1 && Sized(path)
    ensures t.tried == n
  {
    if n == 0 then Tally(0, 0, 0)
    else
      var last := Search(path, n - 1);
      Plus(RoundTally(path, n - 1), Tally(1, last.calls, last.fails))
  }

  /** The counters of the fruitless rounds `a` up to `b - 1`: round `m`
      tries the bounds 0 to `max(m, 0) - 1`. */
  function RoundsTally(path: seq<string>, a: int, b: int): Tally
    requires |path| >= 1 && Sized(path)
    decreases b - a
  {
    if a >= b then Tally(0, 0, 0) else Plus(RoundTally(path, Max(a, 0)), RoundsTally(path, a + 1, b))
  }

  /** Widening the range of bounds keeps a smallest bound found in the
      narrower one, and anything new lies beyond the narrower range: the
      rounds of iterative deepening agree with each other. */
  lemma SmallestBoundGrows(path: seq<string>, a: int, b: int)
    requires |path| >= 1 && Sized(path) && a <= b
    ensures SmallestBound(path, a).Some? ==> SmallestBound(path, b) == SmallestBound(path, a)
    ensures SmallestBound(path, a).None? && SmallestBound(path, b).Some? ==> SmallestBound(path, b).value >= a
  {
  }

  /** The first success, counting up from bound 0, is the smallest. */
  lemma FirstSuccess(path: seq<string>, n: int, k: nat)
    requires |path| >= 1 && Sized(path) && k < n && Search(path, k).verdict.Success?
    requires forall j :: 0 <= j < k ==> !Search(path, j).verdict.Success?
    ensures SmallestBound(path, n) == Some(k)
  {
  }

  /** No success below `n`: no smallest bound below `n`. */
  lemma NoSuccess(path: seq<string>, n: int)
    requires |path| >= 1 && Sized(path)
    requires forall j :: 0 <= j < n ==> !Search(path, j).verdict.Success?
    ensures SmallestBound(path, n).None?
  {
  }

  /** One round of `iDBackTrack`: the bounds 0 to `maxDepth - 1` in turn,
      stopping at the first result that starts with 'NULL'. It finds the
      search at the smallest succeeding bound below `maxDepth`; `tried`,
      `calls` and `fails` are what the round adds to `numDepthsTried`,
      `backCalls` and `fails`. */
  method Round(stateList: seq<Cube>, maxDepth: int) returns (result: Option<string>, tried: nat, calls: nat, fails: nat)
    requires |stateList| >= 1 && AllValid(stateList)
    ensures var path := TilesOf(stateList);
      Tally(tried, calls, fails) == RoundTally(path, tried) &&
      match SmallestBound(path, maxDepth)
      case None => result == None && tried == Max(maxDepth, 0)
      case Some(least) => result == Some(Render(Search(path, least).verdict)) && tried == least + 1
  {
    ghost var path := TilesOf(stateList);
    tried, calls, fails := 0, 0, 0;
    var i := 0;
    while i < maxDepth
      invariant 0 <= i <= Max(maxDepth, 0) && tried == i
      invariant Tally(tried, calls, fails) == RoundTally(path, i)
      invariant forall k :: 0 <= k < i ==> !Search(path, k).verdict.Success?
    {
      var r, c, f := BackTrack(stateList, i);
      RoundStep(path, i, Tally(tried, calls, fails), c, f);
      tried, calls, fails := tried + 1, calls + c, fails + f;
      RenderClassifies(Search(path, i).verdict);
      if StartsNull(r) {
        FirstSuccess(path, maxDepth, i);
        return Some(r), tried, calls, fails;
      }
      i := i + 1;
    }
    NoSuccess(path, maxDepth);
    return None, tried, calls, fails;
  }

  /** Running the search at bound `i` adds one bound tried and that
      search's counts to the round's counters. */
  lemma RoundStep(path: seq<string>, i: nat, before: Tally, c: nat, f: nat)
    requires |path| >= 1 && Sized(path) && before == RoundTally(path, i)
    requires c == Search(path, i).calls && f == Search(path, i).fails
    ensures Tally(before.tried + 1, before.calls + c, before.fails + f) == RoundTally(path, i + 1)
  {
  }

  /** `iDBackTrack(stateList, maxDepth)`: a round over the bounds below
      `maxDepth`, and when it finds nothing, the same again with
      `maxDepth + 1`. The program recurses without end when no bound
      succeeds; here the rounds stop after the one for `lastDepth`. The
      result is the search at the smallest succeeding bound below
      `lastDepth`, or None when there is none, and `tried`, `calls` and
      `fails` are what the rounds add to `numDepthsTried`, `backCalls` and
      `fails`. */
  method IDBackTrack(stateList: seq<Cube>, maxDepth: int, lastDepth: int)
      returns (result: Option<string>, tried: nat, calls: nat, fails: nat)
    requires |stateList| >= 1 && AllValid(stateList) && maxDepth <= lastDepth
    ensures var path := TilesOf(stateList);
      result == Found(path, lastDepth) && Tally(tried, calls, fails) == DeepeningTally(path, maxDepth, lastDepth)
    decreases lastDepth - maxDepth
  {
    ghost var path := TilesOf(stateList);
    result, tried, calls, fails := Round(stateList, maxDepth);
    if result.Some? || maxDepth == lastDepth {
      LastRound(path, maxDepth, lastDepth, result, Tally(tried, calls, fails));
      return;
    }
    NextRound(path, maxDepth, lastDepth);
    var moreTried, moreCalls, moreFails;
    result, moreTried, moreCalls, moreFails := IDBackTrack(stateList, maxDepth + 1, lastDepth);
    tried, calls, fails := tried + moreTried, calls + moreCalls, fails + moreFails;
  }

  /** What the deepening returns once its last round is the one for
      `end`: the search at the smallest succeeding bound below `end`, if
      there is one. */
  ghost function Found(path: seq<string>, end: int): Option<string>
    requires |path| >= 1 && Sized(path)
  {
    match SmallestBound(path, end)
    case None => None
    case Some(least) => Some(Render(Search(path, least).verdict))
  }

  /** The counters of the rounds from `maxDepth` until the one for `end`:
      the fruitless rounds, and when a bound below `end` succeeds, a last
      round that stops at the smallest of them. */
  ghost function DeepeningTally(path: seq<string>, maxDepth: int, end: int): Tally
    requires |path| >= 1 && Sized(path)
  {
    match SmallestBound(path, end)
    case None => RoundsTally(path, maxDepth, end + 1)
    case Some(least) => Plus(RoundsTally(path, maxDepth, least + 1), RoundTally(path, least + 1))
  }

  /** A round that finds a success, or the last round allowed, ends the
      deepening with what that round returns. */
  lemma LastRound(path: seq<string>, maxDepth: int, end: int, result: Option<string>, tally: Tally)
    requires |path| >= 1 && Sized(path) && maxDepth <= end
    requires tally == RoundTally(path, tally.tried)
    requires match SmallestBound(path, maxDepth)
      case None => result == None && tally.tried == Max(maxDepth, 0)
      case Some(least) => result == Some(Render(Search(path, least).verdict)) && tally.tried == least + 1
    requires result.Some? || maxDepth == end
    ensures result == Found(path, end) && tally == DeepeningTally(path, maxDepth, end)
  {
    SmallestBoundGrows(path, maxDepth, end);
    match SmallestBound(path, maxDepth)
    case None =>
      assert RoundsTally(path, maxDepth, maxDepth + 1) == Plus(RoundTally(path, Max(maxDepth, 0)), Tally(0, 0, 0));
    case Some(least) =>
      assert RoundsTally(path, maxDepth, least + 1) == Tally(0, 0, 0);
  }

  /** A round that finds nothing adds its counters to those of the later
      rounds. */
  lemma NextRound(path: seq<string>, maxDepth: int, end: int)
    requires |path| >= 1 && Sized(path) && maxDepth < end && SmallestBound(path, maxDepth).None?
    ensures DeepeningTally(path, maxDepth, end) == Plus(RoundTally(path, Max(maxDepth, 0)), DeepeningTally(path, maxDepth + 1, end))
  {
    match SmallestBound(path, end)
    case None =>
      RoundsStep(path, maxDepth, end + 1);
    case Some(least) =>
      SmallestBoundGrows(path, maxDepth, end);
      SplitBefore(path, maxDepth, end, least);
  }

  /** When the deepening goes on to succeed at bound `least`, a first
      round below it splits off in front of the rest. */
  lemma SplitBefore(path: seq<string>, maxDepth: int, end: int, least: nat)
    requires |path| >= 1 && Sized(path) && maxDepth <= least && SmallestBound(path, end) == Some(least)
    ensures DeepeningTally(path, maxDepth, end) == Plus(RoundTally(path, Max(maxDepth, 0)), DeepeningTally(path, maxDepth + 1, end))
  {
    RoundsStep(path, maxDepth, least + 1);
    PlusAssociates(RoundTally(path, Max(maxDepth, 0)), RoundsTally(path, maxDepth + 1, least + 1), RoundTally(path, least + 1));
  }

  /** The first of a run of fruitless rounds, split off. */
  lemma RoundsStep(path: seq<string>, a: int, b: int)
    requires |path| >= 1 && Sized(path) && a < b
    ensures RoundsTally(path, a, b) == Plus(RoundTally(path, Max(a, 0)), RoundsTally(path, a + 1, b))
  {
  }

  /** Within one round of failures, each recursive call is a fail; a
      success at the last bound adds its steps. */
  lemma {:induction false} RoundCount(path: seq<string>, n: nat)
    requires |path| >= 1 && Sized(path)
    requires forall k :: 0 <= k < n - 1 ==> !Search(path, k).verdict.Success?
    ensures var t := RoundTally(path, n);
      t.calls == t.fails + if n > 0 && Search(path, n - 1).verdict.Success? then |Search(path, n - 1).verdict.steps| else 0
  {
    if n > 0 {
      RoundCount(path, n - 1);
      CallsCount(path, n - 1);
    }
  }

  /** Rounds whose bounds all fail add as many calls as fails. */
  lemma {:induction false} RoundsCount(path: seq<string>, a: int, b: int)
    requires |path| >= 1 && Sized(path)
    requires forall k :: 0 <= k < b - 1 ==> !Search(path, k).verdict.Success?
    ensures RoundsTally(path, a, b).calls == RoundsTally(path, a, b).fails
    decreases b - a
  {
    if a < b {
      RoundCount(path, Max(a, 0));
      RoundsCount(path, a + 1, b);
    }
  }

  /** Over the whole deepening, `backCalls` is `fails` plus the length of
      the solution found: every recursive call either fails or becomes a
      step of the solution. */
  lemma DeepeningCount(path: seq<string>, maxDepth: int, end: int)
    requires |path| >= 1 && Sized(path)
    ensures var t := DeepeningTally(path, maxDepth, end);
      match SmallestBound(path, end)
      case None => t.calls == t.fails
      case Some(least) => t.calls == t.fails + least
  {
    match SmallestBound(path, end)
    case None =>
      FruitlessCount(path, maxDepth, end);
    case Some(least) =>
      FoundCount(path, end, maxDepth, least);
  }

  /** A deepening with no success below `end` adds as many calls as
      fails. */
  lemma FruitlessCount(path: seq<string>, maxDepth: int, end: int)
    requires |path| >= 1 && Sized(path) && SmallestBound(path, end).None?
    ensures DeepeningTally(path, maxDepth, end).calls == DeepeningTally(path, maxDepth, end).fails
  {
    RoundsCount(path, maxDepth, end + 1);
  }

  /** A deepening that succeeds at bound `least`: the fruitless rounds
      add as many calls as fails, and the last round adds the `least`
      steps of the solution on top. */
  lemma FoundCount(path: seq<string>, end: int, maxDepth: int, least: nat)
    requires |path| >= 1 && Sized(path) && SmallestBound(path, end) == Some(least)
    ensures var t := DeepeningTally(path, maxDepth, end); t.calls == t.fails + least
  {
    RoundsCount(path, maxDepth, least + 1);
    LastRoundCount(path, end, least);
  }

  /** The round that stops at the smallest succeeding bound adds its
      `least` steps to its fails. */
  lemma LastRoundCount(path: seq<string>, end: int, least: nat)
    requires |path| >= 1 && Sized(path) && SmallestBound(path, end) == Some(least)
    ensures RoundTally(path, least + 1).calls == RoundTally(path, least + 1).fails + least
  {
    RoundCount(path, least + 1);
    SmallestBoundShortest(path, end, least);
  }

  // ---------------------------------------------------------------------
  // What a success means
  // ---------------------------------------------------------------------

  /** The path after `ms` from its current state: the state each move
      reaches is pushed in front, as `backTrack` pushes it. */
  function Visits(path: seq<string>, ms: seq<Move>): (v: seq<string>)
    requires |path| >= 1 && Sized(path)
    ensures |v| == |path| + |ms| && Sized(v)
    decreases |ms|
  {
    if ms == [] then path else Visits([Turn(path[0], ms[0])] + path, ms[1..])
  }

  /** The first `n + 1` entries each differ from every entry after them. */
  predicate Fresh(v: seq<string>, n: nat)
  {
    forall i, j :: 0 <= i <= n && i < j < |v| ==> v[i] != v[j]
  }

  /** `ms` solves the cube from the current state of `path` and never
      reaches a state already on the path or reached before. */
  predicate Plan(path: seq<string>, ms: seq<Move>)
    requires |path| >= 1 && Sized(path)
  {
    Solved(Replay(path[0], ms)) && Fresh(Visits(path, ms), |ms|)
  }

  /** Each step's tiles are its move applied to the tiles before it. */
  predicate Follows(t: string, steps: seq<Step>)
    requires |t| == 24
    decreases |steps|
  {
    steps == [] || (steps[0].tiles == Turn(t, steps[0].move) && Follows(steps[0].tiles, steps[1..]))
  }

  /** The path below the pushed states is the original one, and the entry
      `k` moves deep is the state after the first `k` moves. */
  lemma {:induction false} VisitsAt(path: seq<string>, ms: seq<Move>, k: nat)
    requires |path| >= 1 && Sized(path) && k <= |ms|
    ensures Visits(path, ms)[|ms|..] == path
    ensures Visits(path, ms)[|ms| - k] == Replay(path[0], ms[..k])
    decreases |ms|
  {
    if ms != [] {
      var next := Turn(path[0], ms[0]);
      VisitsAt([next] + path, ms[1..], if k == 0 then 0 else k - 1);
      if k > 0 {
        assert ms[..k][0] == ms[0] && ms[..k][1..] == ms[1..][..k - 1];
      }
    }
  }

  /** Moves after moves replay in sequence. */
  lemma {:induction false} ReplayAppend(t: string, a: seq<Move>, b: seq<Move>)
    requires |t| == 24
    ensures Replay(t, a + b) == Replay(Replay(t, a), b)
    decreases |a|
  {
    if a != [] {
      assert (a + b)[0] == a[0] && (a + b)[1..] == a[1..] + b;
      ReplayAppend(Turn(t, a[0]), a[1..], b);
    } else {
      assert a + b == b;
    }
  }

  /** Pushing a state that the path does not already hold keeps the
      pushed entries fresh one level further down. */
  lemma FreshBelow(v: seq<string>, n: nat, path: seq<string>)
    requires Fresh(v, n) && n + 1 <= |v| && v[n + 1..] == path && !Repeats(path)
    ensures Fresh(v, n + 1)
  {
    forall i, j | 0 <= i <= n + 1 && i < j < |v|
      ensures v[i] != v[j]
    {
      if i == n + 1 {
        assert v[i] == path[0] && v[j] == path[j - (n + 1)];
      }
    }
  }

  /** A plan's first move leads to a plan from the state it reaches. */
  lemma PlanTail(path: seq<string>, ms: seq<Move>)
    requires |path| >= 1 && Sized(path) && ms != [] && Plan(path, ms)
    ensures Plan([Turn(path[0], ms[0])] + path, ms[1..])
  {
  }

  /** A plan from a path whose current state repeats cannot exist: the
      state is the deepest of the fresh entries. */
  lemma PlanNotRepeated(path: seq<string>, ms: seq<Move>)
    requires |path| >= 1 && Sized(path) && Plan(path, ms)
    ensures !Repeats(path)
  {
    var v := Visits(path, ms);
    VisitsAt(path, ms, 0);
    forall j | 1 <= j < |path|
      ensures path[j] != path[0]
    {
      assert path[j] == v[|ms| + j] && path[0] == v[|ms|];
    }
  }

  /** Soundness: a success has at most `bound` moves (none when the bound
      is 0 or less), its tiles are the states its moves reach, and its
      moves solve the cube from the current state without repeating a
      state of the path or of their own. */
  lemma {:induction false} SearchSound(path: seq<string>, bound: int)
    requires |path| >= 1 && Sized(path) && Search(path, bound).verdict.Success?
    ensures var steps := Search(path, bound).verdict.steps;
      |steps| <= Max(bound, 0) && Follows(path[0], steps) && Plan(path, Moves(steps))
    decreases bound, 13
  {
    if !Solved(path[0]) {
      TryFromSound(path, bound, 0);
    } else {
      assert Visits(path, Moves([])) == path;
    }
  }

  lemma {:induction false} TryFromSound(path: seq<string>, bound: int, k: nat)
    requires |path| >= 1 && Sized(path) && bound > 0 && k <= 12
    requires !Repeats(path) && TryFrom(path, bound, k).verdict.Success?
    ensures var steps := TryFrom(path, bound, k).verdict.steps;
      |steps| <= bound && Follows(path[0], steps) && Plan(path, Moves(steps))
    decreases bound, 12 - k
  {
    var next := Turn(path[0], AllMoves[k]);
    var sub := Search([next] + path, bound - 1);
    if sub.verdict.Success? {
      SearchSound([next] + path, bound - 1);
      var rest := sub.verdict.steps;
      var steps := [Step(next, AllMoves[k])] + rest;
      assert steps[1..] == rest;
      var ms := Moves(steps);
      assert ms[0] == AllMoves[k] && ms[1..] == Moves(rest);
      var v := Visits(path, ms);
      assert v == Visits([next] + path, Moves(rest));
      VisitsAt(path, ms, 0);
      assert v[|rest| + 1..] == path;
      FreshBelow(v, |rest|, path);
    } else {
      TryFromSound(path, bound, k + 1);
    }
  }

  /** Completeness: when a plan of at most `bound` moves exists, the
      search succeeds. */
  lemma {:induction false} SearchComplete(path: seq<string>, bound: int, ms: seq<Move>)
    requires |path| >= 1 && Sized(path) && Plan(path, ms) && |ms| <= Max(bound, 0)
    ensures Search(path, bound).verdict.Success?
    decreases |ms|, 13
  {
    PlanNotRepeated(path, ms);
    if !Solved(path[0]) {
      assert ms != [];
      TryFromComplete(path, bound, 0, ms);
    }
  }

  lemma {:induction false} TryFromComplete(path: seq<string>, bound: int, k: nat, ms: seq<Move>)
    requires |path| >= 1 && Sized(path) && bound > 0 && ms != []
    requires k <= MoveIndex(ms[0]) && Plan(path, ms) && |ms| <= bound
    ensures TryFrom(path, bound, k).verdict.Success?
    decreases |ms|, 12 - k
  {
    var next := Turn(path[0], AllMoves[k]);
    if k == MoveIndex(ms[0]) {
      PlanTail(path, ms);
      SearchComplete([next] + path, bound - 1, ms[1..]);
    } else if !Search([next] + path, bound - 1).verdict.Success? {
      TryFromComplete(path, bound, k + 1, ms);
    }
  }

  /** Every call below that did not lie on the solution counted a fail:
      `backCalls` grows by `fails` plus the number of moves found. */
  lemma {:induction false} CallsCount(path: seq<string>, bound: int)
    requires |path| >= 1 && Sized(path)
    ensures var run := Search(path, bound);
      run.calls == run.fails + (if run.verdict.Success? then |run.verdict.steps| else 0)
    decreases bound, 13
  {
    if !Repeats(path) && !Solved(path[0]) && bound > 0 {
      TryFromCount(path, bound, 0);
    }
  }

  lemma {:induction false} TryFromCount(path: seq<string>, bound: int, k: nat)
    requires |path| >= 1 && Sized(path) && bound > 0 && k <= 12
    ensures var run := TryFrom(path, bound, k);
      run.calls == run.fails + (if run.verdict.Success? then |run.verdict.steps| else 0)
    decreases bound, 12 - k
  {
    if k < 12 {
      var next := Turn(path[0], AllMoves[k]);
      CallsCount([next] + path, bound - 1);
      TryFromAt(path, bound, k);
      if !Search([next] + path, bound - 1).verdict.Success? {
        TryFromCount(path, bound, k + 1);
      }
    }
  }

  // ---------------------------------------------------------------------
  // Iterative deepening finds a shortest solution
  // ---------------------------------------------------------------------

  /** The success at the smallest bound has exactly that many moves, and
      no plan from the path is shorter. */
  lemma SmallestBoundShortest(path: seq<string>, n: int, least: nat)
    requires |path| >= 1 && Sized(path) && SmallestBound(path, n) == Some(least)
    ensures |Search(path, least).verdict.steps| == least
    ensures forall ms :: Plan(path, ms) ==> least <= |ms|
  {
    forall ms | Plan(path, ms)
      ensures least <= |ms|
    {
      if |ms| < least {
        SearchComplete(path, |ms|, ms);
      }
    }
    SearchSound(path, least);
  }

  lemma SingleSized(t: string)
    requires |t| == 24
    ensures Sized([t])
  {
  }

  /** From a single start, loops can be cut out of any solution: some
      repeat-free plan is no longer. */
  lemma {:induction false} CutLoops(t: string, ms: seq<Move>) returns (short: seq<Move>)
    requires |t| == 24 && Solved(Replay(t, ms))
    ensures |short| <= |ms| && Plan([t], short)
    decreases |ms|
  {
    var v := Visits([t], ms);
    if Fresh(v, |ms|) {
      return ms;
    }
    var i, j :| 0 <= i <= |ms| && i < j < |v| && v[i] == v[j];
    var a, b := |ms| - i, |ms| - j;
    VisitsAt([t], ms, a);
    VisitsAt([t], ms, b);
    assert Replay(t, ms[..a]) == Replay(t, ms[..b]);
    ReplayAppend(t, ms[..b], ms[a..]);
    ReplayAppend(t, ms[..a], ms[a..]);
    assert ms[..a] + ms[a..] == ms;
    short := CutLoops(t, ms[..b] + ms[a..]);
  }

  /** From a single start, iterative deepening returns a shortest solution
      of all: no sequence of moves that solves the cube is shorter. */
  lemma ShortestOfAll(t: string, n: int, least: nat, ms: seq<Move>)
    requires |t| == 24 && SmallestBound([t], n) == Some(least)
    requires Solved(Replay(t, ms))
    ensures least <= |ms|
  {
    SingleSized(t);
    SmallestBoundShortest([t], n, least);
    var short := CutLoops(t, ms);
  }

  /** From a single start, a solution of fewer than `n` moves guarantees
      that the bounds below `n` hold a success. */
  lemma SolvableFound(t: string, n: int, ms: seq<Move>)
    requires |t| == 24 && Solved(Replay(t, ms)) && |ms| < n
    ensures SmallestBound([t], n).Some?
  {
    SingleSized(t);
    var short := CutLoops(t, ms);
    SearchComplete([t], |short|, short);
    SucceedsBelow([t], n, |short|);
  }

  /** A success at a bound below `n` leaves a smallest bound below `n`. */
  lemma SucceedsBelow(path: seq<string>, n: int, k: nat)
    requires |path| >= 1 && Sized(path) && k < n && Search(path, k).verdict.Success?
    ensures SmallestBound(path, n).Some?
  {
  }
}
