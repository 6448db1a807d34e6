/** The search heuristic of Rubik_2x2x2.py: colour codes, the sum of
    absolute differences, and `retryManhattan`. The source divides the sum
    by 16; the model keeps the integer numerator `hNum`, the heuristic
    value being `hNum / 16`. */
module Heuristic {
  import opened Rules
  import opened CubeState

  /** The six colours in code order. */
  const Colours: string := "WRGYOB"

  /** `changetoNum`: W, R, G, Y, O are 0 to 4; every other character,
      B included, is 5. */
  function ChangeToNum(ch: char): (n: nat)
    ensures n <= 5
    ensures n < 5 <==> ch in "WRGYO"
  {
    if ch == 'W' then 0
    else if ch == 'R' then 1
    else if ch == 'G' then 2
    else if ch == 'Y' then 3
    else if ch == 'O' then 4
    else 5
  }

  /** On the six colours the code is one-to-one. */
  lemma ChangeToNumInjective(a: char, b: char)
    requires a in Colours && b in Colours
    ensures ChangeToNum(a) == ChangeToNum(b) <==> a == b
  {
  }

  function Abs(x: int): nat
  {
    if x < 0 then -x else x
  }

  /** `manhattan(a, b)`: the sum of `|a[i] - b[i]|` over the positions the
      two sequences share (`zip` stops at the shorter one). */
  function Manhattan(a: seq<int>, b: seq<int>): nat
  {
    if a == [] || b == [] then 0 else Abs(a[0] - b[0]) + Manhattan(a[1..], b[1..])
  }

  /** The sum is zero exactly when the sequences agree on every shared
      position. */
  lemma {:induction false} ManhattanZero(a: seq<int>, b: seq<int>)
    ensures Manhattan(a, b) == 0 <==> forall i :: 0 <= i < |a| && i < |b| ==> a[i] == b[i]
  {
    if a != [] && b != [] {
      ManhattanZero(a[1..], b[1..]);
      AgreeByHead(a, b);
    }
  }

  /** Two non-empty sequences agree where they overlap exactly when their
      heads agree and their tails do. */
  lemma AgreeByHead(a: seq<int>, b: seq<int>)
    requires a != [] && b != []
    ensures (forall i :: 0 <= i < |a| && i < |b| ==> a[i] == b[i]) <==>
            a[0] == b[0] && forall i :: 0 <= i < |a| - 1 && i < |b| - 1 ==> a[1..][i] == b[1..][i]
  {
    forall i | 0 <= i < |a| - 1 && i < |b| - 1
      ensures a[1..][i] == a[i + 1] && b[1..][i] == b[i + 1]
    {
    }
    forall i | 0 < i < |a| && i < |b|
      ensures a[i] == a[1..][i - 1] && b[i] == b[1..][i - 1]
    {
    }
  }

  /** When every difference is at most `k`, the sum is at most `k` times
      the number of shared positions. */
  lemma {:induction false} ManhattanBound(a: seq<int>, b: seq<int>, k: nat)
    requires forall i :: 0 <= i < |a| && i < |b| ==> Abs(a[i] - b[i]) <= k
    ensures Manhattan(a, b) <= k * (if |a| < |b| then |a| else |b|)
  {
    if a != [] && b != [] {
      forall i | 0 <= i < |a| - 1 && i < |b| - 1
        ensures Abs(a[1..][i] - b[1..][i]) <= k
      {
        assert a[1..][i] == a[i + 1] && b[1..][i] == b[i + 1];
      }
      ManhattanBound(a[1..], b[1..], k);
      var m := if |a| < |b| then |a| else |b|;
      assert (if |a[1..]| < |b[1..]| then |a[1..]| else |b[1..]|) == m - 1;
      assert k * m == k + k * (m - 1);
    }
  }

  /** The `goal` list of `retryManhattan`: the code of each face's place. */
  const GoalPattern: seq<int> := [0, 0, 0, 0, 1, 1, 1, 1, 2, 2, 2, 2, 3, 3, 3, 3, 4, 4, 4, 4, 5, 5, 5, 5]

  lemma GoalPatternFaces()
    ensures |GoalPattern| == 24
    ensures forall i :: 0 <= i < 24 ==> GoalPattern[i] == i / 4
  {
  }

  /** `map(changetoNum, s)`. */
  function Codes(s: string): seq<int>
  {
    seq(|s|, i requires 0 <= i < |s| => ChangeToNum(s[i]) as int)
  }

  /** 16 times the heuristic of a cube whose tiles are `t`: 0 when solved,
      otherwise the distance of the tile codes from the goal pattern. */
  function HNum(t: string): nat
    requires |t| == 24
  {
    if Solved(t) then 0 else Manhattan(GoalPattern, Codes(t))
  }

  /** `retryManhattan`: 0 for a goal; otherwise split `config` at the
      spaces, join the faces into one list of tiles, code them and compare
      with the goal pattern. The heuristic depends on the tiles alone. */
  method RetryManhattan(c: Cube) returns (hNum: nat)
    requires Valid(c)
    ensures hNum == HNum(c.tiles)
  {
    if Goal(c) {
      return 0;
    }
    var faces := Split(c.config, ' ');
    var cubes := JoinPieces(faces);
    ConcatSplit(c.config, ' ');
    RemoveGrouped(c.tiles);
    hNum := Manhattan(GoalPattern, Codes(cubes));
  }

  /** A goal state scores 0. */
  lemma HNumOfGoal(t: string)
    requires |t| == 24 && Solved(t)
    ensures HNum(t) == 0
  {
  }

  /** The heuristic never exceeds 120 / 16: each of the 24 positions
      contributes at most 5. */
  lemma HNumBound(t: string)
    requires |t| == 24
    ensures HNum(t) <= 120
  {
    var codes := Codes(t);
    GoalPatternFaces();
    forall i | 0 <= i < |GoalPattern| && i < |codes|
      ensures Abs(GoalPattern[i] - codes[i]) <= 5
    {
    }
    ManhattanBound(GoalPattern, codes, 5);
  }

  /** Over the six colours, the heuristic is zero exactly at the goal:
      a zero sum puts the code `f` on all four tiles of face `f`, and the
      code tells the colours apart. */
  lemma HNumZeroIffGoal(t: string)
    requires |t| == 24
    requires forall i :: 0 <= i < 24 ==> t[i] in Colours
    ensures HNum(t) == 0 <==> Solved(t)
  {
    if !Solved(t) && HNum(t) == 0 {
      var codes := Codes(t);
      ManhattanZero(GoalPattern, codes);
      GoalPatternFaces();
      forall f | 0 <= f < 6
        ensures t[4 * f] == t[4 * f + 1] == t[4 * f + 2] == t[4 * f + 3]
      {
        assert codes[4 * f] == GoalPattern[4 * f] == f;
        assert codes[4 * f + 1] == GoalPattern[4 * f + 1] == f;
        assert codes[4 * f + 2] == GoalPattern[4 * f + 2] == f;
        assert codes[4 * f + 3] == GoalPattern[4 * f + 3] == f;
        ChangeToNumInjective(t[4 * f], t[4 * f + 1]);
        ChangeToNumInjective(t[4 * f + 1], t[4 * f + 2]);
        ChangeToNumInjective(t[4 * f + 2], t[4 * f + 3]);
      }
      assert false;
    }
  }
}
