/** The cube state of Rubik_2x2x2.py: a 24-sticker configuration, kept both
    as `config` (six groups of four, separated by single spaces) and as
    `tiles` (the same characters without the spaces), plus the search
    metadata `depth`, `rule`, `parent` and the cached heuristic. */
module CubeState {
  import opened Rules

  datatype Option<T> = None | Some(value: T)

  // ---------------------------------------------------------------------
  // The Python string operations the cube relies on
  // ---------------------------------------------------------------------

  /** `s.split(sep)` for a one-character separator: the pieces between
      separators, empty pieces included; never an empty list. */
  function Split(s: string, sep: char): (parts: seq<string>)
    ensures |parts| >= 1
    ensures forall i :: 0 <= i < |parts| ==> sep !in parts[i]
  {
    if s == [] then [[]]
    else
      var rest := Split(s[1..], sep);
      if s[0] == sep then [[]] + rest else [[s[0]] + rest[0]] + rest[1..]
  }

  /** `"".join(parts)`. */
  function Concat(parts: seq<string>): string
  {
    if parts == [] then [] else parts[0] + Concat(parts[1..])
  }

  /** `s.replace(c, "")`. */
  function Remove(s: string, c: char): (r: string)
    ensures c !in r && |r| <= |s|
    ensures forall x :: x in r ==> x in s
  {
    if s == [] then [] else (if s[0] == c then [] else [s[0]]) + Remove(s[1..], c)
  }

  lemma {:induction false} ConcatSnoc(parts: seq<string>, p: string)
    ensures Concat(parts + [p]) == Concat(parts) + p
  {
    if parts != [] {
      assert (parts + [p])[1..] == parts[1..] + [p];
      ConcatSnoc(parts[1..], p);
    }
  }

  lemma {:induction false} RemoveAppend(a: string, b: string, c: char)
    ensures Remove(a + b, c) == Remove(a, c) + Remove(b, c)
  {
    if a == [] {
      assert a + b == b;
    } else {
      assert (a + b)[0] == a[0] && (a + b)[1..] == a[1..] + b;
      RemoveAppend(a[1..], b, c);
    }
  }

  lemma {:induction false} RemoveAbsent(s: string, c: char)
    requires c !in s
    ensures Remove(s, c) == s
  {
    if s != [] {
      RemoveAbsent(s[1..], c);
    }
  }

  /** Joining the pieces of a split drops exactly the separators. */
  lemma {:induction false} ConcatSplit(s: string, sep: char)
    ensures Concat(Split(s, sep)) == Remove(s, sep)
  {
    if s != [] {
      var rest := Split(s[1..], sep);
      ConcatSplit(s[1..], sep);
      if s[0] == sep {
        assert ([[]] + rest)[1..] == rest;
      } else {
        var parts := [[s[0]] + rest[0]] + rest[1..];
        assert parts[1..] == rest[1..];
        assert Concat(rest) == rest[0] + Concat(rest[1..]);
        assert Concat(parts) == [s[0]] + rest[0] + Concat(rest[1..]);
      }
    }
  }

  /** Splitting at the first separator. */
  lemma {:induction false} SplitAfter(g: string, sep: char, rest: string)
    requires sep !in g
    ensures Split(g + [sep] + rest, sep) == [g] + Split(rest, sep)
  {
    var s := g + [sep] + rest;
    if g != [] {
      assert s[0] == g[0] && s[1..] == g[1..] + [sep] + rest;
      SplitAfter(g[1..], sep, rest);
      assert [g[0]] + g[1..] == g;
    } else {
      assert s[0] == sep && s[1..] == rest;
    }
  }

  lemma {:induction false} SplitNone(g: string, sep: char)
    requires sep !in g
    ensures Split(g, sep) == [g]
  {
    if g != [] {
      SplitNone(g[1..], sep);
      assert [g[0]] + g[1..] == g;
    }
  }

  // ---------------------------------------------------------------------
  // Configuration strings
  // ---------------------------------------------------------------------

  /** The tiles in groups of four joined by single spaces, no trailing
      space: the form `applyRule` gives `config`. */
  function Grouped(t: string): string
  {
    if |t| <= 4 then t else t[..4] + " " + Grouped(t[4..])
  }

  /** The groups of four of `t`. */
  function Chunks(t: string): (faces: seq<string>)
    requires |t| % 4 == 0
    ensures |faces| == |t| / 4
    ensures forall f :: 0 <= f < |faces| ==> faces[f] == t[4 * f .. 4 * f + 4]
  {
    if t == [] then [] else [t[..4]] + Chunks(t[4..])
  }

  lemma {:induction false} RemoveGrouped(t: string)
    requires ' ' !in t
    ensures Remove(Grouped(t), ' ') == t
  {
    if |t| <= 4 {
      RemoveAbsent(t, ' ');
    } else {
      RemoveAppend(t[..4] + " ", Grouped(t[4..]), ' ');
      RemoveAppend(t[..4], " ", ' ');
      RemoveAbsent(t[..4], ' ');
      RemoveGrouped(t[4..]);
    }
  }

  lemma {:induction false} SplitGrouped(t: string)
    requires ' ' !in t && |t| % 4 == 0 && |t| > 0
    ensures Split(Grouped(t), ' ') == Chunks(t)
  {
    if |t| == 4 {
      SplitNone(t, ' ');
      assert t[..4] == t && t[4..] == [];
    } else {
      assert ' ' !in t[..4];
      SplitAfter(t[..4], ' ', Grouped(t[4..]));
      SplitGrouped(t[4..]);
    }
  }

  /** Appending one character to grouped text, as `applyRule` does while
      it rebuilds `config`. */
  lemma {:induction false} GroupedSnoc(u: string, c: char)
    ensures Grouped(u + [c]) == if |u| > 0 && |u| % 4 == 0 then Grouped(u) + " " + [c] else Grouped(u) + [c]
    decreases |u|
  {
    if |u| > 4 {
      assert (u + [c])[..4] == u[..4];
      assert (u + [c])[4..] == u[4..] + [c];
      GroupedSnoc(u[4..], c);
    } else if |u| == 4 {
      assert (u + [c])[..4] == u;
      assert (u + [c])[4..] == [c];
    }
  }

  /** The text `applyRule` has built after copying the characters of `u`:
      a space follows every fourth character except the 24th. */
  function Spaced(u: string): string
  {
    Grouped(u) + if |u| % 4 == 0 && |u| % 24 != 0 then " " else ""
  }

  /** One more character copied: a space follows it when it completes a
      group other than the last of a whole cube. */
  lemma SpacedSnoc(u: string, c: char)
    requires |u| < 24
    ensures Spaced(u + [c]) == Spaced(u) + [c] + if (|u| + 1) % 4 == 0 && (|u| + 1) % 24 != 0 then " " else ""
  {
    GroupedSnoc(u, c);
  }

  /** Six groups of four characters, none of them a space or a comma,
      separated by single spaces: the configurations a caller hands to
      `Cube(config)`. */
  predicate GroupsOfFour(s: string, k: nat)
    decreases k
  {
    if k == 0 then false
    else if k == 1 then |s| == 4 && ' ' !in s && ',' !in s
    else |s| > 5 && ' ' !in s[..4] && ',' !in s[..4] && s[4] == ' ' && GroupsOfFour(s[5..], k - 1)
  }

  predicate WellFormedConfig(s: string)
  {
    GroupsOfFour(s, 6)
  }

  /** Removing the space that follows a group of four. */
  lemma RemoveGroupSpace(s: string)
    requires |s| > 5 && ' ' !in s[..4] && s[4] == ' '
    ensures Remove(s, ' ') == s[..4] + Remove(s[5..], ' ')
  {
    var rest := s[5..];
    var spaced := [' '] + rest;
    assert s == s[..4] + spaced;
    RemoveAppend(s[..4], spaced, ' ');
    RemoveAbsent(s[..4], ' ');
    assert spaced[0] == ' ' && spaced[1..] == rest;
    assert Remove(spaced, ' ') == Remove(rest, ' ');
  }

  /** The tiles of a well-formed configuration of `k` groups: `4 * k`
      characters, none a space or a comma, which group back to it. */
  lemma {:induction false} GroupsRemove(s: string, k: nat)
    requires GroupsOfFour(s, k)
    ensures |Remove(s, ' ')| == 4 * k
    ensures ' ' !in Remove(s, ' ') && ',' !in Remove(s, ' ')
    ensures Grouped(Remove(s, ' ')) == s
    decreases k
  {
    if k == 1 {
      RemoveAbsent(s, ' ');
    } else {
      RemoveGroupSpace(s);
      GroupsRemove(s[5..], k - 1);
      var t := Remove(s, ' ');
      assert t[..4] == s[..4] && t[4..] == Remove(s[5..], ' ');
      assert s == s[..4] + " " + s[5..];
    }
  }

  // ---------------------------------------------------------------------
  // The cube
  // ---------------------------------------------------------------------

  /** A search node. `rule` is None at the root (the source's ""), `parent`
      is the position of the parent in the search's node store, and `hNum`
      is 16 times the heuristic value, an integer. */
  datatype Cube = Cube(config: string, tiles: string, depth: nat, rule: Option<Move>,
                       parent: Option<nat>, hNum: nat)

  /** Tiles are 24 characters, none a space or a comma, and `config` is
      those tiles grouped in fours. */
  predicate ValidTiles(t: string)
  {
    |t| == 24 && ' ' !in t && ',' !in t
  }

  predicate Valid(c: Cube)
  {
    ValidTiles(c.tiles) && c.config == Grouped(c.tiles)
  }

  /** Every cube of a list (a node store, a path) is valid. */
  predicate AllValid(cubes: seq<Cube>)
  {
    forall i :: 0 <= i < |cubes| ==> Valid(cubes[i])
  }

  /** `Cube(config)`: tiles are the configuration without its spaces; depth
      0, no rule, no parent, heuristic 0. */
  function NewCube(config: string): (c: Cube)
    requires WellFormedConfig(config)
    ensures Valid(c) && c.config == config
    ensures c.depth == 0 && c.rule == None && c.parent == None && c.hNum == 0
  {
    GroupsRemove(config, 6);
    Cube(config, Remove(config, ' '), 0, None, None, 0)
  }

  /** `str(cube)`: each group of four followed by a space. */
  function Display(t: string): (s: string)
    ensures |t| > 0 ==> s == Grouped(t) + " "
  {
    if |t| == 0 then ""
    else if |t| <= 4 then t + " "
    else t[..4] + " " + Display(t[4..])
  }

  /** `__eq__`: same tiles, or same configuration string. */
  predicate Eq(a: Cube, b: Cube)
  {
    a.tiles == b.tiles || a.config == b.config
  }

  /** For valid cubes equality is tile equality: depth, rule and parent
      play no part, and equal configurations have equal tiles. */
  lemma EqIffSameTiles(a: Cube, b: Cube)
    requires Valid(a) && Valid(b)
    ensures Eq(a, b) <==> a.tiles == b.tiles
  {
    if a.config == b.config {
      RemoveGrouped(a.tiles);
      RemoveGrouped(b.tiles);
    }
  }

  /** `applicableRules`: every move, in the table's key order. */
  function ApplicableRules(c: Cube): (rules: seq<Move>)
    ensures |rules| == 12
    ensures forall m :: m in rules
    ensures forall i, j :: 0 <= i < j < |rules| ==> rules[i] != rules[j]
  {
    EveryMoveListed();
    AllMoves
  }

  lemma EveryMoveListed()
    ensures forall m :: m in AllMoves
  {
    forall m ensures m in AllMoves {
      assert AllMoves[MoveIndex(m)] == m;
    }
  }

  /** The position of a move in the table's key order. */
  function MoveIndex(m: Move): (k: nat)
    ensures k < 12 && AllMoves[k] == m
  {
    match m
    case U => 0   case UPrime => 1
    case R => 2   case RPrime => 3
    case F => 4   case FPrime => 5
    case D => 6   case DPrime => 7
    case L => 8   case LPrime => 9
    case B => 10  case BPrime => 11
  }

  /** What `applyRule(m)` returns: a copy of the cube with the turned tiles,
      the configuration rebuilt from them and `rule` set to the move. */
  function Applied(c: Cube, m: Move): (r: Cube)
    requires Valid(c)
    ensures Valid(r) && multiset(r.tiles) == multiset(c.tiles)
    ensures WellFormedConfig(r.config)
    ensures r.depth == c.depth && r.parent == c.parent && r.hNum == c.hNum
  {
    TurnedValid(c.tiles, m);
    GroupedWellFormed(Turn(c.tiles, m), 6);
    var t := Turn(c.tiles, m);
    c.(config := Grouped(t), tiles := t, rule := Some(m))
  }

  /** The `for i in values: theState += list(i)` loop of `applyRule`:
      the pieces of a split, joined. */
  method JoinPieces(values: seq<string>) returns (theState: string)
    ensures theState == Concat(values)
  {
    theState := [];
    for i := 0 to |values|
      invariant theState == Concat(values[..i])
    {
      assert values[..i + 1] == values[..i] + [values[i]];
      ConcatSnoc(values[..i], values[i]);
      theState := theState + values[i];
    }
    assert values[..|values|] == values;
  }

  /** The `for i in theRule` loop of `applyRule`, on an array copy of the
      tiles: position `i` receives the tile at `theRule[i]`, for every value
      `i` of the row; a permutation row reaches every position once. */
  method PermuteInPlace(theState: string, theRule: seq<nat>) returns (newTheState: array<char>)
    requires |theState| == 24 && Rearranges(theRule, 24)
    ensures fresh(newTheState) && newTheState.Length == 24
    ensures forall j :: 0 <= j < 24 ==> newTheState[j] == theState[theRule[j]]
  {
    newTheState := new char[24](j requires 0 <= j < 24 => theState[j]);
    for k := 0 to 24
      invariant forall j :: 0 <= j < 24 ==>
        newTheState[j] == if j in theRule[..k] then theState[theRule[j]] else theState[j]
    {
      var i := theRule[k];
      newTheState[i] := theState[theRule[i]];
      assert theRule[..k + 1] == theRule[..k] + [i];
    }
    assert theRule[..24] == theRule;
  }

  /** The `for i in newTheState` loop of `applyRule`: copy the 24 tiles,
      adding a space after every fourth one except the last. */
  method Regroup(newTheState: array<char>) returns (newConfig: string)
    requires newTheState.Length == 24
    ensures newConfig == Grouped(newTheState[..])
  {
    var turned := newTheState[..];
    var forChange := 0;
    newConfig := "";
    for k := 0 to 24
      invariant forChange == k
      invariant newConfig == Spaced(turned[..k])
    {
      forChange := forChange + 1;
      assert turned[..k + 1] == turned[..k] + [turned[k]];
      SpacedSnoc(turned[..k], turned[k]);
      newConfig := newConfig + [newTheState[k]];
      if forChange % 4 == 0 && forChange % 24 != 0 {
        newConfig := newConfig + " ";
      }
    }
    assert turned[..24] == turned;
  }

  /** A turn moves stickers around, so it brings no space or comma in. */
  lemma TurnedValid(t: string, m: Move)
    requires ValidTiles(t)
    ensures ValidTiles(Turn(t, m)) && multiset(Turn(t, m)) == multiset(t)
  {
    TurnKeepsColours(t, m);
    var r := Turn(t, m);
    assert ' ' !in multiset(t) && ',' !in multiset(t);
    assert ' ' !in multiset(r) && ',' !in multiset(r);
  }

  /** `applyRule`: turn the tiles by the table row, rebuild `config` four
      characters at a time, and derive `tiles` from it again. The result
      is the turned cube, still valid, with the same stickers. */
  method ApplyRule(c: Cube, m: Move) returns (r: Cube)
    requires Valid(c)
    ensures r == Applied(c, m)
  {
    var theRule := Table(m);
    TableIsPermutation(m);
    var newState := c;
    var values := Split(c.tiles, ',');
    var theState := JoinPieces(values);
    ConcatSplit(c.tiles, ',');
    RemoveAbsent(c.tiles, ',');
    var newTheState := PermuteInPlace(theState, theRule);
    var turned := newTheState[..];
    assert turned == Turn(c.tiles, m);
    var newConfig := Regroup(newTheState);
    TurnedValid(c.tiles, m);
    RemoveGrouped(turned);
    newState := newState.(config := newConfig);
    newState := newState.(tiles := Remove(newConfig, ' '));
    newState := newState.(rule := Some(m));
    r := newState;
  }

  /** Applying a move and then its inverse gives back the tiles and the
      configuration. */
  lemma ApplyInverseRestores(c: Cube, m: Move)
    requires Valid(c)
    ensures Applied(Applied(c, m), Inverse(m)).tiles == c.tiles
    ensures Applied(Applied(c, m), Inverse(m)).config == c.config
  {
    TurnRoundTrip(c.tiles, m);
  }

  /** The tiles after a sequence of moves, applied left to right. */
  function Replay(t: string, ms: seq<Move>): (r: string)
    requires |t| == 24
    ensures |r| == 24
    decreases |ms|
  {
    if ms == [] then t else Replay(Turn(t, ms[0]), ms[1..])
  }

  /** Every one of the six faces of the tiles shows a single colour. */
  predicate Solved(t: string)
    requires |t| == 24
  {
    forall f :: 0 <= f < 6 ==> t[4 * f] == t[4 * f + 1] == t[4 * f + 2] == t[4 * f + 3]
  }

  /** Face by face, as `goal()` reads them. */
  lemma FacesSolved(t: string)
    requires |t| == 24
    ensures var faces := Chunks(t);
      (forall i :: 0 <= i < |faces| ==> faces[i][0] == faces[i][1] == faces[i][2] == faces[i][3]) <==> Solved(t)
  {
    var faces := Chunks(t);
    forall i | 0 <= i < 6
      ensures faces[i][0] == t[4 * i] && faces[i][1] == t[4 * i + 1]
      ensures faces[i][2] == t[4 * i + 2] && faces[i][3] == t[4 * i + 3]
    {
      assert faces[i] == t[4 * i .. 4 * i + 4];
    }
    assert |faces| == 6;
    if Solved(t) {
      forall i | 0 <= i < |faces|
        ensures faces[i][0] == faces[i][1] == faces[i][2] == faces[i][3]
      {
      }
    }
    if forall i :: 0 <= i < |faces| ==> faces[i][0] == faces[i][1] == faces[i][2] == faces[i][3] {
      forall f | 0 <= f < 6
        ensures t[4 * f] == t[4 * f + 1] == t[4 * f + 2] == t[4 * f + 3]
      {
        assert faces[f][0] == faces[f][1] == faces[f][2] == faces[f][3];
      }
    }
  }

  /** `goal()`: split `config` at the spaces and check that each piece has
      four equal characters. On a valid cube that is exactly "every face is
      one colour". */
  function Goal(c: Cube): (solved: bool)
    requires Valid(c)
    ensures solved == Solved(c.tiles)
  {
    SplitGrouped(c.tiles);
    FacesSolved(c.tiles);
    var faces := Split(c.config, ' ');
    forall i :: 0 <= i < |faces| ==> faces[i][0] == faces[i][1] == faces[i][2] == faces[i][3]
  }

  /** The tiles of a configuration are determined by it: a valid cube
      whose configuration is the grouping of `t` has tiles `t`. */
  lemma TilesOfConfig(c: Cube, t: string)
    requires Valid(c) && ' ' !in t && c.config == Grouped(t)
    ensures c.tiles == t
  {
    RemoveGrouped(t);
    RemoveGrouped(c.tiles);
  }

  // ---------------------------------------------------------------------
  // The two test configurations written out in the program's main block
  // ---------------------------------------------------------------------

  /** Six faces joined by single spaces, as a configuration is written. */
  function JoinFaces(f0: string, f1: string, f2: string, f3: string, f4: string, f5: string): string
  {
    f0 + " " + (f1 + " " + (f2 + " " + (f3 + " " + (f4 + " " + f5))))
  }

  /** Six faces run together, as the tiles are. */
  function RunFaces(f0: string, f1: string, f2: string, f3: string, f4: string, f5: string): string
  {
    f0 + (f1 + (f2 + (f3 + (f4 + f5))))
  }

  /** "WWWW RRRR GGGG YYYY OOOO BBBB", the constructor's default. */
  const DefaultConfig: string := JoinFaces("WWWW", "RRRR", "GGGG", "YYYY", "OOOO", "BBBB")
  /** "GRGR YYYY OGOG BOBO WWWW BRBR", one move R away from solved. */
  const OneMoveConfig: string := JoinFaces("GRGR", "YYYY", "OGOG", "BOBO", "WWWW", "BRBR")

  lemma GroupedCons(f: string, rest: string)
    requires |f| == 4 && |rest| > 0
    ensures Grouped(f + rest) == f + " " + Grouped(rest)
  {
    assert (f + rest)[..4] == f && (f + rest)[4..] == rest;
  }

  /** Grouping valid tiles gives a configuration `Cube(config)` accepts. */
  lemma {:induction false} GroupedWellFormed(t: string, k: nat)
    requires |t| == 4 * k && k > 0 && ' ' !in t && ',' !in t
    ensures GroupsOfFour(Grouped(t), k)
    decreases k
  {
    if k > 1 {
      var g := Grouped(t);
      GroupedWellFormed(t[4..], k - 1);
      assert g[..4] == t[..4] && g[4] == ' ' && g[5..] == Grouped(t[4..]);
    }
  }

  /** A configuration written as six faces: `Cube(config)` accepts it and
      its tiles are the six faces run together. */
  lemma NewCubeOfFaces(f0: string, f1: string, f2: string, f3: string, f4: string, f5: string)
    requires |f0| == |f1| == |f2| == |f3| == |f4| == |f5| == 4
    requires ValidTiles(RunFaces(f0, f1, f2, f3, f4, f5))
    ensures WellFormedConfig(JoinFaces(f0, f1, f2, f3, f4, f5))
    ensures NewCube(JoinFaces(f0, f1, f2, f3, f4, f5)).tiles == RunFaces(f0, f1, f2, f3, f4, f5)
  {
    GroupedCons(f4, f5);
    GroupedCons(f3, f4 + f5);
    GroupedCons(f2, f3 + (f4 + f5));
    GroupedCons(f1, f2 + (f3 + (f4 + f5)));
    GroupedCons(f0, f1 + (f2 + (f3 + (f4 + f5))));
    var t := RunFaces(f0, f1, f2, f3, f4, f5);
    GroupedWellFormed(t, 6);
    TilesOfConfig(NewCube(Grouped(t)), t);
  }

  /** A face shows a single colour. */
  predicate OneColour(face: string)
    requires |face| == 4
  {
    face[0] == face[1] == face[2] == face[3]
  }

  /** Tiles written face by face are solved exactly when each face is. */
  lemma SolvedOfFaces(f0: string, f1: string, f2: string, f3: string, f4: string, f5: string)
    requires |f0| == |f1| == |f2| == |f3| == |f4| == |f5| == 4
    ensures Solved(RunFaces(f0, f1, f2, f3, f4, f5)) <==>
      OneColour(f0) && OneColour(f1) && OneColour(f2) && OneColour(f3) && OneColour(f4) && OneColour(f5)
  {
    var t := RunFaces(f0, f1, f2, f3, f4, f5);
    var faces := [f0, f1, f2, f3, f4, f5];
    forall f | 0 <= f < 6
      ensures OneColour(faces[f]) <==> t[4 * f] == t[4 * f + 1] == t[4 * f + 2] == t[4 * f + 3]
    {
      assert t[4 * f .. 4 * f + 4] == faces[f] by {
        assert t[..4] == f0 && t[4..8] == f1 && t[8..12] == f2;
        assert t[12..16] == f3 && t[16..20] == f4 && t[20..] == f5;
      }
      assert t[4 * f .. 4 * f + 4][1] == t[4 * f + 1];
    }
    assert faces[0] == f0 && faces[1] == f1 && faces[2] == f2 && faces[3] == f3 && faces[4] == f4 && faces[5] == f5;
  }

  /** The default configuration is accepted and stands for these tiles. */
  lemma DefaultTiles()
    ensures WellFormedConfig(DefaultConfig)
    ensures NewCube(DefaultConfig).tiles == RunFaces("WWWW", "RRRR", "GGGG", "YYYY", "OOOO", "BBBB")
  {
    NewCubeOfFaces("WWWW", "RRRR", "GGGG", "YYYY", "OOOO", "BBBB");
  }

  /** The default cube is solved. */
  lemma DefaultIsGoal()
    ensures WellFormedConfig(DefaultConfig)
    ensures Goal(NewCube(DefaultConfig))
  {
    DefaultTiles();
    DefaultTilesSolved();
  }

  lemma DefaultTilesSolved()
    ensures Solved(RunFaces("WWWW", "RRRR", "GGGG", "YYYY", "OOOO", "BBBB"))
  {
    SolvedOfFaces("WWWW", "RRRR", "GGGG", "YYYY", "OOOO", "BBBB");
  }

  /** What R does to the tiles of the cube one move from the goal. */
  lemma TurnROneMove()
    ensures Turn(RunFaces("GRGR", "YYYY", "OGOG", "BOBO", "WWWW", "BRBR"), R) ==
            RunFaces("GGGG", "YYYY", "OOOO", "BBBB", "WWWW", "RRRR")
  {
    assert Table(R) == [0, 9, 2, 11, 6, 4, 7, 5, 8, 13, 10, 15, 12, 22, 14, 20, 16, 17, 18, 19, 3, 21, 1, 23];
  }

  /** The one-move configuration is accepted and stands for these tiles. */
  lemma OneMoveTiles()
    ensures WellFormedConfig(OneMoveConfig)
    ensures NewCube(OneMoveConfig).tiles == RunFaces("GRGR", "YYYY", "OGOG", "BOBO", "WWWW", "BRBR")
  {
    NewCubeOfFaces("GRGR", "YYYY", "OGOG", "BOBO", "WWWW", "BRBR");
  }

  /** The cube one move from the goal is not solved, and the move R
      solves it. */
  lemma OneMoveFromGoal()
    ensures WellFormedConfig(OneMoveConfig)
    ensures !Goal(NewCube(OneMoveConfig))
    ensures Goal(Applied(NewCube(OneMoveConfig), R))
  {
    OneMoveTiles();
    OneMoveTilesUnsolved();
    OneMoveTilesTurned();
  }

  lemma OneMoveTilesUnsolved()
    ensures !Solved(RunFaces("GRGR", "YYYY", "OGOG", "BOBO", "WWWW", "BRBR"))
  {
    SolvedOfFaces("GRGR", "YYYY", "OGOG", "BOBO", "WWWW", "BRBR");
  }

  lemma OneMoveTilesTurned()
    ensures Solved(Turn(RunFaces("GRGR", "YYYY", "OGOG", "BOBO", "WWWW", "BRBR"), R))
  {
    TurnROneMove();
    SolvedOfFaces("GGGG", "YYYY", "OOOO", "BBBB", "WWWW", "RRRR");
  }
}
