/** `GraphSearch` of Rubik_2x2x2.py: best-first search over an OPEN list
    kept sorted by `heuristicVal + depth` and a CLOSED list.

    The nodes the search stores live in `arena`, a sequence indexed by
    creation order; OPEN and CLOSED hold positions in it and a node's
    `parent` is a position too. The root is at position 0. The counters
    `numNodesGen` and `numNodesExpanded` are returned. */
module GraphSearch {
  import opened Rules
  import opened CubeState
  import opened Heuristic

  // ---------------------------------------------------------------------
  // Priorities and the sort that keeps OPEN ordered
  // ---------------------------------------------------------------------

  /** 16 times `heuristicVal + depth`, the sort key of OPEN. */
  function Key(c: Cube): nat
  {
    c.hNum + 16 * c.depth
  }

  /** Ordering by the integer key is ordering by `heuristicVal + depth`
      with `heuristicVal = hNum / 16`. */
  lemma KeyOrder(a: Cube, b: Cube)
    ensures (a.hNum as real / 16.0 + a.depth as real <= b.hNum as real / 16.0 + b.depth as real)
            <==> Key(a) <= Key(b)
  {
    var x := a.hNum as real / 16.0 + a.depth as real;
    var y := b.hNum as real / 16.0 + b.depth as real;
    assert 16.0 * x == Key(a) as real;
    assert 16.0 * y == Key(b) as real;
  }

  predicate InRange(n: nat, l: seq<nat>)
  {
    forall k :: 0 <= k < |l| ==> l[k] < n
  }

  predicate SortedBy(arena: seq<Cube>, l: seq<nat>)
    requires InRange(|arena|, l)
  {
    forall i, j :: 0 <= i < j < |l| ==> Key(arena[l[i]]) <= Key(arena[l[j]])
  }

  /** Where a stable sort puts an element appended to `l`: after every
      element whose key is at most its own, up to the first larger one. */
  function InsertPos(arena: seq<Cube>, l: seq<nat>, x: nat): (p: nat)
    requires InRange(|arena|, l) && x < |arena|
    ensures p <= |l|
    ensures forall i :: 0 <= i < p ==> Key(arena[l[i]]) <= Key(arena[x])
    ensures p < |l| ==> Key(arena[l[p]]) > Key(arena[x])
  {
    if l == [] then 0
    else if Key(arena[l[0]]) <= Key(arena[x]) then 1 + InsertPos(arena, l[1..], x)
    else 0
  }

  /** `OPEN.append(x); OPEN.sort(key=...)` on a sorted OPEN. Python's sort
      is stable, so `x`, being last, lands after every element with an
      equal key. */
  function SortAfterAppend(arena: seq<Cube>, l: seq<nat>, x: nat): (r: seq<nat>)
    requires InRange(|arena|, l) && x < |arena|
    ensures InRange(|arena|, r) && multiset(r) == multiset(l) + multiset{x}
    ensures SortedBy(arena, l) ==> SortedBy(arena, r)
  {
    var p := InsertPos(arena, l, x);
    InsertKeepsSorted(arena, l, x, p);
    l[..p] + [x] + l[p..]
  }

  lemma InsertKeepsSorted(arena: seq<Cube>, l: seq<nat>, x: nat, p: nat)
    requires InRange(|arena|, l) && x < |arena| && p == InsertPos(arena, l, x)
    ensures InRange(|arena|, l[..p] + [x] + l[p..])
    ensures multiset(l[..p] + [x] + l[p..]) == multiset(l) + multiset{x}
    ensures SortedBy(arena, l) ==> SortedBy(arena, l[..p] + [x] + l[p..])
  {
    InsertedAt(l, x, p, l[..p] + [x] + l[p..]);
    SortedInsert(arena, l, x, p, l[..p] + [x] + l[p..]);
  }

  /** `r` is `l` with `x` inserted at `p`, after the keys at most `x`'s and
      before the larger ones: it stays within range, and sorted if `l` is. */
  lemma SortedInsert(arena: seq<Cube>, l: seq<nat>, x: nat, p: nat, r: seq<nat>)
    requires InRange(|arena|, l) && x < |arena| && p <= |l| && |r| == |l| + 1
    requires forall i {:trigger r[i]} :: 0 <= i <= |l| ==> r[i] == if i < p then l[i] else if i == p then x else l[i - 1]
    requires forall i :: 0 <= i < p ==> Key(arena[l[i]]) <= Key(arena[x])
    requires p < |l| ==> Key(arena[l[p]]) > Key(arena[x])
    ensures InRange(|arena|, r)
    ensures SortedBy(arena, l) ==> SortedBy(arena, r)
  {
    forall i | 0 <= i < |r|
      ensures r[i] < |arena|
    {
      if i != p {
        var a := if i < p then i else i - 1;
        assert r[i] == l[a];
      }
    }
    if SortedBy(arena, l) {
      forall i, j | 0 <= i < j < |r|
        ensures Key(arena[r[i]]) <= Key(arena[r[j]])
      {
        var a := if i < p then i else i - 1;
        var b := if j < p then j else j - 1;
        if i == p {
          assert r[i] == x && r[j] == l[b];
          assert Key(arena[l[p]]) <= Key(arena[l[b]]);
        } else if j == p {
          assert r[i] == l[a] && r[j] == x;
        } else {
          assert r[i] == l[a] && r[j] == l[b];
        }
      }
    }
  }

  /** Position by position, `l` with `x` inserted at `p`. */
  lemma InsertedAt(l: seq<nat>, x: nat, p: nat, r: seq<nat>)
    requires p <= |l| && r == l[..p] + [x] + l[p..]
    ensures |r| == |l| + 1 && multiset(r) == multiset(l) + multiset{x}
    ensures forall i {:trigger r[i]} :: 0 <= i <= |l| ==> r[i] == if i < p then l[i] else if i == p then x else l[i - 1]
  {
    assert l == l[..p] + l[p..];
  }

  /** The result is exactly what a stable sort of the sorted list with `x`
      appended gives: sorted, the same elements, the elements with keys at
      most `x`'s first and in their old order, then `x`, then the rest. */
  lemma SortAfterAppendIsStableSort(arena: seq<Cube>, l: seq<nat>, x: nat)
    requires InRange(|arena|, l) && x < |arena| && SortedBy(arena, l)
    ensures var r := SortAfterAppend(arena, l, x); var p := InsertPos(arena, l, x);
      SortedBy(arena, r) && r == l[..p] + [x] + l[p..] &&
      (forall i :: 0 <= i < p ==> Key(arena[l[i]]) <= Key(arena[x])) &&
      (forall i :: p <= i < |l| ==> Key(arena[l[i]]) > Key(arena[x]))
  {
    var p := InsertPos(arena, l, x);
    if p < |l| {
      forall i | p <= i < |l|
        ensures Key(arena[l[i]]) > Key(arena[x])
      {
        assert Key(arena[l[p]]) <= Key(arena[l[i]]);
      }
    }
  }

  // ---------------------------------------------------------------------
  // The store of nodes
  // ---------------------------------------------------------------------

  /** The tiles of all stored nodes: everything in OPEN or CLOSED. */
  function Seen(arena: seq<Cube>): set<string>
  {
    set i | 0 <= i < |arena| :: arena[i].tiles
  }

  /** Node `i` was generated from its parent by its rule, one level
      deeper. */
  predicate Linked(arena: seq<Cube>, i: nat)
    requires i < |arena| && AllValid(arena)
  {
    var n := arena[i];
    n.parent.Some? && n.parent.value < i && n.rule.Some? &&
    n.tiles == Turn(arena[n.parent.value].tiles, n.rule.value) &&
    n.depth == arena[n.parent.value].depth + 1
  }

  /** What the search keeps true of the stored nodes: the root is the start
      (its heuristic aside), every other node is linked to its parent, no
      two nodes have the same tiles, and all are rearrangements of the
      start. */
  ghost predicate Store(start: Cube, arena: seq<Cube>)
  {
    Valid(start) && start.parent.None? && |arena| >= 1 && AllValid(arena) &&
    arena[0] == start.(hNum := arena[0].hNum) &&
    (forall i :: 0 < i < |arena| ==> Linked(arena, i)) &&
    (forall i, j :: 0 <= i < j < |arena| ==> arena[i].tiles != arena[j].tiles) &&
    (forall i :: 0 <= i < |arena| ==> multiset(arena[i].tiles) == multiset(start.tiles))
  }

  /** Every node but the root carries `retryManhattan` of its tiles. */
  ghost predicate Scored(arena: seq<Cube>)
  {
    forall i :: 0 < i < |arena| ==> |arena[i].tiles| == 24 && arena[i].hNum == HNum(arena[i].tiles)
  }

  /** OPEN and CLOSED together hold every stored node exactly once, and
      OPEN is sorted by key. */
  ghost predicate Lists(arena: seq<Cube>, open: seq<nat>, closed: seq<nat>)
  {
    InRange(|arena|, open) && InRange(|arena|, closed) &&
    (forall v: nat :: multiset(open + closed)[v] == if v < |arena| then 1 else 0) &&
    SortedBy(arena, open)
  }

  /** A closed node: not a goal, and each of its successors is among the
      stored tiles `seen`. */
  ghost predicate ExpandedIn(seen: set<string>, t: string)
  {
    |t| == 24 && !Solved(t) && forall m :: Turn(t, m) in seen
  }

  /** `sp in OPEN` (by `__eq__`). */
  predicate InList(arena: seq<Cube>, l: seq<nat>, c: Cube)
    requires InRange(|arena|, l)
  {
    exists k :: 0 <= k < |l| && Eq(arena[l[k]], c)
  }

  /** For valid cubes, "in OPEN or in CLOSED" is "its tiles are stored". */
  lemma InListsIffSeen(arena: seq<Cube>, open: seq<nat>, closed: seq<nat>, c: Cube)
    requires AllValid(arena) && Lists(arena, open, closed) && Valid(c)
    ensures InList(arena, open, c) || InList(arena, closed, c) <==> c.tiles in Seen(arena)
  {
    if c.tiles in Seen(arena) {
      var i :| 0 <= i < |arena| && arena[i].tiles == c.tiles;
      assert multiset(open + closed)[i] == 1;
      assert i in open + closed;
      var k :| 0 <= k < |open + closed| && (open + closed)[k] == i;
      if k < |open| {
        assert open[k] == i && Eq(arena[open[k]], c);
      } else {
        assert closed[k - |open|] == i && Eq(arena[closed[k - |open|]], c);
      }
    }
    if InList(arena, open, c) {
      var k :| 0 <= k < |open| && Eq(arena[open[k]], c);
      EqIffSameTiles(arena[open[k]], c);
    }
    if InList(arena, closed, c) {
      var k :| 0 <= k < |closed| && Eq(arena[closed[k]], c);
      EqIffSameTiles(arena[closed[k]], c);
    }
  }

  // ---------------------------------------------------------------------
  // Keeping the store and the lists
  // ---------------------------------------------------------------------

  lemma SortedExtend(arena: seq<Cube>, l: seq<nat>, c: Cube)
    requires InRange(|arena|, l) && SortedBy(arena, l)
    ensures InRange(|arena| + 1, l) && SortedBy(arena + [c], l)
  {
    forall i, j | 0 <= i < j < |l|
      ensures Key((arena + [c])[l[i]]) <= Key((arena + [c])[l[j]])
    {
      assert (arena + [c])[l[i]] == arena[l[i]] && (arena + [c])[l[j]] == arena[l[j]];
    }
  }

  predicate SameTiles(a: seq<Cube>, b: seq<Cube>)
  {
    |a| == |b| && forall i :: 0 <= i < |a| ==> a[i].tiles == b[i].tiles
  }

  lemma SeenSameTiles(a: seq<Cube>, b: seq<Cube>)
    requires SameTiles(a, b)
    ensures Seen(a) == Seen(b)
  {
    forall t | t in Seen(a)
      ensures t in Seen(b)
    {
      var i :| 0 <= i < |a| && a[i].tiles == t;
    }
    forall t | t in Seen(b)
      ensures t in Seen(a)
    {
      var i :| 0 <= i < |b| && b[i].tiles == t;
    }
  }

  lemma SeenAppend(arena: seq<Cube>, c: Cube)
    ensures Seen(arena + [c]) == Seen(arena) + {c.tiles}
  {
    var a := arena + [c];
    forall t | t in Seen(a)
      ensures t in Seen(arena) + {c.tiles}
    {
      var i :| 0 <= i < |a| && a[i].tiles == t;
      if i < |arena| {
        assert arena[i].tiles == t;
      }
    }
    forall t | t in Seen(arena)
      ensures t in Seen(a)
    {
      var i :| 0 <= i < |arena| && arena[i].tiles == t;
      assert a[i].tiles == t;
    }
    assert a[|arena|].tiles == c.tiles;
  }

  /** Closing the head of OPEN keeps every stored node in exactly one list
      and OPEN sorted, whatever the head's new heuristic. */
  lemma PopLists(arena: seq<Cube>, open: seq<nat>, closed: seq<nat>, c: Cube)
    requires Lists(arena, open, closed) && open != []
    ensures Lists(arena[open[0] := c], open[1..], closed + [open[0]])
  {
    var s := open[0];
    var a := arena[s := c];
    var rest := open[1..];
    assert open == [s] + rest;
    assert multiset(rest + (closed + [s])) == multiset(open + closed) by {
      calc {
        multiset(rest + (closed + [s]));
        multiset(rest) + multiset(closed) + multiset{s};
        multiset([s] + rest) + multiset(closed);
      }
    }
    HeadOnce(open, closed);
    forall i, j | 0 <= i < j < |rest|
      ensures Key(a[rest[i]]) <= Key(a[rest[j]])
    {
      assert rest[i] == open[i + 1] && rest[j] == open[j + 1];
      assert a[rest[i]] == arena[rest[i]] && a[rest[j]] == arena[rest[j]];
    }
  }

  /** An element listed once in OPEN and CLOSED together is not repeated
      after the head of OPEN. */
  lemma HeadOnce(open: seq<nat>, closed: seq<nat>)
    requires open != [] && multiset(open + closed)[open[0]] == 1
    ensures forall k :: 1 <= k < |open| ==> open[k] != open[0]
  {
    var s := open[0];
    assert open + closed == [s] + (open[1..] + closed);
    assert multiset(open[1..] + closed)[s] == 0;
    forall k | 1 <= k < |open|
      ensures open[k] != s
    {
      assert open[k] == (open[1..] + closed)[k - 1];
    }
  }

  /** Recording a heuristic on node `s` keeps the store, and keeps every
      node scored when `s` is the root or the value is its heuristic. */
  lemma PopStore(start: Cube, arena: seq<Cube>, s: nat, h: nat)
    requires Store(start, arena) && Scored(arena) && s < |arena|
    requires s > 0 ==> h == HNum(arena[s].tiles)
    ensures var a := arena[s := arena[s].(hNum := h)];
      Store(start, a) && Scored(a) && SameTiles(arena, a) &&
      a[0].hNum == if s == 0 then h else arena[0].hNum
  {
    var a := arena[s := arena[s].(hNum := h)];
    forall i | 0 < i < |a|
      ensures Linked(a, i)
    {
      assert Linked(arena, i);
    }
  }

  /** Appending a node and inserting its position into OPEN keeps every
      stored node in exactly one list and OPEN sorted. */
  lemma AddLists(arena: seq<Cube>, open: seq<nat>, closed: seq<nat>, c: Cube)
    requires Lists(arena, open, closed)
    ensures InRange(|arena| + 1, open)
    ensures Lists(arena + [c], SortAfterAppend(arena + [c], open, |arena|), closed)
  {
    var a := arena + [c];
    var n := |arena|;
    SortedExtend(arena, open, c);
    var r := SortAfterAppend(a, open, n);
    forall v: nat
      ensures multiset(r + closed)[v] == if v < |a| then 1 else 0
    {
      assert multiset(r + closed) == multiset(open + closed) + multiset{n};
    }
  }

  /** Storing a node generated from node `s` by move `m`, scored, linked to
      `s` one level deeper and new to the store, keeps the store. */
  lemma AddStore(start: Cube, arena: seq<Cube>, s: nat, m: Move, child: Cube)
    requires Store(start, arena) && s < |arena|
    requires child == Applied(arena[s], m).(hNum := child.hNum,
                                            parent := Some(s), depth := arena[s].depth + 1)
    requires child.tiles !in Seen(arena)
    ensures Store(start, arena + [child])
  {
    var a := arena + [child];
    var n := |arena|;
    forall i | 0 <= i < n
      ensures a[i].tiles != child.tiles
    {
      assert arena[i].tiles in Seen(arena);
    }
    assert Linked(a, n);
    forall i | 0 < i < n
      ensures Linked(a, i)
    {
      assert Linked(arena, i);
    }
  }

  /** Successors stay among the seen tiles as the store grows. */
  lemma ExpandedGrows(seen: set<string>, seen': set<string>, t: string)
    requires seen <= seen' && ExpandedIn(seen, t)
    ensures ExpandedIn(seen', t)
  {
  }

  // ---------------------------------------------------------------------
  // Successors, and the error of the relaxation at the root
  // ---------------------------------------------------------------------

  /** The tiles reached by each move, in `applicableRules` order. */
  function Successors(t: string): (succ: seq<string>)
    requires |t| == 24
    ensures |succ| == 12
  {
    seq(12, j requires 0 <= j < 12 => Turn(t, AllMoves[j]))
  }

  /** Expanding a node with tiles `t` meets a successor that is among `seen`
      or repeats an earlier successor. */
  ghost predicate Clashes(seen: set<string>, t: string)
    requires |t| == 24
  {
    exists j :: 0 <= j < 12 && (Successors(t)[j] in seen || Successors(t)[j] in Successors(t)[..j])
  }

  /** At the first expansion only the start is stored: some move gives the
      start back, or two moves give the same tiles. */
  ghost predicate FirstExpansionClashes(t: string)
    requires |t| == 24
  {
    Clashes({t}, t)
  }

  /** The depth loops of the CLOSED branch: each node of `l` whose parent
      equals `sp` gets its parent's depth plus one. A stored node's depth
      already is that, so the loops change nothing. */
  method Repropagate(ghost start: Cube, arena: seq<Cube>, l: seq<nat>, sp: Cube)
    returns (arena': seq<Cube>)
    requires Store(start, arena) && InRange(|arena|, l)
    ensures arena' == arena
  {
    arena' := arena;
    for k := 0 to |l|
      invariant arena' == arena
    {
      var a := l[k];
      if arena'[a].parent.Some? {
        assert a > 0 && Linked(arena', a);
        var p := arena'[a].parent.value;
        if Eq(arena'[p], sp) {
          arena' := arena'[a := arena'[a].(depth := arena'[p].depth + 1)];
        }
      }
    }
  }

  /** One turn of `for r in s.applicableRules()` over node `s`, already
      closed. A successor in neither OPEN nor CLOSED is scored, linked to
      `s` one level deeper, stored and inserted into OPEN. One already there
      gets `min(s, sp.parent, key=depth)` as its parent; `sp` is a copy of
      `s`, so `sp.parent` is `s`'s parent, and at the root that is `None`,
      whose `depth` cannot be read: `failed` reports that error. Otherwise
      the new parent and depth go to the copy `sp`, which no list holds. */
  method TryRule(ghost start: Cube, arena: seq<Cube>, open: seq<nat>, closed: seq<nat>,
                 s: nat, r: Move)
    returns (arena': seq<Cube>, open': seq<nat>, added: bool, failed: bool)
    requires Store(start, arena) && Scored(arena) && Lists(arena, open, closed) && s < |arena|
    ensures Store(start, arena') && Scored(arena') && Lists(arena', open', closed)
    ensures added <==> Turn(arena[s].tiles, r) !in Seen(arena)
    ensures failed <==> !added && arena[s].parent.None?
    ensures !added ==> arena' == arena && open' == open
    ensures added ==> |arena'| == |arena| + 1 && arena'[..|arena|] == arena &&
                      Seen(arena') == Seen(arena) + {Turn(arena[s].tiles, r)}
  {
    var sp := ApplyRule(arena[s], r);
    InListsIffSeen(arena, open, closed, sp);
    arena', open', added, failed := arena, open, false, false;
    if !(InList(arena, open, sp) || InList(arena, closed, sp)) {
      var h := RetryManhattan(sp);
      var child := sp.(hNum := h, parent := Some(s), depth := arena[s].depth + 1);
      AddStore(start, arena, s, r, child);
      assert Scored(arena + [child]);
      AddLists(arena, open, closed, child);
      SeenAppend(arena, child);
      arena' := arena + [child];
      open' := SortAfterAppend(arena', open, |arena|);
      added := true;
    } else if InList(arena, open, sp) {
      failed := sp.parent.None?;
    } else {
      failed := sp.parent.None?;
      if !failed {
        arena' := Repropagate(start, arena', open, sp);
        arena' := Repropagate(start, arena', closed, sp);
      }
    }
  }

  /** The loop `for r in s.applicableRules()` over node `s`, already
      closed: afterwards every successor of `s` is stored, unless the
      relaxation failed at the root, which happens exactly when a successor
      was already stored or repeats an earlier one. */
  method Expand(ghost start: Cube, arena: seq<Cube>, open: seq<nat>, closed: seq<nat>, s: nat)
    returns (arena': seq<Cube>, open': seq<nat>, generated: nat, failed: bool)
    requires Store(start, arena) && Scored(arena) && Lists(arena, open, closed) && s < |arena|
    ensures Store(start, arena') && Scored(arena') && Lists(arena', open', closed)
    ensures |arena| <= |arena'| && arena'[..|arena|] == arena && generated == |arena'| - |arena|
    ensures |arena'| == |arena| ==> open' == open
    ensures failed <==> arena[s].parent.None? && Clashes(Seen(arena), arena[s].tiles)
    ensures !failed ==> forall m :: Turn(arena[s].tiles, m) in Seen(arena')
  {
    ghost var succ := Successors(arena[s].tiles);
    var rules := ApplicableRules(arena[s]);
    assert rules == AllMoves;
    arena', open', generated, failed := arena, open, 0, false;
    var j := 0;
    while j < |rules|
      invariant j <= 12 && !failed
      invariant Store(start, arena') && Scored(arena') && Lists(arena', open', closed)
      invariant |arena| <= |arena'| && arena'[..|arena|] == arena && generated == |arena'| - |arena|
      invariant |arena'| == |arena| ==> open' == open
      invariant SeenSoFar(arena, s, Seen(arena'), j)
    {
      assert arena'[s] == arena[s];
      ghost var before := arena';
      var added;
      arena', open', added, failed := TryRule(start, arena', open', closed, s, rules[j]);
      if failed {
        ClashAt(arena, s, Seen(before), j);
        break;
      }
      if added {
        generated := generated + 1;
      }
      NextSeen(arena, s, Seen(before), Seen(arena'), j);
      j := j + 1;
    }
    if !failed {
      AllSeen(arena, s, Seen(arena'));
    }
  }

  /** After `j` turns of the expansion of `s` the seen tiles are those seen
      before it and the first `j` successors; at the root, none of those
      successors clashed. */
  ghost predicate SeenSoFar(arena: seq<Cube>, s: nat, seen: set<string>, j: nat)
    requires s < |arena| && AllValid(arena) && j <= 12
  {
    var succ := Successors(arena[s].tiles);
    seen == Seen(arena) + (set i | 0 <= i < j :: succ[i]) &&
    (arena[s].parent.None? ==> forall i :: 0 <= i < j ==> succ[i] !in Seen(arena) && succ[i] !in succ[..i])
  }

  /** The turn by move `j` extends the seen tiles by successor `j`. */
  lemma NextSeen(arena: seq<Cube>, s: nat, before: set<string>, after: set<string>, j: nat)
    requires s < |arena| && AllValid(arena) && j < 12 && SeenSoFar(arena, s, before, j)
    requires if Turn(arena[s].tiles, AllMoves[j]) in before then after == before && arena[s].parent.Some?
             else after == before + {Turn(arena[s].tiles, AllMoves[j])}
    ensures SeenSoFar(arena, s, after, j + 1)
  {
    var succ := Successors(arena[s].tiles);
    assert succ[j] == Turn(arena[s].tiles, AllMoves[j]);
    assert (set i | 0 <= i < j + 1 :: succ[i]) == (set i | 0 <= i < j :: succ[i]) + {succ[j]};
  }

  /** After all twelve turns every successor is seen, and at the root
      nothing clashed. */
  lemma AllSeen(arena: seq<Cube>, s: nat, seen: set<string>)
    requires s < |arena| && AllValid(arena) && SeenSoFar(arena, s, seen, 12)
    ensures forall m :: Turn(arena[s].tiles, m) in seen
    ensures arena[s].parent.None? ==> !Clashes(Seen(arena), arena[s].tiles)
  {
    var succ := Successors(arena[s].tiles);
    forall m
      ensures Turn(arena[s].tiles, m) in seen
    {
      assert Turn(arena[s].tiles, m) == succ[MoveIndex(m)];
    }
  }

  /** A successor already seen during the expansion of `s` is a clash. */
  lemma ClashAt(arena: seq<Cube>, s: nat, before: set<string>, j: nat)
    requires s < |arena| && j < 12 && AllValid(arena) && SeenSoFar(arena, s, before, j)
    requires Turn(arena[s].tiles, AllMoves[j]) in before
    ensures Clashes(Seen(arena), arena[s].tiles)
  {
    var succ := Successors(arena[s].tiles);
    assert succ[j] == Turn(arena[s].tiles, AllMoves[j]);
    if succ[j] !in Seen(arena) {
      var i :| 0 <= i < j && succ[i] == succ[j];
      assert succ[..j][i] == succ[j];
    }
  }

  // ---------------------------------------------------------------------
  // Termination: the stored tiles lie in a finite set
  // ---------------------------------------------------------------------

  /** Every string of length `n` over the letters in `a`. */
  ghost function Words(a: set<char>, n: nat): set<string>
  {
    if n == 0 then {""} else set w, c | w in Words(a, n - 1) && c in a :: [c] + w
  }

  ghost function Letters(t: string): set<char>
  {
    set i | 0 <= i < |t| :: t[i]
  }

  lemma {:induction false} InWords(a: set<char>, t: string)
    requires forall i :: 0 <= i < |t| ==> t[i] in a
    ensures t in Words(a, |t|)
  {
    if |t| > 0 {
      forall i | 0 <= i < |t| - 1
        ensures t[1..][i] in a
      {
        assert t[1..][i] == t[i + 1];
      }
      InWords(a, t[1..]);
      assert t == [t[0]] + t[1..];
    }
  }

  /** The stored tiles are strings of 24 of the start's colours. */
  lemma SeenInUniverse(start: Cube, arena: seq<Cube>)
    requires Store(start, arena)
    ensures Seen(arena) <= Words(Letters(start.tiles), 24)
  {
    forall t | t in Seen(arena)
      ensures t in Words(Letters(start.tiles), 24)
    {
      var i :| 0 <= i < |arena| && arena[i].tiles == t;
      forall k | 0 <= k < |t|
        ensures t[k] in Letters(start.tiles)
      {
        assert t[k] in multiset(t);
        assert t[k] in multiset(start.tiles);
        var q :| 0 <= q < |start.tiles| && start.tiles[q] == t[k];
      }
      InWords(Letters(start.tiles), t);
    }
  }

  lemma SeenPrefix(a: seq<Cube>, b: seq<Cube>)
    requires |a| <= |b| && b[..|a|] == a
    ensures Seen(a) <= Seen(b)
  {
    forall t | t in Seen(a)
      ensures t in Seen(b)
    {
      var i :| 0 <= i < |a| && a[i].tiles == t;
      assert b[i] == a[i];
    }
  }

  /** A longer store has strictly more tiles, its tiles being distinct. */
  lemma Grows(start: Cube, a: seq<Cube>, b: seq<Cube>)
    requires Store(start, b) && |a| < |b| && b[..|a|] == a
    ensures Seen(a) < Seen(b)
  {
    var n := |a|;
    SeenPrefix(a, b);
    assert b[n].tiles in Seen(b);
  }

  lemma Shrinks(u: set<string>, a: set<string>, b: set<string>)
    requires a < b <= u
    ensures u - b < u - a
  {
    var x :| x in b && x !in a;
    assert x in u - a && x !in u - b;
  }

  // ---------------------------------------------------------------------
  // Exhausting OPEN
  // ---------------------------------------------------------------------

  /** Moves from tiles in a set closed under every move stay in it. */
  lemma {:induction false} ReplayStays(seen: set<string>, t: string, ms: seq<Move>)
    requires |t| == 24 && t in seen
    requires forall u :: u in seen ==> ExpandedIn(seen, u)
    ensures Replay(t, ms) in seen
    decreases |ms|
  {
    if ms != [] {
      ReplayStays(seen, Turn(t, ms[0]), ms[1..]);
    }
  }

  /** When every stored node has been expanded, no sequence of moves solves
      the start. */
  lemma NoSolution(start: Cube, arena: seq<Cube>)
    requires Store(start, arena)
    requires forall i :: 0 <= i < |arena| ==> ExpandedIn(Seen(arena), arena[i].tiles)
    ensures forall ms :: !Solved(Replay(start.tiles, ms))
  {
    var seen := Seen(arena);
    forall u | u in seen
      ensures ExpandedIn(seen, u)
    {
      var i :| 0 <= i < |arena| && arena[i].tiles == u;
    }
    assert arena[0].tiles == start.tiles;
    forall ms
      ensures !Solved(Replay(start.tiles, ms))
    {
      ReplayStays(seen, start.tiles, ms);
    }
  }

  // ---------------------------------------------------------------------
  // The path
  // ---------------------------------------------------------------------

  /** Each cube after the first is its predecessor turned by its rule, one
      level deeper. */
  predicate IsPath(path: seq<Cube>)
  {
    (forall k :: 0 <= k < |path| ==> Valid(path[k])) &&
    forall k :: 0 < k < |path| ==>
      path[k].rule.Some? && path[k].tiles == Turn(path[k - 1].tiles, path[k].rule.value) &&
      path[k].depth == path[k - 1].depth + 1
  }

  lemma PathTail(path: seq<Cube>)
    requires IsPath(path) && |path| >= 1
    ensures IsPath(path[1..])
  {
    forall k | 0 < k < |path| - 1
      ensures path[1..][k].tiles == Turn(path[1..][k - 1].tiles, path[1..][k].rule.value)
    {
      assert path[1..][k] == path[k + 1] && path[1..][k - 1] == path[k];
    }
  }

  /** A path extended at its front by the node its first node was turned
      from. */
  lemma PathCons(c: Cube, path: seq<Cube>)
    requires Valid(c) && IsPath(path) && |path| >= 1
    requires path[0].rule.Some? && path[0].tiles == Turn(c.tiles, path[0].rule.value)
    requires path[0].depth == c.depth + 1
    requires forall k :: 0 < k < |path| ==> path[k].hNum == HNum(path[k].tiles)
    requires |path[0].tiles| == 24 && path[0].hNum == HNum(path[0].tiles)
    ensures IsPath([c] + path) && ([c] + path)[|path|] == path[|path| - 1]
    ensures forall k :: 0 < k < |path| + 1 ==> ([c] + path)[k].hNum == HNum(([c] + path)[k].tiles)
  {
    var q := [c] + path;
    forall k | 0 < k < |q|
      ensures q[k].rule.Some? && q[k].tiles == Turn(q[k - 1].tiles, q[k].rule.value)
      ensures q[k].depth == q[k - 1].depth + 1 && q[k].hNum == HNum(q[k].tiles)
    {
      assert q[k] == path[k - 1];
    }
  }

  /** The rules along a path, the root's left out. */
  function Moves(path: seq<Cube>): (ms: seq<Move>)
    requires IsPath(path)
    ensures |ms| == if path == [] then 0 else |path| - 1
  {
    if |path| <= 1 then []
    else
      PathTail(path);
      [path[1].rule.value] + Moves(path[1..])
  }

  /** Replaying the rules of a path from its first tiles reaches its last
      tiles. */
  lemma {:induction false} PathReplays(path: seq<Cube>)
    requires IsPath(path) && |path| >= 1
    ensures Replay(path[0].tiles, Moves(path)) == path[|path| - 1].tiles
  {
    if |path| > 1 {
      PathTail(path);
      PathReplays(path[1..]);
      var ms := Moves(path);
      assert ms[0] == path[1].rule.value && ms[1..] == Moves(path[1..]);
    }
  }

  /** `path = [s]; while path[0] != start: path.insert(0, path[0].parent)`:
      the chain of parents from node `s` back to the root. */
  method Reconstruct(start: Cube, arena: seq<Cube>, s: nat) returns (path: seq<Cube>)
    requires Store(start, arena) && Scored(arena) && s < |arena|
    ensures |path| >= 1 && IsPath(path) && path[0] == arena[0] && path[|path| - 1] == arena[s]
    ensures arena[s].depth == arena[0].depth + |path| - 1
    ensures forall k :: 0 < k < |path| ==> path[k].hNum == HNum(path[k].tiles)
    ensures s == 0 ==> path == [arena[0]]
  {
    path := [arena[s]];
    var cur := s;
    EqIffSameTiles(arena[0], start);
    while !Eq(path[0], start)
      invariant |path| >= 1 && cur < |arena| && path[0] == arena[cur]
      invariant IsPath(path) && path[|path| - 1] == arena[s]
      invariant arena[s].depth == path[0].depth + |path| - 1
      invariant forall k :: 0 < k < |path| ==> path[k].hNum == HNum(path[k].tiles)
      invariant s == 0 ==> path == [arena[0]]
      decreases cur
    {
      assert cur != 0 && Linked(arena, cur);
      var p := path[0].parent.value;
      PathCons(arena[p], path);
      cur, path := p, [arena[p]] + path;
    }
    EqIffSameTiles(arena[cur], start);
  }

  // ---------------------------------------------------------------------
  // The search
  // ---------------------------------------------------------------------

  /** How `GraphSearch` ends: with the path to the first goal it closes; or
      with an AttributeError when the relaxation at the root reads the
      depth of its missing parent; or with an UnboundLocalError when OPEN
      runs empty before a goal and `path` was never assigned. */
  datatype Outcome = Found(path: seq<Cube>) | ParentMissing | PathUnbound

  /** The strings the stored tiles are drawn from, fixed by the start. */
  ghost function Universe(start: Cube): set<string>
  {
    Words(Letters(start.tiles), 24)
  }

  /** What holds at the head of the search loop, `s` being the node closed
      last: the store and the lists are kept, every closed node has been
      expanded, nothing has happened before the first pop, and after it the
      root carries its heuristic, is no goal and its expansion went through. */
  ghost predicate Searching(start: Cube, arena: seq<Cube>, open: seq<nat>, closed: seq<nat>, s: nat)
  {
    Store(start, arena) && Scored(arena) && Lists(arena, open, closed) && s < |arena| &&
    (forall k :: 0 <= k < |closed| ==> ExpandedIn(Seen(arena), arena[closed[k]].tiles)) &&
    (closed == [] ==> open == [0] && arena == [start]) &&
    (closed != [] ==>
      closed[0] == 0 && s == closed[|closed| - 1] && arena[0].hNum == HNum(start.tiles) &&
      !Solved(start.tiles) && !FirstExpansionClashes(start.tiles))
  }

  lemma StartSearching(start: Cube)
    requires Valid(start) && start.parent.None?
    ensures Searching(start, [start], [0], [], 0)
  {
    assert [0] + [] == [0];
    assert multiset([0] + []) == multiset{0};
    forall v: nat
      ensures multiset([0] + [])[v] == if v < 1 then 1 else 0
    {
    }
  }

  /** What popping leaves: OPEN's head `s` scored and moved to CLOSED. It is
      the root exactly at the first pop. */
  ghost predicate Popped(start: Cube, arena: seq<Cube>, open: seq<nat>, closed: seq<nat>,
                         arena': seq<Cube>, open': seq<nat>, closed': seq<nat>, s: nat)
  {
    open != [] && s == open[0] && open' == open[1..] && closed' == closed + [s] &&
    Store(start, arena') && Scored(arena') && Lists(arena', open', closed') &&
    SameTiles(arena, arena') && Seen(arena') == Seen(arena) && s < |arena'| &&
    (closed == [] <==> s == 0) && arena'[0] == start.(hNum := HNum(start.tiles)) &&
    (closed == [] ==> arena' == [arena'[0]] && open' == [])
  }

  /** `s = OPEN[0]; s.heuristicVal = retryManhattan(s); OPEN.pop(0);
      CLOSED.append(s)`. */
  method Pop(ghost start: Cube, arena: seq<Cube>, open: seq<nat>, closed: seq<nat>, ghost last: nat)
    returns (arena': seq<Cube>, open': seq<nat>, closed': seq<nat>, s: nat)
    requires Searching(start, arena, open, closed, last) && open != []
    ensures Popped(start, arena, open, closed, arena', open', closed', s)
  {
    s := open[0];
    if closed != [] {
      HeadOnce(open, closed);
      assert multiset(open + closed)[0] == 1 && 0 in closed;
      assert s != 0;
    }
    var h := RetryManhattan(arena[s]);
    PopStore(start, arena, s, h);
    PopLists(arena, open, closed, arena[s].(hNum := h));
    SeenSameTiles(arena, arena[s := arena[s].(hNum := h)]);
    arena' := arena[s := arena[s].(hNum := h)];
    open' := open[1..];
    closed' := closed + [s];
  }

  /** The search stopped at a goal node `s`. */
  ghost predicate Done(start: Cube, arena: seq<Cube>, s: nat)
  {
    Store(start, arena) && Scored(arena) && s < |arena| && Solved(arena[s].tiles) &&
    arena[0] == start.(hNum := HNum(start.tiles))
  }

  /** Closing a goal ends the search; at the first pop that means the start
      was solved. */
  lemma GoalReached(start: Cube, arena: seq<Cube>, open: seq<nat>, closed: seq<nat>, last: nat,
                    arena': seq<Cube>, open': seq<nat>, closed': seq<nat>, s: nat)
    requires Searching(start, arena, open, closed, last)
    requires Popped(start, arena, open, closed, arena', open', closed', s)
    requires Solved(arena'[s].tiles)
    ensures Done(start, arena', s)
    ensures Solved(start.tiles) || !FirstExpansionClashes(start.tiles)
    ensures Solved(start.tiles) ==> closed == [] && s == 0 && arena' == [start.(hNum := 0)]
  {
    if closed == [] {
      assert arena'[0].tiles == start.tiles;
    }
  }

  /** The expansion fails only at the first one, exactly when the start's
      successors clash. */
  lemma RootFailure(start: Cube, arena: seq<Cube>, open: seq<nat>, closed: seq<nat>, last: nat,
                    arena': seq<Cube>, open': seq<nat>, closed': seq<nat>, s: nat)
    requires Searching(start, arena, open, closed, last)
    requires Popped(start, arena, open, closed, arena', open', closed', s)
    requires !Solved(arena'[s].tiles)
    ensures arena'[s].parent.None? && Clashes(Seen(arena'), arena'[s].tiles) <==>
            closed == [] && FirstExpansionClashes(start.tiles)
    ensures closed == [] ==> !Solved(start.tiles)
  {
    if closed == [] {
      assert arena'[0].tiles == start.tiles && Seen(arena') == Seen([start]);
      SeenAppend([], start);
      assert [] + [start] == [start];
    } else {
      assert Linked(arena', s);
    }
  }

  /** After an expansion that went through, the loop's invariant holds again
      and the search made progress: more tiles are stored, or as many and
      OPEN is shorter. */
  lemma AfterExpand(start: Cube, arena: seq<Cube>, open: seq<nat>, closed: seq<nat>, last: nat,
                    popped: seq<Cube>, open': seq<nat>, closed': seq<nat>, s: nat,
                    arena'': seq<Cube>, open'': seq<nat>)
    requires Searching(start, arena, open, closed, last)
    requires Popped(start, arena, open, closed, popped, open', closed', s)
    requires !Solved(popped[s].tiles)
    requires closed == [] ==> !FirstExpansionClashes(start.tiles)
    requires Store(start, arena'') && Scored(arena'') && Lists(arena'', open'', closed')
    requires |popped| <= |arena''| && arena''[..|popped|] == popped
    requires |arena''| == |popped| ==> open'' == open'
    requires forall m :: Turn(popped[s].tiles, m) in Seen(arena'')
    ensures Searching(start, arena'', open'', closed', s)
    ensures Universe(start) - Seen(arena'') < Universe(start) - Seen(arena) ||
            (Universe(start) - Seen(arena'') == Universe(start) - Seen(arena) && |open''| < |open|)
  {
    Progress(start, popped, arena'');
    SeenPrefix(popped, arena'');
    if |arena''| == |popped| {
      assert arena'' == popped;
    }
    ClosedExpanded(arena, popped, arena'', closed, s);
  }

  /** Storing nodes takes tiles out of the universe; storing none leaves it. */
  lemma Progress(start: Cube, a: seq<Cube>, b: seq<Cube>)
    requires Store(start, b) && |a| <= |b| && b[..|a|] == a
    ensures Universe(start) - Seen(b) <= Universe(start) - Seen(a)
    ensures |a| < |b| ==> Universe(start) - Seen(b) < Universe(start) - Seen(a)
  {
    SeenPrefix(a, b);
    SeenInUniverse(start, b);
    if |a| < |b| {
      Grows(start, a, b);
      Shrinks(Universe(start), Seen(a), Seen(b));
    }
  }

  /** The nodes closed before stay expanded as the store grows, and so is
      the node `s` closed now once all its successors are stored. */
  lemma ClosedExpanded(arena: seq<Cube>, popped: seq<Cube>, arena'': seq<Cube>, closed: seq<nat>, s: nat)
    requires InRange(|arena|, closed) && SameTiles(arena, popped)
    requires forall k :: 0 <= k < |closed| ==> ExpandedIn(Seen(arena), arena[closed[k]].tiles)
    requires |popped| <= |arena''| && arena''[..|popped|] == popped && s < |popped|
    requires Seen(arena) <= Seen(arena'')
    requires ExpandedIn(Seen(arena''), popped[s].tiles)
    ensures forall k :: 0 <= k < |closed + [s]| ==> ExpandedIn(Seen(arena''), arena''[(closed + [s])[k]].tiles)
  {
    forall k | 0 <= k < |closed + [s]|
      ensures ExpandedIn(Seen(arena''), arena''[(closed + [s])[k]].tiles)
    {
      var i := (closed + [s])[k];
      assert arena''[i] == popped[i];
      if k < |closed| {
        assert i == closed[k];
        ExpandedGrows(Seen(arena), Seen(arena''), arena[i].tiles);
      }
    }
  }

  /** When OPEN runs empty every stored node has been closed and expanded,
      so the last one closed is no goal and no moves solve the start. */
  lemma Exhausted(start: Cube, arena: seq<Cube>, closed: seq<nat>, s: nat)
    requires Searching(start, arena, [], closed, s)
    ensures !Solved(arena[s].tiles) && |closed| == |arena|
    ensures forall ms :: !Solved(Replay(start.tiles, ms))
  {
    forall i | 0 <= i < |arena|
      ensures ExpandedIn(Seen(arena), arena[i].tiles)
    {
      assert multiset([] + closed)[i] == 1;
      assert [] + closed == closed;
      var k :| 0 <= k < |closed| && closed[k] == i;
    }
    NoSolution(start, arena);
    assert forall v: nat :: multiset(closed)[v] == if v < |arena| then 1 else 0 by {
      assert [] + closed == closed;
    }
    CountedLength(closed, |arena|);
  }

  /** A list holding each of `0 .. n-1` once and nothing else has length `n`. */
  lemma CountedLength(l: seq<nat>, n: nat)
    requires forall v: nat :: multiset(l)[v] == if v < n then 1 else 0
    ensures |l| == n
  {
    var m := multiset(l);
    assert m == multiset(Upto(n)) by {
      UptoOnce(n);
    }
    assert |multiset(Upto(n))| == n;
  }

  /** The list `0 .. n-1`. */
  function Upto(n: nat): (l: seq<nat>)
    ensures |l| == n
  {
    if n == 0 then [] else Upto(n - 1) + [n - 1]
  }

  lemma {:induction false} UptoOnce(n: nat)
    ensures forall v: nat :: multiset(Upto(n))[v] == if v < n then 1 else 0
  {
    if n > 0 {
      UptoOnce(n - 1);
      var last: nat := n - 1;
      assert Upto(n) == Upto(last) + [last];
      assert multiset(Upto(n)) == multiset(Upto(last)) + multiset{last};
    }
  }

  /** How one turn of the search loop ends: the popped node was expanded,
      it was a goal, or its expansion failed at the root. */
  datatype Turned = Expanded | GoalClosed | RootClashed

  /** One turn of `while OPEN`: pop the best node and close it; stop at a
      goal; otherwise expand it. `generated` counts the nodes stored. */
  method Step(ghost start: Cube, arena: seq<Cube>, open: seq<nat>, closed: seq<nat>, ghost last: nat)
    returns (arena': seq<Cube>, open': seq<nat>, closed': seq<nat>, s: nat, generated: nat, how: Turned)
    requires Searching(start, arena, open, closed, last) && open != []
    ensures |closed'| == |closed| + 1
    ensures how == Expanded ==>
      Searching(start, arena', open', closed', s) && generated == |arena'| - |arena| &&
      (Universe(start) - Seen(arena') < Universe(start) - Seen(arena) ||
       (Universe(start) - Seen(arena') == Universe(start) - Seen(arena) && |open'| < |open|))
    ensures how == GoalClosed ==>
      Done(start, arena', s) && (Solved(start.tiles) || !FirstExpansionClashes(start.tiles)) &&
      (Solved(start.tiles) ==> closed == [] && arena' == [start.(hNum := 0)])
    ensures how == RootClashed ==> !Solved(start.tiles) && FirstExpansionClashes(start.tiles)
  {
    var popped, open1, closed1, s1 := Pop(start, arena, open, closed, last);
    closed', s, generated := closed1, s1, 0;
    if Goal(popped[s]) {
      GoalReached(start, arena, open, closed, last, popped, open1, closed1, s);
      arena', open', how := popped, open1, GoalClosed;
      return;
    }
    RootFailure(start, arena, open, closed, last, popped, open1, closed1, s);
    var failed;
    arena', open', generated, failed := Expand(start, popped, open1, closed1, s);
    if failed {
      how := RootClashed;
      return;
    }
    AfterExpand(start, arena, open, closed, last, popped, open1, closed1, s, arena', open');
    how := Expanded;
  }

  /** `GraphSearch(start)`, with the path or the error it ends in and the
      counters `numNodesGen` and `numNodesExpanded`. */
  method GraphSearch(start: Cube) returns (outcome: Outcome, numNodesGen: nat, numNodesExpanded: nat)
    requires Valid(start) && start.depth == 0 && start.parent == None
    ensures outcome.Found? ==> var p := outcome.path;
      |p| >= 1 && IsPath(p) && p[0] == start.(hNum := HNum(start.tiles)) &&
      Solved(p[|p| - 1].tiles) && |p| == p[|p| - 1].depth + 1 &&
      forall k :: 0 <= k < |p| ==> p[k].hNum == HNum(p[k].tiles)
    ensures Solved(start.tiles) ==>
      outcome == Found([start.(hNum := 0)]) && numNodesGen == 0 && numNodesExpanded == 1
    ensures outcome.ParentMissing? <==> !Solved(start.tiles) && FirstExpansionClashes(start.tiles)
    ensures outcome.PathUnbound? ==>
      numNodesExpanded == numNodesGen + 1 && forall ms :: !Solved(Replay(start.tiles, ms))
  {
    var arena := [start];
    var open: seq<nat> := [0];
    var closed: seq<nat> := [];
    numNodesGen, numNodesExpanded := 0, 0;
    var s: nat := 0;
    StartSearching(start);
    ghost var atGoal := false;
    while open != []
      invariant Searching(start, arena, open, closed, s)
      invariant numNodesGen == |arena| - 1 && numNodesExpanded == |closed|
      decreases Universe(start) - Seen(arena), |open|
    {
      var arena', open', closed', s', generated, how := Step(start, arena, open, closed, s);
      numNodesExpanded := numNodesExpanded + 1;
      if how == RootClashed {
        outcome := ParentMissing;
        return;
      }
      if how == GoalClosed {
        arena, closed, s := arena', closed', s';
        atGoal := true;
        break;
      }
      numNodesGen := numNodesGen + generated;
      arena, open, closed, s := arena', open', closed', s';
    }
    assert atGoal || closed != [];
    assert Solved(start.tiles) ==> atGoal && arena == [start.(hNum := 0)] && s == 0;
    outcome := Conclude(start, arena, closed, s, atGoal);
  }

  /** What `GraphSearch` does after its loop: `if s.goal()`, follow the
      parents from the goal back to the start; otherwise `path` is never
      assigned. */
  method Conclude(start: Cube, arena: seq<Cube>, closed: seq<nat>, s: nat, ghost atGoal: bool)
    returns (outcome: Outcome)
    requires start.depth == 0
    requires atGoal ==> Done(start, arena, s)
    requires !atGoal ==> Searching(start, arena, [], closed, s)
    ensures outcome.Found? || outcome.PathUnbound?
    ensures atGoal ==> outcome.Found?
    ensures outcome.Found? ==> var p := outcome.path;
      |p| >= 1 && IsPath(p) && p[0] == start.(hNum := HNum(start.tiles)) &&
      Solved(p[|p| - 1].tiles) && |p| == p[|p| - 1].depth + 1 &&
      forall k :: 0 <= k < |p| ==> p[k].hNum == HNum(p[k].tiles)
    ensures atGoal && s == 0 ==> outcome == Found([arena[0]])
    ensures outcome.PathUnbound? ==>
      |closed| == |arena| && forall ms :: !Solved(Replay(start.tiles, ms))
  {
    if !atGoal {
      Exhausted(start, arena, closed, s);
    }
    if Goal(arena[s]) {
      var path := Reconstruct(start, arena, s);
      outcome := Found(path);
    } else {
      outcome := PathUnbound;
    }
  }
}
