/** The rule table of the 2x2x2 pocket cube: twelve face turns, each a fixed
    permutation of the 24 sticker positions (Rubik_2x2x2.py, RULES). */
module Rules {

  /** The twelve moves, in the table's key order U, U', R, R', F, F', D, D', L, L', B, B'. */
  datatype Move = U | UPrime | R | RPrime | F | FPrime | D | DPrime | L | LPrime | B | BPrime

  /** Every move in the table's key order; `applicableRules` returns exactly this list. */
  const AllMoves: seq<Move> := [U, UPrime, R, RPrime, F, FPrime, D, DPrime, L, LPrime, B, BPrime]

  /** The key under which the table stores a move. */
  function Name(m: Move): string
  {
    match m
    case U => "U"   case UPrime => "U'"
    case R => "R"   case RPrime => "R'"
    case F => "F"   case FPrime => "F'"
    case D => "D"   case DPrime => "D'"
    case L => "L"   case LPrime => "L'"
    case B => "B"   case BPrime => "B'"
  }

  /** The move that undoes `m`: X and X' are each other's inverse. */
  function Inverse(m: Move): Move
  {
    match m
    case U => UPrime   case UPrime => U
    case R => RPrime   case RPrime => R
    case F => FPrime   case FPrime => F
    case D => DPrime   case DPrime => D
    case L => LPrime   case LPrime => L
    case B => BPrime   case BPrime => B
  }

  /** The row of the rule table for `m`: position j of the new state takes
      the sticker at position Table(m)[j] of the old one. */
  function Table(m: Move): seq<nat>
  {
    match m
    case U =>      [ 2,  0,  3,  1,   20, 21,  6,  7,    4,  5, 10, 11,
                    12, 13, 14, 15,    8,  9, 18, 19,   16, 17, 22, 23]
    case UPrime => [ 1,  3,  0,  2,    8,  9,  6,  7,   16, 17, 10, 11,
                    12, 13, 14, 15,   20, 21, 18, 19,    4,  5, 22, 23]
    case R =>      [ 0,  9,  2, 11,    6,  4,  7,  5,    8, 13, 10, 15,
                    12, 22, 14, 20,   16, 17, 18, 19,    3, 21,  1, 23]
    case RPrime => [ 0, 22,  2, 20,    5,  7,  4,  6,    8,  1, 10,  3,
                    12,  9, 14, 11,   16, 17, 18, 19,   15, 21, 13, 23]
    case F =>      [ 0,  1, 19, 17,    2,  5,  3,  7,   10,  8, 11,  9,
                     6,  4, 14, 15,   16, 12, 18, 13,   20, 21, 22, 23]
    case FPrime => [ 0,  1,  4,  6,   13,  5, 12,  7,    9, 11,  8, 10,
                    17, 19, 14, 15,   16,  3, 18,  2,   20, 21, 22, 23]
    case D =>      [ 0,  1,  2,  3,    4,  5, 10, 11,    8,  9, 18, 19,
                    14, 12, 15, 13,   16, 17, 22, 23,   20, 21,  6,  7]
    case DPrime => [ 0,  1,  2,  3,    4,  5, 22, 23,    8,  9,  6,  7,
                    13, 15, 12, 14,   16, 17, 10, 11,   20, 21, 18, 19]
    case L =>      [23,  1, 21,  3,    4,  5,  6,  7,    0,  9,  2, 11,
                     8, 13, 10, 15,   18, 16, 19, 17,   20, 14, 22, 12]
    case LPrime => [ 8,  1, 10,  3,    4,  5,  6,  7,   12,  9, 14, 11,
                    23, 13, 21, 15,   17, 19, 16, 18,   20,  2, 22,  0]
    case B =>      [ 5,  7,  2,  3,    4, 15,  6, 14,    8,  9, 10, 11,
                    12, 13, 16, 18,    1, 17,  0, 19,   22, 20, 23, 21]
    case BPrime => [18, 16,  2,  3,    4,  0,  6,  1,    8,  9, 10, 11,
                    12, 13,  7,  5,   14, 17, 15, 19,   21, 23, 20, 22]
  }

  /** `q` undoes `p`: reading position j of `p` through `q` gives j back,
      written out position by position so that the solver reads each entry
      of the two literal rows directly. */
  predicate Undoes(p: seq<nat>, q: seq<nat>)
  {
    |p| == 24 && |q| == 24 &&
    q[0] < 24 && p[q[0]] == 0 && q[1] < 24 && p[q[1]] == 1 && q[2] < 24 && p[q[2]] == 2 && q[3] < 24 && p[q[3]] == 3 &&
    q[4] < 24 && p[q[4]] == 4 && q[5] < 24 && p[q[5]] == 5 && q[6] < 24 && p[q[6]] == 6 && q[7] < 24 && p[q[7]] == 7 &&
    q[8] < 24 && p[q[8]] == 8 && q[9] < 24 && p[q[9]] == 9 && q[10] < 24 && p[q[10]] == 10 && q[11] < 24 && p[q[11]] == 11 &&
    q[12] < 24 && p[q[12]] == 12 && q[13] < 24 && p[q[13]] == 13 && q[14] < 24 && p[q[14]] == 14 && q[15] < 24 && p[q[15]] == 15 &&
    q[16] < 24 && p[q[16]] == 16 && q[17] < 24 && p[q[17]] == 17 && q[18] < 24 && p[q[18]] == 18 && q[19] < 24 && p[q[19]] == 19 &&
    q[20] < 24 && p[q[20]] == 20 && q[21] < 24 && p[q[21]] == 21 && q[22] < 24 && p[q[22]] == 22 && q[23] < 24 && p[q[23]] == 23
  }

  lemma UndoesAt(p: seq<nat>, q: seq<nat>)
    requires Undoes(p, q)
    ensures RowUndoes(p, q)
  {
    forall j | 0 <= j < 24 ensures q[j] < 24 && p[q[j]] == j {
      if j < 6 { assert j in {0, 1, 2, 3, 4, 5}; }
      else if j < 12 { assert j in {6, 7, 8, 9, 10, 11}; }
      else if j < 18 { assert j in {12, 13, 14, 15, 16, 17}; }
      else { assert j in {18, 19, 20, 21, 22, 23}; }
    }
  }

  /** `q` undoes `p`, as a quantified statement. */
  ghost predicate RowUndoes(p: seq<nat>, q: seq<nat>)
  {
    |p| == 24 && |q| == 24 && forall j :: 0 <= j < 24 ==> q[j] < 24 && p[q[j]] == j
  }

  // The two rows of each face, checked against each other position by position.
  lemma RowsUUndone()
    ensures RowUndoes(Table(U), Table(UPrime)) && RowUndoes(Table(UPrime), Table(U))
  {
    assert Undoes(Table(U), Table(UPrime));
    UndoesAt(Table(U), Table(UPrime));
    assert Undoes(Table(UPrime), Table(U));
    UndoesAt(Table(UPrime), Table(U));
  }

  lemma RowsRUndone()
    ensures RowUndoes(Table(R), Table(RPrime)) && RowUndoes(Table(RPrime), Table(R))
  {
    assert Undoes(Table(R), Table(RPrime));
    UndoesAt(Table(R), Table(RPrime));
    assert Undoes(Table(RPrime), Table(R));
    UndoesAt(Table(RPrime), Table(R));
  }

  lemma RowsFUndone()
    ensures RowUndoes(Table(F), Table(FPrime)) && RowUndoes(Table(FPrime), Table(F))
  {
    assert Undoes(Table(F), Table(FPrime));
    UndoesAt(Table(F), Table(FPrime));
    assert Undoes(Table(FPrime), Table(F));
    UndoesAt(Table(FPrime), Table(F));
  }

  lemma RowsDUndone()
    ensures RowUndoes(Table(D), Table(DPrime)) && RowUndoes(Table(DPrime), Table(D))
  {
    assert Undoes(Table(D), Table(DPrime));
    UndoesAt(Table(D), Table(DPrime));
    assert Undoes(Table(DPrime), Table(D));
    UndoesAt(Table(DPrime), Table(D));
  }

  lemma RowsLUndone()
    ensures RowUndoes(Table(L), Table(LPrime)) && RowUndoes(Table(LPrime), Table(L))
  {
    assert Undoes(Table(L), Table(LPrime));
    UndoesAt(Table(L), Table(LPrime));
    assert Undoes(Table(LPrime), Table(L));
    UndoesAt(Table(LPrime), Table(L));
  }

  lemma RowsBUndone()
    ensures RowUndoes(Table(B), Table(BPrime)) && RowUndoes(Table(BPrime), Table(B))
  {
    assert Undoes(Table(B), Table(BPrime));
    UndoesAt(Table(B), Table(BPrime));
    assert Undoes(Table(BPrime), Table(B));
    UndoesAt(Table(BPrime), Table(B));
  }

  /** Each row is undone by the row of the inverse move, read through it. */
  lemma TableInverse(m: Move)
    ensures RowUndoes(Table(m), Table(Inverse(m)))
  {
    match m {
    case U => RowsUUndone();
    case UPrime => RowsUUndone();
    case R => RowsRUndone();
    case RPrime => RowsRUndone();
    case F => RowsFUndone();
    case FPrime => RowsFUndone();
    case D => RowsDUndone();
    case DPrime => RowsDUndone();
    case L => RowsLUndone();
    case LPrime => RowsLUndone();
    case B => RowsBUndone();
    case BPrime => RowsBUndone();
    }
  }

  /** `p` rearranges the positions 0..n-1: each is hit exactly once. */
  ghost predicate Rearranges(p: seq<nat>, n: nat)
  {
    |p| == n &&
    (forall j :: 0 <= j < n ==> p[j] < n) &&
    (forall i, j :: 0 <= i < j < n ==> p[i] != p[j]) &&
    (forall v :: 0 <= v < n ==> v in p)
  }

  /** Every row of the table is a permutation of 0..23. */
  lemma TableIsPermutation(m: Move)
    ensures Rearranges(Table(m), 24)
  {
    TableInverse(m);
    TableInverse(Inverse(m));
    assert Inverse(Inverse(m)) == m;
    MutualUndoRearranges(Table(m), Table(Inverse(m)));
  }

  /** Two rows that undo each other are both rearrangements. */
  lemma MutualUndoRearranges(p: seq<nat>, q: seq<nat>)
    requires RowUndoes(p, q) && RowUndoes(q, p)
    ensures Rearranges(p, 24)
  {
    forall v | 0 <= v < 24 ensures v in p {
      assert p[q[v]] == v;
    }
    forall i, j | 0 <= i < j < 24 ensures p[i] != p[j] {
      assert q[p[i]] == i && q[p[j]] == j;
    }
  }

  /** The row of `m` as positions below 24, for indexing. */
  lemma TableBounds(m: Move)
    ensures |Table(m)| == 24 && forall j :: 0 <= j < 24 ==> Table(m)[j] < 24
  {
    TableIsPermutation(m);
  }

  /** The tiles after move `m`, as `applyRule` computes them: position j takes
      the sticker at position Table(m)[j]. */
  function Turn(t: seq<char>, m: Move): (r: seq<char>)
    requires |t| == 24
    ensures |r| == 24
  {
    TableBounds(m);
    seq(24, j requires 0 <= j < 24 => t[Table(m)[j]])
  }

  /** X' undoes X: turning by a move and then by its inverse restores the tiles. */
  lemma TurnRoundTrip(t: seq<char>, m: Move)
    requires |t| == 24
    ensures Turn(Turn(t, m), Inverse(m)) == t
  {
    var s := Turn(t, m);
    var r := Turn(s, Inverse(m));
    TableInverse(m);
    TableBounds(m);
    TableBounds(Inverse(m));
    forall j | 0 <= j < 24 ensures r[j] == t[j] {
      calc {
        r[j];
        s[Table(Inverse(m))[j]];
        t[Table(m)[Table(Inverse(m))[j]]];
        t[j];
      }
    }
  }

  /** Dropping the last position from a rearrangement: the position k that
      received it takes over what the last position received. */
  lemma DropLast(p: seq<nat>, n: nat, k: nat)
    requires n > 0 && Rearranges(p, n) && k < n && p[k] == n - 1
    ensures Rearranges(p[k := p[n - 1]][..n - 1], n - 1)
  {
    var p' := p[k := p[n - 1]][..n - 1];
    forall v | 0 <= v < n - 1 ensures v in p' {
      assert v in p;
      var j :| 0 <= j < n && p[j] == v;
      if j < n - 1 {
        assert p'[j] == v;
      } else {
        assert p'[k] == v;
      }
    }
  }

  /** Exchanging two entries keeps the multiset. */
  lemma SwapKeepsMultiset<T>(a: seq<T>, i: nat, j: nat)
    requires i < |a| && j < |a|
    ensures multiset(a[i := a[j]][j := a[i]]) == multiset(a)
  {
    if i != j {
      var c := a[i := a[j]];
      assert multiset(c) == multiset(a) - multiset{a[i]} + multiset{a[j]};
      assert c[j] == a[j];
    }
  }

  lemma LastSplit<T>(t: seq<T>)
    requires |t| > 0
    ensures t == t[..|t| - 1] + [t[|t| - 1]]
  {
  }

  /** The sequence `t` read through `p`. */
  function Rearranged<T>(t: seq<T>, p: seq<nat>): (a: seq<T>)
    requires |p| == |t| && forall j :: 0 <= j < |p| ==> p[j] < |t|
    ensures |a| == |t| && forall j :: 0 <= j < |t| ==> a[j] == t[p[j]]
  {
    seq(|t|, j requires 0 <= j < |t| => t[p[j]])
  }

  /** Moving the entry that reads the last position to the end: what is left
      reads the other positions through the shortened rearrangement. */
  lemma SwapToEnd<T>(t: seq<T>, p: seq<nat>, k: nat, p': seq<nat>)
    requires |t| > 0 && |p| == |t| && k < |t| && p[k] == |t| - 1
    requires forall j :: 0 <= j < |t| ==> p[j] < |t|
    requires p' == p[k := p[|t| - 1]][..|t| - 1]
    requires forall j :: 0 <= j < |t| - 1 ==> p'[j] < |t| - 1
    ensures multiset(Rearranged(t, p)) == multiset(Rearranged(t[..|t| - 1], p')) + multiset{t[|t| - 1]}
  {
    var n := |t|;
    var a := Rearranged(t, p);
    var a' := Rearranged(t[..n - 1], p');
    var b := a[k := a[n - 1]][n - 1 := a[k]];
    SwapKeepsMultiset(a, k, n - 1);
    forall j | 0 <= j < n - 1 ensures b[j] == a'[j] {
      if j == k { assert b[j] == t[p[n - 1]]; }
    }
    assert b == a' + [t[n - 1]];
  }

  /** Reading a sequence through a rearrangement of its positions keeps its multiset. */
  lemma {:induction false} RearrangedMultiset<T>(t: seq<T>, p: seq<nat>)
    requires Rearranges(p, |t|)
    ensures multiset(Rearranged(t, p)) == multiset(t)
    decreases |t|
  {
    var n := |t|;
    if n > 0 {
      assert n - 1 in p;
      var k :| 0 <= k < n && p[k] == n - 1;
      DropLast(p, n, k);
      var p', t' := p[k := p[n - 1]][..n - 1], t[..n - 1];
      RearrangedMultiset(t', p');
      SwapToEnd(t, p, k, p');
      LastSplit(t);
      assert multiset(t) == multiset(t') + multiset{t[n - 1]};
    }
  }

  /** Colour conservation: a move only moves stickers, so the multiset of colours is kept. */
  lemma TurnKeepsColours(t: seq<char>, m: Move)
    requires |t| == 24
    ensures multiset(Turn(t, m)) == multiset(t)
  {
    TableIsPermutation(m);
    var p := Table(m);
    RearrangedMultiset(t, p);
    assert Turn(t, m) == Rearranged(t, p);
  }
}
