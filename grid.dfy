/**
 * Value-level view of a board: the cells of an N x N board as a sequence of
 * columns (indexed [x][y], as the board's two-dimensional array is), the
 * four-neighbourhood the engines walk, and the theory of chains and empty
 * regions that both the rules and the scoring rely on.
 */
module Grids {
  import opened Stones

  type Pos = (int, int)

  /** Column-major cells: g[x][y] is the point at column x, row y. */
  type Grid = seq<seq<Stone>>

  predicate IsGrid(g: Grid, n: nat)
  {
    |g| == n && forall x :: 0 <= x < n ==> |g[x]| == n
  }

  predicate InBounds(n: int, p: Pos)
  {
    0 <= p.0 < n && 0 <= p.1 < n
  }

  /** The stone at p; a point outside the grid reads as Empty. */
  function At(g: Grid, p: Pos): Stone
  {
    if 0 <= p.0 < |g| && 0 <= p.1 < |g[p.0]| then g[p.0][p.1] else Empty
  }

  /** Every point of an n x n board. */
  function AllCells(n: nat): (r: set<Pos>)
    ensures forall p :: p in r <==> InBounds(n, p)
  {
    var r := set x, y | 0 <= x < n && 0 <= y < n :: (x, y);
    assert forall p :: InBounds(n, p) ==> (p.0, p.1) in r;
    r
  }

  function EmptyGrid(n: nat): (g: Grid)
    ensures IsGrid(g, n)
    ensures forall p :: At(g, p) == Empty
  {
    seq(n, x => seq(n, y => Empty))
  }

  /** g with the point p holding s. */
  function Put(g: Grid, p: Pos, s: Stone): (r: Grid)
    requires 0 <= p.0 < |g| && 0 <= p.1 < |g[p.0]|
    ensures |r| == |g| && forall x :: 0 <= x < |g| ==> |r[x]| == |g[x]|
    ensures forall q :: At(r, q) == if q == p then s else At(g, q)
  {
    g[p.0 := g[p.0][p.1 := s]]
  }

  /** g with every point of R emptied. */
  function Clear(g: Grid, R: set<Pos>): (r: Grid)
    ensures |r| == |g| && forall x :: 0 <= x < |g| ==> |r[x]| == |g[x]|
    ensures forall q :: At(r, q) == if q in R then Empty else At(g, q)
  {
    seq(|g|, x requires 0 <= x < |g| =>
      seq(|g[x]|, y requires 0 <= y < |g[x]| => if (x, y) in R then Empty else g[x][y]))
  }

  /** Two grids of one size that agree on every point are the same grid. */
  lemma GridExt(a: Grid, b: Grid, n: nat)
    requires IsGrid(a, n) && IsGrid(b, n)
    requires forall p :: InBounds(n, p) ==> At(a, p) == At(b, p)
    ensures a == b
  {
    forall x | 0 <= x < n
      ensures a[x] == b[x]
    {
      forall y | 0 <= y < n
        ensures a[x][y] == b[x][y]
      {
        assert At(a, (x, y)) == At(b, (x, y));
      }
    }
  }

  /** The four orthogonal neighbours, in the order the engines visit them. */
  function Neighbors(p: Pos): (r: seq<Pos>)
    ensures |r| == 4
  {
    [(p.0 + 1, p.1), (p.0 - 1, p.1), (p.0, p.1 + 1), (p.0, p.1 - 1)]
  }

  /** The index under which a neighbour sees p again. */
  function Back(i: int): int
  {
    if i % 2 == 0 then i + 1 else i - 1
  }

  /** Adjacency is symmetric. */
  lemma NeighborBack(p: Pos, i: int)
    requires 0 <= i < 4
    ensures 0 <= Back(i) < 4 && Neighbors(Neighbors(p)[i])[Back(i)] == p
  {
  }

  /**
   * Every in-bounds neighbour of p holding colour c is in D: D does not
   * stop at p when flooding through colour c.
   */
  predicate ClosedAt(g: Grid, n: nat, c: Stone, D: set<Pos>, p: Pos)
  {
    forall i :: 0 <= i < 4 && InBounds(n, Neighbors(p)[i]) && At(g, Neighbors(p)[i]) == c ==> Neighbors(p)[i] in D
  }

  predicate Closed(g: Grid, n: nat, c: Stone, D: set<Pos>)
  {
    forall p :: p in D ==> ClosedAt(g, n, c, D, p)
  }

  /**
   * The 4-connected group of points of s's colour that contains s: the
   * points lying in every set that contains s and is closed under
   * same-coloured neighbours. For a stone this is its chain; for an empty
   * point, its empty region.
   */
  ghost function Component(g: Grid, n: nat, s: Pos): set<Pos>
  {
    set p | p in AllCells(n) && forall D {:trigger Closed(g, n, At(g, s), D)} :: Closed(g, n, At(g, s), D) && s in D ==> p in D
  }

  /** The component holds the seed, keeps to its colour, is closed, and is least. */
  lemma ComponentProps(g: Grid, n: nat, s: Pos)
    requires InBounds(n, s)
    ensures s in Component(g, n, s)
    ensures forall p :: p in Component(g, n, s) ==> InBounds(n, p) && At(g, p) == At(g, s)
    ensures Closed(g, n, At(g, s), Component(g, n, s))
    ensures forall D :: Closed(g, n, At(g, s), D) && s in D ==> Component(g, n, s) <= D
  {
    var c := At(g, s);
    var C := Component(g, n, s);
    var D0 := set p | p in AllCells(n) && At(g, p) == c;
    assert Closed(g, n, c, D0);
    forall p | p in C
      ensures InBounds(n, p) && At(g, p) == c
    {
      assert p in D0;
    }
    forall p | p in C
      ensures ClosedAt(g, n, c, C, p)
    {
      forall i | 0 <= i < 4 && InBounds(n, Neighbors(p)[i]) && At(g, Neighbors(p)[i]) == c
        ensures Neighbors(p)[i] in C
      {
        var q := Neighbors(p)[i];
        forall D | Closed(g, n, c, D) && s in D
          ensures q in D
        {
          assert p in D;
          assert ClosedAt(g, n, c, D, p);
        }
      }
    }
  }

  /** The component of an in-bounds point holds it and lies on the board. */
  lemma ComponentSeed(g: Grid, n: nat, s: Pos)
    requires InBounds(n, s)
    ensures s in Component(g, n, s)
    ensures forall p :: p in Component(g, n, s) ==> InBounds(n, p)
  {
    ComponentProps(g, n, s);
  }

  /** A closed set of s's colour that holds s and lies inside the component is the component. */
  lemma ComponentFromClosed(g: Grid, n: nat, s: Pos, C: set<Pos>)
    requires InBounds(n, s) && s in C
    requires Closed(g, n, At(g, s), C)
    requires C <= Component(g, n, s)
    ensures C == Component(g, n, s)
  {
    ComponentProps(g, n, s);
  }

  /** Any member of a component has that same component. */
  lemma {:induction false} ComponentOfMember(g: Grid, n: nat, s: Pos, p: Pos)
    requires InBounds(n, s) && p in Component(g, n, s)
    ensures InBounds(n, p) && At(g, p) == At(g, s)
    ensures Component(g, n, p) == Component(g, n, s)
  {
    var c := At(g, s);
    var Cs := Component(g, n, s);
    ComponentProps(g, n, s);
    var Cp := Component(g, n, p);
    ComponentProps(g, n, p);
    // Cp <= Cs: Cs is closed and holds p.
    assert Cp <= Cs;
    // Cs - Cp is closed; were s in it, it would hold all of Cs, p included.
    var E := Cs - Cp;
    forall q | q in E
      ensures ClosedAt(g, n, c, E, q)
    {
      forall i | 0 <= i < 4 && InBounds(n, Neighbors(q)[i]) && At(g, Neighbors(q)[i]) == c
        ensures Neighbors(q)[i] in E
      {
        var r := Neighbors(q)[i];
        assert ClosedAt(g, n, c, Cs, q);
        NeighborBack(q, i);
        assert r in Cp ==> ClosedAt(g, n, c, Cp, r);
      }
    }
    assert s in E ==> Cs <= E;
    assert Cs <= Cp;
  }

  /** Two components are either the same or share no point. */
  lemma ComponentsDisjointOrEqual(g: Grid, n: nat, s: Pos, t: Pos)
    requires InBounds(n, s) && InBounds(n, t)
    ensures Component(g, n, s) == Component(g, n, t) || Component(g, n, s) !! Component(g, n, t)
  {
    if q :| q in Component(g, n, s) && q in Component(g, n, t) {
      ComponentOfMember(g, n, s, q);
      ComponentOfMember(g, n, t, q);
    }
  }

  // ---- Bookkeeping of a breadth-first search over one colour ----

  /** Every point of P has its neighbours of colour c in D. */
  ghost predicate ClosedOn(g: Grid, n: nat, c: Stone, P: set<Pos>, D: set<Pos>)
  {
    forall p :: p in P ==> ClosedAt(g, n, c, D, p)
  }

  /** The first i neighbours of p that hold c are in D. */
  ghost predicate PartialClosed(g: Grid, n: nat, c: Stone, p: Pos, i: int, D: set<Pos>)
  {
    forall j :: 0 <= j < i && j < 4 && InBounds(n, Neighbors(p)[j]) && At(g, Neighbors(p)[j]) == c ==> Neighbors(p)[j] in D
  }

  /** One more neighbour of p handled. */
  lemma PartialClosedNext(g: Grid, n: nat, c: Stone, p: Pos, i: int, D: set<Pos>, D': set<Pos>)
    requires 0 <= i < 4 && PartialClosed(g, n, c, p, i, D) && D <= D'
    requires InBounds(n, Neighbors(p)[i]) && At(g, Neighbors(p)[i]) == c ==> Neighbors(p)[i] in D'
    ensures PartialClosed(g, n, c, p, i + 1, D')
    ensures i == 3 ==> ClosedAt(g, n, c, D', p)
  {
  }

  /** Processing p adds it to the points whose neighbours of colour c are all in D. */
  lemma ClosedOnJoin(g: Grid, n: nat, c: Stone, P: set<Pos>, p: Pos, D0: set<Pos>, D: set<Pos>)
    requires ClosedOn(g, n, c, P, D0) && D0 <= D && ClosedAt(g, n, c, D, p)
    ensures ClosedOn(g, n, c, P + {p}, D)
  {
  }

  /** A neighbour of a component's point with the component's colour lies in it. */
  lemma SameColourNeighbour(g: Grid, n: nat, s: Pos, p: Pos, i: int)
    requires InBounds(n, s) && p in Component(g, n, s)
    requires 0 <= i < 4 && InBounds(n, Neighbors(p)[i]) && At(g, Neighbors(p)[i]) == At(g, s)
    ensures Neighbors(p)[i] in Component(g, n, s)
  {
    ComponentProps(g, n, s);
    assert ClosedAt(g, n, At(g, s), Component(g, n, s), p);
  }

  /**
   * The queue keeps holding the marked points not yet processed: polling
   * q0[0] and appending the newly marked points added.
   */
  lemma QueueStep(done0: set<Pos>, marked0: set<Pos>, marked: set<Pos>, q0: seq<Pos>, added: seq<Pos>, q: seq<Pos>)
    requires |q0| > 0 && done0 <= marked0 <= marked
    requires forall r :: r in q0 ==> r in marked0
    requires forall r :: r in marked0 ==> r in done0 || r in q0
    requires q == q0[1..] + added
    requires forall r :: r in added ==> r in marked
    requires forall r :: r in marked && r !in marked0 ==> r in added
    requires marked == marked0 ==> added == []
    ensures done0 + {q0[0]} <= marked
    ensures forall r :: r in q ==> r in marked
    ensures forall r :: r in marked ==> r in done0 + {q0[0]} || r in q
    ensures marked == marked0 ==> |q| < |q0|
  {
    assert q0 == [q0[0]] + q0[1..];
    forall r | r in marked
      ensures r in done0 + {q0[0]} || r in q
    {
    }
  }

  /** Marking more of an in-bounds set leaves fewer unmarked cells. */
  lemma AllCellsCover(n: nat, C: set<Pos>, marked0: set<Pos>, marked: set<Pos>)
    requires forall p :: p in C ==> InBounds(n, p)
    requires marked0 <= marked <= C
    ensures AllCells(n) - marked <= AllCells(n) - marked0
    ensures marked != marked0 ==> AllCells(n) - marked != AllCells(n) - marked0
  {
    if marked != marked0 {
      assert exists r :: r in marked && r !in marked0;
      var r :| r in marked && r !in marked0;
      assert r in AllCells(n) - marked0;
    }
  }

  /** A search that holds s, stays inside its component and is closed has found all of it. */
  lemma ClosedComplete(g: Grid, n: nat, s: Pos, P: set<Pos>)
    requires InBounds(n, s) && s in P && P <= Component(g, n, s)
    requires ClosedOn(g, n, At(g, s), P, P)
    ensures P == Component(g, n, s)
  {
    ComponentProps(g, n, s);
    assert Closed(g, n, At(g, s), P);
  }

  /** p has an empty in-bounds neighbour. */
  predicate LibertyAt(g: Grid, n: nat, p: Pos)
  {
    exists i :: 0 <= i < 4 && InBounds(n, Neighbors(p)[i]) && At(g, Neighbors(p)[i]) == Empty
  }

  /** Some point of C has an empty in-bounds neighbour. */
  predicate HasLiberty(g: Grid, n: nat, C: set<Pos>)
  {
    exists p :: p in C && LibertyAt(g, n, p)
  }

  /** The stone colours found on in-bounds neighbours of C. */
  function BorderColours(g: Grid, n: nat, C: set<Pos>): (r: set<Stone>)
    ensures Empty !in r
  {
    set p, i | p in C && 0 <= i < 4 && InBounds(n, Neighbors(p)[i]) && At(g, Neighbors(p)[i]) != Empty
      :: At(g, Neighbors(p)[i])
  }

  /**
   * Emptying R, a union of whole chains of one colour, leaves every other
   * chain of that colour as it was: same points, same liberties.
   */
  lemma {:induction false} ClearKeepsComponent(g: Grid, n: nat, R: set<Pos>, m: Pos)
    requires InBounds(n, m) && At(g, m) != Empty && m !in R
    requires forall p :: p in R ==> At(g, p) == At(g, m)
    requires Closed(g, n, At(g, m), R)
    ensures Component(g, n, m) !! R
    ensures Component(Clear(g, R), n, m) == Component(g, n, m)
    ensures HasLiberty(Clear(g, R), n, Component(g, n, m)) == HasLiberty(g, n, Component(g, n, m))
  {
    var c := At(g, m);
    var h := Clear(g, R);
    var C := Component(g, n, m);
    ComponentProps(g, n, m);
    ClearKeepsComponentDisjoint(g, n, R, m);
    assert At(h, m) == c;
    var C' := Component(h, n, m);
    ComponentProps(h, n, m);
    // C is closed in h, so C' <= C.
    forall p | p in C
      ensures ClosedAt(h, n, c, C, p)
    {
      assert ClosedAt(g, n, c, C, p);
    }
    assert C' <= C;
    // C' is closed in g, so C <= C'.
    forall p | p in C'
      ensures ClosedAt(g, n, c, C', p)
    {
      forall i | 0 <= i < 4 && InBounds(n, Neighbors(p)[i]) && At(g, Neighbors(p)[i]) == c
        ensures Neighbors(p)[i] in C'
      {
        var r := Neighbors(p)[i];
        NeighborBack(p, i);
        assert p in C;
        assert r in R ==> ClosedAt(g, n, c, R, r);
        assert ClosedAt(h, n, c, C', p);
      }
    }
    assert C <= C';
    // Around C, the points emptied by Clear are not neighbours.
    forall p | p in C
      ensures LibertyAt(h, n, p) == LibertyAt(g, n, p)
    {
      forall i | 0 <= i < 4 && InBounds(n, Neighbors(p)[i])
        ensures At(h, Neighbors(p)[i]) == At(g, Neighbors(p)[i])
      {
        var r := Neighbors(p)[i];
        NeighborBack(p, i);
        assert r in R ==> ClosedAt(g, n, c, R, r);
      }
    }
  }

  lemma ClearKeepsComponentDisjoint(g: Grid, n: nat, R: set<Pos>, m: Pos)
    requires InBounds(n, m) && m !in R
    requires forall p :: p in R ==> At(g, p) == At(g, m)
    requires Closed(g, n, At(g, m), R)
    ensures Component(g, n, m) !! R
  {
    forall q | q in Component(g, n, m)
      ensures q !in R
    {
      ComponentOfMember(g, n, m, q);
      ComponentProps(g, n, q);
      ComponentProps(g, n, m);
      assert q in R ==> Component(g, n, q) <= R;
    }
  }

  /** Emptying A and then B is emptying their union. */
  lemma ClearTwice(g: Grid, n: nat, A: set<Pos>, B: set<Pos>)
    requires IsGrid(g, n)
    ensures Clear(Clear(g, A), B) == Clear(g, A + B)
  {
    GridExt(Clear(Clear(g, A), B), Clear(g, A + B), n);
  }

  /** Emptying one more point of the board extends the emptied set. */
  lemma PutClear(g: Grid, n: nat, R: set<Pos>, p: Pos)
    requires IsGrid(g, n) && InBounds(n, p)
    ensures Put(Clear(g, R), p, Empty) == Clear(g, R + {p})
  {
    GridExt(Put(Clear(g, R), p, Empty), Clear(g, R + {p}), n);
  }
}
