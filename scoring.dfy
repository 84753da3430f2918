/**
 * Territory scoring (territory plus prisoners) at the end of the game: every empty region bordered by
 * stones of one colour only is that colour's territory; a side's score is
 * its territory plus its prisoners; stones on the board are not
 * counted. Komi and the floating-point result are
 * not part of this model.
 */
module Scoring {
  import opened Stones
  import opened Grids
  import opened Boards

  /** The two sums the engine reports. */
  datatype ScoringResult = ScoringResult(blackScore: int, whiteScore: int)

  /** A region's verdict: its owner (Empty for nobody) and the points it is worth. */
  datatype Territory = Territory(owner: Stone, size: int)

  /** The owner of the empty region around p: the one colour bordering it, or Empty. */
  ghost function RegionOwner(g: Grid, n: nat, p: Pos): Stone
  {
    var border := BorderColours(g, n, Component(g, n, p));
    if border == {Black} then Black else if border == {White} then White else Empty
  }

  ghost function EmptyPoints(g: Grid, n: nat): set<Pos>
  {
    set p | p in AllCells(n) && At(g, p) == Empty
  }

  /** The points of S whose region belongs to c. */
  ghost function OwnedIn(g: Grid, n: nat, S: set<Pos>, c: Stone): set<Pos>
  {
    set p | p in S && RegionOwner(g, n, p) == c
  }

  /** The territory of c: the empty points whose region c alone borders. */
  ghost function TerritoryOf(g: Grid, n: nat, c: Stone): nat
  {
    |OwnedIn(g, n, EmptyPoints(g, n), c)|
  }

  /** Some point of C has an in-bounds neighbour holding c. */
  ghost predicate Touches(g: Grid, n: nat, C: set<Pos>, c: Stone)
  {
    exists p, i :: p in C && 0 <= i < 4 && InBounds(n, Neighbors(p)[i]) && At(g, Neighbors(p)[i]) == c
  }

  /**
   * The verdict the flood fill gives for region C, written as the code
   * decides it: no verdict unless exactly one colour borders C, and none
   * when C touches the opposite of that colour.
   */
  ghost function FloodVerdict(g: Grid, n: nat, C: set<Pos>): Territory
  {
    var border := BorderColours(g, n, C);
    if |border| != 1 then Territory(Empty, 0)
    else
      var owner := if Black in border then Black else White;
      if Touches(g, n, C, Opposite(owner)) then Territory(Empty, 0)
      else Territory(owner, |C|)
  }

  /** V is a union of whole empty regions. */
  ghost predicate RegionUnion(g: Grid, n: nat, V: set<Pos>)
  {
    (forall p :: p in V ==> InBounds(n, p) && At(g, p) == Empty) &&
    (forall p {:trigger Component(g, n, p)} :: p in V ==> Component(g, n, p) <= V)
  }

  /** visited marks exactly the points of S. */
  ghost predicate VisitedIs(visited: array2<bool>, n: nat, S: set<Pos>)
    reads visited
  {
    visited.Length0 == n && visited.Length1 == n &&
    forall a, b :: 0 <= a < n && 0 <= b < n ==> (visited[a, b] <==> (a, b) in S)
  }

  /** The colours next to P have all been recorded. */
  ghost predicate BorderSeen(g: Grid, n: nat, P: set<Pos>, border: set<Stone>)
  {
    forall p, i :: p in P && 0 <= i < 4 && InBounds(n, Neighbors(p)[i]) && At(g, Neighbors(p)[i]) != Empty ==>
      At(g, Neighbors(p)[i]) in border
  }

  /** The colours of the first i neighbours of p have been recorded. */
  ghost predicate PartialSeen(g: Grid, n: nat, p: Pos, i: int, border: set<Stone>)
  {
    forall j :: 0 <= j < i && j < 4 && InBounds(n, Neighbors(p)[j]) && At(g, Neighbors(p)[j]) != Empty ==> At(g, Neighbors(p)[j]) in border
  }

  /** One more neighbour of p handled: its stone's colour is recorded. */
  lemma PartialSeenNext(g: Grid, n: nat, p: Pos, i: int, border: set<Stone>, border': set<Stone>)
    requires 0 <= i < 4 && PartialSeen(g, n, p, i, border) && border <= border'
    requires InBounds(n, Neighbors(p)[i]) && At(g, Neighbors(p)[i]) != Empty ==> At(g, Neighbors(p)[i]) in border'
    ensures PartialSeen(g, n, p, i + 1, border')
  {
  }

  /**
   * The points the scan of p's neighbours marks belong to the region, and
   * after it every empty neighbour of p is marked.
   */
  lemma FloodGrows(g: Grid, n: nat, s: Pos, p: Pos, V: set<Pos>, marked0: set<Pos>, seen0: set<Pos>, seen: set<Pos>)
    requires InBounds(n, s) && At(g, s) == Empty && Component(g, n, s) !! V && p in Component(g, n, s)
    requires seen0 == V + marked0 && marked0 <= Component(g, n, s) && seen0 <= seen
    requires forall r :: r in seen && r !in seen0 ==> r in Neighbors(p) && InBounds(n, r) && At(g, r) == Empty
    requires PartialClosed(g, n, Empty, p, 4, seen)
    ensures marked0 + (seen - seen0) <= Component(g, n, s)
    ensures seen == V + (marked0 + (seen - seen0))
    ensures ClosedAt(g, n, Empty, marked0 + (seen - seen0), p)
    ensures marked0 + (seen - seen0) == marked0 ==> seen == seen0
  {
    forall r | r in seen - seen0
      ensures r in Component(g, n, s)
    {
      var j :| 0 <= j < 4 && r == Neighbors(p)[j];
      SameColourNeighbour(g, n, s, p, j);
    }
    forall i | 0 <= i < 4 && InBounds(n, Neighbors(p)[i]) && At(g, Neighbors(p)[i]) == Empty
      ensures Neighbors(p)[i] in marked0 + (seen - seen0)
    {
      SameColourNeighbour(g, n, s, p, i);
    }
  }

  /** Processing p adds it to the points whose border colours are recorded. */
  lemma BorderSeenJoin(g: Grid, n: nat, P: set<Pos>, p: Pos, border0: set<Stone>, border: set<Stone>)
    requires BorderSeen(g, n, P, border0) && border0 <= border && PartialSeen(g, n, p, 4, border)
    ensures BorderSeen(g, n, P + {p}, border)
  {
  }

  /** A point's border colours are among its region's. */
  lemma BorderColoursOfMember(g: Grid, n: nat, C: set<Pos>, p: Pos)
    requires p in C
    ensures BorderColours(g, n, {p}) <= BorderColours(g, n, C)
  {
  }

  /**
   * When the queue runs dry the processed points are the whole region of
   * the seed and the recorded colours are exactly its border colours.
   */
  lemma FloodComplete(g: Grid, n: nat, s: Pos, points: set<Pos>, border: set<Stone>)
    requires InBounds(n, s) && At(g, s) == Empty && s in points && points <= Component(g, n, s)
    requires ClosedOn(g, n, Empty, points, points)
    requires BorderSeen(g, n, points, border) && border <= BorderColours(g, n, Component(g, n, s))
    ensures points == Component(g, n, s)
    ensures border == BorderColours(g, n, points)
  {
    ClosedComplete(g, n, s, points);
  }

  // ---- Lemmas ----

  /** A set of stone colours with one element is {Black} or {White}. */
  lemma SingleColour(border: set<Stone>, c: Stone)
    requires Empty !in border && |border| == 1 && c in border
    ensures border == {c} && c != Empty
    ensures c == (if Black in border then Black else White)
  {
    assert border - {c} == {} by {
      assert |border - {c}| == 0;
    }
  }

  /**
   * The seki test of the flood fill never fires: a region bordered only by
   * owner touches no stone of the opposite colour.
   */
  lemma TouchesNeutralNeverFires(g: Grid, n: nat, C: set<Pos>, owner: Stone)
    requires BorderColours(g, n, C) == {owner}
    ensures !Touches(g, n, C, Opposite(owner))
  {
    assert owner != Empty;
    forall p, i | p in C && 0 <= i < 4 && InBounds(n, Neighbors(p)[i])
      ensures At(g, Neighbors(p)[i]) != Opposite(owner)
    {
      var s := At(g, Neighbors(p)[i]);
      assert s != Empty ==> s in BorderColours(g, n, C);
    }
  }

  /**
   * So the flood fill gives a region bordered by one colour alone its full
   * size for that colour, and every other region nothing.
   */
  lemma FloodVerdictIsOwner(g: Grid, n: nat, p: Pos)
    ensures FloodVerdict(g, n, Component(g, n, p)) ==
      (if RegionOwner(g, n, p) == Empty then Territory(Empty, 0)
       else Territory(RegionOwner(g, n, p), |Component(g, n, p)|))
  {
    var C := Component(g, n, p);
    var border := BorderColours(g, n, C);
    if |border| == 1 {
      var c :| c in border;
      SingleColour(border, c);
      TouchesNeutralNeverFires(g, n, C, c);
    } else {
      assert border != {Black} && border != {White};
    }
  }

  /** Adding one more whole region to a region union, and what it adds to each owner. */
  lemma AddRegion(g: Grid, n: nat, V: set<Pos>, s: Pos)
    requires RegionUnion(g, n, V)
    requires InBounds(n, s) && At(g, s) == Empty && s !in V
    ensures s in Component(g, n, s) && Component(g, n, s) !! V
    ensures RegionUnion(g, n, V + Component(g, n, s))
  {
    var C := Component(g, n, s);
    ComponentProps(g, n, s);
    RegionMembers(g, n, V, s);
  }

  /** Every point of s's region has that region, and none lies in V. */
  lemma RegionMembers(g: Grid, n: nat, V: set<Pos>, s: Pos)
    requires RegionUnion(g, n, V)
    requires InBounds(n, s) && s !in V
    ensures forall q :: q in Component(g, n, s) ==> q !in V && Component(g, n, q) == Component(g, n, s)
  {
    forall q | q in Component(g, n, s)
      ensures q !in V && Component(g, n, q) == Component(g, n, s)
    {
      ComponentOfMember(g, n, s, q);
      assert q in V ==> s in Component(g, n, q);
    }
  }

  /**
   * What the verdict on s's region adds to each side's count when the
   * region joins the union V.
   */
  lemma TallyRegion(g: Grid, n: nat, V: set<Pos>, s: Pos, t: Territory)
    requires RegionUnion(g, n, V)
    requires InBounds(n, s) && At(g, s) == Empty && s !in V
    requires t == FloodVerdict(g, n, Component(g, n, s))
    ensures |OwnedIn(g, n, V + Component(g, n, s), Black)| == |OwnedIn(g, n, V, Black)| + (if t.owner == Black then t.size else 0)
    ensures |OwnedIn(g, n, V + Component(g, n, s), White)| == |OwnedIn(g, n, V, White)| + (if t.owner == White then t.size else 0)
  {
    RegionMembers(g, n, V, s);
    FloodVerdictIsOwner(g, n, s);
    OwnedAddRegion(g, n, V, Component(g, n, s), s, Black);
    OwnedAddRegion(g, n, V, Component(g, n, s), s, White);
  }

  /** Every empty point before (x, y) in the scan order lies in V. */
  ghost predicate Scanned(g: Grid, n: nat, V: set<Pos>, x: int, y: int)
  {
    forall p :: InBounds(n, p) && (p.0 < x || (p.0 == x && p.1 < y)) && At(g, p) == Empty ==> p in V
  }

  lemma ScanNext(g: Grid, n: nat, V: set<Pos>, V': set<Pos>, x: int, y: int)
    requires Scanned(g, n, V, x, y) && V <= V'
    requires InBounds(n, (x, y)) && At(g, (x, y)) == Empty ==> (x, y) in V'
    ensures Scanned(g, n, V', x, y + 1)
  {
  }

  lemma ScanRow(g: Grid, n: nat, V: set<Pos>, x: int)
    requires Scanned(g, n, V, x, n)
    ensures Scanned(g, n, V, x + 1, 0)
  {
  }

  /** A region union holding every empty point is the set of empty points. */
  lemma ScanDone(g: Grid, n: nat, V: set<Pos>)
    requires RegionUnion(g, n, V) && Scanned(g, n, V, n, 0)
    ensures V == EmptyPoints(g, n)
  {
  }

  lemma OwnedAddRegion(g: Grid, n: nat, V: set<Pos>, C: set<Pos>, s: Pos, c: Stone)
    requires C !! V && forall q :: q in C ==> RegionOwner(g, n, q) == RegionOwner(g, n, s)
    ensures |OwnedIn(g, n, V + C, c)| == |OwnedIn(g, n, V, c)| + (if RegionOwner(g, n, s) == c then |C| else 0)
  {
    var extra := if RegionOwner(g, n, s) == c then C else {};
    assert OwnedIn(g, n, V + C, c) == OwnedIn(g, n, V, c) + extra;
    assert OwnedIn(g, n, V, c) !! extra;
  }

  /** On a board without stones nobody owns any territory. */
  lemma EmptyBoardHasNoTerritory(n: nat)
    ensures TerritoryOf(EmptyGrid(n), n, Black) == 0
    ensures TerritoryOf(EmptyGrid(n), n, White) == 0
  {
    var g := EmptyGrid(n);
    forall p
      ensures RegionOwner(g, n, p) == Empty
    {
      assert BorderColours(g, n, Component(g, n, p)) == {};
    }
    assert OwnedIn(g, n, EmptyPoints(g, n), Black) == {};
    assert OwnedIn(g, n, EmptyPoints(g, n), White) == {};
  }

  /** Black stones at (0,0), (0,1) and (1,0) on an otherwise empty 5 x 5 board. */
  function CornerSetup(): (g: Grid)
    ensures IsGrid(g, 5)
  {
    Put(Put(Put(EmptyGrid(5), (0, 0), Black), (0, 1), Black), (1, 0), Black)
  }

  /** There Black owns territory and White none. */
  lemma CornerTerritory()
    ensures TerritoryOf(CornerSetup(), 5, Black) > 0
    ensures TerritoryOf(CornerSetup(), 5, White) == 0
  {
    var g := CornerSetup();
    assert forall q :: At(g, q) != White;
    forall p
      ensures BorderColours(g, 5, Component(g, 5, p)) <= {Black}
    {
    }
    assert OwnedIn(g, 5, EmptyPoints(g, 5), White) == {};
    var p := (1, 1);
    ComponentProps(g, 5, p);
    assert At(g, Neighbors(p)[1]) == Black;
    assert Black in BorderColours(g, 5, Component(g, 5, p));
    assert RegionOwner(g, 5, p) == Black;
    assert p in OwnedIn(g, 5, EmptyPoints(g, 5), Black);
  }

  class ScoringEngine {
    constructor ()
    {
    }

    /**
     * Each side's territory plus its prisoners. The board is only read; the
     * visited mask is the engine's own.
     */
    method Score(board: Board, blackPrisoners: int, whitePrisoners: int) returns (result: ScoringResult)
      requires board.Valid()
      ensures result.blackScore == TerritoryOf(board.cells, board.size, Black) + blackPrisoners
      ensures result.whiteScore == TerritoryOf(board.cells, board.size, White) + whitePrisoners
    {
      ghost var g := board.cells;
      var n := board.GetSize();
      var visited := new bool[n, n]((a, b) => false);
      var blackTerritory := 0;
      var whiteTerritory := 0;
      ghost var V: set<Pos> := {};
      for x := 0 to n
        invariant RegionUnion(g, n, V)
        invariant VisitedIs(visited, n, V)
        invariant Scanned(g, n, V, x, 0)
        invariant blackTerritory == |OwnedIn(g, n, V, Black)|
        invariant whiteTerritory == |OwnedIn(g, n, V, White)|
      {
        for y := 0 to n
          invariant RegionUnion(g, n, V)
          invariant VisitedIs(visited, n, V)
          invariant Scanned(g, n, V, x, y)
          invariant blackTerritory == |OwnedIn(g, n, V, Black)|
          invariant whiteTerritory == |OwnedIn(g, n, V, White)|
        {
          if board.Get(x, y) == Empty && !visited[x, y] {
            AddRegion(g, n, V, (x, y));
            var t := FloodTerritory(board, x, y, visited, V);
            TallyRegion(g, n, V, (x, y), t);
            if t.owner == Black {
              blackTerritory := blackTerritory + t.size;
            } else if t.owner == White {
              whiteTerritory := whiteTerritory + t.size;
            }
            ScanNext(g, n, V, V + Component(g, n, (x, y)), x, y);
            V := V + Component(g, n, (x, y));
          } else {
            ScanNext(g, n, V, V, x, y);
          }
        }
        ScanRow(g, n, V, x);
      }
      ScanDone(g, n, V);
      var blackScore := blackTerritory + blackPrisoners;
      var whiteScore := whiteTerritory + whitePrisoners;
      return ScoringResult(blackScore, whiteScore);
    }

    /**
     * Fills the empty region around (sx, sy), marking it in visited, and
     * returns its verdict.
     */
    method FloodTerritory(board: Board, sx: int, sy: int, visited: array2<bool>, ghost V: set<Pos>) returns (t: Territory)
      requires board.Valid() && board.InBounds(sx, sy) && At(board.cells, (sx, sy)) == Empty
      requires Component(board.cells, board.size, (sx, sy)) !! V
      requires VisitedIs(visited, board.size, V)
      modifies visited
      ensures VisitedIs(visited, board.size, V + Component(board.cells, board.size, (sx, sy)))
      ensures t == FloodVerdict(board.cells, board.size, Component(board.cells, board.size, (sx, sy)))
    {
      ghost var g := board.cells;
      ghost var n := board.size;
      ghost var C := Component(g, n, (sx, sy));
      ComponentSeed(g, n, (sx, sy));
      var points: set<Pos> := {};
      var bordering: set<Stone> := {};
      var q := [(sx, sy)];
      visited[sx, sy] := true;
      ghost var marked: set<Pos> := {(sx, sy)};
      ghost var seen: set<Pos> := V + {(sx, sy)};
      while |q| > 0
        invariant (sx, sy) in marked && marked <= C && points <= marked
        invariant forall r :: r in q ==> r in marked
        invariant forall r :: r in marked ==> r in points || r in q
        invariant VisitedIs(visited, n, seen) && seen == V + marked
        invariant ClosedOn(g, n, Empty, points, marked)
        invariant BorderSeen(g, n, points, bordering)
        invariant bordering <= BorderColours(g, n, C)
        decreases AllCells(n) - marked, |q|
      {
        ghost var q0, seen0, marked0, bordering0, points0 := q, seen, marked, bordering, points;
        var p := q[0];
        q := q[1..];
        points := points + {p};
        ghost var added;
        q, bordering, seen, added := VisitNeighbours(board, p, visited, q, bordering, seen);
        marked := marked + (seen - seen0);
        FloodGrows(g, n, (sx, sy), p, V, marked0, seen0, seen);
        QueueStep(points0, marked0, marked, q0, added, q);
        ClosedOnJoin(g, n, Empty, points0, p, marked0, marked);
        BorderSeenJoin(g, n, points0, p, bordering0, bordering);
        BorderColoursOfMember(g, n, C, p);
        AllCellsCover(n, C, marked0, marked);
      }
      FloodComplete(g, n, (sx, sy), points, bordering);
      if |bordering| != 1 {
        return Territory(Empty, 0);
      }
      var owner :| owner in bordering;
      SingleColour(bordering, owner);
      var neutral := TouchesNeutral(board, points, owner);
      if neutral {
        return Territory(Empty, 0);
      }
      return Territory(owner, |points|);
    }

    /**
     * The inner loop of the flood fill for the polled point p: each
     * in-bounds empty neighbour not yet visited is marked and queued, and
     * the colour of each stone neighbour recorded.
     */
    method VisitNeighbours(board: Board, p: Pos, visited: array2<bool>, q: seq<Pos>, bordering: set<Stone>, ghost seen: set<Pos>)
      returns (q': seq<Pos>, bordering': set<Stone>, ghost seen': set<Pos>, ghost added: seq<Pos>)
      requires board.Valid() && VisitedIs(visited, board.size, seen)
      modifies visited
      ensures VisitedIs(visited, board.size, seen')
      ensures seen <= seen' && PartialClosed(board.cells, board.size, Empty, p, 4, seen')
      ensures forall r :: r in seen' && r !in seen ==> r in Neighbors(p) && InBounds(board.size, r) && At(board.cells, r) == Empty
      ensures q' == q + added
      ensures forall r :: r in added <==> r in seen' && r !in seen
      ensures seen' == seen ==> added == []
      ensures bordering <= bordering' && PartialSeen(board.cells, board.size, p, 4, bordering')
      ensures bordering' <= bordering + BorderColours(board.cells, board.size, {p})
    {
      ghost var g := board.cells;
      ghost var n := board.size;
      q', bordering', seen', added := q, bordering, seen, [];
      for i := 0 to 4
        invariant VisitedIs(visited, n, seen') && seen <= seen'
        invariant PartialClosed(g, n, Empty, p, i, seen')
        invariant forall r :: r in seen' && r !in seen ==> r in Neighbors(p)[..i] && InBounds(n, r) && At(g, r) == Empty
        invariant q' == q + added
        invariant forall r :: r in added <==> r in seen' && r !in seen
        invariant seen' == seen ==> added == []
        invariant bordering <= bordering' && PartialSeen(g, n, p, i, bordering')
        invariant bordering' <= bordering + BorderColours(g, n, {p})
      {
        var nb := Neighbors(p)[i];
        assert Neighbors(p)[..i + 1] == Neighbors(p)[..i] + [nb];
        if !board.InBounds(nb.0, nb.1) {
          PartialClosedNext(g, n, Empty, p, i, seen', seen');
          PartialSeenNext(g, n, p, i, bordering', bordering');
          continue;
        }
        var s := board.Get(nb.0, nb.1);
        if s == Empty && !visited[nb.0, nb.1] {
          visited[nb.0, nb.1] := true;
          PartialClosedNext(g, n, Empty, p, i, seen', seen' + {nb});
          PartialSeenNext(g, n, p, i, bordering', bordering');
          seen' := seen' + {nb};
          added := added + [nb];
          q' := q' + [nb];
        } else if s != Empty {
          PartialClosedNext(g, n, Empty, p, i, seen', seen');
          PartialSeenNext(g, n, p, i, bordering', bordering' + {s});
          assert s in BorderColours(g, n, {p});
          bordering' := bordering' + {s};
        } else {
          PartialClosedNext(g, n, Empty, p, i, seen', seen');
          PartialSeenNext(g, n, p, i, bordering', bordering');
        }
      }
    }

    /** Whether some point of the region has a neighbour of the colour opposite to owner. */
    method TouchesNeutral(board: Board, territory: set<Pos>, owner: Stone) returns (r: bool)
      requires board.Valid()
      ensures r <==> Touches(board.cells, board.size, territory, Opposite(owner))
    {
      var rest := territory;
      while rest != {}
        invariant rest <= territory
        invariant forall p, i :: p in territory - rest && 0 <= i < 4 && InBounds(board.size, Neighbors(p)[i]) ==>
          At(board.cells, Neighbors(p)[i]) != Opposite(owner)
        decreases |rest|
      {
        var p :| p in rest;
        for i := 0 to 4
          invariant forall j :: 0 <= j < i && j < 4 && InBounds(board.size, Neighbors(p)[j]) ==>
            At(board.cells, Neighbors(p)[j]) != Opposite(owner)
        {
          var nb := Neighbors(p)[i];
          if !board.InBounds(nb.0, nb.1) {
            continue;
          }
          if board.Get(nb.0, nb.1) == Opposite(owner) {
            return true;
          }
        }
        rest := rest - {p};
      }
      return false;
    }
  }
}
