/**
 * The rules of one placement, as a function of the position before it:
 * place the stone, remove every adjacent enemy chain left without a
 * liberty, refuse suicide when nothing was captured, refuse a simple ko
 * (the result repeats the position recorded before the previous move).
 * The engine's in-place method is proved to compute exactly this.
 */
module Rules {
  import opened Stones
  import opened Grids

  datatype Option<T> = None | Some(value: T)

  /** What a placement does: refused, or the new position and the number of stones it captured. */
  datatype MoveOutcome = Illegal | Legal(board: Grid, captured: nat)

  /**
   * The enemy chain reached from pos in direction i, once c stands on pos,
   * when it has no liberty; otherwise nothing.
   */
  ghost function DeadChainAt(g1: Grid, n: nat, pos: Pos, c: Stone, i: nat): set<Pos>
    requires i < 4
  {
    var nb := Neighbors(pos)[i];
    if InBounds(n, nb) && At(g1, nb) == Opposite(c) && !HasLiberty(g1, n, Component(g1, n, nb))
    then Component(g1, n, nb)
    else {}
  }

  /** The dead chains found in the first k directions. */
  ghost function DeadUpTo(g1: Grid, n: nat, pos: Pos, c: Stone, k: nat): set<Pos>
    requires k <= 4
  {
    if k == 0 then {} else DeadUpTo(g1, n, pos, c, k - 1) + DeadChainAt(g1, n, pos, c, k - 1)
  }

  /** Every stone the placement of c on pos captures. */
  ghost function Dead(g1: Grid, n: nat, pos: Pos, c: Stone): set<Pos>
  {
    DeadUpTo(g1, n, pos, c, 4)
  }

  /**
   * The outcome of placing c at pos on the n x n position g, where prev is
   * the position recorded before the previous move, if any.
   */
  ghost function Play(g: Grid, n: nat, pos: Pos, c: Stone, prev: Option<Grid>): MoveOutcome
    requires IsGrid(g, n)
  {
    if !InBounds(n, pos) || At(g, pos) != Empty then Illegal
    else
      var g1 := Put(g, pos, c);
      var dead := Dead(g1, n, pos, c);
      var g2 := Clear(g1, dead);
      if !HasLiberty(g2, n, Component(g2, n, pos)) && |dead| == 0 then Illegal
      else if prev == Some(g2) then Illegal
      else Legal(g2, |dead|)
  }

  /** The stones of g that are gone in h. */
  ghost function Removed(g: Grid, h: Grid, n: nat): set<Pos>
  {
    set q | q in AllCells(n) && At(g, q) != Empty && At(h, q) == Empty
  }

  // ---- Facts about the dead set ----

  /**
   * The dead set is a union of whole enemy chains, none of which has a
   * liberty; it is therefore closed under enemy neighbours.
   */
  lemma {:induction false} DeadUpToProps(g1: Grid, n: nat, pos: Pos, c: Stone, k: nat)
    requires k <= 4
    ensures forall p :: p in DeadUpTo(g1, n, pos, c, k) ==>
      InBounds(n, p) && At(g1, p) == Opposite(c) &&
      Component(g1, n, p) <= DeadUpTo(g1, n, pos, c, k) &&
      !HasLiberty(g1, n, Component(g1, n, p))
    ensures Closed(g1, n, Opposite(c), DeadUpTo(g1, n, pos, c, k))
  {
    var D := DeadUpTo(g1, n, pos, c, k);
    if k > 0 {
      DeadUpToProps(g1, n, pos, c, k - 1);
      var nb := Neighbors(pos)[k - 1];
      var C := DeadChainAt(g1, n, pos, c, k - 1);
      forall p | p in C
        ensures InBounds(n, p) && At(g1, p) == Opposite(c)
        ensures Component(g1, n, p) == C && !HasLiberty(g1, n, Component(g1, n, p))
      {
        ComponentOfMember(g1, n, nb, p);
      }
    }
    forall p | p in D
      ensures ClosedAt(g1, n, Opposite(c), D, p)
    {
      ComponentProps(g1, n, p);
      assert ClosedAt(g1, n, Opposite(c), Component(g1, n, p), p);
    }
  }

  /** The dead chain seen in direction i is inside the dead set. */
  lemma DeadChainInDead(g1: Grid, n: nat, pos: Pos, c: Stone, i: nat, k: nat)
    requires i < k <= 4
    ensures DeadChainAt(g1, n, pos, c, i) <= DeadUpTo(g1, n, pos, c, k)
  {
    if i < k - 1 {
      DeadChainInDead(g1, n, pos, c, i, k - 1);
    }
  }

  /** The placed point is never captured: Opposite(c) differs from c. */
  lemma PlacedNotDead(g: Grid, n: nat, pos: Pos, c: Stone)
    requires IsGrid(g, n) && InBounds(n, pos)
    ensures pos !in Dead(Put(g, pos, c), n, pos, c)
  {
    var g1 := Put(g, pos, c);
    DeadUpToProps(g1, n, pos, c, 4);
    assert At(g1, pos) == c;
  }

  /** The stones removed by a placement are exactly its dead set. */
  lemma RemovedIsDead(g: Grid, n: nat, pos: Pos, c: Stone)
    requires IsGrid(g, n) && InBounds(n, pos) && At(g, pos) == Empty
    ensures Removed(g, Clear(Put(g, pos, c), Dead(Put(g, pos, c), n, pos, c)), n) == Dead(Put(g, pos, c), n, pos, c)
  {
    var g1 := Put(g, pos, c);
    var dead := Dead(g1, n, pos, c);
    var g2 := Clear(g1, dead);
    DeadUpToProps(g1, n, pos, c, 4);
    PlacedNotDead(g, n, pos, c);
    forall q | q in dead
      ensures q in Removed(g, g2, n)
    {
      assert q != pos;
      assert At(g, q) == At(g1, q) == Opposite(c);
    }
    forall q | q in Removed(g, g2, n)
      ensures q in dead
    {
      assert q != pos;
      assert At(g1, q) == At(g, q) != Empty;
    }
  }

  // ---- What a legal placement guarantees ----

  /**
   * A legal placement was on an empty point of the board, puts c there,
   * and changes no other point except by emptying enemy stones; it never
   * repeats the recorded previous position.
   */
  lemma PlayLegalChanges(g: Grid, n: nat, pos: Pos, c: Stone, prev: Option<Grid>)
    requires IsGrid(g, n) && Play(g, n, pos, c, prev).Legal?
    ensures InBounds(n, pos) && At(g, pos) == Empty
    ensures IsGrid(Play(g, n, pos, c, prev).board, n)
    ensures At(Play(g, n, pos, c, prev).board, pos) == c
    ensures forall q :: q != pos && At(Play(g, n, pos, c, prev).board, q) != At(g, q) ==>
      At(g, q) == Opposite(c) && At(Play(g, n, pos, c, prev).board, q) == Empty
    ensures prev != Some(Play(g, n, pos, c, prev).board)
  {
    var g1 := Put(g, pos, c);
    DeadUpToProps(g1, n, pos, c, 4);
    PlacedNotDead(g, n, pos, c);
  }

  /**
   * Each captured stone is counted exactly once: the count a legal
   * placement reports is the number of points that held a stone before
   * and are empty after.
   */
  lemma PlayCountsCaptures(g: Grid, n: nat, pos: Pos, c: Stone, prev: Option<Grid>)
    requires IsGrid(g, n) && Play(g, n, pos, c, prev).Legal?
    ensures Play(g, n, pos, c, prev).captured == |Removed(g, Play(g, n, pos, c, prev).board, n)|
  {
    RemovedIsDead(g, n, pos, c);
  }

  /**
   * Every enemy chain next to the placed stone that has no liberty once
   * the stone stands is emptied in full by a legal placement.
   */
  lemma PlayCapturesDeadChains(g: Grid, n: nat, pos: Pos, c: Stone, prev: Option<Grid>, i: nat)
    requires IsGrid(g, n) && Play(g, n, pos, c, prev).Legal? && i < 4
    requires InBounds(n, Neighbors(pos)[i]) && At(g, Neighbors(pos)[i]) == Opposite(c)
    requires !HasLiberty(Put(g, pos, c), n, Component(Put(g, pos, c), n, Neighbors(pos)[i]))
    ensures forall q :: q in Component(Put(g, pos, c), n, Neighbors(pos)[i]) ==>
      At(Play(g, n, pos, c, prev).board, q) == Empty
  {
    var g1 := Put(g, pos, c);
    assert At(g1, Neighbors(pos)[i]) == Opposite(c);
    DeadChainInDead(g1, n, pos, c, i, 4);
  }

  /**
   * After a legal placement the mover's chain has a liberty: either it had
   * one already, or a capture emptied a point next to the placed stone.
   */
  lemma PlayOwnLiberty(g: Grid, n: nat, pos: Pos, c: Stone, prev: Option<Grid>)
    requires IsGrid(g, n) && Play(g, n, pos, c, prev).Legal?
    ensures HasLiberty(Play(g, n, pos, c, prev).board, n, Component(Play(g, n, pos, c, prev).board, n, pos))
  {
    var g1 := Put(g, pos, c);
    var dead := Dead(g1, n, pos, c);
    var g2 := Clear(g1, dead);
    ComponentProps(g2, n, pos);
    DeadNonEmptyHasChain(g1, n, pos, c, 4);
    if dead != {} {
      var i :| 0 <= i < 4 && DeadChainAt(g1, n, pos, c, i) != {};
      var nb := Neighbors(pos)[i];
      ComponentProps(g1, n, nb);
      DeadChainInDead(g1, n, pos, c, i, 4);
      assert nb in dead;
      assert LibertyAt(g2, n, pos);
    }
  }

  /**
   * After a legal placement every enemy chain still standing next to the
   * placed stone has a liberty: the one it had before the captures.
   */
  lemma PlayNeighbourLiberties(g: Grid, n: nat, pos: Pos, c: Stone, prev: Option<Grid>, i: nat)
    requires IsGrid(g, n) && Play(g, n, pos, c, prev).Legal? && i < 4
    requires InBounds(n, Neighbors(pos)[i]) && At(Play(g, n, pos, c, prev).board, Neighbors(pos)[i]) == Opposite(c)
    ensures HasLiberty(Play(g, n, pos, c, prev).board, n, Component(Play(g, n, pos, c, prev).board, n, Neighbors(pos)[i]))
  {
    var g1 := Put(g, pos, c);
    var dead := Dead(g1, n, pos, c);
    var nb := Neighbors(pos)[i];
    DeadUpToProps(g1, n, pos, c, 4);
    PlacedNotDead(g, n, pos, c);
    assert nb !in dead && At(g1, nb) == Opposite(c);
    DeadChainInDead(g1, n, pos, c, i, 4);
    ComponentProps(g1, n, nb);
    assert DeadChainAt(g1, n, pos, c, i) == {};
    ClearKeepsComponent(g1, n, dead, nb);
  }

  /** An enemy neighbour with an empty neighbour of its own is not captured. */
  lemma NotDeadWithLiberty(g1: Grid, n: nat, pos: Pos, c: Stone, i: nat, j: nat)
    requires i < 4 && j < 4
    requires InBounds(n, Neighbors(Neighbors(pos)[i])[j]) && At(g1, Neighbors(Neighbors(pos)[i])[j]) == Empty
    ensures DeadChainAt(g1, n, pos, c, i) == {}
  {
    var nb := Neighbors(pos)[i];
    if InBounds(n, nb) {
      ComponentProps(g1, n, nb);
      assert LibertyAt(g1, n, nb);
    }
  }

  /** A non-empty dead set comes from some direction's dead chain. */
  lemma {:induction false} DeadNonEmptyHasChain(g1: Grid, n: nat, pos: Pos, c: Stone, k: nat)
    requires k <= 4
    ensures DeadUpTo(g1, n, pos, c, k) != {} ==> exists i :: 0 <= i < k && DeadChainAt(g1, n, pos, c, i) != {}
  {
    if k > 0 {
      DeadNonEmptyHasChain(g1, n, pos, c, k - 1);
    }
  }

  /** The position once the dead chains of the first k directions are emptied. */
  ghost function Remaining(g1: Grid, n: nat, pos: Pos, c: Stone, k: nat): Grid
    requires k <= 4
  {
    Clear(g1, DeadUpTo(g1, n, pos, c, k))
  }

  /**
   * The engine's capture loop looks at direction i on the position where
   * the earlier dead chains are already gone. An enemy stone there whose
   * chain has no liberty on that position is a dead chain the earlier
   * directions did not reach: emptying it yields the next position and
   * adds its size to the count.
   */
  lemma CaptureTaken(g1: Grid, n: nat, pos: Pos, c: Stone, i: nat)
    requires IsGrid(g1, n) && i < 4
    requires InBounds(n, Neighbors(pos)[i]) && At(Remaining(g1, n, pos, c, i), Neighbors(pos)[i]) == Opposite(c)
    requires !HasLiberty(Remaining(g1, n, pos, c, i), n, Component(Remaining(g1, n, pos, c, i), n, Neighbors(pos)[i]))
    ensures var C := Component(Remaining(g1, n, pos, c, i), n, Neighbors(pos)[i]);
      (forall p :: p in C ==> InBounds(n, p)) &&
      Clear(Remaining(g1, n, pos, c, i), C) == Remaining(g1, n, pos, c, i + 1) &&
      |DeadUpTo(g1, n, pos, c, i + 1)| == |DeadUpTo(g1, n, pos, c, i)| + |C|
  {
    var nb := Neighbors(pos)[i];
    var D := DeadUpTo(g1, n, pos, c, i);
    var h := Clear(g1, D);
    DeadUpToProps(g1, n, pos, c, i);
    assert nb !in D && At(g1, nb) == Opposite(c);
    ClearKeepsComponent(g1, n, D, nb);
    var C := Component(h, n, nb);
    ComponentSeed(h, n, nb);
    assert DeadChainAt(g1, n, pos, c, i) == C;
    ClearTwice(g1, n, D, C);
    assert D * C == {};
  }

  /**
   * Any other neighbour, an enemy chain that still has a liberty on that
   * position included, adds nothing to the dead set.
   */
  lemma CaptureSkipped(g1: Grid, n: nat, pos: Pos, c: Stone, i: nat)
    requires i < 4
    requires var nb := Neighbors(pos)[i]; var h := Remaining(g1, n, pos, c, i);
      !(InBounds(n, nb) && At(h, nb) == Opposite(c)) || HasLiberty(h, n, Component(h, n, nb))
    ensures DeadUpTo(g1, n, pos, c, i + 1) == DeadUpTo(g1, n, pos, c, i)
  {
    var nb := Neighbors(pos)[i];
    var D := DeadUpTo(g1, n, pos, c, i);
    var h := Clear(g1, D);
    DeadUpToProps(g1, n, pos, c, i);
    if InBounds(n, nb) && At(h, nb) == Opposite(c) {
      assert nb !in D && At(g1, nb) == Opposite(c);
      ClearKeepsComponent(g1, n, D, nb);
    } else if InBounds(n, nb) && At(g1, nb) == Opposite(c) {
      assert nb in D;
    }
  }

  // ---- Two positions worked through ----

  /** A lone white stone at (1,1) on 9 x 9, with black at (1,0), (0,1) and (1,2). */
  function CaptureSetup(): (g: Grid)
    ensures IsGrid(g, 9)
  {
    Put(Put(Put(Put(EmptyGrid(9), (1, 0), Black), (0, 1), Black), (1, 2), Black), (1, 1), White)
  }

  /** After Black plays (2,1), the white stone at (1,1) is a chain of one without liberties. */
  lemma CaptureWhiteChain()
    ensures Component(Put(CaptureSetup(), (2, 1), Black), 9, (1, 1)) == {(1, 1)}
    ensures !HasLiberty(Put(CaptureSetup(), (2, 1), Black), 9, {(1, 1)})
  {
    var g1 := Put(CaptureSetup(), (2, 1), Black);
    var w := (1, 1);
    var C := {w};
    assert Closed(g1, 9, White, C) by {
      assert ClosedAt(g1, 9, White, C, w);
    }
    ComponentProps(g1, 9, w);
    ComponentFromClosed(g1, 9, w, C);
    assert !LibertyAt(g1, 9, w);
  }

  /** So that chain is exactly what the move kills. */
  lemma CaptureDead()
    ensures Dead(Put(CaptureSetup(), (2, 1), Black), 9, (2, 1), Black) == {(1, 1)}
  {
    var g1 := Put(CaptureSetup(), (2, 1), Black);
    var pos := (2, 1);
    var C := {(1, 1)};
    CaptureWhiteChain();
    assert Neighbors(pos)[1] == (1, 1);
    assert DeadChainAt(g1, 9, pos, Black, 0) == {};
    assert DeadChainAt(g1, 9, pos, Black, 1) == C;
    assert DeadChainAt(g1, 9, pos, Black, 2) == {};
    assert DeadChainAt(g1, 9, pos, Black, 3) == {};
    assert DeadUpTo(g1, 9, pos, Black, 1) == {};
    assert DeadUpTo(g1, 9, pos, Black, 2) == C;
    assert DeadUpTo(g1, 9, pos, Black, 3) == C;
  }

  /** Black at (2,1) takes its last liberty: the white stone is captured. */
  lemma CaptureExample()
    ensures Play(CaptureSetup(), 9, (2, 1), Black, None).Legal?
    ensures Play(CaptureSetup(), 9, (2, 1), Black, None).captured == 1
    ensures At(Play(CaptureSetup(), 9, (2, 1), Black, None).board, (1, 1)) == Empty
    ensures At(Play(CaptureSetup(), 9, (2, 1), Black, None).board, (2, 1)) == Black
  {
    var pos := (2, 1);
    var g1 := Put(CaptureSetup(), pos, Black);
    CaptureDead();
    var g2 := Clear(g1, {(1, 1)});
    ComponentSeed(g2, 9, pos);
    assert LibertyAt(g2, 9, pos) by {
      assert At(g2, Neighbors(pos)[0]) == Empty;
    }
    assert Play(CaptureSetup(), 9, pos, Black, None) == Legal(g2, 1);
  }

  /** Four white stones around (1,1) on 9 x 9. */
  function SuicideSetup(): (g: Grid)
    ensures IsGrid(g, 9)
  {
    Put(Put(Put(Put(EmptyGrid(9), (1, 0), White), (0, 1), White), (2, 1), White), (1, 2), White)
  }

  /** Each white stone around (1,1) has an outside liberty, so nothing dies. */
  lemma SuicideCapturesNothing()
    ensures Dead(Put(SuicideSetup(), (1, 1), Black), 9, (1, 1), Black) == {}
  {
    var pos := (1, 1);
    var g1 := Put(SuicideSetup(), pos, Black);
    NotDeadWithLiberty(g1, 9, pos, Black, 0, 0);
    NotDeadWithLiberty(g1, 9, pos, Black, 1, 2);
    NotDeadWithLiberty(g1, 9, pos, Black, 2, 0);
    NotDeadWithLiberty(g1, 9, pos, Black, 3, 0);
    assert DeadUpTo(g1, 9, pos, Black, 1) == {};
    assert DeadUpTo(g1, 9, pos, Black, 2) == {};
    assert DeadUpTo(g1, 9, pos, Black, 3) == {};
  }

  /** The black stone at (1,1) is a chain of one with no empty neighbour. */
  lemma SuicideChainHasNoLiberty()
    ensures !HasLiberty(Put(SuicideSetup(), (1, 1), Black), 9, Component(Put(SuicideSetup(), (1, 1), Black), 9, (1, 1)))
  {
    var pos := (1, 1);
    var g1 := Put(SuicideSetup(), pos, Black);
    var C := {pos};
    assert Closed(g1, 9, Black, C) by {
      assert ClosedAt(g1, 9, Black, C, pos);
    }
    ComponentProps(g1, 9, pos);
    ComponentFromClosed(g1, 9, pos, C);
    assert !LibertyAt(g1, 9, pos);
  }

  /** Black at (1,1) would have no liberty and captures nothing: refused. */
  lemma SuicideExample()
    ensures Play(SuicideSetup(), 9, (1, 1), Black, None) == Illegal
  {
    var g1 := Put(SuicideSetup(), (1, 1), Black);
    SuicideCapturesNothing();
    SuicideChainHasNoLiberty();
    var g2 := Clear(g1, {});
    GridExt(g2, g1, 9);
  }
}
