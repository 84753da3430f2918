/**
 * The computer player: it reads the board from the text the session sends,
 * tries every empty point on a copy of the board with a copy of the ko
 * position, sorts the legal points into captures, pressure moves (next to
 * an enemy stone) and the rest, and plays from the best non-empty group,
 * or passes when there is no legal point.
 */
module Bots {
  import opened Stones
  import opened Moves
  import opened Grids
  import opened BoardText
  import opened Boards
  import opened Rules
  import opened Sessions
  import opened Game

  // ---- What the bot looks for ----

  function Abs(a: int): nat
  {
    if a < 0 then -a else a
  }

  /** p and q are one step apart along a row or a column. */
  predicate Touching(p: Pos, q: Pos)
  {
    Abs(p.0 - q.0) + Abs(p.1 - q.1) == 1
  }

  /** Some point of the board touching p holds a stone of c's opponent. */
  ghost predicate NextToOpponent(g: Grid, n: nat, p: Pos, c: Stone)
  {
    exists q :: InBounds(n, q) && Touching(p, q) && At(g, q) == Opposite(c)
  }

  /** m is a plain placement that the rules accept for c. */
  ghost predicate IsLegalMove(g: Grid, n: nat, c: Stone, prev: Option<Grid>, m: Move)
  {
    IsGrid(g, n) && m == Place(m.x, m.y) && Play(g, n, (m.x, m.y), c, prev).Legal?
  }

  /** A legal placement after which some stone of the board is gone. */
  ghost predicate IsCaptureMove(g: Grid, n: nat, c: Stone, prev: Option<Grid>, m: Move)
  {
    IsLegalMove(g, n, c, prev, m) && Removed(g, Play(g, n, (m.x, m.y), c, prev).board, n) != {}
  }

  /** A legal placement that captures nothing but touches an enemy stone. */
  ghost predicate IsPressureMove(g: Grid, n: nat, c: Stone, prev: Option<Grid>, m: Move)
  {
    IsLegalMove(g, n, c, prev, m) && !IsCaptureMove(g, n, c, prev, m) && NextToOpponent(g, n, (m.x, m.y), c)
  }

  /**
   * m is a move the bot may choose: a capture if there is one, else a
   * pressure move if there is one, else any legal placement, else a pass.
   */
  ghost predicate Prioritised(g: Grid, n: nat, c: Stone, prev: Option<Grid>, m: Move)
  {
    if exists q :: IsCaptureMove(g, n, c, prev, q) then IsCaptureMove(g, n, c, prev, m)
    else if exists q :: IsPressureMove(g, n, c, prev, q) then IsPressureMove(g, n, c, prev, m)
    else if exists q :: IsLegalMove(g, n, c, prev, q) then IsLegalMove(g, n, c, prev, m)
    else m == PassMove()
  }

  /** Points are visited column by column, and down each column. */
  predicate VisitedBefore(p: Pos, x: int, y: int)
  {
    p.0 < x || (p.0 == x && p.1 < y)
  }

  // ---- Facts about the groups ----

  /**
   * A candidate is an empty point of the board; playing it puts c there
   * and changes nothing else but enemy stones taken off.
   */
  lemma LegalCandidate(g: Grid, n: nat, c: Stone, prev: Option<Grid>, m: Move)
    requires IsGrid(g, n) && IsLegalMove(g, n, c, prev, m)
    ensures InBounds(n, (m.x, m.y)) && At(g, (m.x, m.y)) == Empty
    ensures At(Play(g, n, (m.x, m.y), c, prev).board, (m.x, m.y)) == c
    ensures forall q :: q != (m.x, m.y) && At(Play(g, n, (m.x, m.y), c, prev).board, q) != At(g, q) ==>
      At(g, q) == Opposite(c) && At(Play(g, n, (m.x, m.y), c, prev).board, q) == Empty
  {
    PlayLegalChanges(g, n, (m.x, m.y), c, prev);
  }

  /** A capture move is exactly a legal move that earns prisoners. */
  lemma CaptureEarnsPrisoners(g: Grid, n: nat, c: Stone, prev: Option<Grid>, m: Move)
    requires IsGrid(g, n)
    ensures IsCaptureMove(g, n, c, prev, m) <==>
      IsLegalMove(g, n, c, prev, m) && Play(g, n, (m.x, m.y), c, prev).captured > 0
  {
    if IsLegalMove(g, n, c, prev, m) {
      PlayCountsCaptures(g, n, (m.x, m.y), c, prev);
    }
  }

  /** The touching points of p are its four neighbours. */
  lemma TouchingNeighbours(p: Pos, q: Pos)
    ensures Touching(p, q) <==> exists i :: 0 <= i < 4 && Neighbors(p)[i] == q
  {
    if Touching(p, q) {
      if q.0 == p.0 + 1 {
        assert Neighbors(p)[0] == q;
      } else if q.0 == p.0 - 1 {
        assert Neighbors(p)[1] == q;
      } else if q.1 == p.1 + 1 {
        assert Neighbors(p)[2] == q;
      } else {
        assert Neighbors(p)[3] == q;
      }
    }
  }

  // ---- The choice ----

  /** The list entry a draw in [0, |moves|) picks; roll stands for the draw. */
  function RandomFrom(moves: seq<Move>, roll: nat): (m: Move)
    requires |moves| > 0
    ensures m in moves
  {
    moves[roll % |moves|]
  }

  /** Every entry of the list is picked by some draw. */
  lemma RandomFromReachesAll(moves: seq<Move>, m: Move)
    requires m in moves
    ensures exists roll: nat :: RandomFrom(moves, roll) == m
  {
    var i :| 0 <= i < |moves| && moves[i] == m;
    assert RandomFrom(moves, i) == m;
  }

  /** The first non-empty group gives the move; with no legal move, a pass at (-1, -1). */
  function ChooseMove(capture: seq<Move>, pressure: seq<Move>, legal: seq<Move>, roll: nat): (m: Move)
    ensures |capture| > 0 ==> m in capture
    ensures |capture| == 0 && |pressure| > 0 ==> m in pressure
    ensures |capture| == 0 && |pressure| == 0 && |legal| > 0 ==> m in legal
    ensures |capture| == 0 && |pressure| == 0 && |legal| == 0 ==> m.pass && m.x == -1 && m.y == -1
  {
    if |capture| > 0 then RandomFrom(capture, roll)
    else if |pressure| > 0 then RandomFrom(pressure, roll)
    else if |legal| > 0 then RandomFrom(legal, roll)
    else PassMove()
  }

  /** The three groups the bot sorts legal points into. */
  datatype Group = LegalGroup | CaptureGroup | PressureGroup

  ghost predicate InGroup(k: Group, g: Grid, n: nat, c: Stone, prev: Option<Grid>, m: Move)
  {
    match k
    case LegalGroup => IsLegalMove(g, n, c, prev, m)
    case CaptureGroup => IsCaptureMove(g, n, c, prev, m)
    case PressureGroup => IsPressureMove(g, n, c, prev, m)
  }

  /** The list holds exactly the visited points of group k. */
  ghost predicate Collected(k: Group, g: Grid, n: nat, c: Stone, prev: Option<Grid>, list: seq<Move>, x: int, y: int)
  {
    forall m :: m in list <==> InGroup(k, g, n, c, prev, m) && VisitedBefore((m.x, m.y), x, y)
  }

  /** Moves sorted into the three groups for the points visited so far. */
  ghost predicate Sorted(g: Grid, n: nat, c: Stone, prev: Option<Grid>,
    capture: seq<Move>, pressure: seq<Move>, legal: seq<Move>, x: int, y: int)
  {
    Collected(LegalGroup, g, n, c, prev, legal, x, y) &&
    Collected(CaptureGroup, g, n, c, prev, capture, x, y) &&
    Collected(PressureGroup, g, n, c, prev, pressure, x, y)
  }

  /** Past the last point of a column, the next column starts. */
  lemma CollectedNextColumn(k: Group, g: Grid, n: nat, c: Stone, prev: Option<Grid>, list: seq<Move>, x: int)
    requires Collected(k, g, n, c, prev, list, x, n)
    ensures Collected(k, g, n, c, prev, list, x + 1, 0)
  {
    forall m | InGroup(k, g, n, c, prev, m)
      ensures VisitedBefore((m.x, m.y), x, n) <==> VisitedBefore((m.x, m.y), x + 1, 0)
    {
      assert IsLegalMove(g, n, c, prev, m);
      assert InBounds(n, (m.x, m.y));
    }
  }

  /** Once every point is visited, the list holds the whole group. */
  lemma CollectedAll(k: Group, g: Grid, n: nat, c: Stone, prev: Option<Grid>, list: seq<Move>)
    requires Collected(k, g, n, c, prev, list, n, 0)
    ensures forall m :: m in list <==> InGroup(k, g, n, c, prev, m)
  {
    forall m | InGroup(k, g, n, c, prev, m)
      ensures VisitedBefore((m.x, m.y), n, 0)
    {
      assert IsLegalMove(g, n, c, prev, m);
      assert InBounds(n, (m.x, m.y));
    }
  }

  /** Visiting (x, y) appends it to the list when it is of group k. */
  lemma CollectedStep(k: Group, g: Grid, n: nat, c: Stone, prev: Option<Grid>, list: seq<Move>, x: int, y: int)
    requires Collected(k, g, n, c, prev, list, x, y)
    ensures Collected(k, g, n, c, prev,
      list + (if InGroup(k, g, n, c, prev, Place(x, y)) then [Place(x, y)] else []), x, y + 1)
  {
    forall m: Move | m.x == x && m.y == y && InGroup(k, g, n, c, prev, m)
      ensures m == Place(x, y)
    {
      assert IsLegalMove(g, n, c, prev, m);
    }
  }

  /** The points of Removed visited so far. */
  ghost function RemovedBefore(g: Grid, h: Grid, n: nat, x: int, y: int): set<Pos>
  {
    set q | q in Removed(g, h, n) && VisitedBefore(q, x, y)
  }

  lemma RemovedBeforeStart(g: Grid, h: Grid, n: nat)
    ensures RemovedBefore(g, h, n, 0, 0) == {}
  {
    assert forall q :: q in Removed(g, h, n) ==> q.0 >= 0;
  }

  /** Visiting (x, y) adds it when it lost its stone; it was not there before. */
  lemma RemovedBeforeStep(g: Grid, h: Grid, n: nat, x: int, y: int)
    requires 0 <= x < n && 0 <= y < n
    ensures (x, y) !in RemovedBefore(g, h, n, x, y)
    ensures RemovedBefore(g, h, n, x, y + 1) ==
      RemovedBefore(g, h, n, x, y) + (if At(g, (x, y)) != Empty && At(h, (x, y)) == Empty then {(x, y)} else {})
  {
  }

  lemma RemovedBeforeNextColumn(g: Grid, h: Grid, n: nat, x: int)
    ensures RemovedBefore(g, h, n, x, n) == RemovedBefore(g, h, n, x + 1, 0)
  {
    assert forall q :: q in Removed(g, h, n) ==> q.1 < n;
  }

  lemma RemovedBeforeAll(g: Grid, h: Grid, n: nat)
    ensures RemovedBefore(g, h, n, n, 0) == Removed(g, h, n)
  {
    assert forall q :: q in Removed(g, h, n) ==> q.0 < n;
  }

  /** The stones read from the text, for the rows read so far and the first x tokens of row y. */
  ghost predicate ParsedUpTo(cells: Grid, rows: seq<string>, n: nat, y: int, x: int)
  {
    |rows| == n &&
    forall p :: At(cells, p) ==
      if InBounds(n, p) && VisitedBefore((p.1, p.0), y, x) then StoneOf(Token(rows[p.1], p.0)) else Empty
  }

  class Bot {
    const stone: Stone
    const session: GameSession
    const rules: RulesEngine

    constructor (stone: Stone, session: GameSession)
      ensures this.stone == stone && this.session == session
    {
      this.stone := stone;
      this.session := session;
      rules := new RulesEngine();
    }

    /**
     * One pass over the board: every empty point tried on a copy of the
     * board with a copy of the session's ko position, and sorted. The
     * board and the session are only read.
     */
    method Classify(board: Board) returns (capture: seq<Move>, pressure: seq<Move>, legal: seq<Move>)
      requires board.Valid() && session.Valid()
      ensures forall m :: m in legal <==> IsLegalMove(board.cells, board.size, stone, session.Abstract().prev, m)
      ensures forall m :: m in capture <==> IsCaptureMove(board.cells, board.size, stone, session.Abstract().prev, m)
      ensures forall m :: m in pressure <==> IsPressureMove(board.cells, board.size, stone, session.Abstract().prev, m)
    {
      ghost var g, n, prev := board.cells, board.size, session.Abstract().prev;
      capture, pressure, legal := [], [], [];
      var size := board.GetSize();
      for x := 0 to size
        invariant Sorted(g, n, stone, prev, capture, pressure, legal, x, 0)
      {
        for y := 0 to size
          invariant Sorted(g, n, stone, prev, capture, pressure, legal, x, y)
        {
          CollectedStep(LegalGroup, g, n, stone, prev, legal, x, y);
          CollectedStep(CaptureGroup, g, n, stone, prev, capture, x, y);
          CollectedStep(PressureGroup, g, n, stone, prev, pressure, x, y);
          if board.Get(x, y) == Empty {
            var isLegal, isCapture, isPressure := Examine(board, x, y);
            if isLegal {
              legal := legal + [Place(x, y)];
              if isCapture {
                capture := capture + [Place(x, y)];
              } else if isPressure {
                pressure := pressure + [Place(x, y)];
              }
            }
          } else {
            assert !IsLegalMove(g, n, stone, prev, Place(x, y));
            assert capture + [] == capture && pressure + [] == pressure && legal + [] == legal;
          }
        }
        CollectedNextColumn(LegalGroup, g, n, stone, prev, legal, x);
        CollectedNextColumn(CaptureGroup, g, n, stone, prev, capture, x);
        CollectedNextColumn(PressureGroup, g, n, stone, prev, pressure, x);
      }
      CollectedAll(LegalGroup, g, n, stone, prev, legal);
      CollectedAll(CaptureGroup, g, n, stone, prev, capture);
      CollectedAll(PressureGroup, g, n, stone, prev, pressure);
    }

    /** The trial of one point: is it legal, and is it a capture or a pressure move. */
    method Examine(board: Board, x: int, y: int) returns (isLegal: bool, isCapture: bool, isPressure: bool)
      requires board.Valid() && session.Valid()
      ensures isLegal <==> IsLegalMove(board.cells, board.size, stone, session.Abstract().prev, Place(x, y))
      ensures isCapture <==> IsCaptureMove(board.cells, board.size, stone, session.Abstract().prev, Place(x, y))
      ensures isPressure <==> IsPressureMove(board.cells, board.size, stone, session.Abstract().prev, Place(x, y))
    {
      var simulation;
      isLegal, simulation := Simulate(board, x, y);
      isCapture, isPressure := false, false;
      if isLegal {
        isCapture := IsCapture(board, simulation);
        if !isCapture {
          isPressure := IsAdjacentToOpponent(board, x, y);
        }
      }
    }

    /**
     * The move at (x, y) applied by the rules engine to a copy of the board
     * and a copy of the session; the board and the session are only read.
     */
    method Simulate(board: Board, x: int, y: int) returns (ok: bool, simulation: Board)
      requires board.Valid() && session.Valid()
      ensures simulation.Valid() && simulation.size == board.size
      ensures ok <==> Play(board.cells, board.size, (x, y), stone, session.Abstract().prev).Legal?
      ensures ok ==> simulation.cells == Play(board.cells, board.size, (x, y), stone, session.Abstract().prev).board
    {
      var move := Move(x, y, false, false, false);
      simulation := board.Copy();
      var simSession := session.CopyForSimulation();
      ok := rules.ApplyMove(simulation, move, stone, simSession);
    }

    /** Whether some point holding a stone before is empty after. */
    method IsCapture(before: Board, after: Board) returns (r: bool)
      requires before.Valid() && after.Valid() && before.size <= after.size
      ensures r <==> Removed(before.cells, after.cells, before.size) != {}
    {
      ghost var g, h, n := before.cells, after.cells, before.size;
      var removed := 0;
      ghost var seen: set<Pos> := {};
      var size := before.GetSize();
      RemovedBeforeStart(g, h, n);
      for x := 0 to size
        invariant seen == RemovedBefore(g, h, n, x, 0) && removed == |seen|
      {
        for y := 0 to size
          invariant seen == RemovedBefore(g, h, n, x, y) && removed == |seen|
        {
          RemovedBeforeStep(g, h, n, x, y);
          if before.Get(x, y) != Empty && after.Get(x, y) == Empty {
            seen := seen + {(x, y)};
            removed := removed + 1;
          }
        }
        RemovedBeforeNextColumn(g, h, n, x);
      }
      RemovedBeforeAll(g, h, n);
      r := removed > 0;
    }

    /** Whether a point touching (x, y) on the board holds an enemy stone. */
    function IsAdjacentToOpponent(board: Board, x: int, y: int): (r: bool)
      reads this, board, board.grid
      requires board.Valid()
      ensures r <==> NextToOpponent(board.cells, board.size, (x, y), stone)
    {
      var ns := Neighbors((x, y));
      var r := exists i | 0 <= i < 4 :: board.InBounds(ns[i].0, ns[i].1) && board.Get(ns[i].0, ns[i].1) == Opposite(stone);
      assert r ==> NextToOpponent(board.cells, board.size, (x, y), stone) by {
        if r {
          var i :| 0 <= i < 4 && board.InBounds(ns[i].0, ns[i].1) && board.Get(ns[i].0, ns[i].1) == Opposite(stone);
          TouchingNeighbours((x, y), ns[i]);
        }
      }
      assert NextToOpponent(board.cells, board.size, (x, y), stone) ==> r by {
        if NextToOpponent(board.cells, board.size, (x, y), stone) {
          var q :| InBounds(board.size, q) && Touching((x, y), q) && At(board.cells, q) == Opposite(stone);
          TouchingNeighbours((x, y), q);
        }
      }
      r
    }

    /** Reads a board from its text: one row per line, B and W stones, anything else empty. */
    method ParseBoard(text: string) returns (b: Board)
      requires Parsable(text)
      ensures fresh(b) && fresh(b.grid) && b.Valid()
      ensures b.size == |Split(text, '\n')| && b.cells == ParseGrid(text)
    {
      var rows := Split(text, '\n');
      b := new Board(|rows|);
      for y := 0 to |rows|
        invariant fresh(b) && fresh(b.grid) && b.Valid() && b.size == |rows|
        invariant ParsedUpTo(b.cells, rows, |rows|, y, 0)
      {
        ParseRow(b, rows, y);
      }
      GridExt(b.cells, ParseGrid(text), |rows|);
    }

    /** The loop over the tokens of row y: B and W written into column x, anything else skipped. */
    method ParseRow(b: Board, rows: seq<string>, y: int)
      requires 0 <= y < |rows| && b.Valid() && b.size == |rows|
      requires forall x :: |rows| <= x < |Split(rows[y], ' ')| ==> StoneOf(Split(rows[y], ' ')[x]) == Empty
      requires ParsedUpTo(b.cells, rows, |rows|, y, 0)
      modifies b, b.grid
      ensures b.Valid() && ParsedUpTo(b.cells, rows, |rows|, y + 1, 0)
    {
      var cells := Split(rows[y], ' ');
      for x := 0 to |cells|
        invariant b.Valid() && ParsedUpTo(b.cells, rows, |rows|, y, x)
      {
        if cells[x] == "B" {
          b.Set(x, y, Black);
        } else if cells[x] == "W" {
          b.Set(x, y, White);
        }
      }
      assert forall p :: InBounds(|rows|, p) && p.1 == y && p.0 >= |cells| ==> Token(rows[y], p.0) == "";
    }

    /**
     * The bot's turn: read the board from the session's text, sort the
     * empty points, choose (roll stands for the random draw) and send the
     * move to the session as the bot's colour.
     */
    method ThinkAndMove(text: string, roll: nat) returns (chosen: Move)
      requires session.Valid() && Parsable(text)
      modifies session, session.board, session.board.grid
      ensures session.Valid()
      ensures Prioritised(ParseGrid(text), |Split(text, '\n')|, stone, old(session.Abstract()).prev, chosen)
      ensures session.Abstract() == Step(old(session.Abstract()), chosen, stone).0
      ensures session.sent == old(session.sent) + Step(old(session.Abstract()), chosen, stone).1
    {
      var board := ParseBoard(text);
      var capture, pressure, legal := Classify(board);
      chosen := ChooseMove(capture, pressure, legal, roll);
      ghost var g, n, prev := board.cells, board.size, session.Abstract().prev;
      if |capture| == 0 {
        assert forall q :: !IsCaptureMove(g, n, stone, prev, q);
        if |pressure| == 0 {
          assert forall q :: !IsPressureMove(g, n, stone, prev, q);
          if |legal| == 0 {
            assert forall q :: !IsLegalMove(g, n, stone, prev, q);
          }
        }
      }
      session.HandleMove(chosen, stone);
    }
  }

  // ---- The bot against the session ----

  /**
   * Given the text of the session's own board, on its turn, the bot either
   * passes because no point is legal or plays a placement the session
   * accepts: the board becomes the one the rules give and the turn passes.
   */
  lemma BotMoveAccepted(s: SessionState, m: Move)
    requires Inv(s) && !s.gameOver && !s.scoring
    requires Prioritised(ParseGrid(Render(s.board, Size)), |Split(Render(s.board, Size), '\n')|, s.turn, s.prev, m)
    ensures m.pass <==> forall q :: !IsLegalMove(s.board, Size, s.turn, s.prev, q)
    ensures !m.pass ==>
      IsLegalMove(s.board, Size, s.turn, s.prev, m) &&
      Step(s, m, s.turn).0.board == Play(s.board, Size, (m.x, m.y), s.turn, s.prev).board &&
      Step(s, m, s.turn).0.turn == Opposite(s.turn)
  {
    ParseRender(s.board, Size);
    PrioritisedChoice(s.board, Size, s.turn, s.prev, m);
    if !m.pass {
      AcceptedPlacement(s, m);
    }
  }

  /** The bot passes exactly when no point is legal, and otherwise places a stone legally. */
  lemma PrioritisedChoice(g: Grid, n: nat, c: Stone, prev: Option<Grid>, m: Move)
    requires Prioritised(g, n, c, prev, m)
    ensures m.pass <==> forall q :: !IsLegalMove(g, n, c, prev, q)
    ensures !m.pass ==> IsLegalMove(g, n, c, prev, m)
  {
    if exists q :: IsLegalMove(g, n, c, prev, q) {
      assert IsLegalMove(g, n, c, prev, m);
    }
  }
}
