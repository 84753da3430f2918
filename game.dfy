/**
 * The two objects that run a game: the rules engine, which applies one
 * placement to a board in place, and the session, which owns the board
 * and the game's counters and reacts to each player's move. They share a
 * module because each refers to the other: the engine reads the ko
 * position from the session it is given and records prisoners there.
 */
module Game {
  import opened Stones
  import opened Moves
  import opened Grids
  import opened Boards
  import opened Rules
  import opened Scoring
  import opened Sessions

  class RulesEngine {
    constructor ()
    {
    }

    /**
     * Places stone at the move's point and resolves it: removes every
     * adjacent enemy chain left without a liberty, then refuses suicide
     * and ko by restoring the board. The verdict and the new board are
     * those of Play. On success the position before the move becomes the
     * session's ko position and the capturer is credited one prisoner per
     * captured stone; on refusal board and session are as they were.
     */
    method ApplyMove(board: Board, move: Move, stone: Stone, session: GameSession) returns (ok: bool)
      requires board.Valid() && session.PrevApart(board)
      modifies board, board.grid, session
      ensures board.Valid() && session.PrevApart(board)
      ensures session.Control() == old(session.Control())
      ensures var out := Play(old(board.cells), board.size, (move.x, move.y), stone, old(session.Prev()));
        (ok <==> out.Legal?) &&
        (out.Legal? ==>
          board.cells == out.board &&
          session.previousBoard != null && fresh(session.previousBoard) &&
          session.previousBoard.size == board.size && session.previousBoard.cells == old(board.cells) &&
          session.blackPrisoners == old(session.blackPrisoners) + (if stone == Black then out.captured else 0) &&
          session.whitePrisoners == old(session.whitePrisoners) + (if stone == Black then 0 else out.captured)) &&
        (!out.Legal? ==>
          board.cells == old(board.cells) && session.previousBoard == old(session.previousBoard) &&
          session.blackPrisoners == old(session.blackPrisoners) &&
          session.whitePrisoners == old(session.whitePrisoners))
    {
      var x, y := move.x, move.y;
      ok := false;
      if board.InBounds(x, y) && board.Get(x, y) == Empty {
        var placed, beforeMove, captured := PlaceAndResolve(board, x, y, stone, session);
        if placed {
          session.SetPreviousBoard(beforeMove);
          CreditPrisoners(session, stone, captured);
          ok := true;
        }
      }
    }

    /** The prisoner loop: one prisoner for stone's colour per captured stone. */
    method CreditPrisoners(session: GameSession, stone: Stone, captured: int)
      modifies session
      ensures session.previousBoard == old(session.previousBoard) && session.Control() == old(session.Control())
      ensures session.blackPrisoners == old(session.blackPrisoners) + (if stone == Black && captured > 0 then captured else 0)
      ensures session.whitePrisoners == old(session.whitePrisoners) + (if stone != Black && captured > 0 then captured else 0)
    {
      var i := 0;
      while i < captured
        invariant if captured > 0 then 0 <= i <= captured else i == 0
        invariant session.previousBoard == old(session.previousBoard) && session.Control() == old(session.Control())
        invariant session.blackPrisoners == old(session.blackPrisoners) + (if stone == Black then i else 0)
        invariant session.whitePrisoners == old(session.whitePrisoners) + (if stone == Black then 0 else i)
      {
        session.AddPrisoner(stone);
        i := i + 1;
      }
    }

    /**
     * The placement proper, from the snapshot of the board to the ko test:
     * put the stone, capture, and refuse suicide and ko by restoring the
     * snapshot. Returns whether the stone stays, the snapshot, and the
     * number of stones captured.
     */
    method PlaceAndResolve(board: Board, x: int, y: int, stone: Stone, session: GameSession)
      returns (placed: bool, beforeMove: Board, captured: int)
      requires board.Valid() && board.InBounds(x, y) && At(board.cells, (x, y)) == Empty
      requires session.PrevApart(board)
      modifies board, board.grid
      ensures board.Valid() && fresh(beforeMove) && fresh(beforeMove.grid) && beforeMove.Valid()
      ensures beforeMove.size == board.size && beforeMove.cells == old(board.cells)
      ensures placed <==> Play(old(board.cells), board.size, (x, y), stone, session.Prev()).Legal?
      ensures placed ==> board.cells == Play(old(board.cells), board.size, (x, y), stone, session.Prev()).board
      ensures placed ==> captured == Play(old(board.cells), board.size, (x, y), stone, session.Prev()).captured
      ensures !placed ==> board.cells == old(board.cells)
    {
      ghost var g, n, pos := board.cells, board.size, (x, y);
      beforeMove := board.Copy();
      board.Set(x, y, stone);
      ghost var g1 := board.cells;
      captured := CaptureAround(board, x, y, stone);
      ghost var g2 := board.cells;
      assert g1 == Put(g, pos, stone) && g2 == Clear(g1, Dead(g1, n, pos, stone));
      var myChain := CollectChain(board, x, y);
      var free := HasLiberty(board, myChain);
      if !free && captured == 0 {
        RestoreBoard(board, beforeMove);
        return false, beforeMove, captured;
      }
      var prev := session.GetPreviousBoard();
      if prev != null {
        var same := board.Equals(prev);
        if same {
          RestoreBoard(board, beforeMove);
          return false, beforeMove, captured;
        }
      }
      return true, beforeMove, captured;
    }

    /**
     * The capture loop of a placement at (x, y): for each neighbour in
     * turn, an enemy chain through it without a liberty is emptied and
     * counted. The result is the placement's dead set, removed in full.
     */
    method CaptureAround(board: Board, x: int, y: int, stone: Stone) returns (captured: int)
      requires board.Valid() && board.InBounds(x, y)
      modifies board, board.grid
      ensures board.Valid()
      ensures board.cells == Clear(old(board.cells), Dead(old(board.cells), board.size, (x, y), stone))
      ensures captured == |Dead(old(board.cells), board.size, (x, y), stone)|
    {
      ghost var g1, n, pos := board.cells, board.size, (x, y);
      GridExt(g1, Clear(g1, {}), n);
      captured := 0;
      for i := 0 to 4
        invariant board.Valid() && board.cells == Remaining(g1, n, pos, stone, i)
        invariant captured == |DeadUpTo(g1, n, pos, stone, i)|
      {
        var k := CaptureDirection(board, x, y, stone, i, g1);
        captured := captured + k;
      }
    }

    /**
     * One turn of the capture loop: when the neighbour in direction i holds
     * an enemy stone whose chain has no liberty, the chain is emptied and
     * its size returned; otherwise nothing changes and the result is 0.
     */
    method CaptureDirection(board: Board, x: int, y: int, stone: Stone, i: int, ghost g1: Grid) returns (k: int)
      requires board.Valid() && 0 <= i < 4 && IsGrid(g1, board.size)
      requires board.cells == Remaining(g1, board.size, (x, y), stone, i)
      modifies board, board.grid
      ensures board.Valid() && board.cells == Remaining(g1, board.size, (x, y), stone, i + 1)
      ensures k == |DeadUpTo(g1, board.size, (x, y), stone, i + 1)| - |DeadUpTo(g1, board.size, (x, y), stone, i)|
    {
      var nb := Neighbors((x, y))[i];
      if board.InBounds(nb.0, nb.1) && board.Get(nb.0, nb.1) == Opposite(stone) {
        var chain := CollectChain(board, nb.0, nb.1);
        var free := HasLiberty(board, chain);
        if !free {
          CaptureTaken(g1, board.size, (x, y), stone, i);
          RemoveChain(board, chain);
          return |chain|;
        }
      }
      CaptureSkipped(g1, board.size, (x, y), stone, i);
      return 0;
    }

    /**
     * The chain through (x, y): breadth-first over same-coloured
     * neighbours, marking each point when it is queued.
     */
    method CollectChain(board: Board, x: int, y: int) returns (chain: set<Pos>)
      requires board.Valid() && board.InBounds(x, y)
      ensures chain == Component(board.cells, board.size, (x, y))
    {
      ghost var g, n := board.cells, board.size;
      ghost var C := Component(g, n, (x, y));
      ComponentSeed(g, n, (x, y));
      var color := board.Get(x, y);
      chain := {(x, y)};
      var q := [(x, y)];
      ghost var done: set<Pos> := {};
      while |q| > 0
        invariant (x, y) in chain && chain <= C && done <= chain
        invariant forall r :: r in q ==> r in chain
        invariant forall r :: r in chain ==> r in done || r in q
        invariant ClosedOn(g, n, color, done, chain)
        decreases AllCells(n) - chain, |q|
      {
        ghost var q0, chain0, done0 := q, chain, done;
        var p := q[0];
        q := q[1..];
        ghost var added: seq<Pos> := [];
        for i := 0 to 4
          invariant chain0 <= chain <= C
          invariant PartialClosed(g, n, color, p, i, chain)
          invariant q == q0[1..] + added
          invariant forall r :: r in added ==> r in chain
          invariant forall r :: r in chain && r !in chain0 ==> r in added
          invariant chain == chain0 ==> added == []
        {
          var nb := Neighbors(p)[i];
          if board.InBounds(nb.0, nb.1) && board.Get(nb.0, nb.1) == color && nb !in chain {
            SameColourNeighbour(g, n, (x, y), p, i);
            PartialClosedNext(g, n, color, p, i, chain, chain + {nb});
            chain := chain + {nb};
            q := q + [nb];
            added := added + [nb];
          } else {
            PartialClosedNext(g, n, color, p, i, chain, chain);
          }
        }
        assert ClosedAt(g, n, color, chain, p);
        ClosedOnJoin(g, n, color, done0, p, chain0, chain);
        QueueStep(done0, chain0, chain, q0, added, q);
        AllCellsCover(n, C, chain0, chain);
        done := done0 + {p};
      }
      assert done == chain;
      ClosedComplete(g, n, (x, y), chain);
    }

    /** Whether some point of chain has an empty in-bounds neighbour. */
    method HasLiberty(board: Board, chain: set<Pos>) returns (r: bool)
      requires board.Valid()
      ensures r <==> Grids.HasLiberty(board.cells, board.size, chain)
    {
      var rest := chain;
      while rest != {}
        invariant rest <= chain
        invariant forall p :: p in chain - rest ==> !LibertyAt(board.cells, board.size, p)
        decreases |rest|
      {
        var p :| p in rest;
        for i := 0 to 4
          invariant forall j :: 0 <= j < i && InBounds(board.size, Neighbors(p)[j]) ==> At(board.cells, Neighbors(p)[j]) != Empty
        {
          var nb := Neighbors(p)[i];
          if board.InBounds(nb.0, nb.1) && board.Get(nb.0, nb.1) == Empty {
            assert LibertyAt(board.cells, board.size, p);
            return true;
          }
        }
        rest := rest - {p};
      }
      return false;
    }

    /** Empties every point of chain. */
    method RemoveChain(board: Board, chain: set<Pos>)
      requires board.Valid() && forall p :: p in chain ==> InBounds(board.size, p)
      modifies board, board.grid
      ensures board.Valid() && board.cells == Clear(old(board.cells), chain)
    {
      ghost var g0 := board.cells;
      var rest := chain;
      ghost var done: set<Pos> := {};
      GridExt(g0, Clear(g0, {}), board.size);
      while rest != {}
        invariant board.Valid() && IsGrid(g0, board.size)
        invariant rest <= chain && done == chain - rest
        invariant board.cells == Clear(g0, done)
        decreases |rest|
      {
        var p :| p in rest;
        board.Set(p.0, p.1, Empty);
        PutClear(g0, board.size, done, p);
        rest := rest - {p};
        done := done + {p};
      }
      assert done == chain;
    }

    /** Copies every point of snapshot back onto board. */
    method RestoreBoard(board: Board, snapshot: Board)
      requires board.Valid() && snapshot.Valid() && board.size <= snapshot.size
      requires snapshot.grid != board.grid
      modifies board, board.grid
      ensures board.Valid()
      ensures forall p :: InBounds(board.size, p) ==> At(board.cells, p) == At(snapshot.cells, p)
      ensures board.size == snapshot.size ==> board.cells == snapshot.cells
    {
      var n := board.GetSize();
      for x := 0 to n
        invariant board.Valid()
        invariant forall a, b :: 0 <= a < x && 0 <= b < n ==> board.grid[a, b] == snapshot.grid[a, b]
      {
        for y := 0 to n
          invariant board.Valid()
          invariant forall a, b :: 0 <= a < x && 0 <= b < n ==> board.grid[a, b] == snapshot.grid[a, b]
          invariant forall b :: 0 <= b < y ==> board.grid[x, b] == snapshot.grid[x, b]
        {
          var s := snapshot.Get(x, y);
          board.Set(x, y, s);
        }
      }
      assert forall p :: InBounds(board.size, p) ==> At(board.cells, p) == board.grid[p.0, p.1];
      if board.size == snapshot.size {
        GridExt(board.cells, snapshot.cells, board.size);
      }
    }
  }

  class GameSession {
    const board: Board
    const rules: RulesEngine
    var currentTurn: Stone
    var previousBoard: Board?
    var consecutivePasses: int
    var gameOver: bool
    var scoringPhase: bool
    var blackPrisoners: int
    var whitePrisoners: int
    var blackDone: bool
    var whiteDone: bool
    /** Every game state sent to a player, in order. */
    ghost var sent: seq<Notice>

    /** The ko position, if any, is a well-formed board that shares nothing with b. */
    ghost predicate PrevApart(b: Board)
      reads this, previousBoard, if previousBoard != null then {previousBoard.grid} else {}
    {
      previousBoard != null ==> previousBoard.Valid() && previousBoard != b && previousBoard.grid != b.grid
    }

    ghost predicate Valid()
      reads this, board, board.grid, previousBoard, if previousBoard != null then {previousBoard.grid} else {}
    {
      board.Valid() && board.size == Size && PrevApart(board)
    }

    /** The position recorded for the ko test. */
    ghost function Prev(): Option<Grid>
      reads this, previousBoard
    {
      if previousBoard == null then None else Some(previousBoard.cells)
    }

    /** The fields the rules engine never writes. */
    ghost function Control(): (Stone, int, bool, bool, bool, bool, seq<Notice>)
      reads this
    {
      (currentTurn, consecutivePasses, gameOver, scoringPhase, blackDone, whiteDone, sent)
    }

    /** The session's state as a value. */
    ghost function Abstract(): SessionState
      reads this, board, previousBoard
    {
      SessionState(board.cells, currentTurn, Prev(), consecutivePasses, gameOver, scoringPhase,
        blackPrisoners, whitePrisoners, blackDone, whiteDone)
    }

    /** A session before any move, without players. */
    constructor ()
      ensures Valid() && fresh(board) && fresh(board.grid)
      ensures Abstract() == Initial() && sent == []
    {
      board := new Board(Size);
      rules := new RulesEngine();
      currentTurn := Black;
      previousBoard := null;
      consecutivePasses := 0;
      gameOver := false;
      scoringPhase := false;
      blackPrisoners := 0;
      whitePrisoners := 0;
      blackDone := false;
      whiteDone := false;
      sent := [];
      new;
      GridExt(board.cells, EmptyGrid(Size), Size);
    }

    /** Reacts to a move from the player holding sender, as Step says. */
    method HandleMove(move: Move, sender: Stone)
      requires Valid()
      modifies this, board, board.grid
      ensures Valid()
      ensures Abstract() == Step(old(Abstract()), move, sender).0
      ensures sent == old(sent) + Step(old(Abstract()), move, sender).1
    {
      if gameOver {
      } else if scoringPhase {
        HandleScoringMove(move, sender);
      } else if move.resign {
        EndGameByResignation(sender);
      } else if sender != currentTurn {
        sent := sent + [Notice(sender, board.cells, NotYourTurn, false)];
      } else if move.pass {
        consecutivePasses := consecutivePasses + 1;
        if consecutivePasses >= 2 {
          StartScoringPhase();
        } else {
          SwitchTurn(sender, YouPassed, OpponentPassed);
        }
      } else {
        HandlePlacement(move, sender);
      }
    }

    /**
     * The end of the move handling, for a placement by the player to move:
     * the pass count is reset and the rules engine decides.
     */
    method HandlePlacement(move: Move, sender: Stone)
      requires Valid() && !gameOver && !scoringPhase && !move.resign && !move.pass && sender == currentTurn
      modifies this, board, board.grid
      ensures Valid()
      ensures Abstract() == Placement(old(Abstract()), move, sender).0
      ensures sent == old(sent) + Placement(old(Abstract()), move, sender).1
    {
      consecutivePasses := 0;
      var ok := rules.ApplyMove(board, move, currentTurn, this);
      if !ok {
        sent := sent + [Notice(sender, board.cells, InvalidMove, true)];
      } else {
        SwitchTurn(sender, MoveAccepted, YourTurn);
      }
    }

    method StartScoringPhase()
      requires Valid()
      modifies this
      ensures Valid()
      ensures Abstract() == ScoringBegun(old(Abstract())).0
      ensures sent == old(sent) + ScoringBegun(old(Abstract())).1
    {
      scoringPhase := true;
      blackDone := false;
      whiteDone := false;
      sent := sent + [Notice(Black, board.cells, ScoringStarted, true), Notice(White, board.cells, ScoringStarted, true)];
    }

    method HandleScoringMove(move: Move, sender: Stone)
      requires Valid()
      modifies this, board, board.grid
      ensures Valid()
      ensures Abstract() == ScoringStep(old(Abstract()), move, sender).0
      ensures sent == old(sent) + ScoringStep(old(Abstract()), move, sender).1
    {
      if move.doneScoring {
        if sender == Black {
          blackDone := true;
        } else {
          whiteDone := true;
        }
        sent := sent + [Notice(sender, board.cells, WaitingForOpponent, false)];
        if blackDone && whiteDone {
          FinishGameAndScore();
        }
      } else {
        MarkDead(move);
      }
    }

    /**
     * A scoring-phase click other than DONE: a stone on the clicked point
     * is removed and counted as a prisoner of the other colour, and both
     * DONE marks are withdrawn.
     */
    method MarkDead(move: Move)
      requires Valid()
      modifies this, board, board.grid
      ensures Valid()
      ensures Abstract() == Removal(old(Abstract()), move).0
      ensures sent == old(sent) + Removal(old(Abstract()), move).1
    {
      if board.InBounds(move.x, move.y) {
        var target := board.Get(move.x, move.y);
        if target != Empty {
          board.Set(move.x, move.y, Empty);
          if target == Black {
            whitePrisoners := whitePrisoners + 1;
          } else {
            blackPrisoners := blackPrisoners + 1;
          }
          blackDone := false;
          whiteDone := false;
          sent := sent + [Notice(Black, board.cells, StoneRemoved, true), Notice(White, board.cells, StoneRemoved, true)];
        }
      }
    }

    method FinishGameAndScore()
      requires Valid()
      modifies this
      ensures Valid()
      ensures Abstract() == Finished(old(Abstract())).0
      ensures sent == old(sent) + Finished(old(Abstract())).1
    {
      gameOver := true;
      var engine := new ScoringEngine();
      var result := engine.Score(board, blackPrisoners, whitePrisoners);
      var winner := if result.blackScore > result.whiteScore then Black else White;
      var msg := GameOver(result.blackScore, result.whiteScore, winner);
      sent := sent + [Notice(Black, board.cells, msg, false), Notice(White, board.cells, msg, false)];
    }

    method SwitchTurn(sender: Stone, self: Message, other: Message)
      requires Valid()
      modifies this
      ensures Valid()
      ensures Abstract() == Switched(old(Abstract()), sender, self, other).0
      ensures sent == old(sent) + Switched(old(Abstract()), sender, self, other).1
    {
      currentTurn := Opposite(currentTurn);
      var receiver := if sender == Black then White else Black;
      sent := sent + [Notice(sender, board.cells, self, false), Notice(receiver, board.cells, other, true)];
    }

    method EndGameByResignation(loser: Stone)
      requires Valid()
      modifies this
      ensures Valid()
      ensures Abstract() == Resigned(old(Abstract()), loser).0
      ensures sent == old(sent) + Resigned(old(Abstract()), loser).1
    {
      gameOver := true;
      var winner := if loser == Black then White else Black;
      sent := sent + [Notice(loser, board.cells, YouResigned, false), Notice(winner, board.cells, OpponentResigned, false)];
    }

    /** One prisoner more for capturer's colour: Black's count for Black, White's for anything else. */
    method AddPrisoner(capturer: Stone)
      modifies this
      ensures Abstract() == Credit(old(Abstract()), capturer, 1)
      ensures previousBoard == old(previousBoard) && Control() == old(Control())
    {
      if capturer == Black {
        blackPrisoners := blackPrisoners + 1;
      } else {
        whitePrisoners := whitePrisoners + 1;
      }
    }

    method GetPreviousBoard() returns (b: Board?)
      ensures b == previousBoard
    {
      return previousBoard;
    }

    method SetPreviousBoard(b: Board?)
      modifies this
      ensures previousBoard == b && Control() == old(Control())
      ensures blackPrisoners == old(blackPrisoners) && whitePrisoners == old(whitePrisoners)
    {
      previousBoard := b;
    }

    /**
     * A fresh session for trying moves out: a new empty board and counters
     * as at the start, and a copy of this session's ko position, so that
     * the ko rule applies to the simulated move as it would here.
     */
    method CopyForSimulation() returns (sim: GameSession)
      requires Valid()
      ensures fresh(sim) && fresh(sim.board) && fresh(sim.board.grid) && sim.Valid()
      ensures sim.previousBoard != null ==> fresh(sim.previousBoard) && fresh(sim.previousBoard.grid)
      ensures sim.Abstract() == Initial().(prev := Abstract().prev) && sim.sent == []
    {
      sim := new GameSession();
      if previousBoard != null {
        var c := previousBoard.Copy();
        sim.previousBoard := c;
      }
    }
  }
}
