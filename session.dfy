/**
 * The game session as a state machine: the state a session keeps between
 * moves, the notices it sends to the two players, and one function per
 * branch of its move handling. The session object's methods are proved to
 * follow these functions; the lemmas below state what the protocol
 * guarantees across moves.
 */
module Sessions {
  import opened Stones
  import opened Moves
  import opened Grids
  import opened Rules
  import opened Scoring

  /** The session always plays on a 19 x 19 board. */
  const Size: nat := 19

  /** What a notice tells its player, one value per text the session sends. */
  datatype Message =
    | NotYourTurn
    | InvalidMove
    | YouPassed
    | OpponentPassed
    | MoveAccepted
    | YourTurn
    | ScoringStarted
    | WaitingForOpponent
    | StoneRemoved
    | GameOver(blackScore: int, whiteScore: int, winner: Stone)
    | YouResigned
    | OpponentResigned

  /**
   * One game state sent to the player holding stone to: the board it
   * shows, the message, and whether that player may move now.
   */
  datatype Notice = Notice(to: Stone, board: Grid, msg: Message, yourTurn: bool)

  /** The fields of a session that its move handling reads and writes. */
  datatype SessionState = SessionState(
    board: Grid,
    turn: Stone,
    prev: Option<Grid>,
    passes: int,
    gameOver: bool,
    scoring: bool,
    blackPrisoners: int,
    whitePrisoners: int,
    blackDone: bool,
    whiteDone: bool)

  /** A new session: empty board, Black to move, no ko position, nothing counted. */
  function Initial(): SessionState
  {
    SessionState(EmptyGrid(Size), Black, None, 0, false, false, 0, 0, false, false)
  }

  // ---- One function per branch of the move handling ----

  /** One more prisoner for capturer: Black's count when capturer is Black, White's otherwise. */
  function Credit(s: SessionState, capturer: Stone, k: int): SessionState
  {
    if capturer == Black then s.(blackPrisoners := s.blackPrisoners + k)
    else s.(whitePrisoners := s.whitePrisoners + k)
  }

  /** The turn passes to the other colour; the sender and its opponent are told. */
  function Switched(s: SessionState, sender: Stone, self: Message, other: Message): (SessionState, seq<Notice>)
  {
    (s.(turn := Opposite(s.turn)),
     [Notice(sender, s.board, self, false), Notice(Opposite(sender), s.board, other, true)])
  }

  /** The game ends with loser resigning. */
  function Resigned(s: SessionState, loser: Stone): (SessionState, seq<Notice>)
  {
    (s.(gameOver := true),
     [Notice(loser, s.board, YouResigned, false), Notice(Opposite(loser), s.board, OpponentResigned, false)])
  }

  /** The scoring phase starts with nobody done; both players may mark stones. */
  function ScoringBegun(s: SessionState): (SessionState, seq<Notice>)
  {
    (s.(scoring := true, blackDone := false, whiteDone := false),
     [Notice(Black, s.board, ScoringStarted, true), Notice(White, s.board, ScoringStarted, true)])
  }

  /**
   * The game ends and is scored: territory plus prisoners for each colour
   * (the komi is not added); Black wins only with the strictly larger score.
   */
  ghost function Finished(s: SessionState): (SessionState, seq<Notice>)
  {
    var black := TerritoryOf(s.board, Size, Black) + s.blackPrisoners;
    var white := TerritoryOf(s.board, Size, White) + s.whitePrisoners;
    var msg := GameOver(black, white, if black > white then Black else White);
    (s.(gameOver := true), [Notice(Black, s.board, msg, false), Notice(White, s.board, msg, false)])
  }

  /**
   * A move during the scoring phase: DONE marks the sender as finished and
   * ends the game once both are; anything else is a click.
   */
  ghost function ScoringStep(s: SessionState, m: Move, sender: Stone): (SessionState, seq<Notice>)
    requires IsGrid(s.board, Size)
  {
    if m.doneScoring then
      var s1 := if sender == Black then s.(blackDone := true) else s.(whiteDone := true);
      var waiting := [Notice(sender, s.board, WaitingForOpponent, false)];
      if s1.blackDone && s1.whiteDone then (Finished(s1).0, waiting + Finished(s1).1)
      else (s1, waiting)
    else Removal(s, m)
  }

  /**
   * A scoring-phase click: a stone on the clicked point is removed and
   * counted for the other colour, and both DONE marks are withdrawn; a
   * click off the board or on an empty point does nothing.
   */
  function Removal(s: SessionState, m: Move): (SessionState, seq<Notice>)
    requires IsGrid(s.board, Size)
  {
    if InBounds(Size, (m.x, m.y)) && At(s.board, (m.x, m.y)) != Empty then
      var target := At(s.board, (m.x, m.y));
      var b := Put(s.board, (m.x, m.y), Empty);
      var s1 := Credit(s, Opposite(target), 1).(board := b, blackDone := false, whiteDone := false);
      (s1, [Notice(Black, b, StoneRemoved, true), Notice(White, b, StoneRemoved, true)])
    else (s, [])
  }

  /** How the session handles a move from the player holding sender. */
  ghost function Step(s: SessionState, m: Move, sender: Stone): (SessionState, seq<Notice>)
    requires IsGrid(s.board, Size)
  {
    if s.gameOver then (s, [])
    else if s.scoring then ScoringStep(s, m, sender)
    else if m.resign then Resigned(s, sender)
    else if sender != s.turn then (s, [Notice(sender, s.board, NotYourTurn, false)])
    else if m.pass then
      var s1 := s.(passes := s.passes + 1);
      if s1.passes >= 2 then ScoringBegun(s1) else Switched(s1, sender, YouPassed, OpponentPassed)
    else Placement(s, m, sender)
  }

  /**
   * A placement by the player to move: the pass count is reset; a refused
   * placement is reported to the sender only, an accepted one takes the
   * new position, records the old one for the ko test, credits the
   * captures to the mover and passes the turn.
   */
  ghost function Placement(s: SessionState, m: Move, sender: Stone): (SessionState, seq<Notice>)
    requires IsGrid(s.board, Size)
  {
    var s1 := s.(passes := 0);
    match Play(s.board, Size, (m.x, m.y), s.turn, s.prev)
    case Illegal => (s1, [Notice(sender, s.board, InvalidMove, true)])
    case Legal(b, k) =>
      Switched(Credit(s1.(board := b, prev := Some(s.board)), s.turn, k), sender, MoveAccepted, YourTurn)
  }

  // ---- What the protocol guarantees ----

  /**
   * The states a session can reach: a full board, a colour to move, a ko
   * position of the board's size, no negative prisoner count, and a pass
   * count below two outside scoring and exactly two within it.
   */
  ghost predicate Inv(s: SessionState)
  {
    IsGrid(s.board, Size) && IsColour(s.turn) &&
    (s.prev.Some? ==> IsGrid(s.prev.value, Size)) &&
    s.blackPrisoners >= 0 && s.whitePrisoners >= 0 &&
    (if s.scoring then s.passes == 2 else 0 <= s.passes <= 1)
  }

  lemma InitialInv()
    ensures Inv(Initial())
    ensures forall p :: At(Initial().board, p) == Empty
  {
  }

  /** Every move keeps the session in a reachable state. */
  lemma StepPreservesInv(s: SessionState, m: Move, sender: Stone)
    requires Inv(s)
    ensures Inv(Step(s, m, sender).0)
  {
    if !s.gameOver && !s.scoring && !m.resign && sender == s.turn && !m.pass {
      var out := Play(s.board, Size, (m.x, m.y), s.turn, s.prev);
      if out.Legal? {
        PlayLegalChanges(s.board, Size, (m.x, m.y), s.turn, s.prev);
      }
    }
  }

  /** Prisoner counts never go down. */
  lemma PrisonersNeverDecrease(s: SessionState, m: Move, sender: Stone)
    requires Inv(s)
    ensures Step(s, m, sender).0.blackPrisoners >= s.blackPrisoners
    ensures Step(s, m, sender).0.whitePrisoners >= s.whitePrisoners
  {
  }

  /** Once the game is over every move is ignored, silently. */
  lemma GameOverIsFinal(s: SessionState, m: Move, sender: Stone)
    requires IsGrid(s.board, Size) && s.gameOver
    ensures Step(s, m, sender) == (s, [])
  {
  }

  /**
   * Outside scoring a resignation ends the game whoever sends it, in turn
   * or not; the board is untouched and the sender is told it lost.
   */
  lemma ResignEndsGame(s: SessionState, m: Move, sender: Stone)
    requires IsGrid(s.board, Size) && !s.gameOver && !s.scoring && m.resign
    ensures Step(s, m, sender).0 == s.(gameOver := true)
    ensures Step(s, m, sender).1[0] == Notice(sender, s.board, YouResigned, false)
  {
  }

  /** During scoring a resignation is not a scoring action: nothing happens. */
  lemma ResignIgnoredWhileScoring(s: SessionState, sender: Stone)
    requires IsGrid(s.board, Size) && !s.gameOver && s.scoring
    ensures Step(s, ResignMove(), sender) == (s, [])
  {
  }

  /** A pass or a placement out of turn changes nothing; only the sender hears about it. */
  lemma OutOfTurnIgnored(s: SessionState, m: Move, sender: Stone)
    requires IsGrid(s.board, Size) && !s.gameOver && !s.scoring && !m.resign && sender != s.turn
    ensures Step(s, m, sender).0 == s
    ensures Step(s, m, sender).1 == [Notice(sender, s.board, NotYourTurn, false)]
  {
  }

  /**
   * Only the player to move can change whose turn it is, and only with a
   * first pass or an accepted placement.
   */
  lemma TurnChangesOnlyByMover(s: SessionState, m: Move, sender: Stone)
    requires Inv(s)
    ensures Step(s, m, sender).0.turn != s.turn ==>
      !s.gameOver && !s.scoring && !m.resign && sender == s.turn &&
      (if m.pass then s.passes == 0
       else Play(s.board, Size, (m.x, m.y), s.turn, s.prev).Legal?)
    ensures Step(s, m, sender).0.turn != s.turn ==> Step(s, m, sender).0.turn == Opposite(s.turn)
  {
  }

  /**
   * Outside scoring the board changes only by an accepted placement of the
   * player to move, and the position before it becomes the ko position.
   */
  lemma BoardChangesOnlyByPlacement(s: SessionState, m: Move, sender: Stone)
    requires Inv(s) && !s.scoring
    ensures Step(s, m, sender).0.board != s.board ==>
      !s.gameOver && !m.resign && !m.pass && sender == s.turn &&
      Step(s, m, sender).0.board == Play(s.board, Size, (m.x, m.y), s.turn, s.prev).board &&
      Step(s, m, sender).0.prev == Some(s.board)
  {
  }

  /**
   * Two passes in a row, by the player to move and then by the opponent,
   * start the scoring phase: the board stays, the turn stays with the
   * second passer (entering scoring does not switch it), and both players
   * are told.
   */
  lemma TwoPassesStartScoring(s: SessionState)
    requires Inv(s) && !s.gameOver && !s.scoring && s.passes == 0
    ensures var s1 := Step(s, PassMove(), s.turn).0;
      s1.turn == Opposite(s.turn) && !s1.scoring && s1.passes == 1 &&
      var s2 := Step(s1, PassMove(), s1.turn).0;
      s2.scoring && !s2.blackDone && !s2.whiteDone && s2.board == s.board && s2.turn == s1.turn
  {
    OppositeInvolution(s.turn);
  }

  /**
   * An accepted placement: the stone stands on the board, no earlier
   * position before the previous move is repeated, the turn passes, the
   * pass count is reset and the mover is credited with exactly the stones
   * that disappeared from the board; the opponent's count is unchanged.
   */
  lemma AcceptedPlacement(s: SessionState, m: Move)
    requires Inv(s) && !s.gameOver && !s.scoring && !m.resign && !m.pass
    requires Play(s.board, Size, (m.x, m.y), s.turn, s.prev).Legal?
    ensures var s' := Step(s, m, s.turn).0;
      At(s'.board, (m.x, m.y)) == s.turn && Some(s'.board) != s.prev &&
      s'.turn == Opposite(s.turn) && s'.passes == 0 && s'.prev == Some(s.board) &&
      (s.turn == Black ==> s'.blackPrisoners == s.blackPrisoners + |Removed(s.board, s'.board, Size)| &&
                           s'.whitePrisoners == s.whitePrisoners) &&
      (s.turn == White ==> s'.whitePrisoners == s.whitePrisoners + |Removed(s.board, s'.board, Size)| &&
                           s'.blackPrisoners == s.blackPrisoners)
  {
    PlayLegalChanges(s.board, Size, (m.x, m.y), s.turn, s.prev);
    PlayCountsCaptures(s.board, Size, (m.x, m.y), s.turn, s.prev);
  }

  /**
   * A refused placement leaves the position and the turn as they were;
   * only the pass count is reset and the sender may try again.
   */
  lemma RefusedPlacement(s: SessionState, m: Move)
    requires Inv(s) && !s.gameOver && !s.scoring && !m.resign && !m.pass
    requires Play(s.board, Size, (m.x, m.y), s.turn, s.prev) == Illegal
    ensures Step(s, m, s.turn).0 == s.(passes := 0)
    ensures Step(s, m, s.turn).1 == [Notice(s.turn, s.board, InvalidMove, true)]
  {
  }

  /**
   * In scoring, clicking a stone removes exactly that stone, credits it to
   * the other colour and withdraws both DONE marks.
   */
  lemma ScoringRemoval(s: SessionState, m: Move, sender: Stone)
    requires Inv(s) && !s.gameOver && s.scoring && !m.doneScoring
    requires InBounds(Size, (m.x, m.y)) && At(s.board, (m.x, m.y)) != Empty
    ensures var s' := Step(s, m, sender).0;
      At(s'.board, (m.x, m.y)) == Empty &&
      (forall p :: p != (m.x, m.y) ==> At(s'.board, p) == At(s.board, p)) &&
      !s'.blackDone && !s'.whiteDone && !s'.gameOver &&
      s'.blackPrisoners + s'.whitePrisoners == s.blackPrisoners + s.whitePrisoners + 1 &&
      (At(s.board, (m.x, m.y)) == Black ==> s'.whitePrisoners == s.whitePrisoners + 1 &&
                                            s'.blackPrisoners == s.blackPrisoners) &&
      (At(s.board, (m.x, m.y)) == White ==> s'.blackPrisoners == s.blackPrisoners + 1 &&
                                            s'.whitePrisoners == s.whitePrisoners) &&
      s'.turn == s.turn && s'.passes == s.passes && s'.prev == s.prev
  {
  }

  /** In scoring, a click on an empty point or off the board does nothing. */
  lemma ScoringClickOnNothing(s: SessionState, m: Move, sender: Stone)
    requires IsGrid(s.board, Size) && !s.gameOver && s.scoring && !m.doneScoring
    requires !InBounds(Size, (m.x, m.y)) || At(s.board, (m.x, m.y)) == Empty
    ensures Step(s, m, sender) == (s, [])
  {
  }

  /**
   * A DONE in scoring marks the sender as finished and leaves the board and
   * the prisoners alone. The game ends exactly when the other colour is
   * already done; both players then get the scores, and a tie goes to
   * White. Otherwise only the sender's mark changes.
   */
  lemma ScoringEnds(s: SessionState, m: Move, sender: Stone)
    requires IsGrid(s.board, Size) && !s.gameOver && s.scoring && m.doneScoring
    ensures var s' := Step(s, m, sender).0;
      (sender == Black ==> s'.blackDone) && (sender != Black ==> s'.whiteDone) &&
      s'.board == s.board && s'.scoring &&
      s'.blackPrisoners == s.blackPrisoners && s'.whitePrisoners == s.whitePrisoners
    ensures var s' := Step(s, m, sender).0;
      !s'.gameOver ==> s' == (if sender == Black then s.(blackDone := true) else s.(whiteDone := true))
    ensures Step(s, m, sender).1[0] == Notice(sender, s.board, WaitingForOpponent, false)
    ensures Step(s, m, sender).0.gameOver <==> (if sender == Black then s.whiteDone else s.blackDone)
    ensures Step(s, m, sender).0.gameOver ==>
      var black := TerritoryOf(s.board, Size, Black) + s.blackPrisoners;
      var white := TerritoryOf(s.board, Size, White) + s.whitePrisoners;
      Step(s, m, sender).1[1] == Notice(Black, s.board, GameOver(black, white, if black > white then Black else White), false) &&
      (black == white ==> Step(s, m, sender).1[1].msg.winner == White)
  {
  }
}
