/** A move sent by a player to the session. */
module Moves {

  /**
   * The flags are independent booleans, as in Java's `Move` record; the
   * session tests them in a fixed order (resign, then pass, then placement;
   * doneScoring only in the scoring phase). Coordinates are -1 for the
   * factories that do not place a stone.
   */
  datatype Move = Move(x: int, y: int, pass: bool, resign: bool, doneScoring: bool)

  /** A plain placement at (x, y). */
  function Place(x: int, y: int): (m: Move)
    ensures m.x == x && m.y == y
    ensures !m.pass && !m.resign && !m.doneScoring
  {
    Move(x, y, false, false, false)
  }

  function PassMove(): (m: Move)
    ensures m.pass && !m.resign && !m.doneScoring
    ensures m.x == -1 && m.y == -1
  {
    Move(-1, -1, true, false, false)
  }

  function ResignMove(): (m: Move)
    ensures m.resign && !m.pass && !m.doneScoring
    ensures m.x == -1 && m.y == -1
  {
    Move(-1, -1, false, true, false)
  }

  /** The scoring-phase confirmation. */
  function DoneMove(): (m: Move)
    ensures m.doneScoring && !m.pass && !m.resign
    ensures m.x == -1 && m.y == -1
  {
    Move(-1, -1, false, false, true)
  }

  /** At most one of the three intents is set. */
  predicate SingleIntent(m: Move)
  {
    (if m.pass then 1 else 0) + (if m.resign then 1 else 0) + (if m.doneScoring then 1 else 0) <= 1
  }

  /** No factory builds a move that both passes and resigns, or has two intents. */
  lemma FactoriesHaveSingleIntent(x: int, y: int)
    ensures SingleIntent(Place(x, y)) && SingleIntent(PassMove())
    ensures SingleIntent(ResignMove()) && SingleIntent(DoneMove())
    ensures !(PassMove().pass && PassMove().resign) && !(ResignMove().pass && ResignMove().resign)
  {
  }
}
