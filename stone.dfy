/** The value of one board point: a black stone, a white stone or nothing. */
module Stones {

  datatype Stone = Black | White | Empty

  /** A colour that a player can play: Black or White. */
  predicate IsColour(s: Stone) { s != Empty }

  /**
   * The opponent's colour. Java's `Stone.opposite()` returns Black for every
   * value other than Black, so Opposite(Empty) is Black although the doc
   * comment of `Stone.opposite()` says Empty.
   */
  function Opposite(s: Stone): (r: Stone)
    ensures r != Empty
    ensures IsColour(s) ==> r != s
  {
    if s == Black then White else Black
  }

  lemma OppositeOfColours()
    ensures Opposite(Black) == White && Opposite(White) == Black
  {
  }

  /** On the two colours Opposite is its own inverse. */
  lemma OppositeInvolution(s: Stone)
    requires IsColour(s)
    ensures Opposite(Opposite(s)) == s
  {
  }

  /** What the code does for Empty, against its doc comment. */
  lemma OppositeOfEmpty()
    ensures Opposite(Empty) == Black
    ensures Opposite(Empty) != Empty
  {
  }
}
