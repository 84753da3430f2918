/**
 * The board object: an N x N array of stones written in place by the
 * engines. Its ghost field cells is the value the rest of the model
 * reasons about; Valid() ties the array to it.
 */
module Boards {
  import opened Stones
  import opened Grids
  import opened BoardText

  class Board {
    const size: nat
    const grid: array2<Stone>
    ghost var cells: Grid

    ghost predicate Valid()
      reads this, grid
    {
      grid.Length0 == size && grid.Length1 == size && IsGrid(cells, size) &&
      forall x, y :: 0 <= x < size && 0 <= y < size ==> grid[x, y] == cells[x][y]
    }

    /** A board of the given size with every point empty. */
    constructor (size: nat)
      ensures Valid() && fresh(grid)
      ensures this.size == size
      ensures forall p :: At(cells, p) == Empty
    {
      var g := new Stone[size, size];
      for i := 0 to size
        invariant forall a, b :: 0 <= a < i && 0 <= b < size ==> g[a, b] == Empty
      {
        for j := 0 to size
          invariant forall a, b :: 0 <= a < i && 0 <= b < size ==> g[a, b] == Empty
          invariant forall b :: 0 <= b < j ==> g[i, b] == Empty
        {
          g[i, j] := Empty;
        }
      }
      this.size := size;
      grid := g;
      cells := EmptyGrid(size);
    }

    /** Whether (x, y) is a point of this board. */
    predicate InBounds(x: int, y: int)
    {
      x >= 0 && y >= 0 && x < size && y < size
    }

    lemma InBoundsIsCell(x: int, y: int)
      ensures InBounds(x, y) <==> (x, y) in AllCells(size)
    {
    }

    function Get(x: int, y: int): (s: Stone)
      reads this, grid
      requires Valid() && InBounds(x, y)
      ensures s == At(cells, (x, y))
    {
      grid[x, y]
    }

    function GetSize(): (n: nat)
      reads this, grid
      requires Valid()
      ensures n == |cells|
    {
      size
    }

    /** Writes one point; every other point keeps its stone. */
    method Set(x: int, y: int, s: Stone)
      requires Valid() && InBounds(x, y)
      modifies this, grid
      ensures Valid()
      ensures cells == Put(old(cells), (x, y), s)
      ensures Get(x, y) == s
      ensures forall p :: p != (x, y) ==> At(cells, p) == At(old(cells), p)
    {
      grid[x, y] := s;
      cells := Put(cells, (x, y), s);
    }

    /** The board as text, rows by y, each point a symbol and a space. */
    method ToString() returns (text: string)
      requires Valid()
      ensures text == Render(cells, size)
    {
      text := "";
      for y := 0 to size
        invariant text == RowsUpTo(cells, size, y)
      {
        for x := 0 to size
          invariant text == RowsUpTo(cells, size, y) + LineUpTo(cells, y, x)
        {
          text := text + [if grid[x, y] == Black then 'B' else if grid[x, y] == White then 'W' else '.'];
          text := text + [' '];
        }
        text := text + "\n";
      }
    }

    /** A new board of the same size holding the same stones, sharing no storage. */
    method Copy() returns (b: Board)
      requires Valid()
      ensures fresh(b) && fresh(b.grid) && b.Valid()
      ensures b.size == size && b.cells == cells
    {
      b := new Board(size);
      for x := 0 to size
        invariant fresh(b.grid) && b.grid.Length0 == size && b.grid.Length1 == size
        invariant forall a, c :: 0 <= a < x && 0 <= c < size ==> b.grid[a, c] == grid[a, c]
      {
        for y := 0 to size
          invariant forall a, c :: 0 <= a < x && 0 <= c < size ==> b.grid[a, c] == grid[a, c]
          invariant forall c :: 0 <= c < y ==> b.grid[x, c] == grid[x, c]
        {
          b.grid[x, y] := grid[x, y];
        }
      }
      b.cells := cells;
    }

    /** Equal when the other is a board of the same size with the same stone on every point. */
    method Equals(o: Board?) returns (r: bool)
      requires Valid() && (o != null ==> o.Valid())
      ensures r <==> o != null && o.size == size && o.cells == cells
    {
      if o == null {
        return false;
      }
      if size != o.size {
        return false;
      }
      for x := 0 to size
        invariant forall a, c :: 0 <= a < x && 0 <= c < size ==> grid[a, c] == o.grid[a, c]
      {
        for y := 0 to size
          invariant forall a, c :: 0 <= a < x && 0 <= c < size ==> grid[a, c] == o.grid[a, c]
          invariant forall c :: 0 <= c < y ==> grid[x, c] == o.grid[x, c]
        {
          if grid[x, y] != o.grid[x, y] {
            assert cells[x][y] != o.cells[x][y];
            return false;
          }
        }
      }
      GridExt(cells, o.cells, size);
      return true;
    }
  }
}
