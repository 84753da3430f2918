/**
 * The text form of a board that the session sends to its players, and the
 * reading of that text back into cells that the bot performs. Rows are
 * board rows (one per y), each cell a symbol followed by a space, each row
 * ended by a newline.
 */
module BoardText {
  import opened Stones
  import opened Grids

  function Symbol(s: Stone): (c: char)
    ensures c != ' ' && c != '\n'
  {
    if s == Black then 'B' else if s == White then 'W' else '.'
  }

  /** The first k cells of row y: "c " for each. */
  function LineUpTo(g: Grid, y: int, k: nat): (r: string)
    ensures |r| == 2 * k
  {
    if k == 0 then "" else LineUpTo(g, y, k - 1) + [Symbol(At(g, (k - 1, y))), ' ']
  }

  /** The first k rows of an n-wide board, each ended by a newline. */
  function RowsUpTo(g: Grid, n: nat, k: nat): string
  {
    if k == 0 then "" else RowsUpTo(g, n, k - 1) + LineUpTo(g, k - 1, n) + "\n"
  }

  /** The text of an n x n board. */
  function Render(g: Grid, n: nat): string
  {
    RowsUpTo(g, n, n)
  }

  lemma {:induction false} LineShape(g: Grid, y: int, k: nat)
    ensures forall x :: 0 <= x < k ==>
      LineUpTo(g, y, k)[2 * x] == Symbol(At(g, (x, y))) && LineUpTo(g, y, k)[2 * x + 1] == ' '
    ensures '\n' !in LineUpTo(g, y, k)
  {
    if k > 0 {
      LineShape(g, y, k - 1);
    }
  }

  lemma {:induction false} RowsLength(g: Grid, n: nat, k: nat)
    ensures |RowsUpTo(g, n, k)| == k * (2 * n + 1)
  {
    if k > 0 {
      RowsLength(g, n, k - 1);
      assert k * (2 * n + 1) == (k - 1) * (2 * n + 1) + (2 * n + 1);
    }
  }

  /** The text of the first j rows begins the text of the first k. */
  lemma {:induction false} RowsPrefix(g: Grid, n: nat, j: nat, k: nat)
    requires j <= k
    ensures RowsUpTo(g, n, j) <= RowsUpTo(g, n, k)
  {
    if j < k {
      RowsPrefix(g, n, j, k - 1);
    }
  }

  /**
   * The text has n rows of n cells: the symbol of cell (x, y) stands at
   * column 2x of row y, followed by a space, and each row ends in a newline.
   */
  lemma {:induction false} RenderLayout(g: Grid, n: nat, x: int, y: int)
    requires InBounds(n, (x, y))
    ensures |Render(g, n)| == n * (2 * n + 1)
    ensures 0 <= y * (2 * n + 1) && y * (2 * n + 1) + 2 * n < |Render(g, n)|
    ensures Render(g, n)[y * (2 * n + 1) + 2 * x] == Symbol(At(g, (x, y)))
    ensures Render(g, n)[y * (2 * n + 1) + 2 * x + 1] == ' '
    ensures Render(g, n)[y * (2 * n + 1) + 2 * n] == '\n'
  {
    var text := Render(g, n);
    var before := RowsUpTo(g, n, y);
    var line := LineUpTo(g, y, n);
    RowsLength(g, n, n);
    RowsLength(g, n, y);
    RowsPrefix(g, n, y + 1, n);
    LineShape(g, y, n);
    assert RowsUpTo(g, n, y + 1) == before + line + "\n";
    RowChars(text, before + line + "\n", |before|, line, x, n);
  }

  lemma RowChars(text: string, head: string, base: nat, line: string, x: nat, n: nat)
    requires |line| == 2 * n && x < n
    requires head <= text && |head| == base + 2 * n + 1
    requires head[base..] == line + "\n"
    ensures text[base + 2 * x] == line[2 * x]
    ensures text[base + 2 * x + 1] == line[2 * x + 1]
    ensures text[base + 2 * n] == '\n'
  {
    assert head[base..][2 * x] == line[2 * x];
    assert head[base..][2 * x + 1] == line[2 * x + 1];
    assert head[base..][2 * n] == '\n';
  }

  // ---- Splitting, with the semantics of Java's String.split on one character ----

  /** All the pieces between delimiters, empty ones included. */
  function Pieces(s: string, d: char): (r: seq<string>)
    ensures |r| >= 1
    decreases |s|
  {
    if |s| == 0 then [""]
    else
      var rest := Pieces(s[1..], d);
      if s[0] == d then [""] + rest else [[s[0]] + rest[0]] + rest[1..]
  }

  function DropTrailingEmpty(ps: seq<string>): seq<string>
  {
    if |ps| > 0 && ps[|ps| - 1] == "" then DropTrailingEmpty(ps[..|ps| - 1]) else ps
  }

  /**
   * Java's split on a one-character pattern: the whole string when the
   * delimiter does not occur, otherwise the pieces with trailing empty
   * pieces removed.
   */
  function Split(s: string, d: char): seq<string>
  {
    if d !in s then [s] else DropTrailingEmpty(Pieces(s, d))
  }

  lemma {:induction false} PiecesNoDelimiter(a: string, d: char)
    requires d !in a
    ensures Pieces(a, d) == [a]
  {
    if |a| > 0 {
      PiecesNoDelimiter(a[1..], d);
      assert [a[0]] + a[1..] == a;
    }
  }

  lemma {:induction false} PiecesConcat(a: string, b: string, d: char)
    requires d !in a
    ensures Pieces(a + [d] + b, d) == [a] + Pieces(b, d)
    decreases |a|
  {
    var s := a + [d] + b;
    if |a| == 0 {
      assert s[0] == d && s[1..] == b;
    } else {
      assert s[0] == a[0] && s[1..] == a[1..] + [d] + b;
      PiecesConcat(a[1..], b, d);
      assert [a[0]] + a[1..] == a;
    }
  }

  // ---- Reading the text back ----

  function StoneOf(token: string): Stone
  {
    if token == "B" then Black else if token == "W" then White else Empty
  }

  /** The x-th space-separated token of a row, or "" past its end. */
  function Token(row: string, x: int): string
  {
    var cells := Split(row, ' ');
    if 0 <= x < |cells| then cells[x] else ""
  }

  /**
   * No row has a B or W token at a column past the row count: the reader
   * writes those two tokens into a board as wide as the row count, so such
   * a token would index outside the board. Other tokens are skipped.
   */
  predicate Parsable(text: string)
  {
    var rows := Split(text, '\n');
    forall y, x :: 0 <= y < |rows| && |rows| <= x < |Split(rows[y], ' ')| ==> StoneOf(Split(rows[y], ' ')[x]) == Empty
  }

  /** The cells the reader builds: one row per line, the row count as the size. */
  function ParseGrid(text: string): (g: Grid)
    ensures IsGrid(g, |Split(text, '\n')|)
  {
    var rows := Split(text, '\n');
    var n := |rows|;
    seq(n, x => seq(n, y requires 0 <= y < n => StoneOf(Token(rows[y], x))))
  }

  /** The first k rows of the text, newlines dropped. */
  function Lines(g: Grid, n: nat, k: nat): (r: seq<string>)
    ensures |r| == k && forall y :: 0 <= y < k ==> r[y] == LineUpTo(g, y, n)
  {
    if k == 0 then [] else Lines(g, n, k - 1) + [LineUpTo(g, k - 1, n)]
  }

  /** The first k tokens of row y: each cell's symbol on its own. */
  function Tokens(g: Grid, y: int, k: nat): (r: seq<string>)
    ensures |r| == k && forall x :: 0 <= x < k ==> r[x] == [Symbol(At(g, (x, y)))]
  {
    if k == 0 then [] else Tokens(g, y, k - 1) + [[Symbol(At(g, (k - 1, y)))]]
  }

  /** One more delimited piece after a prefix whose pieces are known. */
  lemma PiecesStep(a: string, piece: string, t: string, d: char, before: seq<string>)
    requires d !in piece
    requires Pieces(a + (piece + [d] + t), d) == before + Pieces(piece + [d] + t, d)
    ensures Pieces(a + piece + [d] + t, d) == (before + [piece]) + Pieces(t, d)
  {
    assert a + piece + [d] + t == a + (piece + [d] + t);
    PiecesConcat(piece, t, d);
  }

  lemma {:induction false} SplitRows(g: Grid, n: nat, k: nat, t: string)
    ensures Pieces(RowsUpTo(g, n, k) + t, '\n') == Lines(g, n, k) + Pieces(t, '\n')
  {
    if k == 0 {
      assert RowsUpTo(g, n, k) + t == t;
    } else {
      var line := LineUpTo(g, k - 1, n);
      LineShape(g, k - 1, n);
      SplitRows(g, n, k - 1, line + ['\n'] + t);
      PiecesStep(RowsUpTo(g, n, k - 1), line, t, '\n', Lines(g, n, k - 1));
      assert RowsUpTo(g, n, k) + t == RowsUpTo(g, n, k - 1) + line + ['\n'] + t;
    }
  }

  lemma {:induction false} SplitLine(g: Grid, y: int, k: nat, t: string)
    ensures Pieces(LineUpTo(g, y, k) + t, ' ') == Tokens(g, y, k) + Pieces(t, ' ')
  {
    if k == 0 {
      assert LineUpTo(g, y, k) + t == t;
    } else {
      var c := Symbol(At(g, (k - 1, y)));
      SplitLine(g, y, k - 1, [c] + [' '] + t);
      PiecesStep(LineUpTo(g, y, k - 1), [c], t, ' ', Tokens(g, y, k - 1));
      assert LineUpTo(g, y, k) + t == LineUpTo(g, y, k - 1) + [c] + [' '] + t;
    }
  }

  lemma DropOneTrailingEmpty(ps: seq<string>)
    requires |ps| > 0 && ps[|ps| - 1] != ""
    ensures DropTrailingEmpty(ps + [""]) == ps
  {
    assert (ps + [""])[..|ps|] == ps;
  }

  /** A row of an n-wide board splits into its n one-symbol tokens. */
  lemma SplitRenderedLine(g: Grid, y: int, n: nat)
    requires n >= 1
    ensures Split(LineUpTo(g, y, n), ' ') == Tokens(g, y, n)
  {
    var line := LineUpTo(g, y, n);
    LineShape(g, y, n);
    assert line[2 * 0 + 1] == ' ';
    SplitLine(g, y, n, "");
    assert line + "" == line;
    var toks := Tokens(g, y, n);
    assert Pieces(line, ' ') == toks + Pieces("", ' ');
    DropOneTrailingEmpty(toks);
  }

  /** The text of a board of size n >= 1 splits into its n rows. */
  lemma SplitRendered(g: Grid, n: nat)
    requires n >= 1
    ensures Split(Render(g, n), '\n') == Lines(g, n, n)
  {
    var text := Render(g, n);
    var lines := Lines(g, n, n);
    assert text == RowsUpTo(g, n, n - 1) + LineUpTo(g, n - 1, n) + "\n";
    assert text[|text| - 1] == '\n';
    SplitRows(g, n, n, "");
    assert text + "" == text;
    assert Pieces(text, '\n') == lines + Pieces("", '\n');
    assert |lines[n - 1]| == 2 * n;
    DropOneTrailingEmpty(lines);
  }

  lemma StoneOfSymbol(s: Stone)
    ensures StoneOf([Symbol(s)]) == s
  {
  }

  /** The rows of a rendered board split into their tokens. */
  lemma RenderedRows(g: Grid, n: nat)
    requires n >= 1
    ensures |Split(Render(g, n), '\n')| == n
    ensures forall y :: 0 <= y < n ==> Split(Split(Render(g, n), '\n')[y], ' ') == Tokens(g, y, n)
  {
    SplitRendered(g, n);
    forall y | 0 <= y < n
      ensures Split(Lines(g, n, n)[y], ' ') == Tokens(g, y, n)
    {
      SplitRenderedLine(g, y, n);
    }
  }

  /** The reader puts back the stone of every point. */
  lemma ParseRenderCell(g: Grid, n: nat, p: Pos)
    requires n >= 1 && InBounds(n, p)
    ensures |Split(Render(g, n), '\n')| == n
    ensures At(ParseGrid(Render(g, n)), p) == At(g, p)
  {
    var text := Render(g, n);
    RenderedRows(g, n);
    var rows := Split(text, '\n');
    assert Token(rows[p.1], p.0) == [Symbol(At(g, p))];
    StoneOfSymbol(At(g, p));
  }

  /**
   * Reading the text of a board gives the board back: the row count is the
   * size and every symbol maps to its stone.
   */
  lemma ParseRender(g: Grid, n: nat)
    requires n >= 1 && IsGrid(g, n)
    ensures Parsable(Render(g, n))
    ensures |Split(Render(g, n), '\n')| == n
    ensures ParseGrid(Render(g, n)) == g
  {
    RenderedRows(g, n);
    forall p | InBounds(n, p)
      ensures At(ParseGrid(Render(g, n)), p) == At(g, p)
    {
      ParseRenderCell(g, n, p);
    }
    GridExt(ParseGrid(Render(g, n)), g, n);
  }

  /** The empty board of size 0 renders as "", which reads back as one row. */
  lemma ParseRenderSizeZero(g: Grid)
    ensures Render(g, 0) == ""
    ensures |Split(Render(g, 0), '\n')| == 1
    ensures ParseGrid(Render(g, 0)) == [[Empty]]
  {
    assert Split("", '\n') == [""];
    assert Token("", 0) == "";
    var h := ParseGrid("");
    assert h[0][0] == Empty;
    assert h[0] == [Empty];
  }
}
