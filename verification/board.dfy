/**
 The 3x3 board of the game: cell marks, the two players and the mark each
 one places, board updates, the three-in-a-row check, and the rendering of
 a board as the strings the user interface stores and displays.
 */
module Board {

  /** One board cell. The user interface stores "", "0" and "X". */
  datatype Cell = Empty | Nought | Cross {

    /** The text the user interface stores for this cell. */
    function Text(): string {
      match this
      case Empty => ""
      case Nought => "0"
      case Cross => "X"
    }
  }

  /** The two players; the user interface names them "Player 1" and "Player 2". */
  datatype Player = PlayerOne | PlayerTwo {

    function Name(): string {
      match this
      case PlayerOne => "Player 1"
      case PlayerTwo => "Player 2"
    }

    /** The player who moves next after this one. */
    function Other(): (p: Player)
      ensures p != this
    {
      if this == PlayerOne then PlayerTwo else PlayerOne
    }

    /** The mark this player places: "0" for Player 1, "X" for Player 2. */
    function Mark(): (c: Cell)
      ensures c != Empty
      ensures c.Text() == (if this.Name() == "Player 1" then "0" else "X")
    {
      if this == PlayerOne then Nought else Cross
    }
  }

  /** A board as rows of cells; only 3x3 boards occur. */
  type Grid = seq<seq<Cell>>

  predicate WellFormed(b: Grid) {
    |b| == 3 && forall i :: 0 <= i < |b| ==> |b[i]| == 3
  }

  predicate InRange(row: int, col: int) {
    0 <= row < 3 && 0 <= col < 3
  }

  /** The board of a fresh game: three rows of three empty cells. */
  function EmptyGrid(): (b: Grid)
    ensures WellFormed(b)
    ensures forall i, j :: InRange(i, j) ==> b[i][j] == Empty
  {
    [[Empty, Empty, Empty], [Empty, Empty, Empty], [Empty, Empty, Empty]]
  }

  /** The board with one cell overwritten and every other cell kept. */
  function Place(b: Grid, row: int, col: int, c: Cell): (b': Grid)
    requires WellFormed(b) && InRange(row, col)
    ensures WellFormed(b')
    ensures b'[row][col] == c
    ensures forall i, j :: InRange(i, j) && (i != row || j != col) ==> b'[i][j] == b[i][j]
  {
    b[row := b[row][col := c]]
  }

  /**
   The winning condition exactly as the game checks it after every accepted
   move: rows 0 to 2, columns 0 to 2, the main diagonal and then the
   anti-diagonal, each complete when its three cells are equal and the first
   one tested is not empty.
   */
  predicate ThreeInARow(b: Grid)
    requires WellFormed(b)
  {
    || (b[0][0] == b[0][1] && b[0][1] == b[0][2] && b[0][0] != Empty)
    || (b[1][0] == b[1][1] && b[1][1] == b[1][2] && b[1][0] != Empty)
    || (b[2][0] == b[2][1] && b[2][1] == b[2][2] && b[2][0] != Empty)
    || (b[0][0] == b[1][0] && b[1][0] == b[2][0] && b[0][0] != Empty)
    || (b[0][1] == b[1][1] && b[1][1] == b[2][1] && b[0][1] != Empty)
    || (b[0][2] == b[1][2] && b[1][2] == b[2][2] && b[0][2] != Empty)
    || (b[0][0] == b[1][1] && b[1][1] == b[2][2] && b[0][0] != Empty)
    || (b[2][0] == b[1][1] && b[1][1] == b[0][2] && b[2][0] != Empty)
  }

  // An independent description of the same condition: a table of the eight
  // lines of the board and a per-line test.

  datatype Pos = Pos(row: int, col: int)

  /** Three cells that make a line: a row, a column or a diagonal. */
  datatype Line = Line(first: Pos, second: Pos, third: Pos) {

    predicate Within() {
      InRange(first.row, first.col) && InRange(second.row, second.col) && InRange(third.row, third.col)
    }

    predicate Contains(p: Pos) {
      p == first || p == second || p == third
    }
  }

  function Row(r: int): Line {
    Line(Pos(r, 0), Pos(r, 1), Pos(r, 2))
  }

  function Column(c: int): Line {
    Line(Pos(0, c), Pos(1, c), Pos(2, c))
  }

  /** The eight lines of the board. */
  const Lines: seq<Line> := [
    Row(0), Row(1), Row(2),
    Column(0), Column(1), Column(2),
    Line(Pos(0, 0), Pos(1, 1), Pos(2, 2)),
    Line(Pos(2, 0), Pos(1, 1), Pos(0, 2))
  ]

  lemma LinesWithinBoard()
    ensures |Lines| == 8
    ensures forall k :: 0 <= k < |Lines| ==> Lines[k].Within()
  {
  }

  function At(b: Grid, p: Pos): Cell
    requires WellFormed(b) && InRange(p.row, p.col)
  {
    b[p.row][p.col]
  }

  /** A line is complete when its three cells hold the same mark. */
  predicate Completed(b: Grid, l: Line)
    requires WellFormed(b) && l.Within()
  {
    At(b, l.first) != Empty && At(b, l.first) == At(b, l.second) && At(b, l.second) == At(b, l.third)
  }

  predicate SomeLineCompleted(b: Grid)
    requires WellFormed(b)
  {
    exists k :: 0 <= k < |Lines| && Completed(b, Lines[k])
  }

  /** The game's hand-written check decides exactly "some line of the table is complete". */
  lemma ThreeInARowIsSomeLine(b: Grid)
    requires WellFormed(b)
    ensures ThreeInARow(b) <==> SomeLineCompleted(b)
  {
    if ThreeInARow(b) {
      if b[0][0] == b[0][1] && b[0][1] == b[0][2] && b[0][0] != Empty {
        assert Completed(b, Lines[0]);
      } else if b[1][0] == b[1][1] && b[1][1] == b[1][2] && b[1][0] != Empty {
        assert Completed(b, Lines[1]);
      } else if b[2][0] == b[2][1] && b[2][1] == b[2][2] && b[2][0] != Empty {
        assert Completed(b, Lines[2]);
      } else if b[0][0] == b[1][0] && b[1][0] == b[2][0] && b[0][0] != Empty {
        assert Completed(b, Lines[3]);
      } else if b[0][1] == b[1][1] && b[1][1] == b[2][1] && b[0][1] != Empty {
        assert Completed(b, Lines[4]);
      } else if b[0][2] == b[1][2] && b[1][2] == b[2][2] && b[0][2] != Empty {
        assert Completed(b, Lines[5]);
      } else if b[0][0] == b[1][1] && b[1][1] == b[2][2] && b[0][0] != Empty {
        assert Completed(b, Lines[6]);
      } else {
        assert Completed(b, Lines[7]);
      }
    }
  }

  /**
   Writing a mark into an empty cell of a board with no complete line can
   only complete lines through that cell, and those lines hold that mark.
   */
  lemma NewLinesRunThroughMove(b: Grid, row: int, col: int, c: Cell)
    requires WellFormed(b) && InRange(row, col)
    requires !ThreeInARow(b)
    ensures forall k :: 0 <= k < |Lines| && Completed(Place(b, row, col, c), Lines[k]) ==>
      Lines[k].Contains(Pos(row, col)) && At(Place(b, row, col, c), Lines[k].first) == c
  {
    LinesWithinBoard();
    ThreeInARowIsSomeLine(b);
    var b' := Place(b, row, col, c);
    forall k | 0 <= k < |Lines| && Completed(b', Lines[k])
      ensures Lines[k].Contains(Pos(row, col)) && At(b', Lines[k].first) == c
    {
      var l := Lines[k];
      if !l.Contains(Pos(row, col)) {
        LineAwayFromMove(b, row, col, c, l);
        assert false;
      }
    }
  }

  /** A line that does not pass through the written cell is as complete as before. */
  lemma LineAwayFromMove(b: Grid, row: int, col: int, c: Cell, l: Line)
    requires WellFormed(b) && InRange(row, col) && l.Within()
    requires !l.Contains(Pos(row, col))
    ensures Completed(Place(b, row, col, c), l) == Completed(b, l)
  {
    var b' := Place(b, row, col, c);
    assert At(b', l.first) == At(b, l.first);
    assert At(b', l.second) == At(b, l.second);
    assert At(b', l.third) == At(b, l.third);
  }

  /** Every cell is filled. */
  predicate Full(b: Grid)
    requires WellFormed(b)
  {
    forall i, j :: 0 <= i < 3 && 0 <= j < 3 ==> b[i][j] != Empty
  }

  // Counting marks.

  function Filled(r: seq<Cell>): (n: nat)
    ensures n <= |r|
    ensures n == 0 <==> forall j :: 0 <= j < |r| ==> r[j] == Empty
  {
    if r == [] then 0 else (if r[0] == Empty then 0 else 1) + Filled(r[1..])
  }

  /** The number of marks on the board. */
  function Marks(b: Grid): nat
    requires WellFormed(b)
  {
    Filled(b[0]) + Filled(b[1]) + Filled(b[2])
  }

  lemma {:induction false} FilledAfterFill(r: seq<Cell>, j: int, c: Cell)
    requires 0 <= j < |r| && r[j] == Empty && c != Empty
    ensures Filled(r[j := c]) == Filled(r) + 1
  {
    if j == 0 {
      assert r[j := c][1..] == r[1..];
    } else {
      FilledAfterFill(r[1..], j - 1, c);
      assert r[j := c][1..] == r[1..][j - 1 := c];
    }
  }

  /** Filling an empty cell adds exactly one mark to the board. */
  lemma PlaceAddsOneMark(b: Grid, row: int, col: int, c: Cell)
    requires WellFormed(b) && InRange(row, col)
    requires b[row][col] == Empty && c != Empty
    ensures Marks(Place(b, row, col, c)) == Marks(b) + 1
  {
    FilledAfterFill(b[row], col, c);
    var b' := Place(b, row, col, c);
    assert forall i :: 0 <= i < 3 && i != row ==> b'[i] == b[i];
  }

  // The board as the user interface stores it: rows of strings.

  /**
   The board as rows of the strings the user interface stores: each cell's
   own text, so every text is one of "", "0" and "X", and it is empty exactly
   for an empty cell.
   */
  function Render(b: Grid): (t: seq<seq<string>>)
    requires WellFormed(b)
    ensures |t| == 3 && forall i :: 0 <= i < 3 ==> |t[i]| == 3
    ensures forall i, j :: InRange(i, j) ==> t[i][j] in {"", "0", "X"}
    ensures forall i, j :: InRange(i, j) ==> (t[i][j] == "" <==> b[i][j] == Empty)
    ensures forall i, j, i', j' :: InRange(i, j) && InRange(i', j') ==>
      (t[i][j] == t[i'][j'] <==> b[i][j] == b[i'][j'])
    ensures forall i, j :: InRange(i, j) ==> t[i][j] == b[i][j].Text()
  {
    seq(3, i requires 0 <= i < 3 => seq(3, j requires 0 <= j < 3 => b[i][j].Text()))
  }

  /** The winning condition over the stored strings, as the game writes it. */
  predicate ThreeInARowText(t: seq<seq<string>>)
    requires |t| == 3 && forall i :: 0 <= i < 3 ==> |t[i]| == 3
  {
    || (t[0][0] == t[0][1] && t[0][1] == t[0][2] && t[0][0] != "")
    || (t[1][0] == t[1][1] && t[1][1] == t[1][2] && t[1][0] != "")
    || (t[2][0] == t[2][1] && t[2][1] == t[2][2] && t[2][0] != "")
    || (t[0][0] == t[1][0] && t[1][0] == t[2][0] && t[0][0] != "")
    || (t[0][1] == t[1][1] && t[1][1] == t[2][1] && t[0][1] != "")
    || (t[0][2] == t[1][2] && t[1][2] == t[2][2] && t[0][2] != "")
    || (t[0][0] == t[1][1] && t[1][1] == t[2][2] && t[0][0] != "")
    || (t[2][0] == t[1][1] && t[1][1] == t[0][2] && t[2][0] != "")
  }

  /** Checking marks on cells decides the same as checking the stored strings. */
  lemma RenderedCheckAgrees(b: Grid)
    requires WellFormed(b)
    ensures ThreeInARow(b) <==> ThreeInARowText(Render(b))
  {
    var t := Render(b);
    assert t[0][0] == t[0][1] <==> b[0][0] == b[0][1];
  }
}
