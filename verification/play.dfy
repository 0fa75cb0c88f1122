/**
 Sequences of button presses on the board screen. The nine tiles call the
 click handler, the undo button calls undo, and the refresh, "PvP" and "AI"
 buttons all call the same reset.
 */
module Play {
  import opened Board
  import opened Game

  datatype Press = Tile(row: int, col: int) | UndoButton | RefreshButton | PvPButton | AIButton

  predicate OnScreen(p: Press) {
    p.Tile? ==> InRange(p.row, p.col)
  }

  /** The engine's response to one press. */
  function Step(s: State, p: Press): (o: Outcome)
    requires Consistent(s) && OnScreen(p)
    ensures Consistent(o.next)
    ensures !p.Tile? ==> o.announced == Silent
  {
    match p
    case Tile(row, col) =>
      ClickKeepsConsistent(s, row, col);
      OnButtonClick(s, row, col)
    case UndoButton =>
      UndoKeepsConsistent(s);
      Outcome(Undo(s), Silent)
    case _ =>
      ResetKeepsConsistent(s);
      Outcome(ResetGame(s), Silent)
  }

  /**
   The state after a sequence of presses. Every state reached this way is
   consistent; in particular the game is over exactly when the board has
   three in a row.
   */
  function Run(s: State, ps: seq<Press>): (r: State)
    requires Consistent(s)
    requires forall k :: 0 <= k < |ps| ==> OnScreen(ps[k])
    ensures Consistent(r)
    decreases |ps|
  {
    if ps == [] then s
    else Run(Step(s, ps[0]).next, ps[1..])
  }

  /** Running a sequence of presses one press at a time. */
  lemma RunUnroll(s: State, ps: seq<Press>, k: int)
    requires Consistent(s) && 0 <= k < |ps|
    requires forall i :: 0 <= i < |ps| ==> OnScreen(ps[i])
    ensures Run(s, ps[k..]) == Run(Step(s, ps[k]).next, ps[k + 1..])
  {
    assert ps[k..][1..] == ps[k + 1..];
  }

  /** Two 3x3 boards that agree on every cell are the same board. */
  lemma SameCellsSameBoard(a: Grid, b: Grid)
    requires WellFormed(a) && WellFormed(b)
    requires forall i, j :: InRange(i, j) ==> a[i][j] == b[i][j]
    ensures a == b
  {
    forall i | 0 <= i < 3
      ensures a[i] == b[i]
    {
      assert a[i][0] == b[i][0] && a[i][1] == b[i][1] && a[i][2] == b[i][2];
    }
  }

  /**
   Player 1 takes the top row with the opponent on the centre and a corner:
   after 0 on (0,0), X on (1,1), 0 on (0,1) and X on (2,2) the game is still
   running, and 0 on (0,2) ends it announcing Player 1.
   */
  lemma TopRowWins(s0: State, m: seq<Press>)
    requires Consistent(s0) && !s0.gameOver && s0.currentPlayer == PlayerOne
    requires forall i, j :: InRange(i, j) ==> s0.board[i][j] == Empty
    requires m == [Tile(0, 0), Tile(1, 1), Tile(0, 1)]
    ensures var s := Step(Run(s0, m), Tile(2, 2)).next;
      && !s.gameOver
      && Step(s, Tile(0, 2)).next.gameOver
      && Step(s, Tile(0, 2)).announced == Winner(PlayerOne)
  {
    TopRowOpening(s0, m);
    var s := Step(Run(s0, m), Tile(2, 2)).next;
    SameCellsSameBoard(s.board, [[Nought, Nought, Empty], [Empty, Cross, Empty], [Empty, Empty, Cross]]);
    var o := Step(s, Tile(0, 2));
    assert o.next.board[0] == [Nought, Nought, Nought];
  }

  /** The first three moves of the game above. */
  lemma TopRowOpening(s0: State, m: seq<Press>)
    requires Consistent(s0) && !s0.gameOver && s0.currentPlayer == PlayerOne
    requires forall i, j :: InRange(i, j) ==> s0.board[i][j] == Empty
    requires m == [Tile(0, 0), Tile(1, 1), Tile(0, 1)]
    ensures forall k :: 0 <= k < |m| ==> OnScreen(m[k])
    ensures var s := Run(s0, m);
      && s.board == [[Nought, Nought, Empty], [Empty, Cross, Empty], [Empty, Empty, Empty]]
      && s.currentPlayer == PlayerTwo && !s.gameOver
  {
    ScenarioOnScreen(m);
    var b1 := [[Nought, Empty, Empty], [Empty, Empty, Empty], [Empty, Empty, Empty]];
    var b2 := [[Nought, Empty, Empty], [Empty, Cross, Empty], [Empty, Empty, Empty]];
    var b3 := [[Nought, Nought, Empty], [Empty, Cross, Empty], [Empty, Empty, Empty]];
    SameCellsSameBoard(b1, Place(s0.board, 0, 0, Nought));
    SameCellsSameBoard(b2, Place(b1, 1, 1, Cross));
    SameCellsSameBoard(b3, Place(b2, 0, 1, Nought));
    ThreeQuietMoves(s0, m, b1, b2, b3);
  }

  /** Running two sequences of presses one after the other. */
  lemma {:induction false} RunConcat(s: State, a: seq<Press>, b: seq<Press>)
    requires Consistent(s)
    requires forall i :: 0 <= i < |a| ==> OnScreen(a[i])
    requires forall i :: 0 <= i < |b| ==> OnScreen(b[i])
    ensures Run(s, a + b) == Run(Run(s, a), b)
    decreases |a|
  {
    if a == [] {
      assert a + b == b;
    } else {
      assert (a + b)[1..] == a[1..] + b;
      RunConcat(Step(s, a[0]).next, a[1..], b);
    }
  }

  /** Presses on the nine tiles are all on screen. */
  lemma TilesOnScreen(ps: seq<Press>)
    requires forall i :: 0 <= i < |ps| ==> ps[i].Tile? && InRange(ps[i].row, ps[i].col)
    ensures forall i :: 0 <= i < |ps| ==> OnScreen(ps[i])
  {
  }

  /**
   The presses of the worked games below are all on screen. Proved apart
   from any run of presses, where the verifier would search much longer.
   */
  lemma ScenarioOnScreen(ps: seq<Press>)
    requires || ps == [Tile(0, 0), Tile(1, 1), Tile(0, 1)]
             || ps == [Tile(0, 0), Tile(0, 0), UndoButton, Tile(1, 1)]
             || ps == [Tile(0, 0), RefreshButton, UndoButton]
    ensures forall i :: 0 <= i < |ps| ==> OnScreen(ps[i])
  {
  }

  /** Three accepted clicks, none of which completes a line. */
  lemma ThreeQuietMoves(s: State, ps: seq<Press>, b1: Grid, b2: Grid, b3: Grid)
    requires Consistent(s) && !s.gameOver && |ps| == 3
    requires forall i :: 0 <= i < |ps| ==> ps[i].Tile? && InRange(ps[i].row, ps[i].col)
    requires WellFormed(b1) && WellFormed(b2) && WellFormed(b3)
    requires !ThreeInARow(b1) && !ThreeInARow(b2) && !ThreeInARow(b3)
    requires b1 == Place(s.board, ps[0].row, ps[0].col, s.currentPlayer.Mark())
    requires s.board[ps[0].row][ps[0].col] == Empty
    requires b2 == Place(b1, ps[1].row, ps[1].col, s.currentPlayer.Other().Mark())
    requires b1[ps[1].row][ps[1].col] == Empty
    requires b3 == Place(b2, ps[2].row, ps[2].col, s.currentPlayer.Mark())
    requires b2[ps[2].row][ps[2].col] == Empty
    ensures var r := Run(s, ps);
      && r.board == b3 && r.currentPlayer == s.currentPlayer.Other()
      && !r.gameOver && |r.history| == |s.history| + 3
  {
    TilesOnScreen(ps);
    var t1 := Step(s, ps[0]).next;
    SameCellsSameBoard(t1.board, b1);
    var t2 := Step(t1, ps[1]).next;
    SameCellsSameBoard(t2.board, b2);
    var t3 := Step(t2, ps[2]).next;
    SameCellsSameBoard(t3.board, b3);
    RunUnroll(s, ps, 0);
    RunUnroll(t1, ps, 1);
    RunUnroll(t2, ps, 2);
    assert ps[3..] == [];
  }

  /** A complete game that fills the board as 0 X 0 / 0 X X / X 0 0. */
  const DrawMoves: seq<Press> := DrawOpeningMoves + DrawMiddleMoves + DrawEndingMoves
  const DrawOpeningMoves: seq<Press> := [Tile(0, 0), Tile(0, 1), Tile(0, 2)]
  const DrawMiddleMoves: seq<Press> := [Tile(1, 1), Tile(1, 0), Tile(1, 2)]
  const DrawEndingMoves: seq<Press> := [Tile(2, 1), Tile(2, 0), Tile(2, 2)]

  /** The board after three, six and nine of the draw moves. */
  const DrawAfterThree: Grid := [[Nought, Cross, Nought], [Empty, Empty, Empty], [Empty, Empty, Empty]]
  const DrawAfterSix: Grid := [[Nought, Cross, Nought], [Nought, Cross, Cross], [Empty, Empty, Empty]]
  const DrawAfterNine: Grid := [[Nought, Cross, Nought], [Nought, Cross, Cross], [Cross, Nought, Nought]]

  lemma DrawOpening(s: State, ps: seq<Press>)
    requires Consistent(s) && !s.gameOver && s.currentPlayer == PlayerOne
    requires forall i, j :: InRange(i, j) ==> s.board[i][j] == Empty
    requires ps == DrawOpeningMoves
    ensures var r := Run(s, ps);
      && r.board == DrawAfterThree && r.currentPlayer == PlayerTwo
      && !r.gameOver && |r.history| == |s.history| + 3
  {
    var b1 := [[Nought, Empty, Empty], [Empty, Empty, Empty], [Empty, Empty, Empty]];
    var b2 := [[Nought, Cross, Empty], [Empty, Empty, Empty], [Empty, Empty, Empty]];
    SameCellsSameBoard(b1, Place(s.board, 0, 0, Nought));
    SameCellsSameBoard(b2, Place(b1, 0, 1, Cross));
    SameCellsSameBoard(DrawAfterThree, Place(b2, 0, 2, Nought));
    ThreeQuietMoves(s, ps, b1, b2, DrawAfterThree);
  }

  lemma DrawMiddle(s: State, ps: seq<Press>)
    requires Consistent(s) && !s.gameOver && s.currentPlayer == PlayerTwo
    requires s.board == DrawAfterThree
    requires ps == DrawMiddleMoves
    ensures var r := Run(s, ps);
      && r.board == DrawAfterSix && r.currentPlayer == PlayerOne
      && !r.gameOver && |r.history| == |s.history| + 3
  {
    var b4 := [[Nought, Cross, Nought], [Empty, Cross, Empty], [Empty, Empty, Empty]];
    var b5 := [[Nought, Cross, Nought], [Nought, Cross, Empty], [Empty, Empty, Empty]];
    SameCellsSameBoard(b4, Place(s.board, 1, 1, Cross));
    SameCellsSameBoard(b5, Place(b4, 1, 0, Nought));
    SameCellsSameBoard(DrawAfterSix, Place(b5, 1, 2, Cross));
    ThreeQuietMoves(s, ps, b4, b5, DrawAfterSix);
  }

  lemma DrawEnding(s: State, ps: seq<Press>)
    requires Consistent(s) && !s.gameOver && s.currentPlayer == PlayerOne
    requires s.board == DrawAfterSix
    requires ps == DrawEndingMoves
    ensures var r := Run(s, ps);
      && r.board == DrawAfterNine && r.currentPlayer == PlayerTwo
      && !r.gameOver && |r.history| == |s.history| + 3
  {
    var b7 := [[Nought, Cross, Nought], [Nought, Cross, Cross], [Empty, Nought, Empty]];
    var b8 := [[Nought, Cross, Nought], [Nought, Cross, Cross], [Cross, Nought, Empty]];
    SameCellsSameBoard(b7, Place(s.board, 2, 1, Nought));
    SameCellsSameBoard(b8, Place(b7, 2, 0, Cross));
    SameCellsSameBoard(DrawAfterNine, Place(b8, 2, 2, Nought));
    ThreeQuietMoves(s, ps, b7, b8, DrawAfterNine);
  }

  /**
   The game has no draw: from any fresh board with Player 1 to move, once
   the nine draw moves fill it with no three in a row the game is not over,
   and every further click only pushes another snapshot. The moves are
   passed as a parameter so that the verifier does not unfold the run of a
   constant list eagerly.
   */
  lemma FullBoardWithoutLineStaysOpen(s0: State, moves: seq<Press>)
    requires Consistent(s0) && !s0.gameOver && s0.currentPlayer == PlayerOne
    requires forall i, j :: InRange(i, j) ==> s0.board[i][j] == Empty
    requires moves == DrawMoves
    ensures var s := Run(s0, moves);
      && Full(s.board) && !ThreeInARow(s.board) && !s.gameOver && |s.history| == |s0.history| + 9
      && forall row, col :: InRange(row, col) ==> OnButtonClick(s, row, col) == Outcome(SaveState(s), Silent)
  {
    DrawMovesSplit(moves);
    DrawPlaysOut(s0, moves[..3], moves[3..6], moves[6..]);
    DrawnBoardIgnoresClicks(Run(s0, moves));
  }

  /** The draw moves are the opening followed by the middle and the ending. */
  lemma DrawMovesSplit(moves: seq<Press>)
    requires moves == DrawMoves
    ensures moves[..3] == DrawOpeningMoves && moves[3..6] == DrawMiddleMoves && moves[6..] == DrawEndingMoves
    ensures moves == moves[..3] + (moves[3..6] + moves[6..])
    ensures forall i :: 0 <= i < |moves| ==> OnScreen(moves[i])
  {
  }

  /**
   Every draw segment is made of on-screen tiles. Proved apart from any run
   of presses, where the verifier would otherwise search much longer.
   */
  lemma DrawSegmentOnScreen(ps: seq<Press>)
    requires ps == DrawOpeningMoves || ps == DrawMiddleMoves || ps == DrawEndingMoves
    ensures forall i :: 0 <= i < |ps| ==> OnScreen(ps[i])
  {
  }

  /** Two sequences of on-screen presses make one. */
  lemma ConcatOnScreen(a: seq<Press>, b: seq<Press>)
    requires forall i :: 0 <= i < |a| ==> OnScreen(a[i])
    requires forall i :: 0 <= i < |b| ==> OnScreen(b[i])
    ensures forall i :: 0 <= i < |a + b| ==> OnScreen((a + b)[i])
  {
  }

  /** The nine draw moves, played from a fresh board, fill it without a line. */
  lemma DrawPlaysOut(s0: State, a: seq<Press>, b: seq<Press>, c: seq<Press>)
    requires Consistent(s0) && !s0.gameOver && s0.currentPlayer == PlayerOne
    requires forall i, j :: InRange(i, j) ==> s0.board[i][j] == Empty
    requires a == DrawOpeningMoves && b == DrawMiddleMoves && c == DrawEndingMoves
    requires forall i :: 0 <= i < |a + (b + c)| ==> OnScreen((a + (b + c))[i])
    ensures var s := Run(s0, a + (b + c));
      && s.board == DrawAfterNine && !s.gameOver && |s.history| == |s0.history| + 9
  {
    DrawSegmentOnScreen(a);
    DrawSegmentOnScreen(b);
    DrawSegmentOnScreen(c);
    ConcatOnScreen(b, c);
    DrawOpening(s0, a);
    DrawFromThree(Run(s0, a), b, c);
    RunConcat(s0, a, b + c);
  }

  /** The last six draw moves, played after the first three. */
  lemma DrawFromThree(s3: State, b: seq<Press>, c: seq<Press>)
    requires Consistent(s3) && !s3.gameOver && s3.currentPlayer == PlayerTwo
    requires s3.board == DrawAfterThree
    requires b == DrawMiddleMoves && c == DrawEndingMoves
    requires forall i :: 0 <= i < |b + c| ==> OnScreen((b + c)[i])
    ensures var s := Run(s3, b + c);
      && s.board == DrawAfterNine && !s.gameOver && |s.history| == |s3.history| + 6
  {
    DrawSegmentOnScreen(b);
    DrawSegmentOnScreen(c);
    DrawMiddle(s3, b);
    DrawEnding(Run(s3, b), c);
    RunConcat(s3, b, c);
  }

  lemma DrawnBoardIgnoresClicks(s: State)
    requires Consistent(s) && s.board == DrawAfterNine
    ensures Full(s.board) && !ThreeInARow(s.board) && !s.gameOver
    ensures forall row, col :: InRange(row, col) ==> OnButtonClick(s, row, col) == Outcome(SaveState(s), Silent)
  {
    forall row, col | InRange(row, col)
      ensures OnButtonClick(s, row, col) == Outcome(SaveState(s), Silent)
    {
      FullBoardNeverEnds(s, row, col);
    }
  }

  /**
   Undo after a click on an occupied tile hands the turn to the other
   player: here Player 1 places 0 twice in a row.
   */
  lemma UndoAfterRejectedClickRepeatsTurn(s0: State, m: seq<Press>)
    requires Consistent(s0) && !s0.gameOver && s0.currentPlayer == PlayerOne
    requires forall i, j :: InRange(i, j) ==> s0.board[i][j] == Empty
    requires m == [Tile(0, 0), Tile(0, 0), UndoButton, Tile(1, 1)]
    ensures var s := Run(s0, m);
      && s.board[0][0] == Nought && s.board[1][1] == Nought
      && Marks(s.board) == 2
  {
    ScenarioOnScreen(m);
    assert Marks(s0.board) == 0;
    var t1 := Step(s0, m[0]).next;
    ClickAddsAtMostOneMark(s0, 0, 0);
    var t2 := Step(t1, m[1]).next;
    assert t2.board == t1.board && t2.currentPlayer == PlayerTwo;
    var t3 := Step(t2, m[2]).next;
    assert t3.board == t1.board && t3.currentPlayer == PlayerOne;
    var t4 := Step(t3, m[3]).next;
    ClickAddsAtMostOneMark(t3, 1, 1);
    RunUnroll(s0, m, 0);
    RunUnroll(t1, m, 1);
    RunUnroll(t2, m, 2);
    RunUnroll(t3, m, 3);
    assert m[4..] == [];
  }

  /**
   Reset keeps the history, so undo right after a reset restores the last
   snapshot and gives the first move of the new game to Player 2.
   */
  lemma UndoAfterResetHandsTurnToPlayerTwo(s0: State, m: seq<Press>)
    requires Consistent(s0) && !s0.gameOver && s0.currentPlayer == PlayerOne
    requires forall i, j :: InRange(i, j) ==> s0.board[i][j] == Empty
    requires m == [Tile(0, 0), RefreshButton, UndoButton]
    ensures var s := Run(s0, m);
      && (forall i, j :: InRange(i, j) ==> s.board[i][j] == Empty)
      && s.currentPlayer == PlayerTwo && s.playerTurn == "Player 2 Turn"
      && s.history == s0.history
  {
    ScenarioOnScreen(m);
    var t1 := Step(s0, m[0]).next;
    assert t1.history == s0.history + [s0.board];
    var t2 := Step(t1, m[1]).next;
    assert t2 == ResetGame(t1);
    var t3 := Step(t2, m[2]).next;
    assert t3 == Undo(t2);
    assert t3.board == s0.board && t3.history == s0.history;
    RunUnroll(s0, m, 0);
    RunUnroll(t1, m, 1);
    RunUnroll(t2, m, 2);
    assert m[3..] == [];
  }
}
