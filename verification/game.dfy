/**
 The game engine of the board screen: the state it remembers between
 recompositions and its four local operations, saving a snapshot, resetting,
 undoing and handling a click on a tile. The engine is modelled as an
 immutable state and pure transition functions.
 */
module Game {
  import opened Board

  /**
   Everything the engine remembers: the board, whose turn it is, the turn
   label shown above the board, whether the game is over, and the stack of
   board snapshots used by undo (most recent last). A snapshot holds only a
   board, never a player.
   */
  datatype State = State(
    board: Grid,
    currentPlayer: Player,
    playerTurn: string,
    gameOver: bool,
    history: seq<Grid>)

  /** What a click tells the players: nothing, or who won. */
  datatype Announcement = Silent | Winner(player: Player)

  /** The state after a click together with what the click announced. */
  datatype Outcome = Outcome(next: State, announced: Announcement)

  /** The label shown for whose turn it is, e.g. "Player 1 Turn". */
  function TurnLabel(p: Player): (l: string)
    ensures l == (if p == PlayerOne then "Player 1 Turn" else "Player 2 Turn")
  {
    p.Name() + " Turn"
  }

  /**
   What holds of every state the engine can reach: a 3x3 board, 3x3
   snapshots none of which has a complete line, a turn label that names
   the current player, and a game that is over exactly when the board has
   three in a row.
   */
  predicate Consistent(s: State) {
    && WellFormed(s.board)
    && (forall k :: 0 <= k < |s.history| ==> WellFormed(s.history[k]) && !ThreeInARow(s.history[k]))
    && s.playerTurn == TurnLabel(s.currentPlayer)
    && (s.gameOver <==> ThreeInARow(s.board))
  }

  /** The state when the screen is first shown. */
  function Start(): (s: State)
    ensures Consistent(s)
    ensures s.currentPlayer == PlayerOne && s.playerTurn == "Player 1 Turn"
    ensures forall i, j :: InRange(i, j) ==> s.board[i][j] == Empty
    ensures !s.gameOver && s.history == []
  {
    State(EmptyGrid(), PlayerOne, TurnLabel(PlayerOne), false, [])
  }

  /** Pushes a copy of the current board onto the history. */
  function SaveState(s: State): (r: State)
    ensures |r.history| == |s.history| + 1
    ensures r.history[..|s.history|] == s.history
    ensures r.history[|s.history|] == s.board
    ensures r.board == s.board && r.currentPlayer == s.currentPlayer
    ensures r.playerTurn == s.playerTurn && r.gameOver == s.gameOver
  {
    s.(history := s.history + [s.board])
  }

  /**
   Clears the board, gives the turn to Player 1 and makes the game playable
   again. The history is left as it is.
   */
  function ResetGame(s: State): (r: State)
    ensures WellFormed(r.board)
    ensures forall i, j :: InRange(i, j) ==> r.board[i][j] == Empty
    ensures r.currentPlayer == PlayerOne && r.playerTurn == "Player 1 Turn"
    ensures !r.gameOver
    ensures r.history == s.history
  {
    s.(board := EmptyGrid(), currentPlayer := PlayerOne, playerTurn := TurnLabel(PlayerOne), gameOver := false)
  }

  /**
   With an empty history nothing happens. Otherwise the last snapshot is
   popped and becomes the board, the turn passes to the other player
   (whatever the snapshot was), and the game is playable again.
   */
  function Undo(s: State): (r: State)
    ensures s.history == [] ==> r == s
    ensures s.history != [] ==>
      && r.history + [s.history[|s.history| - 1]] == s.history
      && r.board == s.history[|s.history| - 1]
      && r.currentPlayer == s.currentPlayer.Other()
      && r.playerTurn == TurnLabel(r.currentPlayer)
      && !r.gameOver
  {
    if |s.history| > 0 then
      var lastState := s.history[|s.history| - 1];
      var popped := s.history[..|s.history| - 1];
      var player := s.currentPlayer.Other();
      s.(history := popped, board := lastState, currentPlayer := player,
         playerTurn := TurnLabel(player), gameOver := false)
    else
      s
  }

  /**
   A click on tile (row, col). A finished game ignores it. Otherwise the
   board is saved first; a click on an occupied tile then changes nothing
   else. A click on an empty tile places the current player's mark, passes
   the turn, and ends the game if the board now has three in a row; the
   winner announced is the player after the new current one.
   */
  function OnButtonClick(s: State, row: int, col: int): (o: Outcome)
    requires WellFormed(s.board) && InRange(row, col)
    ensures s.gameOver ==> o == Outcome(s, Silent)
    ensures !s.gameOver ==> o.next.history == s.history + [s.board]
    ensures !s.gameOver && s.board[row][col] != Empty ==>
      && o.next.board == s.board
      && o.next.currentPlayer == s.currentPlayer
      && o.next.playerTurn == s.playerTurn
      && !o.next.gameOver
      && o.announced == Silent
    ensures !s.gameOver && s.board[row][col] == Empty ==>
      && WellFormed(o.next.board)
      && o.next.board[row][col] == s.currentPlayer.Mark()
      && (forall i, j :: InRange(i, j) && (i != row || j != col) ==> o.next.board[i][j] == s.board[i][j])
      && o.next.currentPlayer == s.currentPlayer.Other()
      && o.next.playerTurn == TurnLabel(o.next.currentPlayer)
      && (o.next.gameOver <==> ThreeInARow(o.next.board))
      && o.announced == (if o.next.gameOver then Winner(s.currentPlayer) else Silent)
  {
    if s.gameOver then
      Outcome(s, Silent)
    else
      var saved := SaveState(s);
      if saved.board[row][col] != Empty then
        Outcome(saved, Silent)
      else
        var mover := saved.currentPlayer;
        var board := Place(saved.board, row, col, mover.Mark());
        var player := mover.Other();
        var next := saved.(board := board, currentPlayer := player, playerTurn := TurnLabel(player));
        if ThreeInARow(board) then
          var winner := player.Other();
          Outcome(next.(gameOver := true), Winner(winner))
        else
          Outcome(next, Silent)
  }

  // Properties relating the operations.

  lemma ResetKeepsConsistent(s: State)
    requires Consistent(s)
    ensures Consistent(ResetGame(s))
  {
    var r := ResetGame(s);
    assert !ThreeInARow(r.board) by {
      assert r.board[0][0] == Empty && r.board[1][0] == Empty && r.board[2][0] == Empty;
      assert r.board[0][1] == Empty && r.board[0][2] == Empty;
    }
  }

  lemma UndoKeepsConsistent(s: State)
    requires Consistent(s)
    ensures Consistent(Undo(s))
  {
  }

  lemma ClickKeepsConsistent(s: State, row: int, col: int)
    requires Consistent(s) && InRange(row, col)
    ensures Consistent(OnButtonClick(s, row, col).next)
  {
    var r := OnButtonClick(s, row, col).next;
    if !s.gameOver {
      forall k | 0 <= k < |r.history|
        ensures WellFormed(r.history[k]) && !ThreeInARow(r.history[k])
      {
        if k == |s.history| {
          assert r.history[k] == s.board;
        } else {
          assert r.history[k] == s.history[k];
        }
      }
    }
  }

  /**
   A click announces a winner exactly when it ends the game, and then every
   complete line on the board runs through the clicked tile and is made of
   the winner's mark.
   */
  lemma WinnerOwnsEveryLine(s: State, row: int, col: int)
    requires Consistent(s) && InRange(row, col)
    ensures var o := OnButtonClick(s, row, col);
      && (o.announced.Winner? <==> !s.gameOver && o.next.gameOver)
      && (o.announced.Winner? ==>
            forall k :: 0 <= k < |Lines| && Completed(o.next.board, Lines[k]) ==>
              Lines[k].Contains(Pos(row, col)) && At(o.next.board, Lines[k].first) == o.announced.player.Mark())
  {
    var o := OnButtonClick(s, row, col);
    if o.announced.Winner? {
      NewLinesRunThroughMove(s.board, row, col, s.currentPlayer.Mark());
      assert o.next.board == Place(s.board, row, col, s.currentPlayer.Mark());
    }
  }

  /** Undo pops exactly the snapshot a save pushed. */
  lemma UndoRestoresSnapshot(s: State)
    ensures Undo(SaveState(s)).board == s.board
    ensures Undo(SaveState(s)).history == s.history
    ensures Undo(SaveState(s)).currentPlayer == s.currentPlayer.Other()
  {
  }

  /**
   Undo right after a click brings back the board and the history, but the
   turn is back with the player who clicked only if the click placed a mark:
   after a click on an occupied tile, undo hands the turn to the other player.
   */
  lemma UndoAfterClick(s: State, row: int, col: int)
    requires WellFormed(s.board) && InRange(row, col) && !s.gameOver
    ensures var u := Undo(OnButtonClick(s, row, col).next);
      && u.board == s.board
      && u.history == s.history
      && !u.gameOver
      && (u.currentPlayer == s.currentPlayer <==> s.board[row][col] == Empty)
  {
    var o := OnButtonClick(s, row, col);
    assert o.next.history[..|s.history|] == s.history;
  }

  lemma ResetIsIdempotent(s: State)
    ensures ResetGame(ResetGame(s)) == ResetGame(s)
  {
  }

  /**
   A click adds one mark to the board when it lands on an empty tile of a
   game in progress, and none otherwise.
   */
  lemma ClickAddsAtMostOneMark(s: State, row: int, col: int)
    requires WellFormed(s.board) && InRange(row, col)
    ensures WellFormed(OnButtonClick(s, row, col).next.board)
    ensures Marks(OnButtonClick(s, row, col).next.board) ==
      Marks(s.board) + (if !s.gameOver && s.board[row][col] == Empty then 1 else 0)
  {
    if !s.gameOver && s.board[row][col] == Empty {
      PlaceAddsOneMark(s.board, row, col, s.currentPlayer.Mark());
      assert OnButtonClick(s, row, col).next.board == Place(s.board, row, col, s.currentPlayer.Mark());
    }
  }

  /**
   On a full board without three in a row the game never ends: every click
   lands on an occupied tile and only grows the history.
   */
  lemma FullBoardNeverEnds(s: State, row: int, col: int)
    requires Consistent(s) && Full(s.board) && !s.gameOver && InRange(row, col)
    ensures OnButtonClick(s, row, col) == Outcome(SaveState(s), Silent)
  {
  }
}
