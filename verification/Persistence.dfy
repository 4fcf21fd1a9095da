/** Saving the moves of a game in progress and rebuilding it when the server starts again. */
module Persistence {
  import opened Types
  import opened GameUndo
  import opened GameReplay
  import opened GameModel

  /** The list of moves written for a room. */
  method MovesToStore(game: ChessGame) returns (moves: seq<Move>)
    ensures moves == StoredMoves(game.history)
  {
    moves := [];
    for i := 0 to |game.history|
      invariant moves == StoredMoves(game.history[..i])
    {
      assert game.history[..i + 1][..i] == game.history[..i];
      moves := moves + [game.history[i].move];
    }
    assert game.history[..|game.history|] == game.history;
  }

  /** The game a room starts with. */
  method InitGame() returns (game: ChessGame)
    ensures fresh(game) && game.State() == Started()
  {
    game := new ChessGame();
    var _ := game.StartGame();
  }

  /** Every stored move is tried in order, whatever the answers. */
  method TryAll(game: ChessGame, moves: seq<Move>)
    modifies game
    ensures game.State() == PlayAll(old(game.State()), moves)
  {
    for i := 0 to |moves|
      invariant game.State() == PlayAll(old(game.State()), moves[..i])
    {
      assert moves[..i + 1][..i] == moves[..i];
      var _ := game.MakeMove(moves[i], None);
    }
    assert moves[..|moves|] == moves;
  }

  method Restore(moves: seq<Move>) returns (game: ChessGame)
    ensures fresh(game) && game.State() == Replay(moves)
  {
    game := InitGame();
    TryAll(game, moves);
  }
}
