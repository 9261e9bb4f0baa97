/** The turn rule of play_game: whose piece is played, when the turn
    passes, and when the game ends. */
module Turns {
  import opened Settings
  import opened Board
  import opened WinScan
  import opened Commands

  /** The loop state of play_game: the board, player_one_turn,
      game_finished and winner. */
  datatype GameState = GameState(board: seq<Column>, playerOneTurn: bool, finished: bool, winner: Option<char>)

  /** The state after one command, and whether the round it belongs to is
      over (play_game's inner loop has stopped asking for commands). */
  datatype StepResult = StepResult(state: GameState, roundEnded: bool)

  /** pieces[player_one_turn] with pieces = [PLAYER_2_PIECE, PLAYER_1_PIECE]. */
  function CurrentPiece(cfg: Config, playerOneTurn: bool): (piece: char)
    requires cfg.Valid()
    ensures piece == cfg.playerOne <==> playerOneTurn
    ensures piece == cfg.playerTwo <==> !playerOneTurn
  {
    [cfg.playerTwo, cfg.playerOne][if playerOneTurn then 1 else 0]
  }

  /** The column a command names is on the board, as check_input makes sure. */
  predicate CommandFits(cfg: Config, command: Command) {
    command.Add? || command.Remove? ==> command.column < cfg.size
  }

  /** A recorded result is the result of the board, and it has ended the game. */
  ghost predicate Coherent(cfg: Config, s: GameState)
    requires cfg.Valid() && Shaped(cfg, s.board)
  {
    s.winner.Some? ==> s.finished && s.winner == Winner(cfg, s.board)
  }

  /** The state play_game starts in. */
  function InitialState(cfg: Config): (s: GameState)
    requires cfg.Valid()
    ensures ValidBoard(cfg, s.board) && Coherent(cfg, s) && !s.finished
  {
    GameState(InitialBoard(cfg), true, false, None)
  }

  /** The end of a round: check_win on the board, the game ends on any
      result, and the turn passes only if the board was modified. */
  ghost function EndRound(cfg: Config, s: GameState, board: seq<Column>, modified: bool): (r: StepResult)
    requires cfg.Valid() && Shaped(cfg, board)
    ensures r.roundEnded && r.state.board == board && r.state.winner == Winner(cfg, board)
    ensures r.state.playerOneTurn != s.playerOneTurn <==> modified
    ensures r.state.winner.Some? <==> HasWon(cfg, board, PlayerOne) || HasWon(cfg, board, PlayerTwo)
    ensures r.state.finished <==>
      s.finished || HasWon(cfg, board, PlayerOne) || HasWon(cfg, board, PlayerTwo)
  {
    var w := Winner(cfg, board);
    StepResult(GameState(board, if modified then !s.playerOneTurn else s.playerOneTurn, s.finished || w.Some?, w), true)
  }

  /** One command handled by play_game's loops. */
  ghost function GameStep(cfg: Config, s: GameState, command: Command): (r: StepResult)
    requires cfg.Valid() && ValidBoard(cfg, s.board) && !s.finished && CommandFits(cfg, command)
    ensures ValidBoard(cfg, r.state.board)
    ensures Coherent(cfg, s) ==> Coherent(cfg, r.state)
    ensures r.state.playerOneTurn != s.playerOneTurn <==> r.state.board != s.board
    ensures r.roundEnded <==> command == Help || command == Quit || r.state.board != s.board
    ensures !r.roundEnded ==> r.state == s
    ensures command == Quit ==> r.state == s.(finished := true)
    ensures command != Quit && r.roundEnded ==>
      r.state.winner == Winner(cfg, r.state.board) && (r.state.finished <==> r.state.winner.Some?)
    ensures command.Add? ==>
      (r.state.board != s.board <==> !IsColumnFull(cfg, s.board[command.column])) &&
      (r.state.board != s.board ==>
        r.state.board == s.board[command.column := Dropped(cfg, s.board[command.column],
                                   if s.playerOneTurn then cfg.playerOne else cfg.playerTwo)])
    ensures command.Remove? ==>
      (r.state.board != s.board <==> !IsColumnEmpty(cfg, s.board[command.column])) &&
      (r.state.board != s.board ==>
        r.state.board == s.board[command.column := Pulled(cfg, s.board[command.column])])
  {
    match command
    case Quit => StepResult(s.(finished := true), true)
    case Help => EndRound(cfg, s, s.board, false)
    case Add(c) =>
      if IsColumnFull(cfg, s.board[c]) then StepResult(s, false)
      else
        var piece := CurrentPiece(cfg, s.playerOneTurn);
        DropKeepsBoardValid(cfg, s.board, c, piece);
        EndRound(cfg, s, s.board[c := Dropped(cfg, s.board[c], piece)], true)
    case Remove(c) =>
      if IsColumnEmpty(cfg, s.board[c]) then StepResult(s, false)
      else
        PullKeepsBoardValid(cfg, s.board, c);
        EndRound(cfg, s, s.board[c := Pulled(cfg, s.board[c])], true)
  }

  /** A game played from state s on the given commands, stopping once it
      has finished: the board stays one a game can be in, and a recorded
      result stays the board's result. */
  ghost function Play(cfg: Config, s: GameState, commands: seq<Command>): (r: GameState)
    requires cfg.Valid() && ValidBoard(cfg, s.board)
    requires forall k :: 0 <= k < |commands| ==> CommandFits(cfg, commands[k])
    ensures ValidBoard(cfg, r.board)
    ensures Coherent(cfg, s) ==> Coherent(cfg, r)
    decreases |commands|
  {
    if commands == [] || s.finished then s
    else Play(cfg, GameStep(cfg, s, commands[0]).state, commands[1..])
  }

  /** play_game's state on the heap: the board is the array add_piece and
      remove_piece change in place. */
  class Game {
    const cfg: Config
    var board: array<Column>
    var playerOneTurn: bool
    var finished: bool
    var winner: Option<char>

    ghost predicate Valid()
      reads this, board
    {
      cfg.Valid() && ValidBoard(cfg, board[..])
    }

    ghost function State(): GameState
      reads this, board
    {
      GameState(board[..], playerOneTurn, finished, winner)
    }

    /** The start of play_game: a fresh board, player one to move. */
    constructor (cfg: Config)
      requires cfg.Valid()
      ensures this.cfg == cfg && Valid() && fresh(board)
      ensures State() == InitialState(cfg)
    {
      var cells := new Column[cfg.size](_ => Blanks(cfg, cfg.size));
      assert cells[..] == InitialBoard(cfg);
      this.cfg := cfg;
      board := cells;
      playerOneTurn := true;
      finished := false;
      winner := None;
    }

    /** One pass of play_game's inner loop over a command, and the end of
      the round when that pass ends it. */
    method Step(command: Command) returns (roundEnded: bool)
      requires Valid() && !finished && CommandFits(cfg, command)
      modifies this, board
      ensures Valid() && board == old(board)
      ensures StepResult(State(), roundEnded) == GameStep(cfg, old(State()), command)
    {
      ghost var s := State();
      var boardModified := false;
      match command {
        case Help =>
        case Quit =>
          finished := true;
        case Add(c) =>
          boardModified := AddPiece(cfg, board, CurrentPiece(cfg, playerOneTurn), c);
          if boardModified {
            DropKeepsBoardValid(cfg, s.board, c, CurrentPiece(cfg, s.playerOneTurn));
          }
        case Remove(c) =>
          boardModified := RemovePiece(cfg, board, c);
          if boardModified {
            PullKeepsBoardValid(cfg, s.board, c);
          }
      }
      if finished {
        return true;
      }
      if !boardModified && !command.Help? {
        return false;
      }
      FinishRound(boardModified);
      roundEnded := true;
    }

    /** The end of a round: check_win, the game ends on a result, and the
      turn passes if the board was modified. */
    method FinishRound(boardModified: bool)
      requires Valid()
      modifies this
      ensures Valid() && board == old(board)
      ensures StepResult(State(), true) == EndRound(cfg, old(State()), old(board[..]), boardModified)
    {
      winner := CheckWin(cfg, board);
      if winner.Some? {
        finished := true;
      }
      if boardModified {
        playerOneTurn := !playerOneTurn;
      }
    }
  }
}
