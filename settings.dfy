/** The game's constants, which the program reads from its settings module
    (BOARD_SIZE, REQUIRED_WIN_LENGTH, BLANK_PIECE, PLAYER_1_PIECE,
    PLAYER_2_PIECE and VALID_COMMANDS), gathered into one value that every
    operation takes as a parameter. */
module Settings {

  datatype Option<T> = None | Some(value: T)

  /** One column of the board, one character per cell; index 0 is the top
      cell and index |col| - 1 the bottom cell. */
  type Column = seq<char>

  datatype Config = Config(
    size: nat,            // BOARD_SIZE: columns, and cells per column
    winLength: nat,       // REQUIRED_WIN_LENGTH
    blank: char,          // BLANK_PIECE
    playerOne: char,      // PLAYER_1_PIECE
    playerTwo: char,      // PLAYER_2_PIECE
    commands: seq<char>)  // VALID_COMMANDS, a list of one-character commands
  {
    /** What the program assumes of its constants. */
    predicate Valid() {
      2 <= winLength <= size &&
      blank != playerOne && blank != playerTwo && playerOne != playerTwo
    }

    /** A character that may stand in a cell of a game's board. */
    predicate IsPiece(t: char) {
      t == blank || t == playerOne || t == playerTwo
    }
  }

  /** n blank cells: Python's `n * BLANK_PIECE`. */
  function Blanks(cfg: Config, n: nat): (r: Column)
    ensures |r| == n
    ensures forall k :: 0 <= k < n ==> r[k] == cfg.blank
  {
    seq(n, _ => cfg.blank)
  }
}
