/** The board: a list of BOARD_SIZE columns, each a string of BOARD_SIZE
    cells whose index 0 is the top cell. Pieces fall to the bottom, so the
    blank cells of a column form a prefix of it. */
module Board {
  import opened Settings

  /** Gravity: a blank cell has only blank cells above it. */
  ghost predicate Gravity(cfg: Config, col: Column) {
    forall k, l :: 0 <= k < l < |col| && col[l] == cfg.blank ==> col[k] == cfg.blank
  }

  predicate NoBlanks(cfg: Config, s: seq<char>) {
    forall k :: 0 <= k < |s| ==> s[k] != cfg.blank
  }

  /** Every column has BOARD_SIZE cells and there are BOARD_SIZE columns. */
  predicate Shaped(cfg: Config, b: seq<Column>) {
    |b| == cfg.size && forall c :: 0 <= c < |b| ==> |b[c]| == cfg.size
  }

  /** A board that a game can be in: well shaped, every column obeys
      gravity, and every cell holds one of the three pieces. */
  ghost predicate ValidBoard(cfg: Config, b: seq<Column>) {
    Shaped(cfg, b) &&
    forall c :: 0 <= c < |b| ==>
      Gravity(cfg, b[c]) && forall k :: 0 <= k < |b[c]| ==> cfg.IsPiece(b[c][k])
  }

  /** generate_initial_board: BOARD_SIZE columns of BOARD_SIZE blanks. */
  function InitialBoard(cfg: Config): (b: seq<Column>)
    requires cfg.Valid()
    ensures ValidBoard(cfg, b)
    ensures forall c :: 0 <= c < |b| ==>
      IsColumnEmpty(cfg, b[c]) && !IsColumnFull(cfg, b[c])
  {
    seq(cfg.size, _ => Blanks(cfg, cfg.size))
  }

  /** is_column_full: the top cell is taken. Under gravity that is the same
      as having no free cell at all. */
  function IsColumnFull(cfg: Config, col: Column): (full: bool)
    requires |col| > 0
    ensures Gravity(cfg, col) ==> (full <==> NoBlanks(cfg, col))
  {
    col[0] != cfg.blank
  }

  /** is_column_empty: the bottom cell is blank. Under gravity that is the
      same as every cell being blank. */
  function IsColumnEmpty(cfg: Config, col: Column): (empty: bool)
    requires |col| > 0
    ensures Gravity(cfg, col) ==>
      (empty <==> forall k :: 0 <= k < |col| ==> col[k] == cfg.blank)
  {
    col[|col| - 1] == cfg.blank
  }

  /** The index of the first piece at or below index i, or |col| if there is
      none: where add_piece's scan for a landing place stops. */
  function FirstPieceFrom(cfg: Config, col: Column, i: nat): (k: nat)
    requires i <= |col|
    ensures i <= k <= |col|
    ensures forall m :: i <= m < k ==> col[m] == cfg.blank
    ensures k < |col| ==> col[k] != cfg.blank
    decreases |col| - i
  {
    if i == |col| || col[i] != cfg.blank then i else FirstPieceFrom(cfg, col, i + 1)
  }

  /** The number of blank cells on top of the column. */
  function FreeCells(cfg: Config, col: Column): (n: nat)
    ensures n <= |col|
  {
    FirstPieceFrom(cfg, col, 0)
  }

  /** The column after add_piece lets `piece` fall into it: the piece takes
      the cell just above the first piece found from index 1 downward, or the
      bottom cell when there is none. */
  function Dropped(cfg: Config, col: Column, piece: char): (r: Column)
    requires |col| > 0
    ensures |r| == |col|
    ensures var p := FirstPieceFrom(cfg, col, 1) - 1;
      r[p] == piece &&
      (!IsColumnFull(cfg, col) ==> col[p] == cfg.blank) &&
      (p == |col| - 1 || col[p + 1] != cfg.blank) &&
      forall k :: 0 <= k < |col| && k != p ==> r[k] == col[k]
  {
    col[FirstPieceFrom(cfg, col, 1) - 1 := piece]
  }

  /** The column after remove_piece: the bottom cell is gone and a blank
      enters at the top. */
  function Pulled(cfg: Config, col: Column): (r: Column)
    requires |col| > 0
    ensures |r| == |col|
    ensures r[0] == cfg.blank
    ensures forall k :: 0 < k < |col| ==> r[k] == col[k - 1]
  {
    [cfg.blank] + col[..|col| - 1]
  }

  /** The search from index i stops at n when the cells from i up to n are
      blank and cell n, if any, holds a piece. */
  lemma {:induction false} FirstPieceIs(cfg: Config, col: Column, i: nat, n: nat)
    requires i <= n <= |col|
    requires forall m :: i <= m < n ==> col[m] == cfg.blank
    requires n < |col| ==> col[n] != cfg.blank
    ensures FirstPieceFrom(cfg, col, i) == n
    decreases n - i
  {
    if i < n {
      FirstPieceIs(cfg, col, i + 1, n);
    }
  }

  /** A column made of n blanks on top of a stack of pieces obeys gravity
      and has exactly n free cells. */
  lemma StackObeysGravity(cfg: Config, n: nat, s: seq<char>)
    requires NoBlanks(cfg, s)
    ensures Gravity(cfg, Blanks(cfg, n) + s)
    ensures FreeCells(cfg, Blanks(cfg, n) + s) == n
  {
    var col := Blanks(cfg, n) + s;
    FirstPieceIs(cfg, col, 0, n);
  }

  /** Every column that obeys gravity is its free cells on top of a stack of
      pieces. */
  lemma GravityIsStack(cfg: Config, col: Column)
    requires Gravity(cfg, col)
    ensures NoBlanks(cfg, col[FreeCells(cfg, col)..])
    ensures col == Blanks(cfg, FreeCells(cfg, col)) + col[FreeCells(cfg, col)..]
  {
    var f := FreeCells(cfg, col);
    forall k | f <= k < |col| ensures col[k] != cfg.blank {
      assert col[f] != cfg.blank;
    }
    assert col == col[..f] + col[f..];
    assert col[..f] == Blanks(cfg, f);
  }

  /** add_piece puts the piece directly on top of the stack. */
  lemma {:induction false} DropOnStack(cfg: Config, n: nat, s: seq<char>, piece: char)
    requires 1 <= n
    requires NoBlanks(cfg, s)
    ensures Dropped(cfg, Blanks(cfg, n) + s, piece) == Blanks(cfg, n - 1) + [piece] + s
  {
    var col := Blanks(cfg, n) + s;
    FirstPieceIs(cfg, col, 1, n);
    var i := FirstPieceFrom(cfg, col, 1);
    var r := Dropped(cfg, col, piece);
    var t := Blanks(cfg, n - 1) + [piece] + s;
    assert |r| == |t|;
    forall k | 0 <= k < |r| ensures r[k] == t[k] {
      if k < n - 1 {
      } else if k == n - 1 {
      } else {
        assert r[k] == s[k - n];
      }
    }
  }

  /** remove_piece takes the bottom piece off the stack; the pieces above it
      move one cell down in the same order. */
  lemma PullFromStack(cfg: Config, n: nat, s: seq<char>)
    requires 1 <= |s|
    ensures Pulled(cfg, Blanks(cfg, n) + s) == Blanks(cfg, n + 1) + s[..|s| - 1]
  {
    var col := Blanks(cfg, n) + s;
    assert col[..|col| - 1] == Blanks(cfg, n) + s[..|s| - 1];
    assert [cfg.blank] + Blanks(cfg, n) == Blanks(cfg, n + 1);
  }

  /** A successful add_piece of a real piece keeps gravity, uses up one free
      cell, puts the piece just above the stack and leaves the stack as it
      was. */
  lemma DropKeepsGravity(cfg: Config, col: Column, piece: char)
    requires |col| > 0 && Gravity(cfg, col) && !IsColumnFull(cfg, col)
    requires piece != cfg.blank
    ensures Gravity(cfg, Dropped(cfg, col, piece))
    ensures FreeCells(cfg, Dropped(cfg, col, piece)) == FreeCells(cfg, col) - 1
    ensures Dropped(cfg, col, piece)[FreeCells(cfg, col) - 1] == piece
    ensures Dropped(cfg, col, piece)[FreeCells(cfg, col)..] == col[FreeCells(cfg, col)..]
  {
    var f := FreeCells(cfg, col);
    var s := col[f..];
    GravityIsStack(cfg, col);
    assert f >= 1;
    DropOnStack(cfg, f, s, piece);
    var r := Dropped(cfg, col, piece);
    assert r == Blanks(cfg, f - 1) + ([piece] + s);
    StackObeysGravity(cfg, f - 1, [piece] + s);
    assert r[f..] == s;
  }

  /** A successful remove_piece keeps gravity, frees one more cell and
      shifts the remaining pieces one cell down in their order. */
  lemma PullKeepsGravity(cfg: Config, col: Column)
    requires |col| > 0 && Gravity(cfg, col) && !IsColumnEmpty(cfg, col)
    ensures Gravity(cfg, Pulled(cfg, col))
    ensures FreeCells(cfg, Pulled(cfg, col)) == FreeCells(cfg, col) + 1
    ensures Pulled(cfg, col)[FreeCells(cfg, col) + 1..] == col[FreeCells(cfg, col)..|col| - 1]
  {
    var n, f := |col|, FreeCells(cfg, col);
    var r := Pulled(cfg, col);
    assert forall k :: 0 < k < n ==> r[k] == col[k - 1];
    assert f < n;
    forall k, l | 0 <= k < l < n && r[l] == cfg.blank ensures r[k] == cfg.blank {
      if k > 0 {
        assert col[l - 1] == cfg.blank;
      }
    }
    FirstPieceIs(cfg, r, 0, f + 1);
    assert r[f + 1..] == col[f..n - 1];
  }

  /** add_piece on an empty column followed by remove_piece on it gives back
      the empty column. */
  lemma DropThenPullRestores(cfg: Config, piece: char)
    requires cfg.size > 0
    ensures Pulled(cfg, Dropped(cfg, Blanks(cfg, cfg.size), piece)) == Blanks(cfg, cfg.size)
  {
    DropOnStack(cfg, cfg.size, [], piece);
    assert Blanks(cfg, cfg.size) + [] == Blanks(cfg, cfg.size);
    PullFromStack(cfg, cfg.size - 1, [piece]);
    assert Blanks(cfg, cfg.size - 1) + [piece] + [] == Blanks(cfg, cfg.size - 1) + [piece];
  }

  /** The column after add_piece drops each of `pieces` into it in turn. */
  function DropAll(cfg: Config, col: Column, pieces: seq<char>): (r: Column)
    requires |col| > 0
    ensures |r| == |col|
    decreases |pieces|
  {
    if pieces == [] then col else DropAll(cfg, Dropped(cfg, col, pieces[0]), pieces[1..])
  }

  function Reversed(s: seq<char>): (r: seq<char>)
    ensures |r| == |s|
  {
    if s == [] then [] else Reversed(s[1..]) + [s[0]]
  }

  /** Reversing a sequence of one repeated piece leaves it as it is. */
  lemma {:induction false} ReversedConstant(s: seq<char>, t: char)
    requires forall k :: 0 <= k < |s| ==> s[k] == t
    ensures Reversed(s) == s
  {
    if s != [] {
      ReversedConstant(s[1..], t);
      assert s[1..] + [s[0]] == s;
    }
  }

  lemma {:induction false} ReversedNoBlanks(cfg: Config, s: seq<char>)
    requires NoBlanks(cfg, s)
    ensures NoBlanks(cfg, Reversed(s))
  {
    if s != [] {
      ReversedNoBlanks(cfg, s[1..]);
    }
  }

  /** Dropping pieces onto a stack with room for them piles them up, the
      last one on top. */
  lemma {:induction false} DropAllOnStack(cfg: Config, n: nat, s: seq<char>, pieces: seq<char>)
    requires |pieces| <= n && 0 < n + |s|
    requires NoBlanks(cfg, s) && NoBlanks(cfg, pieces)
    ensures DropAll(cfg, Blanks(cfg, n) + s, pieces) == Blanks(cfg, n - |pieces|) + Reversed(pieces) + s
  {
    if pieces == [] {
      assert Blanks(cfg, n) + s == Blanks(cfg, n - 0) + [] + s;
    } else {
      DropOnStack(cfg, n, s, pieces[0]);
      var s' := [pieces[0]] + s;
      assert Blanks(cfg, n - 1) + [pieces[0]] + s == Blanks(cfg, n - 1) + s';
      DropAllOnStack(cfg, n - 1, s', pieces[1..]);
      assert Blanks(cfg, n - 1 - |pieces[1..]|) + Reversed(pieces[1..]) + s'
          == Blanks(cfg, n - |pieces|) + Reversed(pieces) + s;
    }
  }

  /** Capacity: BOARD_SIZE pieces dropped into an empty column fill it, and
      it is full only then. */
  lemma FillEmptyColumn(cfg: Config, pieces: seq<char>)
    requires 0 < cfg.size && |pieces| <= cfg.size
    requires NoBlanks(cfg, pieces)
    ensures DropAll(cfg, Blanks(cfg, cfg.size), pieces) == Blanks(cfg, cfg.size - |pieces|) + Reversed(pieces)
    ensures IsColumnFull(cfg, DropAll(cfg, Blanks(cfg, cfg.size), pieces)) <==> |pieces| == cfg.size
  {
    assert Blanks(cfg, cfg.size) + [] == Blanks(cfg, cfg.size);
    DropAllOnStack(cfg, cfg.size, [], pieces);
    assert Blanks(cfg, cfg.size - |pieces|) + Reversed(pieces) + [] == Blanks(cfg, cfg.size - |pieces|) + Reversed(pieces);
    ReversedNoBlanks(cfg, pieces);
    if |pieces| > 0 {
      assert Reversed(pieces)[0] != cfg.blank;
    }
  }

  /** A successful add_piece of a player's piece leaves a board a game can
      be in, and a different board from before. */
  lemma DropKeepsBoardValid(cfg: Config, b: seq<Column>, c: nat, piece: char)
    requires cfg.Valid() && ValidBoard(cfg, b) && c < |b| && !IsColumnFull(cfg, b[c])
    requires piece == cfg.playerOne || piece == cfg.playerTwo
    ensures ValidBoard(cfg, b[c := Dropped(cfg, b[c], piece)])
    ensures b[c := Dropped(cfg, b[c], piece)] != b
  {
    var col := Dropped(cfg, b[c], piece);
    DropKeepsGravity(cfg, b[c], piece);
    assert forall k :: 0 <= k < |col| ==> cfg.IsPiece(col[k]);
    assert col != b[c] by {
      assert FreeCells(cfg, col) != FreeCells(cfg, b[c]);
    }
    assert b[c := col][c] != b[c];
  }

  /** A successful remove_piece leaves a board a game can be in, and a
      different board from before. */
  lemma PullKeepsBoardValid(cfg: Config, b: seq<Column>, c: nat)
    requires cfg.Valid() && ValidBoard(cfg, b) && c < |b| && !IsColumnEmpty(cfg, b[c])
    ensures ValidBoard(cfg, b[c := Pulled(cfg, b[c])])
    ensures b[c := Pulled(cfg, b[c])] != b
  {
    var col := Pulled(cfg, b[c]);
    PullKeepsGravity(cfg, b[c]);
    forall k | 0 <= k < |col| ensures cfg.IsPiece(col[k]) {
      if k > 0 {
        assert col[k] == b[c][k - 1];
      }
    }
    assert col != b[c] by {
      assert FreeCells(cfg, col) != FreeCells(cfg, b[c]);
    }
    assert b[c := col][c] != b[c];
  }

  /** add_piece (main.py): a full column is left alone and False returned;
      otherwise the piece falls into place and True is returned. */
  method AddPiece(cfg: Config, board: array<Column>, piece: char, columnIndex: nat) returns (added: bool)
    requires columnIndex < board.Length && |board[columnIndex]| == cfg.size && cfg.size > 0
    modifies board
    ensures added == !IsColumnFull(cfg, old(board[columnIndex]))
    ensures board[..] == if added
      then old(board[..])[columnIndex := Dropped(cfg, old(board[columnIndex]), piece)]
      else old(board[..])
  {
    var column := board[columnIndex];
    if IsColumnFull(cfg, column) {
      return false;
    }
    var i := 1;
    while i < cfg.size
      invariant 1 <= i <= cfg.size
      invariant forall k :: 1 <= k < i ==> column[k] == cfg.blank
      invariant FirstPieceFrom(cfg, column, i) == FirstPieceFrom(cfg, column, 1)
    {
      if column[i] != cfg.blank {
        break;
      }
      i := i + 1;
    }
    board[columnIndex] := Blanks(cfg, i - 1) + [piece] + column[i..];
    assert board[columnIndex] == Dropped(cfg, column, piece) by {
      var r := Dropped(cfg, column, piece);
      forall k | 0 <= k < |column| ensures board[columnIndex][k] == r[k] {
      }
    }
    added := true;
  }

  /** remove_piece (main.py): an empty column is left alone and False
      returned; otherwise the bottom piece is taken out and True returned. */
  method RemovePiece(cfg: Config, board: array<Column>, columnIndex: nat) returns (removed: bool)
    requires columnIndex < board.Length && |board[columnIndex]| > 0
    modifies board
    ensures removed == !IsColumnEmpty(cfg, old(board[columnIndex]))
    ensures board[..] == if removed
      then old(board[..])[columnIndex := Pulled(cfg, old(board[columnIndex]))]
      else old(board[..])
  {
    var column := board[columnIndex];
    if IsColumnEmpty(cfg, column) {
      return false;
    }
    board[columnIndex] := [cfg.blank] + column[..|column| - 1];
    removed := true;
  }
}
