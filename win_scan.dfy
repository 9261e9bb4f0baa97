/** check_win: the scan of every occupied cell for a run of
    REQUIRED_WIN_LENGTH identical pieces, and what the two players' flags
    mean. Cells are b[i][j]: column i, row j, row 0 at the top. */
module WinScan {
  import opened Settings
  import opened Board

  /** The four walks check_win makes from a cell: up its column, left along
      its row, left and up, left and down. */
  datatype Direction = Vertical | Horizontal | DiagonalUp | DiagonalDown

  datatype Player = PlayerOne | PlayerTwo

  /** The directions in the order of check_win's counters a, b, c, d. */
  function Probe(m: nat): Direction
    requires m < 4
  {
    [Vertical, Horizontal, DiagonalUp, DiagonalDown][m]
  }

  /** Column and row reached k steps from (i, j) along d. */
  function StepColumn(d: Direction, i: int, k: int): int {
    if d == Vertical then i else i - k
  }

  function StepRow(d: Direction, j: int, k: int): int {
    match d
    case Vertical => j - k
    case Horizontal => j
    case DiagonalUp => j - k
    case DiagonalDown => j + k
  }

  /** Cell (x, y) is on the board and holds t. */
  ghost predicate Holds(b: seq<Column>, x: int, y: int, t: char) {
    0 <= x < |b| && 0 <= y < |b[x]| && b[x][y] == t
  }

  /** REQUIRED_WIN_LENGTH cells starting at (i, j) and going along d all lie
      on the board and hold t. */
  ghost predicate RunFrom(cfg: Config, b: seq<Column>, i: int, j: int, d: Direction, t: char) {
    forall k :: 0 <= k < cfg.winLength ==> Holds(b, StepColumn(d, i, k), StepRow(d, j, k), t)
  }

  /** Which pieces count for which player: anything that is neither blank
      nor player one's piece counts for player two. */
  predicate Owns(cfg: Config, p: Player, t: char)
    ensures cfg.Valid() && Owns(cfg, p, t) ==> t != cfg.blank
  {
    match p
    case PlayerOne => t == cfg.playerOne
    case PlayerTwo => t != cfg.blank && t != cfg.playerOne
  }

  /** Under valid settings every piece on the board other than the blank
      belongs to exactly one player, and player one's piece to player one. */
  lemma OneOwnerPerPiece(cfg: Config, t: char)
    requires cfg.Valid()
    ensures t != cfg.blank <==> Owns(cfg, PlayerOne, t) || Owns(cfg, PlayerTwo, t)
    ensures !(Owns(cfg, PlayerOne, t) && Owns(cfg, PlayerTwo, t))
    ensures Owns(cfg, PlayerOne, t) <==> t == cfg.playerOne
    ensures Owns(cfg, PlayerTwo, cfg.playerTwo)
  {
  }

  /** A run for player p starts at cell (i, j). */
  ghost predicate Claims(cfg: Config, b: seq<Column>, i: int, j: int, p: Player) {
    0 <= i < |b| && 0 <= j < |b[i]| && Owns(cfg, p, b[i][j]) &&
    exists d :: RunFrom(cfg, b, i, j, d, b[i][j])
  }

  /** Player p has a run somewhere on the board. */
  ghost predicate HasWon(cfg: Config, b: seq<Column>, p: Player) {
    exists i, j :: Claims(cfg, b, i, j, p)
  }

  /** What check_win reports: the blank piece for a draw, a player's piece for
      that player's win, None when nobody has a run. */
  ghost function Winner(cfg: Config, b: seq<Column>): Option<char> {
    var one := HasWon(cfg, b, PlayerOne);
    var two := HasWon(cfg, b, PlayerTwo);
    if one && two then Some(cfg.blank)
    else if one then Some(cfg.playerOne)
    else if two then Some(cfg.playerTwo)
    else None
  }

  /** Cell k of the straight line of cells that starts at (x, y) and goes
      down, right, right and down, or right and up: the same four lines as
      the walks, traversed from their other end. */
  function LineColumn(d: Direction, x: int, k: int): int {
    if d == Vertical then x else x + k
  }

  function LineRow(d: Direction, y: int, k: int): int {
    match d
    case Vertical => y + k
    case Horizontal => y
    case DiagonalUp => y + k
    case DiagonalDown => y - k
  }

  ghost predicate Line(cfg: Config, b: seq<Column>, x: int, y: int, d: Direction, t: char) {
    forall k :: 0 <= k < cfg.winLength ==> Holds(b, LineColumn(d, x, k), LineRow(d, y, k), t)
  }

  /** The cell where the walk of a line begins: its last cell. */
  function EndColumn(cfg: Config, d: Direction, x: int): int {
    LineColumn(d, x, cfg.winLength - 1)
  }

  function EndRow(cfg: Config, d: Direction, y: int): int {
    LineRow(d, y, cfg.winLength - 1)
  }

  /** A line read from either end is the same run. */
  lemma LineIsRun(cfg: Config, b: seq<Column>, x: int, y: int, d: Direction, t: char)
    requires cfg.Valid()
    ensures Line(cfg, b, x, y, d, t) <==>
      RunFrom(cfg, b, EndColumn(cfg, d, x), EndRow(cfg, d, y), d, t)
  {
    var w := cfg.winLength;
    var i, j := EndColumn(cfg, d, x), EndRow(cfg, d, y);
    if Line(cfg, b, x, y, d, t) {
      forall k | 0 <= k < w ensures Holds(b, StepColumn(d, i, k), StepRow(d, j, k), t) {
        assert StepColumn(d, i, k) == LineColumn(d, x, w - 1 - k);
        assert StepRow(d, j, k) == LineRow(d, y, w - 1 - k);
      }
    }
    if RunFrom(cfg, b, i, j, d, t) {
      forall k | 0 <= k < w ensures Holds(b, LineColumn(d, x, k), LineRow(d, y, k), t) {
        assert LineColumn(d, x, k) == StepColumn(d, i, w - 1 - k);
        assert LineRow(d, y, k) == StepRow(d, j, w - 1 - k);
      }
    }
  }

  /** A player has won exactly when some straight line of
      REQUIRED_WIN_LENGTH cells, in one of the four directions, lies on the
      board and holds one of that player's pieces in every cell. */
  lemma WinIsLine(cfg: Config, b: seq<Column>, p: Player)
    requires cfg.Valid()
    ensures HasWon(cfg, b, p) <==>
      exists x, y, d, t :: Owns(cfg, p, t) && Line(cfg, b, x, y, d, t)
  {
    if HasWon(cfg, b, p) {
      var i, j :| Claims(cfg, b, i, j, p);
      var d :| RunFrom(cfg, b, i, j, d, b[i][j]);
      var x := if d == Vertical then i else i - (cfg.winLength - 1);
      var y := LineRow(d, j, -(cfg.winLength - 1));
      LineIsRun(cfg, b, x, y, d, b[i][j]);
      assert Owns(cfg, p, b[i][j]) && Line(cfg, b, x, y, d, b[i][j]);
    }
    if exists x, y, d, t :: Owns(cfg, p, t) && Line(cfg, b, x, y, d, t) {
      var x, y, d, t :| Owns(cfg, p, t) && Line(cfg, b, x, y, d, t);
      LineIsRun(cfg, b, x, y, d, t);
      var i, j := EndColumn(cfg, d, x), EndRow(cfg, d, y);
      assert Holds(b, StepColumn(d, i, 0), StepRow(d, j, 0), t);
      assert Claims(cfg, b, i, j, p);
    }
  }

  /** The test check_win makes before each walk: whether the cell has room
      for a run in that direction. */
  predicate Probed(cfg: Config, d: Direction, i: int, j: int)
    ensures 1 <= cfg.winLength && 0 <= i < cfg.size && 0 <= j < cfg.size ==>
      (Probed(cfg, d, i, j) <==>
        0 <= StepColumn(d, i, cfg.winLength - 1) && 0 <= StepRow(d, j, cfg.winLength - 1) < cfg.size)
  {
    var w := cfg.winLength;
    match d
    case Vertical => w - 1 <= j
    case Horizontal => w - 1 <= i
    case DiagonalUp => w - 1 <= i && w - 1 <= j
    case DiagonalDown => w - 1 <= i && j < cfg.size - (w - 1)
  }

  /** How many steps a walk may take before its bounds test fails: the tests
      `j-a >= 0`, `i-b >= 0`, `j-c >= 0` and `j+d <= BOARD_SIZE-1`. */
  function Reach(cfg: Config, d: Direction, i: int, j: int): int {
    match d
    case Vertical => j
    case Horizontal => i
    case DiagonalUp => j
    case DiagonalDown => cfg.size - 1 - j
  }

  /** Python's reading of a negative list index: from the end of the list. */
  function PyIndex(cfg: Config, x: int): int {
    if x < 0 then x + cfg.size else x
  }

  /** The walk from (i, j) along d takes its k-th step: the bounds test
      passes and the cell it reads holds the starting piece. The diagonal
      walks test only the row, so their column index may go negative and
      is then read from the end of the board, as Python does. */
  ghost predicate Continues(cfg: Config, b: seq<Column>, i: int, j: int, d: Direction, k: int)
    requires Shaped(cfg, b) && 0 <= i < cfg.size && 0 <= j < cfg.size && 1 <= k
  {
    k <= Reach(cfg, d, i, j) &&
    b[PyIndex(cfg, StepColumn(d, i, k))][StepRow(d, j, k)] == b[i][j]
  }

  /** A walk from (i, j) along d counts n: it took steps 1 to n - 1 and
      stopped at step n. */
  ghost predicate WalkStops(cfg: Config, b: seq<Column>, i: int, j: int, d: Direction, n: int)
    requires Shaped(cfg, b) && 0 <= i < cfg.size && 0 <= j < cfg.size
  {
    1 <= n &&
    (forall k :: 1 <= k < n ==> Continues(cfg, b, i, j, d, k)) &&
    !Continues(cfg, b, i, j, d, n)
  }

  /** One of the four `while` loops of check_win: counts the starting cell
      and the matching cells after it, and stops at the first step whose
      bounds test fails or whose cell differs. */
  method Walk(cfg: Config, board: array<Column>, i: int, j: int, d: Direction) returns (n: int)
    requires Shaped(cfg, board[..]) && 0 <= i < cfg.size && 0 <= j < cfg.size
    ensures WalkStops(cfg, board[..], i, j, d, n)
  {
    var t := board[i][j];
    n := 1;
    while n <= Reach(cfg, d, i, j) && board[PyIndex(cfg, StepColumn(d, i, n))][StepRow(d, j, n)] == t
      invariant 1 <= n <= Reach(cfg, d, i, j) + 1
      invariant forall k :: 1 <= k < n ==> Continues(cfg, board[..], i, j, d, k)
      decreases Reach(cfg, d, i, j) + 1 - n
    {
      n := n + 1;
    }
  }

  /** When the cell has room, the walk counts REQUIRED_WIN_LENGTH or more
      exactly when a run starts at the cell in that direction. Within the
      first REQUIRED_WIN_LENGTH steps no column index goes negative, so
      the wrap-around never decides the outcome. */
  lemma WalkDecides(cfg: Config, b: seq<Column>, i: int, j: int, d: Direction, n: int)
    requires cfg.Valid() && Shaped(cfg, b) && 0 <= i < cfg.size && 0 <= j < cfg.size
    requires Probed(cfg, d, i, j) && WalkStops(cfg, b, i, j, d, n)
    ensures n >= cfg.winLength <==> RunFrom(cfg, b, i, j, d, b[i][j])
  {
    var w := cfg.winLength;
    if n >= w {
      forall k | 0 <= k < w ensures Holds(b, StepColumn(d, i, k), StepRow(d, j, k), b[i][j]) {
        if k > 0 {
          assert Continues(cfg, b, i, j, d, k);
        }
      }
    }
    if RunFrom(cfg, b, i, j, d, b[i][j]) && n < w {
      assert Holds(b, StepColumn(d, i, n), StepRow(d, j, n), b[i][j]);
      assert Continues(cfg, b, i, j, d, n);
    }
  }

  /** When the cell has no room in a direction, no run starts there. */
  lemma UnprobedHasNoRun(cfg: Config, b: seq<Column>, i: int, j: int, d: Direction, t: char)
    requires cfg.Valid() && Shaped(cfg, b) && 0 <= i < cfg.size && 0 <= j < cfg.size
    requires !Probed(cfg, d, i, j)
    ensures !RunFrom(cfg, b, i, j, d, t)
  {
    var k := cfg.winLength - 1;
    assert !Holds(b, StepColumn(d, i, k), StepRow(d, j, k), t);
  }

  /** Count n of cell (i, j) in direction d tells whether a run starts there. */
  ghost predicate Decides(cfg: Config, b: seq<Column>, i: int, j: int, d: Direction, n: int)
    requires Shaped(cfg, b) && 0 <= i < cfg.size && 0 <= j < cfg.size
  {
    n >= cfg.winLength <==> b[i][j] != cfg.blank && RunFrom(cfg, b, i, j, d, b[i][j])
  }

  /** A count left at 1, for a blank cell or a cell without room, is right. */
  lemma SkippedDecides(cfg: Config, b: seq<Column>, i: int, j: int, d: Direction)
    requires cfg.Valid() && Shaped(cfg, b) && 0 <= i < cfg.size && 0 <= j < cfg.size
    requires b[i][j] == cfg.blank || !Probed(cfg, d, i, j)
    ensures Decides(cfg, b, i, j, d, 1)
  {
    if b[i][j] != cfg.blank {
      UnprobedHasNoRun(cfg, b, i, j, d, b[i][j]);
    }
  }

  /** The three walks check_win makes left of an occupied cell once the cell
      has room to its left: counts b, c and d. */
  method ScanLeft(cfg: Config, board: array<Column>, i: int, j: int) returns (c1: int, c2: int, c3: int)
    requires cfg.Valid() && Shaped(cfg, board[..]) && 0 <= i < cfg.size && 0 <= j < cfg.size
    requires board[i][j] != cfg.blank && cfg.winLength - 1 <= i
    ensures Decides(cfg, board[..], i, j, Horizontal, c1)
    ensures Decides(cfg, board[..], i, j, DiagonalUp, c2)
    ensures Decides(cfg, board[..], i, j, DiagonalDown, c3)
  {
    ghost var b := board[..];
    var w := cfg.winLength;
    c1 := Walk(cfg, board, i, j, Horizontal);
    WalkDecides(cfg, b, i, j, Horizontal, c1);
    c2, c3 := 1, 1;
    if w - 1 <= j {
      c2 := Walk(cfg, board, i, j, DiagonalUp);
      WalkDecides(cfg, b, i, j, DiagonalUp, c2);
    } else {
      SkippedDecides(cfg, b, i, j, DiagonalUp);
    }
    if j < cfg.size - (w - 1) {
      c3 := Walk(cfg, board, i, j, DiagonalDown);
      WalkDecides(cfg, b, i, j, DiagonalDown, c3);
    } else {
      SkippedDecides(cfg, b, i, j, DiagonalDown);
    }
  }

  /** The counts a, b, c, d check_win computes for cell (i, j): each stays 1
      for a blank cell or when the cell has no room in its direction. */
  method ScanCell(cfg: Config, board: array<Column>, i: int, j: int) returns (counts: seq<int>)
    requires cfg.Valid() && Shaped(cfg, board[..]) && 0 <= i < cfg.size && 0 <= j < cfg.size
    ensures |counts| == 4
    ensures forall m :: 0 <= m < 4 ==> Decides(cfg, board[..], i, j, Probe(m), counts[m])
  {
    ghost var b := board[..];
    var w := cfg.winLength;
    var t := board[i][j];
    var a, c1, c2, c3 := 1, 1, 1, 1;
    if t != cfg.blank {
      if w - 1 <= j {
        a := Walk(cfg, board, i, j, Vertical);
        WalkDecides(cfg, b, i, j, Vertical, a);
      } else {
        SkippedDecides(cfg, b, i, j, Vertical);
      }
      if w - 1 <= i {
        c1, c2, c3 := ScanLeft(cfg, board, i, j);
      } else {
        SkippedDecides(cfg, b, i, j, Horizontal);
        SkippedDecides(cfg, b, i, j, DiagonalUp);
        SkippedDecides(cfg, b, i, j, DiagonalDown);
      }
    } else {
      SkippedDecides(cfg, b, i, j, Vertical);
      SkippedDecides(cfg, b, i, j, Horizontal);
      SkippedDecides(cfg, b, i, j, DiagonalUp);
      SkippedDecides(cfg, b, i, j, DiagonalDown);
    }
    counts := [a, c1, c2, c3];
    assert forall m :: 0 <= m < 4 ==> Decides(cfg, b, i, j, Probe(m), counts[m]);
  }

  /** Some count of a cell reaches REQUIRED_WIN_LENGTH exactly when a run
      for one of the players starts there. */
  lemma CountsDecideClaims(cfg: Config, b: seq<Column>, i: int, j: int, counts: seq<int>)
    requires cfg.Valid() && Shaped(cfg, b) && 0 <= i < cfg.size && 0 <= j < cfg.size
    requires |counts| == 4
    requires forall m :: 0 <= m < 4 ==> Decides(cfg, b, i, j, Probe(m), counts[m])
    ensures (exists m :: 0 <= m < 4 && counts[m] >= cfg.winLength) <==>
      Claims(cfg, b, i, j, PlayerOne) || Claims(cfg, b, i, j, PlayerTwo)
  {
    if exists d :: RunFrom(cfg, b, i, j, d, b[i][j]) {
      var d :| RunFrom(cfg, b, i, j, d, b[i][j]);
      var m := match d case Vertical => 0 case Horizontal => 1 case DiagonalUp => 2 case DiagonalDown => 3;
      assert Probe(m) == d && Decides(cfg, b, i, j, d, counts[m]);
    }
  }

  /** check_win (main.py): reads the board and never changes it; reports a
      draw (the blank piece) when both players have a run, a player's piece
      when only that player has one, and None when neither has. */
  method CheckWin(cfg: Config, board: array<Column>) returns (r: Option<char>)
    requires cfg.Valid() && Shaped(cfg, board[..])
    ensures r == Winner(cfg, board[..])
    ensures r == Some(cfg.blank) <==>
      HasWon(cfg, board[..], PlayerOne) && HasWon(cfg, board[..], PlayerTwo)
    ensures r == Some(cfg.playerOne) <==>
      HasWon(cfg, board[..], PlayerOne) && !HasWon(cfg, board[..], PlayerTwo)
    ensures r == Some(cfg.playerTwo) <==>
      !HasWon(cfg, board[..], PlayerOne) && HasWon(cfg, board[..], PlayerTwo)
    ensures r == None <==>
      !HasWon(cfg, board[..], PlayerOne) && !HasWon(cfg, board[..], PlayerTwo)
  {
    ghost var b := board[..];
    var playerOneWin, playerTwoWin := false, false;
    for i := 0 to cfg.size
      invariant playerOneWin <==> exists x, y :: x < i && Claims(cfg, b, x, y, PlayerOne)
      invariant playerTwoWin <==> exists x, y :: x < i && Claims(cfg, b, x, y, PlayerTwo)
    {
      for j := 0 to cfg.size
        invariant playerOneWin <==>
          (exists x, y :: x < i && Claims(cfg, b, x, y, PlayerOne)) ||
          (exists y :: y < j && Claims(cfg, b, i, y, PlayerOne))
        invariant playerTwoWin <==>
          (exists x, y :: x < i && Claims(cfg, b, x, y, PlayerTwo)) ||
          (exists y :: y < j && Claims(cfg, b, i, y, PlayerTwo))
      {
        var testPiece := board[i][j];
        var counts := ScanCell(cfg, board, i, j);
        ghost var oneBefore, twoBefore := playerOneWin, playerTwoWin;
        for k := 0 to 4
          invariant playerOneWin <==> (oneBefore ||
            (testPiece == cfg.playerOne && exists m :: 0 <= m < k && counts[m] >= cfg.winLength))
          invariant playerTwoWin <==> (twoBefore ||
            (testPiece != cfg.playerOne && exists m :: 0 <= m < k && counts[m] >= cfg.winLength))
        {
          if counts[k] >= cfg.winLength && testPiece == cfg.playerOne {
            playerOneWin := true;
          } else if counts[k] >= cfg.winLength {
            playerTwoWin := true;
          }
        }
        CountsDecideClaims(cfg, b, i, j, counts);
      }
    }
    if playerOneWin && playerTwoWin {
      r := Some(cfg.blank);
    } else if playerOneWin {
      r := Some(cfg.playerOne);
    } else if playerTwoWin {
      r := Some(cfg.playerTwo);
    } else {
      r := None;
    }
  }

  /** Dropping REQUIRED_WIN_LENGTH pieces of one player into one column of a
      fresh board wins for that player and for nobody else. */
  lemma ColumnOfOnePieceWins(cfg: Config, c: nat, piece: char)
    requires cfg.Valid() && c < cfg.size
    requires piece == cfg.playerOne || piece == cfg.playerTwo
    ensures Winner(cfg, InitialBoard(cfg)[c := DropAll(cfg, Blanks(cfg, cfg.size), seq(cfg.winLength, _ => piece))])
      == Some(piece)
  {
    var w := cfg.winLength;
    var pieces := seq(w, _ => piece);
    var col := DropAll(cfg, Blanks(cfg, cfg.size), pieces);
    var b := InitialBoard(cfg)[c := col];
    FillEmptyColumn(cfg, pieces);
    ReversedConstant(pieces, piece);
    assert col == Blanks(cfg, cfg.size - w) + pieces;
    var owner := if piece == cfg.playerOne then PlayerOne else PlayerTwo;
    var other := if piece == cfg.playerOne then PlayerTwo else PlayerOne;
    assert RunFrom(cfg, b, c, cfg.size - 1, Vertical, piece) by {
      forall k | 0 <= k < w ensures Holds(b, StepColumn(Vertical, c, k), StepRow(Vertical, cfg.size - 1, k), piece) {
        assert b[c][cfg.size - 1 - k] == piece;
      }
    }
    assert Claims(cfg, b, c, cfg.size - 1, owner);
    forall i, j | 0 <= i < |b| && 0 <= j < |b[i]| ensures !Owns(cfg, other, b[i][j]) {
      assert b[i][j] == cfg.blank || b[i][j] == piece;
    }
    assert !HasWon(cfg, b, other);
  }

  /** Python's `s[x]`: negative indices count from the end; None stands for
      the IndexError raised outside -|s| <= x < |s|. */
  function PyGet<T>(s: seq<T>, x: int): (r: Option<T>)
    ensures r.Some? <==> -|s| <= x < |s|
  {
    if 0 <= x < |s| then Some(s[x]) else if -|s| <= x < 0 then Some(s[x + |s|]) else None
  }

  /** The left-and-down walk exactly as main.py writes it, bounded by the
      literal 7 rather than BOARD_SIZE - 1: the count it reaches from step d
      on, or None when it raises IndexError. */
  ghost function DiagonalDownAsWritten(b: seq<Column>, i: int, j: int, t: char, d: int): (r: Option<int>)
    requires 0 <= j && 1 <= d
    ensures r.Some? ==> r.value >= d
    decreases 8 - j - d
  {
    if j + d > 7 then Some(d)
    else match PyGet(b, i - d)
      case None => None
      case Some(col) =>
        match PyGet(col, j + d)
        case None => None
        case Some(x) => if x == t then DiagonalDownAsWritten(b, i, j, t, d + 1) else Some(d)
  }

  /** The boards of a game in which player one drops a piece into column 1,
      player two into column 2, and player one into column 2. */
  ghost function OverrunMoves(cfg: Config): (b: seq<seq<Column>>)
    requires cfg.Valid()
    ensures |b| == 4 && b[0] == InitialBoard(cfg)
  {
    var b0 := InitialBoard(cfg);
    var b1 := b0[0 := Dropped(cfg, b0[0], cfg.playerOne)];
    var b2 := b1[1 := Dropped(cfg, b1[1], cfg.playerTwo)];
    [b0, b1, b2, b2[1 := Dropped(cfg, b2[1], cfg.playerOne)]]
  }

  /** Each of those moves goes into a column with room, so add_piece makes
      all three; the boards stay valid, and the last one holds player one's
      pieces at the bottom of column 1 and one cell higher in column 2. */
  lemma OverrunBoardIsReachable(cfg: Config)
    requires cfg.Valid()
    ensures var m := OverrunMoves(cfg);
      var n, one, two := cfg.size, cfg.playerOne, cfg.playerTwo;
      !IsColumnFull(cfg, m[0][0]) && !IsColumnFull(cfg, m[1][1]) && !IsColumnFull(cfg, m[2][1]) &&
      ValidBoard(cfg, m[3]) &&
      m[3] == InitialBoard(cfg)[0 := Blanks(cfg, n - 1) + [one]][1 := Blanks(cfg, n - 2) + [one, two]]
  {
    var n, one, two := cfg.size, cfg.playerOne, cfg.playerTwo;
    var e := Blanks(cfg, n);
    var x, o := Blanks(cfg, n - 1) + [one], Blanks(cfg, n - 1) + [two];
    assert e + [] == e;
    DropOnStack(cfg, n, [], one);
    DropOnStack(cfg, n, [], two);
    assert x + [] == x && o + [] == o;
    DropOnStack(cfg, n - 1, [two], one);
    assert Blanks(cfg, n - 2) + [one] + [two] == Blanks(cfg, n - 2) + [one, two];
    var m := OverrunMoves(cfg);
    DropKeepsBoardValid(cfg, m[0], 0, one);
    DropKeepsBoardValid(cfg, m[1], 1, two);
    DropKeepsBoardValid(cfg, m[2], 1, one);
  }

  /** With BOARD_SIZE = 4 and REQUIRED_WIN_LENGTH = 2, those three moves make
      the walk from the second x read row 4 of a 4-cell column: the program
      stops with IndexError, although player one has a left-and-down run,
      which the scan bounded by BOARD_SIZE - 1 reports. */
  lemma LiteralSevenOverruns()
    ensures var cfg := Config(4, 2, ' ', 'x', 'o', []);
      var b := OverrunMoves(cfg)[3];
      cfg.Valid() && ValidBoard(cfg, b) &&
      b == ["   x", "  xo", "    ", "    "] &&
      Probed(cfg, DiagonalDown, 1, 2) && b[1][2] == cfg.playerOne &&
      DiagonalDownAsWritten(b, 1, 2, b[1][2], 1) == None &&
      HasWon(cfg, b, PlayerOne)
  {
    var cfg := Config(4, 2, ' ', 'x', 'o', []);
    OverrunBoardIsReachable(cfg);
    var b := OverrunMoves(cfg)[3];
    assert Blanks(cfg, 4) == "    " && Blanks(cfg, 3) + ['x'] == "   x" && Blanks(cfg, 2) + ['x', 'o'] == "  xo";
    assert b == ["   x", "  xo", "    ", "    "];
    assert RunFrom(cfg, b, 1, 2, DiagonalDown, 'x') by {
      assert Holds(b, StepColumn(DiagonalDown, 1, 1), StepRow(DiagonalDown, 2, 1), 'x');
    }
    assert Claims(cfg, b, 1, 2, PlayerOne);
  }

  /** With BOARD_SIZE = 9 and REQUIRED_WIN_LENGTH = 2, the same three moves
      put player one's pieces at (0, 8) and (1, 7), a left-and-down run, and
      nowhere else. The only walk that can see the run starts at (1, 7);
      bounded by the literal 7 it stops before its first step, so the
      program reports no win for player one, while the scan bounded by
      BOARD_SIZE - 1 reports the run. */
  lemma LiteralSevenMissesRun()
    ensures var cfg := Config(9, 2, ' ', 'x', 'o', []);
      var b := OverrunMoves(cfg)[3];
      cfg.Valid() && ValidBoard(cfg, b) &&
      (forall x, y :: Holds(b, x, y, 'x') ==> (x == 0 && y == 8) || (x == 1 && y == 7)) &&
      Probed(cfg, DiagonalDown, 1, 7) &&
      DiagonalDownAsWritten(b, 1, 7, 'x', 1) == Some(1) &&
      RunFrom(cfg, b, 1, 7, DiagonalDown, 'x') &&
      HasWon(cfg, b, PlayerOne)
  {
    var cfg := Config(9, 2, ' ', 'x', 'o', []);
    OverrunBoardIsReachable(cfg);
    var b := OverrunMoves(cfg)[3];
    forall x, y | Holds(b, x, y, 'x') ensures (x == 0 && y == 8) || (x == 1 && y == 7) {
      assert x == 0 || x == 1;
    }
    assert RunFrom(cfg, b, 1, 7, DiagonalDown, 'x') by {
      assert Holds(b, StepColumn(DiagonalDown, 1, 1), StepRow(DiagonalDown, 7, 1), 'x');
    }
    assert Claims(cfg, b, 1, 7, PlayerOne);
  }
}
