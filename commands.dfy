/** check_input and the command dispatch of play_game. VALID_COMMANDS is a
    list of one-character commands: entries 0-1 add a piece, 2-3 remove
    one, 4-5 ask for help, 6 onward quit. */
module Commands {
  import opened Settings

  /** What check_input decides; the two failures are the two messages it
      prints. */
  datatype InputStatus = Accepted | InvalidColumn | InvalidFormat

  /** The commands play_game acts on, columns counted from 0. */
  datatype Command = Help | Quit | Add(column: nat) | Remove(column: nat)

  /** Python's list slice s[lo:hi]: bounds past the end are cut back. */
  function Slice(s: seq<char>, lo: nat, hi: nat): (r: seq<char>)
    requires lo <= hi
    ensures forall x :: x in r <==> exists k :: lo <= k < hi && k < |s| && s[k] == x
  {
    var h := if hi < |s| then hi else |s|;
    var l := if lo < h then lo else h;
    assert forall k :: l <= k < h ==> s[l..h][k - l] == s[k];
    s[l..h]
  }

  /** Python's list slice s[lo:]. */
  function From(s: seq<char>, lo: nat): (r: seq<char>)
    ensures forall x :: x in r <==> exists k :: lo <= k < |s| && s[k] == x
  {
    Slice(s, lo, if lo < |s| then |s| else lo)
  }

  /** Python's `command in entries` for a list of one-character strings. */
  predicate IsListed(command: string, entries: seq<char>) {
    |command| == 1 && command[0] in entries
  }

  /** An ASCII digit, and its value. */
  predicate IsDigit(ch: char) {
    '0' <= ch <= '9'
  }

  function DigitValue(ch: char): int {
    ch as int - '0' as int
  }

  /** check_input (main.py): a lone help or quit letter, or an add or remove
      letter followed by a column number from 1 to BOARD_SIZE, is accepted;
      an add or remove letter followed by any other digit is an invalid
      column; everything else is an invalid format. */
  function CheckInput(cfg: Config, command: string): (r: InputStatus)
    ensures r == Accepted <==>
      (|command| == 1 && command[0] in From(cfg.commands, 4)) ||
      (|command| == 2 && command[0] in Slice(cfg.commands, 0, 4) && IsDigit(command[1]) &&
       1 <= DigitValue(command[1]) <= cfg.size)
    ensures r == InvalidColumn <==>
      |command| == 2 && command[0] in Slice(cfg.commands, 0, 4) && IsDigit(command[1]) &&
      !(1 <= DigitValue(command[1]) <= cfg.size)
  {
    var validInputType :=
      (IsListed(command, From(cfg.commands, 4)) && |command| == 1) ||
      (|command| == 2 && command[0] in Slice(cfg.commands, 0, 4) && IsDigit(command[1]));
    var validColumnNumber :=
      |command| == 2 && validInputType && 1 <= DigitValue(command[1]) <= cfg.size;
    if validColumnNumber || (validInputType && |command| == 1) then Accepted
    else if validInputType then InvalidColumn
    else InvalidFormat
  }

  /** The dispatch at the head of play_game's inner loop, applied to a
      command check_input accepted: help and quit letters first, then add
      for the first two letters and remove for the others, with the typed
      column number less one. */
  function ParseCommand(cfg: Config, command: string): (c: Command)
    requires CheckInput(cfg, command) == Accepted
    ensures c == Help <==> |command| == 1 && command[0] in Slice(cfg.commands, 4, 6)
    ensures c == Quit <==> |command| == 1 && command[0] !in Slice(cfg.commands, 4, 6)
    ensures c.Add? <==> |command| == 2 && command[0] in Slice(cfg.commands, 0, 2)
    ensures c.Add? || c.Remove? ==>
      |command| == 2 && c.column == DigitValue(command[1]) - 1 && c.column < cfg.size
  {
    if IsListed(command, Slice(cfg.commands, 4, 6)) then Help
    else if IsListed(command, From(cfg.commands, 6)) then Quit
    else if command[0] in Slice(cfg.commands, 0, 2) then Add(DigitValue(command[1]) - 1)
    else Remove(DigitValue(command[1]) - 1)
  }

  predicate Distinct(s: seq<char>) {
    forall k, l :: 0 <= k < l < |s| ==> s[k] != s[l]
  }

  function DigitChar(n: nat): char
    requires n <= 9
  {
    ('0' as int + n) as char
  }

  /** The text of a command, typed with the first letter of its kind. */
  function FormatCommand(cfg: Config, c: Command): string
    requires |cfg.commands| >= 7
    requires c.Add? || c.Remove? ==> c.column < 9
  {
    match c
    case Help => [cfg.commands[4]]
    case Quit => [cfg.commands[6]]
    case Add(column) => [cfg.commands[0], DigitChar(column + 1)]
    case Remove(column) => [cfg.commands[2], DigitChar(column + 1)]
  }

  /** Every command play_game acts on can be typed: its text is accepted by
      check_input and dispatched back to the same command. */
  lemma FormattedCommandParses(cfg: Config, c: Command)
    requires |cfg.commands| >= 7 && Distinct(cfg.commands)
    requires c.Add? || c.Remove? ==> c.column < cfg.size && c.column < 9
    ensures CheckInput(cfg, FormatCommand(cfg, c)) == Accepted
    ensures ParseCommand(cfg, FormatCommand(cfg, c)) == c
  {
    var vc := cfg.commands;
    match c
    case Help =>
      assert vc[4] in Slice(vc, 4, 6);
    case Quit =>
      assert vc[6] in From(vc, 4);
      assert vc[6] !in Slice(vc, 4, 6);
    case Add(column) =>
      assert vc[0] in Slice(vc, 0, 4) && vc[0] in Slice(vc, 0, 2);
    case Remove(column) =>
      assert vc[2] in Slice(vc, 0, 4);
      assert vc[2] !in Slice(vc, 0, 2);
  }
}
