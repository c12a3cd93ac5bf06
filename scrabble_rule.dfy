/**
  The word-placement rule (ScrabbleRule): validation of a proposed move, its application to the
  game state, and the score query.  The state is a typed record instead of JSON; the dictionary is a
  set of upper-case words passed in by the caller.
*/
module ScrabbleRule {
  import opened Util
  import opened ScrabbleWords

  /** Tiles a player holds after drawing, at most. */
  const RackCapacity: int := 7

  datatype Move = Move(player: string, tiles: seq<Tile>)

  datatype State = State(
    board: Grid,
    racks: map<string, seq<char>>,
    scores: map<string, int>,
    bag: seq<char>,
    current: string,
    order: seq<string>,
    firstMove: bool)

  /** Why a move is rejected, in the order the checks run. */
  datatype Reason =
    | NotYourTurn
    | NoTiles
    | MissingTile(letter: char)
    | OutOfBounds
    | Occupied
    | NotStraight
    | MissesCenter
    | Disconnected
    | NoWords
    | UnknownWord(word: seq<char>)

  datatype Verdict = Accepted | Rejected(reason: Reason)

  /** The error text the rule reports for each reason. */
  function Message(r: Reason): string
  {
    match r
    case NotYourTurn => "Not this player's turn."
    case NoTiles => "No tiles placed."
    case MissingTile(l) => "Player does not have tile '" + [l] + "'."
    case OutOfBounds => "Tile out of board bounds."
    case Occupied => "Cell already occupied."
    case NotStraight => "Tiles must be in a straight line."
    case MissesCenter => "First move must cover center."
    case Disconnected => "Move must connect to existing tiles."
    case NoWords => "No valid words formed."
    case UnknownWord(w) => "Word '" + w + "' not in dictionary."
  }

  /**
    The states on which the rule's operations are defined: a 15 by 15 board, a non-empty turn
    order whose members all hold a rack, and a current player holding a rack.
  */
  predicate WellFormed(s: State)
  {
    && IsGrid(s.board)
    && |s.order| > 0
    && s.current in s.racks
    && forall i :: 0 <= i < |s.order| ==> s.order[i] in s.racks
  }

  // ---------------------------------------------------------------- validation

  /** List.Remove: drops the first occurrence of l, if any. */
  function RemoveFirst(rack: seq<char>, l: char): (r: seq<char>)
    ensures l in rack ==> multiset(r) == multiset(rack) - multiset{l}
    ensures l !in rack ==> r == rack
    decreases |rack|
  {
    if rack == [] then []
    else if rack[0] == l then
      assert rack == [rack[0]] + rack[1..];
      rack[1..]
    else
      assert rack == [rack[0]] + rack[1..];
      [rack[0]] + RemoveFirst(rack[1..], l)
  }

  function TileLetters(tiles: seq<Tile>): (ls: seq<char>)
    ensures |ls| == |tiles| && forall k :: 0 <= k < |tiles| ==> ls[k] == tiles[k].letter
  {
    seq(|tiles|, k requires 0 <= k < |tiles| => tiles[k].letter)
  }

  /** Every targeted cell is empty on the board. */
  predicate TargetsEmpty(board: Grid, tiles: seq<Tile>)
    requires IsGrid(board) && OnBoard(tiles)
  {
    forall k :: 0 <= k < |tiles| ==> board[tiles[k].row][tiles[k].col].None?
  }

  /**
    The per-tile checks, tile by tile against a shrinking copy of the rack: the letter must be
    held, then the cell must be on the board, then it must be empty on the board before the move.
  */
  function TileChecks(board: Grid, rack: seq<char>, tiles: seq<Tile>): (r: Option<Reason>)
    requires IsGrid(board)
    ensures r.None? ==> OnBoard(tiles)
    decreases |tiles|
  {
    if tiles == [] then None
    else
      var t := tiles[0];
      if t.letter !in rack then Some(MissingTile(t.letter))
      else if !InBounds(t.row, t.col) then Some(OutOfBounds)
      else if board[t.row][t.col].Some? then Some(Occupied)
      else
        var rest := TileChecks(board, RemoveFirst(rack, t.letter), tiles[1..]);
        assert rest.None? ==> forall k :: 1 <= k < |tiles| ==> tiles[k] == tiles[1..][k - 1];
        rest
  }

  /**
    The per-tile checks pass exactly when every tile is on the board, every targeted cell is empty
    before the move, and the rack holds each letter at least as often as the move uses it.  Two
    tiles on the same cell are not told apart: both see the board before the move.
  */
  lemma {:induction false} TileChecksPass(board: Grid, rack: seq<char>, tiles: seq<Tile>)
    requires IsGrid(board)
    ensures TileChecks(board, rack, tiles).None? <==>
              OnBoard(tiles) && TargetsEmpty(board, tiles) && multiset(TileLetters(tiles)) <= multiset(rack)
    decreases |tiles|
  {
    if tiles != [] {
      var t := tiles[0];
      TileChecksPass(board, RemoveFirst(rack, t.letter), tiles[1..]);
      FirstTileSplits(board, tiles);
      FirstLetterSplits(rack, tiles);
    }
  }

  /** Being on the board, and targeting empty cells, hold of a move exactly when they hold of its first tile and of the rest. */
  lemma FirstTileSplits(board: Grid, tiles: seq<Tile>)
    requires IsGrid(board) && tiles != []
    ensures OnBoard(tiles) <==> InBounds(tiles[0].row, tiles[0].col) && OnBoard(tiles[1..])
    ensures OnBoard(tiles) ==>
              (TargetsEmpty(board, tiles) <==> board[tiles[0].row][tiles[0].col].None? && TargetsEmpty(board, tiles[1..]))
  {
    forall k | 1 <= k < |tiles| ensures tiles[k] == tiles[1..][k - 1] { }
  }

  /** The rack holds a move's letters exactly when it holds the first, and what is left of it holds the rest. */
  lemma FirstLetterSplits(rack: seq<char>, tiles: seq<Tile>)
    requires tiles != []
    ensures multiset(TileLetters(tiles)) <= multiset(rack) <==>
              tiles[0].letter in rack && multiset(TileLetters(tiles[1..])) <= multiset(RemoveFirst(rack, tiles[0].letter))
  {
    var t := tiles[0];
    assert TileLetters(tiles) == [t.letter] + TileLetters(tiles[1..]);
    assert multiset(TileLetters(tiles)) == multiset{t.letter} + multiset(TileLetters(tiles[1..]));
    if t.letter !in rack {
      assert multiset(TileLetters(tiles))[t.letter] > 0 == multiset(rack)[t.letter];
    }
  }

  /**
    Two tiles on the same empty cell pass the per-tile checks when the rack holds both letters:
    each tile is checked against the board before the move, not against the tiles before it.
  */
  lemma DuplicateCellPasses(board: Grid, rack: seq<char>, t: Tile, u: Tile)
    requires IsGrid(board) && InBounds(t.row, t.col) && board[t.row][t.col].None?
    requires u.row == t.row && u.col == t.col && multiset{t.letter, u.letter} <= multiset(rack)
    ensures TileChecks(board, rack, [t, u]) == None
  {
    TileChecksPass(board, rack, [t, u]);
    assert TileLetters([t, u]) == [t.letter, u.letter];
  }

  /** The move lands on the centre cell (7, 7). */
  predicate CoversCenter(tiles: seq<Tile>)
  {
    exists k :: 0 <= k < |tiles| && tiles[k].row == CenterRow && tiles[k].col == CenterCol
  }

  predicate OccupiedAt(board: Grid, row: int, col: int)
    requires IsGrid(board)
  {
    InBounds(row, col) && board[row][col].Some?
  }

  /** Some 4-neighbour of the tile is on the board and occupied. */
  predicate TouchesTile(board: Grid, t: Tile)
    requires IsGrid(board)
  {
    || OccupiedAt(board, t.row - 1, t.col)
    || OccupiedAt(board, t.row + 1, t.col)
    || OccupiedAt(board, t.row, t.col - 1)
    || OccupiedAt(board, t.row, t.col + 1)
  }

  /** First move: cover the centre.  Later moves: touch a tile already on the board. */
  predicate Connected(board: Grid, tiles: seq<Tile>, firstMove: bool)
    requires IsGrid(board)
  {
    if firstMove then CoversCenter(tiles)
    else exists k :: 0 <= k < |tiles| && TouchesTile(board, tiles[k])
  }

  /** ASCII upper-casing of one character. */
  function Upper(c: char): char
  {
    if 'a' <= c <= 'z' then (c as int - 32) as char else c
  }

  function UpperWord(w: seq<char>): (u: seq<char>)
    ensures |u| == |w| && forall i :: 0 <= i < |w| ==> u[i] == Upper(w[i])
  {
    seq(|w|, i requires 0 <= i < |w| => Upper(w[i]))
  }

  /** The first word, in order, whose upper-cased form the dictionary lacks. */
  function FirstUnknown(words: seq<seq<char>>, dict: set<seq<char>>): (r: Option<seq<char>>)
    ensures r.None? <==> forall k :: 0 <= k < |words| ==> UpperWord(words[k]) in dict
    ensures r.Some? ==> r.value in words && UpperWord(r.value) !in dict
    decreases |words|
  {
    if words == [] then None
    else if UpperWord(words[0]) !in dict then Some(words[0])
    else
      assert forall k :: 1 <= k < |words| ==> words[k] == words[1..][k - 1];
      FirstUnknown(words[1..], dict)
  }

  /** ValidateMove's verdict, check by check in the source's order. */
  function Validate(s: State, m: Move, dict: set<seq<char>>): Verdict
    requires m.player == s.current && |m.tiles| > 0 ==> IsGrid(s.board) && s.current in s.racks
  {
    if m.player != s.current then Rejected(NotYourTurn)
    else if |m.tiles| == 0 then Rejected(NoTiles)
    else match TileChecks(s.board, s.racks[m.player], m.tiles)
      case Some(reason) => Rejected(reason)
      case None =>
        if !AllSameRow(m.tiles) && !AllSameCol(m.tiles) then Rejected(NotStraight)
        else if !Connected(s.board, m.tiles, s.firstMove) then
          Rejected(if s.firstMove then MissesCenter else Disconnected)
        else
          var words := WordsFormed(Place(s.board, m.tiles), m.tiles);
          if |words| == 0 then Rejected(NoWords)
          else match FirstUnknown(words, dict)
            case Some(w) => Rejected(UnknownWord(w))
            case None => Accepted
  }

  /**
    A move is accepted exactly when it is the current player's, places at least one tile, every
    tile is on the board on a cell empty before the move, the rack holds the letters used, the tiles
    lie on one row or one column, the move is connected (covers (7, 7) on the first move, touches an
    occupied cell otherwise), it forms at least one word, and every word formed, upper-cased, is in
    the dictionary.
  */
  lemma ValidateAccepts(s: State, m: Move, dict: set<seq<char>>)
    requires m.player == s.current && |m.tiles| > 0 ==> IsGrid(s.board) && s.current in s.racks
    ensures Validate(s, m, dict) == Accepted <==>
      && m.player == s.current
      && |m.tiles| > 0
      && OnBoard(m.tiles)
      && TargetsEmpty(s.board, m.tiles)
      && multiset(TileLetters(m.tiles)) <= multiset(s.racks[m.player])
      && (AllSameRow(m.tiles) || AllSameCol(m.tiles))
      && Connected(s.board, m.tiles, s.firstMove)
      && |WordsFormed(Place(s.board, m.tiles), m.tiles)| > 0
      && forall w :: w in WordsFormed(Place(s.board, m.tiles), m.tiles) ==> UpperWord(w) in dict
  {
    if m.player == s.current && |m.tiles| > 0 {
      TileChecksPass(s.board, s.racks[m.player], m.tiles);
    }
  }

  /**
    The order of the checks: the turn is checked first, then that tiles were placed, and on a
    first move that passes the tile and line checks, missing the centre is the reason given.
  */
  lemma ValidateCheckOrder(s: State, m: Move, dict: set<seq<char>>)
    requires m.player == s.current && |m.tiles| > 0 ==> IsGrid(s.board) && s.current in s.racks
    ensures m.player != s.current ==> Validate(s, m, dict) == Rejected(NotYourTurn)
    ensures m.player == s.current && m.tiles == [] ==> Validate(s, m, dict) == Rejected(NoTiles)
    ensures m.player == s.current && |m.tiles| > 0 && s.firstMove &&
            TileChecks(s.board, s.racks[m.player], m.tiles).None? &&
            (AllSameRow(m.tiles) || AllSameCol(m.tiles)) && !CoversCenter(m.tiles) ==>
              Validate(s, m, dict) == Rejected(MissesCenter)
  {
  }

  /** IsConnected: the centre test on a first move, else a scan of every tile's four neighbours. */
  method IsConnected(board: Grid, tiles: seq<Tile>, firstMove: bool) returns (connected: bool)
    requires IsGrid(board)
    ensures connected == Connected(board, tiles, firstMove)
  {
    if firstMove {
      return CoversCenter(tiles);
    }
    var deltas := [(-1, 0), (1, 0), (0, -1), (0, 1)];
    for k := 0 to |tiles|
      invariant forall i :: 0 <= i < k ==> !TouchesTile(board, tiles[i])
    {
      var t := tiles[k];
      for d := 0 to 4
        invariant forall e :: 0 <= e < d ==> !OccupiedAt(board, t.row + deltas[e].0, t.col + deltas[e].1)
      {
        var nr, nc := t.row + deltas[d].0, t.col + deltas[d].1;
        if 0 <= nr < BoardSize && 0 <= nc < BoardSize && board[nr][nc].Some? {
          assert OccupiedAt(board, nr, nc);
          return true;
        }
      }
      assert !OccupiedAt(board, t.row + deltas[0].0, t.col + deltas[0].1);
      assert !OccupiedAt(board, t.row + deltas[1].0, t.col + deltas[1].1);
      assert !OccupiedAt(board, t.row + deltas[2].0, t.col + deltas[2].1);
      assert !OccupiedAt(board, t.row + deltas[3].0, t.col + deltas[3].1);
    }
    return false;
  }

  /** Writes the move's tiles onto a copy of the board, one by one. */
  method Simulate(board: Grid, tiles: seq<Tile>) returns (temp: Grid)
    requires IsGrid(board) && OnBoard(tiles)
    ensures temp == Place(board, tiles)
  {
    temp := board;
    for k := 0 to |tiles|
      invariant OnBoard(tiles[..k]) && temp == Place(board, tiles[..k])
    {
      PrefixOnBoard(tiles, k + 1);
      assert tiles[..k + 1][..k] == tiles[..k];
      temp := SetCell(temp, tiles[k].row, tiles[k].col, Some(tiles[k].letter));
    }
    assert tiles[..|tiles|] == tiles;
  }

  /** The per-tile loop of ValidateMove, on a copy of the rack that loses one letter per tile. */
  method CheckTiles(board: Grid, rack: seq<char>, tiles: seq<Tile>) returns (problem: Option<Reason>)
    requires IsGrid(board)
    ensures problem == TileChecks(board, rack, tiles)
  {
    var left := rack;
    for k := 0 to |tiles|
      invariant TileChecks(board, rack, tiles) == TileChecks(board, left, tiles[k..])
    {
      var t := tiles[k];
      assert tiles[k..][1..] == tiles[k + 1..];
      if t.letter !in left {
        return Some(MissingTile(t.letter));
      }
      left := RemoveFirst(left, t.letter);
      if !InBounds(t.row, t.col) {
        return Some(OutOfBounds);
      }
      if board[t.row][t.col].Some? {
        return Some(Occupied);
      }
    }
    return None;
  }

  /** The dictionary loop of ValidateMove: the first word whose upper-cased form is unknown. */
  method LookUp(words: seq<seq<char>>, dict: set<seq<char>>) returns (unknown: Option<seq<char>>)
    ensures unknown == FirstUnknown(words, dict)
  {
    for k := 0 to |words|
      invariant FirstUnknown(words, dict) == FirstUnknown(words[k..], dict)
    {
      assert words[k..][1..] == words[k + 1..];
      if UpperWord(words[k]) !in dict {
        return Some(words[k]);
      }
    }
    return None;
  }

  /**
    ValidateMove: the checks in order, working on a copy of the mover's rack and a copy of the
    board; nothing of the state changes.
  */
  method ValidateMove(s: State, m: Move, dict: set<seq<char>>) returns (verdict: Verdict)
    requires m.player == s.current && |m.tiles| > 0 ==> IsGrid(s.board) && s.current in s.racks
    ensures verdict == Validate(s, m, dict)
  {
    if m.player != s.current {
      return Rejected(NotYourTurn);
    }
    if |m.tiles| == 0 {
      return Rejected(NoTiles);
    }
    var problem := CheckTiles(s.board, s.racks[m.player], m.tiles);
    if problem.Some? {
      return Rejected(problem.value);
    }
    if !AllSameRow(m.tiles) && !AllSameCol(m.tiles) {
      return Rejected(NotStraight);
    }
    var connected := IsConnected(s.board, m.tiles, s.firstMove);
    if !connected {
      return Rejected(if s.firstMove then MissesCenter else Disconnected);
    }
    var temp := Simulate(s.board, m.tiles);
    var words := FindWords(temp, m.tiles);
    if |words| == 0 {
      return Rejected(NoWords);
    }
    var unknown := LookUp(words, dict);
    if unknown.Some? {
      return Rejected(UnknownWord(unknown.value));
    }
    return Accepted;
  }

  // ---------------------------------------------------------------- application

  /** LINQ's Where(x => x != l): every copy of l goes. */
  function Without(rack: seq<char>, l: char): seq<char>
    decreases |rack|
  {
    if rack == [] then [] else (if rack[0] != l then [rack[0]] else []) + Without(rack[1..], l)
  }

  /** The rack after stripping the letter of each placed tile in turn. */
  function Strip(rack: seq<char>, tiles: seq<Tile>): seq<char>
    decreases |tiles|
  {
    if tiles == [] then rack else Without(Strip(rack, tiles[..|tiles| - 1]), tiles[|tiles| - 1].letter)
  }

  /** The rack's letters outside `gone`, in rack order. */
  function Keep(rack: seq<char>, gone: set<char>): seq<char>
    decreases |rack|
  {
    if rack == [] then [] else (if rack[0] !in gone then [rack[0]] else []) + Keep(rack[1..], gone)
  }

  lemma {:induction false} WithoutKeep(rack: seq<char>, gone: set<char>, l: char)
    ensures Without(Keep(rack, gone), l) == Keep(rack, gone + {l})
    decreases |rack|
  {
    if rack != [] {
      WithoutKeep(rack[1..], gone, l);
      var head := if rack[0] !in gone then [rack[0]] else [];
      assert Keep(rack, gone) == head + Keep(rack[1..], gone);
      WithoutConcat(head, Keep(rack[1..], gone), l);
    }
  }

  lemma {:induction false} WithoutConcat(a: seq<char>, b: seq<char>, l: char)
    ensures Without(a + b, l) == Without(a, l) + Without(b, l)
    decreases |a|
  {
    if a == [] {
      assert a + b == b;
    } else {
      assert (a + b)[0] == a[0] && (a + b)[1..] == a[1..] + b;
      WithoutConcat(a[1..], b, l);
      var head := if a[0] != l then [a[0]] else [];
      calc {
        Without(a + b, l);
        head + Without(a[1..] + b, l);
        head + (Without(a[1..], l) + Without(b, l));
        (head + Without(a[1..], l)) + Without(b, l);
      }
    }
  }

  /** The letters the move places, as a set. */
  function PlacedLetters(tiles: seq<Tile>): set<char>
  {
    set k | 0 <= k < |tiles| :: tiles[k].letter
  }

  /** Stripping removes every copy of every placed letter and keeps the other letters in order. */
  lemma {:induction false} StripKeeps(rack: seq<char>, tiles: seq<Tile>)
    ensures Strip(rack, tiles) == Keep(rack, PlacedLetters(tiles))
    decreases |tiles|
  {
    if tiles == [] {
      assert PlacedLetters(tiles) == {};
      KeepNothing(rack);
    } else {
      var n := |tiles| - 1;
      StripKeeps(rack, tiles[..n]);
      WithoutKeep(rack, PlacedLetters(tiles[..n]), tiles[n].letter);
      assert PlacedLetters(tiles) == PlacedLetters(tiles[..n]) + {tiles[n].letter} by {
        forall x ensures x in PlacedLetters(tiles) <==> x in PlacedLetters(tiles[..n]) || x == tiles[n].letter {
          if x in PlacedLetters(tiles) {
            var k :| 0 <= k < |tiles| && tiles[k].letter == x;
            if k < n { assert tiles[..n][k] == tiles[k]; }
          }
          if x in PlacedLetters(tiles[..n]) {
            var k :| 0 <= k < n && tiles[..n][k].letter == x;
            assert tiles[k] == tiles[..n][k];
          }
        }
      }
    }
  }

  lemma {:induction false} KeepNothing(rack: seq<char>)
    ensures Keep(rack, {}) == rack
    decreases |rack|
  {
    if rack != [] {
      KeepNothing(rack[1..]);
      assert rack == [rack[0]] + rack[1..];
    }
  }

  /** Keep drops every copy of the letters in `gone` and no copy of any other letter. */
  lemma {:induction false} KeepCounts(rack: seq<char>, gone: set<char>)
    ensures forall x :: multiset(Keep(rack, gone))[x] == if x in gone then 0 else multiset(rack)[x]
    decreases |rack|
  {
    if rack != [] {
      KeepCounts(rack[1..], gone);
      assert rack == [rack[0]] + rack[1..];
      var head := if rack[0] !in gone then [rack[0]] else [];
      assert multiset(Keep(rack, gone)) == multiset(head) + multiset(Keep(rack[1..], gone));
    }
  }

  /** Take/Skip of the bag: the rack gains the first 7 - |rack| bag tiles (none when it is full). */
  function DrawCount(rack: seq<char>, bag: seq<char>): (n: int)
    ensures 0 <= n <= |bag|
  {
    var needed := RackCapacity - |rack|;
    if needed <= 0 then 0 else if needed >= |bag| then |bag| else needed
  }

  /** Points of one letter (TileScores); 0 for a character outside A-Z. */
  function TileScore(c: char): nat
  {
    match c
    case 'A' => 1 case 'B' => 3 case 'C' => 3 case 'D' => 2 case 'E' => 1 case 'F' => 4
    case 'G' => 2 case 'H' => 4 case 'I' => 1 case 'J' => 8 case 'K' => 5 case 'L' => 1
    case 'M' => 3 case 'N' => 1 case 'O' => 1 case 'P' => 3 case 'Q' => 10 case 'R' => 1
    case 'S' => 1 case 'T' => 1 case 'U' => 1 case 'V' => 4 case 'W' => 4 case 'X' => 8
    case 'Y' => 4 case 'Z' => 10
    case _ => 0
  }

  /** The letter values of the upper-cased word, summed. */
  function WordScore(w: seq<char>): nat
    decreases |w|
  {
    if w == [] then 0 else WordScore(w[..|w| - 1]) + TileScore(Upper(w[|w| - 1]))
  }

  function MoveScore(words: seq<seq<char>>): nat
    decreases |words|
  {
    if words == [] then 0 else MoveScore(words[..|words| - 1]) + WordScore(words[|words| - 1])
  }

  /** List.IndexOf: the first position of p in the order, or -1. */
  function IndexOf(order: seq<string>, p: string): (i: int)
    ensures -1 <= i < |order|
    ensures 0 <= i ==> order[i] == p && forall j :: 0 <= j < i ==> order[j] != p
    ensures i == -1 <==> p !in order
    decreases |order|
  {
    if order == [] then -1
    else if order[0] == p then 0
    else
      var j := IndexOf(order[1..], p);
      assert order == [order[0]] + order[1..];
      if j == -1 then -1 else j + 1
  }

  /** The player after `current` in the cyclic order (the first player when `current` is absent). */
  function NextPlayer(order: seq<string>, current: string): string
    requires |order| > 0
  {
    order[(IndexOf(order, current) + 1) % |order|]
  }

  /** Adds delta to the player's score, a missing score counting as 0. */
  function Credit(scores: map<string, int>, player: string, delta: int): (r: map<string, int>)
    ensures r.Keys == scores.Keys + {player}
    ensures r[player] == (if player in scores then scores[player] else 0) + delta
    ensures forall p :: p in scores && p != player ==> r[p] == scores[p]
  {
    scores[player := (if player in scores then scores[player] else 0) + delta]
  }

  /** The operations' preconditions on the move: ApplyMove itself checks nothing. */
  predicate Applicable(s: State, m: Move)
  {
    IsGrid(s.board) && |s.order| > 0 && m.player in s.racks && |m.tiles| > 0 && OnBoard(m.tiles)
  }

  /** The state ApplyMove produces. */
  function Applied(s: State, m: Move): State
    requires Applicable(s, m)
  {
    var board := Place(s.board, m.tiles);
    var stripped := Strip(s.racks[m.player], m.tiles);
    var delta := MoveScore(WordsFormed(board, m.tiles));
    var n := DrawCount(stripped, s.bag);
    State(board,
          s.racks[m.player := stripped + s.bag[..n]],
          Credit(s.scores, m.player, delta),
          s.bag[n..],
          NextPlayer(s.order, s.current),
          s.order,
          false)
  }

  /** The placing loop of ApplyMove: each tile is written and its letter filtered out of the rack. */
  method PlaceTiles(board: Grid, rack: seq<char>, tiles: seq<Tile>) returns (placed: Grid, left: seq<char>)
    requires IsGrid(board) && OnBoard(tiles)
    ensures placed == Place(board, tiles) && left == Strip(rack, tiles)
  {
    placed, left := board, rack;
    for k := 0 to |tiles|
      invariant OnBoard(tiles[..k]) && placed == Place(board, tiles[..k]) && left == Strip(rack, tiles[..k])
    {
      PrefixOnBoard(tiles, k + 1);
      assert tiles[..k + 1][..k] == tiles[..k];
      placed := SetCell(placed, tiles[k].row, tiles[k].col, Some(tiles[k].letter));
      left := Without(left, tiles[k].letter);
    }
    assert tiles[..|tiles|] == tiles;
  }

  /** The scoring loop of ApplyMove. */
  method ScoreWords(words: seq<seq<char>>) returns (score: int)
    ensures score == MoveScore(words)
  {
    score := 0;
    for k := 0 to |words|
      invariant score == MoveScore(words[..k])
    {
      assert words[..k + 1][..k] == words[..k];
      score := score + WordScore(words[k]);
    }
    assert words[..|words|] == words;
  }

  /**
    ApplyMove: writes the tiles and strips the rack tile by tile, scores the words formed, draws
    from the front of the bag, and passes the turn on.
  */
  method ApplyMove(s: State, m: Move) returns (next: State)
    requires Applicable(s, m)
    ensures next == Applied(s, m)
  {
    var board, stripped := PlaceTiles(s.board, s.racks[m.player], m.tiles);
    var words := FindWords(board, m.tiles);
    var score := ScoreWords(words);
    var scores := Credit(s.scores, m.player, score);
    var n := DrawCount(stripped, s.bag);
    var racks := s.racks[m.player := stripped + s.bag[..n]];
    var bag := s.bag[n..];
    var idx := IndexOf(s.order, s.current);
    assert racks == s.racks[m.player := Strip(s.racks[m.player], m.tiles) + s.bag[..n]];
    next := State(board, racks, scores, bag, s.order[(idx + 1) % |s.order|], s.order, false);
  }

  /** CalculateScore: the stored score, or 0 for a player without one. */
  function CalculateScore(s: State, player: string): int
  {
    if player in s.scores then s.scores[player] else 0
  }

  // ---------------------------------------------------------------- properties of ApplyMove

  /**
    The board after a move differs from the board before only on the targeted cells, each of
    which holds the letter of the last tile placed on it.
  */
  lemma ApplyBoard(s: State, m: Move)
    requires Applicable(s, m)
    ensures forall i, j :: InBounds(i, j) && Untouched(m.tiles, i, j) ==> Applied(s, m).board[i][j] == s.board[i][j]
    ensures forall k :: 0 <= k < |m.tiles| ==> Applied(s, m).board[m.tiles[k].row][m.tiles[k].col].Some?
  {
    var b: Grid := Applied(s, m).board;
    PlaceEffect(s.board, m.tiles);
    forall k | 0 <= k < |m.tiles| ensures b[m.tiles[k].row][m.tiles[k].col].Some? {
      LastOnCell(m.tiles, k);
    }
  }

  /** An accepted move never overwrites an occupied cell. */
  lemma AcceptedKeepsOccupied(s: State, m: Move, dict: set<seq<char>>)
    requires Applicable(s, m) && Validate(s, m, dict) == Accepted
    ensures forall i, j :: InBounds(i, j) && s.board[i][j].Some? ==> Applied(s, m).board[i][j] == s.board[i][j]
  {
    ValidateAccepts(s, m, dict);
    OccupiedUntouched(s.board, m.tiles);
    ApplyBoard(s, m);
  }

  /** Tiles that all target empty cells leave every occupied cell alone. */
  lemma OccupiedUntouched(board: Grid, tiles: seq<Tile>)
    requires IsGrid(board) && OnBoard(tiles) && TargetsEmpty(board, tiles)
    ensures forall i, j :: InBounds(i, j) && board[i][j].Some? ==> Untouched(tiles, i, j)
  {
  }

  /** Some tile at or after position k targets the same cell as tile k, and none after it does. */
  lemma LastOnCell(tiles: seq<Tile>, k: int)
    requires 0 <= k < |tiles|
    ensures exists j :: k <= j < |tiles| && (tiles[j].row, tiles[j].col) == (tiles[k].row, tiles[k].col) &&
                        Untouched(tiles[j + 1..], tiles[k].row, tiles[k].col)
    decreases |tiles| - k
  {
    var later := tiles[k + 1..];
    if !Untouched(later, tiles[k].row, tiles[k].col) {
      var m :| 0 <= m < |later| && (later[m].row, later[m].col) == (tiles[k].row, tiles[k].col);
      assert later[m] == tiles[k + 1 + m];
      LastOnCell(tiles, k + 1 + m);
    }
  }

  /**
    The mover's rack loses every copy of each placed letter (not one copy per tile; see KeepCounts),
    keeps its other letters in order, then gains the first tiles of the bag up to 7; the new rack followed by the new
    bag is the stripped rack followed by the old bag, so no tile is lost or created by the draw.
    Other racks do not change.
  */
  lemma ApplyRackAndBag(s: State, m: Move)
    requires Applicable(s, m)
    ensures var kept := Keep(s.racks[m.player], PlacedLetters(m.tiles));
            && Applied(s, m).racks[m.player] + Applied(s, m).bag == kept + s.bag
            && Applied(s, m).racks[m.player][..|kept|] == kept
            && (|kept| <= RackCapacity ==>
                  |Applied(s, m).racks[m.player]| == if |kept| + |s.bag| <= RackCapacity then |kept| + |s.bag| else RackCapacity)
    ensures Applied(s, m).racks.Keys == s.racks.Keys
    ensures forall p :: p in s.racks && p != m.player ==> Applied(s, m).racks[p] == s.racks[p]
  {
    var kept := Keep(s.racks[m.player], PlacedLetters(m.tiles));
    StripKeeps(s.racks[m.player], m.tiles);
    DrawConserves(kept, s.bag);
    AppliedRackAndBag(s, m);
  }

  /** The racks and the bag ApplyMove leaves: the mover's stripped rack refilled from the front of the bag. */
  lemma AppliedRackAndBag(s: State, m: Move)
    requires Applicable(s, m)
    ensures var stripped := Strip(s.racks[m.player], m.tiles);
            var n := DrawCount(stripped, s.bag);
            Applied(s, m).racks == s.racks[m.player := stripped + s.bag[..n]] && Applied(s, m).bag == s.bag[n..]
  {
  }

  /** Drawing moves tiles from the front of the bag to the end of the rack, up to 7, losing none. */
  lemma DrawConserves(rack: seq<char>, bag: seq<char>)
    ensures var n := DrawCount(rack, bag);
            && (rack + bag[..n]) + bag[n..] == rack + bag
            && (rack + bag[..n])[..|rack|] == rack
            && (|rack| <= RackCapacity ==>
                  |rack + bag[..n]| == if |rack| + |bag| <= RackCapacity then |rack| + |bag| else RackCapacity)
  {
    var n := DrawCount(rack, bag);
    assert bag == bag[..n] + bag[n..];
    assert (rack + bag[..n])[..|rack|] == rack;
  }

  /**
    The mover's score grows by the letter values of the words formed (starting from 0 when the
    mover had no score) and never falls; every other player's score is unchanged.
  */
  lemma ApplyScore(s: State, m: Move)
    requires Applicable(s, m)
    ensures CalculateScore(Applied(s, m), m.player) ==
              CalculateScore(s, m.player) + MoveScore(WordsFormed(Place(s.board, m.tiles), m.tiles))
    ensures CalculateScore(Applied(s, m), m.player) >= CalculateScore(s, m.player)
    ensures forall p :: p != m.player ==> CalculateScore(Applied(s, m), p) == CalculateScore(s, p)
  {
  }

  /**
    The player after `current` is in the order; it is the entry following the first occurrence of
    `current`, cyclically, and the first entry when `current` is not in the order.
  */
  lemma NextPlayerFollows(order: seq<string>, current: string)
    requires |order| > 0
    ensures NextPlayer(order, current) in order
    ensures forall i :: 0 <= i < |order| && order[i] == current && current !in order[..i] ==>
              NextPlayer(order, current) == order[(i + 1) % |order|]
    ensures current !in order ==> NextPlayer(order, current) == order[0]
  {
    forall i | 0 <= i < |order| && order[i] == current && current !in order[..i]
      ensures NextPlayer(order, current) == order[(i + 1) % |order|]
    {
      var j := IndexOf(order, current);
      assert j == i;
    }
  }

  /**
    After a move the turn belongs to the player after the current one in the order, the order is
    unchanged and the first-move flag is cleared.
  */
  lemma ApplyTurn(s: State, m: Move)
    requires Applicable(s, m)
    ensures Applied(s, m).current in s.order
    ensures forall i :: 0 <= i < |s.order| && s.order[i] == s.current && s.current !in s.order[..i] ==>
              Applied(s, m).current == s.order[(i + 1) % |s.order|]
    ensures s.current !in s.order ==> Applied(s, m).current == s.order[0]
    ensures Applied(s, m).order == s.order && !Applied(s, m).firstMove
  {
    NextPlayerFollows(s.order, s.current);
  }

  /** ApplyMove keeps a well-formed state well-formed. */
  lemma ApplyWellFormed(s: State, m: Move)
    requires WellFormed(s) && Applicable(s, m)
    ensures WellFormed(Applied(s, m))
  {
    ApplyTurn(s, m);
    ApplyRackAndBag(s, m);
  }
}
