/**
  The board of the word-placement rule (ScrabbleRule) and the extraction of the words a move forms.
  A cell is empty (`None`) or holds one letter.  The rule's board is 15 by 15 with its centre at (7, 7).
*/
module ScrabbleWords {
  import opened Util

  const BoardSize: int := 15
  const CenterRow: int := 7
  const CenterCol: int := 7

  type Cell = Option<char>
  type Grid = seq<seq<Cell>>

  /** One placed tile: target row, target column and the letter put there. */
  datatype Tile = Tile(row: int, col: int, letter: char)

  predicate IsGrid(g: Grid)
  {
    |g| == BoardSize && forall r :: 0 <= r < |g| ==> |g[r]| == BoardSize
  }

  predicate InBounds(row: int, col: int)
  {
    0 <= row < BoardSize && 0 <= col < BoardSize
  }

  /** Every tile of the move targets a cell of the board. */
  predicate OnBoard(tiles: seq<Tile>)
  {
    forall k :: 0 <= k < |tiles| ==> InBounds(tiles[k].row, tiles[k].col)
  }

  /** All tiles share the first tile's row (true of an empty move, as LINQ's All is). */
  predicate AllSameRow(tiles: seq<Tile>)
  {
    forall k :: 0 <= k < |tiles| ==> tiles[k].row == tiles[0].row
  }

  predicate AllSameCol(tiles: seq<Tile>)
  {
    forall k :: 0 <= k < |tiles| ==> tiles[k].col == tiles[0].col
  }

  /** A prefix of a move on the board is on the board. */
  lemma PrefixOnBoard(tiles: seq<Tile>, n: int)
    requires OnBoard(tiles) && 0 <= n <= |tiles|
    ensures OnBoard(tiles[..n])
  {
    forall k | 0 <= k < n ensures InBounds(tiles[..n][k].row, tiles[..n][k].col) {
      assert tiles[..n][k] == tiles[k];
    }
  }

  /** Writes one cell. */
  function SetCell(g: Grid, row: int, col: int, c: Cell): (r: Grid)
    requires IsGrid(g) && InBounds(row, col)
    ensures IsGrid(r)
    ensures r[row][col] == c
    ensures forall i, j :: InBounds(i, j) && (i, j) != (row, col) ==> r[i][j] == g[i][j]
  {
    g[row := g[row][col := c]]
  }

  /** The board after writing every tile in order (a later tile on the same cell wins). */
  function Place(g: Grid, tiles: seq<Tile>): (r: Grid)
    requires IsGrid(g) && OnBoard(tiles)
    ensures IsGrid(r)
    decreases |tiles|
  {
    if tiles == [] then g
    else
      var t := tiles[|tiles| - 1];
      SetCell(Place(g, tiles[..|tiles| - 1]), t.row, t.col, Some(t.letter))
  }

  /** No tile of the move targets (row, col). */
  predicate Untouched(tiles: seq<Tile>, row: int, col: int)
  {
    forall k :: 0 <= k < |tiles| ==> (tiles[k].row, tiles[k].col) != (row, col)
  }

  /**
    Placing tiles changes exactly the targeted cells: a cell no tile targets keeps its content, and a
    targeted cell holds the letter of the last tile placed on it.
  */
  lemma {:induction false} PlaceEffect(g: Grid, tiles: seq<Tile>)
    requires IsGrid(g) && OnBoard(tiles)
    ensures forall i, j :: InBounds(i, j) && Untouched(tiles, i, j) ==> Place(g, tiles)[i][j] == g[i][j]
    ensures forall k :: 0 <= k < |tiles| && Untouched(tiles[k + 1..], tiles[k].row, tiles[k].col) ==>
              Place(g, tiles)[tiles[k].row][tiles[k].col] == Some(tiles[k].letter)
    decreases |tiles|
  {
    if tiles != [] {
      var n := |tiles| - 1;
      var init := tiles[..n];
      assert OnBoard(init) by {
        forall k | 0 <= k < |init| ensures InBounds(init[k].row, init[k].col) {
          assert init[k] == tiles[k];
        }
      }
      PlaceEffect(g, init);
      forall i, j | InBounds(i, j) && Untouched(tiles, i, j)
        ensures Place(g, tiles)[i][j] == g[i][j]
      {
        assert (tiles[n].row, tiles[n].col) != (i, j);
        assert Untouched(init, i, j) by {
          forall k | 0 <= k < |init| ensures (init[k].row, init[k].col) != (i, j) {
            assert init[k] == tiles[k];
          }
        }
      }
      forall k | 0 <= k < |tiles| && Untouched(tiles[k + 1..], tiles[k].row, tiles[k].col)
        ensures Place(g, tiles)[tiles[k].row][tiles[k].col] == Some(tiles[k].letter)
      {
        if k < n {
          assert tiles[k + 1..][n - k - 1] == tiles[n];
          assert (tiles[n].row, tiles[n].col) != (tiles[k].row, tiles[k].col);
          assert init[k] == tiles[k];
          var later := init[k + 1..];
          assert Untouched(later, tiles[k].row, tiles[k].col) by {
            forall m | 0 <= m < |later| ensures (later[m].row, later[m].col) != (tiles[k].row, tiles[k].col) {
              assert later[m] == tiles[k + 1..][m];
            }
          }
        }
      }
    }
  }

  /** The row `fixed` (alongRow) or the column `fixed` (otherwise) as a line of cells. */
  function Line(g: Grid, alongRow: bool, fixed: int): (line: seq<Cell>)
    requires IsGrid(g) && 0 <= fixed < BoardSize
    ensures |line| == BoardSize
    ensures forall i :: 0 <= i < BoardSize ==> line[i] == if alongRow then g[fixed][i] else g[i][fixed]
  {
    if alongRow then g[fixed] else seq(BoardSize, i requires 0 <= i < BoardSize => g[i][fixed])
  }

  /** Where the run of occupied cells ending at `i` starts: walk back while the previous cell is occupied. */
  function RunStart(line: seq<Cell>, i: int): (s: int)
    requires 0 <= i < |line|
    ensures 0 <= s <= i
    ensures forall k :: s <= k < i ==> line[k].Some?
    ensures s == 0 || line[s - 1].None?
    decreases i
  {
    if i > 0 && line[i - 1].Some? then RunStart(line, i - 1) else i
  }

  /** Where the run of occupied cells starting at `i` ends: walk on while the next cell is occupied. */
  function RunEnd(line: seq<Cell>, i: int): (e: int)
    requires 0 <= i < |line|
    ensures i <= e < |line|
    ensures forall k :: i < k <= e ==> line[k].Some?
    ensures e == |line| - 1 || line[e + 1].None?
    decreases |line| - i
  {
    if i < |line| - 1 && line[i + 1].Some? then RunEnd(line, i + 1) else i
  }

  /** The letters of line[lo..hi] in order; an empty cell contributes nothing (C#: `word += null`). */
  function Letters(line: seq<Cell>, lo: int, hi: int): seq<char>
    requires 0 <= lo && hi <= |line|
    decreases hi - lo
  {
    if hi <= lo then []
    else Letters(line, lo, hi - 1) + (if line[hi - 1].Some? then [line[hi - 1].value] else [])
  }

  /** Over a run of occupied cells, Letters spells exactly those cells. */
  lemma {:induction false} LettersOfRun(line: seq<Cell>, lo: int, hi: int)
    requires 0 <= lo <= hi <= |line|
    requires forall k :: lo <= k < hi ==> line[k].Some?
    ensures |Letters(line, lo, hi)| == hi - lo
    ensures forall k :: lo <= k < hi ==> Letters(line, lo, hi)[k - lo] == line[k].value
    decreases hi - lo
  {
    if lo < hi {
      LettersOfRun(line, lo, hi - 1);
    }
  }

  /** Letters never yields more letters than cells it reads, so empty cells only shorten a word. */
  lemma {:induction false} LettersLength(line: seq<Cell>, lo: int, hi: int)
    requires 0 <= lo && hi <= |line|
    ensures |Letters(line, lo, hi)| <= if hi <= lo then 0 else hi - lo
    ensures (exists k :: lo <= k < hi && line[k].None?) ==> |Letters(line, lo, hi)| < hi - lo
    decreases hi - lo
  {
    if lo < hi {
      LettersLength(line, lo, hi - 1);
    }
  }

  /** Position of a tile along the play line (its column for a row move, its row otherwise). */
  function Along(t: Tile, isRow: bool): int
  {
    if isRow then t.col else t.row
  }

  /** The smallest position of the move along the play line (LINQ's Min). */
  function MinAlong(tiles: seq<Tile>, isRow: bool): (m: int)
    requires |tiles| > 0
    ensures exists k :: 0 <= k < |tiles| && m == Along(tiles[k], isRow)
    ensures forall k :: 0 <= k < |tiles| ==> m <= Along(tiles[k], isRow)
    decreases |tiles|
  {
    if |tiles| == 1 then Along(tiles[0], isRow)
    else
      var rest := MinAlong(tiles[1..], isRow);
      assert forall k :: 1 <= k < |tiles| ==> tiles[1..][k - 1] == tiles[k];
      if Along(tiles[0], isRow) <= rest then Along(tiles[0], isRow) else rest
  }

  /** The largest position of the move along the play line (LINQ's Max). */
  function MaxAlong(tiles: seq<Tile>, isRow: bool): (m: int)
    requires |tiles| > 0
    ensures exists k :: 0 <= k < |tiles| && m == Along(tiles[k], isRow)
    ensures forall k :: 0 <= k < |tiles| ==> Along(tiles[k], isRow) <= m
    decreases |tiles|
  {
    if |tiles| == 1 then Along(tiles[0], isRow)
    else
      var rest := MaxAlong(tiles[1..], isRow);
      assert forall k :: 1 <= k < |tiles| ==> tiles[1..][k - 1] == tiles[k];
      if Along(tiles[0], isRow) >= rest then Along(tiles[0], isRow) else rest
  }

  /** Every tile position along the line is a board index. */
  lemma AlongInBounds(tiles: seq<Tile>, isRow: bool)
    requires |tiles| > 0 && OnBoard(tiles)
    ensures 0 <= MinAlong(tiles, isRow) < BoardSize && 0 <= MaxAlong(tiles, isRow) < BoardSize
  {
    var a :| 0 <= a < |tiles| && MinAlong(tiles, isRow) == Along(tiles[a], isRow);
    var b :| 0 <= b < |tiles| && MaxAlong(tiles, isRow) == Along(tiles[b], isRow);
    assert InBounds(tiles[a].row, tiles[a].col) && InBounds(tiles[b].row, tiles[b].col);
  }

  /** The line the move lies on: the first tile's row for a row move, its column otherwise. */
  function MainLine(g: Grid, tiles: seq<Tile>, isRow: bool): (line: seq<Cell>)
    requires IsGrid(g) && |tiles| > 0 && OnBoard(tiles)
    ensures |line| == BoardSize
  {
    assert InBounds(tiles[0].row, tiles[0].col);
    Line(g, isRow, if isRow then tiles[0].row else tiles[0].col)
  }

  /** Start of the main word: the occupied run extended back from the smallest placed position. */
  function MainStart(g: Grid, tiles: seq<Tile>, isRow: bool): int
    requires IsGrid(g) && |tiles| > 0 && OnBoard(tiles)
  {
    AlongInBounds(tiles, isRow);
    RunStart(MainLine(g, tiles, isRow), MinAlong(tiles, isRow))
  }

  /** End of the main word: the occupied run extended on from the largest placed position. */
  function MainEnd(g: Grid, tiles: seq<Tile>, isRow: bool): int
    requires IsGrid(g) && |tiles| > 0 && OnBoard(tiles)
  {
    AlongInBounds(tiles, isRow);
    RunEnd(MainLine(g, tiles, isRow), MaxAlong(tiles, isRow))
  }

  /**
    The word along the play line: every letter from the extended start to the extended end.
    Empty cells strictly inside the placed span are skipped, so the tiles need not be contiguous.
  */
  function MainWord(g: Grid, tiles: seq<Tile>, isRow: bool): seq<char>
    requires IsGrid(g) && |tiles| > 0 && OnBoard(tiles)
  {
    AlongInBounds(tiles, isRow);
    Letters(MainLine(g, tiles, isRow), MainStart(g, tiles, isRow), MainEnd(g, tiles, isRow) + 1)
  }

  /** The line crossing the play line at tile t, and the tile's index on it. */
  function CrossLine(g: Grid, t: Tile, isRow: bool): (line: seq<Cell>)
    requires IsGrid(g) && InBounds(t.row, t.col)
    ensures |line| == BoardSize
  {
    Line(g, !isRow, if isRow then t.col else t.row)
  }

  function CrossIndex(t: Tile, isRow: bool): int
  {
    if isRow then t.row else t.col
  }

  /** The perpendicular word through tile t, or the empty word when the run there is a single cell. */
  function CrossWord(g: Grid, t: Tile, isRow: bool): seq<char>
    requires IsGrid(g) && InBounds(t.row, t.col)
  {
    var line := CrossLine(g, t, isRow);
    var s := RunStart(line, CrossIndex(t, isRow));
    var e := RunEnd(line, CrossIndex(t, isRow));
    if e > s then Letters(line, s, e + 1) else []
  }

  /** The perpendicular word through each tile, one entry per tile. */
  function CrossWordList(g: Grid, tiles: seq<Tile>, isRow: bool): (ws: seq<seq<char>>)
    requires IsGrid(g) && OnBoard(tiles)
    ensures |ws| == |tiles|
    ensures forall k :: 0 <= k < |tiles| ==> ws[k] == CrossWord(g, tiles[k], isRow)
  {
    seq(|tiles|, k requires 0 <= k < |tiles| => CrossWord(g, tiles[k], isRow))
  }

  /** The words longer than one letter, in order (the source's `if (w.Length > 1) words.Add(w)`). */
  function LongOnes(ws: seq<seq<char>>): seq<seq<char>>
    decreases |ws|
  {
    if ws == [] then []
    else LongOnes(ws[..|ws| - 1]) + (if |ws[|ws| - 1]| > 1 then [ws[|ws| - 1]] else [])
  }

  lemma {:induction false} LongOnesMembers(ws: seq<seq<char>>)
    ensures forall w :: w in LongOnes(ws) <==> w in ws && |w| > 1
    decreases |ws|
  {
    if ws != [] {
      LongOnesMembers(ws[..|ws| - 1]);
      assert forall w :: w in ws <==> w in ws[..|ws| - 1] || w == ws[|ws| - 1];
    }
  }

  /** The perpendicular words longer than one letter, tile by tile. */
  function CrossWords(g: Grid, tiles: seq<Tile>, isRow: bool): seq<seq<char>>
    requires IsGrid(g) && OnBoard(tiles)
  {
    LongOnes(CrossWordList(g, tiles, isRow))
  }

  /** Removes later repetitions, keeping first occurrences in order (LINQ's Distinct). */
  function Dedup(s: seq<seq<char>>): (r: seq<seq<char>>)
    ensures forall x :: x in r <==> x in s
    ensures Distinct(r)
    decreases |s|
  {
    if s == [] then []
    else
      var d := Dedup(s[..|s| - 1]);
      var x := s[|s| - 1];
      assert forall y :: y in s <==> y in s[..|s| - 1] || y == x;
      if x in d then d else d + [x]
  }

  /** The candidate words: the main word when longer than one letter, then the perpendicular words. */
  function Candidates(g: Grid, tiles: seq<Tile>, isRow: bool): seq<seq<char>>
    requires IsGrid(g) && |tiles| > 0 && OnBoard(tiles)
  {
    var main := MainWord(g, tiles, isRow);
    (if |main| > 1 then [main] else []) + CrossWords(g, tiles, isRow)
  }

  /**
    The words a move forms on board g (which already holds the move's tiles): nothing when the tiles
    lie neither on one row nor on one column, else the candidates without repetitions.  A move on a
    single cell counts as a row move.
  */
  function WordsFormed(g: Grid, tiles: seq<Tile>): seq<seq<char>>
    requires IsGrid(g) && |tiles| > 0 && OnBoard(tiles)
  {
    var isRow := AllSameRow(tiles);
    if !isRow && !AllSameCol(tiles) then [] else Dedup(Candidates(g, tiles, isRow))
  }

  /** w is the perpendicular word, longer than one letter, through one of the tiles. */
  ghost predicate CrossWordOf(g: Grid, tiles: seq<Tile>, isRow: bool, w: seq<char>)
    requires IsGrid(g) && OnBoard(tiles)
  {
    exists k :: 0 <= k < |tiles| && w == CrossWord(g, tiles[k], isRow) && |w| > 1
  }

  /** The perpendicular words found are exactly those through some tile that are longer than one letter. */
  lemma CrossWordsMembers(g: Grid, tiles: seq<Tile>, isRow: bool)
    requires IsGrid(g) && OnBoard(tiles)
    ensures forall w :: w in CrossWords(g, tiles, isRow) <==> CrossWordOf(g, tiles, isRow, w)
  {
    var ws := CrossWordList(g, tiles, isRow);
    LongOnesMembers(ws);
    forall w ensures w in ws <==> exists k :: 0 <= k < |tiles| && w == CrossWord(g, tiles[k], isRow)
    {
      if w in ws {
        var k :| 0 <= k < |ws| && ws[k] == w;
      }
    }
  }

  /**
    What FindWords returns: only words longer than one letter, no word twice, and exactly the main
    word (when longer than one letter) and the perpendicular words through the placed tiles; no word
    at all when the tiles are not on one line.
  */
  lemma WordsFormedMembers(g: Grid, tiles: seq<Tile>)
    requires IsGrid(g) && |tiles| > 0 && OnBoard(tiles)
    ensures Distinct(WordsFormed(g, tiles))
    ensures forall w :: w in WordsFormed(g, tiles) ==> |w| > 1
    ensures !AllSameRow(tiles) && !AllSameCol(tiles) ==> WordsFormed(g, tiles) == []
    ensures AllSameRow(tiles) || AllSameCol(tiles) ==>
              forall w :: w in WordsFormed(g, tiles) <==>
                (w == MainWord(g, tiles, AllSameRow(tiles)) && |w| > 1) || CrossWordOf(g, tiles, AllSameRow(tiles), w)
  {
    var isRow := AllSameRow(tiles);
    if isRow || AllSameCol(tiles) {
      CandidatesMembers(g, tiles, isRow);
      assert WordsFormed(g, tiles) == Dedup(Candidates(g, tiles, isRow));
    }
  }

  /** The candidates are the main word when longer than one letter and the perpendicular words. */
  lemma CandidatesMembers(g: Grid, tiles: seq<Tile>, isRow: bool)
    requires IsGrid(g) && |tiles| > 0 && OnBoard(tiles)
    ensures forall w :: w in Candidates(g, tiles, isRow) <==>
              (w == MainWord(g, tiles, isRow) && |w| > 1) || CrossWordOf(g, tiles, isRow, w)
  {
    var main := MainWord(g, tiles, isRow);
    var crosses := CrossWords(g, tiles, isRow);
    var c := Candidates(g, tiles, isRow);
    assert c == (if |main| > 1 then [main] else []) + crosses;
    CrossWordsMembers(g, tiles, isRow);
    forall w ensures w in c <==> (w == main && |w| > 1) || CrossWordOf(g, tiles, isRow, w) {
      assert w in c <==> (w == main && |main| > 1) || w in crosses;
    }
  }

  /**
    The main word is maximal: the cells just before its start and just after its end are empty or
    off the board, and it starts no later than the first placed tile and ends no earlier than the last.
  */
  lemma MainWordMaximal(g: Grid, tiles: seq<Tile>, isRow: bool)
    requires IsGrid(g) && |tiles| > 0 && OnBoard(tiles)
    ensures 0 <= MainStart(g, tiles, isRow) && MainEnd(g, tiles, isRow) < BoardSize
    ensures forall k :: 0 <= k < |tiles| ==>
              MainStart(g, tiles, isRow) <= Along(tiles[k], isRow) <= MainEnd(g, tiles, isRow)
    ensures MainStart(g, tiles, isRow) == 0 || MainLine(g, tiles, isRow)[MainStart(g, tiles, isRow) - 1].None?
    ensures MainEnd(g, tiles, isRow) == BoardSize - 1 || MainLine(g, tiles, isRow)[MainEnd(g, tiles, isRow) + 1].None?
  {
    AlongInBounds(tiles, isRow);
  }

  /** Extends back from `i` one cell at a time, as the source's while loop does. */
  method ExtendBack(line: seq<Cell>, i: int) returns (start: int)
    requires 0 <= i < |line|
    ensures start == RunStart(line, i)
  {
    start := i;
    while start > 0 && line[start - 1].Some?
      invariant 0 <= start <= i
      invariant RunStart(line, start) == RunStart(line, i)
    {
      start := start - 1;
    }
  }

  /** Extends on from `i` one cell at a time, as the source's while loop does. */
  method ExtendForward(line: seq<Cell>, i: int) returns (end: int)
    requires 0 <= i < |line|
    ensures end == RunEnd(line, i)
  {
    end := i;
    while end < |line| - 1 && line[end + 1].Some?
      invariant i <= end < |line|
      invariant RunEnd(line, end) == RunEnd(line, i)
    {
      end := end + 1;
    }
  }

  /** Concatenates the letters of line[lo..hi], cell by cell. */
  method Spell(line: seq<Cell>, lo: int, hi: int) returns (word: seq<char>)
    requires 0 <= lo <= hi <= |line|
    ensures word == Letters(line, lo, hi)
  {
    word := [];
    for i := lo to hi
      invariant word == Letters(line, lo, i)
    {
      if line[i].Some? {
        word := word + [line[i].value];
      }
    }
  }

  /** The perpendicular word through tile t, found by extending both ways from the tile. */
  method PerpendicularWord(board: Grid, t: Tile, isRow: bool) returns (w: seq<char>)
    requires IsGrid(board) && InBounds(t.row, t.col)
    ensures w == CrossWord(board, t, isRow)
  {
    var cross := CrossLine(board, t, isRow);
    var s := CrossIndex(t, isRow);
    var perpStart := ExtendBack(cross, s);
    var perpEnd := ExtendForward(cross, s);
    w := [];
    if perpEnd > perpStart {
      w := Spell(cross, perpStart, perpEnd + 1);
    }
  }

  /** The perpendicular words longer than one letter, collected tile by tile. */
  method PerpendicularWords(board: Grid, tiles: seq<Tile>, isRow: bool) returns (found: seq<seq<char>>)
    requires IsGrid(board) && OnBoard(tiles)
    ensures found == CrossWords(board, tiles, isRow)
  {
    ghost var all := CrossWordList(board, tiles, isRow);
    found := [];
    for k := 0 to |tiles|
      invariant found == LongOnes(all[..k])
    {
      assert InBounds(tiles[k].row, tiles[k].col);
      var w := PerpendicularWord(board, tiles[k], isRow);
      assert all[..k + 1][..k] == all[..k];
      if |w| > 1 {
        found := found + [w];
      }
    }
    assert all[..|tiles|] == all;
  }

  /** The main word: the run along the play line through the first and last tiles, extended both ways. */
  method PlayLineWord(board: Grid, tiles: seq<Tile>, isRow: bool) returns (word: seq<char>)
    requires IsGrid(board) && |tiles| > 0 && OnBoard(tiles)
    ensures word == MainWord(board, tiles, isRow)
  {
    AlongInBounds(tiles, isRow);
    var line := MainLine(board, tiles, isRow);
    var start := ExtendBack(line, MinAlong(tiles, isRow));
    var end := ExtendForward(line, MaxAlong(tiles, isRow));
    word := Spell(line, start, end + 1);
  }

  /**
    FindWords: the main word along the play line, then the perpendicular word through each tile,
    each kept only when longer than one letter, without repetitions.
  */
  method FindWords(board: Grid, tiles: seq<Tile>) returns (words: seq<seq<char>>)
    requires IsGrid(board) && |tiles| > 0 && OnBoard(tiles)
    ensures words == WordsFormed(board, tiles)
  {
    var isRow := AllSameRow(tiles);
    var isCol := AllSameCol(tiles);
    if !isRow && !isCol {
      return [];
    }
    var word := PlayLineWord(board, tiles, isRow);
    var found: seq<seq<char>> := if |word| > 1 then [word] else [];
    var crosses := PerpendicularWords(board, tiles, isRow);
    found := found + crosses;
    assert found == Candidates(board, tiles, isRow);
    words := Dedup(found);
  }
}
