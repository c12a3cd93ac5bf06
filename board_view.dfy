/**
  A Battleship player's board (PlayerBoard) as a value: the grid of marks (' ' empty, 'S' ship,
  'H' hit, 'M' miss), the cells of each placed ship, the order the ships were placed in (the
  enumeration order of the ship table), and each ship's hit count.  The operations on this value
  are the specification the PlayerBoard class is proved against.
*/
module BoardView {
  import opened Util
  import opened Events

  /** The default ship sizes of a board. */
  const ShipSizes: map<string, int> :=
    map["Carrier" := 5, "Battleship" := 4, "Cruiser" := 3, "Submarine" := 3, "Destroyer" := 2]

  /** The ship types a Battleship game gives every board, in the order of its size table. */
  const ShipTypes: seq<string> := ["Carrier", "Battleship", "Cruiser", "Submarine", "Destroyer"]

  /** The cells of an n by n board. */
  function Square(n: int): (s: set<Pos>)
    ensures forall q :: q in s <==> 0 <= q.0 < n && 0 <= q.1 < n
  {
    set i, j | 0 <= i < n && 0 <= j < n :: (i, j)
  }

  /** The keys of the cells are exactly the cells of an n by n board. */
  ghost predicate Spans(cells: map<Pos, char>, n: int)
  {
    forall q {:trigger q in cells} :: q in cells <==> 0 <= q.0 < n && 0 <= q.1 < n
  }

  /** Every ship type has a size in the size table. */
  predicate KnownTypes(types: seq<string>)
  {
    forall t :: t in types ==> t in ShipSizes
  }

  datatype BoardView = BoardView(
    size: int,
    types: seq<string>,
    cells: map<Pos, char>,
    positions: map<string, seq<Pos>>,
    placed: seq<string>,
    hits: map<string, int>)

  predicate IsMark(c: char)
  {
    c == ' ' || c == 'S' || c == 'H' || c == 'M'
  }

  predicate IsHit(cells: map<Pos, char>, q: Pos)
  {
    q in cells && cells[q] == 'H'
  }

  /** Some placed ship occupies q. */
  predicate Covered(positions: map<string, seq<Pos>>, q: Pos)
  {
    exists t :: t in positions && q in positions[t]
  }

  /** How many of the cells are marked 'H'. */
  function CountHits(ps: seq<Pos>, cells: map<Pos, char>): (n: nat)
    ensures n <= |ps|
    decreases |ps|
  {
    if ps == [] then 0
    else CountHits(ps[..|ps| - 1], cells) + (if IsHit(cells, ps[|ps| - 1]) then 1 else 0)
  }

  /** The grid is square with a mark in every cell, and every ship type has a size. */
  ghost predicate Shaped(v: BoardView)
  {
    && v.size >= 0
    && Spans(v.cells, v.size)
    && KnownTypes(v.types)
    && forall q :: q in v.cells ==> IsMark(v.cells[q])
  }

  /**
    The ship tables agree: the placement order lists each placed ship once, the position and
    hit tables have exactly the placed ships as keys, every placed ship is one of the board's
    types (never ""), and each occupies as many cells as its size.
  */
  ghost predicate Tables(v: BoardView)
  {
    && KnownTypes(v.types)
    && Distinct(v.placed)
    && (forall t :: t in v.placed <==> t in v.positions)
    && (forall t :: t in v.placed <==> t in v.hits)
    && (forall t :: t in v.placed ==> t in v.types)
    && "" !in v.positions
    && forall t :: t in v.positions ==> |v.positions[t]| == ShipSizes[t]
  }

  /** What the specification functions need: a square grid and consistent ship tables. */
  ghost predicate Wf(v: BoardView)
  {
    Shaped(v) && Tables(v)
  }

  /**
    The ships lie on the board, no ship repeats a cell, no two ships share a cell, and a cell is
    marked 'S' or 'H' exactly when a ship occupies it.
  */
  ghost predicate Layout(v: BoardView)
  {
    && (forall t :: t in v.positions ==> Distinct(v.positions[t]))
    && (forall t, q :: t in v.positions && q in v.positions[t] ==> q in v.cells)
    && (forall t, u, q :: t in v.positions && u in v.positions && q in v.positions[t] && q in v.positions[u] ==> t == u)
    && forall q :: q in v.cells ==> ((v.cells[q] == 'S' || v.cells[q] == 'H') <==> Covered(v.positions, q))
  }

  /** Each ship's hit count is the number of its cells marked 'H'. */
  ghost predicate Tally(v: BoardView)
    requires Tables(v)
  {
    forall t :: t in v.positions ==> v.hits[t] == CountHits(v.positions[t], v.cells)
  }

  /** The board invariant. */
  ghost predicate Inv(v: BoardView)
  {
    Wf(v) && Layout(v) && Tally(v)
  }

  /** A new board: every cell ' ', no ship placed. */
  function EmptyBoard(size: int, types: seq<string>): BoardView
  {
    BoardView(size, types, map q | q in Square(size) :: ' ', map[], [], map[])
  }

  // ---------------------------------------------------------------- PlaceShip

  /** The outcome of PlaceShip; OutOfRange is the array access at a negative index throwing. */
  datatype PlaceResult = Placed | NotPlaced | OutOfRange

  /** The `len` cells from (x, y) along x when horizontal, along y otherwise. */
  function ShipCells(x: int, y: int, horizontal: bool, len: nat): (ps: seq<Pos>)
    ensures |ps| == len
    ensures forall i :: 0 <= i < len ==> ps[i] == if horizontal then (x + i, y) else (x, y + i)
  {
    if len == 0 then []
    else ShipCells(x, y, horizontal, len - 1) + [if horizontal then (x + len - 1, y) else (x, y + len - 1)]
  }

  lemma ShipCellsDistinct(x: int, y: int, horizontal: bool, len: nat)
    ensures Distinct(ShipCells(x, y, horizontal, len))
  {
  }

  /**
    The placement loop's verdict, cell by cell: a coordinate at or past the edge rejects the
    ship, a negative one throws, a cell that is not ' ' rejects the ship.
  */
  function Scan(size: int, cells: map<Pos, char>, ps: seq<Pos>): PlaceResult
    requires Spans(cells, size)
    decreases |ps|
  {
    if ps == [] then Placed
    else
      var q := ps[0];
      if q.0 >= size || q.1 >= size then NotPlaced
      else if q.0 < 0 || q.1 < 0 then OutOfRange
      else if cells[q] != ' ' then NotPlaced
      else Scan(size, cells, ps[1..])
  }

  /** The cells with every cell of ps set to c. */
  function Paint(cells: map<Pos, char>, ps: seq<Pos>, c: char): (r: map<Pos, char>)
    ensures r.Keys == cells.Keys
    ensures forall q :: q in cells ==> r[q] == if q in ps then c else cells[q]
  {
    map q | q in cells :: if q in ps then c else cells[q]
  }

  /** PlaceShip: the outcome and the board after it. */
  function PlaceShipSpec(v: BoardView, shipType: string, x: int, y: int, horizontal: bool): (PlaceResult, BoardView)
    requires Wf(v)
  {
    if shipType == "" || shipType !in v.types || shipType in v.positions then (NotPlaced, v)
    else
      var ps := ShipCells(x, y, horizontal, ShipSizes[shipType]);
      var r := Scan(v.size, v.cells, ps);
      if r != Placed then (r, v)
      else (Placed, v.(cells := Paint(v.cells, ps, 'S'),
                       positions := v.positions[shipType := ps],
                       placed := v.placed + [shipType],
                       hits := v.hits[shipType := 0]))
  }

  // ---------------------------------------------------------------- Attack and queries

  /** The first ship, in placement order, occupying q. */
  function FirstCovering(placed: seq<string>, positions: map<string, seq<Pos>>, q: Pos): (r: Option<string>)
    ensures r.Some? ==> r.value in placed && r.value in positions && q in positions[r.value]
    ensures r.None? ==> forall t :: t in placed && t in positions ==> q !in positions[t]
    decreases |placed|
  {
    if placed == [] then None
    else if placed[0] in positions && q in positions[placed[0]] then Some(placed[0])
    else
      assert forall t :: t in placed ==> t == placed[0] || t in placed[1..];
      FirstCovering(placed[1..], positions, q)
  }

  /** The hit table after a hit at q: one more hit for the first ship, in placement order, occupying q. */
  function HitsAfter(placed: seq<string>, positions: map<string, seq<Pos>>, hits: map<string, int>, q: Pos): map<string, int>
    requires forall t :: t in positions ==> t in hits
  {
    match FirstCovering(placed, positions, q)
    case Some(t) => hits[t := hits[t] + 1]
    case None => hits
  }

  /** An attack at (x, y) is legal when the cell is on the board and not yet attacked. */
  predicate LegalAttack(v: BoardView, x: int, y: int)
    requires Spans(v.cells, v.size)
  {
    0 <= x < v.size && 0 <= y < v.size && v.cells[(x, y)] != 'H' && v.cells[(x, y)] != 'M'
  }

  /** Attack: whether it hit, and the board after it. */
  function AttackSpec(v: BoardView, x: int, y: int): (bool, BoardView)
    requires Wf(v)
  {
    if !LegalAttack(v, x, y) then (false, v)
    else if v.cells[(x, y)] == 'S' then
      (true, v.(cells := v.cells[(x, y) := 'H'], hits := HitsAfter(v.placed, v.positions, v.hits, (x, y))))
    else (false, v.(cells := v.cells[(x, y) := 'M']))
  }

  /** Ship t occupies q and has as many hits as its size. */
  predicate SunkAt(positions: map<string, seq<Pos>>, hits: map<string, int>, t: string, q: Pos)
  {
    t in positions && q in positions[t] && t in hits && t in ShipSizes && hits[t] == ShipSizes[t]
  }

  /** GetSunkShip: the first ship, in placement order, occupying q whose hits equal its size; else "". */
  function FirstSunk(placed: seq<string>, positions: map<string, seq<Pos>>, hits: map<string, int>, q: Pos): (r: string)
    ensures r == "" || (r in placed && SunkAt(positions, hits, r, q))
    ensures r == "" && "" !in positions ==> forall t :: t in placed ==> !SunkAt(positions, hits, t, q)
    decreases |placed|
  {
    if placed == [] then ""
    else
      var t := placed[0];
      assert forall u :: u in placed ==> u == t || u in placed[1..];
      if SunkAt(positions, hits, t, q) then t
      else FirstSunk(placed[1..], positions, hits, q)
  }

  function SunkShipAt(v: BoardView, x: int, y: int): string
  {
    FirstSunk(v.placed, v.positions, v.hits, (x, y))
  }

  /** AllShipsPlaced: as many ships placed as the board has types. */
  predicate AllPlaced(v: BoardView)
  {
    |v.positions| == |v.types|
  }

  /** AllShipsSunk: every placed ship has as many hits as its size. */
  predicate AllSunk(v: BoardView)
    requires Wf(v)
  {
    forall t :: t in v.positions ==> v.hits[t] == ShipSizes[t]
  }

  /** Serialize: the size and the ship tables. */
  function Summary(v: BoardView): BoardSummary
  {
    BoardSummary(v.size, v.positions, v.hits)
  }
}
