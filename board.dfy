/**
  PlayerBoard: a size by size char array updated in place, with the ship position and hit
  tables.  Each method is proved against the value specification in BoardView, and keeps the
  board invariant.
*/
module Board {
  import opened Util
  import opened Events
  import opened BoardView
  import opened BoardFacts

  /** The search loop over the ship table in Attack: the first ship, in table order, occupying q. */
  method FindShip(placed: seq<string>, positions: map<string, seq<Pos>>, q: Pos) returns (r: Option<string>)
    ensures r == FirstCovering(placed, positions, q)
  {
    for k := 0 to |placed|
      invariant FirstCovering(placed, positions, q) == FirstCovering(placed[k..], positions, q)
    {
      assert placed[k..][1..] == placed[k + 1..];
      var t := placed[k];
      if t in positions && q in positions[t] {
        return Some(t);
      }
    }
    return None;
  }

  /** The search loop of GetSunkShip. */
  method FindSunk(placed: seq<string>, positions: map<string, seq<Pos>>, hits: map<string, int>, q: Pos)
    returns (name: string)
    ensures name == FirstSunk(placed, positions, hits, q)
  {
    for k := 0 to |placed|
      invariant FirstSunk(placed, positions, hits, q) == FirstSunk(placed[k..], positions, hits, q)
    {
      assert placed[k..][1..] == placed[k + 1..];
      var t := placed[k];
      if t in positions && q in positions[t] {
        if t in hits && t in ShipSizes {
          if hits[t] == ShipSizes[t] {
            return t;
          }
        }
      }
    }
    return "";
  }

  class PlayerBoard {
    const size: int
    const shipTypes: seq<string>
    const grid: array2<char>
    /** The marks of the grid as a map from (x, y), kept equal to the array by Mirrors. */
    ghost var cells: map<Pos, char>
    var shipPositions: map<string, seq<Pos>>
    /** The keys of shipPositions in the order they were added, the table's enumeration order. */
    var placed: seq<string>
    var shipHits: map<string, int>

    /** The array is size by size and holds exactly the marks of `cells`. */
    ghost predicate Mirrors()
      reads this`cells, grid
    {
      && grid.Length0 == size && grid.Length1 == size
      && Spans(cells, size)
      && forall a, b :: 0 <= a < size && 0 <= b < size ==> grid[a, b] == cells[(a, b)]
    }

    ghost function View(): BoardView
      reads this
    {
      BoardView(size, shipTypes, cells, shipPositions, placed, shipHits)
    }

    ghost predicate Valid()
      reads this, grid
    {
      Mirrors() && Inv(View())
    }

    /** A board of the given size with every cell ' ' and no ship placed. */
    constructor (size: int, shipTypes: seq<string>)
      requires size >= 0 && KnownTypes(shipTypes)
      ensures Valid() && fresh(grid)
      ensures View() == EmptyBoard(size, shipTypes)
    {
      var g := new char[size, size];
      for i := 0 to size
        invariant forall a, b :: 0 <= a < i && 0 <= b < size ==> g[a, b] == ' '
      {
        for j := 0 to size
          invariant forall a, b :: 0 <= a < i && 0 <= b < size ==> g[a, b] == ' '
          invariant forall b :: 0 <= b < j ==> g[i, b] == ' '
        {
          g[i, j] := ' ';
        }
      }
      this.size := size;
      this.shipTypes := shipTypes;
      grid := g;
      cells := EmptyBoard(size, shipTypes).cells;
      shipPositions, placed, shipHits := map[], [], map[];
      new;
      EmptyBoardInv(size, shipTypes);
    }

    /** Writes 'S' into each of the cells, all of them on the board. */
    method PaintShip(ps: seq<Pos>)
      requires Mirrors() && forall k :: 0 <= k < |ps| ==> 0 <= ps[k].0 < size && 0 <= ps[k].1 < size
      modifies this, grid
      ensures Mirrors() && cells == Paint(old(cells), ps, 'S')
      ensures shipPositions == old(shipPositions) && placed == old(placed) && shipHits == old(shipHits)
    {
      ghost var before := cells;
      for k := 0 to |ps|
        invariant Mirrors() && cells == Paint(before, ps[..k], 'S')
        invariant shipPositions == old(shipPositions) && placed == old(placed) && shipHits == old(shipHits)
      {
        grid[ps[k].0, ps[k].1] := 'S';
        cells := cells[ps[k] := 'S'];
        assert forall p :: p in ps[..k + 1] <==> p in ps[..k] || p == ps[k];
      }
      assert ps[..|ps|] == ps;
    }

    /**
      The checking loop of PlaceShip: walks the ship's cells, stopping at the first one at or past
      the edge (NotPlaced), at a negative coordinate (OutOfRange, the array access throwing) or not
      empty (NotPlaced); the cells walked are collected.
    */
    method ScanShip(startX: int, startY: int, isHorizontal: bool, length: nat) returns (r: PlaceResult, positions: seq<Pos>)
      requires Mirrors()
      ensures r == Scan(size, cells, ShipCells(startX, startY, isHorizontal, length))
      ensures r == Placed ==> positions == ShipCells(startX, startY, isHorizontal, length)
    {
      ghost var all := ShipCells(startX, startY, isHorizontal, length);
      positions := [];
      for i := 0 to length
        invariant positions == all[..i]
        invariant Scan(size, cells, all) == Scan(size, cells, all[i..])
      {
        var x := if isHorizontal then startX + i else startX;
        var y := if isHorizontal then startY else startY + i;
        assert all[i..][0] == (x, y) && all[i..][1..] == all[i + 1..];
        if x >= size || y >= size {
          return NotPlaced, positions;
        }
        if x < 0 || y < 0 {
          return OutOfRange, positions;
        }
        if grid[x, y] != ' ' {
          return NotPlaced, positions;
        }
        positions := positions + [(x, y)];
      }
      assert positions == all;
      r := Placed;
    }

    /**
      PlaceShip: checks the type, walks the ship's cells checking each one, and only then writes
      'S' on all of them and records the ship.
    */
    method PlaceShip(shipType: string, startX: int, startY: int, isHorizontal: bool) returns (r: PlaceResult)
      requires Valid()
      modifies this, grid
      ensures Valid()
      ensures (r, View()) == PlaceShipSpec(old(View()), shipType, startX, startY, isHorizontal)
    {
      ghost var v := View();
      r := PlaceShipCells(shipType, startX, startY, isHorizontal);
      PlaceShipKeepsInv(v, shipType, startX, startY, isHorizontal);
    }

    /** The body of PlaceShip, which needs only the well-formed tables. */
    method PlaceShipCells(shipType: string, startX: int, startY: int, isHorizontal: bool) returns (r: PlaceResult)
      requires Mirrors() && Wf(View())
      modifies this, grid
      ensures Mirrors()
      ensures (r, View()) == PlaceShipSpec(old(View()), shipType, startX, startY, isHorizontal)
    {
      if shipType == "" || shipType !in shipTypes || shipType in shipPositions {
        return NotPlaced;
      }
      var length := ShipSizes[shipType];
      var positions;
      r, positions := ScanShip(startX, startY, isHorizontal, length);
      if r != Placed {
        return;
      }
      ScanMeaning(size, cells, positions);
      ghost var v := View();
      RecordShip(shipType, positions);
      assert PlaceShipSpec(v, shipType, startX, startY, isHorizontal).1 == View();
    }

    /** The writing half of PlaceShip: the cells become 'S' and the ship is recorded with no hits. */
    method RecordShip(shipType: string, positions: seq<Pos>)
      requires Mirrors() && forall k :: 0 <= k < |positions| ==> 0 <= positions[k].0 < size && 0 <= positions[k].1 < size
      modifies this, grid
      ensures Mirrors()
      ensures View() == old(View()).(cells := Paint(old(cells), positions, 'S'),
                                     positions := old(shipPositions)[shipType := positions],
                                     placed := old(placed) + [shipType], hits := old(shipHits)[shipType := 0])
    {
      PaintShip(positions);
      shipPositions := shipPositions[shipType := positions];
      placed := placed + [shipType];
      shipHits := shipHits[shipType := 0];
    }

    /** Writes c into one cell of the grid. */
    method Mark(x: int, y: int, c: char)
      requires Mirrors() && 0 <= x < size && 0 <= y < size
      modifies this, grid
      ensures Mirrors() && cells == old(cells)[(x, y) := c]
      ensures shipPositions == old(shipPositions) && placed == old(placed) && shipHits == old(shipHits)
    {
      grid[x, y] := c;
      cells := cells[(x, y) := c];
    }

    /** The hit count update of Attack: one more hit for the first ship found on q, if any. */
    method RecordHit(q: Pos)
      requires forall t :: t in shipPositions ==> t in shipHits
      modifies this
      ensures shipPositions == old(shipPositions) && placed == old(placed) && cells == old(cells)
      ensures shipHits == HitsAfter(placed, shipPositions, old(shipHits), q)
    {
      var ship := FindShip(placed, shipPositions, q);
      if ship.Some? {
        shipHits := shipHits[ship.value := shipHits[ship.value] + 1];
      }
    }

    /**
      Attack: an attack off the board or at an attacked cell changes nothing; otherwise the cell
      becomes 'H' or 'M', and a hit is counted on the first ship found on the cell.
    */
    method Attack(x: int, y: int) returns (hit: bool)
      requires Valid()
      modifies this, grid
      ensures Valid()
      ensures (hit, View()) == AttackSpec(old(View()), x, y)
    {
      ghost var v := View();
      hit := AttackCell(x, y);
      AttackKeepsInv(v, x, y);
    }

    /** The body of Attack, which needs only the well-formed tables. */
    method AttackCell(x: int, y: int) returns (hit: bool)
      requires Mirrors() && Wf(View())
      modifies this, grid
      ensures Mirrors()
      ensures (hit, View()) == AttackSpec(old(View()), x, y)
    {
      ghost var v := View();
      if x < 0 || x >= size || y < 0 || y >= size {
        return false;
      }
      assert grid[x, y] == v.cells[(x, y)];
      if grid[x, y] == 'H' || grid[x, y] == 'M' {
        return false;
      }
      hit := grid[x, y] == 'S';
      Mark(x, y, if hit then 'H' else 'M');
      if hit {
        RecordHit((x, y));
      }
    }

    /** GetSunkShip: the sunk ship at (x, y), or "". */
    method GetSunkShip(x: int, y: int) returns (name: string)
      requires Valid()
      ensures name == SunkShipAt(View(), x, y)
      ensures name != "" <==> exists t :: t in shipPositions && (x, y) in shipPositions[t] && shipHits[t] == ShipSizes[t]
    {
      name := FindSunk(placed, shipPositions, shipHits, (x, y));
      SunkShipMeaning(View(), x, y);
    }

    /** AllShipsPlaced: as many ships placed as there are types, i.e. every type placed. */
    function AllShipsPlaced(): (b: bool)
      requires Valid()
      reads this, grid
      ensures b == AllPlaced(View())
      ensures Distinct(shipTypes) ==> (b <==> forall t :: t in shipTypes ==> t in shipPositions)
    {
      AllPlacedMeaning(View());
      |shipPositions| == |shipTypes|
    }

    /** AllShipsSunk: every placed ship fully hit, i.e. no 'S' left on the board. */
    function AllShipsSunk(): (b: bool)
      requires Valid()
      reads this, grid
      ensures b == AllSunk(View())
      ensures b <==> forall x, y :: 0 <= x < size && 0 <= y < size ==> grid[x, y] != 'S'
    {
      AllSunkMeaning(View());
      forall t :: t in shipPositions ==> shipHits[t] == ShipSizes[t]
    }

    /**
      Serialize: the size and the two ship tables.  The snapshot's size is the grid's, both tables
      list the same ships, and each ship is a known type with as many cells as its size and a hit
      count within that size; SummaryMeaning adds where those cells lie and how they are marked.
    */
    function Serialize(): (s: BoardSummary)
      requires Valid()
      reads this, grid
      ensures s == Summary(View())
      ensures s.size == grid.Length0 == grid.Length1
      ensures s.shipPositions.Keys == s.shipHits.Keys
      ensures forall t :: t in s.shipPositions ==>
                t in ShipSizes && |s.shipPositions[t]| == ShipSizes[t] && 0 <= s.shipHits[t] <= ShipSizes[t]
    {
      SummaryMeaning(View());
      BoardSummary(size, shipPositions, shipHits)
    }
  }
}
