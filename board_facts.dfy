/** Properties of a player's board: the invariant is kept by every operation, and what each one does. */
module BoardFacts {
  import opened Util
  import opened Events
  import opened BoardView

  // ---------------------------------------------------------------- counting hits

  /** The count depends only on which of the cells are 'H'. */
  lemma {:induction false} CountHitsFrame(ps: seq<Pos>, c1: map<Pos, char>, c2: map<Pos, char>)
    requires forall k :: 0 <= k < |ps| ==> IsHit(c1, ps[k]) == IsHit(c2, ps[k])
    ensures CountHits(ps, c1) == CountHits(ps, c2)
    decreases |ps|
  {
    if ps != [] {
      CountHitsFrame(ps[..|ps| - 1], c1, c2);
    }
  }

  /** All cells are hit exactly when the count reaches the number of cells; none hit gives 0. */
  lemma {:induction false} CountHitsAll(ps: seq<Pos>, c: map<Pos, char>)
    ensures CountHits(ps, c) == |ps| <==> forall k :: 0 <= k < |ps| ==> IsHit(c, ps[k])
    ensures (forall k :: 0 <= k < |ps| ==> !IsHit(c, ps[k])) ==> CountHits(ps, c) == 0
    decreases |ps|
  {
    if ps != [] {
      var init := ps[..|ps| - 1];
      CountHitsAll(init, c);
      assert forall k :: 0 <= k < |init| ==> init[k] == ps[k];
    }
  }

  /** Marking one not-yet-hit cell of a ship 'H' raises its count by exactly one. */
  lemma {:induction false} CountHitsOneMore(ps: seq<Pos>, c: map<Pos, char>, q: Pos)
    requires Distinct(ps) && q in ps && !IsHit(c, q)
    ensures CountHits(ps, c[q := 'H']) == CountHits(ps, c) + 1
    decreases |ps|
  {
    var n := |ps| - 1;
    var init := ps[..n];
    assert Distinct(init);
    if ps[n] == q {
      assert q !in init;
      CountHitsFrame(init, c, c[q := 'H']);
    } else {
      assert q in init;
      CountHitsOneMore(init, c, q);
    }
  }

  // ---------------------------------------------------------------- a new board

  /** A new board satisfies the invariant: every cell ' ' and no ship placed. */
  lemma EmptyBoardInv(size: int, types: seq<string>)
    requires size >= 0 && KnownTypes(types)
    ensures Inv(EmptyBoard(size, types))
    ensures forall q :: q in EmptyBoard(size, types).cells ==> EmptyBoard(size, types).cells[q] == ' '
  {
  }

  // ---------------------------------------------------------------- PlaceShip

  /**
    The placement loop lets a ship through exactly when all its cells are on the board and empty,
    and throws only at a cell with a negative coordinate.
  */
  lemma {:induction false} ScanMeaning(size: int, cells: map<Pos, char>, ps: seq<Pos>)
    requires Spans(cells, size)
    ensures Scan(size, cells, ps) == Placed <==> forall k :: 0 <= k < |ps| ==> ps[k] in cells && cells[ps[k]] == ' '
    ensures Scan(size, cells, ps) == OutOfRange ==> exists k :: 0 <= k < |ps| && (ps[k].0 < 0 || ps[k].1 < 0)
    decreases |ps|
  {
    if ps != [] {
      ScanMeaning(size, cells, ps[1..]);
      assert forall k :: 1 <= k < |ps| ==> ps[k] == ps[1..][k - 1];
      if Scan(size, cells, ps) == OutOfRange && Scan(size, cells, ps[1..]) == OutOfRange {
        var k :| 0 <= k < |ps[1..]| && (ps[1..][k].0 < 0 || ps[1..][k].1 < 0);
        assert ps[k + 1] == ps[1..][k];
      }
    }
  }

  /**
    A rejected PlaceShip leaves the board unchanged, and the outcome is the exception only when
    the start has a negative coordinate.
  */
  lemma PlaceShipRejected(v: BoardView, t: string, x: int, y: int, horizontal: bool)
    requires Wf(v)
    ensures var (r, w) := PlaceShipSpec(v, t, x, y, horizontal);
            && (r != Placed ==> w == v)
            && (r == OutOfRange ==> x < 0 || y < 0)
  {
    if t != "" && t in v.types && t !in v.positions {
      var ps := ShipCells(x, y, horizontal, ShipSizes[t]);
      ScanMeaning(v.size, v.cells, ps);
      if Scan(v.size, v.cells, ps) == OutOfRange {
        var k :| 0 <= k < |ps| && (ps[k].0 < 0 || ps[k].1 < 0);
        assert ps[k] == if horizontal then (x + k, y) else (x, y + k);
      }
    }
  }

  /**
    PlaceShip succeeds exactly when the type is non-empty, one of the board's types and not yet
    placed, and each of its cells is on the board and empty; then those cells, and no other,
    become 'S', the cells are recorded, the hit count starts at 0 and the ship is last in
    placement order.
  */
  lemma PlaceShipAccepted(v: BoardView, t: string, x: int, y: int, horizontal: bool)
    requires Wf(v)
    ensures var (r, w) := PlaceShipSpec(v, t, x, y, horizontal);
            var ps := if t in ShipSizes then ShipCells(x, y, horizontal, ShipSizes[t]) else [];
            && (r == Placed <==>
                  && t != "" && t in v.types && t !in v.positions
                  && forall k :: 0 <= k < |ps| ==> 0 <= ps[k].0 < v.size && 0 <= ps[k].1 < v.size && v.cells[ps[k]] == ' ')
            && (r == Placed ==>
                  && (forall q :: q in v.cells ==> w.cells[q] == if q in ps then 'S' else v.cells[q])
                  && w.positions == v.positions[t := ps]
                  && w.hits == v.hits[t := 0]
                  && w.placed == v.placed + [t])
  {
    if t in ShipSizes {
      ScanMeaning(v.size, v.cells, ShipCells(x, y, horizontal, ShipSizes[t]));
    }
  }

  /** PlaceShip keeps the board invariant. */
  lemma PlaceShipKeepsInv(v: BoardView, t: string, x: int, y: int, horizontal: bool)
    requires Inv(v)
    ensures Inv(PlaceShipSpec(v, t, x, y, horizontal).1)
  {
    if PlaceShipSpec(v, t, x, y, horizontal).0 == Placed {
      var ps := ShipCells(x, y, horizontal, ShipSizes[t]);
      ShipCellsDistinct(x, y, horizontal, ShipSizes[t]);
      ScanMeaning(v.size, v.cells, ps);
      PlacedKeepsInv(v, t, ps);
    }
  }

  /** Recording a new ship on empty cells keeps the invariant. */
  lemma PlacedKeepsInv(v: BoardView, t: string, ps: seq<Pos>)
    requires Inv(v) && t != "" && t in v.types && t !in v.positions
    requires |ps| == ShipSizes[t] && Distinct(ps)
    requires forall k :: 0 <= k < |ps| ==> ps[k] in v.cells && v.cells[ps[k]] == ' '
    ensures Inv(v.(cells := Paint(v.cells, ps, 'S'), positions := v.positions[t := ps],
                   placed := v.placed + [t], hits := v.hits[t := 0]))
  {
    var w := v.(cells := Paint(v.cells, ps, 'S'), positions := v.positions[t := ps],
                placed := v.placed + [t], hits := v.hits[t := 0]);
    // no old ship occupies a new cell
    forall u, q | u in v.positions && q in v.positions[u] ensures q !in ps {
      assert Covered(v.positions, q);
    }
    PlacedWf(v, t, ps);
    PlacedLayout(v, w, t, ps);
    PlacedTally(v, t, ps);
  }

  lemma PlacedWf(v: BoardView, t: string, ps: seq<Pos>)
    requires Wf(v) && t != "" && t in v.types && t !in v.positions && |ps| == ShipSizes[t]
    requires forall k :: 0 <= k < |ps| ==> ps[k] in v.cells
    ensures Wf(v.(cells := Paint(v.cells, ps, 'S'), positions := v.positions[t := ps],
                  placed := v.placed + [t], hits := v.hits[t := 0]))
  {
    assert t !in v.placed;
  }

  lemma PlacedTally(v: BoardView, t: string, ps: seq<Pos>)
    requires Wf(v) && Tally(v) && t !in v.positions
    requires forall k :: 0 <= k < |ps| ==> ps[k] in v.cells && v.cells[ps[k]] == ' '
    requires forall u, q :: u in v.positions && q in v.positions[u] ==> q !in ps
    requires Wf(v.(cells := Paint(v.cells, ps, 'S'), positions := v.positions[t := ps],
                   placed := v.placed + [t], hits := v.hits[t := 0]))
    ensures Tally(v.(cells := Paint(v.cells, ps, 'S'), positions := v.positions[t := ps],
                     placed := v.placed + [t], hits := v.hits[t := 0]))
  {
    var w := v.(cells := Paint(v.cells, ps, 'S'), positions := v.positions[t := ps],
                placed := v.placed + [t], hits := v.hits[t := 0]);
    forall u | u in w.positions ensures w.hits[u] == CountHits(w.positions[u], w.cells) {
      if u == t {
        CountHitsAll(ps, w.cells);
      } else {
        CountHitsFrame(v.positions[u], v.cells, w.cells);
      }
    }
  }

  lemma PlacedLayout(v: BoardView, w: BoardView, t: string, ps: seq<Pos>)
    requires Inv(v) && Distinct(ps) && t !in v.positions
    requires forall k :: 0 <= k < |ps| ==> ps[k] in v.cells && v.cells[ps[k]] == ' '
    requires forall u, q :: u in v.positions && q in v.positions[u] ==> q !in ps
    requires w == v.(cells := Paint(v.cells, ps, 'S'), positions := v.positions[t := ps],
                     placed := v.placed + [t], hits := v.hits[t := 0])
    ensures Layout(w)
  {
    forall q | q in w.cells ensures (w.cells[q] == 'S' || w.cells[q] == 'H') <==> Covered(w.positions, q) {
      if q in ps {
        assert t in w.positions && q in w.positions[t];
      } else {
        assert Covered(w.positions, q) <==> Covered(v.positions, q) by {
          if Covered(w.positions, q) {
            var u :| u in w.positions && q in w.positions[u];
            assert u != t && u in v.positions;
          }
          if Covered(v.positions, q) {
            var u :| u in v.positions && q in v.positions[u];
            assert u in w.positions && w.positions[u] == v.positions[u];
          }
        }
      }
    }
  }

  // ---------------------------------------------------------------- Attack

  /**
    An attack off the board or at a cell already 'H' or 'M' returns false and changes nothing.
    Otherwise exactly the attacked cell changes: 'S' becomes 'H' and the attack reports a hit,
    anything else becomes 'M'; a hit adds one to the hit count of the ship on that cell and no
    other count changes.
  */
  lemma AttackOutcome(v: BoardView, x: int, y: int)
    requires Inv(v)
    ensures var (hit, w) := AttackSpec(v, x, y);
            && (!LegalAttack(v, x, y) ==> !hit && w == v)
            && (LegalAttack(v, x, y) ==>
                  && hit == (v.cells[(x, y)] == 'S')
                  && w.cells == v.cells[(x, y) := if hit then 'H' else 'M']
                  && w.positions == v.positions && w.placed == v.placed)
            && (!hit ==> w.hits == v.hits)
            && (hit ==> exists t :: t in v.positions && (x, y) in v.positions[t] && w.hits == v.hits[t := v.hits[t] + 1])
  {
    if LegalAttack(v, x, y) && v.cells[(x, y)] == 'S' {
      var t := HitShip(v, (x, y));
      AttackHitEffect(v, x, y, t);
    }
  }

  lemma AttackHitEffect(v: BoardView, x: int, y: int, t: string)
    requires Wf(v) && LegalAttack(v, x, y) && v.cells[(x, y)] == 'S'
    requires FirstCovering(v.placed, v.positions, (x, y)) == Some(t)
    ensures AttackSpec(v, x, y) == (true, v.(cells := v.cells[(x, y) := 'H'], hits := v.hits[t := v.hits[t] + 1]))
  {
    var hits := match FirstCovering(v.placed, v.positions, (x, y))
      case Some(u) => v.hits[u := v.hits[u] + 1]
      case None => v.hits;
    assert hits == v.hits[t := v.hits[t] + 1];
  }

  /** The cell of an 'S' belongs to exactly one ship, and that ship is the first one found on it. */
  lemma HitShip(v: BoardView, q: Pos) returns (t: string)
    requires Inv(v) && q in v.cells && v.cells[q] == 'S'
    ensures FirstCovering(v.placed, v.positions, q) == Some(t)
    ensures t in v.positions && q in v.positions[t]
    ensures forall u :: u in v.positions && u != t ==> q !in v.positions[u]
  {
    assert Covered(v.positions, q);
    var u :| u in v.positions && q in v.positions[u];
    assert u in v.placed;
    t := FirstCovering(v.placed, v.positions, q).value;
  }

  /** Attack keeps the board invariant. */
  lemma AttackKeepsInv(v: BoardView, x: int, y: int)
    requires Inv(v)
    ensures Inv(AttackSpec(v, x, y).1)
  {
    if LegalAttack(v, x, y) {
      if v.cells[(x, y)] == 'S' {
        var t := HitShip(v, (x, y));
        AttackHitEffect(v, x, y, t);
        HitKeepsInv(v, (x, y), t);
      } else {
        MissKeepsInv(v, (x, y));
      }
    }
  }

  /** Marking a ship's 'S' cell 'H' and counting the hit on that ship keeps the invariant. */
  lemma HitKeepsInv(v: BoardView, q: Pos, t: string)
    requires Inv(v) && q in v.cells && v.cells[q] == 'S'
    requires t in v.positions && q in v.positions[t]
    requires forall u :: u in v.positions && u != t ==> q !in v.positions[u]
    ensures Inv(v.(cells := v.cells[q := 'H'], hits := v.hits[t := v.hits[t] + 1]))
  {
    HitWf(v, q, t);
    HitLayout(v, q, t);
    HitTally(v, q, t);
  }

  lemma HitWf(v: BoardView, q: Pos, t: string)
    requires Wf(v) && q in v.cells && t in v.positions
    ensures Wf(v.(cells := v.cells[q := 'H'], hits := v.hits[t := v.hits[t] + 1]))
  {
  }

  lemma HitLayout(v: BoardView, q: Pos, t: string)
    requires Wf(v) && Layout(v) && q in v.cells && v.cells[q] == 'S' && t in v.positions
    ensures Layout(v.(cells := v.cells[q := 'H'], hits := v.hits[t := v.hits[t] + 1]))
  {
  }

  lemma HitTally(v: BoardView, q: Pos, t: string)
    requires Wf(v) && Layout(v) && Tally(v) && q in v.cells && v.cells[q] == 'S'
    requires t in v.positions && q in v.positions[t]
    requires forall u :: u in v.positions && u != t ==> q !in v.positions[u]
    requires Wf(v.(cells := v.cells[q := 'H'], hits := v.hits[t := v.hits[t] + 1]))
    ensures Tally(v.(cells := v.cells[q := 'H'], hits := v.hits[t := v.hits[t] + 1]))
  {
    var w := v.(cells := v.cells[q := 'H'], hits := v.hits[t := v.hits[t] + 1]);
    forall u | u in w.positions ensures w.hits[u] == CountHits(w.positions[u], w.cells) {
      if u == t {
        CountHitsOneMore(v.positions[t], v.cells, q);
      } else {
        CountHitsFrame(v.positions[u], v.cells, w.cells);
      }
    }
  }

  /** Marking a cell that no ship occupies 'M' keeps the invariant. */
  lemma MissKeepsInv(v: BoardView, q: Pos)
    requires Inv(v) && q in v.cells && v.cells[q] != 'S' && v.cells[q] != 'H'
    ensures Inv(v.(cells := v.cells[q := 'M']))
  {
    MissLayout(v, q);
    MissTally(v, q);
  }

  lemma MissLayout(v: BoardView, q: Pos)
    requires Wf(v) && Layout(v) && q in v.cells && v.cells[q] != 'S' && v.cells[q] != 'H'
    ensures !Covered(v.positions, q)
    ensures Wf(v.(cells := v.cells[q := 'M'])) && Layout(v.(cells := v.cells[q := 'M']))
  {
  }

  lemma MissTally(v: BoardView, q: Pos)
    requires Wf(v) && Tally(v) && q in v.cells && !Covered(v.positions, q)
    requires Wf(v.(cells := v.cells[q := 'M']))
    ensures Tally(v.(cells := v.cells[q := 'M']))
  {
    var w := v.(cells := v.cells[q := 'M']);
    forall u | u in w.positions ensures w.hits[u] == CountHits(w.positions[u], w.cells) {
      CountHitsFrame(v.positions[u], v.cells, w.cells);
    }
  }

  // ---------------------------------------------------------------- queries

  /** A ship's hit count never exceeds its size. */
  lemma HitsBounded(v: BoardView)
    requires Inv(v)
    ensures forall t :: t in v.positions ==> 0 <= v.hits[t] <= ShipSizes[t]
  {
  }

  /** A ship has as many hits as its size exactly when every one of its cells is 'H'. */
  lemma SunkIffAllHit(v: BoardView, t: string)
    requires Inv(v) && t in v.positions
    ensures v.hits[t] == ShipSizes[t] <==> forall q :: q in v.positions[t] ==> v.cells[q] == 'H'
  {
    CountHitsAll(v.positions[t], v.cells);
  }

  /**
    What a saved snapshot of a board holds: the position and hit tables have the same ships as
    keys, each ship is a known type with as many cells as its size and a hit count between 0 and
    that size, and every cell of a ship lies on the board and is marked 'S' or 'H'.
  */
  lemma SummaryMeaning(v: BoardView)
    requires Inv(v)
    ensures var s := Summary(v);
            && s.size == v.size
            && s.shipPositions.Keys == s.shipHits.Keys
            && (forall t :: t in s.shipPositions ==>
                  t in ShipSizes && |s.shipPositions[t]| == ShipSizes[t] && 0 <= s.shipHits[t] <= ShipSizes[t])
            && forall t, q :: t in s.shipPositions && q in s.shipPositions[t] ==>
                 0 <= q.0 < v.size && 0 <= q.1 < v.size && (v.cells[q] == 'S' || v.cells[q] == 'H')
  {
    SameShips(v);
    HitsBounded(v);
    ShipCellsMarked(v);
  }

  /** The position and hit tables have the same keys. */
  lemma SameShips(v: BoardView)
    requires Tables(v)
    ensures v.positions.Keys == v.hits.Keys
  {
    assert forall t :: t in v.positions <==> t in v.hits;
  }

  /** Every cell of a placed ship lies on the board and is marked 'S' or 'H'. */
  lemma ShipCellsMarked(v: BoardView)
    requires Spans(v.cells, v.size) && Layout(v)
    ensures forall t, q :: t in v.positions && q in v.positions[t] ==>
              0 <= q.0 < v.size && 0 <= q.1 < v.size && (v.cells[q] == 'S' || v.cells[q] == 'H')
  {
    forall t, q | t in v.positions && q in v.positions[t]
      ensures 0 <= q.0 < v.size && 0 <= q.1 < v.size && (v.cells[q] == 'S' || v.cells[q] == 'H')
    {
      ShipCellMarked(v, t, q);
    }
  }

  /** One cell of a placed ship lies on the board and is marked 'S' or 'H'. */
  lemma ShipCellMarked(v: BoardView, t: string, q: Pos)
    requires Spans(v.cells, v.size) && Layout(v) && t in v.positions && q in v.positions[t]
    ensures 0 <= q.0 < v.size && 0 <= q.1 < v.size && (v.cells[q] == 'S' || v.cells[q] == 'H')
  {
    assert q in v.cells;
    assert Covered(v.positions, q);
  }

  /**
    GetSunkShip names a ship exactly when a ship at (x, y) has as many hits as its size, and the
    ship it names is that one; otherwise it returns "".
  */
  lemma SunkShipMeaning(v: BoardView, x: int, y: int)
    requires Inv(v)
    ensures SunkShipAt(v, x, y) != "" <==>
              exists t :: t in v.positions && (x, y) in v.positions[t] && v.hits[t] == ShipSizes[t]
    ensures forall t :: t in v.positions && (x, y) in v.positions[t] && v.hits[t] == ShipSizes[t] ==> SunkShipAt(v, x, y) == t
  {
    var r := SunkShipAt(v, x, y);
    forall t | t in v.positions && (x, y) in v.positions[t] && v.hits[t] == ShipSizes[t] ensures r == t {
      assert SunkAt(v.positions, v.hits, t, (x, y));
      assert r != "";
    }
  }

  /** With distinct ship types, AllShipsPlaced holds exactly when every type is placed. */
  lemma AllPlacedMeaning(v: BoardView)
    requires Inv(v)
    ensures Distinct(v.types) ==> (AllPlaced(v) <==> forall t :: t in v.types ==> t in v.positions)
  {
    if Distinct(v.types) {
      var types := set t | t in v.types;
      DistinctCardinality(v.types);
      assert v.positions.Keys <= types;
      if AllPlaced(v) {
        SubsetSameSize(v.positions.Keys, types);
      }
      if forall t :: t in v.types ==> t in v.positions {
        assert v.positions.Keys == types;
      }
    }
  }

  /**
    AllShipsSunk holds exactly when no cell is still 'S', that is when every cell of every placed
    ship is 'H'; with no ship placed it holds vacuously.
  */
  lemma AllSunkMeaning(v: BoardView)
    requires Inv(v)
    ensures AllSunk(v) <==> forall q :: q in v.cells ==> v.cells[q] != 'S'
    ensures AllSunk(v) <==> forall t, q :: t in v.positions && q in v.positions[t] ==> v.cells[q] == 'H'
    ensures v.positions == map[] ==> AllSunk(v)
  {
    forall t | t in v.positions {
      SunkIffAllHit(v, t);
    }
    if AllSunk(v) {
      assert forall q :: q in v.cells ==> v.cells[q] != 'S';
    }
  }
}
