/**
  Properties of the Battleship game's step function: what a rejected action leaves alone, what an
  accepted placement or attack changes, how the turn counter moves, and that the board invariant
  holds from StartAsync on.
*/
module BattleshipFacts {
  import opened Events
  import opened GameBase
  import opened BoardView
  import opened BoardFacts
  import opened Battleship

  /** While the game is inactive every event is ignored: no change, no message, nothing saved. */
  lemma InactiveIgnores(g: GameView, players: seq<string>, user: string, action: Action)
    requires BoardsInv(g.boards) && !g.active
    ensures Step(g, players, user, action) == (g, [], [])
  {
  }

  /**
    An action that is not accepted changes nothing and saves nothing; while the game is active it
    sends exactly one message, an Error to the sender only.
  */
  lemma {:induction false} RejectionsChangeNothing(g: GameView, players: seq<string>, user: string, action: Action)
    requires BoardsInv(g.boards) && !Accepted(g, players, user, action)
    ensures Step(g, players, user, action).0 == g && Step(g, players, user, action).2 == []
    ensures var outs := Step(g, players, user, action).1;
            g.active ==> |outs| == 1 && outs[0].ToUser? && outs[0].user == user && outs[0].event.Error?
    ensures g.active && action == Unrecognized ==> Step(g, players, user, action).1 == [ToUser(user, Error("Invalid action"))]
    ensures g.active && action.Attack? && !MayAttack(g, user) ==>
              Step(g, players, user, action).1 == [ToUser(user, Error("Not your turn"))]
  {
    if g.active {
      match action
      case PlaceShip(t, x, y, h) =>
        if user in g.boards {
          assert Inv(g.boards[user]);
          assert PlaceShipSpec(g.boards[user], t, x, y, h).0 != Placed;
        }
      case _ =>
    }
  }

  /**
    An accepted attack targets the first other connected player, counts exactly one turn, hands the
    turn to that opponent, changes no board but the opponent's, and ends the game with the attacker
    as winner exactly when it leaves the opponent's placed ships all sunk.
  */
  lemma AcceptedAttack(g: GameView, players: seq<string>, user: string, x: int, y: int)
    requires BoardsInv(g.boards) && Accepted(g, players, user, Attack(x, y))
    ensures Opponent(players, user) in players && Opponent(players, user) != user
    ensures Wf(g.boards[Opponent(players, user)])
    ensures Wf(AttackSpec(g.boards[Opponent(players, user)], x, y).1)
    ensures var opp := Opponent(players, user);
            var (hit, b) := AttackSpec(g.boards[opp], x, y);
            var (h, outs, saved) := Step(g, players, user, Attack(x, y));
            && h.turnCount == g.turnCount + 1
            && h.current == opp
            && h.boards == g.boards[opp := b]
            && |outs| == 2
            && outs[0] == ToRoom(AttackResult(user, opp, x, y, hit, SunkShipAt(b, x, y), g.turnCount + 1))
            && (AllSunk(b) ==> h.winner == user && !h.active && outs[1] == ToRoom(GameEnded(user)) && |saved| == 1)
            && (!AllSunk(b) ==> h.winner == g.winner && h.active && outs[1] == ToRoom(TurnChanged(opp)) && saved == [])
  {
    var opp := Opponent(players, user);
    OpponentIsOther(players, user);
    assert Inv(g.boards[opp]);
    AttackKeepsInv(g.boards[opp], x, y);
  }

  /**
    Attacking an opponent who has placed no ship ends the game at once with the attacker as winner:
    a board with no ship placed counts as all sunk.
  */
  lemma VacuousWin(g: GameView, players: seq<string>, user: string, x: int, y: int)
    requires BoardsInv(g.boards) && Accepted(g, players, user, Attack(x, y))
    requires g.boards[Opponent(players, user)].positions == map[]
    ensures Step(g, players, user, Attack(x, y)).0.winner == user
    ensures !Step(g, players, user, Attack(x, y)).0.active
  {
    var opp := Opponent(players, user);
    assert Inv(g.boards[opp]);
    AttackOutcome(g.boards[opp], x, y);
    AllSunkMeaning(AttackSpec(g.boards[opp], x, y).1);
  }

  /**
    An accepted placement changes only the sender's board, to the board PlaceShip leaves, and
    announces the ship first; the turn counter, the winner and the active flag are kept.  The turn
    owner changes only when every board is complete, and then becomes the first connected player.
  */
  lemma AcceptedPlacement(g: GameView, players: seq<string>, user: string, t: string, x: int, y: int, hz: bool)
    requires BoardsInv(g.boards) && Accepted(g, players, user, PlaceShip(t, x, y, hz))
    ensures Wf(g.boards[user])
    ensures var b := PlaceShipSpec(g.boards[user], t, x, y, hz).1;
            var (h, outs, saved) := Step(g, players, user, PlaceShip(t, x, y, hz));
            && h.boards == g.boards[user := b]
            && h.turnCount == g.turnCount && h.winner == g.winner && h.active
            && saved == [] && outs != [] && outs[0] == ToRoom(ShipPlaced(user, t))
            && (AllReady(h.boards) && players != [] ==> h.current == players[0])
            && (!AllReady(h.boards) ==> h.current == g.current)
  {
    assert Inv(g.boards[user]);
    var b := PlaceShipSpec(g.boards[user], t, x, y, hz).1;
    if AllReady(g.boards[user := b]) {
      assert AllPlaced(g.boards[user := b][user]);
    }
  }

  /** The turn counter moves by exactly one on an accepted attack and stays put on every other event. */
  lemma TurnCountMovesOnlyOnAttack(g: GameView, players: seq<string>, user: string, action: Action)
    requires BoardsInv(g.boards)
    ensures Step(g, players, user, action).0.turnCount ==
              g.turnCount + (if action.Attack? && Accepted(g, players, user, action) then 1 else 0)
  {
    if Accepted(g, players, user, action) {
      match action
      case Attack(x, y) => AcceptedAttack(g, players, user, x, y);
      case PlaceShip(t, x, y, hz) => AcceptedPlacement(g, players, user, t, x, y, hz);
      case _ =>
    } else {
      RejectionsChangeNothing(g, players, user, action);
    }
  }

  /** Every step keeps the game invariant, and no step adds or removes a player's board. */
  lemma {:induction false} StepKeepsGameInv(g: GameView, players: seq<string>, user: string, action: Action)
    requires GameInv(g)
    ensures GameInv(Step(g, players, user, action).0)
    ensures Step(g, players, user, action).0.boards.Keys == g.boards.Keys
  {
    if Accepted(g, players, user, action) {
      match action
      case Attack(x, y) =>
        var opp := Opponent(players, user);
        BoardWf(g.boards, opp);
        AttackingKeepsInv(g.boards, opp, x, y);
        AcceptedAttack(g, players, user, x, y);
      case PlaceShip(t, x, y, hz) =>
        BoardWf(g.boards, user);
        PlacementKeepsInv(g.boards, user, t, x, y, hz);
        AcceptedPlacement(g, players, user, t, x, y, hz);
      case _ =>
    } else {
      RejectionsChangeNothing(g, players, user, action);
    }
  }

  /**
    StartAsync establishes the game invariant: the game is active with the counter at 0 and one
    empty 10 by 10 board for each connected player and no one else.
  */
  lemma StartedInv(g: GameView, players: seq<string>)
    ensures var h := Started(g, players).0;
            && GameInv(h) && h.active && h.turnCount == 0
            && (forall p :: p in h.boards <==> p in players)
            && forall p :: p in h.boards ==> h.boards[p] == EmptyBoard(BoardSize, ShipTypes)
  {
    EmptyBoardsMeaning(players);
  }

  /** Under the game invariant no ship on any board has more hits than its size. */
  lemma HitsStayBounded(g: GameView)
    requires GameInv(g)
    ensures forall p, t :: p in g.boards && t in g.boards[p].positions ==>
              t in g.boards[p].hits && t in ShipSizes && 0 <= g.boards[p].hits[t] <= ShipSizes[t]
  {
    forall p, t | p in g.boards && t in g.boards[p].positions
      ensures t in g.boards[p].hits && t in ShipSizes && 0 <= g.boards[p].hits[t] <= ShipSizes[t]
    {
      assert Inv(g.boards[p]);
      HitsBounded(g.boards[p]);
    }
  }
}
