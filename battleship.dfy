/**
  The Battleship game (BattleshipGame): a 10 by 10 board per connected player, a placement phase
  in which each player places the five ships on their own board, and an attack phase in which the
  turn owner attacks the first other connected player's board.  The game's behaviour is given as
  functions on a value view (Started, Stopped, Step); the class is proved against them.
*/
module Battleship {
  import opened Util
  import opened Events
  import opened GameBase
  import opened BoardView
  import opened BoardFacts

  /** The side length of every board in a game. */
  const BoardSize: int := 10

  /** What PlaceShip reports when the ship starts at a negative coordinate (the array access throws). */
  const OutOfRangeMessage: string := "Index was outside the bounds of the array."

  /** What taking the first connected player reports when nobody is connected. */
  const NoElementsMessage: string := "Sequence contains no elements"

  /**
    A decoded player message: a ship placement, an attack, an action with any other name, or a
    payload that fails to decode (carrying the exception's message).
  */
  datatype Action =
    | PlaceShip(shipType: string, startX: int, startY: int, isHorizontal: bool)
    | Attack(x: int, y: int)
    | Unrecognized
    | Malformed(message: string)

  /** The game's fields, the base instance's turn counter and every player's board as a value. */
  datatype GameView = GameView(active: bool, current: string, winner: string, turnCount: int,
                               boards: map<string, BoardView>)

  /** What one step of the game does: the new view, the sends in order, the snapshots saved. */
  type Outcome = (GameView, seq<Outbound>, seq<Snapshot>)

  /** Every board satisfies the board invariant. */
  ghost predicate BoardsInv(boards: map<string, BoardView>)
  {
    forall p {:trigger Inv(boards[p])} :: p in boards ==> Inv(boards[p])
  }

  /** Every board is 10 by 10 with the five ship types. */
  predicate Standard(boards: map<string, BoardView>)
  {
    forall p :: p in boards ==> boards[p].size == BoardSize && boards[p].types == ShipTypes
  }

  /** The game invariant: every board keeps the board invariant and is a 10 by 10 board of the five types. */
  ghost predicate GameInv(g: GameView)
  {
    BoardsInv(g.boards) && Standard(g.boards)
  }

  /** The board table StartAsync builds: an empty board for each player, added in order. */
  function EmptyBoards(players: seq<string>): map<string, BoardView>
  {
    if players == [] then map[]
    else EmptyBoards(players[..|players| - 1])[players[|players| - 1] := EmptyBoard(BoardSize, ShipTypes)]
  }

  /** StartAsync: active, counter 0, a new empty board for each connected player; turn owner and winner kept. */
  function Started(g: GameView, players: seq<string>): (GameView, seq<Outbound>)
  {
    (g.(active := true, turnCount := 0, boards := EmptyBoards(players)),
     [ToRoom(BattleshipStarted(BoardSize, ShipTypes))])
  }

  /** Every board's Serialize, by player. */
  function Summaries(boards: map<string, BoardView>): map<string, BoardSummary>
  {
    map p | p in boards :: Summary(boards[p])
  }

  /** StopAsync: inactive, the end announced with the winner, the final state saved. */
  function Stopped(g: GameView): Outcome
  {
    (g.(active := false), [ToRoom(GameEnded(g.winner))],
     [BattleshipFinal(g.winner, false, g.turnCount, Summaries(g.boards))])
  }

  /** An Error to the sender only, nothing else changed. */
  function Refuse(g: GameView, user: string, message: string): Outcome
  {
    (g, [ToUser(user, Error(message))], [])
  }

  /** Every board has all its ships placed. */
  predicate AllReady(boards: map<string, BoardView>)
  {
    forall p :: p in boards ==> AllPlaced(boards[p])
  }

  /**
    What follows a placement the board took: the ship is announced; when the sender's board is
    complete the sender is announced ready, and when every board is complete the first connected
    player gets the first turn.
  */
  function AfterPlacement(g: GameView, players: seq<string>, user: string, t: string, b: BoardView): Outcome
  {
    var placed := g.(boards := g.boards[user := b]);
    var announced := [ToRoom(ShipPlaced(user, t))];
    if !AllPlaced(b) then (placed, announced, [])
    else
      var ready := announced + [ToRoom(PlayerReady(user))];
      if !AllReady(placed.boards) then (placed, ready, [])
      else if players == [] then (placed, ready + [ToUser(user, Error(NoElementsMessage))], [])
      else (placed.(current := players[0]), ready + [ToRoom(AttackPhaseStarted(players[0]))], [])
  }

  /** The PlaceShip action: the sender's board must exist and accept the ship. */
  function PlaceStep(g: GameView, players: seq<string>, user: string, t: string, x: int, y: int, h: bool): Outcome
    requires BoardsInv(g.boards)
  {
    if user !in g.boards then Refuse(g, user, "Player not found in game")
    else
      assert Inv(g.boards[user]);
      var (r, b) := PlaceShipSpec(g.boards[user], t, x, y, h);
      if r == NotPlaced then Refuse(g, user, "Invalid ship placement")
      else if r == OutOfRange then Refuse(g, user, OutOfRangeMessage)
      else AfterPlacement(g, players, user, t, b)
  }

  /** The sender may attack: there is no turn owner yet, or the sender is the turn owner. */
  predicate MayAttack(g: GameView, user: string)
  {
    g.current == user || g.current == ""
  }

  /**
    What follows an accepted attack on the opponent's board, which is b afterwards: the turn is
    counted, the result reported and the turn handed to the opponent; if the attack sank the
    opponent's last ship the attacker wins and the game stops.
  */
  function AfterAttack(g: GameView, user: string, opp: string, x: int, y: int, hit: bool, b: BoardView): Outcome
    requires Wf(b)
  {
    var n := g.turnCount + 1;
    var report := [ToRoom(AttackResult(user, opp, x, y, hit, SunkShipAt(b, x, y), n))];
    var attacked := g.(turnCount := n, boards := g.boards[opp := b], current := opp);
    if AllSunk(b) then
      var (stopped, ended, saved) := Stopped(attacked.(winner := user));
      (stopped, report + ended, saved)
    else (attacked, report + [ToRoom(TurnChanged(opp))], [])
  }

  /**
    The Attack action: only the turn owner (or anyone while there is none) may attack, and only when
    an opponent with a board exists.
  */
  function AttackStep(g: GameView, players: seq<string>, user: string, x: int, y: int): Outcome
    requires BoardsInv(g.boards)
  {
    if !MayAttack(g, user) then Refuse(g, user, "Not your turn")
    else
      var opp := Opponent(players, user);
      if opp == "" || opp !in g.boards then Refuse(g, user, "No opponent found")
      else
        assert Inv(g.boards[opp]);
        AttackKeepsInv(g.boards[opp], x, y);
        var (hit, b) := AttackSpec(g.boards[opp], x, y);
        AfterAttack(g, user, opp, x, y, hit, b)
  }

  /** ProcessPlayerEventAsync for a decoded action: nothing while inactive, else the action's step. */
  function Step(g: GameView, players: seq<string>, user: string, action: Action): Outcome
    requires BoardsInv(g.boards)
  {
    if !g.active then (g, [], [])
    else match action
      case Malformed(message) => Refuse(g, user, message)
      case Unrecognized => Refuse(g, user, "Invalid action")
      case PlaceShip(t, x, y, h) => PlaceStep(g, players, user, t, x, y, h)
      case Attack(x, y) => AttackStep(g, players, user, x, y)
  }

  /** The actions that change the game: a placement the board takes, an attack that finds its opponent. */
  predicate Accepted(g: GameView, players: seq<string>, user: string, action: Action)
    requires BoardsInv(g.boards)
  {
    && g.active
    && match action
      case PlaceShip(t, x, y, h) => 
        user in g.boards && (assert Inv(g.boards[user]); PlaceShipSpec(g.boards[user], t, x, y, h).0 == Placed)
      case Attack(_, _) =>
        MayAttack(g, user) && Opponent(players, user) != "" && Opponent(players, user) in g.boards
      case _ => false
  }

  /** StartAsync's table has exactly the players as keys, each with a valid empty board of the game's shape. */
  lemma {:induction false} EmptyBoardsMeaning(players: seq<string>)
    ensures EmptyBoards(players).Keys == set p | p in players
    ensures forall p :: p in EmptyBoards(players) ==> EmptyBoards(players)[p] == EmptyBoard(BoardSize, ShipTypes)
    ensures BoardsInv(EmptyBoards(players)) && Standard(EmptyBoards(players))
    decreases |players|
  {
    EmptyBoardInv(BoardSize, ShipTypes);
    if players != [] {
      var init := players[..|players| - 1];
      EmptyBoardsMeaning(init);
      assert players == init + [players[|players| - 1]];
    }
  }

  /**
    Every board of the table satisfies what the board operations require.  This only names the
    instance Inv(boards[p]) of BoardsInv, whose quantifier is triggered on that term.
  */
  lemma BoardWf(boards: map<string, BoardView>, p: string)
    requires BoardsInv(boards) && p in boards
    ensures Wf(boards[p])
  {
    assert Inv(boards[p]);
  }

  /** Placing a ship on one board of a valid table leaves a valid table. */
  lemma PlacementKeepsInv(boards: map<string, BoardView>, user: string, t: string, x: int, y: int, h: bool)
    requires BoardsInv(boards) && Standard(boards) && user in boards && Wf(boards[user])
    ensures var b := PlaceShipSpec(boards[user], t, x, y, h).1;
      BoardsInv(boards[user := b]) && Standard(boards[user := b])
  {
    assert Inv(boards[user]);
    PlaceShipKeepsInv(boards[user], t, x, y, h);
    UpdateKeepsInv(boards, user, PlaceShipSpec(boards[user], t, x, y, h).1);
  }

  /** Attacking one board of a valid table leaves a valid table. */
  lemma AttackingKeepsInv(boards: map<string, BoardView>, opp: string, x: int, y: int)
    requires BoardsInv(boards) && Standard(boards) && opp in boards && Wf(boards[opp])
    ensures var b := AttackSpec(boards[opp], x, y).1;
      Wf(b) && BoardsInv(boards[opp := b]) && Standard(boards[opp := b])
  {
    assert Inv(boards[opp]);
    AttackKeepsInv(boards[opp], x, y);
    UpdateKeepsInv(boards, opp, AttackSpec(boards[opp], x, y).1);
  }

  lemma UpdateKeepsInv(boards: map<string, BoardView>, p: string, b: BoardView)
    requires BoardsInv(boards) && Inv(b)
    ensures BoardsInv(boards[p := b])
  {
  }

  class BattleshipGame {
    const base: BaseGameInstance
    var isGameActive: bool
    var currentPlayer: string
    var winner: string
    /** Each player's board, as the value the PlayerBoard class is proved against. */
    var playerBoards: map<string, BoardView>

    function View(): GameView
      reads this, base
    {
      GameView(isGameActive, currentPlayer, winner, base.turnCount, playerBoards)
    }

    ghost predicate Valid()
      reads this
    {
      BoardsInv(playerBoards) && Standard(playerBoards)
    }

    constructor (eventDispatcher: EventDispatcher)
      ensures fresh(base) && base.eventDispatcher == eventDispatcher && base.roomId == ""
      ensures Valid() && View() == GameView(false, "", "", 0, map[])
    {
      base := new BaseGameInstance(eventDispatcher);
      isGameActive, currentPlayer, winner, playerBoards := false, "", "", map[];
    }

    /** StartAsync: the counter reset, the game active, a new empty board for each connected player. */
    method Start() returns (ok: bool)
      modifies this, base, base.eventDispatcher
      ensures ok && Valid()
      ensures base.eventDispatcher == old(base.eventDispatcher) && base.roomId == old(base.roomId)
      ensures View() == Started(old(View()), old(base.eventDispatcher.connectedPlayers)).0
      ensures Logged(base.eventDispatcher, Started(old(View()), old(base.eventDispatcher.connectedPlayers)).1, [])
    {
      ok := base.Start();
      isGameActive := true;
      playerBoards := map[];
      var players := base.eventDispatcher.connectedPlayers;
      for i := 0 to |players|
        modifies this
        invariant playerBoards == EmptyBoards(players[..i])
        invariant isGameActive && currentPlayer == old(currentPlayer) && winner == old(winner)
      {
        playerBoards := playerBoards[players[i] := EmptyBoard(BoardSize, ShipTypes)];
        assert players[..i + 1][..i] == players[..i];
      }
      assert players[..|players|] == players;
      EmptyBoardsMeaning(players);
      var sent := base.eventDispatcher.Broadcast(BattleshipStarted(BoardSize, ShipTypes));
    }

    /** StopAsync: inactive, the end announced, the final state saved. */
    method Stop() returns (ok: bool)
      modifies this, base.eventDispatcher
      ensures ok && base.eventDispatcher == old(base.eventDispatcher)
      ensures View() == Stopped(old(View())).0
      ensures Logged(base.eventDispatcher, Stopped(old(View())).1, Stopped(old(View())).2)
    {
      isGameActive := false;
      var sent := base.eventDispatcher.Broadcast(GameEnded(winner));
      var summaries := map p | p in playerBoards :: Summary(playerBoards[p]);
      sent := base.eventDispatcher.SaveGameState(BattleshipFinal(winner, isGameActive, base.turnCount, summaries));
      ok := base.Stop();
    }

    method GetOpponent(user: string) returns (o: string)
      ensures o == Opponent(base.eventDispatcher.connectedPlayers, user)
    {
      o := GameBase.GetOpponent(base.eventDispatcher.connectedPlayers, user);
    }

    /** The PlaceShip branch of ProcessPlayerEventAsync. */
    method PlaceShipAction(user: string, t: string, x: int, y: int, h: bool)
      requires Valid()
      modifies this, base.eventDispatcher
      ensures Valid() && base.eventDispatcher == old(base.eventDispatcher)
      ensures View() == PlaceStep(old(View()), old(base.eventDispatcher.connectedPlayers), user, t, x, y, h).0
      ensures Logged(base.eventDispatcher, PlaceStep(old(View()), old(base.eventDispatcher.connectedPlayers), user, t, x, y, h).1, [])
    {
      var d := base.eventDispatcher;
      if user !in playerBoards {
        var sent := d.SendToUser(user, Error("Player not found in game"));
        return;
      }
      BoardWf(playerBoards, user);
      var (r, board) := PlaceShipSpec(playerBoards[user], t, x, y, h);
      if r == NotPlaced {
        var sent := d.SendToUser(user, Error("Invalid ship placement"));
        return;
      }
      if r == OutOfRange {
        var sent := d.SendToUser(user, Error(OutOfRangeMessage));
        return;
      }
      PlacementKeepsInv(playerBoards, user, t, x, y, h);
      Placed(user, t, board);
    }

    /** What PlaceShipAction does once the sender's board has taken the ship. */
    method Placed(user: string, t: string, board: BoardView)
      requires BoardsInv(playerBoards[user := board]) && Standard(playerBoards[user := board])
      modifies this, base.eventDispatcher
      ensures Valid() && base.eventDispatcher == old(base.eventDispatcher)
      ensures View() == AfterPlacement(old(View()), old(base.eventDispatcher.connectedPlayers), user, t, board).0
      ensures Logged(base.eventDispatcher, AfterPlacement(old(View()), old(base.eventDispatcher.connectedPlayers), user, t, board).1, [])
    {
      var d := base.eventDispatcher;
      ghost var log := d.outbox;
      playerBoards := playerBoards[user := board];
      var sent := d.Broadcast(ShipPlaced(user, t));
      if AllPlaced(board) {
        sent := d.Broadcast(PlayerReady(user));
        SentAfter(log, [ToRoom(ShipPlaced(user, t))], ToRoom(PlayerReady(user)));
        if AllReady(playerBoards) {
          if |d.connectedPlayers| == 0 {
            sent := d.SendToUser(user, Error(NoElementsMessage));
            SentAfter(log, [ToRoom(ShipPlaced(user, t))] + [ToRoom(PlayerReady(user))], ToUser(user, Error(NoElementsMessage)));
            return;
          }
          currentPlayer := d.connectedPlayers[0];
          sent := d.Broadcast(AttackPhaseStarted(currentPlayer));
          SentAfter(log, [ToRoom(ShipPlaced(user, t))] + [ToRoom(PlayerReady(user))], ToRoom(AttackPhaseStarted(currentPlayer)));
        }
      }
    }

    /** The Attack branch of ProcessPlayerEventAsync. */
    method AttackAction(user: string, x: int, y: int)
      requires Valid()
      modifies this, base, base.eventDispatcher
      ensures Valid()
      ensures base.eventDispatcher == old(base.eventDispatcher) && base.roomId == old(base.roomId)
      ensures View() == AttackStep(old(View()), old(base.eventDispatcher.connectedPlayers), user, x, y).0
      ensures Logged(base.eventDispatcher, AttackStep(old(View()), old(base.eventDispatcher.connectedPlayers), user, x, y).1,
                     AttackStep(old(View()), old(base.eventDispatcher.connectedPlayers), user, x, y).2)
    {
      var d := base.eventDispatcher;
      if currentPlayer != user && currentPlayer != "" {
        var sent := d.SendToUser(user, Error("Not your turn"));
        return;
      }
      var opp := GetOpponent(user);
      if opp == "" || opp !in playerBoards {
        var sent := d.SendToUser(user, Error("No opponent found"));
        return;
      }
      BoardWf(playerBoards, opp);
      AttackingKeepsInv(playerBoards, opp, x, y);
      var (hit, board) := AttackSpec(playerBoards[opp], x, y);
      Attacked(user, opp, x, y, hit, board);
    }

    /** What AttackAction does once the opponent's board has taken the attack. */
    method Attacked(user: string, opp: string, x: int, y: int, hit: bool, board: BoardView)
      requires Wf(board) && BoardsInv(playerBoards[opp := board]) && Standard(playerBoards[opp := board])
      modifies this, base, base.eventDispatcher
      ensures Valid()
      ensures base.eventDispatcher == old(base.eventDispatcher) && base.roomId == old(base.roomId)
      ensures View() == AfterAttack(old(View()), user, opp, x, y, hit, board).0
      ensures Logged(base.eventDispatcher, AfterAttack(old(View()), user, opp, x, y, hit, board).1,
                     AfterAttack(old(View()), user, opp, x, y, hit, board).2)
    {
      var d := base.eventDispatcher;
      ghost var log := d.outbox;
      base.turnCount := base.turnCount + 1;
      playerBoards := playerBoards[opp := board];
      var sunk := SunkShipAt(board, x, y);
      var sent := d.Broadcast(AttackResult(user, opp, x, y, hit, sunk, base.turnCount));
      ghost var report := [ToRoom(AttackResult(user, opp, x, y, hit, sunk, base.turnCount))];
      currentPlayer := opp;
      if AllSunk(board) {
        winner := user;
        var stopped := Stop();
        SentAfter(log, report, ToRoom(GameEnded(user)));
      } else {
        sent := d.Broadcast(TurnChanged(currentPlayer));
        SentAfter(log, report, ToRoom(TurnChanged(opp)));
      }
    }

    /** ProcessPlayerEventAsync for a decoded action. */
    method ProcessPlayerEvent(user: string, action: Action)
      requires Valid()
      modifies this, base, base.eventDispatcher
      ensures Valid()
      ensures base.eventDispatcher == old(base.eventDispatcher) && base.roomId == old(base.roomId)
      ensures View() == Step(old(View()), old(base.eventDispatcher.connectedPlayers), user, action).0
      ensures Logged(base.eventDispatcher, Step(old(View()), old(base.eventDispatcher.connectedPlayers), user, action).1,
                     Step(old(View()), old(base.eventDispatcher.connectedPlayers), user, action).2)
    {
      if !isGameActive {
        return;
      }
      match action
      case Malformed(message) =>
        var sent := base.eventDispatcher.SendToUser(user, Error(message));
      case Unrecognized =>
        var sent := base.eventDispatcher.SendToUser(user, Error("Invalid action"));
      case PlaceShip(t, x, y, h) =>
        PlaceShipAction(user, t, x, y, h);
      case Attack(x, y) =>
        AttackAction(user, x, y);
    }
  }
}
