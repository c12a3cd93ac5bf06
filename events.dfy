/**
  Outbound traffic of a game room.  The games hand JSON texts to an event dispatcher, which sends
  them to the room's group or to one user and stores state snapshots.  Here the texts are typed
  events and the dispatcher is an append-only log of what was sent and saved.
*/
module Events {

  /** A board coordinate: (x, y), the first and second index of the board array. */
  type Pos = (int, int)

  /** The JSON events the games emit, one constructor per EventType. */
  datatype Event =
    | CoinFlipStarted                                   // GameStarted, GameType = "CoinFlip"
    | BattleshipStarted(boardSize: int, ships: seq<string>)  // GameStarted, GameType = "Battleship"
    | GameEnded(winner: string)
    | ShipPlaced(playerId: string, shipType: string)
    | PlayerReady(playerId: string)
    | AttackPhaseStarted(firstTurn: string)
    | AttackResult(attackerId: string, defenderId: string, x: int, y: int, isHit: bool,
                   sunkShip: string, turnCount: int)
    | TurnChanged(currentPlayer: string)
    | CoinFlipResult(isHeads: bool, winner: string, turnCount: int)
    | Error(message: string)

  /** One send: to the whole room, or to a single user. */
  datatype Outbound = ToRoom(event: Event) | ToUser(user: string, event: Event)

  /** PlayerBoard.Serialize: the board size, each placed ship's cells and its hit count. */
  datatype BoardSummary = BoardSummary(size: int, shipPositions: map<string, seq<Pos>>, shipHits: map<string, int>)

  /** The final state a Battleship game saves when it stops. */
  datatype Snapshot = BattleshipFinal(winner: string, isActive: bool, turnCount: int, boards: map<string, BoardSummary>)

  /**
    The dispatcher as the games see it: the keys of the connected-player table, in enumeration
    order, and the log of every event sent and every snapshot saved.
  */
  class EventDispatcher {
    var connectedPlayers: seq<string>
    var outbox: seq<Outbound>
    var saved: seq<Snapshot>

    constructor (players: seq<string>)
      ensures connectedPlayers == players && outbox == [] && saved == []
    {
      connectedPlayers, outbox, saved := players, [], [];
    }

    /** BroadcastAsync: the event goes to every member of the room. */
    method Broadcast(e: Event) returns (ok: bool)
      modifies this
      ensures ok
      ensures outbox == old(outbox) + [ToRoom(e)]
      ensures connectedPlayers == old(connectedPlayers) && saved == old(saved)
    {
      outbox := outbox + [ToRoom(e)];
      ok := true;
    }

    /** SendToUserAsync: the event goes to one user only. */
    method SendToUser(user: string, e: Event) returns (ok: bool)
      modifies this
      ensures ok
      ensures outbox == old(outbox) + [ToUser(user, e)]
      ensures connectedPlayers == old(connectedPlayers) && saved == old(saved)
    {
      outbox := outbox + [ToUser(user, e)];
      ok := true;
    }

    /** SaveGameStateAsync: the snapshot is appended to the room's saved states. */
    method SaveGameState(s: Snapshot) returns (ok: bool)
      modifies this
      ensures ok
      ensures saved == old(saved) + [s]
      ensures connectedPlayers == old(connectedPlayers) && outbox == old(outbox)
    {
      saved := saved + [s];
      ok := true;
    }
  }

  /** Between two states, the dispatcher sent exactly `outs` and saved exactly `snaps`, in order. */
  twostate predicate Logged(d: EventDispatcher, outs: seq<Outbound>, snaps: seq<Snapshot>)
    reads d
  {
    && d.outbox == old(d.outbox) + outs
    && d.saved == old(d.saved) + snaps
    && d.connectedPlayers == old(d.connectedPlayers)
  }

  /** One more send after the sends `sent` that followed `log`. */
  lemma SentAfter(log: seq<Outbound>, sent: seq<Outbound>, e: Outbound)
    ensures log + sent + [e] == log + (sent + [e])
  {
  }
}
