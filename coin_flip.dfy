/**
  The coin-flip game (CoinFlipGame): one action, FlipCoin, guarded by the turn owner; an accepted
  flip counts a turn, decides the winner from the coin and ends the game.  The coin is a parameter.
*/
module CoinFlip {
  import opened Events
  import opened GameBase

  /** A decoded player message: the FlipCoin action, any other action, or text that fails to decode. */
  datatype Action = FlipCoin | OtherAction | Malformed(message: string)

  /** The game's fields together with the base instance's turn counter. */
  datatype CoinFlipView = CoinFlipView(active: bool, current: string, winner: string, turnCount: int)

  /** StartAsync: active again with the counter at 0; the turn owner and winner are kept. */
  function Started(v: CoinFlipView): CoinFlipView
  {
    v.(active := true, turnCount := 0)
  }

  /** StopAsync: inactive, announcing the winner. */
  function Stopped(v: CoinFlipView): (CoinFlipView, seq<Outbound>)
  {
    (v.(active := false), [ToRoom(GameEnded(v.winner))])
  }

  /** A flip is accepted when there is no turn owner yet or the flipper is the turn owner. */
  predicate MayFlip(v: CoinFlipView, user: string)
  {
    v.current == user || v.current == ""
  }

  /**
    ProcessPlayerEventAsync: the new fields and the sends.  `players` are the connected players and
    `heads` the coin.
  */
  function FlipStep(v: CoinFlipView, players: seq<string>, user: string, action: Action, heads: bool)
    : (CoinFlipView, seq<Outbound>)
  {
    if !v.active then (v, [])
    else match action
      case Malformed(msg) => (v, [ToUser(user, Error(msg))])
      case OtherAction => (v, [])
      case FlipCoin =>
        if !MayFlip(v, user) then (v, [ToUser(user, Error("Not your turn"))])
        else
          var winner := if heads then user else Opponent(players, user);
          var flipped := v.(turnCount := v.turnCount + 1, current := user, winner := winner);
          var (stopped, ended) := Stopped(flipped);
          (stopped, [ToRoom(CoinFlipResult(heads, winner, flipped.turnCount))] + ended)
  }

  class CoinFlipGame {
    const base: BaseGameInstance
    var currentPlayer: string
    var winner: string
    var isGameActive: bool

    function View(): CoinFlipView
      reads this, base
    {
      CoinFlipView(isGameActive, currentPlayer, winner, base.turnCount)
    }

    constructor (eventDispatcher: EventDispatcher)
      ensures fresh(base) && base.eventDispatcher == eventDispatcher && base.roomId == ""
      ensures View() == CoinFlipView(false, "", "", 0)
    {
      base := new BaseGameInstance(eventDispatcher);
      currentPlayer, winner, isGameActive := "", "", false;
    }

    method Start() returns (ok: bool)
      modifies this, base, base.eventDispatcher
      ensures ok && base.eventDispatcher == old(base.eventDispatcher) && base.roomId == old(base.roomId)
      ensures View() == Started(old(View()))
      ensures Logged(base.eventDispatcher, [ToRoom(CoinFlipStarted)], [])
    {
      ok := base.Start();
      isGameActive := true;
      var sent := base.eventDispatcher.Broadcast(CoinFlipStarted);
    }

    method Stop() returns (ok: bool)
      modifies this, base.eventDispatcher
      ensures ok && base.eventDispatcher == old(base.eventDispatcher)
      ensures View() == Stopped(old(View())).0
      ensures Logged(base.eventDispatcher, Stopped(old(View())).1, [])
    {
      isGameActive := false;
      var sent := base.eventDispatcher.Broadcast(GameEnded(winner));
      ok := base.Stop();
    }

    method GetOpponent(user: string) returns (o: string)
      ensures o == Opponent(base.eventDispatcher.connectedPlayers, user)
    {
      o := GameBase.GetOpponent(base.eventDispatcher.connectedPlayers, user);
    }

    /** ProcessPlayerEventAsync for a decoded action, with the coin given. */
    method ProcessPlayerEvent(user: string, action: Action, heads: bool)
      modifies this, base, base.eventDispatcher
      ensures base.eventDispatcher == old(base.eventDispatcher) && base.roomId == old(base.roomId)
      ensures View() == FlipStep(old(View()), old(base.eventDispatcher.connectedPlayers), user, action, heads).0
      ensures Logged(base.eventDispatcher, FlipStep(old(View()), old(base.eventDispatcher.connectedPlayers), user, action, heads).1, [])
    {
      if !isGameActive {
        return;
      }
      match action
      case Malformed(msg) =>
        var sent := base.eventDispatcher.SendToUser(user, Error(msg));
      case OtherAction =>
      case FlipCoin =>
        if currentPlayer != user && currentPlayer != "" {
          var sent := base.eventDispatcher.SendToUser(user, Error("Not your turn"));
          return;
        }
        base.turnCount := base.turnCount + 1;
        currentPlayer := user;
        if heads {
          winner := user;
        } else {
          winner := GetOpponent(user);
        }
        var sent := base.eventDispatcher.Broadcast(CoinFlipResult(heads, winner, base.turnCount));
        var stopped := Stop();
    }
  }

  // ---------------------------------------------------------------- properties

  /** While the game is inactive every event is ignored: no change, no message. */
  lemma InactiveIgnores(v: CoinFlipView, players: seq<string>, user: string, action: Action, heads: bool)
    requires !v.active
    ensures FlipStep(v, players, user, action, heads) == (v, [])
  {
  }

  /**
    A rejected or ignored event changes no field, and sends at most one message, an Error to the
    sender only.  Only an accepted flip changes the game.
  */
  lemma RejectionsChangeNothing(v: CoinFlipView, players: seq<string>, user: string, action: Action, heads: bool)
    requires !(v.active && action == FlipCoin && MayFlip(v, user))
    ensures FlipStep(v, players, user, action, heads).0 == v
    ensures var outs := FlipStep(v, players, user, action, heads).1;
            outs == [] || (|outs| == 1 && outs[0].ToUser? && outs[0].user == user && outs[0].event.Error?)
    ensures v.active && action == FlipCoin ==> FlipStep(v, players, user, action, heads).1 == [ToUser(user, Error("Not your turn"))]
  {
  }

  /**
    An accepted flip counts exactly one turn, makes the flipper the turn owner, names the flipper
    winner on heads and otherwise the first other connected player ("" when there is none),
    announces the result and then the end, and leaves the game inactive.
  */
  lemma AcceptedFlip(v: CoinFlipView, players: seq<string>, user: string, heads: bool)
    requires v.active && MayFlip(v, user)
    ensures var (w, outs) := FlipStep(v, players, user, FlipCoin, heads);
            && w.turnCount == v.turnCount + 1
            && w.current == user
            && !w.active
            && (heads ==> w.winner == user)
            && (!heads ==> w.winner == Opponent(players, user))
            && (!heads ==> (w.winner == "" || (w.winner in players && w.winner != user)))
            && (!heads && (exists p :: p in players && p != user) ==> w.winner in players && w.winner != user)
            && outs == [ToRoom(CoinFlipResult(heads, w.winner, w.turnCount)), ToRoom(GameEnded(w.winner))]
  {
    var w := FlipStep(v, players, user, FlipCoin, heads).0;
    if !heads {
      OpponentIsOther(players, user);
      if exists p :: p in players && p != user {
        var p :| p in players && p != user;
        var i :| 0 <= i < |players| && players[i] == p;
        assert players[i] != user;
      }
    }
  }

  /** The turn counter moves by one on an accepted flip and stays put on any other event. */
  lemma TurnCountMovesOnlyOnAccept(v: CoinFlipView, players: seq<string>, user: string, action: Action, heads: bool)
    ensures FlipStep(v, players, user, action, heads).0.turnCount ==
              v.turnCount + (if v.active && action == FlipCoin && MayFlip(v, user) then 1 else 0)
  {
  }

  /** Once a flip has been accepted the game is over: any later event is ignored. */
  lemma OneFlipPerGame(v: CoinFlipView, players: seq<string>, user: string, heads: bool,
                       players': seq<string>, user': string, action': Action, heads': bool)
    requires v.active && MayFlip(v, user)
    ensures var w := FlipStep(v, players, user, FlipCoin, heads).0;
            FlipStep(w, players', user', action', heads') == (w, [])
  {
  }

  /**
    StartAsync does not clear the turn owner: after a finished game is restarted, only the
    previous flipper may flip, and anyone else is told it is not their turn.
  */
  lemma RestartKeepsTurnOwner(v: CoinFlipView, players: seq<string>, user: string, heads: bool,
                              other: string, players': seq<string>, heads': bool)
    requires v.active && MayFlip(v, user) && user != "" && other != user
    ensures var w := Started(FlipStep(v, players, user, FlipCoin, heads).0);
            && w.active && w.turnCount == 0 && w.current == user
            && FlipStep(w, players', other, FlipCoin, heads') == (w, [ToUser(other, Error("Not your turn"))])
  {
  }
}
