/**
  The lifecycle every game instance shares (BaseGameInstance): the room id, the turn counter and
  the dispatcher, plus the opponent search both games perform over the connected players.
*/
module GameBase {
  import opened Events

  class BaseGameInstance {
    var roomId: string
    var turnCount: int
    var eventDispatcher: EventDispatcher

    /** A new instance: empty room id, turn counter 0, the given dispatcher. */
    constructor (eventDispatcher: EventDispatcher)
      ensures roomId == "" && turnCount == 0 && this.eventDispatcher == eventDispatcher
    {
      roomId := "";
      turnCount := 0;
      this.eventDispatcher := eventDispatcher;
    }

    /** StartAsync: resets the turn counter. */
    method Start() returns (ok: bool)
      modifies this
      ensures ok && turnCount == 0
      ensures roomId == old(roomId) && eventDispatcher == old(eventDispatcher)
    {
      turnCount := 0;
      ok := true;
    }

    /** StopAsync: changes nothing. */
    method Stop() returns (ok: bool)
      ensures ok
    {
      ok := true;
    }
  }

  /**
    GetOpponent: the first connected player other than `user`, or "" when every connected player
    is `user`.
  */
  function Opponent(players: seq<string>, user: string): (o: string)
    ensures (forall i :: 0 <= i < |players| ==> players[i] == user) ==> o == ""
    ensures (exists i :: 0 <= i < |players| && players[i] != user) ==>
              exists i :: 0 <= i < |players| && players[i] == o && o != user &&
                          forall j :: 0 <= j < i ==> players[j] == user
    decreases |players|
  {
    if players == [] then ""
    else if players[0] != user then players[0]
    else
      var rest := players[1..];
      var o := Opponent(rest, user);
      assert forall i :: 1 <= i < |players| ==> players[i] == rest[i - 1];
      if exists i :: 0 <= i < |players| && players[i] != user then
        var k :| 0 <= k < |rest| && rest[k] == o && o != user && forall j :: 0 <= j < k ==> rest[j] == user;
        assert players[k + 1] == o;
        o
      else
        o
  }

  /** The search loop of GetOpponent. */
  method GetOpponent(players: seq<string>, user: string) returns (o: string)
    ensures o == Opponent(players, user)
  {
    for k := 0 to |players|
      invariant Opponent(players, user) == Opponent(players[k..], user)
    {
      assert players[k..][1..] == players[k + 1..];
      if players[k] != user {
        return players[k];
      }
    }
    return "";
  }

  /** The opponent is never the user itself, unless none was found and the user's id is "". */
  lemma OpponentIsOther(players: seq<string>, user: string)
    ensures Opponent(players, user) != user || (user == "" && forall p :: p in players ==> p == user)
    ensures Opponent(players, user) == "" || Opponent(players, user) in players
  {
    if exists i :: 0 <= i < |players| && players[i] != user {
    } else {
      assert forall p :: p in players ==> p == user;
    }
  }
}
