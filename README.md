# Turnbase game cores in Dafny

Turnbase is a server for turn-based games played in rooms. Each room runs one game instance. A
player's message is handed to the instance's `ProcessPlayerEventAsync`. The instance updates its
state and talks back through an event dispatcher, which broadcasts to the room, sends to one user
and saves state snapshots.

This project models three of the game cores:

- **BaseGameInstance** (module `GameBase`) is the lifecycle every game shares: the room id, the
  turn counter reset by `StartAsync`, and the dispatcher. `GameBase` also holds the opponent
  search both games use.
- **CoinFlipGame** (module `CoinFlip`) has a single `FlipCoin` action, guarded by the turn
  owner. An accepted flip counts a turn, decides the winner from the coin, announces it and
  stops the game.
- **BattleshipGame with PlayerBoard**:
  - Module `BoardView` is the board as a value and the specification functions.
  - Module `BoardFacts` holds the board invariant and its lemmas.
  - Module `Board` is the `PlayerBoard` class over a `char` array, proved against `BoardView`.
  - Module `Battleship` is the game as a step function on a `GameView` value, plus the
    `BattleshipGame` class proved against it.
  - Module `BattleshipFacts` holds the game-level properties.
- **ScrabbleRule**:
  - Module `ScrabbleWords` holds the 15 by 15 board and `FindWords`.
  - Module `ScrabbleRule` holds `ValidateMove`, `ApplyMove` and `CalculateScore`.
  - The state is a typed record instead of JSON, with a board of `Option<char>` cells. The
    dictionary is a set of upper-case words given by the caller.

Outbound traffic is typed (module `Events`). The dispatcher is an append-only log of the sends
and of the saved snapshots, plus the connected players in the enumeration order of their table.
Each class method states its new fields and the exact sends it appends, as a function of the old
state (`Logged`).

Two behaviours of the source are worth stating up front:

- `ApplyMove` removes every copy of each placed letter from the mover's rack, not one copy per
  tile. This is the `Where` at Turnbase.Tests/ScrabbleRule.cs:206.
- The CoinFlip game sends no reply to an action other than `FlipCoin`. The test at
  Turnbase.Server/GameLogic/CoinFlipGame.cs:46 has no else branch.

## Model

| member | source | states |
|---|---|---|
| GameBase.BaseGameInstance.constructor | Turnbase.Server/GameLogic/BaseGameInstance.cs:7-14 | a new instance has room id "", turn counter 0 and the given dispatcher |
| GameBase.BaseGameInstance.Start | Turnbase.Server/GameLogic/BaseGameInstance.cs:16-20 | returns true with the turn counter 0; room id and dispatcher kept |
| GameBase.BaseGameInstance.Stop | Turnbase.Server/GameLogic/BaseGameInstance.cs:22-26 | returns true and modifies nothing |
| GameBase.Opponent | Turnbase.Server/GameLogic/CoinFlipGame.cs:82-90 | "" when every connected player is the user; otherwise a connected player other than the user, with only copies of the user before it |
| GameBase.GetOpponent | Turnbase.Server/GameLogic/BattleshipGame.cs:188-196 | the search loop returns the first connected player other than the user, or "" |
| GameBase.OpponentIsOther | Turnbase.Server/GameLogic/CoinFlipGame.cs:82-90 | the opponent is a connected player or "", and is never the user, unless none was found and the user's id is "" |
| CoinFlip.CoinFlipGame.constructor | Turnbase.Server/GameLogic/CoinFlipGame.cs:9-15 | inactive, no turn owner, no winner, counter 0 |
| CoinFlip.CoinFlipGame.Start | Turnbase.Server/GameLogic/CoinFlipGame.cs:17-27 | active with counter 0, turn owner and winner kept, GameStarted broadcast |
| CoinFlip.CoinFlipGame.Stop | Turnbase.Server/GameLogic/CoinFlipGame.cs:29-35 | inactive; GameEnded with the winner broadcast |
| CoinFlip.CoinFlipGame.GetOpponent | Turnbase.Server/GameLogic/CoinFlipGame.cs:82-90 | the opponent among the dispatcher's connected players |
| CoinFlip.CoinFlipGame.ProcessPlayerEvent | Turnbase.Server/GameLogic/CoinFlipGame.cs:37-80 | the new fields and the appended sends are those of the step function, for the given coin |
| CoinFlip.InactiveIgnores | Turnbase.Server/GameLogic/CoinFlipGame.cs:39 | while inactive, any event changes nothing and sends nothing |
| CoinFlip.RejectionsChangeNothing | Turnbase.Server/GameLogic/CoinFlipGame.cs:46-53 | an event that is not an accepted flip changes no field and sends at most one Error, to the sender; a flip out of turn gets "Not your turn" |
| CoinFlip.AcceptedFlip | Turnbase.Server/GameLogic/CoinFlipGame.cs:55-72 | an accepted flip counts one turn, makes the flipper turn owner, picks the winner (the flipper on heads, else the first other connected player or ""), broadcasts the result and then the end, and leaves the game inactive |
| CoinFlip.TurnCountMovesOnlyOnAccept | Turnbase.Server/GameLogic/CoinFlipGame.cs:55 | the counter moves by exactly one on an accepted flip and never otherwise |
| CoinFlip.OneFlipPerGame | Turnbase.Server/GameLogic/CoinFlipGame.cs:71-72 | after an accepted flip every later event is ignored |
| CoinFlip.RestartKeepsTurnOwner | Turnbase.Server/GameLogic/CoinFlipGame.cs:17-27 | a restart does not clear the turn owner, so anyone but the last flipper is told it is not their turn |
| Board.FindShip | Turnbase.Server/GameLogic/BattleshipGame.cs:275-282 | the first ship, in placement order, occupying the cell |
| Board.FindSunk | Turnbase.Server/GameLogic/BattleshipGame.cs:290-303 | the first ship on the cell whose hits equal its size, or "" |
| Board.PlayerBoard.constructor | Turnbase.Server/GameLogic/BattleshipGame.cs:208-232 | a size by size grid with every cell ' ', no ship placed; the board invariant holds |
| Board.PlayerBoard.ScanShip | Turnbase.Server/GameLogic/BattleshipGame.cs:242-251 | the checking loop's verdict cell by cell, and the cells walked |
| Board.PlayerBoard.PlaceShip | Turnbase.Server/GameLogic/BattleshipGame.cs:234-262 | outcome and new board equal the placement specification; the board invariant is kept |
| Board.PlayerBoard.PlaceShipCells | Turnbase.Server/GameLogic/BattleshipGame.cs:236-261 | the type checks, the scan, and only then the write |
| Board.PlayerBoard.PaintShip | Turnbase.Server/GameLogic/BattleshipGame.cs:254-257 | exactly the ship's cells become 'S' |
| Board.PlayerBoard.RecordShip | Turnbase.Server/GameLogic/BattleshipGame.cs:254-259 | cells painted, positions recorded, hits 0, ship last in table order |
| Board.PlayerBoard.Mark | Turnbase.Server/GameLogic/BattleshipGame.cs:270 | exactly one cell changes |
| Board.PlayerBoard.RecordHit | Turnbase.Server/GameLogic/BattleshipGame.cs:272-283 | one more hit for the first ship occupying the cell, no other table changes |
| Board.PlayerBoard.Attack | Turnbase.Server/GameLogic/BattleshipGame.cs:264-286 | result and new board equal the attack specification; the board invariant is kept |
| Board.PlayerBoard.AttackCell | Turnbase.Server/GameLogic/BattleshipGame.cs:266-285 | the body of Attack against the specification |
| Board.PlayerBoard.GetSunkShip | Turnbase.Server/GameLogic/BattleshipGame.cs:288-304 | a non-empty name exactly when some ship on the cell has hits equal to its size |
| Board.PlayerBoard.AllShipsPlaced | Turnbase.Server/GameLogic/BattleshipGame.cs:306-309 | with distinct types, true exactly when every type is placed |
| Board.PlayerBoard.AllShipsSunk | Turnbase.Server/GameLogic/BattleshipGame.cs:311-314 | true exactly when no cell of the grid is still 'S' |
| Board.PlayerBoard.Serialize | Turnbase.Server/GameLogic/BattleshipGame.cs:316-325 | on a valid board, the snapshot's size is the grid's, its position and hit tables have the same ships as keys, and each ship is a known type with as many cells as its size and between 0 and that many hits |
| BoardView.ShipCells | Turnbase.Server/GameLogic/BattleshipGame.cs:242-246 | the i-th cell is the start moved i along x when horizontal, else along y |
| BoardView.FirstCovering | Turnbase.Server/GameLogic/BattleshipGame.cs:275-282 | a found ship occupies the cell; none found means no placed ship does |
| BoardView.FirstSunk | Turnbase.Server/GameLogic/BattleshipGame.cs:290-303 | the result is "" or a placed ship on the cell with hits equal to its size; "" means no such ship |
| BoardFacts.EmptyBoardInv | Turnbase.Server/GameLogic/BattleshipGame.cs:220-231 | a new board satisfies the invariant and every cell is ' ' |
| BoardFacts.ScanMeaning | Turnbase.Server/GameLogic/BattleshipGame.cs:242-251 | the loop lets a ship through exactly when all its cells are on the board and ' '; it throws only at a negative coordinate |
| BoardFacts.PlaceShipRejected | Turnbase.Server/GameLogic/BattleshipGame.cs:236-248 | a rejected placement leaves the board unchanged; the exception needs a negative start |
| BoardFacts.PlaceShipAccepted | Turnbase.Server/GameLogic/BattleshipGame.cs:234-262 | placement succeeds exactly when the type is non-empty, known and unplaced and every cell is on the board and empty; then exactly those cells become 'S', positions recorded, hits 0 |
| BoardFacts.PlaceShipKeepsInv | Turnbase.Server/GameLogic/BattleshipGame.cs:234-262 | placement keeps the board invariant (ships disjoint, on the board, 'S'/'H' exactly on ship cells, hits = 'H' cells) |
| BoardFacts.AttackOutcome | Turnbase.Server/GameLogic/BattleshipGame.cs:264-286 | an illegal attack changes nothing and misses; a legal one changes exactly one cell, 'S' to 'H' (hit) or else to 'M', and a hit adds one to the count of the ship on the cell |
| BoardFacts.AttackKeepsInv | Turnbase.Server/GameLogic/BattleshipGame.cs:264-286 | an attack keeps the board invariant |
| BoardFacts.HitsBounded | Turnbase.Server/GameLogic/BattleshipGame.cs:279 | a ship's hit count stays between 0 and its size |
| BoardFacts.SunkIffAllHit | Turnbase.Server/GameLogic/BattleshipGame.cs:296 | hits equal size exactly when every cell of the ship is 'H' |
| BoardFacts.SummaryMeaning | Turnbase.Server/GameLogic/BattleshipGame.cs:316-325 | the saved tables have the same ships as keys, each a known type with as many cells as its size and between 0 and that many hits, and every ship cell lies on the board marked 'S' or 'H' |
| BoardFacts.SunkShipMeaning | Turnbase.Server/GameLogic/BattleshipGame.cs:288-304 | GetSunkShip names a ship exactly when a ship on the cell is sunk, and then names that ship |
| BoardFacts.AllPlacedMeaning | Turnbase.Server/GameLogic/BattleshipGame.cs:306-309 | with distinct types, the count test holds exactly when every type is placed |
| BoardFacts.AllSunkMeaning | Turnbase.Server/GameLogic/BattleshipGame.cs:311-314 | all sunk exactly when no 'S' is left; vacuously true with no ship placed |
| Battleship.EmptyBoardsMeaning | Turnbase.Server/GameLogic/BattleshipGame.cs:34-43 | the table built has exactly the connected players as keys, each with an empty 10 by 10 board of the five types |
| Battleship.PlacementKeepsInv | Turnbase.Server/GameLogic/BattleshipGame.cs:95-96 | placing on one board keeps every board valid and standard |
| Battleship.AttackingKeepsInv | Turnbase.Server/GameLogic/BattleshipGame.cs:143-144 | attacking one board keeps every board valid and standard |
| Battleship.BattleshipGame.constructor | Turnbase.Server/GameLogic/BattleshipGame.cs:11-28 | inactive, no turn owner, no winner, counter 0, no boards |
| Battleship.BattleshipGame.Start | Turnbase.Server/GameLogic/BattleshipGame.cs:30-50 | active, counter 0, a fresh board per connected player, turn owner and winner kept, GameStarted broadcast |
| Battleship.BattleshipGame.Stop | Turnbase.Server/GameLogic/BattleshipGame.cs:52-70 | inactive; GameEnded broadcast and the final state saved |
| Battleship.BattleshipGame.GetOpponent | Turnbase.Server/GameLogic/BattleshipGame.cs:188-196 | the opponent among the connected players |
| Battleship.BattleshipGame.PlaceShipAction | Turnbase.Server/GameLogic/BattleshipGame.cs:81-121 | new fields and sends are those of the placement step; the game invariant is kept |
| Battleship.BattleshipGame.Placed | Turnbase.Server/GameLogic/BattleshipGame.cs:97-114 | ShipPlaced, then PlayerReady when the board is complete, then AttackPhaseStarted with the first connected player as turn owner when every board is |
| Battleship.BattleshipGame.AttackAction | Turnbase.Server/GameLogic/BattleshipGame.cs:122-174 | new fields, sends and saved snapshots are those of the attack step |
| Battleship.BattleshipGame.Attacked | Turnbase.Server/GameLogic/BattleshipGame.cs:142-173 | counter up one, result broadcast, turn to the opponent; stop with the attacker as winner when the opponent is all sunk, else TurnChanged |
| Battleship.BattleshipGame.ProcessPlayerEvent | Turnbase.Server/GameLogic/BattleshipGame.cs:72-186 | new fields, sends and snapshots are those of the step function; the game invariant is kept |
| BattleshipFacts.InactiveIgnores | Turnbase.Server/GameLogic/BattleshipGame.cs:74 | while inactive every event is ignored |
| BattleshipFacts.RejectionsChangeNothing | Turnbase.Server/GameLogic/BattleshipGame.cs:88-93 | an action that is not accepted changes nothing, saves nothing and sends exactly one Error to the sender ("Invalid action", "Not your turn" among them) |
| BattleshipFacts.AcceptedAttack | Turnbase.Server/GameLogic/BattleshipGame.cs:131-173 | an accepted attack counts one turn even when it misses or is repeated, hands the turn to the opponent, changes only the opponent's board, and makes the attacker winner and stops the game exactly when the opponent is all sunk |
| BattleshipFacts.VacuousWin | Turnbase.Server/GameLogic/BattleshipGame.cs:164-168 | attacking an opponent who placed no ship wins at once |
| BattleshipFacts.AcceptedPlacement | Turnbase.Server/GameLogic/BattleshipGame.cs:96-114 | an accepted placement changes only the sender's board, keeps counter, winner and active flag, announces the ship, and gives the first turn to the first connected player once every board is complete |
| BattleshipFacts.TurnCountMovesOnlyOnAttack | Turnbase.Server/GameLogic/BattleshipGame.cs:142 | the counter moves by one on an accepted attack and never otherwise |
| BattleshipFacts.StepKeepsGameInv | Turnbase.Server/GameLogic/BattleshipGame.cs:72-186 | every step keeps every board valid and keeps the set of players with boards |
| BattleshipFacts.StartedInv | Turnbase.Server/GameLogic/BattleshipGame.cs:30-43 | start gives an active game, counter 0, an empty board for each connected player and no one else |
| BattleshipFacts.HitsStayBounded | Turnbase.Server/GameLogic/BattleshipGame.cs:279 | no ship on any board has more hits than its size |
| ScrabbleWords.SetCell | Turnbase.Tests/ScrabbleRule.cs:179 | one cell written, every other cell kept |
| ScrabbleWords.PlaceEffect | Turnbase.Tests/ScrabbleRule.cs:176-179 | cells no tile targets keep their content; a targeted cell holds the letter of the last tile placed on it |
| ScrabbleWords.Line | Turnbase.Tests/ScrabbleRule.cs:73-80 | the row or column as a line of cells |
| ScrabbleWords.RunStart | Turnbase.Tests/ScrabbleRule.cs:72-74 | the run start: occupied cells up to the index, an empty cell or the edge before it |
| ScrabbleWords.RunEnd | Turnbase.Tests/ScrabbleRule.cs:75-77 | the run end: occupied cells from the index, an empty cell or the edge after it |
| ScrabbleWords.LettersOfRun | Turnbase.Tests/ScrabbleRule.cs:78-80 | over occupied cells the word spells exactly those cells |
| ScrabbleWords.LettersLength | Turnbase.Tests/ScrabbleRule.cs:78-80 | an empty cell in the span makes the word shorter than the span: gaps are skipped |
| ScrabbleWords.MinAlong | Turnbase.Tests/ScrabbleRule.cs:69 | the least position of the tiles along the play line |
| ScrabbleWords.MaxAlong | Turnbase.Tests/ScrabbleRule.cs:70 | the greatest position of the tiles along the play line |
| ScrabbleWords.CrossWordsMembers | Turnbase.Tests/ScrabbleRule.cs:83-99 | the perpendicular words are exactly those through a tile longer than one letter |
| ScrabbleWords.Dedup | Turnbase.Tests/ScrabbleRule.cs:100 | same members, no repetition |
| ScrabbleWords.WordsFormedMembers | Turnbase.Tests/ScrabbleRule.cs:61-101 | no repeated word, every word longer than one letter, nothing off one line, and exactly the main word and the perpendicular words otherwise |
| ScrabbleWords.MainWordMaximal | Turnbase.Tests/ScrabbleRule.cs:68-77 | the main word spans every tile and is bounded by empty cells or the edge |
| ScrabbleWords.ExtendBack | Turnbase.Tests/ScrabbleRule.cs:72-74 | the backward extension loop reaches the run start |
| ScrabbleWords.ExtendForward | Turnbase.Tests/ScrabbleRule.cs:75-77 | the forward extension loop reaches the run end |
| ScrabbleWords.Spell | Turnbase.Tests/ScrabbleRule.cs:78-80 | the concatenation loop spells the letters of the span |
| ScrabbleWords.PerpendicularWord | Turnbase.Tests/ScrabbleRule.cs:85-98 | the perpendicular word through one tile |
| ScrabbleWords.PerpendicularWords | Turnbase.Tests/ScrabbleRule.cs:83-99 | the perpendicular words longer than one letter, tile by tile |
| ScrabbleWords.PlayLineWord | Turnbase.Tests/ScrabbleRule.cs:68-80 | the main word along the play line |
| ScrabbleWords.FindWords | Turnbase.Tests/ScrabbleRule.cs:61-101 | the words formed (see WordsFormedMembers) |
| ScrabbleRule.RemoveFirst | Turnbase.Tests/ScrabbleRule.cs:147 | removes one copy of a held letter, leaves a rack without it unchanged |
| ScrabbleRule.TileChecksPass | Turnbase.Tests/ScrabbleRule.cs:144-162 | the per-tile checks pass exactly when all tiles are on the board on cells empty before the move and the rack holds the letters with multiplicity |
| ScrabbleRule.DuplicateCellPasses | Turnbase.Tests/ScrabbleRule.cs:157 | two tiles on the same empty cell both pass the occupancy check |
| ScrabbleRule.FirstUnknown | Turnbase.Tests/ScrabbleRule.cs:186-193 | none found exactly when every upper-cased word is in the dictionary; a found word is one that is not |
| ScrabbleRule.ValidateAccepts | Turnbase.Tests/ScrabbleRule.cs:124-195 | a move is accepted exactly when it is the current player's, non-empty, on the board on empty cells, held by the rack, on one line, connected, forms a word, and every word is in the dictionary |
| ScrabbleRule.ValidateCheckOrder | Turnbase.Tests/ScrabbleRule.cs:134-175 | turn checked first, then non-empty, both on any state (no rack or board needed), and a first move off the centre is rejected for that |
| ScrabbleRule.IsConnected | Turnbase.Tests/ScrabbleRule.cs:104-122 | first move: some tile at (7, 7); later: some tile has an occupied in-bounds 4-neighbour |
| ScrabbleRule.Simulate | Turnbase.Tests/ScrabbleRule.cs:177-179 | the copy with every tile written in order |
| ScrabbleRule.CheckTiles | Turnbase.Tests/ScrabbleRule.cs:144-162 | the per-tile loop's verdict on a shrinking copy of the rack |
| ScrabbleRule.LookUp | Turnbase.Tests/ScrabbleRule.cs:186-193 | the first word missing from the dictionary |
| ScrabbleRule.ValidateMove | Turnbase.Tests/ScrabbleRule.cs:124-195 | the verdict of the ordered checks, the state untouched |
| ScrabbleRule.StripKeeps | Turnbase.Tests/ScrabbleRule.cs:203-207 | stripping removes every copy of every placed letter and keeps the other letters in order |
| ScrabbleRule.KeepCounts | Turnbase.Tests/ScrabbleRule.cs:206 | a placed letter's count drops to 0, other counts are unchanged |
| ScrabbleRule.DrawCount | Turnbase.Tests/ScrabbleRule.cs:218-222 | the number of tiles drawn is between 0 and the bag size |
| ScrabbleRule.IndexOf | Turnbase.Tests/ScrabbleRule.cs:224 | the first position of the player in the order, or -1 exactly when absent |
| ScrabbleRule.Credit | Turnbase.Tests/ScrabbleRule.cs:213-215 | the mover's score grows by the delta, starting from 0 when absent; other scores kept |
| ScrabbleRule.PlaceTiles | Turnbase.Tests/ScrabbleRule.cs:203-207 | the placing loop writes the tiles and strips the rack |
| ScrabbleRule.ScoreWords | Turnbase.Tests/ScrabbleRule.cs:210-212 | the scoring loop sums the letter values of the words |
| ScrabbleRule.ApplyMove | Turnbase.Tests/ScrabbleRule.cs:197-228 | the state after the move (board, racks, scores, bag, turn, first-move flag) |
| ScrabbleRule.ApplyBoard | Turnbase.Tests/ScrabbleRule.cs:203-207 | only targeted cells change and each becomes occupied |
| ScrabbleRule.AcceptedKeepsOccupied | Turnbase.Tests/ScrabbleRule.cs:157-161 | after a move ValidateMove accepts, no cell occupied before is overwritten |
| ScrabbleRule.ApplyRackAndBag | Turnbase.Tests/ScrabbleRule.cs:206-222 | the new rack starts with the old rack minus every copy of each placed letter, in order; the new rack followed by the new bag is that stripped rack followed by the old bag; the rack is refilled up to 7; other racks are unchanged |
| ScrabbleRule.DrawConserves | Turnbase.Tests/ScrabbleRule.cs:217-222 | drawing moves tiles from the front of the bag to the end of the rack, up to 7 in all, and loses none |
| ScrabbleRule.ApplyScore | Turnbase.Tests/ScrabbleRule.cs:208-215 | the mover's score grows by the letter values of the words formed and never falls; other scores are unchanged |
| ScrabbleRule.NextPlayerFollows | Turnbase.Tests/ScrabbleRule.cs:224-225 | the next player follows the current one cyclically, and is the first entry when the current player is absent |
| ScrabbleRule.ApplyTurn | Turnbase.Tests/ScrabbleRule.cs:223-226 | the turn passes to the next player in the order; the first-move flag is cleared |
| ScrabbleRule.ApplyWellFormed | Turnbase.Tests/ScrabbleRule.cs:197-228 | a well-formed state stays well-formed |
| ScrabbleRule.CalculateScore | Turnbase.Tests/ScrabbleRule.cs:230-235 | the stored score, or 0 for a player without one (see ApplyScore) |

## Left out

- Decoding of JSON payloads (`JsonConvert`, `JsonSerializer`, `dynamic`) is not modelled. Actions
  and states are typed datatypes. A payload that fails to decode is the `Malformed` action, whose
  message is sent back as an Error.
- A null connected-player table is not modelled. The dispatcher always has a table of connected
  players, possibly empty. When the source's table is null, StartAsync builds no boards but still
  announces the start (Turnbase.Server/GameLogic/BattleshipGame.cs:37). Every placement is then answered "Player not found
  in game", and the opponent search of an attack dereferences the null table.
- Missing fields in a decoded Battleship action are not modelled. The source's defaults (0, -1,
  false) are simply values of the typed action.
- Null states and moves in the Scrabble rule (`state == null`) are not modelled; the typed record
  cannot be null.
- Loading the Scrabble dictionary from a file is I/O. The dictionary is a parameter.
- Randomness is not modelled: the coin is a parameter of the CoinFlip step.
- Async/await and concurrent calls into one instance are not modelled; every operation runs to
  completion in sequence.
- The dispatcher implementations, SignalR transport, the hub, persistence and bootstrap are not
  part of this model. The dispatcher is an append-only log.
- JSON texts, including key order and formatting, are not modelled; events and snapshots are
  typed values.
- Battleship.BattleshipGame: keeps each player's board as a `BoardView` value rather than a
  reference to a `PlayerBoard` object. In-place update of the shared board object and aliasing
  between the game and its boards are not modelled at game level. `PlayerBoard` itself is
  modelled in place, over an array.
- Board.PlayerBoard.constructor: the optional `shipSizes` argument is not modelled; every board
  uses the default size table, which is the one the game passes.
- A null ship type in a placement is modelled as "", which the source rejects in the same way.
- The 64-bit `TurnCount` and 32-bit coordinates are unbounded integers; overflow is not modelled.
- Scrabble letters are single characters, where the source uses strings. Upper-casing is ASCII
  only: `ToUpper` and `ToUpperInvariant` on other characters are not modelled.
- ScrabbleRule.ValidateMove: requires a 15 by 15 board and a rack for the current player only
  when the move is the current player's and places a tile. The turn and empty-move checks come
  first and need neither. Past them the source reads the mover's rack, and throws when it is
  missing. Boards of any other shape are not modelled: a board with fewer cells makes the source
  throw, while a larger one does not.
- ScrabbleRule.ApplyMove: requires a 15 by 15 board, a non-empty turn order, a rack for the mover
  and at least one tile, each on the board. A missing rack, an empty turn order, an empty move
  (FindWords reads the first tile) or a tile off the board makes the source throw; its caller
  validates the move first. Boards of any other shape are not modelled: a board with fewer cells makes the
  source throw, while a larger one does not.
- ScrabbleWords.FindWords: requires at least one tile; the source calls it only after rejecting an
  empty move.
