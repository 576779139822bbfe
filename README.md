# Fiery Dragons: the game-state machine, in Dafny

Fiery Dragons is a JavaFX board game. Two to four dragons start in their caves around a ring of volcano tiles. Each turn, the current player turns over a face-down dragon card, and the card moves them along the ring. This project models the bookkeeping under the drawing code:

- **The board** (`GameBoard`):
  - the ring of `3 · volcanoCardNum` tiles, with slot 0 standing for "in a cave";
  - the occupation flags, one per tile;
  - the players' records and the round-robin turn;
  - the click-to-move path through the two card actions, cut into steps.
- **The players** (`PlayerController`) and **the turn counter** (`TurnController`), each a class whose methods update its fields.
- **The dragon cards** (`CardController`, `BasicCardController`, `SpecialCardController`, `CardFactory`):
  - the face-up flag and the image shown;
  - the shared "transition active" lock;
  - the flip chain;
  - the delegate call a finished flip makes.
- **The save format**:
  - the `key=value` lines `SaveHandler` writes and parses;
  - the keys each object's `invokeSave` writes;
  - the values the loading constructor of `GameBoard` reads back.
- **Configuration**:
  - the fixed deck, tile list and cave list of `BasicGameMode`;
  - the cave selection and the starting turn;
  - the clamped counters of `MainMenuUI`.

The movement rules are also written as functions of the board's values, in module `Rules`:

- `PlannedMove` says where a card sends the mover.
- `ApplyCard` says what `handleCardAction` does to the board.
- `ScanPlayers` and `ApplySwap` say what `handleSwapCardAction` does.

The model proves properties of these functions. One is that every branch keeps the occupation invariant: a ring tile is flagged exactly when a player stands on it, and no two players share a ring tile. The `GameBoard` methods are proved to change the objects exactly as these functions say.

The save format is proved to round-trip in two steps:

1. The entries a board saves load back as the same board. The one exception is `currentCaveID`, which the loader rebuilds as the list index.
2. For a clean map, loading the text `save` writes gives the map back.

Java's `int` arithmetic is written out where the game's own values can reach its limits:

- the 32-bit wrap of `volcanoCardCount * 3` read from a save (`BoardSaves.TileNum`), of `currentPlayer - 1` on loading (`GameModes.StartingPlayer`) and of the menu counters' step (`MainMenu.Clamp`);
- `%`, integer `/` and `Math.floorMod`;
- the ranges `Integer.parseInt` accepts.

The `tilesLeft` sums of a move, a bump and a swap are kept unbounded; "## Left out" names the members.

Other choices, in Java's terms:

- Java's `null` and the exceptions a malformed save throws become `None`.
- The getters of `PlayerController` and `VolcanoCard` are functions, so they cannot change state.
- The `path.getElements().size() > 0` test of `handleCardAction` becomes the flag "the card moved the player".

The animation callbacks run synchronously, in the order the source chains them. That covers the win check at the end of a move and the rotate → half-flip → rotate → pause chain of a card flip.

One quirk is proved as written: `goesFoward` is never cleared once set. `ForwardFlagSticks` exhibits a board where the chosen player lies backward while the flag says forward. The model keeps the source's behaviour there. A second quirk is kept as written: on a backward lap wrap of a swap, `GameBoard.java:764` computes the chosen player's `tilesLeft` from the mover's already-updated count, so the chosen player ends with the mover's old `tilesLeft` plus the ring length (`Rules.SwapWith` states it).

## Model

| member | source | states |
|---|---|---|
| Board.GameBoard.constructor | Game/app/src/main/java/com/fierydragon/components/level/GameBoard.java:77-159 | The ring has `3·volcanoCardNum + 1` slots. Slot 0 is empty and slot `t` holds the tile type the shuffle put there. Slots `3k+1..3k+3` are volcano card `k`'s triple. No tile is flagged and every card is face-down. Player `i` waits in its cave on the cave's type, on cave tile `i·caveSpacing + 1`, with `caveSpacing = N div caveCount` and `tilesLeft = N + 1`. Card `k` is deck entry `cardOrder[k]`. The board is valid and coherent. |
| Board.GameBoard.Load | Game/app/src/main/java/com/fierydragon/components/level/GameBoard.java:168-256 | The loaded board holds the caves, volcano cards, player fields and card states that `LoadBoard` reads, and `caveSpacing` is the tile count divided by the cave count. The ring is the volcano cards' tiles in order after slot 0. The flags are set exactly for the tiles players stand on. Cards saved face-up are flipped over. It is valid when the turn and the cave tiles fit the saved counts. |
| Board.GameBoard.NextTurn | Game/app/src/main/java/com/fierydragon/components/level/GameBoard.java:526-535 | The turn moves to `(turn + 1) mod playerCount`, and every dragon card ends face-down. |
| Board.GameBoard.CanMove | Game/app/src/main/java/com/fierydragon/components/level/GameBoard.java:543-545 | Returns the tile's flag, which on a coherent board says whether a player stands on that ring tile. |
| Board.GameBoard.FindOccupant | Game/app/src/main/java/com/fierydragon/components/level/GameBoard.java:630-636 | Finds the first player in list order standing on the tile, and finds nobody only when no player does. |
| Board.GameBoard.ComputeMove | Game/app/src/main/java/com/fierydragon/components/level/GameBoard.java:556-621 | The target and the steps it computes are `PlannedMove` of the current player's fields. |
| Board.GameBoard.MoveMover | Game/app/src/main/java/com/fierydragon/components/level/GameBoard.java:681-683 | The mover takes the target tile and its type and spends the steps. No other player changes. |
| Board.GameBoard.Bump | Game/app/src/main/java/com/fierydragon/components/level/GameBoard.java:638-648 | The mover takes the target. The player found there goes back to the mover's old tile and type and gains the steps. Both tiles are flagged. |
| Board.GameBoard.HandleCardAction | Game/app/src/main/java/com/fierydragon/components/level/GameBoard.java:553-705 | Flags, players and the win signal are exactly `ApplyCard` of the old state. When the rules say the turn passes, it moves to the next player and every card is face-down; otherwise the turn and the cards stay. The occupation invariant is preserved. |
| Board.GameBoard.PlayMove | Game/app/src/main/java/com/fierydragon/components/level/GameBoard.java:623-701 | Once the target is known, the new state is `ApplyMoveTo`: onto a free tile, or onto a flagged one. |
| Board.GameBoard.PlayOntoOccupied | Game/app/src/main/java/com/fierydragon/components/level/GameBoard.java:624-679 | A move onto a flagged tile has three outcomes. From the cave, only the turn passes. With nobody found there, nothing at all changes. Otherwise the bump happens and the turn passes. |
| Board.GameBoard.BumpAndPass | Game/app/src/main/java/com/fierydragon/components/level/GameBoard.java:638-676 | After the bump the players are `Bumped`, both tiles are flagged, the win signal is the mover's `tilesLeft == 0`, and the turn passes. |
| Board.GameBoard.FindSwapTarget | Game/app/src/main/java/com/fierydragon/components/level/GameBoard.java:713-748 | Its search loop, with the `Integer.MAX_VALUE` sentinel replaced by "none yet", computes `ScanPlayers`: the chosen player, its distance and the `goesFoward` flag. |
| Board.GameBoard.SwapPlayers | Game/app/src/main/java/com/fierydragon/components/level/GameBoard.java:750-788 | The two players' fields become `SwapWith`. That covers the `tilesLeft` adjustment of either branch, with its lap wrap, and the exchange of types and tiles. A mover leaving its cave hands over its cave tile and cave ID. |
| Board.GameBoard.SwapIfFound | Game/app/src/main/java/com/fierydragon/components/level/GameBoard.java:750-788 | With a chosen player the state is `ApplySwap`; with none, nothing changes. |
| Board.GameBoard.SwapTurnPlayer | Game/app/src/main/java/com/fierydragon/components/level/GameBoard.java:715-788 | The current player's swap, measured from its tile or, in the cave, from its cave tile: the state `ApplySwap` describes. |
| Board.GameBoard.HandleSwapCardAction | Game/app/src/main/java/com/fierydragon/components/level/GameBoard.java:712-834 | The players become `ApplySwap`. The flags are never written, yet stay in step with the players. The turn always passes and every card ends face-down. |
| Board.GameBoard.PlayCard | Game/app/src/main/java/com/fierydragon/components/level/object/CardController.java:133-140 | A click follows through to the board. A flip starts exactly on a primary click of a face-down card while no flip runs; any other click changes nothing, the cards' faces included. A basic card ends in `ApplyCard` of its type and value. When the turn passes every card ends face-down; otherwise only the played card has turned face-up. A special card ends in `ApplySwap` with the turn passed and every card face-down. The lock is free afterwards and the invariant is kept. |
| Board.GameBoard.Dispatch | Game/app/src/main/java/com/fierydragon/components/level/object/BasicCardController.java:31-36 | The delegate call is carried out. `CardAction` runs as `handleCardAction`, giving the `ApplyCard` state: every card ends face-down when the turn passes, and no card turns over otherwise. `SwapAction` runs as `handleSwapCardAction`, giving the `ApplySwap` state with every card face-down. |
| Board.GameBoard.InvokeSave | Game/app/src/main/java/com/fierydragon/components/level/GameBoard.java:856-878 | The map after saving is the old one with `BoardEntries` of the board put in order: the four counters (`currentPlayer` is turn + 1), then the volcano cards, caves, players and cards under numbered prefixes. |
| Board.GameBoard.SaveHeader | Game/app/src/main/java/com/fierydragon/components/level/GameBoard.java:857-860 | Puts `playerCount`, `currentPlayer = turn + 1`, `volcanoCardCount` and `cardCount`, in that order. |
| Board.GameBoard.SaveVolcanoCards | Game/app/src/main/java/com/fierydragon/components/level/GameBoard.java:862-864 | Each volcano card's block goes in under `volcanoCard<i+1>`, in list order. |
| Board.GameBoard.SaveCaves | Game/app/src/main/java/com/fierydragon/components/level/GameBoard.java:866-869 | Each cave's type goes in under `cave<i+1>`, in list order. |
| Board.GameBoard.SavePlayers | Game/app/src/main/java/com/fierydragon/components/level/GameBoard.java:871-873 | Each player's four entries go in under `player<i+1>`, in list order. |
| Board.GameBoard.SaveCards | Game/app/src/main/java/com/fierydragon/components/level/GameBoard.java:875-877 | Each card's three entries go in under `dragonCard<i+1>`, in list order. |
| Board.ReadBoard | Game/app/src/main/java/com/fierydragon/components/level/GameBoard.java:174-247 | The values read are the ones `LoadBoard` gives, in the loaded shape: caves, one player per cave on the board, and three tiles per volcano card. |
| Board.LayRing | Game/app/src/main/java/com/fierydragon/components/level/GameBoard.java:185-200 | The volcano cards hold the saved triples in order, and tile `j` of card `k` lies on slot `3k + 1 + j` after an empty slot 0. |
| Board.VolcanoCardsFrom | Game/app/src/main/java/com/fierydragon/components/level/GameBoard.java:185-192 | One fresh volcano card per saved triple, in order. |
| Board.LayTiles | Game/app/src/main/java/com/fierydragon/components/level/GameBoard.java:194-200 | The ring is an empty slot 0 followed by every volcano card's tiles, in order. |
| Board.RestorePlayers | Game/app/src/main/java/com/fierydragon/components/level/GameBoard.java:213-231 | The players carry their saved fields, with `currentCaveID` their index. The flags are set exactly for the tiles players stand on, and slot 0 is never flagged. |
| Board.RestoreDeck | Game/app/src/main/java/com/fierydragon/components/level/GameBoard.java:233-247 | The cards carry the saved type, value and face-up flag. Each comes from the factory (special exactly for SWAP) and shows the image its flag says. |
| Board.RepeatTypes | Game/app/src/main/java/com/fierydragon/components/level/GameBoard.java:93-96 | Slot `k` of the `tileNum` tiles is tile type `k mod |tileTypes|`. |
| Board.BuildVolcanoCards | Game/app/src/main/java/com/fierydragon/components/level/GameBoard.java:100-106 | Consecutive triples of the shuffled tiles become the volcano cards, in order. |
| Board.BuildPlayers | Game/app/src/main/java/com/fierydragon/components/level/GameBoard.java:124-128 | Player `i` starts in cave `i` on cave tile `i·spacing + 1`, at tile 0, with `totalTiles + 1` to go. |
| Board.BuildDeck | Game/app/src/main/java/com/fierydragon/components/level/GameBoard.java:145-151 | One face-down card per deck entry, with its type and value. The card is special exactly for SWAP, and all cards share the lock. |
| Board.Shuffled | Game/app/src/main/java/com/fierydragon/components/level/GameBoard.java:97 | The list `Collections.shuffle` leaves: slot `k` holds element `order[k]`, with nothing lost or repeated. |
| Board.CaveTileOnRing | Game/app/src/main/java/com/fierydragon/components/level/GameBoard.java:117-126 | Caves spaced `N div caveCount` apart from tile 1 all lie on the ring `1..N`. |
| Players.PlayerController.constructor | Game/app/src/main/java/com/fierydragon/components/level/object/PlayerController.java:34-41 | A new player is at tile 0 on its cave's type, with `tilesLeft = totalTiles + 1` and the given cave tile and cave ID. |
| Players.PlayerController.GetCurrentTileID | Game/app/src/main/java/com/fierydragon/components/level/object/PlayerController.java:57-59 | Reports the player state's `currentTileID`. |
| Players.PlayerController.GetCaveTileID | Game/app/src/main/java/com/fierydragon/components/level/object/PlayerController.java:66-68 | Reports the player state's `caveTileID`. |
| Players.PlayerController.GetCurrentCaveID | Game/app/src/main/java/com/fierydragon/components/level/object/PlayerController.java:72 | Reports the player state's `currentCaveID`. |
| Players.PlayerController.GetCurrentTileType | Game/app/src/main/java/com/fierydragon/components/level/object/PlayerController.java:90-92 | Reports the player state's `currentTileType`. |
| Players.PlayerController.GetTilesLeft | Game/app/src/main/java/com/fierydragon/components/level/object/PlayerController.java:108-110 | Reports the player state's `tilesLeft`. |
| Players.PlayerController.SetCurrentTileID | Game/app/src/main/java/com/fierydragon/components/level/object/PlayerController.java:48-50 | Only `currentTileID` changes. |
| Players.PlayerController.SetCaveTileID | Game/app/src/main/java/com/fierydragon/components/level/object/PlayerController.java:70 | Only `caveTileID` changes. |
| Players.PlayerController.SetCurrentCaveID | Game/app/src/main/java/com/fierydragon/components/level/object/PlayerController.java:74 | Only `currentCaveID` changes. |
| Players.PlayerController.SetCurrentTileType | Game/app/src/main/java/com/fierydragon/components/level/object/PlayerController.java:81-83 | Only `currentTileType` changes. |
| Players.PlayerController.SetTilesLeft | Game/app/src/main/java/com/fierydragon/components/level/object/PlayerController.java:99-101 | Only `tilesLeft` changes. |
| Players.PlayerController.InvokeSave | Game/app/src/main/java/com/fierydragon/components/level/object/PlayerController.java:136-141 | Puts exactly `.caveTileID`, `.currentTileID`, `.currentTileType` and `.tilesLeft` under the prefix, in that order. |
| Players.PlayerEntriesShape | Game/app/src/main/java/com/fierydragon/components/level/object/PlayerController.java:136-141 | The four keys are distinct, and `currentCaveID` is not among what is saved. |
| Turns.TurnController.constructor | Game/app/src/main/java/com/fierydragon/components/TurnController.java:20-23 | Starts at the given player, with the given count. |
| Turns.TurnController.Default | Game/app/src/main/java/com/fierydragon/components/TurnController.java:30-32 | Starts at player 0. |
| Turns.TurnController.NextTurn | Game/app/src/main/java/com/fierydragon/components/TurnController.java:46-48 | The turn becomes `(turn + 1) % playerCount`, with Java's remainder, and a valid id stays valid. |
| Turns.TurnController.Reset | Game/app/src/main/java/com/fierydragon/components/TurnController.java:53-55 | The turn is back at player 0 and the player count is the same. |
| Turns.TurnController.GetTurnPlayerID | Game/app/src/main/java/com/fierydragon/components/TurnController.java:39-41 | Reports the turn, from which `nextTurn` stays in range once the turn is in range. |
| Turns.JavaRem | Game/app/src/main/java/com/fierydragon/components/TurnController.java:47 | Java's `%` agrees with the mathematical remainder for a non-negative dividend and positive divisor. |
| Turns.NextId | Game/app/src/main/java/com/fierydragon/components/TurnController.java:47 | `(id + 1) % playerCount` with Java's remainder lies strictly between `-playerCount` and `playerCount`, and is never positive for an id below -1. |
| Turns.NextIdInRange | Game/app/src/main/java/com/fierydragon/components/TurnController.java:46-48 | From a valid id the next is valid: the following player, and the first after the last. |
| Turns.AfterTurnsOffset | Game/app/src/main/java/com/fierydragon/components/TurnController.java:47 | Up to a full round, `k` turns count the id up by `k`, wrapping past the last player once. |
| Turns.FullRound | Game/app/src/main/java/com/fierydragon/components/TurnController.java:47 | `playerCount` turns return to the starting player, and no shorter run does. |
| Cards.CardController.constructor | Game/app/src/main/java/com/fierydragon/components/level/object/CardController.java:59-68 | A new card is face-down and shows its back. Its type, value and kind are fixed from then on. |
| Cards.CardController.FlipBack | Game/app/src/main/java/com/fierydragon/components/level/object/CardController.java:145-148 | The card is face-down and shows its back, whatever its state before. |
| Cards.CardController.FlipOver | Game/app/src/main/java/com/fierydragon/components/level/object/CardController.java:150-153 | The card is face-up and shows its face, whatever its state before. |
| Cards.CardController.CardHalfFlip | Game/app/src/main/java/com/fierydragon/components/level/object/CardController.java:158-168 | The flag turns over; the shown image still matches it. |
| Cards.CardController.HandleCardClicked | Game/app/src/main/java/com/fierydragon/components/level/object/CardController.java:133-140 | A flip starts exactly for a primary click on a face-down card while no flip runs, and that takes the lock. Any other click changes nothing. |
| Cards.CardController.CardFlipped | Game/app/src/main/java/com/fierydragon/components/level/object/BasicCardController.java:31-36 | The delegate call is `CallFor` the card, and the shared lock is released in every case. The card's flag is not touched. |
| Cards.CardController.RunFlip | Game/app/src/main/java/com/fierydragon/components/level/object/CardController.java:82-95 | The flip chain turns the card over, keeps the image matching, releases the lock, and returns the call `CallFor` the new flag. |
| Cards.CardController.InvokeSave | Game/app/src/main/java/com/fierydragon/components/level/object/CardController.java:183-187 | Puts `.cardType`, `.cardValue` and `.flipped` under the prefix, in that order. |
| Cards.CardEntriesShape | Game/app/src/main/java/com/fierydragon/components/level/object/CardController.java:183-187 | The three keys are distinct. |
| Cards.CallFor | Game/app/src/main/java/com/fierydragon/components/level/object/SpecialCardController.java:30-35 | A face-down card calls nothing. A face-up basic card calls `handleCardAction` with its own type and value, and never the swap. A face-up special card calls `handleSwapCardAction`, and never the move. |
| Cards.CreateCardController | Game/app/src/main/java/com/fierydragon/components/level/object/CardFactory.java:22-29 | SWAP yields a special card and every other type a basic one. The type and value are passed on unchanged, and the new card is face-down. |
| Volcano.VolcanoCard.constructor | Game/app/src/main/java/com/fierydragon/components/level/object/VolcanoCard.java:25-27 | The card keeps exactly the tile list it is given. |
| Volcano.VolcanoCard.GetTileTypes | Game/app/src/main/java/com/fierydragon/components/level/object/VolcanoCard.java:36-38 | The whole list agrees with `getTileType`: element `i` is tile `i`, and `getTileType` finds a tile only inside the list. |
| Volcano.VolcanoCard.GetTileType | Game/app/src/main/java/com/fierydragon/components/level/object/VolcanoCard.java:47-52 | Element `i` when `0 <= i < size`, and `null` exactly otherwise. |
| Volcano.VolcanoCard.InvokeSave | Game/app/src/main/java/com/fierydragon/components/level/object/VolcanoCard.java:62-67 | Puts one entry per tile, `prefix.tile1` .. `prefix.tileN`, in list order. |
| Volcano.VolcanoEntries | Game/app/src/main/java/com/fierydragon/components/level/object/VolcanoCard.java:62-67 | Entry `i` is key `prefix.tile<i+1>` with tile `i`'s name, one per tile. |
| Volcano.VolcanoKeysDistinct | Game/app/src/main/java/com/fierydragon/components/level/object/VolcanoCard.java:62-67 | No two tiles share a key. |
| Rules.StayExactly | Game/app/src/main/java/com/fierydragon/components/level/GameBoard.java:561-621 | A card leaves the player in place exactly in three cases: a positive card whose type differs or whose value exceeds `tilesLeft`, a zero card, or a backward card while in the cave. |
| Rules.PlannedMove | Game/app/src/main/java/com/fierydragon/components/level/GameBoard.java:556-621 | A move out of the cave needs a matching positive card and takes one step fewer than its value. A move of a player on the ring takes exactly the card's non-zero value, and a positive value must match. |
| Rules.ForwardPart | Game/app/src/main/java/com/fierydragon/components/level/GameBoard.java:561-605 | The matching-card part either leaves tile and value as they were, or has matched a positive card, lowering the value by one only when leaving the cave. |
| Rules.ExitPart | Game/app/src/main/java/com/fierydragon/components/level/GameBoard.java:562-571 | Leaving the cave happens only from tile 0 with a matching card: counting starts at `caveTileID` with one step used. Otherwise tile and value are unchanged. |
| Rules.RingPositionNear | Game/app/src/main/java/com/fierydragon/components/level/GameBoard.java:594-616 | Subtracting `N` once past the end, or adding it once at or below 0, is the ring position `steps` away. |
| Rules.MoveLandsOnRing | Game/app/src/main/java/com/fierydragon/components/level/GameBoard.java:562-621 | Every move ends on the ring or at home. The target is the ring position `steps` from the cave tile for a cave exit, which spends one step first, or from the player's tile otherwise. Home is reached exactly when the steps are positive and equal `tilesLeft`. |
| Rules.ExactValueGoesHome | Game/app/src/main/java/com/fierydragon/components/level/GameBoard.java:578-592 | A matching card worth exactly `tilesLeft` takes a player on the ring home, spending all of it. |
| Rules.CaveExitNeverHome | Game/app/src/main/java/com/fierydragon/components/level/GameBoard.java:562-578 | The home test sees the value already lowered by the cave exit, so a player leaving its cave never goes home in the same move. |
| Rules.PlannedMoveInRange | Game/app/src/main/java/com/fierydragon/components/level/GameBoard.java:561-621 | Every target is a slot of the board. |
| Rules.FirstOn | Game/app/src/main/java/com/fierydragon/components/level/GameBoard.java:630-636 | The index of the first player on the tile, and none exactly when nobody stands there. |
| Rules.ApplyCard | Game/app/src/main/java/com/fierydragon/components/level/GameBoard.java:553-705 | The outcome has as many players and flags as before. Nobody's cave changes. Any other player who changed was sent to the mover's old tile, and a win means the mover has no tiles left. |
| Rules.ApplyMoveTo | Game/app/src/main/java/com/fierydragon/components/level/GameBoard.java:623-704 | The same guarantees as `ApplyCard`, once the target is known. |
| Rules.ApplyMoveToOnBoard | Game/app/src/main/java/com/fierydragon/components/level/GameBoard.java:623-704 | Every outcome keeps each player on a slot of the board and the flags' length. |
| Rules.Moved | Game/app/src/main/java/com/fierydragon/components/level/GameBoard.java:681-683 | The mover takes the target tile and its type and spends the steps. Its cave is kept and nobody else changes. |
| Rules.Bumped | Game/app/src/main/java/com/fierydragon/components/level/GameBoard.java:638-645 | The mover takes the target and the bumped player takes the mover's old tile and its type. Their `tilesLeft` total is kept, caves are kept, and nobody else changes. |
| Rules.WinExactlyAtHome | Game/app/src/main/java/com/fierydragon/components/level/GameBoard.java:670-698 | For a player with tiles left, a win means a matching card of exactly `tilesLeft` played from the ring, ending at home with 0 left. Such a card always wins, unless home is flagged with nobody found there. |
| Rules.ApplyCardOnBoard | Game/app/src/main/java/com/fierydragon/components/level/GameBoard.java:553-705 | Every outcome keeps each player on a slot of the board and keeps the flags' length. |
| Rules.ApplyCardCoherent | Game/app/src/main/java/com/fierydragon/components/level/GameBoard.java:624-704 | Every branch of `handleCardAction` keeps the flags in step with the players and keeps ring tiles unshared. |
| Rules.BumpCoherent | Game/app/src/main/java/com/fierydragon/components/level/GameBoard.java:638-648 | The bump exchanges the two players' tiles and flags both, and keeps the invariant. |
| Rules.FreeMoveCoherent | Game/app/src/main/java/com/fierydragon/components/level/GameBoard.java:680-686 | A move onto a free tile clears the old flag, sets the new one, and keeps the invariant. |
| Rules.OccupantFound | Game/app/src/main/java/com/fierydragon/components/level/GameBoard.java:630-638 | On a coherent board a flagged ring tile always has a player on it. |
| Rules.ExchangeKeepsPositions | Game/app/src/main/java/com/fierydragon/components/level/GameBoard.java:771-777 | Exchanging two players' tiles leaves the set of occupied tiles as it was and keeps ring tiles unshared. |
| Rules.FloorMod | Game/app/src/main/java/com/fierydragon/components/level/GameBoard.java:734-735 | `Math.floorMod` by the ring length lies in `[0, N)` and differs from `x` by a multiple of `N`. |
| Rules.Distance | Game/app/src/main/java/com/fierydragon/components/level/GameBoard.java:734-738 | The distance is one of the forward and backward `floorMod` distances, never more than either, and lies in `[0, N)`. |
| Rules.ScanPlayers | Game/app/src/main/java/com/fierydragon/components/level/GameBoard.java:726-748 | After `k` players the chosen one comes before `k`, is a candidate (another player out of its cave), and is recorded with its `Distance` from the origin. |
| Rules.ScanFindsNearest | Game/app/src/main/java/com/fierydragon/components/level/GameBoard.java:728-748 | The search picks the first nearest other player out of its cave, by `Distance`. It reports that distance, and picks nobody exactly when there is no such player. |
| Rules.ForwardFlagSticks | Game/app/src/main/java/com/fierydragon/components/level/GameBoard.java:741-743 | On a 24-tile ring the flag says forward while the chosen player lies backward, because the flag is never cleared. |
| Rules.ForwardFlag | Game/app/src/main/java/com/fierydragon/components/level/GameBoard.java:726-748 | `goesFoward` ends set exactly when some candidate that replaced the choice so far leaned forward. The chosen player is such a replacement, so a chosen player who leans forward always sets the flag. |
| Rules.SwapOrigin | Game/app/src/main/java/com/fierydragon/components/level/GameBoard.java:717-724 | The swap measures from the mover's tile, or from its cave tile while at home; on a valid board that is a ring tile. |
| Rules.ApplySwap | Game/app/src/main/java/com/fierydragon/components/level/GameBoard.java:712-788 | The player count is kept, and the only other player who changes is the first nearest candidate. |
| Rules.SwapWith | Game/app/src/main/java/com/fierydragon/components/level/GameBoard.java:750-788 | The two exchange tiles and types and nobody else changes. Without a lap wrap their `tilesLeft` total is kept. On a forward wrap the mover gets `tilesLeft - d + n` and the other player `tilesLeft + d`. On a backward wrap the mover gets `tilesLeft + d` and the chosen player gets the mover's old `tilesLeft + n`, because line 764 reads the mover's updated count, not the chosen player's. A mover leaving its cave hands its cave tile and cave id to the other player, and keeps its own. |
| Rules.SwapExchanges | Game/app/src/main/java/com/fierydragon/components/level/GameBoard.java:750-788 | With a chosen player, the nearest one, the two exchange tiles and types and nobody else changes. With none, nothing changes. |
| Rules.SwapOnBoard | Game/app/src/main/java/com/fierydragon/components/level/GameBoard.java:771-788 | The swap keeps every player on a slot of the board, including the cave handed over from the cave. |
| Rules.SwapCoherent | Game/app/src/main/java/com/fierydragon/components/level/GameBoard.java:712-834 | The swap never writes the flags, and they stay in step with the players. |
| CardTypes.Name | Game/app/src/main/java/com/fierydragon/components/enums/CardType.java:15-20 | A constant's name is non-empty and made of capitals and underscores. |
| CardTypes.ValueOf | Game/app/src/main/java/com/fierydragon/components/level/GameBoard.java:182 | `CardType.valueOf` succeeds exactly on a constant's name, and gives that constant. |
| CardTypes.ValueOfName | Game/app/src/main/java/com/fierydragon/components/level/GameBoard.java:868 | Parsing a saved constant's name gives the constant back. |
| CardTypes.NameInjective | Game/app/src/main/java/com/fierydragon/components/enums/CardType.java:15-20 | No two constants share a name. |
| JavaStrings.Int32 | Game/app/src/main/java/com/fierydragon/components/UI/MainMenuUI.java:401 | An `int` sum wraps into the 32-bit range, and is unchanged when it fits. |
| JavaStrings.JavaDiv | Game/app/src/main/java/com/fierydragon/components/level/GameBoard.java:206 | Java's `/` rounds toward zero. |
| JavaStrings.ValueOfInt | Game/app/src/main/java/com/fierydragon/components/level/GameBoard.java:857-860 | `String.valueOf(int)` of a non-negative number is its digits. |
| JavaStrings.ParseInt | Game/app/src/main/java/com/fierydragon/components/level/GameBoard.java:174-175 | The value parsed lies in the 32-bit `int` range, and `ParseValueOfInt` makes it the inverse of `ValueOfInt`; `None` stands for the `NumberFormatException`. |
| JavaStrings.ParseValueOfInt | Game/app/src/main/java/com/fierydragon/components/level/GameBoard.java:174-176 | Every `int` printed with `String.valueOf` parses back to itself. |
| JavaStrings.ParseBoolean | Game/app/src/main/java/com/fierydragon/components/level/GameBoard.java:237 | `Boolean.parseBoolean` is true exactly for a non-null "true" in any case. |
| JavaStrings.ParseValueOfBool | Game/app/src/main/java/com/fierydragon/components/level/object/CardController.java:186 | A saved face-up flag parses back to itself. |
| JavaStrings.Trim | Game/app/src/main/java/com/fierydragon/core/framework/SaveHandler.java:93 | The trimmed text is no longer than the input and neither starts nor ends with a blank. Text that already does not is unchanged. |
| JavaStrings.TrimSpan | Game/app/src/main/java/com/fierydragon/core/framework/SaveHandler.java:93 | `trim` keeps one slice of the text and drops only blanks on either side of it. |
| JavaStrings.TrimKeepsOut | Game/app/src/main/java/com/fierydragon/core/framework/SaveHandler.java:93 | Trimming adds no character, so a trimmed field holds no `=` that the field did not. |
| JavaStrings.KeptFrom | Game/app/src/main/java/com/fierydragon/core/framework/SaveHandler.java:93 | The index found is the first one from the start point whose character is not blank, or the end of the text, and everything skipped is blank. |
| JavaStrings.KeptTo | Game/app/src/main/java/com/fierydragon/core/framework/SaveHandler.java:93 | Walking back from the end point but not past the start point, the index found follows a character that is not blank (or is the start point), and everything dropped after it is blank. |
| JavaStrings.Fields | Game/app/src/main/java/com/fierydragon/core/framework/SaveHandler.java:90 | There is at least one field, and no field holds the separator. |
| JavaStrings.DropTrailingEmpty | Game/app/src/main/java/com/fierydragon/core/framework/SaveHandler.java:90 | The result is a prefix of the fields, with no empty field at the end, and every field it removes is empty. |
| JavaStrings.Split | Game/app/src/main/java/com/fierydragon/core/framework/SaveHandler.java:90 | Text without the separator is one field. No field holds the separator. With a separator present the result is `Fields` with its trailing empty fields removed: a prefix of them, ending in a non-empty field, and only empty fields cut off. |
| JavaStrings.SplitPair | Game/app/src/main/java/com/fierydragon/core/framework/SaveHandler.java:90-92 | A line `key=value` without further `=` and with a non-empty value splits into exactly those two fields. |
| JavaStrings.SplitEmptyValue | Game/app/src/main/java/com/fierydragon/core/framework/SaveHandler.java:90-92 | A line `key=` does not split into two fields, so it is dropped. |
| JavaStrings.SplitTrailingSeparator | Game/app/src/main/java/com/fierydragon/core/framework/SaveHandler.java:90 | `key=value=` still splits into the two fields `key` and `value`: the empty field after the last separator is dropped. |
| JavaStrings.ReadLines | Game/app/src/main/java/com/fierydragon/core/framework/SaveHandler.java:89 | No line returned by `readLine` holds a line break. |
| JavaStrings.LineEnd | Game/app/src/main/java/com/fierydragon/core/framework/SaveHandler.java:89 | A line ends at the first `\n` or `\r`, or at the end of the text. |
| LinkedMaps.Put | Game/app/src/main/java/com/fierydragon/core/framework/SaveHandler.java:93 | Putting a new key adds it at the end. |
| LinkedMaps.Get | Game/app/src/main/java/com/fierydragon/core/framework/SaveHandler.java:93 | `get` is `null` exactly when the key is absent, and in a map of distinct keys it is the stored value. |
| LinkedMaps.PutKeeps | Game/app/src/main/java/com/fierydragon/core/framework/SaveHandler.java:93 | `put` on a present key keeps every key and its place, touches no other entry, and keeps keys distinct. |
| LinkedMaps.GetPut | Game/app/src/main/java/com/fierydragon/core/framework/SaveHandler.java:93 | After `put(k, v)`, `get(k)` is `v` and every other key reads as before. |
| LinkedMaps.PutAllAppend | Game/app/src/main/java/com/fierydragon/components/level/GameBoard.java:856-878 | Two runs of `put` calls in a row are one run. |
| LinkedMaps.PutAllFresh | Game/app/src/main/java/com/fierydragon/core/framework/SaveHandler.java:64-66 | Putting distinct new keys gives exactly those entries, appended in order. |
| SaveHandler.Save | Game/app/src/main/java/com/fierydragon/core/framework/SaveHandler.java:61-75 | The text written is one `key=value` line per entry, in insertion order. |
| SaveHandler.EntryText | Game/app/src/main/java/com/fierydragon/core/framework/SaveHandler.java:70 | A line is the key, one `=` and the value. With no `=` in either and a non-empty value, it splits into exactly the key and the value. |
| SaveHandler.Format | Game/app/src/main/java/com/fierydragon/core/framework/SaveHandler.java:68-71 | The text is empty exactly for an empty map, and otherwise ends with a line break. |
| SaveHandler.Load | Game/app/src/main/java/com/fierydragon/core/framework/SaveHandler.java:83-102 | A read failure gives `null`, never a partial map. Otherwise the map holds the lines that split into two fields, trimmed and put in order. |
| SaveHandler.ParseLine | Game/app/src/main/java/com/fierydragon/core/framework/SaveHandler.java:90-93 | A line is dropped exactly when it does not split into two fields. A kept entry has no `=` in either part and no blanks around either. |
| SaveHandler.ParseTrailingSeparator | Game/app/src/main/java/com/fierydragon/core/framework/SaveHandler.java:90-93 | The line `a=b=` is kept, as the entry `a`, `b`. |
| SaveHandler.LoadLines | Game/app/src/main/java/com/fierydragon/core/framework/SaveHandler.java:84-94 | The loaded map never holds a key twice and has no more entries than lines. |
| SaveHandler.LoadLinesGet | Game/app/src/main/java/com/fierydragon/core/framework/SaveHandler.java:89-94 | For each key, the loaded map holds the value of the last line carrying it: later lines win. |
| SaveHandler.DroppedLine | Game/app/src/main/java/com/fierydragon/core/framework/SaveHandler.java:90-92 | A line that does not split into two fields changes nothing. |
| SaveHandler.KeptLine | Game/app/src/main/java/com/fierydragon/core/framework/SaveHandler.java:92-93 | A line that does split in two is one `put` of its trimmed fields. |
| SaveHandler.ReadFormat | Game/app/src/main/java/com/fierydragon/core/framework/SaveHandler.java:70 | Reading back the text `save` writes gives exactly one line per entry. |
| SaveHandler.LoadSave | Game/app/src/main/java/com/fierydragon/core/framework/SaveHandler.java:70-93 | For a clean map, loading the text `save` writes gives the same map, in order. Clean means distinct keys, non-empty values, and no `=`, line break or surrounding blank in any key or value. |
| SaveHandler.LoadTexts | Game/app/src/main/java/com/fierydragon/core/framework/SaveHandler.java:89-94 | Loading the lines of a clean map gives the map. |
| BoardSaves.BoardKeysDistinct | Game/app/src/main/java/com/fierydragon/components/level/GameBoard.java:856-878 | A saved board never writes a key twice. |
| BoardSaves.BoardEntries | Game/app/src/main/java/com/fierydragon/components/level/GameBoard.java:856-878 | Every key and value a board saves is non-empty and made of printing characters other than `=`. |
| BoardSaves.BoardEntriesClean | Game/app/src/main/java/com/fierydragon/components/level/GameBoard.java:856-878 | The board's entries form a clean map: distinct keys, with keys and values the text format keeps. |
| BoardSaves.GetInt | Game/app/src/main/java/com/fierydragon/components/level/GameBoard.java:174-175 | `parseInt(get(k))` fails exactly when the key is missing or its text is no `int`. |
| BoardSaves.GetIntOf | Game/app/src/main/java/com/fierydragon/components/level/GameBoard.java:174-176 | A number saved with `String.valueOf` reads back as itself. |
| BoardSaves.GetType | Game/app/src/main/java/com/fierydragon/components/level/GameBoard.java:182 | `valueOf(get(k))` gives a constant only when the stored text is its name, and gives it whenever it is. |
| BoardSaves.ReadAll | Game/app/src/main/java/com/fierydragon/components/level/GameBoard.java:181-183 | A Java counting loop of reads gives `count` items, or none for a non-positive count. |
| BoardSaves.ReadAllReads | Game/app/src/main/java/com/fierydragon/components/level/GameBoard.java:181-183 | The loop fails exactly when one of its reads does; otherwise item `i` is read `i`. |
| BoardSaves.LoadTriple | Game/app/src/main/java/com/fierydragon/components/level/GameBoard.java:186-192 | A volcano card reads back as three tiles. |
| BoardSaves.LoadPlayer | Game/app/src/main/java/com/fierydragon/components/level/GameBoard.java:216-231 | A loaded player stands on a slot of the board, has its index as `currentCaveID`, and has a tile type. |
| BoardSaves.LoadCard | Game/app/src/main/java/com/fierydragon/components/level/GameBoard.java:234-237 | A card loads exactly when its type and value parse; the type is the stored name and the value the stored number. A card can load face-up only if its `flipped` key is present. |
| BoardSaves.LoadBoard | Game/app/src/main/java/com/fierydragon/components/level/GameBoard.java:168-256 | A missing or malformed counter, or a player count below 1, fails the load. A loaded board has `TileNum` tiles, the volcano cards `VolcanoCardNum` says and the cards `cardCount` says. |
| BoardSaves.LoadParts | Game/app/src/main/java/com/fierydragon/components/level/GameBoard.java:180-247 | No caves fails the load, as the cave spacing would divide by zero. A loaded board has the counts the counters give. |
| BoardSaves.TileNum | Game/app/src/main/java/com/fierydragon/components/level/GameBoard.java:174 | `volcanoCardCount * 3` is a 32-bit `int`, and is the plain product when that fits. |
| BoardSaves.VolcanoCardNum | Game/app/src/main/java/com/fierydragon/components/level/GameBoard.java:176 | The tile count divided by 3 gives back the saved count whenever the product fits an `int`. |
| BoardSaves.LoadBoardShape | Game/app/src/main/java/com/fierydragon/components/level/GameBoard.java:168-256 | A board that loads has caves, one player per cave standing on the board, and three tiles per volcano card. |
| BoardSaves.LoadedPlayerCount | Game/app/src/main/java/com/fierydragon/components/BasicGameMode.java:94 | A board that loads has as many caves as its `playerCount` entry says. |
| BoardSaves.Reindexed | Game/app/src/main/java/com/fierydragon/components/level/GameBoard.java:222 | The loader rebuilds each player's `currentCaveID` as its index and keeps every other field. |
| BoardSaves.HeaderRead | Game/app/src/main/java/com/fierydragon/components/level/GameBoard.java:174-176 | The saved counters read back: the player count, `currentPlayer` as turn + 1, the volcano-card count and the card count. |
| BoardSaves.CavesRead | Game/app/src/main/java/com/fierydragon/components/level/GameBoard.java:180-183 | The saved caves read back in order. |
| BoardSaves.TriplesRead | Game/app/src/main/java/com/fierydragon/components/level/GameBoard.java:185-192 | The saved volcano cards read back in order. |
| BoardSaves.PlayerRead | Game/app/src/main/java/com/fierydragon/components/level/GameBoard.java:215-225 | Each saved player reads back with its fields, its index as `currentCaveID`. |
| BoardSaves.CardRead | Game/app/src/main/java/com/fierydragon/components/level/GameBoard.java:233-237 | Each saved card reads back with its type, value and flag. |
| BoardSaves.SaveThenLoad | Game/app/src/main/java/com/fierydragon/components/level/GameBoard.java:168-256 | The entries a storable board saves load back as its caves, volcano cards, players and cards, with tile count `3 · volcanoCardCount`. Only `currentCaveID` is rebuilt, as the index. |
| BoardSaves.SavedMapLoads | Game/app/src/main/java/com/fierydragon/core/framework/SaveHandler.java:64-66 | The map `save` fills from empty holds exactly the board's entries, and loading it gives the board back. |
| BoardSaves.SavedTextLoads | Game/app/src/main/java/com/fierydragon/core/framework/SaveHandler.java:61-101 | The text `save` writes for the map `invokeSave` fills, read back by `load` and handed to the loading constructor, gives the board back. |
| GameModes.DeckComposition | Game/app/src/main/java/com/fierydragon/components/BasicGameMode.java:43-62 | The deck has 18 cards. Each animal appears once with each of 1, 2 and 3. The pirate dragon appears twice with -1 and twice with -2, and SWAP twice with 1. There is nothing else. |
| GameModes.AnimalLists | Game/app/src/main/java/com/fierydragon/components/BasicGameMode.java:31-42 | The tile and cave lists are the four animals, each once. |
| GameModes.CaveList | Game/app/src/main/java/com/fierydragon/components/BasicGameMode.java:81-85 | The cave list is the first `playerCount` entries of the shuffled cave types: distinct animals. |
| GameModes.ShuffledDistinct | Game/app/src/main/java/com/fierydragon/components/BasicGameMode.java:82 | Shuffling a list without repeats gives none. |
| GameModes.StartingPlayer | Game/app/src/main/java/com/fierydragon/components/BasicGameMode.java:96 | The loaded turn is `currentPlayer - 1` in `int` arithmetic. |
| GameModes.TurnRoundTrip | Game/app/src/main/java/com/fierydragon/components/BasicGameMode.java:96-97 | The `+1` written on save and the `-1` on load cancel: the saved turn comes back. |
| GameModes.NewBoard | Game/app/src/main/java/com/fierydragon/components/BasicGameMode.java:81-87 | The new game board is built on the distinct shuffled caves, with the fixed tiles and deck. It is valid and coherent, with every card face-down. |
| GameModes.BasicGameMode.constructor | Game/app/src/main/java/com/fierydragon/components/BasicGameMode.java:74-89 | A new game starts at turn 0 with the given counts and a distinct cave for each player, on a valid, coherent board. |
| GameModes.BasicGameMode.Load | Game/app/src/main/java/com/fierydragon/components/BasicGameMode.java:91-101 | A loaded game takes the saved player count and starts at `currentPlayer - 1`. Its board holds what `LoadBoard` reads, with the flags in step with the players. |
| MainMenu.MainMenuUI.constructor | Game/app/src/main/java/com/fierydragon/components/UI/MainMenuUI.java:29-36 | The counters start at their minimums, 2 players and 8 volcano cards. |
| MainMenu.Clamp | Game/app/src/main/java/com/fierydragon/components/UI/MainMenuUI.java:400-408 | The result lies within the bounds. A step that stays within them is taken exactly, and one past a bound stops at that bound. |
| MainMenu.ArrowStep | Game/app/src/main/java/com/fierydragon/components/UI/MainMenuUI.java:401-407 | From a valid count, a step of one is taken unless it would cross a bound, where the count stays put. |
| MainMenu.MainMenuUI.HandlePlayerCountChange | Game/app/src/main/java/com/fierydragon/components/UI/MainMenuUI.java:400-408 | Only the player count changes. It becomes the stepped, clamped count and stays in `[2, 4]`. |
| MainMenu.MainMenuUI.HandleVolcanoCardCountChange | Game/app/src/main/java/com/fierydragon/components/UI/MainMenuUI.java:417-425 | Only the volcano-card count changes. It becomes the stepped, clamped count and stays in `[8, 21]`. |
| MainMenu.MainMenuUI.HandleNewGame | Game/app/src/main/java/com/fierydragon/components/UI/MainMenuUI.java:353-355 | The new game gets the menu's two counts, which always meet what the game needs, and starts at turn 0 on a valid, coherent board. |

## Left out

- Rendering, geometry and animation (`init`, the paths, transitions, images, fonts, the turn indicator) are left out. The `onFinished` callbacks are run synchronously, in chain order.
- `Collections.shuffle` is randomness. Each shuffle is a permutation parameter (`tileOrder`, `cardOrder`, `caveOrder`).
- The file system part of `SaveHandler` is left out: the directory creation, the `user.home` path, the streams and the date-stamped `getSaveName`. `Save` returns the text it would write. `Load` is given the text it would read and the number of the `readLine` call that throws, if any.
- The loader reads the three counters up front rather than as it goes. Every read is free of side effects, so only which exception is thrown, not whether one is, could differ.
- `Integer.MAX_VALUE` as the "no candidate yet" sentinel of the swap search is replaced by an `Option`. The two agree because every distance is below the ring length.
- The delegate interface is replaced by the `DelegateCall` value a finished flip returns, which the board carries out. The static `transitionActive` is one shared `TransitionLock` object.
- A properties map (`LinkedHashMap`) is a sequence of entries passed in and out of `invokeSave`, not a shared mutable object.
- `ParseBoolean` folds case for ASCII letters only. Java's full Unicode case folding is not modelled.
- JavaStrings.ParseInt: accepts ASCII digits only. Java's `Integer.parseInt` also accepts the other Unicode decimal digits, which a save written by `String.valueOf` never holds.
- The menus, pause screen, win screen, `handleLoadGame`, `handleExit`, `draw`, the game manager and the stage are UI plumbing, so they are left out.
- Board.GameBoard.HandleCardAction: requires `-N <= cardValue <= N`, N the ring's length; values outside that range are not modelled. The fixed deck's values lie in `-2..3`, and the smallest board the menu allows (8 volcano cards) has N = 24.
- Board.GameBoard.PlayCard: requires the clicked card's value within `-N..N`; values outside it are not modelled, as for HandleCardAction.
- Board.GameBoard.constructor: requires at least one volcano card and a turn controller for the given caves, which every caller in the source provides.
- Board.GameBoard.Load: promises `Valid()` only when the saved turn and cave tiles fit the board, because the loader itself never checks them.
- Board.GameBoard.InvokeSave: requires every player to have a tile type. Saving a player back home would name Java's `null` type and throw.
- BoardSaves.SaveThenLoad: holds for storable boards only. Those are boards with a tile type per player, one player per cave, three tiles per volcano card, and every number a 32-bit `int`.
- Board.GameBoard.SaveHeader: `turn + 1` is written as an unbounded integer. The turn is always below the player count, so it cannot overflow.
- Turns.TurnController.NextTurn: `turnPlayerID + 1` at `Integer.MAX_VALUE` would wrap in Java, but a valid turn is always below the player count, so the model does not wrap it.
- GameModes.BasicGameMode.Load: the volcano-card count is left at Java's default 0, as in the source.
- Rules.Moved: `tilesLeft - steps` is not wrapped to 32 bits. Java wraps it only for a hand-edited save, such as `tilesLeft=-2147483648` followed by a forward move.
- Rules.Bumped: the bumped player's `tilesLeft + steps` is not wrapped to 32 bits. A hand-edited save with `tilesLeft=2147483647` followed by a bump would wrap in Java.
- Rules.SwapWith: the swapped `tilesLeft` values, their sums and the lap corrections `+ n`, `- d` are not wrapped to 32 bits. Only a hand-edited save can bring them near the limits.
- Board.GameBoard.MoveMover: stated by `Moved`, so its `tilesLeft - steps` is not wrapped either.
- Board.GameBoard.Bump: stated by `Bumped`, so its `tilesLeft + steps` is not wrapped either.
- Board.GameBoard.SwapPlayers: stated by `SwapWith`, so its `tilesLeft` sums are not wrapped either.
