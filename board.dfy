/**
 * `GameBoard`: the ring of tiles, the occupation flags, the players, the
 * turn and the dragon cards, with the two card actions, the turn change and
 * the click-to-move path. Drawing, geometry and animation are left out; the
 * animation callbacks run as synchronous steps.
 */
module Board {
  import opened Wrappers
  import opened CardTypes
  import opened Turns
  import opened Players
  import opened Volcano
  import opened Cards
  import opened Rules
  import opened JavaStrings
  import opened LinkedMaps
  import opened BoardSaves

  class GameBoard {
    const turnController: TurnController
    /** The `transitionActive` flag every dragon card shares. */
    const lock: TransitionLock
    const caves: seq<CardType>
    /** Slot 0 (the caves) holds no type; slots 1..N are the ring. */
    const tiles: seq<Option<CardType>>
    const volcanoCards: seq<VolcanoCard>
    const dragonCards: seq<CardController>
    const players: seq<PlayerController>
    const caveSpacing: int
    var tileOccupation: seq<bool>

    /** The shapes every operation relies on. */
    ghost predicate Valid()
      reads this, turnController, players, dragonCards
    {
      && BoardShape(tiles, tileOccupation)
      && |players| == |caves| == turnController.playerCount
      && 0 <= turnController.turnPlayerID < turnController.playerCount
      && (forall a, b :: 0 <= a < b < |players| ==> players[a] != players[b])
      && OnBoard(StatesOf(players), |tiles| - 1)
      && (forall k :: 0 <= k < |dragonCards| ==> dragonCards[k].lock == lock && dragonCards[k].Valid())
    }

    /** The occupation flags are in step with the players, and no two players share a ring tile. */
    ghost predicate Coherent()
      reads this, players
    {
      Rules.Coherent(tiles, tileOccupation, StatesOf(players))
    }

    /** Every dragon card is face-down. */
    ghost predicate AllFaceDown()
      reads dragonCards
    {
      forall k :: 0 <= k < |dragonCards| ==> !dragonCards[k].flipped
    }

    /** Slot `3k + 1 + j` of the ring is tile `j` of volcano card `k`. */
    predicate TilesFromVolcanoCards() {
      && |tiles| == 3 * |volcanoCards| + 1 && tiles[0] == None
      && forall k :: 0 <= k < |volcanoCards| ==>
           |volcanoCards[k].tileTypes| == 3 && forall j :: 0 <= j < 3 ==> tiles[3 * k + 1 + j] == Some(volcanoCards[k].tileTypes[j])
    }

    /**
     * The constructor of a new game. `tileOrder` and `cardOrder` are the
     * permutations `Collections.shuffle` applies to the tile list and the
     * deck. Each player starts in its cave, the caves spread `caveSpacing`
     * tiles apart from tile 1; no tile is occupied and every card is face-down.
     */
    constructor (turnController: TurnController, lock: TransitionLock, caves: seq<CardType>, tileTypes: seq<CardType>,
                 volcanoCardNum: int, dragonCardValues: seq<(CardType, int)>, tileOrder: seq<int>, cardOrder: seq<int>)
      requires |caves| >= 1 && |tileTypes| >= 1 && volcanoCardNum >= 1
      requires IsPermutation(tileOrder, 3 * volcanoCardNum) && IsPermutation(cardOrder, |dragonCardValues|)
      requires turnController.playerCount == |caves| && 0 <= turnController.turnPlayerID < |caves|
      ensures Valid() && Coherent() && AllFaceDown() && TilesFromVolcanoCards()
      ensures this.turnController == turnController && this.lock == lock && this.caves == caves
      ensures |tiles| == 3 * volcanoCardNum + 1
      ensures forall t :: 1 <= t < |tiles| ==> tiles[t] == Some(tileTypes[tileOrder[t - 1] % |tileTypes|])
      ensures |tileOccupation| == |tiles| && forall t :: 0 <= t < |tileOccupation| ==> !tileOccupation[t]
      ensures caveSpacing == 3 * volcanoCardNum / |caves|
      ensures forall i :: 0 <= i < |players| ==> players[i].State() == PlayerState(i * caveSpacing + 1, 0, Some(caves[i]), |tiles|, i)
      ensures |dragonCards| == |dragonCardValues|
      ensures forall k :: 0 <= k < |dragonCards| ==>
        dragonCards[k].cardType == dragonCardValues[cardOrder[k]].0 && dragonCards[k].cardValue == dragonCardValues[cardOrder[k]].1
      ensures fresh(players) && fresh(dragonCards) && fresh(volcanoCards)
    {
      var tileNum := volcanoCardNum * 3;
      var dup := RepeatTypes(tileTypes, tileNum);
      var shuffled := Shuffled(dup, tileOrder);
      var ts := [None] + Present(shuffled);

      var vcs := BuildVolcanoCards(shuffled);
      var occupation := seq(|ts|, _ => false);
      var spacing := tileNum / |caves|;
      var ps := BuildPlayers(caves, spacing, |ts| - 1);
      var values := Shuffled(dragonCardValues, cardOrder);
      var cs := BuildDeck(values, lock);

      this.turnController := turnController;
      this.lock := lock;
      this.caves := caves;
      this.tiles := ts;
      this.volcanoCards := vcs;
      this.tileOccupation := occupation;
      this.caveSpacing := spacing;
      this.players := ps;
      this.dragonCards := cs;
      new;
      forall k | 0 <= k < |ps| ensures 1 <= k * spacing + 1 <= |ts| - 1 {
        CaveTileOnRing(k, tileNum, |caves|);
      }
      TilesLayout(shuffled, seq(|vcs|, k requires 0 <= k < |vcs| => vcs[k].tileTypes));
    }

    /**
     * The loading constructor: the board `LoadBoard` reads from `properties`,
     * which must load (Java throws otherwise). The ring is the volcano cards'
     * tiles in order after slot 0; each player gets its saved fields and
     * its list index as `currentCaveID`; the occupation flags are set for
     * every player off slot 0; saved face-up cards are flipped over. The
     * board is `Valid` when the turn controller matches the saved player
     * count and the saved tiles lie on a non-empty ring, which the loader
     * itself does not check.
     */
    constructor Load(turnController: TurnController, lock: TransitionLock, properties: seq<Entry>)
      requires LoadBoard(properties).Some?
      ensures LoadedShape(LoadBoard(properties).value)
      ensures this.turnController == turnController && this.lock == lock
      ensures var lb := LoadBoard(properties).value;
        && caves == lb.caves && TileTypesOf(volcanoCards) == lb.volcanoTiles
        && caveSpacing == JavaDiv(lb.tileNum, |lb.caves|)
        && StatesOf(players) == lb.players
        && CardStatesOf(dragonCards) == lb.cards
      ensures TilesFromVolcanoCards()
      ensures |tileOccupation| == |tiles| && !tileOccupation[0] && Consistent(tileOccupation, StatesOf(players))
      ensures forall a, b :: 0 <= a < b < |players| ==> players[a] != players[b]
      ensures forall k :: 0 <= k < |dragonCards| ==>
        && dragonCards[k].lock == lock && dragonCards[k].Valid()
        && dragonCards[k].kind == (if dragonCards[k].cardType == Swap then Special else Basic)
      ensures && turnController.playerCount == |players| && 0 <= turnController.turnPlayerID < |players| && |tiles| >= 2
              && (forall k :: 0 <= k < |players| ==> 1 <= players[k].caveTileID < |tiles|)
              ==> Valid()
      ensures Valid() && Spread(StatesOf(players)) ==> Coherent()
      ensures fresh(players) && fresh(dragonCards) && fresh(volcanoCards)
    {
      var lb := ReadBoard(properties);
      var vcs, ts := LayRing(lb.volcanoTiles);
      var ps, occupation := RestorePlayers(lb.caves, lb.players, |ts| - 1);
      var cs := RestoreDeck(lb.cards, lock);

      this.turnController := turnController;
      this.lock := lock;
      this.caves := lb.caves;
      this.tiles := ts;
      this.volcanoCards := vcs;
      this.caveSpacing := JavaDiv(lb.tileNum, |lb.caves|);
      this.tileOccupation := occupation;
      this.players := ps;
      this.dragonCards := cs;
      new;
    }

    /** `nextTurn`: the next player's turn, and every dragon card turned face-down. */
    method NextTurn()
      requires Valid()
      modifies turnController`turnPlayerID, dragonCards
      ensures Valid() && AllFaceDown()
      ensures turnController.turnPlayerID == NextId(old(turnController.turnPlayerID), turnController.playerCount)
    {
      turnController.NextTurn();
      var k := 0;
      while k < |dragonCards|
        invariant 0 <= k <= |dragonCards|
        invariant forall c :: 0 <= c < k ==> !dragonCards[c].flipped
        invariant forall c :: 0 <= c < |dragonCards| ==> dragonCards[c].Valid()
        invariant turnController.turnPlayerID == NextId(old(turnController.turnPlayerID), turnController.playerCount)
        invariant 0 <= turnController.turnPlayerID < turnController.playerCount
      {
        dragonCards[k].FlipBack();
        k := k + 1;
      }
    }

    /** `canMove`: the occupation flag of the tile, which on a coherent board says whether a player stands there. */
    method CanMove(tileID: int) returns (occupied: bool)
      requires Valid() && 0 <= tileID < |tileOccupation|
      ensures occupied == tileOccupation[tileID]
      ensures Coherent() && tileID >= 1 ==> (occupied <==> Occupied(StatesOf(players), tileID))
    {
      occupied := tileOccupation[tileID];
    }

    /** The loop of `handleCardAction` that looks for the first player on a tile. */
    method FindOccupant(tileID: int) returns (occupant: Option<nat>)
      ensures occupant == FirstOn(StatesOf(players), tileID)
      ensures occupant.Some? ==> occupant.value < |players| && players[occupant.value].currentTileID == tileID
    {
      ghost var ps := StatesOf(players);
      occupant := None;
      var k := 0;
      while k < |players|
        invariant 0 <= k <= |players|
        invariant forall c :: 0 <= c < k ==> ps[c].currentTileID != tileID
      {
        if players[k].GetCurrentTileID() == tileID {
          occupant := Some(k);
          FirstOnIsFirst(ps, tileID, k);
          return;
        }
        k := k + 1;
      }
    }

    /**
     * The part of `handleCardAction` before any state changes: where the card
     * sends player `playerID`, and how many steps it spends.
     */
    method ComputeMove(playerID: int, cardType: CardType, cardValue: int) returns (move: Move)
      requires 0 <= playerID < |players|
      ensures move == PlannedMove(|tiles| - 1, players[playerID].State(), cardType, cardValue)
    {
      var player := players[playerID];
      ghost var p := player.State();
      var currentTileID := player.GetCurrentTileID();
      var tilesLeft := player.GetTilesLeft();
      var value := cardValue;
      var moved := false;
      if Some(cardType) == player.GetCurrentTileType() && value <= tilesLeft {
        if currentTileID == 0 && value > 0 {
          currentTileID := player.GetCaveTileID();
          moved := true;
          value := value - 1;
        }
        assert (currentTileID, value, moved) == ExitPart(p, cardType, cardValue);
        if value > 0 {
          moved := true;
          if value == tilesLeft {
            value := value - 1;
            currentTileID := currentTileID + value;
            if currentTileID > |tiles| - 1 {
              currentTileID := currentTileID - (|tiles| - 1);
            }
            value := value + 1;
            currentTileID := 0;
          } else {
            currentTileID := currentTileID + value;
            if currentTileID > |tiles| - 1 {
              currentTileID := currentTileID - (|tiles| - 1);
            }
          }
        }
      }
      assert (currentTileID, value, moved) == ForwardPart(|tiles| - 1, p, cardType, cardValue);
      if value < 0 && currentTileID > 0 {
        moved := true;
        currentTileID := currentTileID + value;
        if currentTileID <= 0 {
          currentTileID := currentTileID + (|tiles| - 1);
        }
      }
      move := if moved then MoveTo(currentTileID, value) else Stay;
    }

    /** The mover takes tile `target` and its type and spends `steps`; nobody else changes. */
    method MoveMover(playerID: int, target: int, steps: int)
      requires 0 <= playerID < |players| && 0 <= target < |tiles|
      requires forall a, b :: 0 <= a < b < |players| ==> players[a] != players[b]
      modifies players[playerID]
      ensures StatesOf(players) == Moved(tiles, old(StatesOf(players)), playerID, target, steps)
    {
      var player := players[playerID];
      player.SetCurrentTileID(target);
      player.SetCurrentTileType(tiles[target]);
      player.SetTilesLeft(player.GetTilesLeft() - steps);
    }

    /**
     * The mover takes tile `target`; then the player found there goes back
     * to the mover's old tile and gains `steps`; both tiles are flagged.
     */
    method Bump(playerID: int, occupantID: int, target: int, steps: int)
      requires 0 <= playerID < |players| && 0 <= occupantID < |players| && 0 <= target < |tiles|
      requires 0 <= players[playerID].currentTileID < |tiles| && |tileOccupation| == |tiles|
      requires forall a, b :: 0 <= a < b < |players| ==> players[a] != players[b]
      modifies players[playerID], players[occupantID], this`tileOccupation
      ensures StatesOf(players) == Bumped(tiles, old(StatesOf(players)), playerID, occupantID, target, steps)
      ensures tileOccupation == old(tileOccupation)[old(players[playerID].currentTileID) := true][target := true]
    {
      var previousTileID := players[playerID].GetCurrentTileID();
      MoveMover(playerID, target, steps);
      var occupying := players[occupantID];
      occupying.SetCurrentTileID(previousTileID);
      occupying.SetCurrentTileType(tiles[previousTileID]);
      occupying.SetTilesLeft(occupying.GetTilesLeft() + steps);
      tileOccupation := tileOccupation[previousTileID := true][target := true];
    }

    /**
     * `handleCardAction`: the current player plays a card of `cardType` and
     * `cardValue`. The new state is the one `ApplyCard` describes; the turn
     * passes exactly when it says, and then every card is turned face-down.
     * Values outside `-N..N`, N the ring's length, are not modelled: the fixed
     * deck's values lie in `-2..3`, and the menu's smallest board has 24 tiles.
     */
    method HandleCardAction(cardType: CardType, cardValue: int) returns (won: bool)
      requires Valid() && -(|tiles| - 1) <= cardValue <= |tiles| - 1
      modifies this`tileOccupation, players, turnController`turnPlayerID, dragonCards
      ensures Valid()
      ensures var r := ApplyCard(tiles, old(tileOccupation), old(StatesOf(players)), old(turnController.turnPlayerID), cardType, cardValue);
        && tileOccupation == r.occupation && StatesOf(players) == r.players && won == r.won
        && turnController.turnPlayerID == (if r.advance then NextId(old(turnController.turnPlayerID), turnController.playerCount) else old(turnController.turnPlayerID))
        && (r.advance ==> AllFaceDown())
        && (!r.advance ==> forall k :: 0 <= k < |dragonCards| ==> dragonCards[k].flipped == old(dragonCards[k].flipped))
      ensures old(Coherent()) ==> Coherent()
    {
      ghost var ps := StatesOf(players);
      ghost var occ := tileOccupation;
      var playerID := turnController.GetTurnPlayerID();
      var move := ComputeMove(playerID, cardType, cardValue);
      assert move == PlannedMove(|tiles| - 1, ps[playerID], cardType, cardValue);
      PlannedMoveInRange(tiles, occ, ps, playerID, cardType, cardValue);
      ghost var wasCoherent := Coherent();
      if move.Stay? {
        NextTurn();
        won := false;
      } else {
        won := PlayMove(playerID, move.target, move.steps);
      }
      if wasCoherent {
        ApplyCardCoherent(tiles, occ, ps, playerID, cardType, cardValue, tileOccupation, StatesOf(players));
      }
    }

    /** The rest of `handleCardAction`, once the target tile is known: the state `ApplyMoveTo` describes. */
    method PlayMove(playerID: int, currentTileID: int, steps: int) returns (won: bool)
      requires Valid() && 0 <= playerID < |players| && 0 <= currentTileID < |tiles|
      modifies this`tileOccupation, players, turnController`turnPlayerID, dragonCards
      ensures Valid()
      ensures var r := ApplyMoveTo(tiles, old(tileOccupation), old(StatesOf(players)), playerID, currentTileID, steps);
        && tileOccupation == r.occupation && StatesOf(players) == r.players && won == r.won
        && turnController.turnPlayerID == (if r.advance then NextId(old(turnController.turnPlayerID), turnController.playerCount) else old(turnController.turnPlayerID))
        && (r.advance ==> AllFaceDown())
        && (!r.advance ==> forall k :: 0 <= k < |dragonCards| ==> dragonCards[k].flipped == old(dragonCards[k].flipped))
    {
      ghost var ps := StatesOf(players);
      ghost var occ := tileOccupation;
      ghost var r := ApplyMoveTo(tiles, occ, ps, playerID, currentTileID, steps);
      ApplyMoveToOnBoard(tiles, occ, ps, playerID, currentTileID, steps);
      if tileOccupation[currentTileID] {
        won := PlayOntoOccupied(playerID, currentTileID, steps);
      } else {
        var previousTileID := players[playerID].GetCurrentTileID();
        ghost var moved := Moved(tiles, ps, playerID, currentTileID, steps);
        assert r == Outcome(occ[previousTileID := false][currentTileID := true], moved, false, moved[playerID].tilesLeft == 0);
        MoveMover(playerID, currentTileID, steps);
        tileOccupation := tileOccupation[previousTileID := false][currentTileID := true];
        won := players[playerID].GetTilesLeft() == 0;
      }
    }

    /** A move onto a flagged tile: blocked from the cave, nothing when nobody is found, otherwise a bump. */
    method PlayOntoOccupied(playerID: int, currentTileID: int, steps: int) returns (won: bool)
      requires Valid() && 0 <= playerID < |players| && 0 <= currentTileID < |tiles| && tileOccupation[currentTileID]
      modifies this`tileOccupation, players, turnController`turnPlayerID, dragonCards
      ensures Valid()
      ensures var r := ApplyMoveTo(tiles, old(tileOccupation), old(StatesOf(players)), playerID, currentTileID, steps);
        && tileOccupation == r.occupation && StatesOf(players) == r.players && won == r.won
        && turnController.turnPlayerID == (if r.advance then NextId(old(turnController.turnPlayerID), turnController.playerCount) else old(turnController.turnPlayerID))
        && (r.advance ==> AllFaceDown())
        && (!r.advance ==> forall k :: 0 <= k < |dragonCards| ==> dragonCards[k].flipped == old(dragonCards[k].flipped))
    {
      ghost var ps := StatesOf(players);
      ghost var occ := tileOccupation;
      ghost var r := ApplyMoveTo(tiles, occ, ps, playerID, currentTileID, steps);
      ApplyMoveToOnBoard(tiles, occ, ps, playerID, currentTileID, steps);
      var previousTileID := players[playerID].GetCurrentTileID();
      if previousTileID == 0 {
        assert r == Outcome(occ, ps, true, false);
        NextTurn();
        return false;
      }
      var occupant := FindOccupant(currentTileID);
      if occupant.None? {
        assert r == Outcome(occ, ps, false, false);
        return false;
      }
      ghost var bumped := Bumped(tiles, ps, playerID, occupant.value, currentTileID, steps);
      assert r == Outcome(occ[previousTileID := true][currentTileID := true], bumped, true, bumped[playerID].tilesLeft == 0);
      won := BumpAndPass(ps, playerID, occupant.value, currentTileID, steps);
    }

    /** The bump branch of `handleCardAction`, with the turn change that ends it. */
    method BumpAndPass(ghost ps: seq<PlayerState>, playerID: int, occupantID: int, target: int, steps: int) returns (won: bool)
      requires Valid() && ps == StatesOf(players)
      requires 0 <= playerID < |players| && 0 <= occupantID < |players| && 0 <= target < |tiles|
      requires OnBoard(Bumped(tiles, ps, playerID, occupantID, target, steps), |tiles| - 1)
      modifies this`tileOccupation, players, turnController`turnPlayerID, dragonCards
      ensures Valid() && AllFaceDown()
      ensures StatesOf(players) == Bumped(tiles, ps, playerID, occupantID, target, steps)
      ensures tileOccupation == old(tileOccupation)[ps[playerID].currentTileID := true][target := true]
      ensures won == (Bumped(tiles, ps, playerID, occupantID, target, steps)[playerID].tilesLeft == 0)
      ensures turnController.turnPlayerID == NextId(old(turnController.turnPlayerID), turnController.playerCount)
    {
      Bump(playerID, occupantID, target, steps);
      won := players[playerID].GetTilesLeft() == 0;
      NextTurn();
    }

    /**
     * The search loop of `handleSwapCardAction`: the nearest other player out
     * of its cave, measured from tile `from`, with the `goesFoward` flag.
     */
    method FindSwapTarget(ghost ps: seq<PlayerState>, playerID: int, from: int) returns (scan: Scan)
      requires |tiles| >= 2 && ps == StatesOf(players)
      requires forall a, b :: 0 <= a < b < |players| ==> players[a] != players[b]
      ensures scan == ScanPlayers(ps, playerID, from, |tiles| - 1, |players|)
      ensures scan.best.Some? ==> scan.best.value < |players| && scan.best.value != playerID
    {
      var playerToSwap: Option<nat> := None;
      var goesForward := false;
      var closestTileDifference := 0;
      var k := 0;
      while k < |players|
        invariant 0 <= k <= |players|
        invariant Scan(playerToSwap, closestTileDifference, goesForward) == ScanPlayers(ps, playerID, from, |tiles| - 1, k)
        invariant playerToSwap.Some? ==> playerToSwap.value < k && playerToSwap.value != playerID
      {
        var possiblePlayer := players[k];
        if !(0 <= playerID < |players| && possiblePlayer == players[playerID]) && possiblePlayer.GetCurrentTileID() != 0 {
          var possiblePlayerTileID := possiblePlayer.GetCurrentTileID();
          var forwardDistance := FloorMod(possiblePlayerTileID - from, |tiles| - 1);
          var backwardDistance := FloorMod(from - possiblePlayerTileID, |tiles| - 1);
          var tileDifference := if forwardDistance < backwardDistance then forwardDistance else backwardDistance;
          if playerToSwap.None? || tileDifference < closestTileDifference {
            if forwardDistance <= backwardDistance {
              goesForward := true;
            }
            closestTileDifference := tileDifference;
            playerToSwap := Some(k);
          }
        }
        k := k + 1;
      }
      scan := Scan(playerToSwap, closestTileDifference, goesForward);
    }

    /** The updates of `handleSwapCardAction` for the chosen player: `SwapWith`. */
    method SwapPlayers(playerID: int, otherID: int, d: int, goesForward: bool, fromCave: bool)
      requires 0 <= playerID < |players| && 0 <= otherID < |players| && playerID != otherID
      requires forall a, b :: 0 <= a < b < |players| ==> players[a] != players[b]
      requires fromCave == (players[playerID].currentTileID == 0)
      modifies players[playerID], players[otherID]
      ensures var r := SwapWith(old(StatesOf(players)), playerID, otherID, d, goesForward, |tiles| - 1);
        players[playerID].State() == r[playerID] && players[otherID].State() == r[otherID]
    {
      ghost var r := SwapWith(StatesOf(players), playerID, otherID, d, goesForward, |tiles| - 1);
      var player := players[playerID];
      var playerToSwap := players[otherID];
      if goesForward {
        playerToSwap.SetTilesLeft(playerToSwap.GetTilesLeft() + d);
        if player.GetTilesLeft() - d < 0 {
          player.SetTilesLeft(|tiles| - d + player.GetTilesLeft() - 1);
        } else {
          player.SetTilesLeft(player.GetTilesLeft() - d);
        }
      } else {
        player.SetTilesLeft(player.GetTilesLeft() + d);
        if playerToSwap.GetTilesLeft() - d < 0 {
          playerToSwap.SetTilesLeft(|tiles| - d + player.GetTilesLeft() - 1);
        } else {
          playerToSwap.SetTilesLeft(playerToSwap.GetTilesLeft() - d);
        }
      }
      var previousCurrentType := player.GetCurrentTileType();
      player.SetCurrentTileType(playerToSwap.GetCurrentTileType());
      playerToSwap.SetCurrentTileType(previousCurrentType);
      var previousCurrentTileId := player.GetCurrentTileID();
      player.SetCurrentTileID(playerToSwap.GetCurrentTileID());
      playerToSwap.SetCurrentTileID(previousCurrentTileId);
      if fromCave {
        playerToSwap.SetCaveTileID(player.GetCaveTileID());
        playerToSwap.SetCurrentCaveID(player.GetCurrentCaveID());
      }
    }

    /** The branch of `handleSwapCardAction` taken when a player was chosen: the state `ApplySwap` describes. */
    method SwapIfFound(playerID: int, scan: Scan, fromCave: bool)
      requires Valid() && 0 <= playerID < |players|
      requires scan == ScanPlayers(StatesOf(players), playerID, SwapOrigin(players[playerID].State()), |tiles| - 1, |players|)
      requires scan.best.Some? ==> scan.best.value != playerID
      requires fromCave == (players[playerID].currentTileID == 0)
      modifies players
      ensures Valid()
      ensures StatesOf(players) == ApplySwap(old(StatesOf(players)), playerID, |tiles| - 1)
    {
      ghost var ps := StatesOf(players);
      if scan.best.Some? {
        ghost var r := SwapWith(ps, playerID, scan.best.value, scan.distance, scan.goesForward, |tiles| - 1);
        assert r == ApplySwap(ps, playerID, |tiles| - 1);
        SwapPlayers(playerID, scan.best.value, scan.distance, scan.goesForward, fromCave);
        assert forall k :: 0 <= k < |players| && k != playerID && k != scan.best.value ==> players[k].State() == ps[k];
        assert StatesOf(players) == r;
      } else {
        assert ps == ApplySwap(ps, playerID, |tiles| - 1);
      }
      SwapOnBoard(ps, playerID, |tiles| - 1, StatesOf(players));
    }

    /** The body of `handleSwapCardAction` before the turn passes: the state `ApplySwap` describes. */
    method SwapTurnPlayer(playerID: int)
      requires Valid() && playerID == turnController.turnPlayerID
      modifies players
      ensures Valid()
      ensures StatesOf(players) == ApplySwap(old(StatesOf(players)), playerID, |tiles| - 1)
    {
      ghost var ps := StatesOf(players);
      var player := players[playerID];
      var currentTileID := player.GetCurrentTileID();
      var fromCave := false;
      if currentTileID == 0 {
        fromCave := true;
        currentTileID := player.GetCaveTileID();
      }
      var scan := FindSwapTarget(ps, playerID, currentTileID);
      SwapIfFound(playerID, scan, fromCave);
    }

    /**
     * `handleSwapCardAction`: the current player exchanges places with the
     * nearest other player out of its cave (the state `ApplySwap`
     * describes); the occupation flags are not written, and the turn passes.
     */
    method HandleSwapCardAction()
      requires Valid()
      modifies players, turnController`turnPlayerID, dragonCards
      ensures Valid() && AllFaceDown()
      ensures StatesOf(players) == ApplySwap(old(StatesOf(players)), old(turnController.turnPlayerID), |tiles| - 1)
      ensures turnController.turnPlayerID == NextId(old(turnController.turnPlayerID), turnController.playerCount)
      ensures old(Coherent()) ==> Coherent()
    {
      ghost var ps := StatesOf(players);
      ghost var wasCoherent := Coherent();
      var playerID := turnController.GetTurnPlayerID();
      SwapTurnPlayer(playerID);
      if wasCoherent {
        SwapCoherent(tiles, tileOccupation, ps, playerID, StatesOf(players));
      }
      NextTurn();
    }

    /**
     * A click on dragon card `k`, followed through: a started flip turns the
     * card over, and a card that ends face-up hands its action to the board
     * (`handleCardAction` for a basic card, `handleSwapCardAction` for a
     * special one). A click that starts no flip changes nothing.
     */
    method PlayCard(k: int, primary: bool) returns (started: bool, won: bool)
      requires Valid() && 0 <= k < |dragonCards|
      requires -(|tiles| - 1) <= dragonCards[k].cardValue <= |tiles| - 1
      modifies this`tileOccupation, players, turnController`turnPlayerID, dragonCards, lock
      ensures Valid()
      ensures started <==> primary && !old(dragonCards[k].flipped) && !old(lock.active)
      ensures !started ==> && !won && lock.active == old(lock.active)
                           && tileOccupation == old(tileOccupation) && StatesOf(players) == old(StatesOf(players))
                           && turnController.turnPlayerID == old(turnController.turnPlayerID)
                           && forall c :: 0 <= c < |dragonCards| ==> dragonCards[c].flipped == old(dragonCards[c].flipped)
      ensures started ==> !lock.active
      ensures started && dragonCards[k].kind == Basic ==>
        var r := ApplyCard(tiles, old(tileOccupation), old(StatesOf(players)), old(turnController.turnPlayerID), dragonCards[k].cardType, dragonCards[k].cardValue);
        && tileOccupation == r.occupation && StatesOf(players) == r.players && won == r.won
        && turnController.turnPlayerID == (if r.advance then NextId(old(turnController.turnPlayerID), turnController.playerCount) else old(turnController.turnPlayerID))
        && (r.advance ==> AllFaceDown())
        && (!r.advance ==> forall c :: 0 <= c < |dragonCards| ==>
              dragonCards[c].flipped == (old(dragonCards[c].flipped) || dragonCards[c] == dragonCards[k]))
      ensures started && dragonCards[k].kind == Special ==>
        && !won && tileOccupation == old(tileOccupation)
        && StatesOf(players) == ApplySwap(old(StatesOf(players)), old(turnController.turnPlayerID), |tiles| - 1)
        && turnController.turnPlayerID == NextId(old(turnController.turnPlayerID), turnController.playerCount)
        && AllFaceDown()
      ensures old(Coherent()) ==> Coherent()
    {
      ghost var ps := StatesOf(players);
      ghost var occ := tileOccupation;
      ghost var wasCoherent := Coherent();
      var card := dragonCards[k];
      won := false;
      started := card.HandleCardClicked(primary);
      if started {
        var call := card.RunFlip();
        assert Valid() && StatesOf(players) == ps && tileOccupation == occ && Coherent() == wasCoherent;
        won := Dispatch(call);
      }
    }

    /** The delegate call of a card that ended face-up, carried out: `handleCardAction` or `handleSwapCardAction`. */
    method Dispatch(call: DelegateCall) returns (won: bool)
      requires Valid() && !call.NoCall?
      requires call.CardAction? ==> -(|tiles| - 1) <= call.cardValue <= |tiles| - 1
      modifies this`tileOccupation, players, turnController`turnPlayerID, dragonCards
      ensures Valid()
      ensures call.CardAction? ==>
        var r := ApplyCard(tiles, old(tileOccupation), old(StatesOf(players)), old(turnController.turnPlayerID), call.cardType, call.cardValue);
        && tileOccupation == r.occupation && StatesOf(players) == r.players && won == r.won
        && turnController.turnPlayerID == (if r.advance then NextId(old(turnController.turnPlayerID), turnController.playerCount) else old(turnController.turnPlayerID))
        && (r.advance ==> AllFaceDown())
        && (!r.advance ==> forall c :: 0 <= c < |dragonCards| ==> dragonCards[c].flipped == old(dragonCards[c].flipped))
      ensures call.SwapAction? ==>
        && !won && tileOccupation == old(tileOccupation)
        && StatesOf(players) == ApplySwap(old(StatesOf(players)), old(turnController.turnPlayerID), |tiles| - 1)
        && turnController.turnPlayerID == NextId(old(turnController.turnPlayerID), turnController.playerCount)
        && AllFaceDown()
      ensures old(Coherent()) ==> Coherent()
    {
      if call.CardAction? {
        won := HandleCardAction(call.cardType, call.cardValue);
      } else {
        HandleSwapCardAction();
        won := false;
      }
    }

    /** What `invokeSave` writes: the turn, the volcano cards' tiles, the caves, the players and the cards. */
    function SaveOf(): BoardSave
      reads this, turnController, players, dragonCards
    {
      BoardSave(turnController.turnPlayerID, TileTypesOf(volcanoCards), caves, StatesOf(players), CardStatesOf(dragonCards))
    }

    /**
     * `invokeSave`: the four counters, then each volcano card, cave, player
     * and dragon card under its numbered prefix, as one run of `put` calls.
     * The `prefix` argument is not used. A player whose tile type is `null`
     * makes Java throw, so every player must have one.
     */
    method InvokeSave(properties: seq<Entry>, prefix: string) returns (after: seq<Entry>)
      requires Saveable(StatesOf(players))
      ensures after == PutAll(properties, BoardEntries(SaveOf()))
    {
      ghost var s := SaveOf();
      after := SaveHeader(properties);
      ghost var pre := Header(s);
      after := SaveVolcanoCards(properties, pre, after);
      pre := pre + Flatten(VolcanoBlocks(s.volcanoTiles));
      after := SaveCaves(properties, pre, after);
      pre := pre + Flatten(CaveBlocks(s.caves));
      after := SavePlayers(properties, pre, after);
      pre := pre + Flatten(PlayerBlocks(s.players));
      after := SaveCards(properties, pre, after);
    }

    /** The four counters of `invokeSave`. */
    method SaveHeader(properties: seq<Entry>) returns (after: seq<Entry>)
      ensures after == PutAll(properties, Header(SaveOf()))
    {
      var e0 := ("playerCount", ValueOfInt(|players|));
      var e1 := ("currentPlayer", ValueOfInt(turnController.GetTurnPlayerID() + 1));
      var e2 := ("volcanoCardCount", ValueOfInt(|volcanoCards|));
      var e3 := ("cardCount", ValueOfInt(|dragonCards|));
      after := Put(properties, e0.0, e0.1);
      after := Put(after, e1.0, e1.1);
      after := Put(after, e2.0, e2.1);
      after := Put(after, e3.0, e3.1);
      PutFour(properties, e0, e1, e2, e3);
      assert [e0, e1, e2, e3] == Header(SaveOf());
    }

    /** The loop saving each volcano card under `volcanoCard<i+1>`. */
    method SaveVolcanoCards(ghost properties: seq<Entry>, ghost pre: seq<Entry>, start: seq<Entry>) returns (after: seq<Entry>)
      requires start == PutAll(properties, pre)
      ensures after == PutAll(properties, pre + Flatten(VolcanoBlocks(TileTypesOf(volcanoCards))))
    {
      ghost var bs := VolcanoBlocks(TileTypesOf(volcanoCards));
      assert pre + Flatten(bs[..0]) == pre;
      after := start;
      var i := 0;
      while i < |volcanoCards|
        invariant 0 <= i <= |volcanoCards|
        invariant after == PutAll(properties, pre + Flatten(bs[..i]))
      {
        after := volcanoCards[i].InvokeSave(after, Numbered("volcanoCard", i));
        SaveStep(properties, pre, bs, i);
        i := i + 1;
      }
      assert bs[..i] == bs;
    }

    /** The loop saving each cave's type under `cave<i+1>`. */
    method SaveCaves(ghost properties: seq<Entry>, ghost pre: seq<Entry>, start: seq<Entry>) returns (after: seq<Entry>)
      requires start == PutAll(properties, pre)
      ensures after == PutAll(properties, pre + Flatten(CaveBlocks(caves)))
    {
      ghost var bs := CaveBlocks(caves);
      assert pre + Flatten(bs[..0]) == pre;
      after := start;
      var i := 0;
      while i < |caves|
        invariant 0 <= i <= |caves|
        invariant after == PutAll(properties, pre + Flatten(bs[..i]))
      {
        ghost var before := after;
        after := Put(after, Numbered("cave", i), Name(caves[i]));
        PutAllSnoc(before, [], bs[i][0]);
        assert bs[i] == [] + [bs[i][0]];
        SaveStep(properties, pre, bs, i);
        i := i + 1;
      }
      assert bs[..i] == bs;
    }

    /** The loop saving each player under `player<i+1>`. */
    method SavePlayers(ghost properties: seq<Entry>, ghost pre: seq<Entry>, start: seq<Entry>) returns (after: seq<Entry>)
      requires Saveable(StatesOf(players)) && start == PutAll(properties, pre)
      ensures after == PutAll(properties, pre + Flatten(PlayerBlocks(StatesOf(players))))
    {
      ghost var bs := PlayerBlocks(StatesOf(players));
      assert pre + Flatten(bs[..0]) == pre;
      after := start;
      var i := 0;
      while i < |players|
        invariant 0 <= i <= |players|
        invariant after == PutAll(properties, pre + Flatten(bs[..i]))
      {
        after := players[i].InvokeSave(after, Numbered("player", i));
        SaveStep(properties, pre, bs, i);
        i := i + 1;
      }
      assert bs[..i] == bs;
    }

    /** The loop saving each dragon card under `dragonCard<i+1>`. */
    method SaveCards(ghost properties: seq<Entry>, ghost pre: seq<Entry>, start: seq<Entry>) returns (after: seq<Entry>)
      requires start == PutAll(properties, pre)
      ensures after == PutAll(properties, pre + Flatten(CardBlocks(CardStatesOf(dragonCards))))
    {
      ghost var bs := CardBlocks(CardStatesOf(dragonCards));
      assert pre + Flatten(bs[..0]) == pre;
      after := start;
      var i := 0;
      while i < |dragonCards|
        invariant 0 <= i <= |dragonCards|
        invariant after == PutAll(properties, pre + Flatten(bs[..i]))
      {
        after := dragonCards[i].InvokeSave(after, Numbered("dragonCard", i));
        SaveStep(properties, pre, bs, i);
        i := i + 1;
      }
      assert bs[..i] == bs;
    }
  }

  /** The values the loading constructor reads from the map, in the shape the loader guarantees. */
  method ReadBoard(properties: seq<Entry>) returns (lb: LoadedBoard)
    requires LoadBoard(properties).Some?
    ensures LoadBoard(properties) == Some(lb) && LoadedShape(lb)
  {
    lb := LoadBoard(properties).value;
    LoadBoardShape(properties);
  }

  /** The tile lists of several volcano cards, one after the other. */
  function Concat(vt: seq<seq<CardType>>): seq<CardType> {
    if vt == [] then [] else Concat(vt[..|vt| - 1]) + vt[|vt| - 1]
  }

  /** Triples laid end to end put tile `j` of triple `k` at index `3k + j`. */
  lemma {:induction false} ConcatTriples(vt: seq<seq<CardType>>)
    requires forall k :: 0 <= k < |vt| ==> |vt[k]| == 3
    ensures |Concat(vt)| == 3 * |vt|
    ensures forall k, j :: 0 <= k < |vt| && 0 <= j < 3 ==> Concat(vt)[3 * k + j] == vt[k][j]
    decreases |vt|
  {
    if vt != [] {
      var n := |vt| - 1;
      ConcatTriples(vt[..n]);
      assert Concat(vt) == Concat(vt[..n]) + vt[n];
      forall k, j | 0 <= k < |vt| && 0 <= j < 3 ensures Concat(vt)[3 * k + j] == vt[k][j] {
        if k < n {
          assert vt[..n][k] == vt[k];
        }
      }
    }
  }

  /** The volcano cards of a loaded board and the ring they make: tile `j` of card `k` on slot `3k + 1 + j`. */
  method LayRing(vt: seq<seq<CardType>>) returns (vcs: seq<VolcanoCard>, ts: seq<Option<CardType>>)
    requires forall k :: 0 <= k < |vt| ==> |vt[k]| == 3
    ensures TileTypesOf(vcs) == vt && forall k :: 0 <= k < |vcs| ==> fresh(vcs[k])
    ensures |ts| == 3 * |vt| + 1 && ts[0] == None
    ensures forall k, j :: 0 <= k < |vt| && 0 <= j < 3 ==> ts[3 * k + 1 + j] == Some(vt[k][j])
  {
    vcs := VolcanoCardsFrom(vt);
    ts := LayTiles(vcs);
    ConcatTriples(vt);
  }

  /** The volcano cards of a loaded board, one per saved triple. */
  method VolcanoCardsFrom(vt: seq<seq<CardType>>) returns (vcs: seq<VolcanoCard>)
    ensures TileTypesOf(vcs) == vt
    ensures forall k :: 0 <= k < |vcs| ==> fresh(vcs[k])
  {
    vcs := [];
    var i := 0;
    while i < |vt|
      invariant 0 <= i <= |vt| && TileTypesOf(vcs) == vt[..i]
      invariant forall k :: 0 <= k < |vcs| ==> fresh(vcs[k])
    {
      var card := new VolcanoCard(vt[i]);
      vcs := vcs + [card];
      i := i + 1;
    }
    assert vt[..i] == vt;
  }

  /** The two nested loops that lay the ring: slot 0 holds no type, then every volcano card's tiles in order. */
  method LayTiles(vcs: seq<VolcanoCard>) returns (ts: seq<Option<CardType>>)
    ensures ts == [None] + Present(Concat(TileTypesOf(vcs)))
  {
    ghost var vt := TileTypesOf(vcs);
    ts := [None];
    var k := 0;
    while k < |vcs|
      invariant 0 <= k <= |vcs|
      invariant ts == [None] + Present(Concat(vt[..k]))
    {
      var types := vcs[k].GetTileTypes();
      var j := 0;
      while j < |types|
        invariant 0 <= j <= |types|
        invariant ts == [None] + Present(Concat(vt[..k]) + types[..j])
      {
        ts := ts + [Some(types[j])];
        assert types[..j + 1] == types[..j] + [types[j]];
        j := j + 1;
      }
      assert vt[..k + 1][..k] == vt[..k] && types[..j] == vt[k];
      k := k + 1;
    }
    assert vt[..k] == vt;
  }

  /**
   * The loop restoring the players onto a ring of `n` tiles: player `i` is
   * made in cave `i`, then takes its saved tile, type and budget; every
   * player off slot 0 flags its tile as occupied.
   */
  method RestorePlayers(caves: seq<CardType>, saved: seq<PlayerState>, n: int) returns (ps: seq<PlayerController>, occ: seq<bool>)
    requires n >= 0 && |saved| == |caves|
    requires forall k :: 0 <= k < |saved| ==> 0 <= saved[k].currentTileID <= n && saved[k].currentCaveID == k
    ensures StatesOf(ps) == saved
    ensures |occ| == n + 1 && !occ[0] && Consistent(occ, saved)
    ensures forall k :: 0 <= k < |ps| ==> fresh(ps[k])
    ensures forall a, b :: 0 <= a < b < |ps| ==> ps[a] != ps[b]
  {
    ps := [];
    occ := seq(n + 1, _ => false);
    var i := 0;
    while i < |saved|
      invariant 0 <= i <= |saved| && |ps| == i
      invariant forall k :: 0 <= k < i ==> fresh(ps[k]) && ps[k].State() == saved[k]
      invariant forall a, b :: 0 <= a < b < i ==> ps[a] != ps[b]
      invariant |occ| == n + 1 && !occ[0] && Consistent(occ, saved[..i])
    {
      var p := saved[i];
      var player := new PlayerController(caves[i], p.caveTileID, n, i);
      player.SetCurrentTileID(p.currentTileID);
      player.SetCurrentTileType(p.currentTileType);
      player.SetTilesLeft(p.tilesLeft);
      ps := ps + [player];
      if p.currentTileID != 0 {
        occ := occ[p.currentTileID := true];
      }
      OccupiedSnoc(saved, i);
      i := i + 1;
    }
    assert saved[..i] == saved;
  }

  lemma OccupiedSnoc(ps: seq<PlayerState>, i: int)
    requires 0 <= i < |ps|
    ensures forall t :: Occupied(ps[..i + 1], t) <==> Occupied(ps[..i], t) || ps[i].currentTileID == t
  {
    forall t ensures Occupied(ps[..i + 1], t) <==> Occupied(ps[..i], t) || ps[i].currentTileID == t {
      if Occupied(ps[..i], t) {
        var k :| 0 <= k < i && ps[..i][k].currentTileID == t;
        assert ps[..i + 1][k] == ps[k];
      }
      if ps[i].currentTileID == t {
        assert ps[..i + 1][i] == ps[i];
      }
      if Occupied(ps[..i + 1], t) {
        var k :| 0 <= k < i + 1 && ps[..i + 1][k].currentTileID == t;
        if k < i {
          assert ps[..i][k] == ps[k];
        }
      }
    }
  }

  /** The loop restoring the dragon cards: each made by the factory, then flipped over where saved face-up. */
  method RestoreDeck(cards: seq<CardState>, lock: TransitionLock) returns (cs: seq<CardController>)
    ensures CardStatesOf(cs) == cards
    ensures forall k :: 0 <= k < |cs| ==>
      && fresh(cs[k]) && cs[k].lock == lock && cs[k].Valid()
      && cs[k].kind == (if cards[k].cardType == Swap then Special else Basic)
  {
    cs := [];
    var i := 0;
    while i < |cards|
      invariant 0 <= i <= |cards| && |cs| == i
      invariant forall k :: 0 <= k < i ==>
        && fresh(cs[k]) && cs[k].lock == lock && cs[k].Valid() && cs[k].State() == cards[k]
        && cs[k].kind == (if cards[k].cardType == Swap then Special else Basic)
    {
      var card := CreateCardController(cards[i].cardType, cards[i].cardValue, lock);
      if cards[i].flipped {
        card.FlipOver();
      }
      cs := cs + [card];
      i := i + 1;
    }
  }

  /** One more block of `put` calls extends the run by that block. */
  lemma SaveStep(m: seq<Entry>, pre: seq<Entry>, blocks: seq<seq<Entry>>, i: int)
    requires 0 <= i < |blocks|
    ensures PutAll(PutAll(m, pre + Flatten(blocks[..i])), blocks[i]) == PutAll(m, pre + Flatten(blocks[..i + 1]))
  {
    PutAllAppend(m, pre + Flatten(blocks[..i]), blocks[i]);
    assert blocks[..i + 1][..i] == blocks[..i];
    assert pre + Flatten(blocks[..i]) + blocks[i] == pre + Flatten(blocks[..i + 1]);
  }

  /** A player on `t` with nobody on `t` before it is the first one found there. */
  lemma FirstOnIsFirst(ps: seq<PlayerState>, t: int, k: nat)
    requires k < |ps| && ps[k].currentTileID == t
    requires forall c :: 0 <= c < k ==> ps[c].currentTileID != t
    ensures FirstOn(ps, t) == Some(k)
  {
    var r := FirstOn(ps, t);
    assert r.Some?;
  }

  /** `order` lists each of `0..n-1` once: the rearrangement a shuffle makes. */
  predicate IsPermutation(order: seq<int>, n: int) {
    && |order| == n
    && (forall k :: 0 <= k < n ==> 0 <= order[k] < n)
    && (forall a, b :: 0 <= a < b < n ==> order[a] != order[b])
  }

  /** The list `Collections.shuffle` leaves when it applies `order`: its slot `k` holds element `order[k]`. */
  function Shuffled<T>(xs: seq<T>, order: seq<int>): (r: seq<T>)
    requires IsPermutation(order, |xs|)
    ensures |r| == |xs| && forall k :: 0 <= k < |xs| ==> r[k] == xs[order[k]]
  {
    seq(|xs|, k requires 0 <= k < |xs| => xs[order[k]])
  }

  /** The tile types as entries of a list that may hold `null`. */
  function Present(xs: seq<CardType>): (r: seq<Option<CardType>>)
    ensures |r| == |xs| && forall k :: 0 <= k < |xs| ==> r[k] == Some(xs[k])
  {
    seq(|xs|, k requires 0 <= k < |xs| => Some(xs[k]))
  }

  /** Caves `caveSpacing = n / caveCount` apart from tile 1 all lie on the ring. */
  lemma CaveTileOnRing(i: int, n: int, caveCount: int)
    requires 0 <= i < caveCount && n >= 1
    ensures 1 <= i * (n / caveCount) + 1 <= n
  {
    var q := n / caveCount;
    var r := n % caveCount;
    assert n == caveCount * q + r && 0 <= r;
    MulMonotone(i, caveCount - 1, q);
    assert (caveCount - 1) * q == caveCount * q - q;
  }

  lemma MulMonotone(a: int, b: int, q: int)
    requires 0 <= a <= b && q >= 0
    ensures 0 <= a * q <= b * q
  {
    assert b * q - a * q == (b - a) * q;
  }

  /** The loop filling `tileDupList`: `tileNum` tiles cycling through `tileTypes`. */
  method RepeatTypes(tileTypes: seq<CardType>, tileNum: int) returns (dup: seq<CardType>)
    requires |tileTypes| >= 1 && tileNum >= 0
    ensures |dup| == tileNum && forall k :: 0 <= k < tileNum ==> dup[k] == tileTypes[k % |tileTypes|]
  {
    dup := [];
    var i := 0;
    while i < tileNum
      invariant 0 <= i <= tileNum && |dup| == i
      invariant forall k :: 0 <= k < i ==> dup[k] == tileTypes[k % |tileTypes|]
    {
      dup := dup + [tileTypes[i % |tileTypes|]];
      i := i + 1;
    }
  }

  /** Cutting the ring into consecutive triples puts tile `j` of triple `k` on slot `3k + 1 + j`. */
  lemma TilesLayout(shuffled: seq<CardType>, triples: seq<seq<CardType>>)
    requires |shuffled| == 3 * |triples| && forall k :: 0 <= k < |triples| ==> triples[k] == shuffled[3 * k .. 3 * k + 3]
    ensures forall k, j :: 0 <= k < |triples| && 0 <= j < 3 ==> ([None] + Present(shuffled))[3 * k + 1 + j] == Some(triples[k][j])
  {
  }

  /** The volcano cards of a new board: the shuffled tiles, three at a time. */
  method BuildVolcanoCards(shuffled: seq<CardType>) returns (vcs: seq<VolcanoCard>)
    requires |shuffled| % 3 == 0
    ensures 3 * |vcs| == |shuffled|
    ensures forall k :: 0 <= k < |vcs| ==> fresh(vcs[k]) && vcs[k].tileTypes == shuffled[3 * k .. 3 * k + 3]
  {
    vcs := [];
    var i := 0;
    while i < |shuffled|
      invariant 0 <= i <= |shuffled| && i == 3 * |vcs|
      invariant forall k :: 0 <= k < |vcs| ==> fresh(vcs[k]) && vcs[k].tileTypes == shuffled[3 * k .. 3 * k + 3]
    {
      var card := new VolcanoCard([shuffled[i], shuffled[i + 1], shuffled[i + 2]]);
      vcs := vcs + [card];
      i := i + 3;
    }
  }

  /** The players of a new board: player `i` in cave `i`, the caves `spacing` tiles apart from tile 1. */
  method BuildPlayers(caves: seq<CardType>, spacing: int, totalTiles: int) returns (ps: seq<PlayerController>)
    ensures |ps| == |caves|
    ensures forall k :: 0 <= k < |ps| ==> fresh(ps[k]) && ps[k].State() == PlayerState(k * spacing + 1, 0, Some(caves[k]), totalTiles + 1, k)
    ensures forall a, b :: 0 <= a < b < |ps| ==> ps[a] != ps[b]
  {
    ps := [];
    var i := 0;
    while i < |caves|
      invariant 0 <= i <= |caves| && |ps| == i
      invariant forall k :: 0 <= k < i ==> fresh(ps[k]) && ps[k].State() == PlayerState(k * spacing + 1, 0, Some(caves[k]), totalTiles + 1, k)
      invariant forall a, b :: 0 <= a < b < i ==> ps[a] != ps[b]
    {
      var player := new PlayerController(caves[i], i * spacing + 1, totalTiles, i);
      ps := ps + [player];
      i := i + 1;
    }
  }

  /** The dragon cards of a new board, one per deck entry, each face-down and sharing `lock`. */
  method BuildDeck(values: seq<(CardType, int)>, lock: TransitionLock) returns (cs: seq<CardController>)
    ensures |cs| == |values|
    ensures forall k :: 0 <= k < |cs| ==>
      && fresh(cs[k]) && cs[k].lock == lock && cs[k].Valid() && !cs[k].flipped
      && cs[k].cardType == values[k].0 && cs[k].cardValue == values[k].1
      && cs[k].kind == (if values[k].0 == Swap then Special else Basic)
  {
    cs := [];
    var i := 0;
    while i < |values|
      invariant 0 <= i <= |values| && |cs| == i
      invariant forall k :: 0 <= k < i ==>
        && fresh(cs[k]) && cs[k].lock == lock && cs[k].Valid() && !cs[k].flipped
        && cs[k].cardType == values[k].0 && cs[k].cardValue == values[k].1
        && cs[k].kind == (if values[k].0 == Swap then Special else Basic)
    {
      var card := CreateCardController(values[i].0, values[i].1, lock);
      cs := cs + [card];
      i := i + 1;
    }
  }
}
