/**
 * `BasicGameMode`: the fixed tile, cave and dragon-card lists, the choice
 * of one cave per player, and the turn a new or a loaded game starts on.
 * The menus and win screens it also holds are left out.
 */
module GameModes {
  import opened Wrappers
  import opened CardTypes
  import opened JavaStrings
  import opened LinkedMaps
  import opened Turns
  import opened Cards
  import opened Players
  import opened BoardSaves
  import opened Rules
  import opened Board

  /** The four animals: the ring's tile types, cycled. */
  const TileTypes: seq<CardType> := [Salamander, BabyDragon, Bat, Spider]

  /** The four cave types, shuffled before the caves are handed out. */
  const CaveTypes: seq<CardType> := [Salamander, BabyDragon, Bat, Spider]

  /** The deck, before the board shuffles it. */
  const DragonCardValues: seq<(CardType, int)> := [
    (PirateDragon, -1), (PirateDragon, -1), (PirateDragon, -2), (PirateDragon, -2),
    (Bat, 1), (Bat, 2), (Bat, 3),
    (BabyDragon, 1), (BabyDragon, 2), (BabyDragon, 3),
    (Salamander, 1), (Salamander, 2), (Salamander, 3),
    (Spider, 1), (Spider, 2), (Spider, 3),
    (Swap, 1), (Swap, 1)]

  predicate IsAnimal(t: CardType) {
    t == Salamander || t == BabyDragon || t == Bat || t == Spider
  }

  type Card = (CardType, int)

  function Run(t: CardType): seq<Card> {
    [(t, 1), (t, 2), (t, 3)]
  }

  function Pair(c: Card): seq<Card> {
    [c, c]
  }

  lemma RunCount(t: CardType, c: Card)
    ensures multiset(Run(t))[c] == if c.0 == t && 1 <= c.1 <= 3 then 1 else 0
  {
    assert multiset(Run(t)) == multiset{(t, 1)} + multiset{(t, 2)} + multiset{(t, 3)};
  }

  lemma PairCount(p: Card, c: Card)
    ensures multiset(Pair(p))[c] == if c == p then 2 else 0
  {
    assert multiset(Pair(p)) == multiset{p} + multiset{p};
  }

  /** The deck in the order it is listed: two pairs of pirate dragons, a run of 1..3 per animal, two swaps. */
  lemma DeckSplit()
    ensures DragonCardValues
         == Pair((PirateDragon, -1)) + Pair((PirateDragon, -2)) + Run(Bat) + Run(BabyDragon) + Run(Salamander) + Run(Spider) + Pair((Swap, 1))
  {
  }

  lemma SumCount(a: seq<Card>, b: seq<Card>, c: seq<Card>, d: seq<Card>, e: seq<Card>, f: seq<Card>, g: seq<Card>, x: Card)
    ensures multiset(a + b + c + d + e + f + g)[x]
         == multiset(a)[x] + multiset(b)[x] + multiset(c)[x] + multiset(d)[x] + multiset(e)[x] + multiset(f)[x] + multiset(g)[x]
  {
  }

  /**
   * The deck holds 18 cards: every animal once with each of 1, 2 and 3,
   * the pirate dragon twice with -1 and twice with -2, two swap cards of
   * value 1, and nothing else.
   */
  lemma DeckComposition(x: Card)
    ensures |DragonCardValues| == 18
    ensures multiset(DragonCardValues)[x]
         == (if IsAnimal(x.0) && 1 <= x.1 <= 3 then 1 else 0)
          + (if x == (PirateDragon, -1) || x == (PirateDragon, -2) || x == (Swap, 1) then 2 else 0)
  {
    DeckSplit();
    SumCount(Pair((PirateDragon, -1)), Pair((PirateDragon, -2)), Run(Bat), Run(BabyDragon), Run(Salamander), Run(Spider), Pair((Swap, 1)), x);
    PairCount((PirateDragon, -1), x);
    PairCount((PirateDragon, -2), x);
    PairCount((Swap, 1), x);
    RunCount(Bat, x);
    RunCount(BabyDragon, x);
    RunCount(Salamander, x);
    RunCount(Spider, x);
  }

  /** The tile and cave lists are the four animals, each once. */
  lemma AnimalLists()
    ensures TileTypes == CaveTypes && |CaveTypes| == 4
    ensures forall t :: t in CaveTypes <==> IsAnimal(t)
    ensures forall a, b :: 0 <= a < b < |CaveTypes| ==> CaveTypes[a] != CaveTypes[b]
  {
  }

  /**
   * The cave list of a new game: the first `playerCount` entries of the
   * shuffled cave types (`caveOrder` is the shuffle); more than four players
   * make Java read past the list.
   */
  method CaveList(caveOrder: seq<int>, playerCount: int) returns (caveList: seq<CardType>)
    requires IsPermutation(caveOrder, |CaveTypes|) && playerCount <= |CaveTypes|
    ensures |caveList| == Runs(playerCount)
    ensures caveList == Shuffled(CaveTypes, caveOrder)[..Runs(playerCount)]
    ensures forall k :: 0 <= k < |caveList| ==> IsAnimal(caveList[k])
    ensures forall a, b :: 0 <= a < b < |caveList| ==> caveList[a] != caveList[b]
  {
    var caveTypes := Shuffled(CaveTypes, caveOrder);
    ShuffledDistinct(CaveTypes, caveOrder);
    caveList := [];
    var i := 0;
    while i < playerCount
      invariant 0 <= i <= Runs(playerCount) && caveList == caveTypes[..i]
    {
      caveList := caveList + [caveTypes[i]];
      i := i + 1;
    }
  }

  /** A shuffle of a list without repeats has none either. */
  lemma ShuffledDistinct<T>(xs: seq<T>, order: seq<int>)
    requires IsPermutation(order, |xs|)
    requires forall a, b :: 0 <= a < b < |xs| ==> xs[a] != xs[b]
    ensures forall a, b :: 0 <= a < b < |xs| ==> Shuffled(xs, order)[a] != Shuffled(xs, order)[b]
  {
    var r := Shuffled(xs, order);
    forall a, b | 0 <= a < b < |xs| ensures r[a] != r[b] {
      if order[a] < order[b] {
        assert xs[order[a]] != xs[order[b]];
      } else {
        assert xs[order[b]] != xs[order[a]];
      }
    }
  }

  /** The turn a loaded game starts on: the saved `currentPlayer` less one, in `int` arithmetic. */
  function StartingPlayer(currentPlayer: int): (id: int)
    ensures MinInt <= currentPlayer - 1 <= MaxInt ==> id == currentPlayer - 1
    ensures currentPlayer == MinInt ==> id == MaxInt
  {
    Int32(currentPlayer - 1)
  }

  /** Saving writes `turn + 1` and loading subtracts the one again: the turn comes back. */
  lemma TurnRoundTrip(s: BoardSave)
    requires Storable(s) && IsInt(s.turnPlayerID) && IsInt(s.turnPlayerID + 1)
    ensures GetInt(BoardEntries(s), "currentPlayer") == Some(s.turnPlayerID + 1)
    ensures StartingPlayer(GetInt(BoardEntries(s), "currentPlayer").value) == s.turnPlayerID
  {
    HeaderRead(s);
    GetIntOf(BoardEntries(s), "currentPlayer", s.turnPlayerID + 1);
  }

  /** The cave list drawn from the shuffled cave types, and the board built on it from the fixed tile list and deck. */
  method NewBoard(tc: TurnController, lock: TransitionLock, volcanoCardNum: int,
                  caveOrder: seq<int>, tileOrder: seq<int>, cardOrder: seq<int>) returns (board: GameBoard)
    requires 1 <= tc.playerCount <= |CaveTypes| && tc.turnPlayerID == 0 && volcanoCardNum >= 1
    requires IsPermutation(caveOrder, |CaveTypes|) && IsPermutation(tileOrder, 3 * volcanoCardNum)
    requires IsPermutation(cardOrder, |DragonCardValues|)
    ensures board.turnController == tc && board.lock == lock
    ensures board.caves == Shuffled(CaveTypes, caveOrder)[..tc.playerCount]
    ensures forall a, b :: 0 <= a < b < tc.playerCount ==> board.caves[a] != board.caves[b]
    ensures board.Valid() && board.Coherent() && board.AllFaceDown()
    ensures |board.tiles| == 3 * volcanoCardNum + 1 && |board.dragonCards| == |DragonCardValues|
  {
    var caveList := CaveList(caveOrder, tc.playerCount);
    board := new GameBoard(tc, lock, caveList, TileTypes, volcanoCardNum, DragonCardValues, tileOrder, cardOrder);
  }

  class BasicGameMode {
    const playerCount: int
    const volcanoCardNum: int
    const turnController: TurnController
    const gameLevel: GameBoard

    /**
     * A new game: player 0 starts, each player gets a distinct animal cave
     * from the shuffled cave list, and the board is built from the fixed
     * tile list and deck. `caveOrder`, `tileOrder` and `cardOrder` are the
     * three shuffles.
     */
    constructor (playerCount: int, volcanoCardNum: int, lock: TransitionLock,
                 caveOrder: seq<int>, tileOrder: seq<int>, cardOrder: seq<int>)
      requires 1 <= playerCount <= |CaveTypes| && volcanoCardNum >= 1
      requires IsPermutation(caveOrder, |CaveTypes|) && IsPermutation(tileOrder, 3 * volcanoCardNum)
      requires IsPermutation(cardOrder, |DragonCardValues|)
      ensures this.playerCount == playerCount && this.volcanoCardNum == volcanoCardNum
      ensures turnController.turnPlayerID == 0 && turnController.playerCount == playerCount
      ensures gameLevel.turnController == turnController && gameLevel.lock == lock
      ensures gameLevel.caves == Shuffled(CaveTypes, caveOrder)[..playerCount]
      ensures forall a, b :: 0 <= a < b < playerCount ==> gameLevel.caves[a] != gameLevel.caves[b]
      ensures gameLevel.Valid() && gameLevel.Coherent() && gameLevel.AllFaceDown()
      ensures |gameLevel.tiles| == 3 * volcanoCardNum + 1 && |gameLevel.dragonCards| == |DragonCardValues|
    {
      this.playerCount := playerCount;
      var tc := new TurnController.Default(playerCount);
      this.turnController := tc;
      this.volcanoCardNum := volcanoCardNum;
      var board := NewBoard(tc, lock, volcanoCardNum, caveOrder, tileOrder, cardOrder);
      this.gameLevel := board;
    }

    /**
     * A loaded game: the player count and `currentPlayer - 1` set up the
     * turn controller, and the board is loaded from the same map. Java
     * throws where any of these cannot be read. The volcano-card count is
     * left at Java's default of 0.
     */
    constructor Load(lock: TransitionLock, properties: seq<Entry>)
      requires GetInt(properties, "playerCount").Some? && GetInt(properties, "currentPlayer").Some?
      requires LoadBoard(properties).Some?
      ensures playerCount == GetInt(properties, "playerCount").value && volcanoCardNum == 0
      ensures turnController.turnPlayerID == StartingPlayer(GetInt(properties, "currentPlayer").value)
      ensures turnController.playerCount == playerCount == |gameLevel.players|
      ensures gameLevel.turnController == turnController && gameLevel.lock == lock
      ensures StatesOf(gameLevel.players) == LoadBoard(properties).value.players
      ensures CardStatesOf(gameLevel.dragonCards) == LoadBoard(properties).value.cards
      ensures gameLevel.caves == LoadBoard(properties).value.caves
      ensures gameLevel.TilesFromVolcanoCards()
      ensures Consistent(gameLevel.tileOccupation, StatesOf(gameLevel.players))
    {
      var count := GetInt(properties, "playerCount").value;
      var startingPlayer := StartingPlayer(GetInt(properties, "currentPlayer").value);
      var tc := new TurnController(startingPlayer, count);
      LoadedPlayerCount(properties);
      var board := new GameBoard.Load(tc, lock, properties);
      this.playerCount := count;
      this.volcanoCardNum := 0;
      this.turnController := tc;
      this.gameLevel := board;
    }
  }
}
