/**
 * `MainMenuUI`: the two counters the menu's arrow buttons step, and the
 * new game it starts with them. Drawing, the load and exit buttons and the
 * game manager are left out.
 */
module MainMenu {
  import opened JavaStrings
  import opened Cards
  import opened Board
  import opened GameModes

  const MinPlayerCount: int := 2
  const MaxPlayerCount: int := 4
  const MinVolcanoCardCount: int := 8
  const MaxVolcanoCardCount: int := 21

  /** A counter stepped by `valueChange` in `int` arithmetic, then pulled back into `[lo, hi]`. */
  function Clamp(value: int, valueChange: int, lo: int, hi: int): (r: int)
    requires lo <= hi
    ensures lo <= r <= hi
    ensures lo <= value + valueChange <= hi && IsIntSum(value, valueChange) ==> r == value + valueChange
    ensures value + valueChange < lo && IsIntSum(value, valueChange) ==> r == lo
    ensures value + valueChange > hi && IsIntSum(value, valueChange) ==> r == hi
  {
    var sum := Int32(value + valueChange);
    if sum < lo then lo else if sum > hi then hi else sum
  }

  /** The sum does not overflow an `int`. */
  predicate IsIntSum(a: int, b: int) {
    MinInt <= a + b <= MaxInt
  }

  /** A counter already in range and a step of one: the step is taken unless it crosses a bound. */
  lemma ArrowStep(value: int, step: int, lo: int, hi: int)
    requires lo <= value <= hi && (step == 1 || step == -1) && IsIntSum(lo, -1) && IsIntSum(hi, 1)
    ensures Clamp(value, step, lo, hi) == if lo <= value + step <= hi then value + step else value
  {
  }

  class MainMenuUI {
    var playerCount: int
    var volcanoCardCount: int

    /** Both counters stay within their bounds. */
    predicate Valid()
      reads this
    {
      MinPlayerCount <= playerCount <= MaxPlayerCount && MinVolcanoCardCount <= volcanoCardCount <= MaxVolcanoCardCount
    }

    /** Both counters start at their minimums. */
    constructor ()
      ensures Valid() && playerCount == MinPlayerCount && volcanoCardCount == MinVolcanoCardCount
    {
      playerCount := MinPlayerCount;
      volcanoCardCount := MinVolcanoCardCount;
    }

    /** `handlePlayerCountChange`: only the player count moves, and it stays in `[2, 4]`. */
    method HandlePlayerCountChange(valueChange: int)
      modifies this`playerCount
      ensures playerCount == Clamp(old(playerCount), valueChange, MinPlayerCount, MaxPlayerCount)
      ensures old(Valid()) ==> Valid()
    {
      playerCount := Int32(playerCount + valueChange);
      if playerCount < MinPlayerCount {
        playerCount := MinPlayerCount;
      } else if playerCount > MaxPlayerCount {
        playerCount := MaxPlayerCount;
      }
    }

    /** `handleVolcanoCardCountChange`: only the volcano-card count moves, and it stays in `[8, 21]`. */
    method HandleVolcanoCardCountChange(valueChange: int)
      modifies this`volcanoCardCount
      ensures volcanoCardCount == Clamp(old(volcanoCardCount), valueChange, MinVolcanoCardCount, MaxVolcanoCardCount)
      ensures old(Valid()) ==> Valid()
    {
      volcanoCardCount := Int32(volcanoCardCount + valueChange);
      if volcanoCardCount < MinVolcanoCardCount {
        volcanoCardCount := MinVolcanoCardCount;
      } else if volcanoCardCount > MaxVolcanoCardCount {
        volcanoCardCount := MaxVolcanoCardCount;
      }
    }

    /**
     * `handleNewGame`: a new game with the menu's counters, which always
     * meet what the game mode needs. `caveOrder`, `tileOrder` and
     * `cardOrder` are the shuffles the new game makes.
     */
    method HandleNewGame(lock: TransitionLock, caveOrder: seq<int>, tileOrder: seq<int>, cardOrder: seq<int>)
      returns (mode: BasicGameMode)
      requires Valid()
      requires IsPermutation(caveOrder, |CaveTypes|) && IsPermutation(tileOrder, 3 * volcanoCardCount)
      requires IsPermutation(cardOrder, |DragonCardValues|)
      ensures mode.playerCount == playerCount && mode.volcanoCardNum == volcanoCardCount
      ensures mode.gameLevel.Valid() && mode.gameLevel.Coherent() && mode.turnController.turnPlayerID == 0
    {
      mode := new BasicGameMode(playerCount, volcanoCardCount, lock, caveOrder, tileOrder, cardOrder);
    }
  }
}
