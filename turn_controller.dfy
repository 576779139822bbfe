/** `TurnController`: whose turn it is, as a round-robin counter over the players. */
module Turns {

  /** Java's `%`: the remainder takes the sign of the dividend. */
  function JavaRem(a: int, b: int): (r: int)
    requires b != 0
    ensures a >= 0 && b > 0 ==> r == a % b
  {
    var m := if b < 0 then -b else b;
    if a >= 0 then a % m else -((-a) % m)
  }

  /** The id `nextTurn` moves to: within one player count of 0, and never positive from below -1, as Java's `%` gives. */
  function NextId(id: int, playerCount: int): (r: int)
    requires playerCount != 0
    ensures playerCount > 0 ==> -playerCount < r < playerCount
    ensures playerCount > 0 && id + 1 < 0 ==> r <= 0
  {
    JavaRem(id + 1, playerCount)
  }

  /** A valid id stays valid, and the last player is followed by the first. */
  lemma NextIdInRange(id: int, playerCount: int)
    requires 0 <= id < playerCount
    ensures 0 <= NextId(id, playerCount) < playerCount
    ensures NextId(id, playerCount) == if id == playerCount - 1 then 0 else id + 1
  {
  }

  /** The id after `k` calls of `nextTurn`. */
  function AfterTurns(id: int, playerCount: int, k: nat): int
    requires playerCount != 0
  {
    if k == 0 then id else NextId(AfterTurns(id, playerCount, k - 1), playerCount)
  }

  /** Up to one full round, the id counts up and wraps past the last player once. */
  lemma {:induction false} AfterTurnsOffset(id: int, playerCount: int, k: nat)
    requires 0 <= id < playerCount && k <= playerCount
    ensures AfterTurns(id, playerCount, k) == if id + k < playerCount then id + k else id + k - playerCount
  {
    if k > 0 {
      AfterTurnsOffset(id, playerCount, k - 1);
      NextIdInRange(AfterTurns(id, playerCount, k - 1), playerCount);
    }
  }

  /** `playerCount` successive turns come back to the player who started. */
  lemma FullRound(id: int, playerCount: int)
    requires 0 <= id < playerCount
    ensures AfterTurns(id, playerCount, playerCount) == id
    ensures forall k :: 0 < k < playerCount ==> AfterTurns(id, playerCount, k) != id
  {
    AfterTurnsOffset(id, playerCount, playerCount);
    forall k | 0 < k < playerCount
      ensures AfterTurns(id, playerCount, k) != id
    {
      AfterTurnsOffset(id, playerCount, k);
    }
  }

  class TurnController {
    var turnPlayerID: int
    const playerCount: int

    /** `TurnController(startPlayerID, playerCount)`. */
    constructor (startPlayerID: int, playerCount: int)
      ensures turnPlayerID == startPlayerID && this.playerCount == playerCount
    {
      turnPlayerID := startPlayerID;
      this.playerCount := playerCount;
    }

    /** `TurnController(playerCount)`: player 0 starts. */
    constructor Default(playerCount: int)
      ensures turnPlayerID == 0 && this.playerCount == playerCount
    {
      turnPlayerID := 0;
      this.playerCount := playerCount;
    }

    /** `getTurnPlayerID`: the id `nextTurn` moves on; in range once it starts in range. */
    function GetTurnPlayerID(): (r: int)
      reads this
      ensures r == turnPlayerID
      ensures 0 <= r < playerCount ==> 0 <= NextId(r, playerCount) < playerCount
    {
      turnPlayerID
    }

    /** `nextTurn` (a zero player count makes Java's `%` throw). */
    method NextTurn()
      requires playerCount != 0
      modifies this`turnPlayerID
      ensures turnPlayerID == NextId(old(turnPlayerID), playerCount)
      ensures 0 <= old(turnPlayerID) < playerCount ==> 0 <= turnPlayerID < playerCount
    {
      turnPlayerID := JavaRem(turnPlayerID + 1, playerCount);
    }

    /** `reset`: back to player 0; the player count stays. */
    method Reset()
      modifies this`turnPlayerID
      ensures turnPlayerID == 0
    {
      turnPlayerID := 0;
    }
  }
}
