/**
 * The movement rules of `GameBoard.handleCardAction` and
 * `GameBoard.handleSwapCardAction`, as functions of the board's values: the
 * tile types, the occupation flags and the players' fields. The board's
 * methods are proved to change its state exactly as these functions say.
 */
module Rules {
  import opened Wrappers
  import opened CardTypes
  import opened Players

  // ---------------------------------------------------------------- where a card sends the mover

  /** A drawn card either leaves the mover where it is, or sends it to `target`, spending `steps`. */
  datatype Move = Stay | MoveTo(target: int, steps: int)

  /**
   * The target `handleCardAction` computes on a ring of `n` tiles. A card of
   * the player's tile type whose value is within `tilesLeft` moves it: out of
   * the cave first (onto `caveTileID`, one step), then forward, wrapping by
   * subtracting `n` once, or home (tile 0) when the remaining value equals
   * `tilesLeft`. A negative card moves a player who is on the ring backward,
   * wrapping by adding `n` once, whatever its type.
   */
  function PlannedMove(n: int, p: PlayerState, cardType: CardType, cardValue: int): (m: Move)
    ensures m.MoveTo? && p.currentTileID == 0 ==> Matches(p, cardType, cardValue) && cardValue > 0 && m.steps == cardValue - 1
    ensures m.MoveTo? && p.currentTileID != 0 ==> m.steps == cardValue != 0 && (cardValue > 0 ==> Matches(p, cardType, cardValue))
  {
    var (reached, value, moved) := ForwardPart(n, p, cardType, cardValue);
    var backward := value < 0 && reached > 0;
    var behind := if reached + value <= 0 then reached + value + n else reached + value;
    if moved || backward then MoveTo(if backward then behind else reached, value) else Stay
  }

  /**
   * The matching-card part of `PlannedMove`: the tile reached, the value
   * left, and whether the player has moved (out of the cave or forward).
   */
  function ForwardPart(n: int, p: PlayerState, cardType: CardType, cardValue: int): (r: (int, int, bool))
    ensures !r.2 ==> r.0 == p.currentTileID && r.1 == cardValue
    ensures r.2 ==> Matches(p, cardType, cardValue) && cardValue > 0 && r.1 == (if p.currentTileID == 0 then cardValue - 1 else cardValue)
  {
    var matched := Some(cardType) == p.currentTileType && cardValue <= p.tilesLeft;
    var (from, value, exit) := ExitPart(p, cardType, cardValue);
    var forward := matched && value > 0;
    var home := forward && value == p.tilesLeft;
    var ahead := if from + value > n then from + value - n else from + value;
    var reached := if !forward then from else if home then 0 else ahead;
    (reached, value, exit || forward)
  }

  /** The cave-exit part of `ForwardPart`: where counting starts, the value left, and whether the player left its cave. */
  function ExitPart(p: PlayerState, cardType: CardType, cardValue: int): (r: (int, int, bool))
    ensures r.2 ==> p.currentTileID == 0 && Matches(p, cardType, cardValue) && r.0 == p.caveTileID && r.1 == cardValue - 1
    ensures !r.2 ==> r.0 == p.currentTileID && r.1 == cardValue
  {
    var exit := Some(cardType) == p.currentTileType && cardValue <= p.tilesLeft && p.currentTileID == 0 && cardValue > 0;
    (if exit then p.caveTileID else p.currentTileID, if exit then cardValue - 1 else cardValue, exit)
  }

  /** Whether a card matches the player: its type is the player's tile type and its value is within `tilesLeft`. */
  predicate Matches(p: PlayerState, cardType: CardType, cardValue: int) {
    Some(cardType) == p.currentTileType && cardValue <= p.tilesLeft
  }

  /**
   * A card leaves the player in place exactly when it is a positive card that
   * does not match, a zero card, or a negative card while the player is in
   * its cave.
   */
  lemma StayExactly(n: int, p: PlayerState, cardType: CardType, cardValue: int)
    requires p.currentTileID >= 0
    ensures PlannedMove(n, p, cardType, cardValue) == Stay <==>
      || (cardValue > 0 && !Matches(p, cardType, cardValue))
      || cardValue == 0
      || (cardValue < 0 && p.currentTileID == 0)
  {
  }

  /** The tile `steps` tiles from `from` on a ring numbered 1..n. */
  function RingPosition(from: int, steps: int, n: int): (t: int)
    requires n > 0
    ensures 1 <= t <= n
  {
    (from - 1 + steps) % n + 1
  }

  lemma RingPositionNear(from: int, steps: int, n: int)
    requires n > 0 && 1 <= from <= n && -n <= steps <= n
    ensures RingPosition(from, steps, n) ==
      if from + steps > n then from + steps - n
      else if from + steps <= 0 then from + steps + n
      else from + steps
  {
    var x := from - 1 + steps;
    var r := if x >= n then x - n else if x < 0 then x + n else x;
    ModOnce(x, n, r);
    assert RingPosition(from, steps, n) == r + 1;
  }

  /** A value at most one ring length outside `[0, n)` is brought back by adding or subtracting `n` once. */
  lemma ModOnce(x: int, n: int, r: int)
    requires n > 0 && 0 <= r < n && (x == r || x == r + n || x == r - n)
    ensures x % n == r
  {
  }

  /**
   * Every move ends on the ring or at home (tile 0), and the target is the
   * ring position `steps` tiles from where the move starts: `caveTileID` for
   * a cave exit (one step already spent), the player's tile otherwise.
   */
  lemma MoveLandsOnRing(n: int, p: PlayerState, cardType: CardType, cardValue: int)
    requires n > 0 && 0 <= p.currentTileID <= n && 1 <= p.caveTileID <= n && -n <= cardValue <= n
    ensures match PlannedMove(n, p, cardType, cardValue)
      case Stay => true
      case MoveTo(t, s) =>
        && 0 <= t <= n
        && (p.currentTileID == 0 ==> s == cardValue - 1 && t == RingPosition(p.caveTileID, s, n))
        && (p.currentTileID != 0 ==> s == cardValue && (t == 0 <==> 0 < s == p.tilesLeft) && (t != 0 ==> t == RingPosition(p.currentTileID, s, n)))
  {
    if p.currentTileID == 0 {
      if cardValue > 0 {
        RingPositionNear(p.caveTileID, cardValue - 1, n);
      }
    } else {
      RingPositionNear(p.currentTileID, cardValue, n);
    }
  }

  /** A matching card whose value equals `tilesLeft` takes a player on the ring home, spending all of it. */
  lemma ExactValueGoesHome(n: int, p: PlayerState, cardType: CardType, cardValue: int)
    requires p.currentTileID > 0 && Matches(p, cardType, cardValue) && cardValue == p.tilesLeft > 0
    ensures PlannedMove(n, p, cardType, cardValue) == MoveTo(0, p.tilesLeft)
  {
  }

  /**
   * The exact-home test runs after the cave exit has spent its step, so a
   * player leaving its cave never goes home in the same move, even when the
   * card's value equals its `tilesLeft`.
   */
  lemma CaveExitNeverHome(n: int, p: PlayerState, cardType: CardType, cardValue: int)
    requires n > 0 && p.currentTileID == 0 && 1 <= p.caveTileID <= n && cardValue <= n
    requires Matches(p, cardType, cardValue) && cardValue > 0
    ensures PlannedMove(n, p, cardType, cardValue) == MoveTo(RingPosition(p.caveTileID, cardValue - 1, n), cardValue - 1)
  {
    RingPositionNear(p.caveTileID, cardValue - 1, n);
  }

  // ---------------------------------------------------------------- what the move does to the board

  /** The first player, in list order, standing on tile `t`. */
  function FirstOn(ps: seq<PlayerState>, t: int): (r: Option<nat>)
    ensures r.None? <==> !Occupied(ps, t)
    ensures r.Some? ==> r.value < |ps| && ps[r.value].currentTileID == t
    ensures r.Some? ==> forall k :: 0 <= k < r.value ==> ps[k].currentTileID != t
  {
    if ps == [] then None
    else if ps[0].currentTileID == t then Some(0)
    else
      match FirstOn(ps[1..], t)
      case None =>
        assert forall k :: 0 <= k < |ps| ==> ps[k].currentTileID != t by {
          forall k | 0 < k < |ps| ensures ps[k].currentTileID != t {
            assert ps[k] == ps[1..][k - 1];
          }
        }
        None
      case Some(j) =>
        assert ps[j + 1] == ps[1..][j];
        Some(j + 1)
  }

  /** Some player stands on tile `t`. */
  predicate Occupied(ps: seq<PlayerState>, t: int) {
    exists k :: 0 <= k < |ps| && ps[k].currentTileID == t
  }

  /** The board state `handleCardAction` leaves, and whether it advances the turn and signals a win. */
  datatype Outcome = Outcome(occupation: seq<bool>, players: seq<PlayerState>, advance: bool, won: bool)

  /** The tiles of the ring are `1..n`, with `tiles` and `occ` of length `n + 1`. */
  predicate BoardShape(tiles: seq<Option<CardType>>, occ: seq<bool>) {
    |tiles| >= 2 && |occ| == |tiles|
  }

  /** Every player stands on a slot of the board and has a cave tile on the ring. */
  predicate OnBoard(ps: seq<PlayerState>, n: int) {
    forall k :: 0 <= k < |ps| ==> 0 <= ps[k].currentTileID <= n && 1 <= ps[k].caveTileID <= n
  }

  /** A move with card value `v`, by player `i`, can be computed on this board. */
  predicate CanPlay(tiles: seq<Option<CardType>>, occ: seq<bool>, ps: seq<PlayerState>, i: int, v: int) {
    BoardShape(tiles, occ) && 0 <= i < |ps| && OnBoard(ps, |tiles| - 1) && -(|tiles| - 1) <= v <= |tiles| - 1
  }

  lemma PlannedMoveInRange(tiles: seq<Option<CardType>>, occ: seq<bool>, ps: seq<PlayerState>, i: int, cardType: CardType, v: int)
    requires CanPlay(tiles, occ, ps, i, v)
    ensures PlannedMove(|tiles| - 1, ps[i], cardType, v).MoveTo? ==> 0 <= PlannedMove(|tiles| - 1, ps[i], cardType, v).target < |tiles|
  {
    MoveLandsOnRing(|tiles| - 1, ps[i], cardType, v);
  }

  /**
   * `handleCardAction` for player `i`. No move: the turn passes. A move onto a
   * free tile: the mover takes the tile, its type and spends the steps; the
   * old tile is cleared and the new one flagged; the turn stays. A move from
   * the cave onto an occupied tile: the turn passes and nothing else changes.
   * Any other move onto an occupied tile bumps the first player found there
   * back to the mover's old tile, giving it the steps the mover spent; both
   * tiles are flagged and the turn passes. If nobody is found there, nothing
   * happens at all. A win is signalled when the mover has no tiles left.
   */
  function ApplyCard(tiles: seq<Option<CardType>>, occ: seq<bool>, ps: seq<PlayerState>, i: int, cardType: CardType, v: int): (r: Outcome)
    requires CanPlay(tiles, occ, ps, i, v)
    ensures |r.players| == |ps| && |r.occupation| == |occ|
    ensures forall k :: 0 <= k < |ps| ==> r.players[k].caveTileID == ps[k].caveTileID && r.players[k].currentCaveID == ps[k].currentCaveID
    ensures forall k :: 0 <= k < |ps| && k != i && r.players[k] != ps[k] ==> r.players[k].currentTileID == ps[i].currentTileID
    ensures r.won ==> r.players[i].tilesLeft == 0
  {
    PlannedMoveInRange(tiles, occ, ps, i, cardType, v);
    match PlannedMove(|tiles| - 1, ps[i], cardType, v)
    case Stay => Outcome(occ, ps, true, false)
    case MoveTo(cur, steps) => ApplyMoveTo(tiles, occ, ps, i, cur, steps)
  }

  /** The part of `ApplyCard` after the target `cur` is known. */
  function ApplyMoveTo(tiles: seq<Option<CardType>>, occ: seq<bool>, ps: seq<PlayerState>, i: int, cur: int, steps: int): (r: Outcome)
    requires BoardShape(tiles, occ) && 0 <= i < |ps| && 0 <= ps[i].currentTileID < |tiles| && 0 <= cur < |tiles|
    ensures |r.players| == |ps| && |r.occupation| == |occ|
    ensures forall k :: 0 <= k < |ps| ==> r.players[k].caveTileID == ps[k].caveTileID && r.players[k].currentCaveID == ps[k].currentCaveID
    ensures forall k :: 0 <= k < |ps| && k != i && r.players[k] != ps[k] ==> r.players[k].currentTileID == ps[i].currentTileID
    ensures r.won ==> r.players[i].tilesLeft == 0
  {
    var prev := ps[i].currentTileID;
    if occ[cur] then
      if prev == 0 then Outcome(occ, ps, true, false)
      else
        match FirstOn(ps, cur)
        case None => Outcome(occ, ps, false, false)
        case Some(j) =>
          var bumped := Bumped(tiles, ps, i, j, cur, steps);
          Outcome(occ[prev := true][cur := true], bumped, true, bumped[i].tilesLeft == 0)
    else
      var moved := Moved(tiles, ps, i, cur, steps);
      Outcome(occ[prev := false][cur := true], moved, false, moved[i].tilesLeft == 0)
  }

  /** Player `i` takes tile `cur` and its type, spending `steps`. */
  function Moved(tiles: seq<Option<CardType>>, ps: seq<PlayerState>, i: int, cur: int, steps: int): (r: seq<PlayerState>)
    requires 0 <= i < |ps| && 0 <= cur < |tiles|
    ensures |r| == |ps| && r[i].currentTileID == cur && r[i].currentTileType == tiles[cur] && r[i].tilesLeft == ps[i].tilesLeft - steps
    ensures r[i].caveTileID == ps[i].caveTileID && r[i].currentCaveID == ps[i].currentCaveID
    ensures forall k :: 0 <= k < |ps| && k != i ==> r[k] == ps[k]
  {
    ps[i := ps[i].(currentTileID := cur, currentTileType := tiles[cur], tilesLeft := ps[i].tilesLeft - steps)]
  }

  /** Player `i` moves to `cur`, then player `j` (read after that move) goes back to `i`'s old tile, gaining `steps`. */
  function Bumped(tiles: seq<Option<CardType>>, ps: seq<PlayerState>, i: int, j: int, cur: int, steps: int): (r: seq<PlayerState>)
    requires 0 <= i < |ps| && 0 <= j < |ps| && 0 <= cur < |tiles| && 0 <= ps[i].currentTileID < |tiles|
    ensures |r| == |ps| && forall k :: 0 <= k < |ps| && k != i && k != j ==> r[k] == ps[k]
    ensures forall k :: 0 <= k < |ps| ==> r[k].caveTileID == ps[k].caveTileID && r[k].currentCaveID == ps[k].currentCaveID
    ensures j != i ==> && r[i].currentTileID == cur && r[j].currentTileID == ps[i].currentTileID
                       && r[j].currentTileType == tiles[ps[i].currentTileID]
                       && r[i].tilesLeft + r[j].tilesLeft == ps[i].tilesLeft + ps[j].tilesLeft
  {
    var prev := ps[i].currentTileID;
    var moved := Moved(tiles, ps, i, cur, steps);
    moved[j := moved[j].(currentTileID := prev, currentTileType := tiles[prev], tilesLeft := moved[j].tilesLeft + steps)]
  }

  /**
   * For a player with tiles left, a win is signalled only by a matching card
   * of exactly its `tilesLeft` played from the ring, which takes it home; and
   * such a card always wins unless home is flagged with nobody found there.
   */
  lemma WinExactlyAtHome(tiles: seq<Option<CardType>>, occ: seq<bool>, ps: seq<PlayerState>, i: int, cardType: CardType, v: int)
    requires CanPlay(tiles, occ, ps, i, v) && ps[i].tilesLeft > 0
    ensures var r := ApplyCard(tiles, occ, ps, i, cardType, v);
      r.won ==> && ps[i].currentTileID != 0 && Matches(ps[i], cardType, v) && v == ps[i].tilesLeft
                && r.players[i].currentTileID == 0 && r.players[i].tilesLeft == 0
    ensures var r := ApplyCard(tiles, occ, ps, i, cardType, v);
      ps[i].currentTileID != 0 && Matches(ps[i], cardType, v) && v == ps[i].tilesLeft && (!occ[0] || FirstOn(ps, 0).Some?) ==> r.won
  {
    MoveLandsOnRing(|tiles| - 1, ps[i], cardType, v);
    PlannedMoveInRange(tiles, occ, ps, i, cardType, v);
  }

  // ---------------------------------------------------------------- the occupation invariant

  /** For every ring tile, its flag is set exactly when some player stands on it. */
  predicate Consistent(occ: seq<bool>, ps: seq<PlayerState>) {
    forall t :: 1 <= t < |occ| ==> (occ[t] <==> Occupied(ps, t))
  }

  /** No two players share a ring tile (any number may be at slot 0). */
  predicate Spread(ps: seq<PlayerState>) {
    forall a, b :: 0 <= a < |ps| && 0 <= b < |ps| && a != b && ps[a].currentTileID == ps[b].currentTileID ==> ps[a].currentTileID == 0
  }

  /** The board invariant of the movement rules. */
  predicate Coherent(tiles: seq<Option<CardType>>, occ: seq<bool>, ps: seq<PlayerState>) {
    BoardShape(tiles, occ) && OnBoard(ps, |tiles| - 1) && Consistent(occ, ps) && Spread(ps)
  }

  /** `ps'` is `ps` with the tiles of players `i` and `j` exchanged (their other fields may differ). */
  predicate TilesExchanged(ps: seq<PlayerState>, ps': seq<PlayerState>, i: int, j: int) {
    && |ps'| == |ps| && 0 <= i < |ps| && 0 <= j < |ps|
    && ps'[i].currentTileID == ps[j].currentTileID && ps'[j].currentTileID == ps[i].currentTileID
    && forall k :: 0 <= k < |ps| && k != i && k != j ==> ps'[k].currentTileID == ps[k].currentTileID
  }

  lemma ExchangeKeepsPositions(ps: seq<PlayerState>, ps': seq<PlayerState>, i: int, j: int)
    requires TilesExchanged(ps, ps', i, j)
    ensures forall t :: Occupied(ps', t) <==> Occupied(ps, t)
    ensures Spread(ps) ==> Spread(ps')
  {
    forall t ensures Occupied(ps', t) <==> Occupied(ps, t) {
      if Occupied(ps, t) {
        var k :| 0 <= k < |ps| && ps[k].currentTileID == t;
        var k' := if k == i then j else if k == j then i else k;
        assert ps'[k'].currentTileID == t;
      }
      if Occupied(ps', t) {
        var k :| 0 <= k < |ps'| && ps'[k].currentTileID == t;
        var k' := if k == i then j else if k == j then i else k;
        assert ps[k'].currentTileID == t;
      }
    }
    if Spread(ps) {
      forall a, b | 0 <= a < |ps'| && 0 <= b < |ps'| && a != b && ps'[a].currentTileID == ps'[b].currentTileID
        ensures ps'[a].currentTileID == 0
      {
        var a' := if a == i then j else if a == j then i else a;
        var b' := if b == i then j else if b == j then i else b;
        if i == j {
          assert ps[a'].currentTileID == ps'[a].currentTileID;
        }
        assert ps[a'].currentTileID == ps'[a].currentTileID && ps[b'].currentTileID == ps'[b].currentTileID;
      }
    }
  }

  /** Every move keeps each player on a slot of the board; the flags keep their length. */
  lemma ApplyCardOnBoard(tiles: seq<Option<CardType>>, occ: seq<bool>, ps: seq<PlayerState>, i: int, cardType: CardType, v: int)
    requires CanPlay(tiles, occ, ps, i, v)
    ensures var r := ApplyCard(tiles, occ, ps, i, cardType, v);
      |r.players| == |ps| && |r.occupation| == |occ| && OnBoard(r.players, |tiles| - 1)
  {
    PlannedMoveInRange(tiles, occ, ps, i, cardType, v);
    match PlannedMove(|tiles| - 1, ps[i], cardType, v)
    case Stay =>
    case MoveTo(cur, steps) => ApplyMoveToOnBoard(tiles, occ, ps, i, cur, steps);
  }

  lemma ApplyMoveToOnBoard(tiles: seq<Option<CardType>>, occ: seq<bool>, ps: seq<PlayerState>, i: int, cur: int, steps: int)
    requires BoardShape(tiles, occ) && 0 <= i < |ps| && OnBoard(ps, |tiles| - 1) && 0 <= cur < |tiles|
    ensures var r := ApplyMoveTo(tiles, occ, ps, i, cur, steps);
      |r.players| == |ps| && |r.occupation| == |occ| && OnBoard(r.players, |tiles| - 1)
  {
    var r := ApplyMoveTo(tiles, occ, ps, i, cur, steps);
    assert forall k :: 0 <= k < |ps| ==> r.players[k].caveTileID == ps[k].caveTileID;
  }

  /** Every way `handleCardAction` can go keeps the occupation flags in step with the players. */
  lemma ApplyCardCoherent(tiles: seq<Option<CardType>>, occ: seq<bool>, ps: seq<PlayerState>, i: int, cardType: CardType, v: int,
                           occ': seq<bool>, ps': seq<PlayerState>)
    requires CanPlay(tiles, occ, ps, i, v) && Coherent(tiles, occ, ps)
    requires occ' == ApplyCard(tiles, occ, ps, i, cardType, v).occupation && ps' == ApplyCard(tiles, occ, ps, i, cardType, v).players
    ensures |ps'| == |ps| && Coherent(tiles, occ', ps')
  {
    PlannedMoveInRange(tiles, occ, ps, i, cardType, v);
    var m := PlannedMove(|tiles| - 1, ps[i], cardType, v);
    if m.MoveTo? {
      var prev := ps[i].currentTileID;
      if occ[m.target] {
        if prev != 0 {
          var j := FirstOn(ps, m.target);
          if j.Some? {
            BumpCoherent(tiles, occ, ps, i, j.value, m.target, m.steps);
          }
        }
      } else {
        FreeMoveCoherent(tiles, occ, ps, i, m.target, m.steps);
      }
    }
  }

  lemma BumpCoherent(tiles: seq<Option<CardType>>, occ: seq<bool>, ps: seq<PlayerState>, i: int, j: int, cur: int, steps: int)
    requires Coherent(tiles, occ, ps) && 0 <= i < |ps| && 0 <= j < |ps| && 0 <= cur < |tiles| && occ[cur]
    requires ps[j].currentTileID == cur && ps[i].currentTileID != 0
    ensures Coherent(tiles, occ[ps[i].currentTileID := true][cur := true], Bumped(tiles, ps, i, j, cur, steps))
  {
    var n := |tiles| - 1;
    var p := ps[i];
    var prev := p.currentTileID;
    var moved := ps[i := p.(currentTileID := cur, currentTileType := tiles[cur], tilesLeft := p.tilesLeft - steps)];
    var bumped := Bumped(tiles, ps, i, j, cur, steps);
    assert TilesExchanged(ps, bumped, i, j);
    ExchangeKeepsPositions(ps, bumped, i, j);
    assert occ[prev] by { assert Occupied(ps, prev) by { assert ps[i].currentTileID == prev; } }
    var occ' := occ[prev := true][cur := true];
    assert forall t :: 1 <= t < |occ| ==> occ'[t] == occ[t];
    assert OnBoard(bumped, n) by {
      forall k | 0 <= k < |bumped| ensures 0 <= bumped[k].currentTileID <= n && 1 <= bumped[k].caveTileID <= n {
        assert bumped[k].caveTileID == ps[k].caveTileID;
      }
    }
  }

  lemma FreeMoveCoherent(tiles: seq<Option<CardType>>, occ: seq<bool>, ps: seq<PlayerState>, i: int, cur: int, steps: int)
    requires Coherent(tiles, occ, ps) && 0 <= i < |ps| && 0 <= cur < |tiles| && !occ[cur]
    ensures Coherent(tiles, occ[ps[i].currentTileID := false][cur := true], Moved(tiles, ps, i, cur, steps))
  {
    var p := ps[i];
    var prev := p.currentTileID;
    var moved := ps[i := p.(currentTileID := cur, currentTileType := tiles[cur], tilesLeft := p.tilesLeft - steps)];
    var occ' := occ[prev := false][cur := true];
    forall t | 1 <= t < |occ'| ensures occ'[t] <==> Occupied(moved, t) {
      if t == cur {
        assert moved[i].currentTileID == t;
      } else if t == prev {
        forall k | 0 <= k < |moved| ensures moved[k].currentTileID != t {
          if k != i {
            assert ps[k].currentTileID != ps[i].currentTileID;
          }
        }
      } else {
        if Occupied(ps, t) {
          var k :| 0 <= k < |ps| && ps[k].currentTileID == t;
          assert moved[k].currentTileID == t;
        }
        if Occupied(moved, t) {
          var k :| 0 <= k < |moved| && moved[k].currentTileID == t;
          assert ps[k].currentTileID == t;
        }
      }
    }
    assert cur != 0 ==> !Occupied(ps, cur);
    assert forall k :: 0 <= k < |ps| && k != i ==> moved[k] == ps[k];
  }

  /** On a coherent board a flagged ring tile always has a player on it, so the "nobody found" case only arises at home. */
  lemma OccupantFound(tiles: seq<Option<CardType>>, occ: seq<bool>, ps: seq<PlayerState>, t: int)
    requires Coherent(tiles, occ, ps) && 1 <= t < |occ| && occ[t]
    ensures FirstOn(ps, t).Some?
  {
  }

  // ---------------------------------------------------------------- the swap card

  /** `Math.floorMod(x, n)` for a positive `n`: Dafny's `%` already rounds toward minus infinity. */
  function FloorMod(x: int, n: int): (r: int)
    requires n > 0
    ensures 0 <= r < n && x - r == n * (x / n)
  {
    x % n
  }

  /** The fewer steps, forward or backward, between two tiles of a ring of `n`. */
  function Distance(a: int, b: int, n: int): (d: int)
    requires n > 0
    ensures 0 <= d < n
    ensures d == FloorMod(b - a, n) || d == FloorMod(a - b, n)
    ensures d <= FloorMod(b - a, n) && d <= FloorMod(a - b, n)
  {
    var forward := FloorMod(b - a, n);
    var backward := FloorMod(a - b, n);
    if forward < backward then forward else backward
  }

  /** A player other than the mover who is out of its cave. */
  predicate IsCandidate(ps: seq<PlayerState>, i: int, k: int)
    requires 0 <= k < |ps|
  {
    k != i && ps[k].currentTileID != 0
  }

  /** The running state of the search loop: the player chosen so far, its distance, and `goesFoward`. */
  datatype Scan = Scan(best: Option<nat>, distance: int, goesForward: bool)

  /**
   * The search over the first `k` players: a candidate replaces the one
   * chosen so far only when strictly nearer. `goesForward` is set whenever a
   * replaced choice is at least as near forward as backward, and is never
   * cleared.
   */
  function ScanPlayers(ps: seq<PlayerState>, i: int, from: int, n: int, k: nat): (r: Scan)
    requires n > 0 && k <= |ps|
    ensures r.best.Some? ==> r.best.value < k && IsCandidate(ps, i, r.best.value)
    ensures r.best.Some? ==> r.distance == Distance(from, ps[r.best.value].currentTileID, n)
  {
    if k == 0 then Scan(None, 0, false)
    else
      var s := ScanPlayers(ps, i, from, n, k - 1);
      var q := ps[k - 1];
      if IsCandidate(ps, i, k - 1) then
        var forward := FloorMod(q.currentTileID - from, n);
        var backward := FloorMod(from - q.currentTileID, n);
        var d := if forward < backward then forward else backward;
        if s.best.None? || d < s.distance then Scan(Some(k - 1), d, s.goesForward || forward <= backward)
        else s
      else s
  }

  /** Among the first `k` players, `j` is a nearest candidate, and no nearest candidate comes before it. */
  predicate NearestUpTo(ps: seq<PlayerState>, i: int, from: int, n: int, j: int, k: int)
    requires n > 0 && k <= |ps|
  {
    && 0 <= j < k && IsCandidate(ps, i, j)
    && (forall c :: 0 <= c < k && IsCandidate(ps, i, c) ==> Distance(from, ps[j].currentTileID, n) <= Distance(from, ps[c].currentTileID, n))
    && (forall c :: 0 <= c < j && IsCandidate(ps, i, c) ==> Distance(from, ps[j].currentTileID, n) < Distance(from, ps[c].currentTileID, n))
  }

  /** Player `j` is the first nearest candidate of the whole list. */
  predicate IsNearest(ps: seq<PlayerState>, i: int, from: int, n: int, j: int)
    requires n > 0
  {
    NearestUpTo(ps, i, from, n, j, |ps|)
  }

  /** The search picks the first nearest candidate, and picks nobody only when there is no candidate. */
  lemma {:induction false} ScanFindsNearest(ps: seq<PlayerState>, i: int, from: int, n: int, k: nat)
    requires n > 0 && k <= |ps|
    ensures var s := ScanPlayers(ps, i, from, n, k);
      && (s.best.None? <==> forall c :: 0 <= c < k ==> !IsCandidate(ps, i, c))
      && (s.best.Some? ==> NearestUpTo(ps, i, from, n, s.best.value, k))
      && (s.best.Some? ==> s.distance == Distance(from, ps[s.best.value].currentTileID, n))
  {
    if k > 0 {
      ScanFindsNearest(ps, i, from, n, k - 1);
      var s := ScanPlayers(ps, i, from, n, k - 1);
      var c := k - 1;
      if IsCandidate(ps, i, c) {
        var d := Distance(from, ps[c].currentTileID, n);
        if s.best.None? || d < s.distance {
          NearestReplaced(ps, i, from, n, k);
        } else {
          NearestExtends(ps, i, from, n, s.best.value, k);
        }
      } else if s.best.Some? {
        NearestExtends(ps, i, from, n, s.best.value, k);
      }
    }
  }

  /** A nearest choice among the first `k - 1` players stays nearest when player `k - 1` is no nearer. */
  lemma NearestExtends(ps: seq<PlayerState>, i: int, from: int, n: int, j: int, k: nat)
    requires n > 0 && 0 < k <= |ps| && NearestUpTo(ps, i, from, n, j, k - 1)
    requires IsCandidate(ps, i, k - 1) ==> Distance(from, ps[j].currentTileID, n) <= Distance(from, ps[k - 1].currentTileID, n)
    ensures NearestUpTo(ps, i, from, n, j, k)
  {
  }

  /** A candidate strictly nearer than every earlier candidate is the nearest of the first `k` players. */
  lemma NearestReplaced(ps: seq<PlayerState>, i: int, from: int, n: int, k: nat)
    requires n > 0 && 0 < k <= |ps| && IsCandidate(ps, i, k - 1)
    requires forall c :: 0 <= c < k - 1 && IsCandidate(ps, i, c) ==>
      Distance(from, ps[k - 1].currentTileID, n) < Distance(from, ps[c].currentTileID, n)
    ensures NearestUpTo(ps, i, from, n, k - 1, k)
  {
  }

  /**
   * Because `goesFoward` is never cleared, the direction used for the
   * adjustment can disagree with the chosen player's: with the mover on tile
   * 1 of 24, a player on tile 3 (two forward) and then one on tile 24 (one
   * backward), the second is chosen while the flag says forward.
   */
  lemma ForwardFlagSticks()
    ensures var ps := [PlayerState(1, 1, Some(Bat), 10, 0), PlayerState(7, 3, Some(Spider), 10, 1), PlayerState(13, 24, Some(Bat), 10, 2)];
      var s := ScanPlayers(ps, 0, 1, 24, 3);
      s.best == Some(2) && s.goesForward && FloorMod(24 - 1, 24) > FloorMod(1 - 24, 24)
  {
  }

  /** Candidate `j` replaces the choice the search had made among the players before it. */
  predicate Replaces(ps: seq<PlayerState>, i: int, from: int, n: int, j: nat)
    requires n > 0 && j < |ps|
  {
    var s := ScanPlayers(ps, i, from, n, j);
    IsCandidate(ps, i, j) && (s.best.None? || Distance(from, ps[j].currentTileID, n) < s.distance)
  }

  /** Seen from `from`, tile `t` is at least as near forward as backward. */
  predicate LeansForward(from: int, t: int, n: int)
    requires n > 0
  {
    FloorMod(t - from, n) <= FloorMod(from - t, n)
  }

  /**
   * In general: `goesFoward` ends up set exactly when some candidate that
   * replaced the choice so far leaned forward. The chosen player is one
   * such replacement, so the flag is set whenever the chosen player leans
   * forward; it can also be set when the chosen player lies backward.
   */
  lemma {:induction false} ForwardFlag(ps: seq<PlayerState>, i: int, from: int, n: int, k: nat)
    requires n > 0 && k <= |ps|
    ensures var s := ScanPlayers(ps, i, from, n, k);
      && (s.goesForward <==> exists j: nat :: j < k && Replaces(ps, i, from, n, j) && LeansForward(from, ps[j].currentTileID, n))
      && (s.best.Some? ==> Replaces(ps, i, from, n, s.best.value))
      && (s.best.Some? && LeansForward(from, ps[s.best.value].currentTileID, n) ==> s.goesForward)
  {
    if k > 0 {
      ForwardFlag(ps, i, from, n, k - 1);
      var c: nat := k - 1;
      if Replaces(ps, i, from, n, c) && LeansForward(from, ps[c].currentTileID, n) {
        assert ScanPlayers(ps, i, from, n, k).goesForward;
      }
    }
  }

  /** Where the mover measures from: its tile, or its cave tile while in the cave. */
  function SwapOrigin(p: PlayerState): (r: int)
    ensures r == p.currentTileID || r == p.caveTileID
    ensures p.currentTileID >= 0 && p.caveTileID >= 1 ==> r >= 1
  {
    if p.currentTileID == 0 then p.caveTileID else p.currentTileID
  }

  /**
   * `handleSwapCardAction` for player `i` on a ring of `n`: with a chosen
   * player, the two adjust their `tilesLeft` by the distance (the
   * `goesFoward` branch, or the other, each wrapping past a full lap as the
   * source does; the backward wrap uses the mover's new `tilesLeft`), exchange
   * tile types and tile IDs, and a mover leaving its cave hands its cave to
   * the chosen player. No candidate: nothing changes.
   */
  function ApplySwap(ps: seq<PlayerState>, i: int, n: int): (r: seq<PlayerState>)
    requires n > 0 && 0 <= i < |ps|
    ensures |r| == |ps|
    ensures forall k :: 0 <= k < |ps| && k != i && r[k] != ps[k] ==> IsNearest(ps, i, SwapOrigin(ps[i]), n, k)
  {
    ScanFindsNearest(ps, i, SwapOrigin(ps[i]), n, |ps|);
    var s := ScanPlayers(ps, i, SwapOrigin(ps[i]), n, |ps|);
    match s.best
    case None => ps
    case Some(j) => SwapWith(ps, i, j, s.distance, s.goesForward, n)
  }

  /** The updates of `handleSwapCardAction` once player `j` is chosen at distance `d`. */
  function SwapWith(ps: seq<PlayerState>, i: int, j: int, d: int, goesForward: bool, n: int): (r: seq<PlayerState>)
    requires 0 <= i < |ps| && 0 <= j < |ps|
    ensures |r| == |ps| && forall k :: 0 <= k < |ps| && k != i && k != j ==> r[k] == ps[k]
    ensures i != j ==> && r[i].currentTileID == ps[j].currentTileID && r[j].currentTileID == ps[i].currentTileID
                       && r[i].currentTileType == ps[j].currentTileType && r[j].currentTileType == ps[i].currentTileType
    ensures i != j && (if goesForward then ps[i].tilesLeft >= d else ps[j].tilesLeft >= d) ==>
      r[i].tilesLeft + r[j].tilesLeft == ps[i].tilesLeft + ps[j].tilesLeft
    ensures i != j && goesForward && ps[i].tilesLeft < d ==> r[i].tilesLeft == ps[i].tilesLeft - d + n
    ensures i != j && goesForward && ps[i].tilesLeft < d ==> r[j].tilesLeft == ps[j].tilesLeft + d
    ensures i != j && !goesForward && ps[j].tilesLeft < d ==> r[j].tilesLeft == ps[i].tilesLeft + n
    ensures i != j && !goesForward && ps[j].tilesLeft < d ==> r[i].tilesLeft == ps[i].tilesLeft + d
    ensures i != j ==> r[i].caveTileID == ps[i].caveTileID && r[i].currentCaveID == ps[i].currentCaveID
    ensures i != j ==> && r[j].caveTileID == (if ps[i].currentTileID == 0 then ps[i].caveTileID else ps[j].caveTileID)
                       && r[j].currentCaveID == (if ps[i].currentTileID == 0 then ps[i].currentCaveID else ps[j].currentCaveID)
  {
    var p := ps[i];
    var q := ps[j];
    var fromCave := p.currentTileID == 0;
    var moverLeft :=
      if goesForward then (if p.tilesLeft - d < 0 then (n + 1) - d + p.tilesLeft - 1 else p.tilesLeft - d)
      else p.tilesLeft + d;
    var otherLeft :=
      if goesForward then q.tilesLeft + d
      else if q.tilesLeft - d < 0 then (n + 1) - d + moverLeft - 1 else q.tilesLeft - d;
    var p' := p.(tilesLeft := moverLeft, currentTileType := q.currentTileType, currentTileID := q.currentTileID);
    var q' := q.(tilesLeft := otherLeft, currentTileType := p.currentTileType, currentTileID := p.currentTileID,
                 caveTileID := if fromCave then p.caveTileID else q.caveTileID,
                 currentCaveID := if fromCave then p.currentCaveID else q.currentCaveID);
    ps[i := p'][j := q']
  }

  /** The swap exchanges the two players' tiles and types, and leaves everyone else alone. */
  lemma SwapExchanges(ps: seq<PlayerState>, i: int, n: int)
    requires n > 0 && 0 <= i < |ps|
    ensures var ps' := ApplySwap(ps, i, n);
      var s := ScanPlayers(ps, i, SwapOrigin(ps[i]), n, |ps|);
      && |ps'| == |ps|
      && (s.best.None? ==> ps' == ps)
      && (s.best.Some? ==>
            var j := s.best.value;
            && j != i && IsNearest(ps, i, SwapOrigin(ps[i]), n, j)
            && TilesExchanged(ps, ps', i, j)
            && ps'[i].currentTileType == ps[j].currentTileType && ps'[j].currentTileType == ps[i].currentTileType
            && (forall k :: 0 <= k < |ps| && k != i && k != j ==> ps'[k] == ps[k]))
  {
    ScanFindsNearest(ps, i, SwapOrigin(ps[i]), n, |ps|);
  }

  /** The swap keeps each player on a slot of the board. */
  lemma SwapOnBoard(ps: seq<PlayerState>, i: int, n: int, ps': seq<PlayerState>)
    requires n > 0 && 0 <= i < |ps| && OnBoard(ps, n) && ps' == ApplySwap(ps, i, n)
    ensures |ps'| == |ps| && OnBoard(ps', n)
  {
    SwapExchanges(ps, i, n);
    var s := ScanPlayers(ps, i, SwapOrigin(ps[i]), n, |ps|);
    if s.best.Some? {
      var j := s.best.value;
      forall k | 0 <= k < |ps'| ensures 0 <= ps'[k].currentTileID <= n && 1 <= ps'[k].caveTileID <= n {
        if k == j {
          assert ps'[k].caveTileID == ps[i].caveTileID || ps'[k].caveTileID == ps[j].caveTileID;
        } else if k == i {
          assert ps'[k].caveTileID == ps[i].caveTileID;
        }
      }
    }
  }

  /** The swap never writes the occupation flags, and they stay in step with the players. */
  lemma SwapCoherent(tiles: seq<Option<CardType>>, occ: seq<bool>, ps: seq<PlayerState>, i: int, ps': seq<PlayerState>)
    requires Coherent(tiles, occ, ps) && 0 <= i < |ps| && ps' == ApplySwap(ps, i, |tiles| - 1)
    ensures Coherent(tiles, occ, ps')
  {
    var n := |tiles| - 1;
    SwapExchanges(ps, i, n);
    var s := ScanPlayers(ps, i, SwapOrigin(ps[i]), n, |ps|);
    if s.best.Some? {
      var j := s.best.value;
      ExchangeKeepsPositions(ps, ps', i, j);
      assert OnBoard(ps', n) by {
        forall k | 0 <= k < |ps'| ensures 1 <= ps'[k].caveTileID <= n {
          if k == j {
            assert ps'[k].caveTileID == ps[i].caveTileID || ps'[k].caveTileID == ps[j].caveTileID;
          }
        }
      }
    }
  }
}
