/** `PlayerController`: one player's token, its cave and its remaining distance. */
module Players {
  import opened Wrappers
  import opened CardTypes
  import opened JavaStrings
  import opened LinkedMaps

  /**
   * The five fields of a player. `currentTileType` is `None` where Java holds
   * `null` (the type of slot 0, which a player reaching home takes on).
   */
  datatype PlayerState = PlayerState(
    caveTileID: int,
    currentTileID: int,
    currentTileType: Option<CardType>,
    tilesLeft: int,
    currentCaveID: int)

  /** The entries `invokeSave` puts under `prefix`, in order; `currentCaveID` is not among them. */
  function PlayerEntries(prefix: string, p: PlayerState): (es: seq<Entry>)
    requires p.currentTileType.Some?
  {
    [ (prefix + ".caveTileID", ValueOfInt(p.caveTileID)),
      (prefix + ".currentTileID", ValueOfInt(p.currentTileID)),
      (prefix + ".currentTileType", Name(p.currentTileType.value)),
      (prefix + ".tilesLeft", ValueOfInt(p.tilesLeft)) ]
  }

  /** Saving writes four distinct keys, and two players that differ only in `currentCaveID` save alike. */
  lemma PlayerEntriesShape(prefix: string, p: PlayerState, caveID: int)
    requires p.currentTileType.Some?
    ensures var es := PlayerEntries(prefix, p);
      && |es| == 4 && UniqueKeys(es)
      && PlayerEntries(prefix, p.(currentCaveID := caveID)) == es
  {
    var es := PlayerEntries(prefix, p);
    assert es[0].0[|prefix| + 1] == 'c' && es[0].0[|prefix| + 2] == 'a';
    assert es[1].0[|prefix| + 1] == 'c' && es[1].0[|prefix| + 2] == 'u';
    assert es[2].0[|prefix| + 1] == 'c' && es[2].0[|prefix| + 2] == 'u';
    assert es[1].0[|prefix| + 12] == 'I' && es[2].0[|prefix| + 12] == 'T';
    assert es[3].0[|prefix| + 1] == 't';
  }

  class PlayerController {
    var caveTileID: int
    var currentTileID: int
    var currentTileType: Option<CardType>
    var tilesLeft: int
    var currentCaveID: int

    function State(): PlayerState
      reads this
    {
      PlayerState(caveTileID, currentTileID, currentTileType, tilesLeft, currentCaveID)
    }

    /**
     * A player starts in its cave (tile 0) on the cave's type, with one step
     * more to go than there are tiles: the step out of the cave.
     */
    constructor (caveType: CardType, caveTileID: int, totalTiles: int, currentCaveID: int)
      ensures State() == PlayerState(caveTileID, 0, Some(caveType), totalTiles + 1, currentCaveID)
    {
      this.tilesLeft := totalTiles + 1;
      this.caveTileID := caveTileID;
      this.currentCaveID := currentCaveID;
      this.currentTileID := 0;
      this.currentTileType := Some(caveType);
    }

    /** The getters read the player's state as the board's specifications see it. */
    function GetCurrentTileID(): (r: int)
      reads this
      ensures r == State().currentTileID
    {
      currentTileID
    }

    function GetCaveTileID(): (r: int)
      reads this
      ensures r == State().caveTileID
    {
      caveTileID
    }

    function GetCurrentCaveID(): (r: int)
      reads this
      ensures r == State().currentCaveID
    {
      currentCaveID
    }

    function GetCurrentTileType(): (r: Option<CardType>)
      reads this
      ensures r == State().currentTileType
    {
      currentTileType
    }

    function GetTilesLeft(): (r: int)
      reads this
      ensures r == State().tilesLeft
    {
      tilesLeft
    }

    method SetCurrentTileID(tileID: int)
      modifies this
      ensures State() == old(State()).(currentTileID := tileID)
    {
      currentTileID := tileID;
    }

    method SetCaveTileID(caveTileID: int)
      modifies this
      ensures State() == old(State()).(caveTileID := caveTileID)
    {
      this.caveTileID := caveTileID;
    }

    method SetCurrentCaveID(currentCaveID: int)
      modifies this
      ensures State() == old(State()).(currentCaveID := currentCaveID)
    {
      this.currentCaveID := currentCaveID;
    }

    method SetCurrentTileType(tileType: Option<CardType>)
      modifies this
      ensures State() == old(State()).(currentTileType := tileType)
    {
      currentTileType := tileType;
    }

    method SetTilesLeft(tilesLeft: int)
      modifies this
      ensures State() == old(State()).(tilesLeft := tilesLeft)
    {
      this.tilesLeft := tilesLeft;
    }

    /**
     * `invokeSave`: four `put` calls under `prefix`. A `null` tile type makes
     * Java's `toString` throw, so it is excluded.
     */
    method InvokeSave(properties: seq<Entry>, prefix: string) returns (after: seq<Entry>)
      requires currentTileType.Some?
      ensures after == PutAll(properties, PlayerEntries(prefix, State()))
    {
      ghost var es := PlayerEntries(prefix, State());
      after := Put(properties, prefix + ".caveTileID", ValueOfInt(caveTileID));
      after := Put(after, prefix + ".currentTileID", ValueOfInt(currentTileID));
      after := Put(after, prefix + ".currentTileType", Name(currentTileType.value));
      after := Put(after, prefix + ".tilesLeft", ValueOfInt(tilesLeft));
      PutFour(properties, es[0], es[1], es[2], es[3]);
      assert [es[0], es[1], es[2], es[3]] == es;
    }
  }

  /** The fields of every player of a list, in order. */
  function StatesOf(ps: seq<PlayerController>): (r: seq<PlayerState>)
    reads ps
    ensures |r| == |ps| && forall k :: 0 <= k < |ps| ==> r[k] == ps[k].State()
  {
    seq(|ps|, k reads ps requires 0 <= k < |ps| => ps[k].State())
  }
}
