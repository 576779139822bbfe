/** `VolcanoCard`: a board segment of tiles, and the keys it saves under. */
module Volcano {
  import opened Wrappers
  import opened CardTypes
  import opened JavaStrings
  import opened LinkedMaps

  /** The entries `invokeSave` puts: `prefix.tile1` .. `prefix.tileN`, one per tile, in list order. */
  function VolcanoEntries(prefix: string, tileTypes: seq<CardType>): (es: seq<Entry>)
    ensures |es| == |tileTypes|
    ensures forall i :: 0 <= i < |es| ==> es[i] == (prefix + ".tile" + ValueOfInt(i + 1), Name(tileTypes[i]))
  {
    seq(|tileTypes|, i requires 0 <= i < |tileTypes| => (prefix + ".tile" + ValueOfInt(i + 1), Name(tileTypes[i])))
  }

  /** Every tile has a key of its own. */
  lemma VolcanoKeysDistinct(prefix: string, tileTypes: seq<CardType>)
    ensures UniqueKeys(VolcanoEntries(prefix, tileTypes))
  {
    var es := VolcanoEntries(prefix, tileTypes);
    forall i, j | 0 <= i < j < |es| ensures es[i].0 != es[j].0 {
      NumberedApart(prefix + ".tile", i + 1, j + 1);
    }
  }

  class VolcanoCard {
    const tileTypes: seq<CardType>

    /** The card keeps the list it is given, and the list never changes. */
    constructor (tileTypes: seq<CardType>)
      ensures this.tileTypes == tileTypes
    {
      this.tileTypes := tileTypes;
    }

    /** `getTileTypes`: the whole list, which `getTileType` reads one tile of. */
    function GetTileTypes(): (r: seq<CardType>)
      ensures forall i :: 0 <= i < |r| ==> GetTileType(i) == Some(r[i])
      ensures forall i :: GetTileType(i).Some? ==> 0 <= i < |r|
    {
      tileTypes
    }

    /** `getTileType`: the tile at `index`, or `null` (here `None`) outside the list. */
    function GetTileType(index: int): (r: Option<CardType>)
      ensures r.Some? <==> 0 <= index < |tileTypes|
      ensures r.Some? ==> r.value == tileTypes[index]
    {
      if index < 0 || index >= |tileTypes| then None else Some(tileTypes[index])
    }

    /** `invokeSave`: one `put` per tile, in list order. */
    method InvokeSave(properties: seq<Entry>, prefix: string) returns (after: seq<Entry>)
      ensures after == PutAll(properties, VolcanoEntries(prefix, tileTypes))
    {
      ghost var es := VolcanoEntries(prefix, tileTypes);
      after := properties;
      var i := 0;
      while i < |tileTypes|
        invariant 0 <= i <= |tileTypes|
        invariant after == PutAll(properties, es[..i])
      {
        var key := prefix + ".tile" + ValueOfInt(i + 1);
        assert es[i] == (key, Name(tileTypes[i]));
        after := Put(after, key, Name(tileTypes[i]));
        PutAllSnoc(properties, es[..i], es[i]);
        assert es[..i] + [es[i]] == es[..i + 1];
        i := i + 1;
      }
      assert es[..i] == es;
    }
  }

  /** The tile lists of the volcano cards, in order. */
  function TileTypesOf(vcs: seq<VolcanoCard>): (r: seq<seq<CardType>>)
    ensures |r| == |vcs| && forall k :: 0 <= k < |vcs| ==> r[k] == vcs[k].tileTypes
  {
    seq(|vcs|, k requires 0 <= k < |vcs| => vcs[k].tileTypes)
  }
}
