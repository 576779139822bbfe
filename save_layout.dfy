/**
 * The key layout of a saved board: the entries `GameBoard.invokeSave`
 * writes, and the values the loading constructor of `GameBoard` reads
 * back from a properties map. Objects are numbered from 1 in their keys
 * (`volcanoCard1.tile2`, `cave3`, `player1.tilesLeft`, `dragonCard7.flipped`).
 */
module BoardSaves {
  import opened Wrappers
  import opened CardTypes
  import opened JavaStrings
  import opened LinkedMaps
  import opened Players
  import opened Cards
  import opened Volcano
  import SaveHandler

  /** The key prefix of object `i` (counting from 0) of a kind: `"player" + (i + 1)`. */
  function Numbered(name: string, i: nat): string {
    name + ValueOfInt(i + 1)
  }

  /** `rest` does not go on with a digit, so a number written before it ends where `rest` begins. */
  predicate Stops(rest: string) {
    rest == [] || !IsDigit(rest[0])
  }

  /** `key` is the prefix of object `i` of kind `name`, or that prefix followed by a non-digit. */
  predicate Under(key: string, name: string, i: nat) {
    var p := Numbered(name, i);
    |p| <= |key| && key[..|p|] == p && Stops(key[|p|..])
  }

  /** `key` starts with `name` and a digit: a key of some object of kind `name`. */
  predicate Family(key: string, name: string) {
    |name| < |key| && key[..|name|] == name && IsDigit(key[|name|])
  }

  /** The number of digits `s` starts with. */
  function DigitRun(s: string): (n: nat)
    ensures n <= |s|
  {
    if s == [] || !IsDigit(s[0]) then 0 else 1 + DigitRun(s[1..])
  }

  lemma {:induction false} DigitRunOf(p: string, x: string)
    requires AllDigits(p) && Stops(x)
    ensures DigitRun(p + x) == |p|
    decreases |p|
  {
    if p == [] {
      assert p + x == x;
    } else {
      assert (p + x)[1..] == p[1..] + x;
      DigitRunOf(p[1..], x);
    }
  }

  /** Where two digit runs each end at a non-digit, equal texts have equal runs. */
  lemma DigitRunsMatch(p: string, x: string, q: string, y: string)
    requires AllDigits(p) && AllDigits(q) && Stops(x) && Stops(y) && p + x == q + y
    ensures p == q && x == y
  {
    DigitRunOf(p, x);
    DigitRunOf(q, y);
    assert p == (p + x)[..|p|] && q == (q + y)[..|q|];
    assert x == (p + x)[|p|..] && y == (q + y)[|q|..];
  }

  /** A key lies under one object of its kind at most. */
  lemma UnderOnce(key: string, name: string, a: nat, b: nat)
    requires Under(key, name, a) && Under(key, name, b)
    ensures a == b
  {
    var p, q := ValueOfInt(a + 1), ValueOfInt(b + 1);
    var x, y := key[|name + p|..], key[|name + q|..];
    assert key == name + p + x && key == name + q + y;
    assert p + x == key[|name|..] == q + y;
    DigitRunsMatch(p, x, q, y);
    DigitsInjective(a + 1, b + 1);
  }

  /** A prefix followed by a field name starting with `.` lies under its object. */
  lemma UnderField(name: string, i: nat, field: string)
    requires field != [] && field[0] == '.'
    ensures Under(Numbered(name, i) + field, name, i)
    ensures Family(Numbered(name, i) + field, name)
  {
    var key := Numbered(name, i) + field;
    assert key[..|Numbered(name, i)|] == Numbered(name, i) && key[|Numbered(name, i)|..] == field;
    assert key[|name|] == ValueOfInt(i + 1)[0];
    assert key[..|name|] == name;
  }

  /** The prefix alone lies under its object. */
  lemma UnderSelf(name: string, i: nat)
    ensures Under(Numbered(name, i), name, i) && Family(Numbered(name, i), name)
  {
    var key := Numbered(name, i);
    assert key[|key|..] == [];
    assert key[|name|] == ValueOfInt(i + 1)[0];
    assert key[..|name|] == name;
  }

  // ---------------------------------------------------------------------------
  // Runs of per-object entries
  // ---------------------------------------------------------------------------

  /** The entries of several objects, one block after the other. */
  function Flatten(blocks: seq<seq<Entry>>): seq<Entry> {
    if blocks == [] then [] else Flatten(blocks[..|blocks| - 1]) + blocks[|blocks| - 1]
  }

  lemma {:induction false} FlattenHas(blocks: seq<seq<Entry>>, i: int, e: Entry)
    requires 0 <= i < |blocks| && e in blocks[i]
    ensures e in Flatten(blocks)
    decreases |blocks|
  {
    if i < |blocks| - 1 {
      FlattenHas(blocks[..|blocks| - 1], i, e);
    }
  }

  lemma {:induction false} FlattenFrom(blocks: seq<seq<Entry>>, e: Entry) returns (i: int)
    requires e in Flatten(blocks)
    ensures 0 <= i < |blocks| && e in blocks[i]
    decreases |blocks|
  {
    var n := |blocks| - 1;
    if e in blocks[n] {
      i := n;
    } else {
      i := FlattenFrom(blocks[..n], e);
    }
  }

  /** Two runs with keys of their own and no key in common make one run with keys of its own. */
  lemma UniqueConcat(a: seq<Entry>, b: seq<Entry>)
    requires UniqueKeys(a) && UniqueKeys(b)
    requires forall e, f :: e in a && f in b ==> e.0 != f.0
    ensures UniqueKeys(a + b)
  {
    forall i, j | 0 <= i < j < |a + b| ensures (a + b)[i].0 != (a + b)[j].0 {
      if j < |a| {
        assert (a + b)[i] == a[i] && (a + b)[j] == a[j];
      } else if i >= |a| {
        assert (a + b)[i] == b[i - |a|] && (a + b)[j] == b[j - |a|];
      } else {
        assert (a + b)[i] in a && (a + b)[j] in b;
      }
    }
  }

  /** Blocks of distinct keys whose keys lie under their own object make one run of distinct keys. */
  lemma {:induction false} FlattenUnique(blocks: seq<seq<Entry>>, name: string)
    requires forall i :: 0 <= i < |blocks| ==> UniqueKeys(blocks[i])
    requires forall i, j :: 0 <= i < |blocks| && 0 <= j < |blocks[i]| ==> Under(blocks[i][j].0, name, i)
    ensures UniqueKeys(Flatten(blocks))
    decreases |blocks|
  {
    if blocks != [] {
      var n := |blocks| - 1;
      var front := blocks[..n];
      FlattenUnique(front, name);
      forall e, f | e in Flatten(front) && f in blocks[n] ensures e.0 != f.0 {
        var i := FlattenFrom(front, e);
        var a :| 0 <= a < |front[i]| && front[i][a] == e;
        var b :| 0 <= b < |blocks[n]| && blocks[n][b] == f;
        assert front[i] == blocks[i];
        if e.0 == f.0 {
          UnderOnce(e.0, name, i, n);
        }
      }
      UniqueConcat(Flatten(front), blocks[n]);
    }
  }

  /** The prefix of an object's key is a key of its kind. */
  lemma UnderFamily(key: string, name: string, i: nat)
    requires Under(key, name, i)
    ensures Family(key, name)
  {
    var p := Numbered(name, i);
    assert key[..|name|] == p[..|name|] == name;
    assert key[|name|] == p[|name|] == ValueOfInt(i + 1)[0];
  }

  /** Every key of the blocks belongs to the kind `name`. */
  lemma FlattenFamily(blocks: seq<seq<Entry>>, name: string)
    requires forall i, j :: 0 <= i < |blocks| && 0 <= j < |blocks[i]| ==> Under(blocks[i][j].0, name, i)
    ensures forall e :: e in Flatten(blocks) ==> Family(e.0, name)
  {
    forall e | e in Flatten(blocks) ensures Family(e.0, name) {
      var i := FlattenFrom(blocks, e);
      var a :| 0 <= a < |blocks[i]| && blocks[i][a] == e;
      UnderFamily(e.0, name, i);
    }
  }

  /** In a map of distinct keys, `get` of an entry's key is that entry's value. */
  lemma GetMember(m: seq<Entry>, e: Entry)
    requires UniqueKeys(m) && e in m
    ensures Get(m, e.0) == Some(e.1)
  {
  }

  // ---------------------------------------------------------------------------
  // What `GameBoard.invokeSave` writes
  // ---------------------------------------------------------------------------

  /** What a board saves: whose turn it is, the volcano cards' tiles, the caves, the players and the dragon cards. */
  datatype BoardSave = BoardSave(
    turnPlayerID: int,
    volcanoTiles: seq<seq<CardType>>,
    caves: seq<CardType>,
    players: seq<PlayerState>,
    cards: seq<CardState>)

  /** Saving a player names its tile type, which Java cannot do for the `null` type of a player back home. */
  predicate Saveable(ps: seq<PlayerState>) {
    forall k :: 0 <= k < |ps| ==> ps[k].currentTileType.Some?
  }

  /** The four counters, written first. */
  function Header(s: BoardSave): seq<Entry> {
    HeaderOf(|s.players|, s.turnPlayerID, |s.volcanoTiles|, |s.cards|)
  }

  /** `currentPlayer` is one more than the turn: players are numbered from 1 in the file. */
  function HeaderOf(playerCount: int, turn: int, volcanoCardCount: int, cardCount: int): seq<Entry> {
    [ ("playerCount", ValueOfInt(playerCount)),
      ("currentPlayer", ValueOfInt(turn + 1)),
      ("volcanoCardCount", ValueOfInt(volcanoCardCount)),
      ("cardCount", ValueOfInt(cardCount)) ]
  }

  function VolcanoBlocks(vt: seq<seq<CardType>>): seq<seq<Entry>> {
    seq(|vt|, i requires 0 <= i < |vt| => VolcanoEntries(Numbered("volcanoCard", i), vt[i]))
  }

  function CaveBlocks(caves: seq<CardType>): seq<seq<Entry>> {
    seq(|caves|, i requires 0 <= i < |caves| => [(Numbered("cave", i), Name(caves[i]))])
  }

  function PlayerBlocks(ps: seq<PlayerState>): seq<seq<Entry>>
    requires Saveable(ps)
  {
    seq(|ps|, i requires 0 <= i < |ps| => PlayerEntries(Numbered("player", i), ps[i]))
  }

  function CardBlocks(cs: seq<CardState>): seq<seq<Entry>> {
    seq(|cs|, i requires 0 <= i < |cs| => CardEntries(Numbered("dragonCard", i), cs[i]))
  }

  /** Every entry of a saved board, in the order `invokeSave` puts them. */
  function BoardEntries(s: BoardSave): (r: seq<Entry>)
    requires Saveable(s.players)
    ensures PlainEntries(r)
  {
    var h := Header(s);
    var v := Flatten(VolcanoBlocks(s.volcanoTiles));
    var c := Flatten(CaveBlocks(s.caves));
    var p := Flatten(PlayerBlocks(s.players));
    var d := Flatten(CardBlocks(s.cards));
    PlainHeader(s);
    PlainVolcano(s.volcanoTiles);
    PlainCaves(s.caves);
    PlainPlayers(s.players);
    PlainCards(s.cards);
    PlainAppend(h, v);
    PlainAppend(h + v, c);
    PlainAppend(h + v + c, p);
    PlainAppend(h + v + c + p, d);
    h + v + c + p + d
  }

  lemma VolcanoSection(vt: seq<seq<CardType>>)
    ensures UniqueKeys(Flatten(VolcanoBlocks(vt)))
    ensures forall e :: e in Flatten(VolcanoBlocks(vt)) ==> Family(e.0, "volcanoCard")
  {
    var bs: seq<seq<Entry>> := VolcanoBlocks(vt);
    forall i | 0 <= i < |bs| ensures UniqueKeys(bs[i]) {
      VolcanoKeysDistinct(Numbered("volcanoCard", i), vt[i]);
    }
    forall i: nat, j: nat | i < |bs| && j < |bs[i]| ensures Under(bs[i][j].0, "volcanoCard", i) {
      assert bs[i][j].0 == Numbered("volcanoCard", i) + (".tile" + ValueOfInt(j + 1));
      UnderField("volcanoCard", i, ".tile" + ValueOfInt(j + 1));
    }
    FlattenUnique(bs, "volcanoCard");
    FlattenFamily(bs, "volcanoCard");
  }

  lemma CaveSection(caves: seq<CardType>)
    ensures UniqueKeys(Flatten(CaveBlocks(caves)))
    ensures forall e :: e in Flatten(CaveBlocks(caves)) ==> Family(e.0, "cave")
  {
    var bs: seq<seq<Entry>> := CaveBlocks(caves);
    forall i: nat, j: nat | i < |bs| && j < |bs[i]| ensures Under(bs[i][j].0, "cave", i) {
      UnderSelf("cave", i);
    }
    FlattenUnique(bs, "cave");
    FlattenFamily(bs, "cave");
  }

  lemma PlayerSection(ps: seq<PlayerState>)
    requires Saveable(ps)
    ensures UniqueKeys(Flatten(PlayerBlocks(ps)))
    ensures forall e :: e in Flatten(PlayerBlocks(ps)) ==> Family(e.0, "player")
  {
    var bs: seq<seq<Entry>> := PlayerBlocks(ps);
    forall i | 0 <= i < |bs| ensures UniqueKeys(bs[i]) {
      PlayerEntriesShape(Numbered("player", i), ps[i], 0);
    }
    forall i: nat, j: nat | i < |bs| && j < |bs[i]| ensures Under(bs[i][j].0, "player", i) {
      PlayerEntriesShape(Numbered("player", i), ps[i], 0);
      var p := Numbered("player", i);
      var field := bs[i][j].0[|p|..];
      assert bs[i][j].0 == p + field && field[0] == '.';
      UnderField("player", i, field);
    }
    FlattenUnique(bs, "player");
    FlattenFamily(bs, "player");
  }

  lemma CardSection(cs: seq<CardState>)
    ensures UniqueKeys(Flatten(CardBlocks(cs)))
    ensures forall e :: e in Flatten(CardBlocks(cs)) ==> Family(e.0, "dragonCard")
  {
    var bs: seq<seq<Entry>> := CardBlocks(cs);
    forall i | 0 <= i < |bs| ensures UniqueKeys(bs[i]) {
      CardEntriesShape(Numbered("dragonCard", i), cs[i]);
    }
    forall i: nat, j: nat | i < |bs| && j < |bs[i]| ensures Under(bs[i][j].0, "dragonCard", i) {
      CardEntriesShape(Numbered("dragonCard", i), cs[i]);
      var p := Numbered("dragonCard", i);
      var field := bs[i][j].0[|p|..];
      assert bs[i][j].0 == p + field && field[0] == '.';
      UnderField("dragonCard", i, field);
    }
    FlattenUnique(bs, "dragonCard");
    FlattenFamily(bs, "dragonCard");
  }

  /** Every key of `m` is a key of the kind `name`. */
  predicate Kinded(m: seq<Entry>, name: string) {
    forall e :: e in m ==> Family(e.0, name)
  }

  /** Keys of two kinds whose names differ at letter `i` never meet. */
  lemma KindsApart(a: seq<Entry>, an: string, b: seq<Entry>, bn: string, i: nat)
    requires Kinded(a, an) && Kinded(b, bn) && i < |an| && i < |bn| && an[i] != bn[i]
    ensures forall e, f :: e in a && f in b ==> e.0 != f.0
  {
    forall e, f | e in a && f in b ensures e.0 != f.0 {
      assert e.0[..|an|][i] == e.0[i] && f.0[..|bn|][i] == f.0[i];
    }
  }

  /** No counter key is a key of an object. */
  lemma HeaderApart(s: BoardSave, name: string)
    requires name == "volcanoCard" || name == "cave" || name == "player" || name == "dragonCard"
    ensures forall e :: e in Header(s) ==> !Family(e.0, name)
  {
    var h := Header(s);
    HeaderFields(s);
    forall e | e in h ensures !Family(e.0, name) {
      var k := e.0;
      assert k == "playerCount" || k == "currentPlayer" || k == "volcanoCardCount" || k == "cardCount";
      if |name| < |k| && k[..|name|] == name {
        assert k[..|name|][0] == k[0] && k[..|name|][1] == k[1] && k[..|name|][2] == k[2];
      }
    }
  }

  /** A saved board never writes a key twice, so the file it gives loads back entry for entry. */
  lemma BoardKeysDistinct(s: BoardSave)
    requires Saveable(s.players)
    ensures UniqueKeys(BoardEntries(s))
  {
    var h := Header(s);
    var v := Flatten(VolcanoBlocks(s.volcanoTiles));
    var c := Flatten(CaveBlocks(s.caves));
    var p := Flatten(PlayerBlocks(s.players));
    var d := Flatten(CardBlocks(s.cards));
    VolcanoSection(s.volcanoTiles);
    CaveSection(s.caves);
    PlayerSection(s.players);
    CardSection(s.cards);
    HeaderApart(s, "volcanoCard");
    HeaderApart(s, "cave");
    HeaderApart(s, "player");
    HeaderApart(s, "dragonCard");
    KindsApart(v, "volcanoCard", c, "cave", 0);
    KindsApart(v, "volcanoCard", p, "player", 0);
    KindsApart(v, "volcanoCard", d, "dragonCard", 0);
    KindsApart(c, "cave", p, "player", 0);
    KindsApart(c, "cave", d, "dragonCard", 0);
    KindsApart(p, "player", d, "dragonCard", 0);
    assert UniqueKeys(h);
    UniqueConcat(h, v);
    UniqueConcat(h + v, c);
    UniqueConcat(h + v + c, p);
    UniqueConcat(h + v + c + p, d);
  }

  // ---------------------------------------------------------------------------
  // Saved text is plain
  // ---------------------------------------------------------------------------

  /** Printing characters other than '=': what every key and value of a saved board is made of. */
  predicate Plain(s: string) {
    s != [] && forall k :: 0 <= k < |s| ==> ' ' < s[k] && s[k] != '='
  }

  predicate PlainEntries(es: seq<Entry>) {
    forall i :: 0 <= i < |es| ==> Plain(es[i].0) && Plain(es[i].1)
  }

  lemma PlainConcat(a: string, b: string)
    requires Plain(a) && Plain(b)
    ensures Plain(a + b)
  {
    forall k | 0 <= k < |a + b| ensures ' ' < (a + b)[k] && (a + b)[k] != '=' {
      if k < |a| {
        assert (a + b)[k] == a[k];
      } else {
        assert (a + b)[k] == b[k - |a|];
      }
    }
  }

  /** `String.valueOf(int)` writes a minus sign and digits only. */
  lemma PlainInt(n: int)
    ensures Plain(ValueOfInt(n))
  {
    var d := Digits(if n < 0 then -n else n);
    assert Plain(d);
    if n < 0 {
      PlainConcat("-", d);
    }
  }

  /** A key made of a plain kind name, a number and a plain field name is plain. */
  lemma PlainKey(name: string, i: nat, field: string)
    requires Plain(name) && Plain(field)
    ensures Plain(Numbered(name, i)) && Plain(Numbered(name, i) + field)
  {
    PlainInt(i + 1);
    PlainConcat(name, ValueOfInt(i + 1));
    PlainConcat(Numbered(name, i), field);
  }

  lemma PlainAppend(a: seq<Entry>, b: seq<Entry>)
    requires PlainEntries(a) && PlainEntries(b)
    ensures PlainEntries(a + b)
  {
    forall i | 0 <= i < |a + b| ensures Plain((a + b)[i].0) && Plain((a + b)[i].1) {
      if i < |a| {
        assert (a + b)[i] == a[i];
      } else {
        assert (a + b)[i] == b[i - |a|];
      }
    }
  }

  lemma {:induction false} FlattenPlain(blocks: seq<seq<Entry>>)
    requires forall i :: 0 <= i < |blocks| ==> PlainEntries(blocks[i])
    ensures PlainEntries(Flatten(blocks))
    decreases |blocks|
  {
    if blocks != [] {
      var n := |blocks| - 1;
      FlattenPlain(blocks[..n]);
      PlainAppend(Flatten(blocks[..n]), blocks[n]);
    }
  }

  lemma PlainHeader(s: BoardSave)
    ensures PlainEntries(Header(s))
  {
    PlainInt(|s.players|);
    PlainInt(s.turnPlayerID + 1);
    PlainInt(|s.volcanoTiles|);
    PlainInt(|s.cards|);
    assert Plain("playerCount") && Plain("currentPlayer") && Plain("volcanoCardCount") && Plain("cardCount");
  }

  lemma PlainVolcano(vt: seq<seq<CardType>>)
    ensures PlainEntries(Flatten(VolcanoBlocks(vt)))
  {
    forall i | 0 <= i < |vt| ensures PlainEntries(VolcanoBlocks(vt)[i]) {
      var prefix := Numbered("volcanoCard", i);
      var es := VolcanoEntries(prefix, vt[i]);
      assert Plain("volcanoCard") && Plain(".tile");
      forall j | 0 <= j < |es| ensures Plain(es[j].0) && Plain(es[j].1) {
        PlainKey("volcanoCard", i, ".tile");
        PlainInt(j + 1);
        PlainConcat(prefix + ".tile", ValueOfInt(j + 1));
      }
    }
    FlattenPlain(VolcanoBlocks(vt));
  }

  lemma PlainCaves(caves: seq<CardType>)
    ensures PlainEntries(Flatten(CaveBlocks(caves)))
  {
    forall i | 0 <= i < |caves| ensures PlainEntries(CaveBlocks(caves)[i]) {
      assert Plain("cave") && Plain(Name(caves[i]));
      PlainKey("cave", i, "cave");
    }
    FlattenPlain(CaveBlocks(caves));
  }

  lemma PlainPlayers(ps: seq<PlayerState>)
    requires Saveable(ps)
    ensures PlainEntries(Flatten(PlayerBlocks(ps)))
  {
    forall i | 0 <= i < |ps| ensures PlainEntries(PlayerBlocks(ps)[i]) {
      var p := ps[i];
      assert Plain("player") && Plain(".caveTileID") && Plain(".currentTileID") && Plain(".currentTileType") && Plain(".tilesLeft");
      PlainKey("player", i, ".caveTileID");
      PlainKey("player", i, ".currentTileID");
      PlainKey("player", i, ".currentTileType");
      PlainKey("player", i, ".tilesLeft");
      PlainInt(p.caveTileID);
      PlainInt(p.currentTileID);
      PlainInt(p.tilesLeft);
      assert Plain(Name(p.currentTileType.value));
    }
    FlattenPlain(PlayerBlocks(ps));
  }

  lemma PlainCards(cs: seq<CardState>)
    ensures PlainEntries(Flatten(CardBlocks(cs)))
  {
    forall i | 0 <= i < |cs| ensures PlainEntries(CardBlocks(cs)[i]) {
      var c := cs[i];
      assert Plain("dragonCard") && Plain(".cardType") && Plain(".cardValue") && Plain(".flipped");
      PlainKey("dragonCard", i, ".cardType");
      PlainKey("dragonCard", i, ".cardValue");
      PlainKey("dragonCard", i, ".flipped");
      PlainInt(c.cardValue);
      assert Plain(Name(c.cardType)) && Plain(ValueOfBool(c.flipped));
    }
    FlattenPlain(CardBlocks(cs));
  }

  // ---------------------------------------------------------------------------
  // What the loading constructor of `GameBoard` reads
  // ---------------------------------------------------------------------------

  /** `Integer.parseInt(properties.get(k))`: `None` where the key is missing or the text is no `int`. */
  function GetInt(m: seq<Entry>, k: string): (r: Option<int>)
    ensures r.Some? <==> Get(m, k).Some? && ParseInt(Get(m, k).value).Some?
    ensures r.Some? ==> r == ParseInt(Get(m, k).value)
  {
    var text :- Get(m, k);
    ParseInt(text)
  }

  /** A key saved with `String.valueOf(v)` reads back as `v`. */
  lemma GetIntOf(m: seq<Entry>, k: string, v: int)
    requires Get(m, k) == Some(ValueOfInt(v)) && MinInt <= v <= MaxInt
    ensures GetInt(m, k) == Some(v)
  {
    ParseValueOfInt(v);
  }

  /** `CardType.valueOf(properties.get(k))`: `None` where the key is missing or names no constant. */
  function GetType(m: seq<Entry>, k: string): (r: Option<CardType>)
    ensures r.Some? ==> Get(m, k) == Some(Name(r.value))
    ensures forall t :: Get(m, k) == Some(Name(t)) ==> r == Some(t)
  {
    ValueOf(Get(m, k))
  }

  /** The values the loading constructor builds the board from. */
  datatype LoadedBoard = LoadedBoard(
    tileNum: int,
    caves: seq<CardType>,
    volcanoTiles: seq<seq<CardType>>,
    players: seq<PlayerState>,
    cards: seq<CardState>)

  /** The count a Java `for (i = 0; i < count; i++)` loop runs. */
  function Runs(count: int): nat {
    if count < 0 then 0 else count
  }

  /**
   * A Java `for (i = 0; i < count; i++)` loop that reads item `i` with
   * `read`: the items, or `None` as soon as one read throws.
   */
  function ReadAll<T>(count: int, read: nat -> Option<T>): (r: Option<seq<T>>)
    ensures r.Some? ==> |r.value| == Runs(count)
    decreases count
  {
    if count <= 0 then Some([])
    else
      var prev :- ReadAll(count - 1, read);
      var item :- read(count - 1);
      Some(prev + [item])
  }

  /** The loop fails exactly when one of its reads does, and otherwise holds item `i` at place `i`. */
  lemma {:induction false} ReadAllReads<T>(count: int, read: nat -> Option<T>)
    ensures ReadAll(count, read).None? <==> exists i: nat :: i < count && read(i).None?
    ensures ReadAll(count, read).Some? ==> forall i :: 0 <= i < |ReadAll(count, read).value| ==> read(i) == Some(ReadAll(count, read).value[i])
    decreases count
  {
    if count > 0 {
      ReadAllReads(count - 1, read);
      var prev := ReadAll(count - 1, read);
      var last := read(count - 1);
      if prev.Some? && last.Some? {
        assert ReadAll(count, read) == Some(prev.value + [last.value]);
        forall i: nat | i < count ensures read(i).Some? {
          if i < count - 1 {
            assert !(exists j: nat :: j < count - 1 && read(j).None?);
          }
        }
      } else if prev.Some? {
        assert ReadAll(count, read).None?;
        assert count - 1 < count && read(count - 1).None?;
      }
    }
  }

  /** The three tiles of volcano card `i`. */
  function LoadTriple(m: seq<Entry>, i: nat): (r: Option<seq<CardType>>)
    ensures r.Some? ==> |r.value| == 3
  {
    var prefix := Numbered("volcanoCard", i);
    var a :- GetType(m, prefix + ".tile1");
    var b :- GetType(m, prefix + ".tile2");
    var c :- GetType(m, prefix + ".tile3");
    Some([a, b, c])
  }

  /**
   * Player `i` on a board of `n` ring tiles: a new player whose tile, type and
   * budget are then set from the map. Flagging its tile as occupied fails
   * for a tile outside the occupation list.
   */
  function LoadPlayer(m: seq<Entry>, i: nat, n: int): (r: Option<PlayerState>)
    ensures r.Some? ==> && 0 <= r.value.currentTileID <= n && r.value.currentCaveID == i
                        && r.value.currentTileType.Some?
  {
    var prefix := Numbered("player", i);
    var caveTileID :- GetInt(m, prefix + ".caveTileID");
    var currentTileID :- GetInt(m, prefix + ".currentTileID");
    var tileType :- GetType(m, prefix + ".currentTileType");
    var tilesLeft :- GetInt(m, prefix + ".tilesLeft");
    if currentTileID < 0 || n < currentTileID then None
    else Some(PlayerState(caveTileID, currentTileID, Some(tileType), tilesLeft, i))
  }

  /** Dragon card `i`; a missing `flipped` key reads as `false`. */
  function LoadCard(m: seq<Entry>, i: nat): (r: Option<CardState>)
    ensures var prefix := Numbered("dragonCard", i);
      && (r.Some? <==> GetType(m, prefix + ".cardType").Some? && GetInt(m, prefix + ".cardValue").Some?)
      && (r.Some? ==> && Get(m, prefix + ".cardType") == Some(Name(r.value.cardType))
                      && GetInt(m, prefix + ".cardValue") == Some(r.value.cardValue))
      && (r.Some? && r.value.flipped ==> Get(m, prefix + ".flipped").Some?)
  {
    var prefix := Numbered("dragonCard", i);
    var cardType :- GetType(m, prefix + ".cardType");
    var cardValue :- GetInt(m, prefix + ".cardValue");
    Some(CardState(cardType, cardValue, ParseBoolean(Get(m, prefix + ".flipped"))))
  }

  /**
   * What the loading constructor reads: `None` wherever it throws (a
   * missing key, a number or constant that does not parse, no caves to
   * divide the ring among, a player off the occupation list). The tile
   * count is `volcanoCardCount * 3` in `int` arithmetic, and the number of
   * volcano cards read is that count divided by 3.
   */
  function LoadBoard(m: seq<Entry>): (r: Option<LoadedBoard>)
    ensures GetInt(m, "volcanoCardCount").None? || GetInt(m, "playerCount").None? || GetInt(m, "cardCount").None? ==> r.None?
    ensures GetInt(m, "playerCount").Some? && GetInt(m, "playerCount").value <= 0 ==> r.None?
    ensures r.Some? ==> var count := GetInt(m, "volcanoCardCount").value;
      && r.value.tileNum == TileNum(count)
      && |r.value.volcanoTiles| == Runs(VolcanoCardNum(count))
      && |r.value.cards| == Runs(GetInt(m, "cardCount").value)
  {
    // The three counters are read up front; every read is free of side effects, so the order of failures does not matter.
    var count :- GetInt(m, "volcanoCardCount");
    var caveNum :- GetInt(m, "playerCount");
    var cardCount :- GetInt(m, "cardCount");
    LoadParts(m, count, caveNum, cardCount)
  }

  function LoadParts(m: seq<Entry>, count: int, caveNum: int, cardCount: int): (r: Option<LoadedBoard>)
    ensures caveNum <= 0 ==> r.None?
    ensures r.Some? ==> && r.value.tileNum == TileNum(count)
                        && |r.value.volcanoTiles| == Runs(VolcanoCardNum(count))
                        && |r.value.cards| == Runs(cardCount)
  {
    var caves :- ReadAll(caveNum, CaveReader(m));
    var volcanoTiles :- ReadAll(VolcanoCardNum(count), TripleReader(m));
    if |caves| == 0 then None
    else
      var players :- ReadAll(|caves|, PlayerReader(m, 3 * |volcanoTiles|));
      var cards :- ReadAll(cardCount, CardReader(m));
      Some(LoadedBoard(TileNum(count), caves, volcanoTiles, players, cards))
  }

  /** `volcanoCardCount * 3` in `int` arithmetic. */
  function TileNum(count: int): (r: int)
    ensures MinInt <= r <= MaxInt
    ensures MinInt <= 3 * count <= MaxInt ==> r == 3 * count
  {
    Int32(count * 3)
  }

  /** The number of volcano cards the loader reads: the tile count divided by 3, rounded toward zero. */
  function VolcanoCardNum(count: int): (r: int)
    ensures MinInt <= 3 * count <= MaxInt ==> r == count
  {
    JavaDiv(TileNum(count), 3)
  }

  function CaveReader(m: seq<Entry>): nat -> Option<CardType> {
    (i: nat) => GetType(m, Numbered("cave", i))
  }

  function TripleReader(m: seq<Entry>): nat -> Option<seq<CardType>> {
    (i: nat) => LoadTriple(m, i)
  }

  function PlayerReader(m: seq<Entry>, n: int): nat -> Option<PlayerState> {
    (i: nat) => LoadPlayer(m, i, n)
  }

  function CardReader(m: seq<Entry>): nat -> Option<CardState> {
    (i: nat) => LoadCard(m, i)
  }

  /** A board that loads has caves, a player per cave on the board, and three tiles per volcano card. */
  predicate LoadedShape(b: LoadedBoard) {
    && 1 <= |b.caves| == |b.players|
    && (forall k :: 0 <= k < |b.volcanoTiles| ==> |b.volcanoTiles[k]| == 3)
    && (forall k :: 0 <= k < |b.players| ==>
          && 0 <= b.players[k].currentTileID <= 3 * |b.volcanoTiles|
          && b.players[k].currentCaveID == k && b.players[k].currentTileType.Some?)
  }

  lemma LoadPartsShape(m: seq<Entry>, count: int, caveNum: int, cardCount: int)
    requires LoadParts(m, count, caveNum, cardCount).Some?
    ensures LoadedShape(LoadParts(m, count, caveNum, cardCount).value)
  {
    var b := LoadParts(m, count, caveNum, cardCount).value;
    var caves := ReadAll(caveNum, CaveReader(m)).value;
    var volcanoTiles := ReadAll(VolcanoCardNum(count), TripleReader(m)).value;
    var n := 3 * |volcanoTiles|;
    var players := ReadAll(|caves|, PlayerReader(m, n)).value;
    assert b.caves == caves && b.volcanoTiles == volcanoTiles && b.players == players;
    ReadAllReads(VolcanoCardNum(count), TripleReader(m));
    ReadAllReads(|caves|, PlayerReader(m, n));
    forall k | 0 <= k < |players|
      ensures 0 <= players[k].currentTileID <= n && players[k].currentCaveID == k && players[k].currentTileType.Some?
    {
      assert PlayerReader(m, n)(k) == LoadPlayer(m, k, n);
    }
    forall k | 0 <= k < |volcanoTiles| ensures |volcanoTiles[k]| == 3 {
      assert TripleReader(m)(k) == LoadTriple(m, k);
    }
  }

  lemma LoadBoardShape(m: seq<Entry>)
    requires LoadBoard(m).Some?
    ensures LoadedShape(LoadBoard(m).value)
  {
    LoadPartsShape(m, GetInt(m, "volcanoCardCount").value, GetInt(m, "playerCount").value, GetInt(m, "cardCount").value);
  }

  /** A board that loads has as many caves as its `playerCount` entry says. */
  lemma LoadedPlayerCount(m: seq<Entry>)
    requires LoadBoard(m).Some?
    ensures GetInt(m, "playerCount") == Some(|LoadBoard(m).value.caves|)
  {
    LoadPartsCaves(m, GetInt(m, "volcanoCardCount").value, GetInt(m, "playerCount").value, GetInt(m, "cardCount").value);
  }

  lemma LoadPartsCaves(m: seq<Entry>, count: int, caveNum: int, cardCount: int)
    requires LoadParts(m, count, caveNum, cardCount).Some?
    ensures |LoadParts(m, count, caveNum, cardCount).value.caves| == caveNum
  {
    var caves := ReadAll(caveNum, CaveReader(m));
    assert LoadParts(m, count, caveNum, cardCount).value.caves == caves.value;
  }

  // ---------------------------------------------------------------------------
  // Saving, then loading
  // ---------------------------------------------------------------------------

  predicate IsInt(x: int) {
    MinInt <= x <= MaxInt
  }

  /**
   * A board state whose save loads back: every player has a tile type to
   * name, one player per cave, three tiles per volcano card, every number
   * an `int`, and every player on the occupation list.
   */
  predicate Storable(s: BoardSave) {
    && Saveable(s.players)
    && 1 <= |s.caves| == |s.players| <= MaxInt
    && 3 * |s.volcanoTiles| <= MaxInt && |s.cards| <= MaxInt
    && (forall k :: 0 <= k < |s.volcanoTiles| ==> |s.volcanoTiles[k]| == 3)
    && (forall k :: 0 <= k < |s.players| ==>
          IsInt(s.players[k].caveTileID) && IsInt(s.players[k].tilesLeft)
          && 0 <= s.players[k].currentTileID <= 3 * |s.volcanoTiles|)
    && (forall k :: 0 <= k < |s.cards| ==> IsInt(s.cards[k].cardValue))
  }

  /** The players as the loader rebuilds them: `currentCaveID` is not saved, and becomes the list index. */
  function Reindexed(ps: seq<PlayerState>): (r: seq<PlayerState>)
    ensures |r| == |ps| && forall i :: 0 <= i < |ps| ==> r[i] == ps[i].(currentCaveID := i)
  {
    seq(|ps|, i requires 0 <= i < |ps| => ps[i].(currentCaveID := i))
  }

  /** A loop whose every read succeeds gives exactly the items read. */
  lemma ReadAllExact<T>(count: nat, read: nat -> Option<T>, xs: seq<T>)
    requires |xs| == count && forall i :: 0 <= i < count ==> read(i) == Some(xs[i])
    ensures ReadAll(count, read) == Some(xs)
  {
    ReadAllReads(count, read);
    assert !(exists i: nat :: i < count && read(i).None?);
    var r := ReadAll(count, read).value;
    assert forall i :: 0 <= i < count ==> read(i) == Some(r[i]) && r[i] == xs[i];
    assert r == xs;
  }

  lemma HeaderRead(s: BoardSave)
    requires Storable(s)
    ensures var m := BoardEntries(s);
      && GetInt(m, "volcanoCardCount") == Some(|s.volcanoTiles|)
      && GetInt(m, "playerCount") == Some(|s.players|)
      && GetInt(m, "cardCount") == Some(|s.cards|)
      && Get(m, "currentPlayer") == Some(ValueOfInt(s.turnPlayerID + 1))
  {
    var h := Header(s);
    HeaderFields(s);
    HeaderIntRead(s, h[0], |s.players|);
    HeaderIntRead(s, h[2], |s.volcanoTiles|);
    HeaderIntRead(s, h[3], |s.cards|);
    HeaderGet(s, h[1]);
  }

  lemma HeaderFields(s: BoardSave)
    ensures var h := Header(s);
      && |h| == 4
      && h[0] == ("playerCount", ValueOfInt(|s.players|))
      && h[1] == ("currentPlayer", ValueOfInt(s.turnPlayerID + 1))
      && h[2] == ("volcanoCardCount", ValueOfInt(|s.volcanoTiles|))
      && h[3] == ("cardCount", ValueOfInt(|s.cards|))
  {
  }

  /** A counter the header holds reads back as that `int`. */
  lemma HeaderIntRead(s: BoardSave, e: Entry, v: int)
    requires Saveable(s.players) && e in Header(s) && e.1 == ValueOfInt(v) && IsInt(v)
    ensures GetInt(BoardEntries(s), e.0) == Some(v)
  {
    HeaderGet(s, e);
    GetIntOf(BoardEntries(s), e.0, v);
  }

  /** `get` on a saved board finds each counter. */
  lemma HeaderGet(s: BoardSave, e: Entry)
    requires Saveable(s.players) && e in Header(s)
    ensures Get(BoardEntries(s), e.0) == Some(e.1)
  {
    BoardKeysDistinct(s);
    assert e in BoardEntries(s);
    GetMember(BoardEntries(s), e);
  }

  lemma CavesRead(s: BoardSave)
    requires Storable(s)
    ensures ReadAll(|s.caves|, CaveReader(BoardEntries(s))) == Some(s.caves)
  {
    var m := BoardEntries(s);
    BoardKeysDistinct(s);
    forall i | 0 <= i < |s.caves| ensures CaveReader(m)(i) == Some(s.caves[i]) {
      var e := (Numbered("cave", i), Name(s.caves[i]));
      assert e in CaveBlocks(s.caves)[i];
      FlattenHas(CaveBlocks(s.caves), i, e);
      GetMember(m, e);
      ValueOfName(s.caves[i]);
    }
    ReadAllExact(|s.caves|, CaveReader(m), s.caves);
  }

  lemma TileKeys(prefix: string)
    ensures prefix + ".tile" + ValueOfInt(1) == prefix + ".tile1"
    ensures prefix + ".tile" + ValueOfInt(2) == prefix + ".tile2"
    ensures prefix + ".tile" + ValueOfInt(3) == prefix + ".tile3"
  {
    assert ValueOfInt(1) == "1" && ValueOfInt(2) == "2" && ValueOfInt(3) == "3";
  }

  lemma TriplesRead(s: BoardSave)
    requires Storable(s)
    ensures ReadAll(|s.volcanoTiles|, TripleReader(BoardEntries(s))) == Some(s.volcanoTiles)
  {
    var m := BoardEntries(s);
    forall i | 0 <= i < |s.volcanoTiles| ensures TripleReader(m)(i) == Some(s.volcanoTiles[i]) {
      TripleRead(s, i);
    }
    ReadAllExact(|s.volcanoTiles|, TripleReader(m), s.volcanoTiles);
  }

  lemma TripleRead(s: BoardSave, i: nat)
    requires Storable(s) && i < |s.volcanoTiles|
    ensures LoadTriple(BoardEntries(s), i) == Some(s.volcanoTiles[i])
  {
    var t := s.volcanoTiles[i];
    var bs := VolcanoBlocks(s.volcanoTiles);
    var es := VolcanoEntries(Numbered("volcanoCard", i), t);
    assert bs[i] == es;
    forall j | 0 <= j < 3 ensures Get(BoardEntries(s), es[j].0) == Some(es[j].1) {
      BoardGet(s, bs, i, es[j]);
    }
    TripleFrom(BoardEntries(s), i, t);
  }

  /** A map holding the three tile entries of volcano card `i` loads them back as that card's tiles. */
  lemma TripleFrom(m: seq<Entry>, i: nat, t: seq<CardType>)
    requires |t| == 3
    requires var es := VolcanoEntries(Numbered("volcanoCard", i), t);
      forall j :: 0 <= j < 3 ==> Get(m, es[j].0) == Some(es[j].1)
    ensures LoadTriple(m, i) == Some(t)
  {
    var prefix := Numbered("volcanoCard", i);
    var es := VolcanoEntries(prefix, t);
    TileKeys(prefix);
    assert Get(m, es[0].0) == Some(es[0].1) && Get(m, es[1].0) == Some(es[1].1) && Get(m, es[2].0) == Some(es[2].1);
    ValueOfName(t[0]);
    ValueOfName(t[1]);
    ValueOfName(t[2]);
    assert [t[0], t[1], t[2]] == t;
  }

  /** `get` on a saved board finds each saved entry. */
  lemma BoardGet(s: BoardSave, blocks: seq<seq<Entry>>, i: int, e: Entry)
    requires Saveable(s.players) && 0 <= i < |blocks| && e in blocks[i]
    requires blocks == VolcanoBlocks(s.volcanoTiles) || blocks == CaveBlocks(s.caves)
          || blocks == PlayerBlocks(s.players) || blocks == CardBlocks(s.cards)
    ensures Get(BoardEntries(s), e.0) == Some(e.1)
  {
    BoardKeysDistinct(s);
    FlattenHas(blocks, i, e);
    GetMember(BoardEntries(s), e);
  }

  lemma PlayerRead(s: BoardSave, i: nat)
    requires Storable(s) && i < |s.players|
    ensures LoadPlayer(BoardEntries(s), i, 3 * |s.volcanoTiles|) == Some(s.players[i].(currentCaveID := i))
  {
    var p := s.players[i];
    var bs := PlayerBlocks(s.players);
    var es := PlayerEntries(Numbered("player", i), p);
    assert bs[i] == es;
    forall j | 0 <= j < 4 ensures Get(BoardEntries(s), es[j].0) == Some(es[j].1) {
      BoardGet(s, bs, i, es[j]);
    }
    PlayerFrom(BoardEntries(s), i, 3 * |s.volcanoTiles|, p);
  }

  /** A map holding the four entries of player `i`, standing on the board, loads them back as that player. */
  lemma PlayerFrom(m: seq<Entry>, i: nat, n: int, p: PlayerState)
    requires p.currentTileType.Some? && 0 <= p.currentTileID <= n
    requires IsInt(p.caveTileID) && IsInt(p.currentTileID) && IsInt(p.tilesLeft)
    requires var es := PlayerEntries(Numbered("player", i), p);
      forall j :: 0 <= j < 4 ==> Get(m, es[j].0) == Some(es[j].1)
    ensures LoadPlayer(m, i, n) == Some(p.(currentCaveID := i))
  {
    var prefix := Numbered("player", i);
    var es := PlayerEntries(prefix, p);
    assert Get(m, es[0].0) == Some(es[0].1) && Get(m, es[1].0) == Some(es[1].1);
    assert Get(m, es[2].0) == Some(es[2].1) && Get(m, es[3].0) == Some(es[3].1);
    ParseValueOfInt(p.caveTileID);
    ParseValueOfInt(p.currentTileID);
    ParseValueOfInt(p.tilesLeft);
    ValueOfName(p.currentTileType.value);
    assert GetInt(m, prefix + ".caveTileID") == Some(p.caveTileID);
    assert GetInt(m, prefix + ".currentTileID") == Some(p.currentTileID);
    assert GetType(m, prefix + ".currentTileType") == p.currentTileType;
    assert GetInt(m, prefix + ".tilesLeft") == Some(p.tilesLeft);
  }

  lemma CardRead(s: BoardSave, i: nat)
    requires Storable(s) && i < |s.cards|
    ensures LoadCard(BoardEntries(s), i) == Some(s.cards[i])
  {
    var c := s.cards[i];
    var bs := CardBlocks(s.cards);
    var es := CardEntries(Numbered("dragonCard", i), c);
    assert bs[i] == es;
    forall j | 0 <= j < 3 ensures Get(BoardEntries(s), es[j].0) == Some(es[j].1) {
      BoardGet(s, bs, i, es[j]);
    }
    CardFrom(BoardEntries(s), i, c);
  }

  /** A map holding the three entries of dragon card `i` loads them back as that card. */
  lemma CardFrom(m: seq<Entry>, i: nat, c: CardState)
    requires IsInt(c.cardValue)
    requires var es := CardEntries(Numbered("dragonCard", i), c);
      forall j :: 0 <= j < 3 ==> Get(m, es[j].0) == Some(es[j].1)
    ensures LoadCard(m, i) == Some(c)
  {
    var prefix := Numbered("dragonCard", i);
    var es := CardEntries(prefix, c);
    assert Get(m, es[0].0) == Some(es[0].1) && Get(m, es[1].0) == Some(es[1].1) && Get(m, es[2].0) == Some(es[2].1);
    ParseValueOfInt(c.cardValue);
    ValueOfName(c.cardType);
    ParseValueOfBool(c.flipped);
    assert GetType(m, prefix + ".cardType") == Some(c.cardType);
    assert GetInt(m, prefix + ".cardValue") == Some(c.cardValue);
    assert ParseBoolean(Get(m, prefix + ".flipped")) == c.flipped;
  }

  /**
   * Round trip: the entries a board saves load back as the same caves,
   * volcano cards, player fields and dragon cards, with the tile count
   * `3 * volcanoCardCount`; only `currentCaveID` is rebuilt, as the index.
   */
  lemma SaveThenLoad(s: BoardSave)
    requires Storable(s)
    ensures LoadBoard(BoardEntries(s))
         == Some(LoadedBoard(3 * |s.volcanoTiles|, s.caves, s.volcanoTiles, Reindexed(s.players), s.cards))
  {
    var m := BoardEntries(s);
    var n := 3 * |s.volcanoTiles|;
    HeaderRead(s);
    assert TileNum(|s.volcanoTiles|) == n;
    assert VolcanoCardNum(|s.volcanoTiles|) == |s.volcanoTiles|;
    CavesRead(s);
    TriplesRead(s);
    forall i | 0 <= i < |s.players| ensures PlayerReader(m, n)(i) == Some(Reindexed(s.players)[i]) {
      PlayerRead(s, i);
    }
    ReadAllExact(|s.caves|, PlayerReader(m, n), Reindexed(s.players));
    forall i | 0 <= i < |s.cards| ensures CardReader(m)(i) == Some(s.cards[i]) {
      CardRead(s, i);
    }
    ReadAllExact(|s.cards|, CardReader(m), s.cards);
  }

  /**
   * `SaveHandler.save` hands a new, empty map to `invokeSave`: the map it
   * gets back holds exactly the board's entries, and loading it gives the
   * board back.
   */
  lemma SavedMapLoads(s: BoardSave)
    requires Storable(s)
    ensures PutAll([], BoardEntries(s)) == BoardEntries(s)
    ensures LoadBoard(PutAll([], BoardEntries(s)))
         == Some(LoadedBoard(3 * |s.volcanoTiles|, s.caves, s.volcanoTiles, Reindexed(s.players), s.cards))
  {
    BoardKeysDistinct(s);
    assert [] + BoardEntries(s) == BoardEntries(s);
    PutAllFresh([], BoardEntries(s));
    SaveThenLoad(s);
  }

  /** Plain text has no '=', no line break and no blank at either end, so the text format keeps it. */
  lemma PlainClean(t: string)
    requires Plain(t)
    ensures SaveHandler.CleanText(t) && t != []
  {
    forall c | c in t ensures !IsLineBreak(c) && c != '=' {
      var k :| 0 <= k < |t| && t[k] == c;
    }
  }

  /** The entries a board saves make a clean map: distinct keys, with plain keys and values. */
  lemma BoardEntriesClean(s: BoardSave)
    requires Saveable(s.players)
    ensures SaveHandler.Clean(BoardEntries(s))
  {
    var m := BoardEntries(s);
    BoardKeysDistinct(s);
    forall i | 0 <= i < |m| ensures SaveHandler.CleanText(m[i].0) && SaveHandler.CleanText(m[i].1) && m[i].1 != [] {
      PlainClean(m[i].0);
      PlainClean(m[i].1);
    }
  }

  /**
   * The whole round trip through the file: the text `save` writes for the
   * map `invokeSave` fills, read back line by line by `load` and handed to
   * the loading constructor, gives the board back.
   */
  lemma SavedTextLoads(s: BoardSave)
    requires Storable(s)
    ensures var text := SaveHandler.Format(PutAll([], BoardEntries(s)));
      LoadBoard(SaveHandler.LoadLines(ReadLines(text)))
        == Some(LoadedBoard(3 * |s.volcanoTiles|, s.caves, s.volcanoTiles, Reindexed(s.players), s.cards))
  {
    SavedMapLoads(s);
    BoardEntriesClean(s);
    SaveHandler.LoadSave(BoardEntries(s));
  }
}
