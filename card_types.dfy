/** The `CardType` enum: the six kinds of card, tile and cave, and their names. */
module CardTypes {
  import opened Wrappers

  /** The enum constants, in declaration order; colours and resource paths are left out. */
  datatype CardType = Swap | PirateDragon | BabyDragon | Salamander | Bat | Spider

  /** `toString()` of an enum constant: the constant's name. */
  function Name(t: CardType): (s: string)
    ensures |s| > 0
    ensures forall k :: 0 <= k < |s| ==> 'A' <= s[k] <= 'Z' || s[k] == '_'
  {
    match t
    case Swap => "SWAP"
    case PirateDragon => "PIRATE_DRAGON"
    case BabyDragon => "BABYDRAGON"
    case Salamander => "SALAMANDER"
    case Bat => "BAT"
    case Spider => "SPIDER"
  }

  /** `CardType.valueOf(s)`: the constant with exactly that name; `None` where Java throws. */
  function ValueOf(s: Option<string>): (r: Option<CardType>)
    ensures r.Some? ==> s.Some? && Name(r.value) == s.value
    ensures forall t :: s == Some(Name(t)) ==> r == Some(t)
  {
    if s.None? then None
    else if s.value == "SWAP" then Some(Swap)
    else if s.value == "PIRATE_DRAGON" then Some(PirateDragon)
    else if s.value == "BABYDRAGON" then Some(BabyDragon)
    else if s.value == "SALAMANDER" then Some(Salamander)
    else if s.value == "BAT" then Some(Bat)
    else if s.value == "SPIDER" then Some(Spider)
    else None
  }

  /** Parsing a constant's name gives the constant back. */
  lemma ValueOfName(t: CardType)
    ensures ValueOf(Some(Name(t))) == Some(t)
  {
  }

  /** Two constants never share a name. */
  lemma NameInjective(a: CardType, b: CardType)
    requires Name(a) == Name(b)
    ensures a == b
  {
    ValueOfName(a);
    ValueOfName(b);
  }
}
