/**
 * `CardController` and its two subclasses, `BasicCardController` and
 * `SpecialCardController`, with `CardFactory`. A card is face-down or
 * face-up; the image it shows follows that flag. One flip at a time is
 * allowed across all cards (Java's static `transitionActive`).
 *
 * The flip animation (rotate, swap image, rotate back, pause) is run as one
 * synchronous sequence of steps. The delegate callback a finished flip makes
 * is returned as a `DelegateCall`, which the board carries out.
 */
module Cards {
  import opened CardTypes
  import opened JavaStrings
  import opened LinkedMaps

  /** The shared `transitionActive` flag: one object, referenced by every card. */
  class TransitionLock {
    var active: bool

    constructor ()
      ensures !active
    {
      active := false;
    }
  }

  /** Which subclass a card is. */
  datatype ControllerKind = Basic | Special

  /** The delegate method a finished flip calls, if any. */
  datatype DelegateCall = NoCall | CardAction(cardType: CardType, cardValue: int) | SwapAction

  /** The saved fields of a card. */
  datatype CardState = CardState(cardType: CardType, cardValue: int, flipped: bool)

  /** The entries `invokeSave` puts under `prefix`. */
  function CardEntries(prefix: string, c: CardState): seq<Entry> {
    [ (prefix + ".cardType", Name(c.cardType)),
      (prefix + ".cardValue", ValueOfInt(c.cardValue)),
      (prefix + ".flipped", ValueOfBool(c.flipped)) ]
  }

  lemma CardEntriesShape(prefix: string, c: CardState)
    ensures |CardEntries(prefix, c)| == 3 && UniqueKeys(CardEntries(prefix, c))
  {
    var es := CardEntries(prefix, c);
    assert es[0].0[|prefix| + 5] == 'T' && es[1].0[|prefix| + 5] == 'V' && es[2].0[|prefix| + 1] == 'f';
    assert es[0].0[|prefix| + 1] == 'c' && es[1].0[|prefix| + 1] == 'c';
  }

  /** What a finished flip asks of the delegate: a face-up basic card its move, a face-up special card the swap. */
  function CallFor(kind: ControllerKind, cardType: CardType, cardValue: int, flipped: bool): (call: DelegateCall)
    ensures !flipped <==> call == NoCall
    ensures call.CardAction? <==> flipped && kind == Basic
    ensures call.CardAction? ==> call == CardAction(cardType, cardValue)
    ensures call.SwapAction? <==> flipped && kind == Special
  {
    if !flipped then NoCall
    else match kind
      case Basic => CardAction(cardType, cardValue)
      case Special => SwapAction
  }

  class CardController {
    const kind: ControllerKind
    const cardType: CardType
    const cardValue: int
    const lock: TransitionLock
    var flipped: bool
    /** Whether the image view shows the face image (otherwise the back image). */
    var showingFace: bool

    /** The image shown matches the flag. */
    ghost predicate Valid()
      reads this
    {
      showingFace == flipped
    }

    function State(): CardState
      reads this
    {
      CardState(cardType, cardValue, flipped)
    }

    /** A new card is face-down and shows its back. */
    constructor (kind: ControllerKind, cardType: CardType, cardValue: int, lock: TransitionLock)
      ensures Valid() && !flipped
      ensures this.kind == kind && this.cardType == cardType && this.cardValue == cardValue && this.lock == lock
    {
      this.kind := kind;
      this.cardType := cardType;
      this.cardValue := cardValue;
      this.lock := lock;
      flipped := false;
      showingFace := false;
    }

    /** `flipBack`: face-down, back image shown. */
    method FlipBack()
      modifies this
      ensures Valid() && !flipped
    {
      showingFace := false;
      flipped := false;
    }

    /** `flipOver`: face-up, face image shown. */
    method FlipOver()
      modifies this
      ensures Valid() && flipped
    {
      showingFace := true;
      flipped := true;
    }

    /** `cardHalfFlip`: the flag and the image turn over together. */
    method CardHalfFlip()
      requires Valid()
      modifies this
      ensures Valid() && flipped == !old(flipped)
    {
      if !flipped {
        showingFace := true;
        flipped := true;
      } else {
        showingFace := false;
        flipped := false;
      }
    }

    /**
     * `cardFlipped` of either subclass: the delegate call it makes, after
     * which the shared flag is cleared. The card's own flag is not touched.
     */
    method CardFlipped() returns (call: DelegateCall)
      modifies lock
      ensures !lock.active
      ensures call == CallFor(kind, cardType, cardValue, flipped)
    {
      if flipped {
        if kind == Basic {
          call := CardAction(cardType, cardValue);
        } else {
          call := SwapAction;
        }
      } else {
        call := NoCall;
      }
      lock.active := false;
    }

    /**
     * `handleCardClicked`: only a primary-button click on a face-down card
     * while no flip is running starts one, and takes the shared flag.
     */
    method HandleCardClicked(primary: bool) returns (started: bool)
      modifies lock
      ensures started <==> primary && !flipped && !old(lock.active)
      ensures lock.active == (old(lock.active) || started)
    {
      started := false;
      if primary && !flipped && !lock.active {
        if !lock.active {
          lock.active := true;
          started := true;
        }
      }
    }

    /**
     * The animation chain a started flip runs: the first rotation ends in
     * `cardHalfFlip`, the second rotation in the pause, the pause in
     * `cardFlipped`.
     */
    method RunFlip() returns (call: DelegateCall)
      requires Valid()
      modifies this, lock
      ensures Valid() && flipped == !old(flipped) && !lock.active
      ensures call == CallFor(kind, cardType, cardValue, flipped)
    {
      CardHalfFlip();
      call := CardFlipped();
    }

    /** `invokeSave`: the card's type, value and flag under `prefix`. */
    method InvokeSave(properties: seq<Entry>, prefix: string) returns (after: seq<Entry>)
      ensures after == PutAll(properties, CardEntries(prefix, State()))
    {
      ghost var es := CardEntries(prefix, State());
      after := Put(properties, prefix + ".cardType", Name(cardType));
      after := Put(after, prefix + ".cardValue", ValueOfInt(cardValue));
      after := Put(after, prefix + ".flipped", ValueOfBool(flipped));
      PutThree(properties, es[0], es[1], es[2]);
      assert [es[0], es[1], es[2]] == es;
    }
  }

  /** The saved fields of every card of a list, in order. */
  function CardStatesOf(cs: seq<CardController>): (r: seq<CardState>)
    reads cs
    ensures |r| == |cs| && forall k :: 0 <= k < |cs| ==> r[k] == cs[k].State()
  {
    seq(|cs|, k reads cs requires 0 <= k < |cs| => cs[k].State())
  }

  /** `CardFactory.createCardController`: a SWAP card is a special card, every other type a basic one. */
  method CreateCardController(cardType: CardType, cardValue: int, lock: TransitionLock) returns (c: CardController)
    ensures fresh(c) && c.Valid() && !c.flipped
    ensures c.kind == (if cardType == Swap then Special else Basic)
    ensures c.cardType == cardType && c.cardValue == cardValue && c.lock == lock
  {
    match cardType
    case Swap => c := new CardController(Special, cardType, cardValue, lock);
    case _ => c := new CardController(Basic, cardType, cardValue, lock);
  }
}
