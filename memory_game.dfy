/**
 * The memory card game: sixteen face-down cards holding the symbol list
 * twice, turned over two at a time. A matching pair stays face up; a
 * mismatched pair locks the board until a timer turns both back. Matching
 * the last pair sends a fixed reward.
 *
 * The board is specified on values (`Board`, `Click`, `MismatchTimeout`,
 * `Initialize`); the class `MemoryGame` holds the same state in fields and
 * is proved to follow those functions. The timer is the explicit second
 * step `MismatchTimeout`.
 */
module Memory {
  import opened Wrappers
  import opened Shared

  /** The card faces: gamepad, dice, target, circus tent, palette, masks. */
  datatype Symbol = Gamepad | Dice | Target | Circus | Palette | Masks

  /** The symbol list; circus tent and target appear twice in it. */
  const GameSymbols: seq<Symbol> := [Gamepad, Dice, Target, Circus, Palette, Masks, Circus, Target]

  /** Number of cards on the board. */
  const DeckSize: nat := 16

  /** The reward sent when the last pair is matched. */
  const CompletionCredits: nat := 10
  const CompletionGamecoins: nat := 1

  datatype Card = Card(id: nat, value: Symbol, isFlipped: bool, isMatched: bool)

  /**
   * The component's state. `pending` is the armed mismatch timer, holding
   * the two card ids it will turn back (the second card clicked, then the first).
   */
  datatype Board = Board(cards: seq<Card>, flippedCards: seq<nat>, isLocked: bool, pending: Option<(nat, nat)>)

  // ---------------------------------------------------------------------
  // Dealing
  // ---------------------------------------------------------------------

  predicate SwapsIn(swaps: seq<(nat, nat)>, n: nat) {
    forall k :: 0 <= k < |swaps| ==> swaps[k].0 < n && swaps[k].1 < n
  }

  function Swap(s: seq<Symbol>, i: nat, j: nat): (r: seq<Symbol>)
    requires i < |s| && j < |s|
    ensures |r| == |s| && multiset(r) == multiset(s)
  {
    s[i := s[j]][j := s[i]]
  }

  /**
   * The random sort of the doubled symbol list, as the sequence of
   * exchanges it performs: the result is always a rearrangement.
   */
  function Shuffle(s: seq<Symbol>, swaps: seq<(nat, nat)>): (r: seq<Symbol>)
    requires SwapsIn(swaps, |s|)
    ensures |r| == |s| && multiset(r) == multiset(s)
    decreases |swaps|
  {
    if swaps == [] then s
    else Shuffle(Swap(s, swaps[0].0, swaps[0].1), swaps[1..])
  }

  /** Cards numbered by position, face down and unmatched. */
  function Deal(values: seq<Symbol>): seq<Card> {
    seq(|values|, i requires 0 <= i < |values| => Card(i, values[i], false, false))
  }

  function Values(cards: seq<Card>): seq<Symbol> {
    seq(|cards|, i requires 0 <= i < |cards| => cards[i].value)
  }

  /** `initializeGame`: a fresh shuffled deck and no turned cards; the lock is left as it was. */
  function Initialize(b: Board, swaps: seq<(nat, nat)>): (r: Board)
    requires SwapsIn(swaps, DeckSize)
    ensures |r.cards| == DeckSize
    ensures forall i :: 0 <= i < |r.cards| ==> r.cards[i].id == i && !r.cards[i].isFlipped && !r.cards[i].isMatched
    ensures multiset(Values(r.cards)) == multiset(GameSymbols + GameSymbols)
    ensures r.flippedCards == [] && r.isLocked == b.isLocked && r.pending == b.pending
  {
    var shuffled := Shuffle(GameSymbols + GameSymbols, swaps);
    assert Values(Deal(shuffled)) == shuffled;
    Board(Deal(shuffled), [], b.isLocked, b.pending)
  }

  /**
   * A new deck has sixteen cards numbered 0 to 15, all face down and
   * unmatched, holding each symbol of the list exactly twice as often as
   * the list does, so every symbol occurs an even number of times.
   */
  lemma InitializeDeck(b: Board, swaps: seq<(nat, nat)>)
    requires SwapsIn(swaps, DeckSize)
    ensures |Initialize(b, swaps).cards| == DeckSize
    ensures forall i :: 0 <= i < DeckSize ==>
              var c := Initialize(b, swaps).cards[i]; c.id == i && !c.isFlipped && !c.isMatched
    ensures multiset(Values(Initialize(b, swaps).cards)) == multiset(GameSymbols) + multiset(GameSymbols)
    ensures forall x :: multiset(Values(Initialize(b, swaps).cards))[x] % 2 == 0
    ensures Initialize(b, swaps).flippedCards == []
  {
    var v := Shuffle(GameSymbols + GameSymbols, swaps);
    assert Values(Deal(v)) == v;
  }

  // ---------------------------------------------------------------------
  // Per-card updates
  // ---------------------------------------------------------------------

  /** Turn the card with this id face up. */
  function FlipUp(cards: seq<Card>, id: nat): seq<Card> {
    seq(|cards|, i requires 0 <= i < |cards| =>
      if cards[i].id == id then cards[i].(isFlipped := true) else cards[i])
  }

  /** Mark the cards with these two ids matched. */
  function MarkMatched(cards: seq<Card>, a: nat, b: nat): seq<Card> {
    seq(|cards|, i requires 0 <= i < |cards| =>
      if cards[i].id == a || cards[i].id == b then cards[i].(isMatched := true) else cards[i])
  }

  /** Turn the cards with these two ids face down. */
  function FlipDown(cards: seq<Card>, a: nat, b: nat): seq<Card> {
    seq(|cards|, i requires 0 <= i < |cards| =>
      if cards[i].id == a || cards[i].id == b then cards[i].(isFlipped := false) else cards[i])
  }

  /** Number of cards not yet matched. */
  function Unmatched(cards: seq<Card>): nat {
    if cards == [] then 0
    else Unmatched(cards[..|cards| - 1]) + (if cards[|cards| - 1].isMatched then 0 else 1)
  }

  // ---------------------------------------------------------------------
  // The two steps
  // ---------------------------------------------------------------------

  /** The clicks `handleCardClick` returns on without changing anything. */
  predicate Ignored(b: Board, id: nat)
    requires id < |b.cards|
  {
    b.isLocked || |b.flippedCards| == 2 || b.cards[id].isMatched || id in b.flippedCards
  }

  /**
   * `handleCardClick`: ignored while locked, with two cards turned, on a
   * matched card or on a card already turned. Otherwise the card is turned
   * and recorded; as the second card it either matches the first (both
   * matched, nothing turned, unlocked, and the completion reward if these
   * were the last two unmatched cards) or locks the board and arms the
   * mismatch timer. The second component is the reward sent, if any.
   */
  function Click(b: Board, id: nat): (r: (Board, Option<Reward>))
    requires Consistent(b) && id < |b.cards|
    ensures Ignored(b, id) ==> r == (b, None)
    ensures |r.0.cards| == |b.cards|
    // an accepted click changes only the clicked card and, on a second click, the first one
    ensures !Ignored(b, id) ==>
              forall i :: 0 <= i < |b.cards| && i != id && i !in b.flippedCards ==> r.0.cards[i] == b.cards[i]
    // first card: turned face up and recorded
    ensures !Ignored(b, id) && b.flippedCards == [] ==>
              r.0.cards[id] == b.cards[id].(isFlipped := true)
              && r.0.flippedCards == [id] && !r.0.isLocked && r.0.pending == None && r.1 == None
    // second card matching the first: both matched, nothing turned, unlocked
    ensures !Ignored(b, id) && |b.flippedCards| == 1 && b.cards[b.flippedCards[0]].value == b.cards[id].value ==>
              var first := b.flippedCards[0];
              r.0.cards[id] == b.cards[id].(isFlipped := true, isMatched := true)
              && r.0.cards[first] == b.cards[first].(isMatched := true)
              && r.0.flippedCards == [] && !r.0.isLocked && r.0.pending == None
    // second card not matching: locked with the pair pending, neither matched
    ensures !Ignored(b, id) && |b.flippedCards| == 1 && b.cards[b.flippedCards[0]].value != b.cards[id].value ==>
              var first := b.flippedCards[0];
              r.0.cards[id] == b.cards[id].(isFlipped := true)
              && r.0.cards[first] == b.cards[first]
              && !r.0.cards[id].isMatched && !r.0.cards[first].isMatched
              && r.0.flippedCards == [first, id] && r.0.isLocked && r.0.pending == Some((id, first))
              && r.1 == None
    ensures r.1.Some? ==> r.1.value == Reward(CompletionCredits, CompletionGamecoins)
    ensures r.1.Some? ==> Unmatched(b.cards) == 2 && r.0.isLocked == false
  {
    if Ignored(b, id) then (b, None)
    else
      var up := FlipUp(b.cards, id);
      if |b.flippedCards| == 1 then
        var first := b.flippedCards[0];
        if b.cards[first].value == b.cards[id].value then
          (Board(MarkMatched(up, id, first), [], false, b.pending),
           if Unmatched(b.cards) == 2 then Some(Reward(CompletionCredits, CompletionGamecoins)) else None)
        else
          (Board(up, b.flippedCards + [id], true, Some((id, first))), None)
      else
        (Board(up, b.flippedCards + [id], b.isLocked, b.pending), None)
  }

  /** The mismatch timer firing: both cards face down, nothing turned, unlocked. */
  function MismatchTimeout(b: Board): (r: Board)
    requires b.pending.Some?
    ensures |r.cards| == |b.cards|
    // the two pending cards are turned face down and keep everything else
    ensures forall i :: 0 <= i < |b.cards| && (b.cards[i].id == b.pending.value.0 || b.cards[i].id == b.pending.value.1) ==>
              r.cards[i] == b.cards[i].(isFlipped := false)
    // every other card is unchanged
    ensures forall i :: 0 <= i < |b.cards| && b.cards[i].id != b.pending.value.0 && b.cards[i].id != b.pending.value.1 ==>
              r.cards[i] == b.cards[i]
    ensures r.flippedCards == [] && !r.isLocked && r.pending == None
  {
    Board(FlipDown(b.cards, b.pending.value.0, b.pending.value.1), [], false, None)
  }

  // ---------------------------------------------------------------------
  // Invariant and lemmas
  // ---------------------------------------------------------------------

  /**
   * What every reachable board satisfies: cards numbered by position, at
   * most two cards turned, the turned list is exactly the face-up
   * unmatched cards, matched cards stay face up, the board is locked
   * exactly while the timer is armed, and an unlocked board has at most
   * one card turned.
   */
  predicate Consistent(b: Board) {
    (forall i :: 0 <= i < |b.cards| ==> b.cards[i].id == i)
    && |b.flippedCards| <= 2
    && (forall k :: 0 <= k < |b.flippedCards| ==> b.flippedCards[k] < |b.cards|)
    && (|b.flippedCards| == 2 ==> b.flippedCards[0] != b.flippedCards[1])
    && (forall i :: 0 <= i < |b.cards| ==>
          (b.cards[i].isFlipped && !b.cards[i].isMatched <==> i in b.flippedCards))
    && (forall i :: 0 <= i < |b.cards| && b.cards[i].isMatched ==> b.cards[i].isFlipped)
    && (b.isLocked <==> b.pending.Some?)
    && (!b.isLocked ==> |b.flippedCards| <= 1)
    && (b.pending.Some? ==>
          b.flippedCards == [b.pending.value.1, b.pending.value.0]
          || (b.flippedCards == [] && forall i :: 0 <= i < |b.cards| ==> !b.cards[i].isFlipped))
  }

  lemma {:induction false} UnmatchedFlipUp(cards: seq<Card>, id: nat)
    ensures Unmatched(FlipUp(cards, id)) == Unmatched(cards)
  {
    if cards != [] {
      var k := |cards| - 1;
      assert FlipUp(cards, id)[..k] == FlipUp(cards[..k], id);
      UnmatchedFlipUp(cards[..k], id);
    }
  }

  /** Matching two distinct unmatched cards removes exactly two from the unmatched count. */
  lemma {:induction false} UnmatchedMarkMatched(cards: seq<Card>, a: nat, b: nat)
    requires forall i :: 0 <= i < |cards| ==> cards[i].id == i
    requires a != b
    ensures Unmatched(MarkMatched(cards, a, b))
            == Unmatched(cards)
               - (if a < |cards| && !cards[a].isMatched then 1 else 0)
               - (if b < |cards| && !cards[b].isMatched then 1 else 0)
  {
    if cards != [] {
      var k := |cards| - 1;
      assert MarkMatched(cards, a, b)[..k] == MarkMatched(cards[..k], a, b);
      UnmatchedMarkMatched(cards[..k], a, b);
    }
  }

  /** Every step keeps the board consistent. */
  lemma ClickKeepsConsistent(b: Board, id: nat)
    requires Consistent(b) && id < |b.cards|
    ensures Consistent(Click(b, id).0)
  {
  }

  lemma MismatchTimeoutKeepsConsistent(b: Board)
    requires Consistent(b) && b.pending.Some?
    ensures Consistent(MismatchTimeout(b))
  {
  }

  lemma InitializeKeepsConsistent(b: Board, swaps: seq<(nat, nat)>)
    requires Consistent(b) && SwapsIn(swaps, DeckSize)
    ensures Consistent(Initialize(b, swaps))
  {
  }

  /**
   * The completion reward is sent exactly on the click that matches the
   * last unmatched cards: it is sent iff cards were unmatched before the
   * click and none are after it.
   */
  lemma ClickRewardIffCompleted(b: Board, id: nat)
    requires Consistent(b) && id < |b.cards|
    ensures Click(b, id).1.Some? <==> Unmatched(b.cards) > 0 && Unmatched(Click(b, id).0.cards) == 0
  {
    if !Ignored(b, id) {
      UnmatchedFlipUp(b.cards, id);
      if |b.flippedCards| == 1 {
        var first := b.flippedCards[0];
        var up := FlipUp(b.cards, id);
        if b.cards[first].value == b.cards[id].value {
          UnmatchedMarkMatched(up, id, first);
        }
      }
    }
  }

  // ---------------------------------------------------------------------
  // The component
  // ---------------------------------------------------------------------

  /** The component's state in fields, updated by its handlers. */
  class MemoryGame {
    var cards: seq<Card>
    var flippedCards: seq<nat>
    var isLocked: bool
    var pendingMismatch: Option<(nat, nat)>

    ghost function Model(): Board
      reads this
    {
      Board(cards, flippedCards, isLocked, pendingMismatch)
    }

    ghost predicate Valid()
      reads this
    {
      Consistent(Model())
    }

    /** The state before the first `initializeGame`: no cards, nothing turned, unlocked. */
    constructor ()
      ensures Valid()
      ensures Model() == Board([], [], false, None)
    {
      cards, flippedCards, isLocked, pendingMismatch := [], [], false, None;
    }

    /** `initializeGame`, with the random sort given as its exchanges. */
    method InitializeGame(swaps: seq<(nat, nat)>)
      requires Valid() && SwapsIn(swaps, DeckSize)
      modifies this
      ensures Valid()
      ensures Model() == Initialize(old(Model()), swaps)
    {
      InitializeKeepsConsistent(Model(), swaps);
      var shuffled := Shuffle(GameSymbols + GameSymbols, swaps);
      cards := Deal(shuffled);
      flippedCards := [];
    }

    /** `handleCardClick`; `reward` is what `collectRewardMutation` sends, if anything. */
    method HandleCardClick(id: nat) returns (reward: Option<Reward>)
      requires Valid() && id < |cards|
      modifies this
      ensures Valid()
      ensures (Model(), reward) == Click(old(Model()), id)
    {
      ClickKeepsConsistent(Model(), id);
      reward := None;
      if isLocked { return; }
      if |flippedCards| == 2 { return; }
      if cards[id].isMatched { return; }
      if id in flippedCards { return; }

      var before, turned := cards, flippedCards;
      cards := FlipUp(cards, id);
      flippedCards := flippedCards + [id];
      if |turned| == 1 {
        isLocked := true;
        var firstCard := before[turned[0]];
        var secondCard := before[id];
        if firstCard.value == secondCard.value {
          cards := MarkMatched(cards, id, turned[0]);
          flippedCards := [];
          isLocked := false;
          if Unmatched(before) == 2 {
            reward := Some(Reward(CompletionCredits, CompletionGamecoins));
          }
        } else {
          pendingMismatch := Some((id, turned[0]));
        }
      }
    }

    /** The mismatch timer firing. */
    method ResolveMismatch()
      requires Valid() && pendingMismatch.Some?
      modifies this
      ensures Valid()
      ensures Model() == MismatchTimeout(old(Model()))
    {
      MismatchTimeoutKeepsConsistent(Model());
      var (second, first) := pendingMismatch.value;
      cards := FlipDown(cards, second, first);
      flippedCards := [];
      isLocked := false;
      pendingMismatch := None;
    }
  }
}
