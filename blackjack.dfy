/** Single-player blackjack: one game object holds a deck of card strings
    (rank followed by a suit symbol), the player's and the dealer's hands,
    the player's balance, the current bet and whether the round is over.
    The random sort keys a shuffle draws are an input. */
module Blackjack {
  import opened Numerals
  import opened Ordering

  /** A C# `int`. */
  type Int32 = x: int | MinInt32 <= x <= MaxInt32

  /** C#'s unchecked 32-bit arithmetic: `x` wrapped into the range of `int`. */
  function I32(x: int): (r: Int32)
    ensures MinInt32 <= x <= MaxInt32 ==> r == x
  {
    (x - MinInt32) % 0x1_0000_0000 + MinInt32
  }

  /** Wrapping an intermediate result does not change the wrapped sum. */
  lemma WrapAdd(x: int, y: int)
    ensures I32(I32(x) + y) == I32(x + y)
  {
    var q := (x - MinInt32) / 0x1_0000_0000;
    assert I32(x) + y - MinInt32 == (x + y - MinInt32) - 0x1_0000_0000 * q;
    ModShift(x + y - MinInt32, q);
  }

  /** Taking away a multiple of 2^32 leaves the remainder unchanged. */
  lemma ModShift(a: int, q: int)
    ensures (a - 0x1_0000_0000 * q) % 0x1_0000_0000 == a % 0x1_0000_0000
  {
    var r := a % 0x1_0000_0000;
    assert a == 0x1_0000_0000 * (a / 0x1_0000_0000) + r;
    assert a - 0x1_0000_0000 * q == 0x1_0000_0000 * (a / 0x1_0000_0000 - q) + r;
  }

  /** Balance of a new game. */
  const StartingBalance: Int32 := 5000

  const Suits: seq<char> := ['\U{2660}', '\U{2665}', '\U{2666}', '\U{2663}']
  const Ranks: seq<string> := ["2", "3", "4", "5", "6", "7", "8", "9", "10", "J", "Q", "K", "A"]

  /** Points of each rank; an ace counts 11 until the hand would bust. */
  const CardValues: map<string, int> :=
    map["2" := 2, "3" := 3, "4" := 4, "5" := 5, "6" := 6, "7" := 7, "8" := 8, "9" := 9,
        "10" := 10, "J" := 10, "Q" := 10, "K" := 10, "A" := 11]

  // ---------------------------------------------------------------------
  // Cards and the deck

  /** A card string: one of the 52 strings of the unshuffled deck, found
      at the position its rank and suit give. */
  predicate IsCard(c: string) {
    c == FreshDeck()[CardIndex(c)]
  }

  /** The deck before shuffling: for each suit every rank from 2 to A. */
  function FreshDeck(): (d: seq<string>)
    ensures |d| == 52
  {
    seq(52, i requires 0 <= i < 52 => Ranks[i % 13] + [Suits[i / 13]])
  }

  /** Card `13 * si + ri` of the unshuffled deck is rank `ri` of suit `si`. */
  lemma FreshDeckAt(si: nat, ri: nat)
    requires si < 4 && ri < 13
    ensures FreshDeck()[13 * si + ri] == Ranks[ri] + [Suits[si]]
  {
    var i := 13 * si + ri;
    assert i / 13 == si && i % 13 == ri;
  }

  /** Position of a rank in `Ranks`, told by its first character. */
  function RankPos(r: string): (k: nat)
    ensures k < 13
  {
    if r == [] then 0
    else match r[0]
      case '2' => 0 case '3' => 1 case '4' => 2 case '5' => 3 case '6' => 4
      case '7' => 5 case '8' => 6 case '9' => 7 case '1' => 8 case 'J' => 9
      case 'Q' => 10 case 'K' => 11 case 'A' => 12 case _ => 0
  }

  function SuitPos(s: char): (k: nat)
    ensures k < 4
  {
    if s == Suits[0] then 0 else if s == Suits[1] then 1 else if s == Suits[2] then 2 else 3
  }

  /** Position of a card in the unshuffled deck. */
  function CardIndex(c: string): (i: nat)
    ensures i < 52
  {
    if c == [] then 0 else SuitPos(c[|c| - 1]) * 13 + RankPos(c[..|c| - 1])
  }

  lemma RankPositions()
    ensures forall k | 0 <= k < 13 :: RankPos(Ranks[k]) == k
  {
    forall k | 0 <= k < 13 ensures RankPos(Ranks[k]) == k {
      assert Ranks[k][0] == ['2', '3', '4', '5', '6', '7', '8', '9', '1', 'J', 'Q', 'K', 'A'][k];
    }
  }

  /** Every card of the unshuffled deck sits at its own index, so the 52
      strings are pairwise distinct. */
  lemma FreshDeckDistinct()
    ensures forall i, j | 0 <= i < j < 52 :: FreshDeck()[i] != FreshDeck()[j]
  {
    RankPositions();
    var d := FreshDeck();
    forall i | 0 <= i < 52 ensures CardIndex(d[i]) == i {
      var c := d[i];
      assert c[..|c| - 1] == Ranks[i % 13];
      assert Suits[i / 13] == Suits[SuitPos(Suits[i / 13])];
    }
    forall i, j | 0 <= i < j < 52 ensures d[i] != d[j] {
      assert CardIndex(d[i]) != CardIndex(d[j]);
    }
  }

  /** Every card of the unshuffled deck is a rank followed by a suit. */
  lemma FreshDeckCards()
    ensures forall c | c in FreshDeck() :: IsCard(c)
  {
    var d := FreshDeck();
    FreshDeckIndex();
    forall c | c in d ensures IsCard(c) {
      var i :| 0 <= i < 52 && d[i] == c;
    }
  }

  /** A deck paired with the random keys `OrderBy(c => rng.Next())` draws
      for it, one per card in deck order. */
  function WithKeys(deck: seq<string>, keys: seq<int>): (r: seq<(string, int)>)
    ensures |r| == |deck|
  {
    seq(|deck|, i requires 0 <= i < |deck| => (deck[i], if i < |keys| then keys[i] else 0))
  }

  /** The cards of a keyed deck, keys dropped. */
  function Cards(ps: seq<(string, int)>): (r: seq<string>)
    ensures |r| == |ps|
    ensures forall i | 0 <= i < |ps| :: r[i] == ps[i].0
  {
    seq(|ps|, i requires 0 <= i < |ps| => ps[i].0)
  }

  /** The key of a keyed card, largest first when negated. */
  function KeyOrder(p: (string, int)): int {
    -p.1
  }

  /** The unshuffled deck ordered by one random key per card, ascending;
      cards with equal keys keep their order (LINQ's sort is stable). */
  function Shuffled(keys: seq<int>): seq<string> {
    Cards(SortDesc(WithKeys(FreshDeck(), keys), KeyOrder))
  }

  /** The random key the shuffle draws for a card: the one drawn when
      `OrderBy` reaches the card's position in the unshuffled deck. */
  function ShuffleKey(keys: seq<int>, c: string): int {
    if CardIndex(c) < |keys| then keys[CardIndex(c)] else 0
  }

  /** The cards of `deck` come in ascending order of their random keys. */
  ghost predicate OrderedByKeys(deck: seq<string>, keys: seq<int>) {
    forall i, j | 0 <= i < j < |deck| :: ShuffleKey(keys, deck[i]) <= ShuffleKey(keys, deck[j])
  }

  /** Every card of the unshuffled deck sits at its own index. */
  lemma FreshDeckIndex()
    ensures forall i | 0 <= i < 52 :: CardIndex(FreshDeck()[i]) == i
  {
    RankPositions();
    var d := FreshDeck();
    forall i | 0 <= i < 52 ensures CardIndex(d[i]) == i {
      var c := d[i];
      assert c[..|c| - 1] == Ranks[i % 13];
      assert Suits[i / 13] == Suits[SuitPos(Suits[i / 13])];
    }
  }

  /** A keyed card of the shuffle is a card of the unshuffled deck carrying
      that card's key. */
  lemma KeyedCard(keys: seq<int>, p: (string, int))
    requires p in multiset(WithKeys(FreshDeck(), keys))
    ensures IsCard(p.0) && p.1 == ShuffleKey(keys, p.0)
  {
    var ps := WithKeys(FreshDeck(), keys);
    assert p in ps;
    var a :| 0 <= a < 52 && ps[a] == p;
    FreshDeckIndex();
    FreshDeckCards();
    assert p.0 == FreshDeck()[a];
  }

  /** The keyed unshuffled deck holds each keyed card once. */
  lemma KeyedOnce(keys: seq<int>, p: (string, int))
    ensures multiset(WithKeys(FreshDeck(), keys))[p] <= 1
  {
    var ps := WithKeys(FreshDeck(), keys);
    FreshDeckDistinct();
    assert forall i, j | 0 <= i < j < |ps| :: ps[i] != ps[j] by {
      forall i, j | 0 <= i < j < |ps| ensures ps[i] != ps[j] {
        assert ps[i].0 == FreshDeck()[i] && ps[j].0 == FreshDeck()[j];
      }
    }
    DistinctOccursOnce(ps, p);
  }

  /** A shuffled deck holds 52 pairwise distinct card strings, all from the
      unshuffled deck, in ascending order of their random keys. */
  lemma ShuffledDeck(keys: seq<int>)
    ensures |Shuffled(keys)| == 52
    ensures forall i, j | 0 <= i < j < 52 :: Shuffled(keys)[i] != Shuffled(keys)[j]
    ensures forall c | c in Shuffled(keys) :: IsCard(c)
    ensures OrderedByKeys(Shuffled(keys), keys)
  {
    var d := Shuffled(keys);
    forall i, j | 0 <= i < j < 52 ensures d[i] != d[j] {
      ShuffledDistinct(keys, i, j);
    }
    forall c | c in d ensures IsCard(c) {
      var i :| 0 <= i < 52 && d[i] == c;
      ShuffledCard(keys, i);
    }
    forall i, j | 0 <= i < j < 52 ensures ShuffleKey(keys, d[i]) <= ShuffleKey(keys, d[j]) {
      ShuffledCard(keys, i);
      ShuffledCard(keys, j);
    }
  }

  /** Card `i` of the shuffle is a card string, and it is the `i`-th
      keyed card after sorting. */
  lemma ShuffledCard(keys: seq<int>, i: nat)
    requires i < 52
    ensures var r := SortDesc(WithKeys(FreshDeck(), keys), KeyOrder);
      && |r| == 52 && Shuffled(keys)[i] == r[i].0
      && IsCard(r[i].0) && r[i].1 == ShuffleKey(keys, r[i].0)
  {
    var r := SortDesc(WithKeys(FreshDeck(), keys), KeyOrder);
    assert r[i] in multiset(r);
    KeyedCard(keys, r[i]);
  }

  /** Two positions of the shuffle hold different cards. */
  lemma ShuffledDistinct(keys: seq<int>, i: nat, j: nat)
    requires i < j < 52
    ensures Shuffled(keys)[i] != Shuffled(keys)[j]
  {
    var r := SortDesc(WithKeys(FreshDeck(), keys), KeyOrder);
    ShuffledCard(keys, i);
    ShuffledCard(keys, j);
    KeyedOnce(keys, r[i]);
    OnceMeansDistinct(r, i, j);
  }

  /** Two positions holding the same element make it occur twice. */
  lemma OnceMeansDistinct<T>(s: seq<T>, i: nat, j: nat)
    requires i < j < |s| && multiset(s)[s[i]] <= 1
    ensures s[i] != s[j]
  {
    assert s == s[..j] + s[j..];
    assert s[i] in s[..j] && s[j] in s[j..];
    assert multiset(s) == multiset(s[..j]) + multiset(s[j..]);
  }

  /** One draw: the front card and the rest of the deck, an empty deck
      being replaced by a fresh shuffle first. */
  function Draw(deck: seq<string>, keys: seq<int>): (r: (string, seq<string>))
    ensures deck != [] ==> r == (deck[0], deck[1..])
  {
    if deck != [] then (deck[0], deck[1..])
    else
      ShuffledDeck(keys);
      (Shuffled(keys)[0], Shuffled(keys)[1..])
  }

  /** Drawing from a deck of card strings yields a card string and leaves
      a deck of card strings, one card shorter unless it was refilled. */
  lemma DrawIsCard(deck: seq<string>, keys: seq<int>)
    requires forall c | c in deck :: IsCard(c)
    ensures IsCard(Draw(deck, keys).0)
    ensures forall c | c in Draw(deck, keys).1 :: IsCard(c)
    ensures |Draw(deck, keys).1| == if deck == [] then 51 else |deck| - 1
  {
    ShuffledDeck(keys);
    if deck == [] {
      assert Shuffled(keys)[0] in Shuffled(keys);
      forall c | c in Shuffled(keys)[1..] ensures IsCard(c) {
        assert c in Shuffled(keys);
      }
    } else {
      assert deck[0] in deck;
      forall c | c in deck[1..] ensures IsCard(c) {
        assert c in deck;
      }
    }
  }

  // ---------------------------------------------------------------------
  // Scoring

  /** The rank part of a card string: everything but the last character. */
  function RankOf(card: string): string
    requires card != []
  {
    card[..|card| - 1]
  }

  /** What a card adds before aces are softened: its rank's value, or
      nothing for an empty string or an unknown rank. */
  function Points(card: string): (p: int)
    ensures p >= 0
  {
    if card == [] || RankOf(card) !in CardValues then 0 else CardValues[RankOf(card)]
  }

  predicate IsAce(card: string) {
    card != [] && RankOf(card) in CardValues && RankOf(card) == "A"
  }

  /** The sum of the cards' points, aces counted 11. */
  function Total(hand: seq<string>): int {
    if hand == [] then 0 else Total(hand[..|hand| - 1]) + Points(hand[|hand| - 1])
  }

  /** The number of aces in a hand. */
  function Aces(hand: seq<string>): (n: nat)
    ensures n <= |hand|
  {
    if hand == [] then 0 else Aces(hand[..|hand| - 1]) + (if IsAce(hand[|hand| - 1]) then 1 else 0)
  }

  /** A total with `aces` aces that may still drop from 11 to 1: one
      ace at a time while the total is over 21. */
  function Soften(total: int, aces: nat): int {
    if total > 21 && aces > 0 then Soften(total - 10, aces - 1) else total
  }

  /** The blackjack score of a hand. */
  function Score(hand: seq<string>): int {
    Soften(Total(hand), Aces(hand))
  }

  /** The total with every ace counted 1. */
  function HardTotal(hand: seq<string>): int {
    Total(hand) - 10 * Aces(hand)
  }

  /** Each ace adds 11 points, so the hard total is never negative. */
  lemma {:induction false} AcesInTotal(hand: seq<string>)
    ensures Total(hand) >= 11 * Aces(hand)
    ensures HardTotal(hand) >= 0
  {
    if hand != [] {
      AcesInTotal(hand[..|hand| - 1]);
    }
  }

  /** Softening drops the total by ten per ace it turns, at most one turn
      per ace, stops at or below 21 unless every ace has turned, and turns
      no ace it does not need to: no smaller count of turned aces already
      gives 21 or less. */
  lemma {:induction false} SoftenIsBest(total: int, aces: nat)
    ensures exists k | 0 <= k <= aces :: Soften(total, aces) == total - 10 * k
    ensures total - 10 * aces <= Soften(total, aces) <= total
    ensures Soften(total, aces) <= 21 || Soften(total, aces) == total - 10 * aces
    ensures forall j | 0 <= j <= aces && total - 10 * j <= 21 :: total - 10 * j <= Soften(total, aces)
  {
    if total > 21 && aces > 0 {
      SoftenIsBest(total - 10, aces - 1);
      var k :| 0 <= k <= aces - 1 && Soften(total - 10, aces - 1) == total - 10 - 10 * k;
      assert Soften(total, aces) == total - 10 * (k + 1);
      forall j | 0 <= j <= aces && total - 10 * j <= 21 ensures total - 10 * j <= Soften(total, aces) {
        assert j >= 1;
        assert total - 10 - 10 * (j - 1) <= 21;
      }
    } else {
      assert Soften(total, aces) == total - 10 * 0;
    }
  }

  /** The score of a hand is its best total: the largest total at most 21
      that some choice of aces as 1 or 11 gives, or every ace counted 1
      when no choice stays at 21 or less; never below the hard total. */
  lemma ScoreIsBest(hand: seq<string>)
    ensures HardTotal(hand) <= Score(hand) <= Total(hand)
    ensures Score(hand) <= 21 || Score(hand) == HardTotal(hand)
    ensures exists k | 0 <= k <= Aces(hand) :: Score(hand) == Total(hand) - 10 * k
    ensures forall j | 0 <= j <= Aces(hand) && Total(hand) - 10 * j <= 21 :: Total(hand) - 10 * j <= Score(hand)
  {
    SoftenIsBest(Total(hand), Aces(hand));
  }

  /** The card values: a card of the deck adds at least one point to the
      hard total. */
  lemma CardCounts(c: string)
    requires IsCard(c)
    ensures HardPoints(c) >= 1
  {
    var i := CardIndex(c);
    assert RankOf(c) == Ranks[i % 13];
    RankValue(i % 13);
  }

  /** Each rank has a value: 2 to 10 for the numbers, 10 for the faces and
      11 for the ace, the only rank spelled "A". */
  lemma RankValue(k: nat)
    requires k < 13
    ensures Ranks[k] in CardValues
    ensures Ranks[k] == "A" <==> k == 12
    ensures k < 12 ==> 2 <= CardValues[Ranks[k]] <= 10
    ensures k == 12 ==> CardValues[Ranks[k]] == 11
  {
    if k < 12 {
      assert Ranks[k][0] != 'A';
    }
  }

  /** What a card adds to the hard total: its points, an ace counted 1. */
  function HardPoints(c: string): int {
    Points(c) - (if IsAce(c) then 10 else 0)
  }

  /** Adding a card adds its hard points to the hard total. */
  lemma HardTotalAppend(hand: seq<string>, c: string)
    ensures HardTotal(hand + [c]) == HardTotal(hand) + HardPoints(c)
  {
    assert (hand + [c])[..|hand|] == hand;
  }

  /** The dealer's hand and the deck once the dealer has drawn, one card
      at a time, while the hand scores below 17. Each card of the deck adds
      at least one point to the hard total, which never exceeds the score,
      so the dealer stops. */
  function DealerDrawn(hand: seq<string>, deck: seq<string>, keys: seq<int>): (r: (seq<string>, seq<string>))
    requires forall c | c in deck :: IsCard(c)
    ensures forall c | c in r.1 :: IsCard(c)
    decreases 17 - HardTotal(hand)
  {
    if Score(hand) >= 17 then (hand, deck)
    else
      var (card, rest) := Draw(deck, keys);
      DrawIsCard(deck, keys);
      CardCounts(card);
      HardTotalAppend(hand, card);
      ScoreIsBest(hand);
      DealerDrawn(hand + [card], rest, keys)
  }

  /** The dealer ends on 17 or more, keeps the cards held before, and drew
      each further card only while the hand scored below 17. */
  lemma {:induction false} DealerStops(hand: seq<string>, deck: seq<string>, keys: seq<int>)
    requires forall c | c in deck :: IsCard(c)
    ensures var r := DealerDrawn(hand, deck, keys).0;
      && Score(r) >= 17 && hand <= r
      && forall k | |hand| <= k < |r| :: Score(r[..k]) < 17
    decreases 17 - HardTotal(hand)
  {
    if Score(hand) < 17 {
      var (card, rest) := Draw(deck, keys);
      DrawIsCard(deck, keys);
      CardCounts(card);
      HardTotalAppend(hand, card);
      ScoreIsBest(hand);
      DealerStops(hand + [card], rest, keys);
      var r := DealerDrawn(hand, deck, keys).0;
      assert r == DealerDrawn(hand + [card], rest, keys).0;
      forall k | |hand| <= k < |r| ensures Score(r[..k]) < 17 {
        if k == |hand| {
          assert r[..k] == hand;
        }
      }
    }
  }

  // ---------------------------------------------------------------------
  // Settling a round

  datatype Outcome = PlayerBust | DealerBust | PlayerWins | DealerWins | Push

  /** How a round ends, decided in this order: the player busting loses
      even when the dealer busts too. */
  function Judge(playerScore: int, dealerScore: int): (o: Outcome)
    ensures o == PlayerBust <==> playerScore > 21
    ensures o == DealerBust <==> playerScore <= 21 && dealerScore > 21
    ensures o == PlayerWins <==> playerScore <= 21 && dealerScore <= 21 && playerScore > dealerScore
    ensures o == DealerWins <==> playerScore <= 21 && dealerScore <= 21 && playerScore < dealerScore
    ensures o == Push <==> playerScore <= 21 && dealerScore <= 21 && playerScore == dealerScore
  {
    if playerScore > 21 then PlayerBust
    else if dealerScore > 21 then DealerBust
    else if playerScore > dealerScore then PlayerWins
    else if playerScore < dealerScore then DealerWins
    else Push
  }

  function Message(o: Outcome): string {
    match o
    case PlayerBust => "Bust! You lose."
    case DealerBust => "Dealer busts! You win!"
    case PlayerWins => "You win!"
    case DealerWins => "You lose."
    case Push => "Push. It's a tie."
  }

  /** What the settlement hands back, the bet having been taken when the
      round started: twice the bet on a win, the bet on a push. */
  function Returned(o: Outcome, bet: int): int {
    match o
    case DealerBust | PlayerWins => 2 * bet
    case Push => bet
    case PlayerBust | DealerWins => 0
  }

  /** The player's gain over a whole round: the bet on a win, nothing on a
      push, minus the bet on a loss. */
  function Net(o: Outcome, bet: int): int {
    match o
    case DealerBust | PlayerWins => bet
    case Push => 0
    case PlayerBust | DealerWins => -bet
  }

  /** Taking the bet at the start and settling at the end change the
      balance by the net gain, in 32-bit arithmetic; exactly so when the
      result fits an `int`. */
  lemma RoundNetChange(balance: Int32, bet: Int32, o: Outcome)
    ensures I32(I32(balance - bet) + I32(Returned(o, bet))) == I32(balance + Net(o, bet))
    ensures MinInt32 <= balance + Net(o, bet) <= MaxInt32 ==>
              I32(I32(balance - bet) + I32(Returned(o, bet))) == balance + Net(o, bet)
  {
    var taken := balance - bet;
    var back := Returned(o, bet);
    WrapAdd(taken, I32(back));
    assert taken + I32(back) == I32(back) + taken;
    WrapAdd(back, taken);
    assert back + taken == balance + Net(o, bet);
  }

  class BlackjackGame {
    var deck: seq<string>
    var playerHand: seq<string>
    var dealerHand: seq<string>
    var playerBalance: Int32
    var currentBet: Int32
    var isGameOver: bool

    /** The deck holds only card strings. */
    ghost predicate Valid()
      reads this
    {
      forall c | c in deck :: IsCard(c)
    }

    /** A new game: balance 5000, no bet, a shuffled deck, empty hands.
        The bet is the default 0 of an `int` property. */
    constructor (keys: seq<int>)
      ensures Valid()
      ensures playerBalance == StartingBalance && currentBet == 0 && deck == Shuffled(keys)
      ensures playerHand == [] && dealerHand == [] && !isGameOver
    {
      playerBalance := StartingBalance;
      currentBet := 0;
      new;
      ResetDeck(keys);
      playerHand := [];
      dealerHand := [];
      isGameOver := false;
    }

    /** Builds the deck suit by suit and rank by rank, then orders it by
        one random key per card. */
    method ResetDeck(keys: seq<int>)
      modifies this`deck
      ensures deck == Shuffled(keys) && Valid()
    {
      var built := BuildDeck();
      deck := Cards(SortDesc(WithKeys(built, keys), KeyOrder));
      ShuffledDeck(keys);
    }

    /** The unshuffled deck, built by one loop over the suits around one
        loop over the ranks. */
    static method BuildDeck() returns (built: seq<string>)
      ensures built == FreshDeck()
    {
      built := [];
      for si := 0 to 4
        invariant built == FreshDeck()[..13 * si]
      {
        for ri := 0 to 13
          invariant built == FreshDeck()[..13 * si + ri]
        {
          FreshDeckAt(si, ri);
          assert FreshDeck()[..13 * si + ri + 1] == FreshDeck()[..13 * si + ri] + [Ranks[ri] + [Suits[si]]];
          built := built + [Ranks[ri] + [Suits[si]]];
        }
      }
    }

    /** Takes the front card, refilling an empty deck with a fresh
        shuffle first, so a draw always yields a card. */
    method DrawCard(keys: seq<int>) returns (card: string)
      requires Valid()
      modifies this`deck
      ensures Valid() && IsCard(card)
      ensures (card, deck) == Draw(old(deck), keys)
    {
      DrawIsCard(deck, keys);
      if |deck| == 0 {
        ResetDeck(keys);
      }
      card := deck[0];
      deck := deck[1..];
    }

    /** The score of any hand: points summed with aces as 11, then one ace
        at a time counted 1 while the total is over 21. */
    method CalculateScore(hand: seq<string>) returns (score: int)
      ensures score == Score(hand)
    {
      score := 0;
      var aceCount := 0;
      for i := 0 to |hand|
        invariant score == Total(hand[..i]) && aceCount == Aces(hand[..i])
      {
        assert hand[..i + 1][..i] == hand[..i];
        var card := hand[i];
        if card != [] {
          var rank := card[..|card| - 1];
          if rank in CardValues {
            score := score + CardValues[rank];
            if rank == "A" {
              aceCount := aceCount + 1;
            }
          }
        }
      }
      assert hand[..|hand|] == hand;
      while score > 21 && aceCount > 0
        invariant Soften(score, aceCount) == Score(hand)
      {
        score := score - 10;
        aceCount := aceCount - 1;
      }
    }

    /** A new round: the bet leaves the balance (in 32-bit arithmetic),
        the hands are emptied, the deck is shuffled afresh and two cards go
        to the player, then two to the dealer. */
    method StartNewRound(betAmount: Int32, keys: seq<int>)
      modifies this
      ensures Valid()
      ensures playerBalance == I32(old(playerBalance) - betAmount) && currentBet == betAmount && !isGameOver
      ensures |Shuffled(keys)| == 52
      ensures playerHand == Shuffled(keys)[..2] && dealerHand == Shuffled(keys)[2..4]
      ensures deck == Shuffled(keys)[4..]
    {
      playerBalance := I32(playerBalance - betAmount);
      currentBet := betAmount;
      isGameOver := false;
      ClearHands();
      ResetDeck(keys);
      DealOpening(keys);
    }

    /** Empties both hands. */
    method ClearHands()
      modifies this`playerHand, this`dealerHand
      ensures playerHand == [] && dealerHand == []
    {
      playerHand := [];
      dealerHand := [];
    }

    /** Two cards to the player, then two to the dealer, from a full deck. */
    method DealOpening(keys: seq<int>)
      requires deck == Shuffled(keys) && playerHand == [] && dealerHand == []
      modifies this`deck, this`playerHand, this`dealerHand
      ensures Valid()
      ensures |Shuffled(keys)| == 52
      ensures playerHand == Shuffled(keys)[..2] && dealerHand == Shuffled(keys)[2..4]
      ensures deck == Shuffled(keys)[4..]
    {
      ShuffledDeck(keys);
      ghost var s := Shuffled(keys);
      var p1 := DrawCard(keys);
      assert p1 == s[0] && deck == s[1..];
      var p2 := DrawCard(keys);
      assert p2 == s[1] && deck == s[2..];
      var d1 := DrawCard(keys);
      assert d1 == s[2] && deck == s[3..];
      var d2 := DrawCard(keys);
      assert d2 == s[3] && deck == s[4..];
      playerHand := [p1, p2];
      dealerHand := [d1, d2];
    }

    /** The player takes a card; going over 21 ends the round. */
    method PlayerHit(keys: seq<int>)
      requires Valid()
      modifies this`deck, this`playerHand, this`isGameOver
      ensures Valid()
      ensures playerHand == old(playerHand) + [Draw(old(deck), keys).0]
      ensures deck == Draw(old(deck), keys).1
      ensures isGameOver == (old(isGameOver) || Score(playerHand) > 21)
    {
      var c := DrawCard(keys);
      playerHand := playerHand + [c];
      var score := CalculateScore(playerHand);
      if score > 21 {
        isGameOver := true;
      }
    }

    /** The dealer draws while the dealer's score is below 17, then the
        round is over. */
    method DealerPlay(keys: seq<int>)
      requires Valid()
      modifies this`deck, this`dealerHand, this`isGameOver
      ensures Valid() && isGameOver
      ensures (dealerHand, deck) == DealerDrawn(old(dealerHand), old(deck), keys)
    {
      DealerDraws(keys);
      isGameOver := true;
    }

    /** The drawing loop of `DealerPlay`. */
    method DealerDraws(keys: seq<int>)
      requires Valid()
      modifies this`deck, this`dealerHand
      ensures Valid()
      ensures (dealerHand, deck) == DealerDrawn(old(dealerHand), old(deck), keys)
    {
      var score := CalculateScore(dealerHand);
      while score < 17
        invariant Valid() && score == Score(dealerHand)
        invariant DealerDrawn(dealerHand, deck, keys) == DealerDrawn(old(dealerHand), old(deck), keys)
        decreases 17 - HardTotal(dealerHand)
      {
        ScoreIsBest(dealerHand);
        var card := DrawCard(keys);
        CardCounts(card);
        HardTotalAppend(dealerHand, card);
        dealerHand := dealerHand + [card];
        score := CalculateScore(dealerHand);
      }
    }

    /** Settles the round on the two scores: a win returns twice the bet,
        a push the bet, a loss nothing (all in 32-bit arithmetic); the
        message says which. */
    method GetResult() returns (message: string)
      modifies this`playerBalance
      ensures message == Message(Judge(Score(playerHand), Score(dealerHand)))
      ensures playerBalance == I32(old(playerBalance) + Returned(Judge(Score(playerHand), Score(dealerHand)), currentBet))
    {
      var playerScore := CalculateScore(playerHand);
      var dealerScore := CalculateScore(dealerHand);
      if playerScore > 21 {
        message := "Bust! You lose.";
      } else if dealerScore > 21 {
        WrapAdd(currentBet * 2, playerBalance);
        playerBalance := I32(playerBalance + I32(currentBet * 2));
        message := "Dealer busts! You win!";
      } else if playerScore > dealerScore {
        WrapAdd(currentBet * 2, playerBalance);
        playerBalance := I32(playerBalance + I32(currentBet * 2));
        message := "You win!";
      } else if playerScore < dealerScore {
        message := "You lose.";
      } else {
        playerBalance := I32(playerBalance + currentBet);
        message := "Push. It's a tie.";
      }
    }
  }
}
