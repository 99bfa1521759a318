/** The value types of the poker table: cards, hand categories, game phases
    and the record kept for each seated player. */
module PokerModels {

  /** Card ranks in the order of the deck-building array "2".."9","T","J","Q","K","A". */
  datatype Rank = Two | Three | Four | Five | Six | Seven | Eight | Nine | Ten | Jack | Queen | King | Ace

  /** Card suits in the order of the deck-building array "H","D","C","S". */
  datatype Suit = Hearts | Diamonds | Clubs | Spades

  datatype Card = Card(rank: Rank, suit: Suit)

  const Ranks: seq<Rank> := [Two, Three, Four, Five, Six, Seven, Eight, Nine, Ten, Jack, Queen, King, Ace]
  const Suits: seq<Suit> := [Hearts, Diamonds, Clubs, Spades]

  /** The symbol a rank is written with. */
  function RankSymbol(r: Rank): char {
    match r
    case Two => '2' case Three => '3' case Four => '4' case Five => '5'
    case Six => '6' case Seven => '7' case Eight => '8' case Nine => '9'
    case Ten => 'T' case Jack => 'J' case Queen => 'Q' case King => 'K' case Ace => 'A'
  }

  /** The symbol a suit is written with. */
  function SuitSymbol(s: Suit): char {
    match s
    case Hearts => 'H' case Diamonds => 'D' case Clubs => 'C' case Spades => 'S'
  }

  /** The numeric value of a card: A is 14, K 13, Q 12, J 11, T 10, and a
      digit rank is its own number. */
  function Value(c: Card): (v: int)
    ensures 2 <= v <= 14
    ensures (v == 14 <==> c.rank == Ace) && (v == 10 <==> c.rank == Ten)
  {
    match c.rank
    case Ace => 14 case King => 13 case Queen => 12 case Jack => 11 case Ten => 10
    case Two => 2 case Three => 3 case Four => 4 case Five => 5
    case Six => 6 case Seven => 7 case Eight => 8 case Nine => 9
  }

  /** Position of a rank in `Ranks`. */
  function RankIndex(r: Rank): (i: nat)
    ensures i < 13 && Ranks[i] == r
  {
    match r
    case Two => 0 case Three => 1 case Four => 2 case Five => 3 case Six => 4
    case Seven => 5 case Eight => 6 case Nine => 7 case Ten => 8 case Jack => 9
    case Queen => 10 case King => 11 case Ace => 12
  }

  /** Position of a suit in `Suits`. */
  function SuitIndex(s: Suit): (i: nat)
    ensures i < 4 && Suits[i] == s
  {
    match s
    case Hearts => 0 case Diamonds => 1 case Clubs => 2 case Spades => 3
  }

  /** The thirteen ranks have thirteen distinct values: value and rank
      determine each other, and the value is the rank's position plus two. */
  lemma ValueMatchesRankOrder(c: Card)
    ensures Value(c) == RankIndex(c.rank) + 2
  {
  }

  /** Rank symbol followed by suit symbol, e.g. "TH". */
  function CardToString(c: Card): (s: string)
    ensures |s| == 2
    ensures s[0] == RankSymbol(c.rank) && s[1] == SuitSymbol(c.suit)
  {
    [RankSymbol(c.rank), SuitSymbol(c.suit)]
  }

  /** Distinct cards print differently. */
  lemma CardToStringInjective(a: Card, b: Card)
    requires CardToString(a) == CardToString(b)
    ensures a == b
  {
    assert RankSymbol(a.rank) == CardToString(a)[0] && SuitSymbol(a.suit) == CardToString(a)[1];
  }

  /** Hand categories, HighCard = 1 up to RoyalFlush = 10. */
  datatype HandRank = HighCard | OnePair | TwoPair | ThreeOfKind | Straight | Flush
                    | FullHouse | FourOfKind | StraightFlush | RoyalFlush

  /** The enumeration's numeric value. */
  function HandRankValue(h: HandRank): (n: int)
    ensures 1 <= n <= 10
  {
    match h
    case HighCard => 1 case OnePair => 2 case TwoPair => 3 case ThreeOfKind => 4
    case Straight => 5 case Flush => 6 case FullHouse => 7 case FourOfKind => 8
    case StraightFlush => 9 case RoyalFlush => 10
  }

  /** Every category has its own number, so the categories are strictly ordered. */
  lemma HandRankStrictlyOrdered(a: HandRank, b: HandRank)
    ensures HandRankValue(a) == HandRankValue(b) <==> a == b
  {
  }

  datatype GamePhase = Waiting | PreFlop | Flop | Turn | River | Showdown

  /** The enumeration's numeric value, Waiting = 0 up to Showdown = 5. */
  function PhaseValue(p: GamePhase): (n: nat)
    ensures n <= 5
  {
    match p
    case Waiting => 0 case PreFlop => 1 case Flop => 2 case Turn => 3 case River => 4 case Showdown => 5
  }

  /** A betting street in which cards are still being dealt. */
  predicate InHand(p: GamePhase) {
    p == PreFlop || p == Flop || p == Turn || p == River
  }

  /** A seated poker player (`PokerPlayer`). */
  datatype Seat = Seat(
    connection: string,
    name: string,
    playerId: string,
    balance: int,
    hand: seq<Card>,
    bet: int,
    folded: bool,
    allIn: bool,
    seatPosition: int,
    active: bool)

  /** A seat as created on first join: present, no cards, nothing bet. */
  function NewSeat(connection: string, name: string, playerId: string, balance: int, position: int): (s: Seat)
    ensures s.active && s.hand == [] && s.bet == 0 && !s.folded && !s.allIn
    ensures s.connection == connection && s.name == name && s.playerId == playerId
    ensures s.balance == balance && s.seatPosition == position
  {
    Seat(connection, name, playerId, balance, [], 0, false, false, position, true)
  }
}
