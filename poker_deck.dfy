/** The 52-card poker deck: built suit by suit, rank by rank, then put in
    the order of one random sort key per card. */
module PokerDeck {
  import opened PokerModels
  import opened Ordering

  /** The thirteen cards of one suit, in rank order. */
  function SuitRow(s: Suit): (r: seq<Card>)
    ensures |r| == 13
    ensures forall i | 0 <= i < 13 :: r[i] == Card(Ranks[i], s)
  {
    seq(13, i requires 0 <= i < 13 => Card(Ranks[i], s))
  }

  /** The rows of the first `k` suits of `Suits`. */
  function Rows(k: nat): (r: seq<Card>)
    requires k <= 4
    ensures |r| == 13 * k
  {
    if k == 0 then [] else Rows(k - 1) + SuitRow(Suits[k - 1])
  }

  /** The deck before shuffling: for each suit H, D, C, S every rank 2..A. */
  function FullDeck(): (d: seq<Card>)
    ensures |d| == 52
  {
    Rows(4)
  }

  /** The position of a card in the unshuffled deck. */
  function CardIndex(c: Card): (i: nat)
    ensures i < 52
  {
    SuitIndex(c.suit) * 13 + RankIndex(c.rank)
  }

  lemma RanksDistinct()
    ensures forall i | 0 <= i < 13 :: RankIndex(Ranks[i]) == i
  {
    forall i | 0 <= i < 13 ensures RankIndex(Ranks[i]) == i {
      assert Ranks[0] == Two && Ranks[1] == Three && Ranks[2] == Four && Ranks[3] == Five
          && Ranks[4] == Six && Ranks[5] == Seven && Ranks[6] == Eight && Ranks[7] == Nine
          && Ranks[8] == Ten && Ranks[9] == Jack && Ranks[10] == Queen && Ranks[11] == King
          && Ranks[12] == Ace;
    }
  }

  /** Card `i` of the unshuffled deck has index `i`, and every card sits at
      its own index: the deck lists each of the 52 cards once. */
  lemma {:induction false} FullDeckIndex()
    ensures forall i | 0 <= i < 52 :: CardIndex(FullDeck()[i]) == i
    ensures forall c: Card :: FullDeck()[CardIndex(c)] == c
  {
    RanksDistinct();
    var d := FullDeck();
    assert d == SuitRow(Hearts) + SuitRow(Diamonds) + SuitRow(Clubs) + SuitRow(Spades);
    forall i | 0 <= i < 52 ensures CardIndex(d[i]) == i {
      if i < 13 { assert d[i] == SuitRow(Hearts)[i]; }
      else if i < 26 { assert d[i] == SuitRow(Diamonds)[i - 13]; }
      else if i < 39 { assert d[i] == SuitRow(Clubs)[i - 26]; }
      else { assert d[i] == SuitRow(Spades)[i - 39]; }
    }
  }

  /** Every card occurs exactly once in the unshuffled deck. */
  lemma FullDeckOnce(c: Card)
    ensures multiset(FullDeck())[c] == 1
  {
    FullDeckIndex();
    var d := FullDeck();
    assert forall i, j | 0 <= i < j < |d| :: d[i] != d[j] by {
      forall i, j | 0 <= i < j < |d| ensures d[i] != d[j] {
        assert CardIndex(d[i]) == i && CardIndex(d[j]) == j;
      }
    }
    DistinctOccursOnce(d, c);
    assert d[CardIndex(c)] == c;
  }

  /** The random key the shuffle draws for the card at position `CardIndex(c)`. */
  function ShuffleKey(keys: seq<int>, c: Card): int {
    if CardIndex(c) < |keys| then keys[CardIndex(c)] else 0
  }

  /** The cards of `deck` come in ascending order of their random keys. */
  ghost predicate OrderedByKeys(deck: seq<Card>, keys: seq<int>) {
    forall i, j | 0 <= i < j < |deck| :: ShuffleKey(keys, deck[i]) <= ShuffleKey(keys, deck[j])
  }

  /** Builds the deck suit by suit and rank by rank, then orders it by one
      random key per card (`OrderBy(_ => Random.Shared.Next())`); the keys
      are the input. The result holds each of the 52 cards exactly once, in
      ascending order of their keys. */
  method CreateShuffledDeck(keys: seq<int>) returns (deck: seq<Card>)
    requires |keys| == 52
    ensures |deck| == 52 && forall c: Card :: multiset(deck)[c] == 1
    ensures OrderedByKeys(deck, keys)
  {
    var built := BuildDeck();
    deck := SortDesc(built, c => -ShuffleKey(keys, c));
    forall c: Card ensures multiset(deck)[c] == 1 {
      FullDeckOnce(c);
    }
    assert SortedDesc(deck, c => -ShuffleKey(keys, c));
  }

  /** The unshuffled deck, built by one loop over the suits around one
      loop over the ranks. */
  method BuildDeck() returns (built: seq<Card>)
    ensures built == FullDeck()
  {
    built := [];
    for si := 0 to 4
      invariant built == Rows(si)
    {
      for ri := 0 to 13
        invariant built == Rows(si) + SuitRow(Suits[si])[..ri]
      {
        assert SuitRow(Suits[si])[..ri + 1] == SuitRow(Suits[si])[..ri] + [Card(Ranks[ri], Suits[si])];
        built := built + [Card(Ranks[ri], Suits[si])];
      }
      assert SuitRow(Suits[si])[..13] == SuitRow(Suits[si]);
    }
  }
}
