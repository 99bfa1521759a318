/** Poker hand evaluation as the table does it: take the five highest-valued
    of the player's cards and classify those five into one of ten categories,
    with a vector of tie-break values. */
module HandEvaluator {
  import opened PokerModels
  import opened Ordering
  import opened Wrappers

  /** A card value: 2..10, then 11 Jack, 12 Queen, 13 King, 14 Ace. */
  type CardValue = v: int | 2 <= v <= 14 witness 2

  /** Category, the five cards judged, and the tie-break values. */
  datatype HandResult = HandResult(rank: HandRank, bestHand: seq<Card>, values: seq<CardValue>)

  /** Outcome of one category test: it matched (with its tie-break values),
      it did not, or the source's LINQ call would throw (`First()` on an
      empty sequence). */
  datatype Check = Fault | NoMatch | Match(values: seq<CardValue>)

  /** `Select(c => c.GetValue())`. */
  function Values(cards: seq<Card>): (vs: seq<CardValue>)
    ensures |vs| == |cards|
    ensures forall i | 0 <= i < |cards| :: vs[i] == Value(cards[i])
  {
    seq(|cards|, i requires 0 <= i < |cards| => Value(cards[i]) as CardValue)
  }

  /** How many cards have value `v`. */
  function CountOf(cards: seq<Card>, v: int): nat {
    if cards == [] then 0
    else (if Value(cards[0]) == v then 1 else 0) + CountOf(cards[1..], v)
  }

  /** A value occurs among the cards exactly when its count is positive. */
  lemma {:induction false} CountOfPositive(cards: seq<Card>, v: int)
    ensures CountOf(cards, v) > 0 <==> v in Values(cards)
  {
    if cards != [] {
      CountOfPositive(cards[1..], v);
      assert Values(cards) == [Value(cards[0])] + Values(cards[1..]);
    }
  }

  /** How many cards have suit `s`. */
  function SuitCount(cards: seq<Card>, s: Suit): nat {
    if cards == [] then 0
    else (if cards[0].suit == s then 1 else 0) + SuitCount(cards[1..], s)
  }

  /** The distinct elements in order of first occurrence (`Distinct()`,
      and the keys of `GroupBy`). */
  function Distinct(vs: seq<CardValue>): (r: seq<CardValue>)
    ensures |r| <= |vs|
    ensures forall v :: v in r <==> v in vs
    ensures forall i, j | 0 <= i < j < |r| :: r[i] != r[j]
  {
    if vs == [] then []
    else
      var front := Distinct(vs[..|vs| - 1]);
      assert forall v :: v in vs <==> v in vs[..|vs| - 1] || v == vs[|vs| - 1];
      if vs[|vs| - 1] in front then front else front + [vs[|vs| - 1]]
  }

  /** The values sorted ascending (`OrderBy(v => v)`). */
  function Ascending(vs: seq<CardValue>): (r: seq<CardValue>)
    ensures multiset(r) == multiset(vs)
    ensures forall v :: v in r <==> v in vs
    ensures forall i, j | 0 <= i < j < |r| :: r[i] <= r[j]
  {
    forall v ensures v in SortDesc(vs, Negated) <==> v in vs {
      SortDescMembers(vs, Negated, v);
    }
    SortDesc(vs, Negated)
  }

  /** Sorting key of `OrderBy(v => v)` for the descending sort. */
  function Negated(v: CardValue): int {
    -(v as int)
  }

  /** Sorting key of `OrderByDescending(v => v)`. */
  function Itself(v: CardValue): int {
    v
  }

  /** The grouping key of a value: its count first, then the value itself. */
  function GroupKey(cards: seq<Card>, v: CardValue): int {
    CountOf(cards, v) * 100 + v
  }

  /** `GroupBy(GetValue).OrderByDescending(Count).ThenByDescending(Key)`:
      the distinct values, most frequent first, higher value first among
      equally frequent ones. Values lie in 2..14, so count * 100 + value
      orders by count and then by value. */
  function Groups(cards: seq<Card>): (g: seq<CardValue>)
    ensures forall v :: v in g <==> v in Values(cards)
    ensures forall i, j | 0 <= i < j < |g| :: g[i] != g[j]
    ensures forall i, j | 0 <= i < j < |g| :: GroupKey(cards, g[i]) >= GroupKey(cards, g[j])
  {
    var vs := Values(cards);
    var key := (v: CardValue) => GroupKey(cards, v);
    var r := SortDesc(Distinct(vs), key);
    forall v ensures v in r <==> v in vs {
      SortDescMembers(Distinct(vs), key, v);
    }
    SortDescDistinct(Distinct(vs), key);
    r
  }

  /** There are no groups exactly when there are no cards. */
  lemma GroupsEmpty(cards: seq<Card>)
    ensures Groups(cards) == [] <==> cards == []
  {
    if cards != [] {
      assert Values(cards)[0] in Groups(cards);
    }
  }

  /** GetBestFiveCardHand: the five highest-valued cards (fewer when there
      are fewer), highest first. */
  function BestFive(cards: seq<Card>): (best: seq<Card>)
    ensures |best| == if |cards| < 5 then |cards| else 5
    ensures multiset(best) <= multiset(cards)
    ensures SortedDesc(best, Value)
  {
    var sorted := SortDesc(cards, Value);
    var n := if |cards| < 5 then |cards| else 5;
    assert sorted == sorted[..n] + sorted[n..];
    sorted[..n]
  }

  /** All values, highest first (the values reported by Flush and HighCard). */
  function DescendingValues(cards: seq<Card>): (vs: seq<CardValue>)
    ensures |vs| == |cards|
    ensures forall i, j | 0 <= i < j < |vs| :: vs[i] >= vs[j]
    ensures forall v :: v in vs <==> v in Values(cards)
  {
    var sorted := SortDesc(cards, Value);
    assert forall v :: v in Values(sorted) <==> v in Values(cards) by {
      forall v ensures v in Values(sorted) <==> v in Values(cards) {
        if v in Values(sorted) {
          var i :| 0 <= i < |sorted| && Values(sorted)[i] == v;
          SortDescMembers(cards, Value, sorted[i]);
          var j :| 0 <= j < |cards| && cards[j] == sorted[i];
          assert Values(cards)[j] == v;
        }
        if v in Values(cards) {
          var j :| 0 <= j < |cards| && Values(cards)[j] == v;
          SortDescMembers(cards, Value, cards[j]);
          var i :| 0 <= i < |sorted| && sorted[i] == cards[j];
          assert Values(sorted)[i] == v;
        }
      }
    }
    Values(sorted)
  }

  /** Some suit occurs at least five times. */
  predicate IsFlush(cards: seq<Card>) {
    SuitCount(cards, Hearts) >= 5 || SuitCount(cards, Diamonds) >= 5
    || SuitCount(cards, Clubs) >= 5 || SuitCount(cards, Spades) >= 5
  }

  /** Numbers sorted from lowest to highest. */
  ghost predicate AscendingOrder(a: seq<int>) {
    forall i, j | 0 <= i < j < |a| :: a[i] <= a[j]
  }

  lemma AscendingHeadIsMin(a: seq<int>, x: int)
    requires AscendingOrder(a) && x in a
    ensures a[0] <= x
  {
    var i :| 0 <= i < |a| && a[i] == x;
    if i > 0 {
      assert a[0] <= a[i];
    }
  }

  /** Dropping the same head from two sequences with the same elements
      leaves two tails with the same elements. */
  lemma SameTails(a: seq<int>, b: seq<int>)
    requires a != [] && b != [] && a[0] == b[0]
    requires multiset(a) == multiset(b)
    ensures multiset(a[1..]) == multiset(b[1..])
  {
    assert a == [a[0]] + a[1..] && b == [b[0]] + b[1..];
    assert multiset(a) == multiset{a[0]} + multiset(a[1..]);
    assert multiset(b) == multiset{b[0]} + multiset(b[1..]);
    forall x ensures multiset(a[1..])[x] == multiset(b[1..])[x] {
      assert multiset(a)[x] == multiset(b)[x];
    }
  }

  /** Two ascending sequences with the same elements are equal. */
  lemma {:induction false} AscendingUnique(a: seq<int>, b: seq<int>)
    requires AscendingOrder(a) && AscendingOrder(b)
    requires multiset(a) == multiset(b)
    ensures a == b
    decreases |a|
  {
    assert |a| == |multiset(a)| == |multiset(b)| == |b|;
    if a != [] {
      assert a[0] in multiset(b) && b[0] in multiset(a);
      AscendingHeadIsMin(a, b[0]);
      AscendingHeadIsMin(b, a[0]);
      SameTails(a, b);
      AscendingUnique(a[1..], b[1..]);
      assert a == [a[0]] + a[1..] && b == [b[0]] + b[1..];
    }
  }

  /** The sorted values are 10, J, Q, K, A exactly when the values are
      those five, each once. */
  lemma RoyalValues(vs: seq<CardValue>)
    ensures Ascending(vs) == [10, 11, 12, 13, 14] <==> multiset(vs) == multiset{10, 11, 12, 13, 14}
  {
    var royal: seq<CardValue> := [10, 11, 12, 13, 14];
    assert multiset(royal) == multiset{10, 11, 12, 13, 14};
    assert AscendingOrder(royal);
    if multiset(vs) == multiset(royal) {
      AscendingUnique(Ascending(vs), royal);
    }
  }

  function IsRoyalFlush(cards: seq<Card>): (r: Check)
    ensures r == NoMatch || r == Match([14])
    ensures r.Match? <==> IsFlush(cards) && multiset(Values(cards)) == multiset{10, 11, 12, 13, 14}
  {
    RoyalValues(Values(cards));
    if IsFlush(cards) && Ascending(Values(cards)) == [10, 11, 12, 13, 14] then Match([14]) else NoMatch
  }

  /** The scan of `IsStraight`: the first `i` whose window of five distinct
      ascending values spans exactly 4, reporting its top value. */
  function StraightScan(sv: seq<CardValue>, i: nat): (r: Option<CardValue>)
    ensures r.Some? ==> exists k :: i <= k && k + 4 < |sv| && sv[k + 4] as int - sv[k] == 4 && r.value == sv[k + 4]
    ensures r.None? ==> forall k | i <= k && k + 4 < |sv| :: sv[k + 4] as int - sv[k] != 4
    decreases |sv| - i
  {
    if i + 4 >= |sv| then None
    else if sv[i + 4] as int - sv[i] == 4 then Some(sv[i + 4])
    else StraightScan(sv, i + 1)
  }

  /** The distinct values, ascending. */
  function StraightValues(cards: seq<Card>): seq<CardValue> {
    Ascending(Distinct(Values(cards)))
  }

  function IsStraight(cards: seq<Card>): (r: Check)
    ensures r != Fault && (r.Match? ==> |r.values| == 1)
  {
    var sv := StraightValues(cards);
    match StraightScan(sv, 0)
    case Some(top) => Match([top])
    case None =>
      if 14 in sv && |sv| >= 4 && sv[..4] == [2, 3, 4, 5] then Match([5]) else NoMatch
  }

  function IsStraightFlush(cards: seq<Card>): (r: Check)
    ensures r == NoMatch || (IsFlush(cards) && r == IsStraight(cards))
    ensures r.Match? <==> IsFlush(cards) && IsStraight(cards).Match?
  {
    if IsFlush(cards) && IsStraight(cards).Match? then IsStraight(cards) else NoMatch
  }

  function IsFourOfKind(cards: seq<Card>): (r: Check)
    ensures r.Fault? <==> cards == []
    ensures r.Match? ==> |r.values| == 2
  {
    var g := Groups(cards);
    GroupsEmpty(cards);
    if g == [] then Fault
    else if CountOf(cards, g[0]) == 4 then Match([g[0], g[|g| - 1]])
    else NoMatch
  }

  function IsFullHouse(cards: seq<Card>): (r: Check)
    ensures r != Fault && (r.Match? ==> |r.values| == 2)
  {
    var g := Groups(cards);
    if |g| == 2 && CountOf(cards, g[0]) == 3 && CountOf(cards, g[1]) == 2 then Match([g[0], g[1]])
    else NoMatch
  }

  function IsThreeOfKind(cards: seq<Card>): (r: Check)
    ensures r.Fault? <==> cards == []
    ensures r.Match? ==> |r.values| >= 1
  {
    var g := Groups(cards);
    GroupsEmpty(cards);
    if g == [] then Fault
    else if CountOf(cards, g[0]) == 3 then Match([g[0]] + g[1..])
    else NoMatch
  }

  /** The values that occur exactly twice, highest first. */
  function Pairs(cards: seq<Card>): (p: seq<CardValue>)
    ensures forall v: int :: v in p <==> CountOf(cards, v) == 2
    ensures forall i, j | 0 <= i < j < |p| :: p[i] > p[j]
  {
    var ds := Distinct(Values(cards));
    var twice := Twice(cards, ds);
    var r := SortDesc(twice, Itself);
    forall v: int ensures v in r <==> CountOf(cards, v) == 2 {
      CountOfPositive(cards, v);
      if 2 <= v <= 14 {
        SortDescMembers(twice, Itself, v as CardValue);
      }
    }
    SortDescDistinct(twice, Itself);
    r
  }

  /** The elements of `ds` that occur exactly twice among the card values,
      in the order of `ds`. */
  function Twice(cards: seq<Card>, ds: seq<CardValue>): (r: seq<CardValue>)
    ensures forall v: int :: v in r <==> v in ds && CountOf(cards, v) == 2
    ensures (forall i, j | 0 <= i < j < |ds| :: ds[i] != ds[j]) ==> forall i, j | 0 <= i < j < |r| :: r[i] != r[j]
  {
    if ds == [] then []
    else
      assert forall v: int :: v in ds <==> v == ds[0] || v in ds[1..];
      (if CountOf(cards, ds[0]) == 2 then [ds[0]] else []) + Twice(cards, ds[1..])
  }

  /** The cards whose value is neither `a` nor `b`, in order. */
  function Without(cards: seq<Card>, a: int, b: int): (r: seq<Card>)
    ensures forall c | c in r :: Value(c) != a && Value(c) != b
    ensures forall c :: c in r <==> c in cards && Value(c) != a && Value(c) != b
  {
    if cards == [] then []
    else (if Value(cards[0]) != a && Value(cards[0]) != b then [cards[0]] else []) + Without(cards[1..], a, b)
  }

  function IsTwoPair(cards: seq<Card>): (r: Check)
    ensures r.Match? ==> |r.values| == 3
  {
    var pairs := Pairs(cards);
    if |pairs| >= 2 then
      var rest := Without(cards, pairs[0], pairs[1]);
      if rest == [] then Fault
      else Match([pairs[0], pairs[1], Value(SortDesc(rest, Value)[0])])
    else NoMatch
  }

  function IsOnePair(cards: seq<Card>): (r: Check)
    ensures r.Fault? <==> cards == []
    ensures r.Match? ==> |r.values| >= 1
  {
    var g := Groups(cards);
    GroupsEmpty(cards);
    if g == [] then Fault
    else if CountOf(cards, g[0]) == 2 then Match([g[0]] + SortDesc(g[1..], Itself))
    else NoMatch
  }

  /** The outcome of the test for one category on the cards judged. Flush
      and high card have no test function of their own in the source: a
      flush matches on `IsFlush` and high card always matches. */
  function CategoryTest(best: seq<Card>, h: HandRank): (r: Check)
    ensures best != [] && r.Match? ==> |r.values| >= 1
  {
    match h
    case RoyalFlush => IsRoyalFlush(best)
    case StraightFlush => IsStraightFlush(best)
    case FourOfKind => IsFourOfKind(best)
    case FullHouse => IsFullHouse(best)
    case Flush => if IsFlush(best) then Match(DescendingValues(best)) else NoMatch
    case Straight => IsStraight(best)
    case ThreeOfKind => IsThreeOfKind(best)
    case TwoPair => IsTwoPair(best)
    case OnePair => IsOnePair(best)
    case HighCard => Match(DescendingValues(best))
  }

  /** The order in which EvaluateHand tries the categories: highest first. */
  const TestOrder: seq<HandRank> :=
    [RoyalFlush, StraightFlush, FourOfKind, FullHouse, Flush, Straight, ThreeOfKind, TwoPair, OnePair, HighCard]

  /** Tries the categories of `order` in turn: the first whose test matches
      is the result, with its tie-break values; a test that would throw ends
      the evaluation with no result. */
  function FirstMatch(test: HandRank -> Check, order: seq<HandRank>): (r: Option<(HandRank, seq<CardValue>)>)
    ensures r.Some? ==> r.value.0 in order && test(r.value.0) == Match(r.value.1)
  {
    if order == [] then None
    else
      match test(order[0])
      case Match(vs) => Some((order[0], vs))
      case Fault => None
      case NoMatch => FirstMatch(test, order[1..])
  }

  /** The category at position `k` of `order` is the first whose test does
      not answer NoMatch. */
  ghost predicate DecidedAt(test: HandRank -> Check, order: seq<HandRank>, k: int) {
    && 0 <= k < |order|
    && !test(order[k]).NoMatch?
    && forall m | 0 <= m < k :: test(order[m]).NoMatch?
  }

  /** FirstMatch stops at the first test that does not answer NoMatch: it
      reports that category if the test matched, and nothing if it threw. */
  lemma {:induction false} FirstMatchStops(test: HandRank -> Check, order: seq<HandRank>)
    ensures FirstMatch(test, order).Some? ==>
      exists k :: DecidedAt(test, order, k) && order[k] == FirstMatch(test, order).value.0
    ensures FirstMatch(test, order).None? <==>
      (forall m | 0 <= m < |order| :: test(order[m]).NoMatch?)
      || exists k :: DecidedAt(test, order, k) && test(order[k]).Fault?
  {
    if order != [] {
      FirstMatchStops(test, order[1..]);
      if test(order[0]).NoMatch? {
        forall k | DecidedAt(test, order[1..], k) ensures DecidedAt(test, order, k + 1) {
          forall m | 0 <= m < k + 1 ensures test(order[m]).NoMatch? {
            if m > 0 {
              assert order[m] == order[1..][m - 1];
            }
          }
        }
        forall k | DecidedAt(test, order, k) ensures DecidedAt(test, order[1..], k - 1) {
          assert k != 0;
        }
        if forall m | 0 <= m < |order[1..]| :: test(order[1..][m]).NoMatch? {
          forall m | 0 <= m < |order| ensures test(order[m]).NoMatch? {
            if m > 0 {
              assert order[m] == order[1..][m - 1];
            }
          }
        }
      } else {
        assert DecidedAt(test, order, 0);
      }
    }
  }

  /** EvaluateHand's chain of tests on the five cards judged. */
  function Classify(best: seq<Card>): (r: Option<HandResult>)
    ensures r.Some? ==> r.value.bestHand == best && |r.value.values| >= 1
    ensures best == [] ==> r.None?
  {
    var test := h => CategoryTest(best, h);
    EmptyHandUnclassified(best);
    match FirstMatch(test, TestOrder)
    case None => None
    case Some((rank, vs)) => Some(HandResult(rank, best, vs))
  }

  /** No cards: the four-of-a-kind test is the first to throw. */
  lemma EmptyHandUnclassified(best: seq<Card>)
    ensures best == [] ==> FirstMatch(h => CategoryTest(best, h), TestOrder).None?
  {
    if best == [] {
      var test := h => CategoryTest(best, h);
      assert test(TestOrder[0]) == NoMatch && test(TestOrder[1]) == NoMatch && test(TestOrder[2]) == Fault;
      assert DecidedAt(test, TestOrder, 2);
      FirstMatchStops(test, TestOrder);
    }
  }

  /** Only the tests built on LINQ's `First()` can throw, and high card
      always matches. */
  lemma CategoryTestFaults(best: seq<Card>, h: HandRank)
    ensures CategoryTest(best, h).Fault? ==>
      || (h == FourOfKind && IsFourOfKind(best).Fault?) || (h == ThreeOfKind && IsThreeOfKind(best).Fault?)
      || (h == TwoPair && IsTwoPair(best).Fault?) || (h == OnePair && IsOnePair(best).Fault?)
    ensures h == HighCard ==> CategoryTest(best, h).Match?
  {
    match h
    case RoyalFlush =>
    case StraightFlush =>
    case FourOfKind =>
    case FullHouse =>
    case Flush =>
    case Straight =>
    case ThreeOfKind =>
    case TwoPair =>
    case OnePair =>
    case HighCard =>
  }

  /** The position of a category in the test order. */
  lemma TestOrderPosition(h: HandRank)
    ensures 0 <= 10 - HandRankValue(h) < |TestOrder| && TestOrder[10 - HandRankValue(h)] == h
  {
  }

  /** Every category above `h` answers NoMatch. */
  ghost predicate NoneAbove(test: HandRank -> Check, h: HandRank) {
    forall h' | HandRankValue(h') > HandRankValue(h) :: test(h') == NoMatch
  }

  /** A decision at position `k` of the test order: every category above
      the one at `k` answered NoMatch. */
  lemma DecidedAbove(test: HandRank -> Check, k: int)
    requires DecidedAt(test, TestOrder, k)
    ensures NoneAbove(test, TestOrder[k])
  {
    forall h' | HandRankValue(h') > HandRankValue(TestOrder[k]) ensures test(h') == NoMatch {
      TestOrderPosition(h');
      TestOrderPosition(TestOrder[k]);
      assert test(TestOrder[10 - HandRankValue(h')]).NoMatch?;
    }
  }

  /** Over the test order, FirstMatch reports the highest category whose
      test matches, with that test's values, and every higher category
      answered NoMatch. */
  lemma FirstMatchHighest(test: HandRank -> Check)
    requires FirstMatch(test, TestOrder).Some?
    ensures test(FirstMatch(test, TestOrder).value.0) == Match(FirstMatch(test, TestOrder).value.1)
    ensures NoneAbove(test, FirstMatch(test, TestOrder).value.0)
  {
    FirstMatchStops(test, TestOrder);
    var k :| DecidedAt(test, TestOrder, k) && TestOrder[k] == FirstMatch(test, TestOrder).value.0;
    DecidedAbove(test, k);
  }

  /** A test that throws after every higher category answered NoMatch
      ends FirstMatch over the test order with no result. */
  lemma FaultEndsFirstMatch(test: HandRank -> Check, h: HandRank)
    requires test(h).Fault? && NoneAbove(test, h)
    ensures FirstMatch(test, TestOrder).None?
  {
    FirstMatchStops(test, TestOrder);
    TestOrderPosition(h);
    var k := 10 - HandRankValue(h);
    forall m | 0 <= m < k ensures test(TestOrder[m]).NoMatch? {
      TestOrderPosition(TestOrder[m]);
    }
    assert DecidedAt(test, TestOrder, k);
  }

  /** When the lowest category always matches, FirstMatch over the test
      order reports nothing exactly when some test throws after every
      higher category answered NoMatch. */
  lemma FirstMatchNone(test: HandRank -> Check)
    requires test(HighCard).Match?
    ensures FirstMatch(test, TestOrder).None? <==> exists h :: test(h).Fault? && NoneAbove(test, h)
  {
    if FirstMatch(test, TestOrder).None? {
      FirstMatchStops(test, TestOrder);
      assert TestOrder[9] == HighCard;
      var k :| DecidedAt(test, TestOrder, k) && test(TestOrder[k]).Fault?;
      DecidedAbove(test, k);
    }
    if exists h :: test(h).Fault? && NoneAbove(test, h) {
      var h :| test(h).Fault? && NoneAbove(test, h);
      FaultEndsFirstMatch(test, h);
    }
  }

  /** The category reported is the highest-valued one whose test matches,
      with that test's tie-break values: every higher category's test
      answered NoMatch. */
  lemma ClassifyIsHighestMatch(best: seq<Card>)
    requires Classify(best).Some?
    ensures CategoryTest(best, Classify(best).value.rank) == Match(Classify(best).value.values)
    ensures NoneAbove(h => CategoryTest(best, h), Classify(best).value.rank)
  {
    FirstMatchHighest(h => CategoryTest(best, h));
  }

  /** No category is reported exactly when some category's test would
      throw after every higher category answered NoMatch. */
  lemma ClassifyNoneMeansFault(best: seq<Card>)
    ensures Classify(best).None? <==>
      exists h :: CategoryTest(best, h).Fault? && NoneAbove(h => CategoryTest(best, h), h)
  {
    var test := h => CategoryTest(best, h);
    CategoryTestFaults(best, HighCard);
    FirstMatchNone(test);
  }

  /** Evaluates a player's hole cards together with the community cards.
      None where the source's evaluation throws. */
  function EvaluateHand(hole: seq<Card>, community: seq<Card>): (r: Option<HandResult>)
    ensures r.Some? ==> r.value.bestHand == BestFive(hole + community) && |r.value.values| >= 1
    ensures |hole + community| == 0 ==> r.None?
    ensures |hole + community| >= 5 ==> r.Some?
  {
    var best := BestFive(hole + community);
    if |best| == 5 then ClassifyFive(best); Classify(best)
    else Classify(best)
  }

  /** Five cards always classify. */
  lemma ClassifyFive(best: seq<Card>)
    requires |best| == 5
    ensures Classify(best).Some?
  {
    FiveCardsNeverFault(best);
    var test := h => CategoryTest(best, h);
    forall h ensures !test(h).Fault? {
      CategoryTestFaults(best, h);
    }
    CategoryTestFaults(best, HighCard);
    FirstMatchNone(test);
  }

  /** With five cards, no test throws: the groups are not empty and two
      pairs always leave a kicker. */
  lemma FiveCardsNeverFault(best: seq<Card>)
    requires |best| == 5
    ensures !IsFourOfKind(best).Fault? && !IsThreeOfKind(best).Fault?
    ensures !IsTwoPair(best).Fault? && !IsOnePair(best).Fault?
  {
    var pairs := Pairs(best);
    if |pairs| >= 2 && Without(best, pairs[0], pairs[1]) == [] {
      WithoutEmptyCount(best, pairs[0], pairs[1]);
    }
  }

  /** When every card has value `a` or `b`, those two counts cover all cards. */
  lemma {:induction false} WithoutEmptyCount(cards: seq<Card>, a: int, b: int)
    requires Without(cards, a, b) == []
    ensures |cards| <= CountOf(cards, a) + CountOf(cards, b)
  {
    if cards != [] {
      WithoutEmptyCount(cards[1..], a, b);
    }
  }

  /** The cards GetBestFiveCardHand leaves out. */
  function Discarded(cards: seq<Card>): (d: seq<Card>)
    ensures |d| == |cards| - |BestFive(cards)|
  {
    var n := if |cards| < 5 then |cards| else 5;
    SortDesc(cards, Value)[n..]
  }

  /** The judged cards and the discarded ones together are the player's
      cards, and no discarded card has a higher value than a judged one:
      the five are chosen by value alone, whatever the suits or the
      combinations the other cards would make. */
  lemma BestFiveAreHighest(cards: seq<Card>)
    ensures multiset(BestFive(cards)) + multiset(Discarded(cards)) == multiset(cards)
    ensures forall i, j | 0 <= i < |BestFive(cards)| && 0 <= j < |Discarded(cards)| ::
              Value(BestFive(cards)[i]) >= Value(Discarded(cards)[j])
  {
    var sorted := SortDesc(cards, Value);
    var n := if |cards| < 5 then |cards| else 5;
    assert sorted == sorted[..n] + sorted[n..];
    forall i, j | 0 <= i < |BestFive(cards)| && 0 <= j < |Discarded(cards)|
      ensures Value(BestFive(cards)[i]) >= Value(Discarded(cards)[j])
    {
      assert BestFive(cards)[i] == sorted[i];
      assert Discarded(cards)[j] == sorted[n + j];
    }
  }

  /** The first group holds a most frequent value, and the highest value
      among the equally frequent ones. */
  lemma GroupsHeadMostFrequent(cards: seq<Card>, v: CardValue)
    requires v in Values(cards)
    ensures Groups(cards) != []
    ensures CountOf(cards, v) <= CountOf(cards, Groups(cards)[0])
    ensures CountOf(cards, v) == CountOf(cards, Groups(cards)[0]) ==> v <= Groups(cards)[0]
  {
    var g := Groups(cards);
    var i :| 0 <= i < |g| && g[i] == v;
    if i > 0 {
      assert GroupKey(cards, g[0]) >= GroupKey(cards, g[i]);
    }
  }

  /** The highest number of cards sharing a value is `n`. */
  ghost predicate TopCount(cards: seq<Card>, n: nat) {
    (exists v :: CountOf(cards, v) == n) && forall v :: CountOf(cards, v) <= n
  }

  /** The count of the first group is the highest count of any value. */
  lemma HeadCount(cards: seq<Card>, n: nat)
    requires cards != []
    ensures CountOf(cards, Groups(cards)[0]) == n <==> TopCount(cards, n)
  {
    GroupsEmpty(cards);
    var head := Groups(cards)[0];
    CountOfPositive(cards, head);
    forall v ensures CountOf(cards, v) <= CountOf(cards, head) {
      CountOfPositive(cards, v);
      if v in Values(cards) {
        GroupsHeadMostFrequent(cards, v);
      }
    }
  }

  /** Four of a kind is reported exactly when the most frequent value
      occurs four times; its first tie-break value is that value. */
  lemma FourOfKindMeaning(cards: seq<Card>)
    ensures IsFourOfKind(cards).Match? <==> cards != [] && TopCount(cards, 4)
    ensures IsFourOfKind(cards).Match? ==> CountOf(cards, IsFourOfKind(cards).values[0]) == 4
  {
    if cards != [] {
      HeadCount(cards, 4);
    }
  }

  /** Three of a kind is reported exactly when the most frequent value
      occurs three times (a full house is tested before it). */
  lemma ThreeOfKindMeaning(cards: seq<Card>)
    ensures IsThreeOfKind(cards).Match? <==> cards != [] && TopCount(cards, 3)
    ensures IsThreeOfKind(cards).Match? ==> CountOf(cards, IsThreeOfKind(cards).values[0]) == 3
  {
    if cards != [] {
      HeadCount(cards, 3);
    }
  }

  /** One pair is reported exactly when the most frequent value occurs
      twice; its first tie-break value is the paired value. */
  lemma OnePairMeaning(cards: seq<Card>)
    ensures IsOnePair(cards).Match? <==> cards != [] && TopCount(cards, 2)
    ensures IsOnePair(cards).Match? ==> CountOf(cards, IsOnePair(cards).values[0]) == 2
  {
    if cards != [] {
      HeadCount(cards, 2);
    }
  }

  /** Three distinct values together occur at most once per card. */
  lemma {:induction false} CountsWithin(cards: seq<Card>, a: int, b: int, c: int)
    requires a != b && b != c && a != c
    ensures CountOf(cards, a) + CountOf(cards, b) + CountOf(cards, c) <= |cards|
  {
    if cards != [] {
      CountsWithin(cards[1..], a, b, c);
    }
  }

  /** A value every card has is counted once per card. */
  lemma {:induction false} CountOfAll(cards: seq<Card>, v: int)
    requires forall c | c in cards :: Value(c) == v
    ensures CountOf(cards, v) == |cards|
  {
    if cards != [] {
      assert cards[0] in cards;
      CountOfAll(cards[1..], v);
    }
  }

  /** A sequence of distinct elements drawn from `s` is no longer than `s`
      is large. */
  lemma {:induction false} DistinctWithin(g: seq<int>, s: set<int>)
    requires forall i, j | 0 <= i < j < |g| :: g[i] != g[j]
    requires forall x | x in g :: x in s
    ensures |g| <= |s|
  {
    if g != [] {
      var rest := s - {g[0]};
      assert g[0] in g;
      assert |rest| == |s| - 1;
      forall x | x in g[1..] ensures x in rest {
        var k :| 0 <= k < |g[1..]| && g[1..][k] == x;
        assert g[k + 1] == x;
      }
      DistinctWithin(g[1..], rest);
    }
  }

  /** Every card value is `a` or `b`, and both occur: then the groups are
      exactly those two values. */
  lemma TwoGroups(cards: seq<Card>, a: int, b: int)
    requires a != b && a in Values(cards) && b in Values(cards)
    requires forall v | v in Values(cards) :: v == a || v == b
    ensures |Groups(cards)| == 2
    ensures (Groups(cards)[0] == a && Groups(cards)[1] == b) || (Groups(cards)[0] == b && Groups(cards)[1] == a)
  {
    var g := Groups(cards);
    var i :| 0 <= i < |g| && g[i] == a;
    var j :| 0 <= j < |g| && g[j] == b;
    DistinctWithin(g, {a, b});
  }

  /** Five cards of which four have value `q`: the fifth card's value
      `k` occurs once, and every card has value `q` or `k`. */
  lemma FourAndOne(cards: seq<Card>, q: CardValue) returns (k: CardValue)
    requires |cards| == 5 && CountOf(cards, q) == 4
    ensures k != q && k in Values(cards) && CountOf(cards, k) == 1
    ensures forall v | v in Values(cards) :: v == q || v == k
  {
    if forall c | c in cards :: Value(c) == q {
      CountOfAll(cards, q);
      assert false;
    }
    var c :| c in cards && Value(c) != q;
    k := Value(c);
    var idx :| 0 <= idx < |cards| && cards[idx] == c;
    assert Values(cards)[idx] == k;
    CountOfPositive(cards, k);
    CountsWithin(cards, q, k, 0);
    forall v | v in Values(cards) ensures v == q || v == k {
      if v != q && v != k {
        CountOfPositive(cards, v);
        CountsWithin(cards, q, k, v);
      }
    }
  }

  /** Five cards holding four of a kind: the second tie-break value is the
      single remaining card's value (the source's `groups.Last().Key`). */
  lemma FourOfKindKicker(cards: seq<Card>)
    requires |cards| == 5 && IsFourOfKind(cards).Match?
    ensures var vs := IsFourOfKind(cards).values;
      && vs[1] != vs[0] && CountOf(cards, vs[0]) == 4 && CountOf(cards, vs[1]) == 1
      && forall c | c in cards :: Value(c) == vs[0] || Value(c) == vs[1]
  {
    var g := Groups(cards);
    var k := FourAndOne(cards, g[0]);
    CountOfPositive(cards, g[0]);
    TwoGroups(cards, g[0], k);
    forall d | d in cards ensures Value(d) == g[0] || Value(d) == k {
      var t :| 0 <= t < |cards| && cards[t] == d;
      assert Values(cards)[t] == Value(d) && Values(cards)[t] in Values(cards);
    }
  }

  /** Three cards of value `a` and two of value `b`, and nothing else. */
  ghost predicate FullHouseOf(cards: seq<Card>, a: int, b: int) {
    && a != b && CountOf(cards, a) == 3 && CountOf(cards, b) == 2
    && forall v | v in Values(cards) :: v == a || v == b
  }

  /** A full house is reported exactly when the cards are three of one
      value and two of another, and its tie-break values are the tripled
      value, then the paired one. */
  lemma FullHouseMeaning(cards: seq<Card>)
    ensures IsFullHouse(cards).Match? <==> exists a, b :: FullHouseOf(cards, a, b)
    ensures IsFullHouse(cards).Match? ==>
      FullHouseOf(cards, IsFullHouse(cards).values[0], IsFullHouse(cards).values[1])
  {
    var g := Groups(cards);
    if IsFullHouse(cards).Match? {
      forall v | v in Values(cards) ensures v == g[0] || v == g[1] {
        assert v in g;
      }
      assert FullHouseOf(cards, g[0], g[1]);
    }
    if exists a, b :: FullHouseOf(cards, a, b) {
      var a, b :| FullHouseOf(cards, a, b);
      CountOfPositive(cards, a);
      CountOfPositive(cards, b);
      TwoGroups(cards, a, b);
      if g[0] == b {
        assert GroupKey(cards, g[0]) >= GroupKey(cards, g[1]);
      }
    }
  }

  /** Two different values occur twice each. */
  ghost predicate TwoPairsAmong(cards: seq<Card>) {
    exists a: int, b: int :: a != b && CountOf(cards, a) == 2 && CountOf(cards, b) == 2
  }

  /** There are at least two paired values exactly when two different
      values occur twice each. */
  lemma TwoPairsListed(cards: seq<Card>)
    ensures |Pairs(cards)| >= 2 <==> TwoPairsAmong(cards)
  {
    var p := Pairs(cards);
    if TwoPairsAmong(cards) {
      var a: int, b: int :| a != b && CountOf(cards, a) == 2 && CountOf(cards, b) == 2;
      assert a in p && b in p;
      var i :| 0 <= i < |p| && p[i] == a;
      var j :| 0 <= j < |p| && p[j] == b;
      assert i != j;
    }
    if |p| >= 2 {
      assert p[0] in p && p[1] in p;
      assert p[0] != p[1] && CountOf(cards, p[0]) == 2 && CountOf(cards, p[1]) == 2;
    }
  }

  /** Two pair is tested (it matches, or its kicker lookup fails) exactly
      when two different values occur twice each. */
  lemma TwoPairFound(cards: seq<Card>)
    ensures IsTwoPair(cards) != NoMatch <==> TwoPairsAmong(cards)
  {
    TwoPairsListed(cards);
  }

  /** When two pair is reported, its tie-break values are the highest
      paired value, the next highest paired value, and the highest value
      among the cards outside both pairs. */
  lemma TwoPairValues(cards: seq<Card>)
    requires IsTwoPair(cards).Match?
    ensures var vs := IsTwoPair(cards).values;
      && vs[0] > vs[1] && CountOf(cards, vs[0]) == 2 && CountOf(cards, vs[1]) == 2
      && (forall v: int | CountOf(cards, v) == 2 :: v == vs[0] || v <= vs[1])
      && (exists c | c in cards :: Value(c) == vs[2] && Value(c) != vs[0] && Value(c) != vs[1])
      && (forall c | c in cards && Value(c) != vs[0] && Value(c) != vs[1] :: Value(c) <= vs[2])
  {
    var p := Pairs(cards);
    var rest := Without(cards, p[0], p[1]);
    assert p[0] in p && p[1] in p;
    forall v: int | CountOf(cards, v) == 2 ensures v == p[0] || v <= p[1] {
      assert v in p;
      var k :| 0 <= k < |p| && p[k] == v;
      if k > 1 {
        assert p[1] > p[k];
      }
    }
    var sorted := SortDesc(rest, Value);
    assert sorted[0] in multiset(sorted);
    assert sorted[0] in rest;
    forall c | c in cards && Value(c) != p[0] && Value(c) != p[1] ensures Value(c) <= Value(sorted[0]) {
      SortDescHeadIsMax(rest, Value, c);
    }
  }

  /** `ks` lists every card value other than `head`, each once, highest
      first: the kickers that follow the first tie-break value. */
  ghost predicate KickersOf(cards: seq<Card>, head: int, ks: seq<CardValue>) {
    && (forall v: int :: v in ks <==> v in Values(cards) && v != head)
    && (forall i, j | 0 <= i < j < |ks| :: ks[i] > ks[j])
  }

  /** The groups after the first are the other card values. */
  lemma GroupsTail(cards: seq<Card>)
    requires cards != []
    ensures Groups(cards) != []
    ensures forall v: int :: v in Groups(cards)[1..] <==> v in Values(cards) && v != Groups(cards)[0]
  {
    var g := Groups(cards);
    GroupsEmpty(cards);
    forall v: int ensures v in g[1..] <==> v in g && v != g[0] {
      if v in g[1..] {
        var k :| 0 <= k < |g[1..]| && g[1..][k] == v;
        assert g[k + 1] == v;
      }
      if v in g && v != g[0] {
        var k :| 0 <= k < |g| && g[k] == v;
        assert g[1..][k - 1] == v;
      }
    }
  }

  /** Five cards holding three of a kind: after the tripled value come the
      other card values, each once, highest first (7,7,7,K,2 gives
      [7, 13, 2]). The two cards left are a pair or two single cards, and
      two singles are ordered by value. */
  lemma ThreeOfKindKickers(cards: seq<Card>)
    requires |cards| == 5 && IsThreeOfKind(cards).Match?
    ensures var vs := IsThreeOfKind(cards).values;
      CountOf(cards, vs[0]) == 3 && KickersOf(cards, vs[0], vs[1..])
  {
    var g := Groups(cards);
    GroupsTail(cards);
    forall i, j | 0 <= i < j < |g| - 1 ensures g[1..][i] > g[1..][j] {
      var a, b := g[i + 1], g[j + 1];
      assert a in g && b in g;
      CountOfPositive(cards, a);
      CountOfPositive(cards, b);
      CountsWithin(cards, g[0], a, b);
      assert GroupKey(cards, a) >= GroupKey(cards, b);
    }
  }

  /** Distinct values sorted by `OrderByDescending(v => v)`: the same
      values, strictly descending. */
  lemma SortedDistinctValues(s: seq<CardValue>)
    requires forall i, j | 0 <= i < j < |s| :: s[i] != s[j]
    ensures forall v: int :: v in SortDesc(s, Itself) <==> v in s
    ensures forall i, j | 0 <= i < j < |SortDesc(s, Itself)| :: SortDesc(s, Itself)[i] > SortDesc(s, Itself)[j]
  {
    forall v: int ensures v in SortDesc(s, Itself) <==> v in s {
      if 2 <= v <= 14 {
        SortDescMembers(s, Itself, v as CardValue);
      }
    }
    var r := SortDesc(s, Itself);
    SortDescDistinct(s, Itself);
    forall i, j | 0 <= i < j < |r| ensures r[i] > r[j] {
      assert Itself(r[i]) >= Itself(r[j]);
    }
  }

  /** One pair: after the paired value come the other card values, each
      once, highest first (9,9,A,5,3 gives [9, 14, 5, 3]). */
  lemma OnePairKickers(cards: seq<Card>)
    requires IsOnePair(cards).Match?
    ensures var vs := IsOnePair(cards).values;
      CountOf(cards, vs[0]) == 2 && KickersOf(cards, vs[0], vs[1..])
  {
    var g := Groups(cards);
    GroupsTail(cards);
    var rest := g[1..];
    forall i, j | 0 <= i < j < |rest| ensures rest[i] != rest[j] {
      assert rest[i] == g[i + 1] && rest[j] == g[j + 1];
    }
    SortedDistinctValues(rest);
    var ks := SortDesc(rest, Itself);
    assert KickersOf(cards, g[0], ks);
    assert IsOnePair(cards) == Match([g[0]] + ks);
    assert ([g[0]] + ks)[1..] == ks;
  }

  /** Every value from `t - 4` to `t` is among the cards. */
  ghost predicate RunTo(cards: seq<Card>, t: int) {
    forall v | t - 4 <= v <= t :: v in Values(cards)
  }

  /** Ace, two, three, four and five are all among the cards. */
  ghost predicate Wheel(cards: seq<Card>) {
    14 in Values(cards) && forall v | 2 <= v <= 5 :: v in Values(cards)
  }

  /** Strictly increasing. */
  ghost predicate Increasing(sv: seq<CardValue>) {
    forall i, j | 0 <= i < j < |sv| :: sv[i] < sv[j]
  }

  /** The scanned values are the card values, each once, increasing. */
  lemma StraightValuesIncreasing(cards: seq<Card>)
    ensures Increasing(StraightValues(cards))
    ensures forall v :: v in StraightValues(cards) <==> v in Values(cards)
  {
    SortDescDistinct(Distinct(Values(cards)), Negated);
  }

  /** In an increasing sequence of integers, positions `j - i` apart are
      at least `j - i` apart in value. */
  lemma {:induction false} IncreasingGap(sv: seq<CardValue>, i: nat, j: nat)
    requires Increasing(sv) && i <= j < |sv|
    ensures sv[j] - sv[i] >= j - i
    decreases j - i
  {
    if i < j {
      IncreasingGap(sv, i, j - 1);
    }
  }

  /** When the values `lo .. lo + n - 1` all occur in an increasing sequence
      and `lo` sits at `k`, they fill positions `k .. k + n - 1`. */
  lemma {:induction false} RunPositions(sv: seq<CardValue>, k: nat, lo: int, n: nat)
    requires Increasing(sv) && k < |sv| && sv[k] == lo && n >= 1
    requires forall v | lo <= v < lo + n :: v in sv
    ensures k + n - 1 < |sv| && sv[k + n - 1] == lo + n - 1
  {
    if n > 1 {
      RunPositions(sv, k, lo, n - 1);
      assert lo + n - 1 in sv;
      var m :| 0 <= m < |sv| && sv[m] == lo + n - 1;
      assert m > k + n - 2;
    }
  }

  /** A window of five increasing values spanning 4 holds every value
      between its ends. */
  lemma WindowRun(sv: seq<CardValue>, k: nat)
    requires Increasing(sv) && k + 4 < |sv| && sv[k + 4] as int - sv[k] == 4
    ensures forall v: int | sv[k] <= v <= sv[k + 4] :: v in sv
  {
    forall v: int | sv[k] <= v <= sv[k + 4] ensures v in sv {
      var d := v - sv[k] as int;
      IncreasingGap(sv, k, k + d);
      IncreasingGap(sv, k + d, k + 4);
      assert sv[k + d] == v;
    }
  }

  /** Values found in the scanned sequence are card values. */
  lemma ScannedAreValues(cards: seq<Card>, lo: int, hi: int)
    requires forall v | lo <= v <= hi :: v in StraightValues(cards)
    ensures forall v | lo <= v <= hi :: v in Values(cards)
  {
    StraightValuesIncreasing(cards);
  }

  /** A reported straight is five consecutive values present among the
      cards, ending at the reported value, or the ace-to-five wheel
      reported as 5. */
  lemma StraightSound(cards: seq<Card>)
    requires IsStraight(cards).Match?
    ensures RunTo(cards, IsStraight(cards).values[0])
            || (IsStraight(cards).values[0] == 5 && Wheel(cards))
  {
    var scan := StraightScan(StraightValues(cards), 0);
    if scan.Some? {
      ScanFindsRun(cards);
    } else {
      FallbackFindsWheel(cards);
    }
  }

  /** A window found by the scan is a run of five values among the cards. */
  lemma ScanFindsRun(cards: seq<Card>)
    requires StraightScan(StraightValues(cards), 0).Some?
    ensures RunTo(cards, StraightScan(StraightValues(cards), 0).value)
  {
    var sv := StraightValues(cards);
    StraightValuesIncreasing(cards);
    var k :| 0 <= k && k + 4 < |sv| && sv[k + 4] as int - sv[k] == 4 && StraightScan(sv, 0).value == sv[k + 4];
    WindowRun(sv, k);
    ScannedAreValues(cards, sv[k + 4] as int - 4, sv[k + 4]);
  }

  /** The fallback test of `IsStraight` only passes on the wheel. */
  lemma FallbackFindsWheel(cards: seq<Card>)
    requires 14 in StraightValues(cards) && |StraightValues(cards)| >= 4
    requires StraightValues(cards)[..4] == [2, 3, 4, 5]
    ensures Wheel(cards)
  {
    var sv := StraightValues(cards);
    assert sv[0] == 2 && sv[1] == 3 && sv[2] == 4 && sv[3] == 5;
    ScannedAreValues(cards, 2, 5);
    ScannedAreValues(cards, 14, 14);
  }

  /** Five consecutive values, or the wheel, among the cards are always
      reported as a straight. */
  lemma StraightComplete(cards: seq<Card>, t: int)
    requires RunTo(cards, t) || Wheel(cards)
    ensures IsStraight(cards).Match?
  {
    if RunTo(cards, t) {
      RunIsScanned(cards, t);
    } else if StraightScan(StraightValues(cards), 0).None? {
      WheelPassesFallback(cards);
    }
  }

  /** The scan finds a window whenever a run of five values is present. */
  lemma RunIsScanned(cards: seq<Card>, t: int)
    requires RunTo(cards, t)
    ensures StraightScan(StraightValues(cards), 0).Some?
  {
    var sv := StraightValues(cards);
    StraightValuesIncreasing(cards);
    assert t - 4 in sv;
    var k :| 0 <= k < |sv| && sv[k] == t - 4;
    RunPositions(sv, k, t - 4, 5);
  }

  /** Five cards making the ace-to-five wheel are reported as a straight
      whose top value is 5, not 14. */
  lemma WheelReportsFive(cards: seq<Card>)
    requires |cards| == 5 && Wheel(cards)
    ensures IsStraight(cards) == Match([5])
  {
    var sv := StraightValues(cards);
    StraightValuesIncreasing(cards);
    WheelPassesFallback(cards);
    assert |sv| <= 5;
    assert sv[4] == 14;
    assert StraightScan(sv, 1).None?;
  }

  /** The wheel passes the fallback test of `IsStraight`. */
  lemma WheelPassesFallback(cards: seq<Card>)
    requires Wheel(cards)
    ensures 14 in StraightValues(cards) && |StraightValues(cards)| >= 4
    ensures StraightValues(cards)[..4] == [2, 3, 4, 5]
  {
    var sv := StraightValues(cards);
    StraightValuesIncreasing(cards);
    assert 2 in sv;
    RunPositions(sv, 0, 2, 2);
    RunPositions(sv, 0, 2, 3);
    RunPositions(sv, 0, 2, 4);
    assert sv[..4] == [2, 3, 4, 5];
  }

  /** Tie-break value at position `i`, 0 when there is none. */
  function TieBreak(r: HandResult, i: nat): (v: int)
    ensures 0 <= v <= 14
  {
    if i < |r.values| then r.values[i] else 0
  }

  /** The showdown ordering (by category, then by the first, second and
      third tie-break values, a missing one counting as 0) folded into one
      integer: every tie-break value is below 100. */
  function ShowdownKey(r: HandResult): int {
    HandRankValue(r.rank) * 1000000 + TieBreak(r, 0) * 10000 + TieBreak(r, 1) * 100 + TieBreak(r, 2)
  }

  /** `a` is placed ahead of `b` at the showdown: a better category, or the
      same category and a better first, second or third tie-break value,
      each compared only when the previous ones are equal. Values after the
      third are never compared. */
  ghost predicate RanksAhead(a: HandResult, b: HandResult) {
    var ra, rb := HandRankValue(a.rank), HandRankValue(b.rank);
    ra > rb
    || (ra == rb && TieBreak(a, 0) > TieBreak(b, 0))
    || (ra == rb && TieBreak(a, 0) == TieBreak(b, 0) && TieBreak(a, 1) > TieBreak(b, 1))
    || (ra == rb && TieBreak(a, 0) == TieBreak(b, 0) && TieBreak(a, 1) == TieBreak(b, 1)
        && TieBreak(a, 2) > TieBreak(b, 2))
  }

  /** Comparing showdown keys is comparing category and the first three
      tie-break values lexicographically. */
  lemma ShowdownKeyOrder(a: HandResult, b: HandResult)
    ensures ShowdownKey(a) > ShowdownKey(b) <==> RanksAhead(a, b)
    ensures ShowdownKey(a) == ShowdownKey(b) <==>
              a.rank == b.rank && TieBreak(a, 0) == TieBreak(b, 0)
              && TieBreak(a, 1) == TieBreak(b, 1) && TieBreak(a, 2) == TieBreak(b, 2)
  {
    HandRankStrictlyOrdered(a.rank, b.rank);
  }
}
