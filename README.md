# Casino game engines in Dafny

This project models the game logic of a small ASP.NET casino with four parts:

- a Texas Hold'em table run by a SignalR hub;
- a European roulette lobby;
- a single-player blackjack game object;
- the wallet service that holds every player's balance and a log of transactions.

Each part keeps the form it has in the C# code:

- Objects whose fields the code updates in place become Dafny classes: `PokerHub.Lobby`, `Roulette.RouletteLobby`, `Blackjack.BlackjackGame` and `WalletService.Wallet`.
- LINQ expressions and switch expressions become functions, for example the hand evaluator, `CalculatePayout` and the card values.
- The loops of the code become methods with loop invariants. Each such method is proved against a specification function.

Modules:

- `Wrappers` — `Option`, standing in for C# `null` and for evaluations the code abandons with an exception.
- `Numerals` — decimal text both ways: `int.TryParse` as `ParseInt32`, and an integer's `ToString()` as `ShowInt`.
- `Ordering` — LINQ's stable `OrderByDescending` as an insertion sort; `OrderBy` is the same sort on the negated key.
- `PokerModels` — cards, card values, hand categories, game phases and the seat record.
- `PokerDeck` — building the 52-card deck and shuffling it by one random key per card.
- `HandEvaluator` — `GetBestFiveCardHand`, the `Is*` tests, `EvaluateHand` and the showdown ordering.
- `PokerTable` — the seat arithmetic of the hub:
  - one betting action on a seat;
  - blind and turn positions;
  - the turn-passing and dealing loops;
  - the showdown ranking.
- `PokerHub` — class `Lobby`: one poker lobby with its seats, deck, board, pot, pointers, phase, the messages it sends, and the wallet it pays into.
- `Roulette` — payouts, settlement of a spin, the ten-entry history, and class `RouletteLobby`.
- `Blackjack` — card strings, soft-ace scoring, the dealer's drawing rule, settlement with 32-bit `int` arithmetic, and class `BlackjackGame`.
- `WalletService` — class `Wallet`, with accounts as a map and transactions as a sequence.

Modelling choices:

- Money (`decimal` in C#) is an unbounded integer.
- Blackjack's `int` fields are 32-bit: `I32` wraps a result into range, as unchecked C# arithmetic does.
- Randomness is an input:
  - a shuffle takes one sort key per card of the unshuffled deck, as `OrderBy(_ => random.Next())` draws them;
  - a roulette spin takes its result in 0..36.
- The hub's call into the wallet is a call to the modelled `Wallet`, and the lobby keeps that wallet as a field.
- The hub sends SignalR messages. The model records them as a sequence of `Event` values, and only where they carry a decision: errors, game started or ended, turn prompts, winners, disconnections.

Several quirks of the code are modelled as written and stated as lemmas:

- "Best five" is simply the five highest-valued cards (`BestFiveAreHighest`).
- With two players the button posts the big blind, and the other player acts first (`HeadsUpButtonIsBigBlind`).
- A street closes as soon as every seat still able to act has bet the table bet (`StreetCloses`, `AdvanceGame`). The hub's "everyone acted" scan can then never fail (`EqualBetsMeanEveryoneActed`). After the bets are reset every bet is level (`ResetStreetIsComplete`), so the first check of a street closes it (`PlayerAction`).
- An unknown action name is accepted and moves no chips (`Act`), so the game moves on from that seat exactly as after a check (`PlayerAction`).
- A call from a seat whose bet is above the table bet pays a negative amount. This happens to a big blind posted short, below the small blind. `CallAboveTableBetRefunds` shows the case.
- There are no split pots or side pots. The winner is found by name among the seats still in (`Showdown`, `FirstNamed`).
- The hub never takes chips from the wallet. Seat stacks are debited in memory only, the wallet is only credited, and the winner's stack is then reset to the wallet balance (`OnlyCredits`, `NoBalanceFalls`, `Pay`).
- A blackjack player who busts loses even when the dealer busts too (`Judge`).

Where the code behaves in a way a reader might not expect, the model follows the code as written:

- The street-closing condition is the one described above: level bets close the street even when the turn is not back at the last raiser.
- A raise above stack plus bet is capped rather than refused.
- A disconnected player is folded only when the turn reaches them.
- Roulette removes a disconnected player's entry but keeps their balance.

## Model

| member | source | states |
|---|---|---|
| PokerModels.Value | dotnetProject/Models/PokerModels.cs:23-34 | a card's value lies in 2..14; it is 14 exactly for an ace and 10 exactly for a ten |
| PokerModels.ValueMatchesRankOrder | dotnetProject/Models/PokerModels.cs:23-34 | the value of a card is its rank's position in the deck-building rank array plus two, so the 13 ranks have 13 distinct values |
| PokerModels.CardToString | dotnetProject/Models/PokerModels.cs:21 | a card prints as two characters: the rank symbol, then the suit symbol |
| PokerModels.CardToStringInjective | dotnetProject/Models/PokerModels.cs:21 | two cards that print the same are the same card |
| PokerModels.HandRankValue | dotnetProject/Models/PokerModels.cs:71-83 | the numeric value of every hand category lies in 1..10 |
| PokerModels.HandRankStrictlyOrdered | dotnetProject/Models/PokerModels.cs:71-83 | distinct hand categories have distinct numeric values, so the categories are strictly ordered |
| PokerModels.PhaseValue | dotnetProject/Models/PokerModels.cs:52-60 | the numeric value of every game phase lies in 0..5, from Waiting to Showdown |
| PokerModels.NewSeat | dotnetProject/Hubs/PokerHub.cs:56-63 | a newly seated player is active, holds no cards, has bet nothing, is neither folded nor all-in, and keeps the given connection, name, identifier, balance and seat position |
| Ordering.SortDesc | dotnetProject/Hubs/PokerHub.cs:595 | the sort returns a permutation of its input, ordered by descending key |
| Ordering.InsertDescSorted | dotnetProject/Hubs/PokerHub.cs:595 | inserting into a sequence sorted by descending key keeps it sorted |
| Ordering.SortDescMembers | dotnetProject/Hubs/PokerHub.cs:595 | sorting neither adds nor loses an element: a value is in the sorted sequence exactly when it is in the input |
| Ordering.SortDescHeadIsMax | dotnetProject/Hubs/PokerHub.cs:421-427 | the first element after sorting carries a key at least that of any element |
| Ordering.SortDescDistinct | dotnetProject/Hubs/PokerHub.cs:557 | sorting a sequence without repetitions yields one without repetitions |
| PokerDeck.FullDeck | dotnetProject/Hubs/PokerHub.cs:547-556 | the unshuffled deck has 52 cards |
| PokerDeck.FullDeckIndex | dotnetProject/Hubs/PokerHub.cs:547-556 | card `i` of the unshuffled deck has index `i`, and every rank-and-suit card sits at its own index |
| PokerDeck.FullDeckOnce | dotnetProject/Hubs/PokerHub.cs:547-556 | every one of the 52 rank-and-suit cards occurs exactly once in the unshuffled deck |
| PokerDeck.BuildDeck | dotnetProject/Hubs/PokerHub.cs:549-556 | the two nested loops build the unshuffled deck, suit by suit and rank by rank |
| PokerDeck.CreateShuffledDeck | dotnetProject/Hubs/PokerHub.cs:547-558 | the shuffled deck holds each of the 52 cards exactly once, in ascending order of the random keys drawn for them |
| HandEvaluator.Distinct | dotnetProject/Hubs/PokerHub.cs:652 | `Distinct()` keeps exactly the values of its input, each once, and is no longer than its input |
| HandEvaluator.Ascending | dotnetProject/Hubs/PokerHub.cs:602 | `OrderBy(v => v)` is a permutation of the values in ascending order |
| HandEvaluator.Groups | dotnetProject/Hubs/PokerHub.cs:622 | the value groups are the distinct card values, ordered by descending count and then by descending value |
| HandEvaluator.GroupsEmpty | dotnetProject/Hubs/PokerHub.cs:622-623 | there are no value groups exactly when there are no cards, which is when `groups.First()` throws |
| HandEvaluator.GroupsHeadMostFrequent | dotnetProject/Hubs/PokerHub.cs:622 | the first group's value is the most frequent, and the highest among the equally frequent ones |
| HandEvaluator.HeadCount | dotnetProject/Hubs/PokerHub.cs:622-623 | the count of the first group is the largest number of cards sharing a value |
| HandEvaluator.BestFive | dotnetProject/Hubs/PokerHub.cs:593-596 | the best hand is five cards taken from the player's cards (fewer if there are fewer), highest value first |
| HandEvaluator.BestFiveAreHighest | dotnetProject/Hubs/PokerHub.cs:593-596 | the best five and the cards left out together make up all the cards, and no card left out is worth more than a card kept |
| HandEvaluator.DescendingValues | dotnetProject/Hubs/PokerHub.cs:645 | the values reported for a flush or a high card are one per card, exactly the card values, highest first |
| HandEvaluator.AscendingUnique | dotnetProject/Hubs/PokerHub.cs:602 | two ascending sequences with the same elements are equal, so `OrderBy(v => v)` has a single possible result |
| HandEvaluator.RoyalValues | dotnetProject/Hubs/PokerHub.cs:602-603 | the sorted values are exactly 10, J, Q, K, A when the values are those five, each once |
| HandEvaluator.IsRoyalFlush | dotnetProject/Hubs/PokerHub.cs:598-609 | a royal flush is reported exactly when the cards are a flush whose values are 10, jack, queen, king and ace, each once; it reports the single tie-break value 14 |
| HandEvaluator.StraightScan | dotnetProject/Hubs/PokerHub.cs:653-660 | the scan finds a window of five sorted distinct values spanning exactly 4 and reports the window's top value; when it finds none, no such window exists |
| HandEvaluator.IsStraight | dotnetProject/Hubs/PokerHub.cs:649-667 | the straight test never throws, and a straight reports one value |
| HandEvaluator.StraightValuesIncreasing | dotnetProject/Hubs/PokerHub.cs:652 | the values a straight is sought in are the card values, each once, strictly increasing |
| HandEvaluator.StraightSound | dotnetProject/Hubs/PokerHub.cs:649-667 | a reported straight is five consecutive values among the cards ending at the reported value, or the ace-to-five wheel reported as 5 |
| HandEvaluator.ScanFindsRun | dotnetProject/Hubs/PokerHub.cs:653-660 | a window found by the scan is a run of five consecutive card values |
| HandEvaluator.FallbackFindsWheel | dotnetProject/Hubs/PokerHub.cs:661-665 | the ace-low fallback passes only when ace, 2, 3, 4 and 5 are all among the cards |
| HandEvaluator.StraightComplete | dotnetProject/Hubs/PokerHub.cs:649-667 | five consecutive values, or the wheel, among the cards are always reported as a straight |
| HandEvaluator.WheelReportsFive | dotnetProject/Hubs/PokerHub.cs:649-667 | five cards forming the wheel A-2-3-4-5 are reported as a straight to 5, not to the ace |
| HandEvaluator.IsStraightFlush | dotnetProject/Hubs/PokerHub.cs:611-617 | a straight flush is reported exactly when the cards are a flush and a straight, and it reports the straight's value |
| HandEvaluator.IsFourOfKind | dotnetProject/Hubs/PokerHub.cs:619-629 | the test throws exactly on an empty hand, and a match reports two values |
| HandEvaluator.FourOfKindMeaning | dotnetProject/Hubs/PokerHub.cs:619-629 | four of a kind is reported exactly when the most frequent value occurs four times; its first value is that quadrupled value (the kicker is stated by `FourOfKindKicker`) |
| HandEvaluator.FourAndOne | dotnetProject/Hubs/PokerHub.cs:619-629 | five cards with four of one value hold a fifth card of another value, which occurs once, and no third value |
| HandEvaluator.FourOfKindKicker | dotnetProject/Hubs/PokerHub.cs:619-629 | on five cards, four of a kind reports the quadrupled value (four cards) and then the kicker, a different value held by the one remaining card |
| HandEvaluator.IsFullHouse | dotnetProject/Hubs/PokerHub.cs:631-641 | the full-house test never throws, and a match reports two values (their meaning is stated by `FullHouseMeaning`) |
| HandEvaluator.TwoGroups | dotnetProject/Hubs/PokerHub.cs:631-641 | cards of exactly two different values form exactly two value groups, those two values |
| HandEvaluator.FullHouseMeaning | dotnetProject/Hubs/PokerHub.cs:631-641 | a full house is reported exactly when the cards are three of one value and two of another and nothing else; it reports the tripled value, then the paired one |
| HandEvaluator.IsThreeOfKind | dotnetProject/Hubs/PokerHub.cs:669-680 | the test throws exactly on an empty hand, and a match reports at least one value; what the values mean is stated by `ThreeOfKindMeaning` and `ThreeOfKindKickers` |
| HandEvaluator.ThreeOfKindMeaning | dotnetProject/Hubs/PokerHub.cs:669-680 | three of a kind is reported exactly when the most frequent value occurs three times; its first value is that tripled value |
| HandEvaluator.GroupsTail | dotnetProject/Hubs/PokerHub.cs:672-676 | the value groups after the first are exactly the card values other than the first group's |
| HandEvaluator.ThreeOfKindKickers | dotnetProject/Hubs/PokerHub.cs:672-676 | on five cards, three of a kind reports the value held by three cards, then every other value among the cards once each, strictly descending (7,7,7,K,2 gives [7, 13, 2]) |
| HandEvaluator.Pairs | dotnetProject/Hubs/PokerHub.cs:685 | a value is listed exactly when it occurs exactly twice among the cards, and the list is strictly descending, so each paired value appears once |
| HandEvaluator.IsTwoPair | dotnetProject/Hubs/PokerHub.cs:682-694 | a two-pair match reports three values (their meaning is stated by `TwoPairValues`) |
| HandEvaluator.TwoPairsListed | dotnetProject/Hubs/PokerHub.cs:685-686 | at least two values are listed as pairs exactly when two different values occur twice each |
| HandEvaluator.TwoPairFound | dotnetProject/Hubs/PokerHub.cs:682-694 | two pair is tested (it matches, or its kicker lookup throws) exactly when two different values occur twice each |
| HandEvaluator.TwoPairValues | dotnetProject/Hubs/PokerHub.cs:682-694 | a reported two pair gives the highest paired value, then a lower paired value above every other pair, then the highest value among the cards outside both pairs, which some such card holds |
| HandEvaluator.WithoutEmptyCount | dotnetProject/Hubs/PokerHub.cs:689-690 | the kicker lookup finds no card, and so throws, only when every card belongs to one of the two pairs |
| HandEvaluator.IsOnePair | dotnetProject/Hubs/PokerHub.cs:696-707 | the test throws exactly on an empty hand, and a match reports at least one value; what the values mean is stated by `OnePairMeaning` and `OnePairKickers` |
| HandEvaluator.OnePairMeaning | dotnetProject/Hubs/PokerHub.cs:696-707 | one pair is reported exactly when the most frequent value occurs twice; its first value is the paired value |
| HandEvaluator.SortedDistinctValues | dotnetProject/Hubs/PokerHub.cs:703 | sorting distinct values highest first keeps exactly those values and leaves them strictly descending |
| HandEvaluator.OnePairKickers | dotnetProject/Hubs/PokerHub.cs:699-704 | one pair reports the value held by two cards, then every other value among the cards once each, strictly descending (9,9,A,5,3 gives [9, 14, 5, 3]) |
| HandEvaluator.CountsWithin | dotnetProject/Hubs/PokerHub.cs:619-707 | three different values together occur on at most as many cards as there are |
| HandEvaluator.DistinctWithin | dotnetProject/Hubs/PokerHub.cs:622 | a list of distinct values drawn from a set is no longer than the set is large |
| HandEvaluator.CategoryTest | dotnetProject/Hubs/PokerHub.cs:565-590 | a matching test on a non-empty hand reports at least one tie-break value; flush matches on the flush test, and high card always matches |
| HandEvaluator.FirstMatch | dotnetProject/Hubs/PokerHub.cs:565-590 | a result is a category of the order whose test matched, with that test's values |
| HandEvaluator.FirstMatchStops | dotnetProject/Hubs/PokerHub.cs:565-590 | the chain stops at the first test that does not answer no-match: it reports that category when the test matched, and nothing exactly when every test answered no-match or the first decisive test threw |
| HandEvaluator.FirstMatchHighest | dotnetProject/Hubs/PokerHub.cs:565-590 | in the order royal flush to high card, the category reported has a matching test and every higher category answered no-match |
| HandEvaluator.FaultEndsFirstMatch | dotnetProject/Hubs/PokerHub.cs:565-590 | a test that throws after every higher category answered no-match ends the chain with no result |
| HandEvaluator.FirstMatchNone | dotnetProject/Hubs/PokerHub.cs:565-590 | when high card always matches, the chain has no result exactly when some test throws after every higher category answered no-match |
| HandEvaluator.EmptyHandUnclassified | dotnetProject/Hubs/PokerHub.cs:565-569 | with no cards the four-of-a-kind test is the first decisive one and throws, so there is no result |
| HandEvaluator.CategoryTestFaults | dotnetProject/Hubs/PokerHub.cs:565-590 | only the four-of-a-kind, three-of-a-kind, two-pair and one-pair tests can throw, and high card always matches |
| HandEvaluator.TestOrderPosition | dotnetProject/Hubs/PokerHub.cs:565-590 | the chain tries the categories from the highest numeric value down: category `h` is at position `10 - value(h)` |
| HandEvaluator.ClassifyIsHighestMatch | dotnetProject/Hubs/PokerHub.cs:565-590 | the category reported is the highest one whose test matches, with that test's tie-break values; every higher category answered no-match |
| HandEvaluator.ClassifyNoneMeansFault | dotnetProject/Hubs/PokerHub.cs:565-590 | no category is reported exactly when some test throws after every higher category answered no-match |
| HandEvaluator.Classify | dotnetProject/Hubs/PokerHub.cs:560-590 | the result carries the judged cards and at least one tie-break value, and an empty hand has no result (the test order is stated by `ClassifyIsHighestMatch` and `ClassifyNoneMeansFault`) |
| HandEvaluator.FiveCardsNeverFault | dotnetProject/Hubs/PokerHub.cs:619-707 | on five cards no category test throws |
| HandEvaluator.ClassifyFive | dotnetProject/Hubs/PokerHub.cs:565-590 | five cards always receive a category: no test throws and high card always matches |
| HandEvaluator.EvaluateHand | dotnetProject/Hubs/PokerHub.cs:560-591 | the evaluation judges the best five of hole plus community cards; it always succeeds on at least five cards and fails on none |
| HandEvaluator.TieBreak | dotnetProject/Hubs/PokerHub.cs:421-424 | a tie-break position holds a value in 0..14, with 0 standing for a missing value |
| HandEvaluator.ShowdownKeyOrder | dotnetProject/Hubs/PokerHub.cs:421-425 | the showdown key orders results lexicographically, by category and then by the first three tie-break values, and ties exactly when all four agree |
| PokerTable.UnfoldedCount | dotnetProject/Hubs/PokerHub.cs:260-261 | the number of seats still in the hand is at most the number of seats, and zero exactly when all have folded |
| PokerTable.ToActCount | dotnetProject/Hubs/PokerHub.cs:277 | the seats able to act are among those still in, and there are none exactly when every seat is folded or all-in |
| PokerTable.FirstUnfolded | dotnetProject/Hubs/PokerHub.cs:260-263 | the lone survivor is the first seat not folded |
| PokerTable.SoleSurvivor | dotnetProject/Hubs/PokerHub.cs:260-263 | with exactly one seat still in the hand, any unfolded seat is that first unfolded seat |
| PokerTable.Solvent | dotnetProject/Hubs/PokerHub.cs:109 | the seats kept at round start are exactly those with a positive balance |
| PokerTable.Lower | dotnetProject/Hubs/PokerHub.cs:194 | lower-casing keeps the length, leaves no upper-case ASCII letter and keeps every other character |
| PokerTable.LowerIdempotent | dotnetProject/Hubs/PokerHub.cs:194 | lower-casing a lower-cased name changes nothing |
| PokerTable.ParseAction | dotnetProject/Hubs/PokerHub.cs:194-247 | the action is fold, check, call, raise or all-in exactly when the name equals "fold", "check", "call", "raise" or "allin" ignoring case; any other name is unknown |
| PokerTable.ParseActionIgnoresCase | dotnetProject/Hubs/PokerHub.cs:194 | names that differ only in letter case select the same action |
| PokerTable.Act | dotnetProject/Hubs/PokerHub.cs:194-249 | a check is refused exactly when the seat is behind the table bet, and a raise exactly when the capped amount does not exceed it. A call pays the smaller of what the seat is behind and its stack; an accepted raise sets the bet to the smaller of the amount asked and stack plus bet, and counts as a raise; all-in pays the whole stack. Chips move only between the stack and the bet; only a fold folds; a stack emptied by a call, raise or all-in is all-in; fold, check and unknown names move nothing; a raise or all-in above the table bet sets the table bet; no stack goes negative |
| PokerTable.CallAboveTableBetRefunds | dotnetProject/Hubs/PokerHub.cs:210-214 | a call from a seat whose bet exceeds the table bet pays a negative amount and brings the bet down to the table bet |
| PokerTable.CallMatchesOrAllIn | dotnetProject/Hubs/PokerHub.cs:210-216 | a call is always accepted. A stack that covers the call pays exactly the difference and brings the bet level with the table bet; a stack that does not pays all it has, stays below the table bet and is all-in |
| PokerTable.SmallBlindSeat | dotnetProject/Hubs/PokerHub.cs:161 | the small blind sits at a seat of the table |
| PokerTable.BigBlindSeat | dotnetProject/Hubs/PokerHub.cs:162 | the big blind sits at a seat of the table |
| PokerTable.FirstToActSeat | dotnetProject/Hubs/PokerHub.cs:149 | the first player to act pre-flop sits at a seat of the table |
| PokerTable.BlindsFollowButton | dotnetProject/Hubs/PokerHub.cs:149-162 | the small blind, big blind and first actor are the seats one, two and three places after the button, modulo the number of seats |
| PokerTable.HeadsUpButtonIsBigBlind | dotnetProject/Hubs/PokerHub.cs:149-162 | with two players the button posts the big blind, and the other player posts the small blind and acts first |
| PokerTable.BlindsDistinct | dotnetProject/Hubs/PokerHub.cs:161-162 | the two blinds are different seats, and from three players on neither is the button |
| PokerTable.Posted | dotnetProject/Hubs/PokerHub.cs:156-180 | posting the blinds keeps the number of seats and the same player, connection and presence in every seat, and every seat's cards and fold flag |
| PokerTable.PostedBlinds | dotnetProject/Hubs/PokerHub.cs:161-180 | each blind seat bets its blind capped by its stack, and its stack falls by that much; neither blind exceeds 10 or 20; no stack goes negative; a stack the blind empties is all-in |
| PokerTable.PostedOthersUntouched | dotnetProject/Hubs/PokerHub.cs:156-180 | posting the blinds leaves every other seat unchanged |
| PokerTable.PostedChips | dotnetProject/Hubs/PokerHub.cs:167-176 | the chips posted as blinds are exactly the chips that left the stacks |
| PokerTable.NextTurn | dotnetProject/Hubs/PokerHub.cs:268-274 | the seat the turn passes to is a seat of the table |
| PokerTable.WalkFrom | dotnetProject/Hubs/PokerHub.cs:268-274 | the walk from any seat ends at a seat of the table |
| PokerTable.MoveTurn | dotnetProject/Hubs/PokerHub.cs:268-274 | the loop computes `NextTurn`: the turn moves on at least one seat and at most one lap, stops at a seat that can act or back at its start when no other seat can act, and every seat it passes is folded or all-in |
| PokerTable.FirstActorFrom | dotnetProject/Hubs/PokerHub.cs:375-380 | the loop computes `FirstActor`: the first seat at or after the given one that can act, every seat before it being folded or all-in; the walk ends because such a seat exists |
| PokerTable.ActorWalk | dotnetProject/Hubs/PokerHub.cs:375-380 | a walk of the first-actor loop, bounded by a number of steps, ends at a seat of the table |
| PokerTable.FirstActor | dotnetProject/Hubs/PokerHub.cs:374-380 | the first seat to act on a street is a seat of the table |
| PokerTable.AfterButton | dotnetProject/Hubs/PokerHub.cs:374 | the search for the first seat to act starts at a seat of the table, the one after the button |
| PokerTable.ActorWalkFinds | dotnetProject/Hubs/PokerHub.cs:375-380 | a walk started with every seat before it skipped, and with enough steps left, ends at the first seat that can act |
| PokerTable.FirstActorFirst | dotnetProject/Hubs/PokerHub.cs:375-380 | when some seat can act, `FirstActor` is a seat that can act, and every seat between the start and it is folded or all-in |
| PokerTable.FirstActorUnique | dotnetProject/Hubs/PokerHub.cs:375-380 | at most one seat is the first seat that can act from a given start |
| PokerTable.SameSkipsSameWalk | dotnetProject/Hubs/PokerHub.cs:375-380 | the walk looks only at which seats are folded or all-in, not at bets or stacks |
| PokerTable.SameSkipsSameFirstActor | dotnetProject/Hubs/PokerHub.cs:321-380 | clearing the bets does not change the first seat to act |
| PokerTable.EveryoneActed | dotnetProject/Hubs/PokerHub.cs:293-297 | the scan reports true exactly when no seat able to act is behind the table bet |
| PokerTable.EqualBetsMeanEveryoneActed | dotnetProject/Hubs/PokerHub.cs:283-302 | when all bets are level the scan cannot fail, so its negative branch is unreachable |
| PokerTable.ResetStreetIsComplete | dotnetProject/Hubs/PokerHub.cs:321-327 | after the street reset every bet is level, so the next action that passes the turn closes the street |
| PokerTable.ClearSeats | dotnetProject/Hubs/PokerHub.cs:125-131 | the round-start loop clears every seat's hand, bet, fold and all-in flags and keeps the stacks |
| PokerTable.ClearBets | dotnetProject/Hubs/PokerHub.cs:322-325 | the street-end loop zeroes every bet and keeps every fold and all-in flag |
| PokerTable.DealHoleCards | dotnetProject/Hubs/PokerHub.cs:140-146 | seat `i` is dealt deck cards `2i` and `2i+1`, the deck loses exactly its first `2n` cards, and stacks are untouched |
| PokerTable.WithHoleCards | dotnetProject/Hubs/PokerHub.cs:140-146 | dealing keeps the same players in the same seats, and seat `i` gets deck cards `2i` and `2i+1` after the cards it held |
| PokerTable.DealtAfterBlinds | dotnetProject/Hubs/PokerHub.cs:137-146 | after the blinds and the deal every seat of a fresh round holds exactly two cards and is still in the hand |
| PokerTable.RevealRest | dotnetProject/Hubs/PokerHub.cs:392-400 | the loop ends with five community cards or an empty deck. A full board or an empty deck deals nothing, and with enough cards the board is completed by burn-and-turn from the front of the deck |
| PokerTable.ContendersAreSeats | dotnetProject/Hubs/PokerHub.cs:411-419 | there is one evaluated hand per seat still in the hand, each named after such a seat |
| PokerTable.ContendersDefined | dotnetProject/Hubs/PokerHub.cs:414-419 | when every seat still in sees at least five cards, every hand is evaluated |
| PokerTable.EvaluateContenders | dotnetProject/Hubs/PokerHub.cs:411-419 | the evaluation loop computes the contenders' results in seat order, failing when one evaluation fails |
| PokerTable.WinnerRanksFirst | dotnetProject/Hubs/PokerHub.cs:421-427 | the first entry of the showdown ranking is one of the contenders, and no contender's hand ranks ahead of it |
| PokerTable.FirstNamed | dotnetProject/Hubs/PokerHub.cs:428 | the winner's seat is the first unfolded seat with the winning name, and none exists exactly when no unfolded seat has that name |
| PokerTable.FindConnection | dotnetProject/Hubs/PokerHub.cs:191 | the acting player is the first seat holding the connection, and none exists exactly when no seat holds it |
| PokerTable.FindPlayer | dotnetProject/Hubs/PokerHub.cs:30-31 | a returning player is the first seat whose identifier matches, ignoring ASCII letter case, and none exists exactly when no seat matches |
| PokerTable.FindShowdownWinner | dotnetProject/Hubs/PokerHub.cs:411-428 | the showdown loop yields the name on the best-ranked evaluated hand |
| PokerTable.WinnerHasSeat | dotnetProject/Hubs/PokerHub.cs:421-428 | a showdown winner names an unfolded seat whose hand no contender ranks ahead of |
| PokerHub.Lobby.constructor | dotnetProject/Hubs/PokerHub.cs:24-28 | a new lobby belongs to its creator and starts Waiting, with no seats, cards, pot or table bet, and with last raiser -1 |
| PokerHub.Lobby.Join | dotnetProject/Hubs/PokerHub.cs:19-79 | a known identifier (any case) rebinds that seat's connection and name, marks it present and syncs its stack from the wallet. A new player gets seat number `n` with the wallet balance, unless seven seats are taken, which is an error with nothing changed. A join into a game under way is told that it started |
| PokerHub.Lobby.Disconnect | dotnetProject/Hubs/PokerHub.cs:709-721 | the first seat holding the connection is marked absent and its leaving announced; an unknown connection changes nothing |
| PokerHub.Lobby.StartPokerGame | dotnetProject/Hubs/PokerHub.cs:81-100 | anybody but the creator gets a not-host error, and the creator with fewer than two seats a too-few-players error; then seats, phase, deck, board, pot, table bet, pointers and wallet are unchanged. Otherwise the lobby is started and told so, and when two or more seats have chips a round begins with those players in the same order. Any turn prompt sent goes, last, to the present seat whose turn it now is |
| PokerHub.Lobby.StartNewRound | dotnetProject/Hubs/PokerHub.cs:102-154 | seats without chips leave. With fewer than two left the game ends and nothing else changes: deck, board, pot, phase, table bet, button, turn, last raiser and wallet. Otherwise the remaining players keep their order, the button moves one seat on, a pre-flop round begins, and any turn prompt goes, last, to the present seat whose turn it is |
| PokerHub.Lobby.BeginRound | dotnetProject/Hubs/PokerHub.cs:117-153 | a round on two or more seats keeps the same players in the same seats, moves the button one seat on, reaches at least the pre-flop, prompts only the present seat whose turn it is, and keeps the wallet credit-only |
| PokerHub.Lobby.PrepareRound | dotnetProject/Hubs/PokerHub.cs:117-150 | the round set-up moves the button, resets the table, posts the blinds and deals, keeping the same players in the same seats. The deck shrinks by `2n`, the first actor and last raiser follow the button, nobody is folded, and the chips are conserved: pot plus stacks equals the stacks before |
| PokerHub.Lobby.MoveButton | dotnetProject/Hubs/PokerHub.cs:134 | the button moves one seat on, modulo the number of seats |
| PokerHub.Lobby.ResetTable | dotnetProject/Hubs/PokerHub.cs:117-131 | the table gets a fresh deck with each card once in key order, an empty board, an empty pot and the pre-flop phase; every seat is cleared and the stacks are kept |
| PokerHub.Lobby.OpenBetting | dotnetProject/Hubs/PokerHub.cs:136-150 | the blinds are posted and the hole cards dealt; the pot rises by the blinds paid, the table bet is the big blind paid, the first actor and last raiser follow the button, and chips are conserved |
| PokerHub.Lobby.PostBlinds | dotnetProject/Hubs/PokerHub.cs:156-184 | the two blinds, each capped by its stack, move from the stacks into the pot; the table bet is the big blind paid; pot plus stacks is unchanged |
| PokerHub.Lobby.DealHands | dotnetProject/Hubs/PokerHub.cs:139-146 | every seat is dealt two cards from the front of the deck, which loses `2n` cards |
| PokerHub.Lobby.ApplyAction | dotnetProject/Hubs/PokerHub.cs:194-249 | the acting seat's move is `Act`. A refused move changes nothing; an accepted one replaces the seat, adds what was paid to the pot, sets the table bet, and records the last raiser on a raise. Pot plus stacks is unchanged |
| PokerHub.Lobby.PlayerAction | dotnetProject/Hubs/PokerHub.cs:186-252 | an action from anybody but the player whose turn it is changes nothing and sends nothing. A refused check or raise sends the error and changes nothing else. An accepted move adds what it paid to the pot; a lone survivor then wins; a street that closes (`StreetCloses`) moves the phase on; otherwise the turn passes to `NextTurn`, which a present seat is prompted for with seats, phase, table bet and last raiser as the move left them, and an absent seat is folded. The phase never goes back and the wallet is only credited |
| PokerHub.Lobby.AdvanceGame | dotnetProject/Hubs/PokerHub.cs:254-314 | a lone seat left in the hand wins the pot through the wallet. Otherwise, with `next` the seat the turn passes to: if the street closes (`StreetCloses`), every bet, the table bet and the last raiser are cleared, and on a betting street the phase moves forward; if not and `next` is present, only the turn changes and `next` is prompted; if not and `next` is absent, it is folded. The phase never goes back, no fold is undone, cleared bets stay cleared, any prompt goes to the seat whose turn it is, and the wallet is only credited |
| PokerHub.Lobby.PassTurn | dotnetProject/Hubs/PokerHub.cs:267-274 | the turn moves on to `NextTurn`: the next seat that can act, or back to its start when no other seat can act |
| PokerHub.Lobby.AdvancePhase | dotnetProject/Hubs/PokerHub.cs:316-384 | every bet and the table bet end at 0 and nobody is the last raiser; a betting street always moves strictly forward; with at most one seat able to act, or after the river, the hand goes to the showdown; any prompt goes to the present seat whose turn it is |
| PokerHub.Lobby.NextStreet | dotnetProject/Hubs/PokerHub.cs:340-383 | after the river comes the showdown. From the pre-flop, flop or turn, with `k` the first seat after the button that can act (`FirstActor`): if `k` is present, one card is burnt, three (flop) or one (turn, river) are turned from the front of the deck, the phase moves one step on, the seats are kept and `k` alone is prompted; if `k` is absent, it is folded. Cleared bets stay cleared; any prompt goes to the present seat whose turn it is |
| PokerHub.Lobby.OpenStreet | dotnetProject/Hubs/PokerHub.cs:374-383 | with `k` the first seat after the button that can act (`FirstActor`): a present `k` gets the turn and alone is prompted, and nothing else changes; an absent `k` is folded. Cleared bets stay cleared, the seats are kept, the wallet is only credited and the phase never moves back |
| PokerHub.Lobby.ResetBets | dotnetProject/Hubs/PokerHub.cs:321-327 | every bet and the table bet become 0 and the last raiser -1; the fold and all-in flags are kept |
| PokerHub.Lobby.DealStreet | dotnetProject/Hubs/PokerHub.cs:340-367 | one card is burnt and three (flop) or one (turn, river) are turned from the front of the deck; the phase moves one step on and the board has 3, 4 or 5 cards |
| PokerHub.Lobby.RevealAllCards | dotnetProject/Hubs/PokerHub.cs:386-403 | with enough cards in the deck the board is completed by burn-and-turn from the front of the deck, which loses exactly those cards; from a betting street the board ends with five cards; the hand ends in the showdown phase, every bet is kept and nobody is prompted |
| PokerHub.Lobby.Showdown | dotnetProject/Hubs/PokerHub.cs:405-459 | the pot is credited to the wallet of the first unfolded seat named like the best hand, that seat's stack is reset to its wallet balance, and the result is announced; if no hand can be evaluated nothing is paid; every bet is kept; nobody is prompted |
| PokerHub.Lobby.AwardPot | dotnetProject/Hubs/PokerHub.cs:427-442 | the winner's wallet is credited the pot and the showdown result is announced |
| PokerHub.Lobby.EndRound | dotnetProject/Hubs/PokerHub.cs:461-488 | the seat left in the hand has the pot credited to its wallet, its stack reset to the wallet balance, and the win announced |
| PokerHub.Lobby.Pay | dotnetProject/Hubs/PokerHub.cs:466-476 | the wallet credits the pot (refused when it is not positive or the player is unknown) and the seat's stack becomes the wallet balance |
| PokerHub.Lobby.NotifyCurrentPlayer | dotnetProject/Hubs/PokerHub.cs:523-545 | a present player whose turn it is is sent `YourTurn` and nothing else changes. An absent one is folded, and no `YourTurn` sent afterwards goes to their seat; any prompt sent goes, last, to the present seat whose turn it then is; cleared bets stay cleared |
| PokerHub.Lobby.FoldCurrent | dotnetProject/Hubs/PokerHub.cs:531-535 | the seat whose turn it is folds, and one seat fewer is in the hand |
| Numerals.ParseInt32 | dotnetProject/Hubs/RouletteHub.cs:175 | a parsed number lies in the range of `int` |
| Numerals.ParseShow | dotnetProject/Hubs/RouletteHub.cs:175 | every `int` written in decimal is read back as itself |
| Numerals.ParseSkipsLeadingWhite | dotnetProject/Hubs/RouletteHub.cs:175 | white space in front of a number does not change how it parses |
| Numerals.ParseSkipsTrailingWhite | dotnetProject/Hubs/RouletteHub.cs:175 | white space after a number does not change how it parses |
| Numerals.NatOfDigits | dotnetProject/Hubs/PokerHub.cs:435 | the decimal digits of a number read back as the number |
| Roulette.CalculatePayout | dotnetProject/Hubs/RouletteHub.cs:161-224 | a losing bet pays 0; a winning bet pays amount times the odds of its type (36, 2 or 3); the payout is positive exactly for a winning bet of positive amount |
| Roulette.WinnerHasOdds | dotnetProject/Hubs/RouletteHub.cs:163-169 | only bet types with positive odds can win, so an unknown type never pays |
| Roulette.ZeroLosesButSingleZero | dotnetProject/Hubs/RouletteHub.cs:171-221 | on 0 every bet loses except a Single whose value parses as 0 |
| Roulette.EvenMoneyComplementary | dotnetProject/Hubs/RouletteHub.cs:180-203 | on 1..36 exactly one of Red and Black, of Odd and Even, and of Low and High wins |
| Roulette.DozenWins | dotnetProject/Hubs/RouletteHub.cs:204-212 | a Dozen bet wins exactly when its value parses as `d` in 1..3 and the result lies in 12(d-1)+1..12d |
| Roulette.ColumnsAreResidues | dotnetProject/Hubs/RouletteHub.cs:16-18 | columns 1, 2 and 3 hold the numbers of 1..36 that leave remainder 1, 2 and 0 when divided by 3 |
| Roulette.ColumnWins | dotnetProject/Hubs/RouletteHub.cs:213-221 | a Column bet wins exactly when its value parses as `k` in 1..3 and the result is a number of 1..36 with remainder `k mod 3` |
| Roulette.UnreadableNeverWins | dotnetProject/Hubs/RouletteHub.cs:173-221 | a Single, Dozen or Column bet whose value does not parse, and a bet of unknown type, pays nothing |
| Roulette.Winnings | dotnetProject/Hubs/RouletteHub.cs:112-119 | a connection's winnings from a spin are never negative |
| Roulette.Settle | dotnetProject/Hubs/RouletteHub.cs:110-121 | settling a spin keeps the set of connections with a balance |
| Roulette.Credit | dotnetProject/Hubs/RouletteHub.cs:114-118 | crediting one bet's payout keeps the set of connections with a balance |
| Roulette.SettleCredits | dotnetProject/Hubs/RouletteHub.cs:110-121 | after the spin every connection's balance is its old balance plus exactly the payouts of its own bets |
| Roulette.NoBetNoWinnings | dotnetProject/Hubs/RouletteHub.cs:112-119 | a connection without a pending bet collects nothing, so its balance is unchanged |
| Roulette.Recorded | dotnetProject/Hubs/RouletteHub.cs:123-124 | the history after a spin starts with the new result, holds at most ten results, and continues with the previous ones in order |
| Roulette.RouletteLobby.constructor | dotnetProject/Hubs/RouletteHub.cs:30-37 | a new lobby belongs to its creator and has no players, balances, history or bets |
| Roulette.RouletteLobby.JoinLobby | dotnetProject/Hubs/RouletteHub.cs:26-56 | a new connection is added with its name and a balance of 5000; joining again changes nothing, so a balance is seeded exactly once |
| Roulette.RouletteLobby.PlaceBet | dotnetProject/Hubs/RouletteHub.cs:76-103 | a bet above the balance is rejected with nothing changed; otherwise the balance falls by exactly the amount and exactly that bet is appended. A connection without a balance makes the hub fail, with nothing changed |
| Roulette.RouletteLobby.SpinWheel | dotnetProject/Hubs/RouletteHub.cs:105-132 | the balances become the settlement of the pending bets on the result, the pending bets are cleared, and the result is recorded in the history |
| Roulette.RouletteLobby.CreditPayouts | dotnetProject/Hubs/RouletteHub.cs:110-121 | the settlement loop credits each positive payout to its bet's connection, giving exactly the settled balances |
| Roulette.RouletteLobby.RecordResult | dotnetProject/Hubs/RouletteHub.cs:123-124 | inserting at the front and dropping the eleventh entry gives the recorded history |
| Roulette.RouletteLobby.Disconnect | dotnetProject/Hubs/RouletteHub.cs:144-159 | the first player entry with the connection is removed, and nothing else; an unknown connection changes nothing |
| Blackjack.I32 | dotnetProject/Models/BlackjackGame.cs:12-13 | a value already in the range of `int` is unchanged by 32-bit wrapping |
| Blackjack.WrapAdd | dotnetProject/Models/BlackjackGame.cs:144 | wrapping an intermediate result does not change a wrapped sum |
| Blackjack.FreshDeck | dotnetProject/Models/BlackjackGame.cs:34-44 | the unshuffled deck has 52 cards |
| Blackjack.FreshDeckDistinct | dotnetProject/Models/BlackjackGame.cs:34-44 | the 52 rank-and-suit strings of the unshuffled deck are pairwise distinct |
| Blackjack.FreshDeckCards | dotnetProject/Models/BlackjackGame.cs:34-44 | every string of the unshuffled deck is a well-formed card: the rank-and-suit string at its own index in the deck |
| Blackjack.ShuffledDeck | dotnetProject/Models/BlackjackGame.cs:32-49 | a shuffled deck holds 52 pairwise distinct card strings, all of the unshuffled deck, in ascending order of their random keys |
| Blackjack.Draw | dotnetProject/Models/BlackjackGame.cs:51-61 | a draw from a non-empty deck takes its front card and leaves the rest |
| Blackjack.DrawIsCard | dotnetProject/Models/BlackjackGame.cs:51-61 | a draw never fails: it yields a card, and an empty deck is refilled first, leaving 51 cards |
| Blackjack.Points | dotnetProject/Models/BlackjackGame.cs:104-112 | a card never adds a negative number of points to a hand |
| Blackjack.AcesInTotal | dotnetProject/Models/BlackjackGame.cs:102-113 | every ace adds 11 to the running total, so the total with aces as 1 is never negative |
| Blackjack.SoftenIsBest | dotnetProject/Models/BlackjackGame.cs:116-120 | the ace loop turns some number of aces from 11 to 1 and stops at 21 or below, or when every ace is turned; no fewer turns reach 21 or below |
| Blackjack.ScoreIsBest | dotnetProject/Models/BlackjackGame.cs:97-123 | the score lies between the all-aces-low and the all-aces-high totals; it is at most 21 unless every ace counts 1; it is the largest ace-choice total that does not exceed 21 |
| Blackjack.CardCounts | dotnetProject/Models/BlackjackGame.cs:16-21 | every card of the deck adds at least one point with aces counted 1 |
| Blackjack.RankValue | dotnetProject/Models/BlackjackGame.cs:16-21 | every rank has a value: 2 to 10 for numbers and faces, 11 for the ace, which is the only "A" |
| Blackjack.DealerDrawn | dotnetProject/Models/BlackjackGame.cs:88-95 | the dealer's drawing leaves only card strings in the deck (and terminates, as every card raises the hard total) |
| Blackjack.DealerStops | dotnetProject/Models/BlackjackGame.cs:90-93 | the dealer ends on 17 or more, keeps the cards held before, and drew every further card while the hand scored below 17 |
| Blackjack.Judge | dotnetProject/Models/BlackjackGame.cs:136-163 | a player over 21 loses even when the dealer busts; otherwise a dealer over 21 or a higher player score wins, a lower one loses, and equal scores push |
| Blackjack.RoundNetChange | dotnetProject/Models/BlackjackGame.cs:66 | taking the bet at round start and settling at the end change the balance by +bet on a win, 0 on a push and -bet on a loss, in 32-bit arithmetic |
| Blackjack.BlackjackGame.constructor | dotnetProject/Models/BlackjackGame.cs:23-30 | a new game has balance 5000, a bet of 0, a shuffled deck, empty hands and the round open |
| Blackjack.BlackjackGame.ResetDeck | dotnetProject/Models/BlackjackGame.cs:32-49 | the deck becomes the unshuffled deck ordered by the random keys, so 52 distinct card strings |
| Blackjack.BlackjackGame.BuildDeck | dotnetProject/Models/BlackjackGame.cs:34-44 | the nested loops build the unshuffled deck, suit by suit and rank by rank |
| Blackjack.BlackjackGame.DrawCard | dotnetProject/Models/BlackjackGame.cs:51-61 | the card drawn and the deck left are those of `Draw`, and the card is a card string |
| Blackjack.BlackjackGame.CalculateScore | dotnetProject/Models/BlackjackGame.cs:97-123 | the two loops compute the hand's score, the best total that does not exceed 21 where one exists |
| Blackjack.BlackjackGame.StartNewRound | dotnetProject/Models/BlackjackGame.cs:63-77 | the bet leaves the balance (wrapping at 32 bits) and becomes the current bet; the round is open; the player holds the first two cards of a fresh shuffle, the dealer the next two, and 48 remain |
| Blackjack.BlackjackGame.ClearHands | dotnetProject/Models/BlackjackGame.cs:69-70 | both hands are emptied |
| Blackjack.BlackjackGame.DealOpening | dotnetProject/Models/BlackjackGame.cs:73-76 | from a fresh shuffle the player receives cards 1 and 2, the dealer cards 3 and 4 |
| Blackjack.BlackjackGame.PlayerHit | dotnetProject/Models/BlackjackGame.cs:79-86 | the player's hand grows by exactly the drawn card, and the round ends exactly when it was over already or the new score exceeds 21 |
| Blackjack.BlackjackGame.DealerPlay | dotnetProject/Models/BlackjackGame.cs:88-95 | the dealer's hand and deck become those of the drawing rule, and the round is over |
| Blackjack.BlackjackGame.DealerDraws | dotnetProject/Models/BlackjackGame.cs:90-93 | the drawing loop yields exactly the dealer's hand and deck of the drawing rule |
| Blackjack.BlackjackGame.GetResult | dotnetProject/Models/BlackjackGame.cs:125-164 | the message is that of the outcome of the two scores, and the balance grows (in 32-bit arithmetic) by twice the bet on a win, the bet on a push and nothing on a loss |
| WalletService.TransactionsOf | dotnetProject/Services/WalletService.cs:164-166 | the history of a player is exactly the logged transactions with that player's key |
| WalletService.Take | dotnetProject/Services/WalletService.cs:167 | `Take(count)` keeps the first `count` entries, none for a count of 0 or less, all when there are fewer |
| WalletService.Credit | dotnetProject/Services/WalletService.cs:89 | changing a balance by `delta` changes that player's balance by exactly `delta`, keeps their key and name, and leaves every other account unchanged |
| WalletService.Record | dotnetProject/Services/WalletService.cs:93-102 | a logged change belongs to the player's key and records before plus change equals after |
| WalletService.ApplyChangePreservesValid | dotnetProject/Services/WalletService.cs:88-105 | logging a consistent record of a change and applying that change keeps the ledger consistent: distinct keys, no negative balance, each balance 5000 plus its logged changes |
| WalletService.Wallet.constructor | dotnetProject/Services/WalletService.cs:22-26 | a new wallet has no accounts and no transactions, and is consistent |
| WalletService.Wallet.GetBalance | dotnetProject/Services/WalletService.cs:63-69 | the balance of a known player, 0 for an unknown one, never negative |
| WalletService.Wallet.HasSufficientBalance | dotnetProject/Services/WalletService.cs:151-155 | true exactly when the balance covers the amount; an unknown player covers only amounts of 0 or less |
| WalletService.Wallet.GetTransactionHistory | dotnetProject/Services/WalletService.cs:157-169 | at most `count` transactions, only the player's own, newest first; none for an unknown player |
| WalletService.Wallet.GetOrCreatePlayer | dotnetProject/Services/WalletService.cs:28-61 | an unknown player is created with balance 5000 and the next key; a known one keeps key and balance and takes the offered name only when they had none; no transaction is logged |
| WalletService.Wallet.DeductBalance | dotnetProject/Services/WalletService.cs:71-109 | succeeds exactly for a positive amount that a known player's balance covers; on success the balance falls by the amount and one record of the change is logged; on failure nothing changes; the ledger stays consistent, so no balance goes negative |
| WalletService.Wallet.AddBalance | dotnetProject/Services/WalletService.cs:111-149 | succeeds exactly for a positive amount and a known player; on success the balance rises by the amount and one record of the change is logged; on failure nothing changes |

## Left out

- SignalR transport: group membership, the per-recipient `GameState` payload (`BroadcastGameState`), `UpdatePlayerList`, `SetConnectionId`, `InitState`, `BalanceUpdated`, `BetRejected` and the roulette `RoundResult` message. They are message formatting and I/O. Roulette's `GetLobbyState`, `StartGame` and `OnConnectedAsync` only send messages and are not modelled.
- The roulette leaderboard (players ordered by balance) is only sent to clients and is not modelled.
- The static lobby registries (`ConcurrentDictionary`), `lock`, `async` and the `Task.Delay` restart timers are left out. Each model is one lobby, run sequentially. The restart after a showdown or a fold win is a separate call to `StartNewRound` by the caller. A lookup of an unknown lobby code is not modelled.
- Randomness (`Random.Shared.Next`, `new Random()`) is an input: one sort key per card, or a spin result in 0..36. The player identifier that comes from the HTTP context, or a fresh GUID, is a parameter of `Join`.
- Entity Framework, `SaveChangesAsync`, `DateTime.UtcNow` stamps (`CreatedAt`, `LastActive`) and logging are left out. The history is newest-first in log order rather than by timestamp.
- The poker game log strings and the hand descriptions ("Royal Flush", …) are display text and are not modelled.
- `decimal` money is modelled as unbounded integers, so amounts are whole numbers.
- Blackjack's `CalculateScore` sums in unbounded integers. 32-bit overflow of a score would need hundreds of millions of cards in one hand.
- Null strings are not modelled: a missing display name is `None`, and action names, bet types and bet values are never null.
- `PokerHub.Lobby.PrepareRound`: moves the button before resetting the table, where the source resets first. The two updates touch different fields, so the resulting state is the same.
- `Blackjack.BlackjackGame.DealOpening`: draws the four cards into locals and fills both hands afterwards. It gives the same hands and deck as adding each card as it is drawn.
- `Blackjack.ShuffledDeck`: states 52 pairwise distinct card strings of the unshuffled deck rather than an explicit multiset permutation; the two are equivalent for 52 cards.
- `Blackjack.Draw`: every refill during one call draws from the same sort keys; the source draws new random keys on each refill.
- `Roulette.RouletteLobby.PlaceBet`: `BetInfo` declares no `ConnectionId`, yet the hub sets and reads one. The model's `Bet` carries the connection the hub uses.
- `PokerHub.Lobby.AdvancePhase`: does not itself name the first seat to act on the new street. `NextStreet`, which it calls once the bets are cleared, names it, and `SameSkipsSameFirstActor` shows that clearing the bets does not change it.
- `PokerHub.Lobby.Showdown`: the model does not state that every card is dealt at most once across a hand. It states only that the deck shrinks by exactly the cards dealt and burnt.
- `PokerTable.Lower`: folds ASCII letters only. The source's `ToLower()` (PokerHub.cs:194) uses the current culture: it also folds non-ASCII letters, and under a Turkish culture "ALLIN" becomes "allın", which matches no action.
- `PokerTable.EqualsIgnoreCase`: compares after ASCII folding. The source's `StringComparison.OrdinalIgnoreCase` (PokerHub.cs:30-31) also matches non-ASCII letters that differ only in case, such as "é" and "É", which the model tells apart.
- `PokerTable.ParseAction`: recognises action names through `Lower`, so it inherits the ASCII-only folding described there.
- `PokerTable.FindPlayer`: matches identifiers through `EqualsIgnoreCase`, so it inherits the ASCII-only folding described there.
- `dotnetProject/Controllers/BlackjackController.cs` is not part of this model; it only stores the game object in the session.
