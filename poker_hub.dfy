/** One lobby of the poker hub: its seats, deck, board, pot and betting
    state, the messages the hub sends, and the wallet the pot is paid
    into. The hub's entry points (join, start, act, disconnect) and its
    internal chain AdvanceGame -> AdvancePhase -> NotifyCurrentPlayer are
    the methods of `Lobby`. */
module PokerHub {
  import opened Wrappers
  import opened PokerModels
  import opened PokerDeck
  import opened HandEvaluator
  import opened WalletService
  import opened PokerTable
  import opened Numerals

  /** Messages the hub sends. A connection in an error, a turn prompt or
      a game-started notice sent to one client names the receiver. */
  datatype Event =
    | Error(to: string, error: ErrorKind)
    | GameStarted(caller: Option<string>)
    | GameEnded
    | YourTurn(player: string)
    | RoundWinner(name: string, amount: int)
    | ShowdownResult(name: string, amount: int)
    | PlayerDisconnected(name: string)

  /** Game type under which the hub logs its wallet credits. */
  const PokerGameType: string := "Poker"

  /** The wallet description of a showdown win, "Won pot: ₹<pot>". */
  function WonPotText(pot: int): string {
    "Won pot: \U{20B9}" + ShowInt(pot)
  }

  /** The wallet description of a win by everybody else folding. */
  const FoldWinText: string := "Won pot (all others folded)"

  /** Records appended to the wallet's log between two states all credit
      money: the hub never takes from the wallet. */
  ghost predicate OnlyCredits(before: seq<Transaction>, after: seq<Transaction>) {
    before <= after && forall k | |before| <= k < |after| :: after[k].amountChange > 0
  }

  /** No wallet balance has fallen and no account has gone. */
  ghost predicate NoBalanceFalls(before: map<string, Account>, after: map<string, Account>) {
    forall id | id in before :: id in after && after[id].balance >= before[id].balance
  }

  /** The same players sit in the same seats, with the same cards and
      connections, and no fold was undone. */
  ghost predicate SeatsKept(a: seq<Seat>, b: seq<Seat>) {
    && |a| == |b|
    && forall i | 0 <= i < |a| ::
         && b[i].playerId == a[i].playerId && b[i].name == a[i].name
         && b[i].connection == a[i].connection && b[i].active == a[i].active
         && b[i].hand == a[i].hand && (a[i].folded ==> b[i].folded)
  }

  /** The wallet accounts after the hub credits `amount` to `id`: the
      wallet refuses an amount that is not positive or an unknown player. */
  function Credited(players: map<string, Account>, id: string, amount: int): map<string, Account> {
    if amount > 0 && id in players then Credit(players, id, amount) else players
  }

  /** Between two points of the message log at most one turn prompt was
      sent, as the last message, and it went to the connection of the seat
      whose turn it now is, a present seat still in the hand. */
  ghost predicate PromptsCurrent(before: seq<Event>, after: seq<Event>, seats: seq<Seat>, current: nat) {
    forall k | |before| <= k < |after| && after[k].YourTurn? ::
      && k == |after| - 1 && current < |seats|
      && seats[current].active && !seats[current].folded
      && after[k].player == seats[current].connection
  }

  /** The turn went to seat `k` of `before`: a seat whose player is still
      there is asked to move; one whose player has left is folded and the
      game goes on without it. */
  ghost predicate TurnOpenedAt(before: seq<Seat>, k: nat, events0: seq<Event>, after: seq<Seat>, current: nat, events: seq<Event>) {
    && k < |before| && k < |after|
    && (before[k].active ==> current == k && events == events0 + [YourTurn(before[k].connection)])
    && (!before[k].active ==> after[k].folded)
  }

  /** No turn prompt was sent between two points of the message log. */
  ghost predicate NoPrompts(before: seq<Event>, after: seq<Event>) {
    forall k | |before| <= k < |after| :: !after[k].YourTurn?
  }

  /** The caller holds the seat whose turn it is. */
  predicate HoldsTurn(seats: seq<Seat>, current: nat, connection: string) {
    FindConnection(seats, connection) == Some(current)
  }

  class Lobby {
    var seats: seq<Seat>
    var deck: seq<Card>
    var community: seq<Card>
    var pot: int
    var tableBet: int
    var dealer: nat
    var current: nat
    var lastRaiser: int
    var phase: GamePhase
    var started: bool
    /** Messages sent so far, oldest first. */
    var events: seq<Event>
    const creator: string
    const wallet: Wallet

    /** Stacks, bets and the table bet are not negative, the table holds
        at most seven seats, and the wallet is consistent. */
    ghost predicate Core()
      reads this, wallet
    {
      && wallet.Valid()
      && |seats| <= MaxSeats
      && StacksOk(seats)
      && tableBet >= 0
    }

    /** The board has the size of the street, and the deck still holds the
        cards the remaining streets burn and turn. */
    ghost predicate BoardOk()
      reads this
    {
      && |community| <= 5
      && (phase == PreFlop ==> |community| == 0 && |deck| >= 38)
      && (phase == Flop ==> |community| == 3 && |deck| >= 34)
      && (phase == Turn ==> |community| == 4 && |deck| >= 32)
      && (phase == River ==> |community| == 5 && |deck| >= 30)
    }

    ghost predicate Valid()
      reads this, wallet
    {
      Core() && BoardOk()
    }

    /** A new lobby, owned by the connection that created it. */
    constructor (creator: string, wallet: Wallet)
      requires wallet.Valid()
      ensures Valid()
      ensures this.creator == creator && this.wallet == wallet
      ensures seats == [] && deck == [] && community == [] && pot == 0 && tableBet == 0
      ensures dealer == 0 && current == 0 && lastRaiser == -1
      ensures phase == Waiting && !started && events == []
    {
      this.creator, this.wallet := creator, wallet;
      seats, deck, community, pot, tableBet := [], [], [], 0, 0;
      dealer, current, lastRaiser := 0, 0, -1;
      phase, started, events := Waiting, false, [];
    }

    /** A player joins, or rejoins under the same player identifier (any
        case). A returning player gets the new connection and name, is
        marked present, and their stack is reset to their wallet balance.
        A new player takes the next seat with their wallet balance, unless
        seven seats are taken. A player arriving at a game under way is
        told that it has started. */
    method Join(connection: string, playerId: string, name: string)
      requires Valid()
      modifies this`seats, this`events
      ensures Valid()
      ensures FindPlayer(old(seats), playerId).Some? ==>
                var k := FindPlayer(old(seats), playerId).value;
                seats == old(seats)[k := old(seats[k]).(connection := connection, name := name, active := true,
                                                       balance := wallet.GetBalance(playerId))]
      ensures FindPlayer(old(seats), playerId).None? && |old(seats)| >= MaxSeats ==>
                seats == old(seats) && events == old(events) + [Error(connection, TableFull)]
      ensures FindPlayer(old(seats), playerId).None? && |old(seats)| < MaxSeats ==>
                seats == old(seats) + [NewSeat(connection, name, playerId, wallet.GetBalance(playerId), |old(seats)|)]
      ensures FindPlayer(old(seats), playerId).Some? || |old(seats)| < MaxSeats ==>
                events == old(events) + (if phase != Waiting then [GameStarted(Some(connection))] else [])
    {
      var k := FindPlayer(seats, playerId);
      if k.Some? {
        var s := seats[k.value];
        seats := seats[k.value := s.(connection := connection, name := name, active := true,
                                     balance := wallet.GetBalance(playerId))];
      } else {
        if |seats| >= MaxSeats {
          events := events + [Error(connection, TableFull)];
          return;
        }
        seats := seats + [NewSeat(connection, name, playerId, wallet.GetBalance(playerId), |seats|)];
      }
      if phase != Waiting {
        events := events + [GameStarted(Some(connection))];
      }
    }

    /** A connection goes away: the first seat it held is marked absent and
        the lobby is told. The seat stays; its turns are folded for it. */
    method Disconnect(connection: string)
      requires Valid()
      modifies this`seats, this`events
      ensures Valid()
      ensures FindConnection(old(seats), connection).None? ==> seats == old(seats) && events == old(events)
      ensures FindConnection(old(seats), connection).Some? ==>
                var k := FindConnection(old(seats), connection).value;
                && seats == old(seats)[k := old(seats[k]).(active := false)]
                && events == old(events) + [PlayerDisconnected(old(seats[k].name))]
    {
      var k := FindConnection(seats, connection);
      if k.Some? {
        var s := seats[k.value];
        seats := seats[k.value := s.(active := false)];
        events := events + [PlayerDisconnected(s.name)];
      }
    }

    /** The small and the big blind, each capped by the stack, move from
        the two seats after the button into the pot; the big blind sets the
        table bet. */
    method PostBlinds()
      requires 2 <= |seats| && dealer < |seats| && StacksOk(seats)
      modifies this`seats, this`pot, this`tableBet
      ensures seats == Posted(old(seats), dealer) && StacksOk(seats)
      ensures pot == old(pot) + SmallBlindPaid(old(seats), dealer) + BigBlindPaid(old(seats), dealer)
      ensures tableBet == BigBlindPaid(old(seats), dealer)
      ensures pot + SumBalances(seats) == old(pot + SumBalances(seats))
    {
      PostedBlinds(seats, dealer);
      PostedChips(seats, dealer);
      pot := pot + SmallBlindPaid(seats, dealer) + BigBlindPaid(seats, dealer);
      tableBet := BigBlindPaid(seats, dealer);
      seats := Posted(seats, dealer);
    }

    /** The set-up of a round: the table is reset with a fresh deck, then
        the betting is opened. */
    method PrepareRound(keys: seq<int>)
      requires Core() && |keys| == 52 && 2 <= |seats|
      modifies this`dealer, this`seats, this`pot, this`tableBet, this`deck, this`community, this`phase, this`current, this`lastRaiser
      ensures Valid() && phase == PreFlop && community == [] && |seats| == |old(seats)|
      ensures dealer == (old(dealer) + 1) % |old(seats)| && |deck| == 52 - 2 * |seats|
      ensures current == FirstToActSeat(dealer, |seats|) && lastRaiser == BigBlindSeat(dealer, |seats|)
      ensures forall i | 0 <= i < |seats| :: !seats[i].folded
      ensures SamePlayers(old(seats), seats)
      ensures pot + SumBalances(seats) == SumBalances(old(seats))
    {
      MoveButton();
      ResetTable(keys);
      OpenBetting();
    }

    /** The button moves one seat on. */
    method MoveButton()
      requires |seats| > 0
      modifies this`dealer
      ensures dealer == (old(dealer) + 1) % |seats|
    {
      dealer := AfterButton(dealer, |seats|);
    }

    /** The blinds are posted, every seat is dealt two hole cards from the
        top of the deck, and the turn goes to the seat after the big blind,
        who counts as the last raiser. */
    method OpenBetting()
      requires Core() && 2 <= |seats| && dealer < |seats| && |deck| == 52
      modifies this`seats, this`pot, this`tableBet, this`deck, this`current, this`lastRaiser
      ensures Core() && |seats| == |old(seats)| && deck == old(deck)[2 * |seats|..]
      ensures seats == WithHoleCards(Posted(old(seats), dealer), old(deck))
      ensures pot == old(pot) + SmallBlindPaid(old(seats), dealer) + BigBlindPaid(old(seats), dealer)
      ensures tableBet == BigBlindPaid(old(seats), dealer)
      ensures current == FirstToActSeat(dealer, |seats|) && lastRaiser == BigBlindSeat(dealer, |seats|)
      ensures pot + SumBalances(seats) == old(pot + SumBalances(seats))
    {
      PostBlinds();
      DealHands();
      current := FirstToActSeat(dealer, |seats|);
      lastRaiser := BigBlindSeat(dealer, |seats|);
    }

    /** Two hole cards to every seat from the top of the deck. */
    method DealHands()
      requires StacksOk(seats) && |deck| >= 2 * |seats|
      modifies this`seats, this`deck
      ensures seats == WithHoleCards(old(seats), old(deck)) && deck == old(deck)[2 * |seats|..]
      ensures StacksOk(seats) && SumBalances(seats) == SumBalances(old(seats))
    {
      var dealt, rest := DealHoleCards(seats, deck);
      seats, deck := dealt, rest;
    }

    /** The reset at the start of a round: a fresh shuffled deck, no
        board, no pot, no table bet, the pre-flop street, and every seat
        without cards or bet and back in the hand. */
    method ResetTable(keys: seq<int>)
      requires Core() && |keys| == 52
      modifies this`seats, this`deck, this`community, this`pot, this`tableBet, this`phase
      ensures Core() && |deck| == 52 && OrderedByKeys(deck, keys)
      ensures forall c: Card :: multiset(deck)[c] == 1
      ensures community == [] && pot == 0 && tableBet == 0 && phase == PreFlop
      ensures |seats| == |old(seats)| && forall i | 0 <= i < |seats| :: seats[i] == Cleared(old(seats)[i])
      ensures SumBalances(seats) == SumBalances(old(seats))
    {
      var shuffled := CreateShuffledDeck(keys);
      deck, community := shuffled, [];
      pot, tableBet, phase := 0, 0, PreFlop;
      seats := ClearSeats(seats);
    }

    /** The host starts the game: refused for anybody else and for fewer
        than two seats; otherwise the lobby is told and the first round
        begins. */
    method StartPokerGame(connection: string, keys: seq<int>)
      requires Valid() && |keys| == 52
      modifies this, wallet
      ensures Valid()
      ensures connection != creator || |old(seats)| < 2 ==>
                && seats == old(seats) && started == old(started) && phase == old(phase)
                && deck == old(deck) && community == old(community) && pot == old(pot) && tableBet == old(tableBet)
                && dealer == old(dealer) && current == old(current) && lastRaiser == old(lastRaiser)
      ensures connection != creator ==> events == old(events) + [Error(connection, NotHost)]
      ensures connection == creator && |old(seats)| < 2 ==> events == old(events) + [Error(connection, TooFewPlayers)]
      ensures connection != creator || |old(seats)| < 2 ==>
                wallet.players == old(wallet.players) && wallet.transactions == old(wallet.transactions)
      ensures connection == creator && |old(seats)| >= 2 ==>
                && started && old(events) + [GameStarted(None)] <= events
                && (|Solvent(old(seats))| >= 2 ==> SamePlayers(Solvent(old(seats)), seats))
      ensures PromptsCurrent(old(events), events, seats, current)
      ensures OnlyCredits(old(wallet.transactions), wallet.transactions)
      ensures NoBalanceFalls(old(wallet.players), wallet.players)
    {
      if connection != creator {
        events := events + [Error(connection, NotHost)];
        return;
      }
      if |seats| < 2 {
        events := events + [Error(connection, TooFewPlayers)];
        return;
      }
      started := true;
      events := events + [GameStarted(None)];
      StartNewRound(keys);
    }

    /** A new round: seats without chips leave the table; with fewer than
        two left the game ends, otherwise the round is set up and the first
        player to act is asked to move. */
    method StartNewRound(keys: seq<int>)
      requires Valid() && |keys| == 52
      modifies this`seats, this`deck, this`community, this`pot, this`tableBet, this`dealer,
               this`current, this`lastRaiser, this`phase, this`events, wallet
      ensures Valid()
      ensures |Solvent(old(seats))| < 2 ==>
                && seats == Solvent(old(seats)) && events == old(events) + [GameEnded]
                && deck == old(deck) && community == old(community) && pot == old(pot) && phase == old(phase)
                && tableBet == old(tableBet) && dealer == old(dealer) && current == old(current)
                && lastRaiser == old(lastRaiser)
                && wallet.players == old(wallet.players) && wallet.transactions == old(wallet.transactions)
      ensures |Solvent(old(seats))| >= 2 ==>
                && SamePlayers(Solvent(old(seats)), seats)
                && dealer == (old(dealer) + 1) % |Solvent(old(seats))|
                && PhaseValue(phase) >= PhaseValue(PreFlop)
                && old(events) <= events
      ensures PromptsCurrent(old(events), events, seats, current)
      ensures OnlyCredits(old(wallet.transactions), wallet.transactions)
      ensures NoBalanceFalls(old(wallet.players), wallet.players)
    {
      seats := Solvent(seats);
      if |seats| < 2 {
        events := events + [GameEnded];
        return;
      }
      BeginRound(keys);
    }

    /** A round on a table of at least two: it is set up and the first
        player to act is asked to move. */
    method BeginRound(keys: seq<int>)
      requires Valid() && |keys| == 52 && 2 <= |seats|
      modifies this`seats, this`deck, this`community, this`pot, this`tableBet, this`dealer,
               this`current, this`lastRaiser, this`phase, this`events, wallet
      ensures Valid()
      ensures SamePlayers(old(seats), seats) && dealer == (old(dealer) + 1) % |old(seats)|
      ensures PhaseValue(phase) >= PhaseValue(PreFlop) && old(events) <= events
      ensures PromptsCurrent(old(events), events, seats, current)
      ensures OnlyCredits(old(wallet.transactions), wallet.transactions)
      ensures NoBalanceFalls(old(wallet.players), wallet.players)
    {
      PrepareRound(keys);
      NotifyCurrentPlayer();
    }

    /** The acting seat's move is applied: a refused move changes nothing;
        otherwise the seat is replaced, the chips it paid go to the pot, and
        a raise moves the table bet and makes the seat the last raiser. */
    method ApplyAction(kind: ActionKind, amount: int) returns (o: Outcome)
      requires Valid() && current < |seats|
      modifies this`seats, this`pot, this`tableBet, this`lastRaiser
      ensures Valid()
      ensures o == Act(old(seats[current]), old(tableBet), kind, amount)
      ensures o.Refused? ==>
                seats == old(seats) && pot == old(pot) && tableBet == old(tableBet) && lastRaiser == old(lastRaiser)
      ensures o.Acted? ==>
                && seats == old(seats)[current := o.seat]
                && pot == old(pot) + o.paid && tableBet == o.tableBet
                && lastRaiser == (if o.raised then current else old(lastRaiser))
      ensures pot + SumBalances(seats) == old(pot + SumBalances(seats))
      ensures SeatsKept(old(seats), seats)
    {
      o := Act(seats[current], tableBet, kind, amount);
      if o.Acted? {
        SumBalancesUpdate(seats, current, o.seat);
        seats := seats[current := o.seat];
        pot := pot + o.paid;
        tableBet := o.tableBet;
        if o.raised {
          lastRaiser := current;
        }
      }
    }

    /** A betting action from a connection. Ignored unless the connection
        holds the seat whose turn it is; a refused check or raise is
        answered with an error; any other action, an unknown one included,
        is applied and the game moves on. */
    method PlayerAction(connection: string, action: string, amount: int)
      requires Valid()
      modifies this`seats, this`pot, this`tableBet, this`lastRaiser, this`deck, this`community,
               this`current, this`phase, this`events, wallet
      ensures Valid()
      ensures |seats| == |old(seats)| && PhaseValue(old(phase)) <= PhaseValue(phase) && old(events) <= events
      // ignored, or refused: nothing changes but the error sent back
      ensures !HoldsTurn(old(seats), old(current), connection)
              || Act(old(seats[current]), old(tableBet), ParseAction(action), amount).Refused? ==>
                && seats == old(seats) && pot == old(pot) && phase == old(phase)
                && tableBet == old(tableBet) && lastRaiser == old(lastRaiser) && current == old(current)
                && deck == old(deck) && community == old(community)
                && wallet.players == old(wallet.players) && wallet.transactions == old(wallet.transactions)
      ensures !HoldsTurn(old(seats), old(current), connection) ==> events == old(events)
      ensures HoldsTurn(old(seats), old(current), connection)
              && Act(old(seats[current]), old(tableBet), ParseAction(action), amount).Refused? ==>
                events == old(events)
                          + [Error(connection, Act(old(seats[current]), old(tableBet), ParseAction(action), amount).error)]
      // accepted: the chips paid go to the pot, and the game moves on from
      // the seat after the move, as AdvanceGame states
      ensures HoldsTurn(old(seats), old(current), connection)
              && Act(old(seats[current]), old(tableBet), ParseAction(action), amount).Acted? ==>
                var o := Act(old(seats[current]), old(tableBet), ParseAction(action), amount);
                var moved := old(seats)[old(current) := o.seat];
                var raiser := if o.raised then old(current) else old(lastRaiser);
                var next := NextTurn(moved, old(current));
                && pot == old(pot) + o.paid
                && (UnfoldedCount(moved) == 1 ==>
                      events == old(events) + [RoundWinner(moved[FirstUnfolded(moved)].name, pot)])
                && (UnfoldedCount(moved) != 1 && InHand(old(phase)) && StreetCloses(moved, o.tableBet, next, raiser) ==>
                      PhaseValue(phase) > PhaseValue(old(phase)))
                && (UnfoldedCount(moved) != 1 && !StreetCloses(moved, o.tableBet, next, raiser) && moved[next].active ==>
                      && seats == moved && current == next && phase == old(phase)
                      && tableBet == o.tableBet && lastRaiser == raiser
                      && events == old(events) + [YourTurn(moved[next].connection)])
                && (UnfoldedCount(moved) != 1 && !StreetCloses(moved, o.tableBet, next, raiser) && !moved[next].active ==>
                      seats[next].folded)
      ensures PromptsCurrent(old(events), events, seats, current)
      ensures OnlyCredits(old(wallet.transactions), wallet.transactions)
      ensures NoBalanceFalls(old(wallet.players), wallet.players)
    {
      var k := FindConnection(seats, connection);
      if k.None? || k.value != current {
        return;
      }
      var o := ApplyAction(ParseAction(action), amount);
      if o.Refused? {
        events := events + [Error(connection, o.error)];
        return;
      }
      AdvanceGame();
    }

    /** After a move: a lone seat left in the hand wins the pot; otherwise
        the turn passes on, and when the bets are level, or the turn is back
        at the last raiser with at most one seat able to act, the street
        ends. */
    method AdvanceGame()
      requires Valid() && current < |seats|
      modifies this`seats, this`deck, this`community, this`tableBet, this`current, this`lastRaiser,
               this`phase, this`events, wallet
      ensures Valid()
      ensures SeatsKept(old(seats), seats)
      ensures PhaseValue(old(phase)) <= PhaseValue(phase) && old(events) <= events
      ensures OnlyCredits(old(wallet.transactions), wallet.transactions)
      ensures NoBalanceFalls(old(wallet.players), wallet.players)
      ensures UnfoldedCount(old(seats)) == 1 ==>
                var w := FirstUnfolded(old(seats));
                && seats == old(seats)[w := old(seats[w]).(balance := wallet.GetBalance(old(seats[w].playerId)))]
                && wallet.players == Credited(old(wallet.players), old(seats[w].playerId), pot)
                && events == old(events) + [RoundWinner(old(seats[w].name), pot)]
      ensures UnfoldedCount(old(seats)) != 1 ==>
                var next := NextTurn(old(seats), old(current));
                var closes := StreetCloses(old(seats), old(tableBet), next, old(lastRaiser));
                && (closes ==> BetsCleared(seats, tableBet, lastRaiser))
                && (closes && InHand(old(phase)) ==> PhaseValue(phase) > PhaseValue(old(phase)))
                && (!closes && old(seats[next].active) ==>
                      && seats == old(seats) && current == next && phase == old(phase)
                      && deck == old(deck) && community == old(community)
                      && tableBet == old(tableBet) && lastRaiser == old(lastRaiser)
                      && events == old(events) + [YourTurn(old(seats[next].connection))]
                      && wallet.players == old(wallet.players) && wallet.transactions == old(wallet.transactions))
                && (!closes && !old(seats[next].active) ==> seats[next].folded)
      ensures PromptsCurrent(old(events), events, seats, current)
      ensures BetsCleared(old(seats), old(tableBet), old(lastRaiser)) ==> BetsCleared(seats, tableBet, lastRaiser)
      decreases UnfoldedCount(seats), 5
    {
      if UnfoldedCount(seats) == 1 {
        EndRound(FirstUnfolded(seats));
        return;
      }
      PassTurn();
      var toAct := ToActCount(seats);
      var allEqual := AllBetsEqual(seats, tableBet);
      var backToRaiser := current == lastRaiser && toAct > 0;
      if (allEqual || backToRaiser) && toAct <= 1 {
        AdvancePhase();
      } else if allEqual && toAct > 0 {
        var acted := EveryoneActed(seats, tableBet);
        if acted {
          AdvancePhase();
        } else {
          assert false;
        }
      } else {
        NotifyCurrentPlayer();
      }
    }

    /** The turn moves on from the current seat, over the seats that are
        folded or all-in, to the next seat that can act or back to the
        current one. */
    method PassTurn()
      requires current < |seats|
      modifies this`current
      ensures current == NextTurn(seats, old(current))
      ensures current < |seats|
      ensures current == old(current) || !Skipped(seats[current])
      ensures forall j | 0 <= j < |seats| && 0 < Dist(old(current), j, |seats|) < Reach(old(current), current, |seats|) ::
                Skipped(seats[j])
      ensures current == old(current) ==> forall j | 0 <= j < |seats| && j != current :: Skipped(seats[j])
    {
      current := MoveTurn(seats, current);
    }

    /** The end of a street: bets reset. With at most one seat able to act
        the board is completed and the hands shown down; otherwise the game
        goes on to the next street. */
    method AdvancePhase()
      requires Valid() && |seats| > 0
      modifies this`seats, this`deck, this`community, this`tableBet, this`current, this`lastRaiser,
               this`phase, this`events, wallet
      ensures Valid()
      ensures SeatsKept(old(seats), seats)
      ensures PhaseValue(old(phase)) <= PhaseValue(phase) && old(events) <= events
      ensures OnlyCredits(old(wallet.transactions), wallet.transactions)
      ensures NoBalanceFalls(old(wallet.players), wallet.players)
      ensures InHand(old(phase)) ==> PhaseValue(phase) > PhaseValue(old(phase))
      ensures ToActCount(old(seats)) <= 1 || old(phase) == River ==> phase == GamePhase.Showdown
      ensures PromptsCurrent(old(events), events, seats, current)
      // the next street starts with no bets and no raiser
      ensures BetsCleared(seats, tableBet, lastRaiser)
      decreases UnfoldedCount(seats), 4
    {
      ResetBets();
      if ToActCount(seats) <= 1 {
        RevealAllCards();
      } else {
        NextStreet();
      }
    }

    /** After the river comes the showdown; otherwise the next street is
        dealt and the first seat after the button that can act is asked to
        move. */
    method NextStreet()
      requires Valid() && |seats| > 0 && ToActCount(seats) > 1
      modifies this`seats, this`deck, this`community, this`tableBet, this`current, this`lastRaiser,
               this`phase, this`events, wallet
      ensures Valid()
      ensures SeatsKept(old(seats), seats)
      ensures PhaseValue(old(phase)) <= PhaseValue(phase) && old(events) <= events
      ensures OnlyCredits(old(wallet.transactions), wallet.transactions)
      ensures NoBalanceFalls(old(wallet.players), wallet.players)
      ensures InHand(old(phase)) ==> PhaseValue(phase) > PhaseValue(old(phase))
      ensures old(phase) == River ==> phase == GamePhase.Showdown
      ensures PromptsCurrent(old(events), events, seats, current)
      ensures BetsCleared(old(seats), old(tableBet), old(lastRaiser)) ==> BetsCleared(seats, tableBet, lastRaiser)
      // the next street is dealt and its first seat that can act is asked to move
      ensures old(phase) in {PreFlop, Flop, Turn} ==>
                var n := if old(phase) == PreFlop then 3 else 1;
                var k := FirstActor(old(seats), AfterButton(dealer, |old(seats)|));
                  && TurnOpenedAt(old(seats), k, old(events), seats, current, events)
                  && (old(seats[k]).active ==>
                        && seats == old(seats) && PhaseValue(phase) == PhaseValue(old(phase)) + 1
                        && community == old(community) + old(deck)[1..n + 1] && deck == old(deck)[n + 1..])
      decreases UnfoldedCount(seats), 3
    {
      if phase == River {
        Showdown();
        return;
      }
      if phase == PreFlop || phase == Flop || phase == Turn {
        DealStreet();
      }
      OpenStreet();
    }

    /** The first seat after the button that can act is asked to move. */
    method OpenStreet()
      requires Valid() && |seats| > 0 && ToActCount(seats) > 1
      modifies this`seats, this`deck, this`community, this`tableBet, this`current, this`lastRaiser,
               this`phase, this`events, wallet
      ensures Valid()
      ensures SeatsKept(old(seats), seats)
      ensures PhaseValue(old(phase)) <= PhaseValue(phase) && old(events) <= events
      ensures OnlyCredits(old(wallet.transactions), wallet.transactions)
      ensures NoBalanceFalls(old(wallet.players), wallet.players)
      ensures PromptsCurrent(old(events), events, seats, current)
      ensures BetsCleared(old(seats), old(tableBet), old(lastRaiser)) ==> BetsCleared(seats, tableBet, lastRaiser)
      // the turn goes to the first seat after the button that can act
      ensures var k := FirstActor(old(seats), AfterButton(dealer, |old(seats)|));
                && TurnOpenedAt(old(seats), k, old(events), seats, current, events)
                && (old(seats[k]).active ==>
                      seats == old(seats) && phase == old(phase) && deck == old(deck) && community == old(community))
      decreases UnfoldedCount(seats), 2
    {
      var from := AfterButton(dealer, |seats|);
      current := FirstActorFrom(seats, from);
      NotifyCurrentPlayer();
    }

    /** Every bet and the table bet go back to zero and nobody counts as
        the last raiser. */
    method ResetBets()
      requires Valid()
      modifies this`seats, this`tableBet, this`lastRaiser
      ensures Valid() && tableBet == 0 && lastRaiser == -1
      ensures |seats| == |old(seats)| && forall i | 0 <= i < |seats| :: seats[i] == old(seats)[i].(bet := 0)
      ensures UnfoldedCount(seats) == UnfoldedCount(old(seats)) && ToActCount(seats) == ToActCount(old(seats))
      ensures SeatsKept(old(seats), seats)
    {
      seats := ClearBets(seats);
      tableBet := 0;
      lastRaiser := -1;
    }

    /** The next street: one card is burnt, then three cards are turned
        after the pre-flop and one after the flop or the turn. */
    method DealStreet()
      requires BoardOk() && (phase == PreFlop || phase == Flop || phase == Turn)
      modifies this`deck, this`community, this`phase
      ensures BoardOk() && PhaseValue(phase) == PhaseValue(old(phase)) + 1
      ensures var k := if old(phase) == PreFlop then 3 else 1;
              community == old(community) + old(deck)[1..k + 1] && deck == old(deck)[k + 1..]
    {
      deck := deck[1..];
      if phase == PreFlop {
        for i := 0 to 3
          invariant community == old(community) + old(deck)[1..i + 1] && deck == old(deck)[i + 1..]
        {
          community := community + [deck[0]];
          deck := deck[1..];
        }
        phase := Flop;
      } else {
        community, deck := community + [deck[0]], deck[1..];
        phase := if phase == Flop then Turn else River;
      }
    }

    /** With at most one seat able to act the rest of the board is dealt
        at once, then the hands are shown down. */
    method RevealAllCards()
      requires Valid()
      modifies this`deck, this`community, this`phase, this`seats, this`events, wallet
      ensures Valid() && phase == GamePhase.Showdown
      ensures var n := 2 * (5 - |old(community)|);
              |old(deck)| >= n ==> community == old(community) + EveryOther(old(deck)[..n]) && deck == old(deck)[n..]
      ensures InHand(old(phase)) ==> |community| == 5
      ensures SeatsKept(old(seats), seats) && old(events) <= events && NoPrompts(old(events), events)
      ensures forall i | 0 <= i < |seats| :: seats[i].bet == old(seats)[i].bet
      ensures OnlyCredits(old(wallet.transactions), wallet.transactions)
      ensures NoBalanceFalls(old(wallet.players), wallet.players)
    {
      deck, community := RevealRest(deck, community);
      Showdown();
    }

    /** The showdown: the hands of the seats still in are evaluated and
        ranked; the pot is credited to the wallet of the first seat still
        in that carries the best hand's owner's name, and that seat's stack
        is reset to the wallet balance. When no hand can be evaluated the
        showdown stops after the phase changes. */
    method Showdown()
      requires Core() && |community| <= 5
      modifies this`phase, this`seats, this`events, wallet
      ensures Valid() && phase == GamePhase.Showdown
      ensures ShowdownWinner(old(seats), community).None? ==>
                && seats == old(seats) && events == old(events)
                && wallet.players == old(wallet.players) && wallet.transactions == old(wallet.transactions)
      ensures ShowdownWinner(old(seats), community).Some? ==>
                var name := ShowdownWinner(old(seats), community).value;
                && FirstNamed(old(seats), name).Some?
                && var k := FirstNamed(old(seats), name).value;
                   && seats == old(seats)[k := old(seats[k]).(balance := wallet.GetBalance(old(seats[k].playerId)))]
                   && wallet.players == Credited(old(wallet.players), old(seats[k].playerId), pot)
                   && events == old(events) + [ShowdownResult(name, pot)]
      ensures SeatsKept(old(seats), seats) && old(events) <= events && NoPrompts(old(events), events)
      ensures forall i | 0 <= i < |seats| :: seats[i].bet == old(seats)[i].bet
      ensures OnlyCredits(old(wallet.transactions), wallet.transactions)
      ensures NoBalanceFalls(old(wallet.players), wallet.players)
    {
      phase := GamePhase.Showdown;
      var winner := FindShowdownWinner(seats, community);
      if winner.None? {
        return;
      }
      WinnerHasSeat(seats, community);
      AwardPot(winner.value);
    }

    /** The pot goes to the wallet of the first seat still in that carries
        the winner's name, that seat's stack is reset to the wallet
        balance, and the lobby is told who won how much. */
    method AwardPot(name: string)
      requires Core() && FirstNamed(seats, name).Some?
      modifies this`seats, this`events, wallet
      ensures Core()
      ensures var k := FirstNamed(old(seats), name).value;
              && seats == old(seats)[k := old(seats[k]).(balance := wallet.GetBalance(old(seats[k].playerId)))]
              && wallet.players == Credited(old(wallet.players), old(seats[k].playerId), pot)
      ensures events == old(events) + [ShowdownResult(name, pot)]
      ensures SeatsKept(old(seats), seats)
      ensures OnlyCredits(old(wallet.transactions), wallet.transactions)
      ensures NoBalanceFalls(old(wallet.players), wallet.players)
    {
      var k := FirstNamed(seats, name).value;
      Pay(k, WonPotText(pot));
      events := events + [ShowdownResult(name, pot)];
    }

    /** Everybody else folded: the pot goes to the wallet of the seat left
        and its stack is reset to the wallet balance. */
    method EndRound(w: nat)
      requires Valid() && w < |seats|
      modifies this`seats, this`events, wallet
      ensures Valid()
      ensures seats == old(seats)[w := old(seats[w]).(balance := wallet.GetBalance(old(seats[w].playerId)))]
      ensures wallet.players == Credited(old(wallet.players), old(seats[w].playerId), pot)
      ensures events == old(events) + [RoundWinner(old(seats[w].name), pot)]
      ensures OnlyCredits(old(wallet.transactions), wallet.transactions)
      ensures NoBalanceFalls(old(wallet.players), wallet.players)
    {
      Pay(w, FoldWinText);
      events := events + [RoundWinner(seats[w].name, pot)];
    }

    /** The pot is credited to the wallet of the player at seat `k`, and
        the seat's stack is overwritten with the wallet balance. */
    method Pay(k: nat, description: string)
      requires Core() && k < |seats|
      modifies this`seats, wallet
      ensures Core()
      ensures seats == old(seats)[k := old(seats[k]).(balance := wallet.GetBalance(old(seats[k].playerId)))]
      ensures wallet.players == Credited(old(wallet.players), old(seats[k].playerId), pot)
      ensures var id := old(seats[k].playerId);
              wallet.transactions == old(wallet.transactions)
                                     + (if pot > 0 && id in old(wallet.players)
                                        then [Record(old(wallet.players[id]), pot, PokerGameType, description)]
                                        else [])
      ensures OnlyCredits(old(wallet.transactions), wallet.transactions)
      ensures NoBalanceFalls(old(wallet.players), wallet.players)
    {
      var id := seats[k].playerId;
      var _ := wallet.AddBalance(id, pot, PokerGameType, Some(description));
      seats := seats[k := seats[k].(balance := wallet.GetBalance(id))];
    }

    /** The turn reaches the current seat: an absent player is folded and
        the game moves on; a present one is asked to move. */
    method NotifyCurrentPlayer()
      requires Valid() && current < |seats| && !seats[current].folded
      modifies this`seats, this`deck, this`community, this`tableBet, this`current, this`lastRaiser,
               this`phase, this`events, wallet
      ensures Valid()
      ensures SeatsKept(old(seats), seats)
      ensures PhaseValue(old(phase)) <= PhaseValue(phase) && old(events) <= events
      ensures OnlyCredits(old(wallet.transactions), wallet.transactions)
      ensures NoBalanceFalls(old(wallet.players), wallet.players)
      ensures old(seats[current].active) ==>
                && seats == old(seats) && phase == old(phase) && current == old(current)
                && deck == old(deck) && community == old(community)
                && tableBet == old(tableBet) && lastRaiser == old(lastRaiser)
                && events == old(events) + [YourTurn(old(seats[current].connection))]
                && wallet.players == old(wallet.players) && wallet.transactions == old(wallet.transactions)
      // an absent player is folded and never asked to move
      ensures !old(seats[current].active) ==>
                && seats[old(current)].folded
                && forall k | |old(events)| <= k < |events| && events[k].YourTurn? :: current != old(current)
      ensures PromptsCurrent(old(events), events, seats, current)
      ensures BetsCleared(old(seats), old(tableBet), old(lastRaiser)) ==> BetsCleared(seats, tableBet, lastRaiser)
      decreases UnfoldedCount(seats), 1
    {
      if !seats[current].active {
        FoldCurrent();
        AdvanceGame();
        return;
      }
      events := events + [YourTurn(seats[current].connection)];
    }

    /** The seat whose turn it is folds. */
    method FoldCurrent()
      requires Valid() && current < |seats| && !seats[current].folded
      modifies this`seats
      ensures Valid() && seats == old(seats)[current := old(seats[current]).(folded := true)]
      ensures SeatsKept(old(seats), seats) && seats[current].folded
      ensures UnfoldedCount(seats) == UnfoldedCount(old(seats)) - 1
    {
      UnfoldedCountUpdate(seats, current, seats[current].(folded := true));
      seats := seats[current := seats[current].(folded := true)];
    }
  }
}
