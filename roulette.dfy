/** One lobby of the European roulette hub: the players who joined, their
    balances, the bets waiting for the next spin and the last ten results.
    A bet names a type ("Single", "Red", "Black", "Odd", "Even", "Low",
    "High", "Dozen", "Column") and, for Single, Dozen and Column, a value
    given as text. The spin result, drawn at random from 0..36, is an input. */
module Roulette {
  import opened Wrappers
  import opened Numerals

  /** Balance a connection receives when it joins a lobby. */
  const JoinBalance: int := 5000

  /** Results kept in the history. */
  const HistorySize: nat := 10

  const RedNumbers: seq<int> := [1, 3, 5, 7, 9, 12, 14, 16, 18, 19, 21, 23, 25, 27, 30, 32, 34, 36]
  const Column1: seq<int> := [1, 4, 7, 10, 13, 16, 19, 22, 25, 28, 31, 34]
  const Column2: seq<int> := [2, 5, 8, 11, 14, 17, 20, 23, 26, 29, 32, 35]
  const Column3: seq<int> := [3, 6, 9, 12, 15, 18, 21, 24, 27, 30, 33, 36]

  /** A bet waiting for the spin, with the connection that placed it. */
  datatype Bet = Bet(connection: string, betType: string, betValue: string, amount: int)

  datatype PlayerInfo = PlayerInfo(connection: string, name: string)

  /** What became of a bet the hub was asked to place. */
  datatype BetOutcome =
    | Placed
    | Rejected          // the balance is below the amount
    | NotInLobby        // the connection has no balance: the lookup throws

  /** C#'s `%` on `int`: the remainder takes the sign of the dividend. */
  function Rem(a: int, b: int): int
    requires b != 0
  {
    if a >= 0 || a % b == 0 then a % b else a % b - (if b > 0 then b else -b)
  }

  /** The bet types the hub tells apart; any other text is `Unknown`. */
  datatype BetKind = Single | Red | Black | Odd | Even | Low | High | Dozen | Column | Unknown

  /** The bet type a string names (the comparison is exact). */
  function KindOf(betType: string): BetKind {
    if betType == "Single" then Single
    else if betType == "Red" then Red
    else if betType == "Black" then Black
    else if betType == "Odd" then Odd
    else if betType == "Even" then Even
    else if betType == "Low" then Low
    else if betType == "High" then High
    else if betType == "Dozen" then Dozen
    else if betType == "Column" then Column
    else Unknown
  }

  /** What one unit wins on each bet type; a type the hub does not know
      pays nothing. */
  function Odds(kind: BetKind): int {
    match kind
    case Single => 36
    case Red | Black | Odd | Even | Low | High => 2
    case Dozen | Column => 3
    case Unknown => 0
  }

  /** Whether a bet wins on `result`. */
  predicate Wins(bet: Bet, result: int) {
    WinsAs(KindOf(bet.betType), bet.betValue, result)
  }

  /** Whether a bet of the given kind and value wins on `result`, branch
      by branch as the hub decides it; a value that does not parse as an
      integer never wins. */
  predicate WinsAs(kind: BetKind, betValue: string, result: int) {
    match kind
    case Single => ParseInt32(betValue) == Some(result)
    case Red => result in RedNumbers
    case Black => result !in RedNumbers && result != 0
    case Odd => Rem(result, 2) == 1 && result != 0
    case Even => Rem(result, 2) == 0 && result != 0
    case Low => 1 <= result <= 18
    case High => 19 <= result <= 36
    case Dozen =>
      (match ParseInt32(betValue)
       case Some(dz) =>
         || (dz == 1 && 1 <= result <= 12)
         || (dz == 2 && 13 <= result <= 24)
         || (dz == 3 && 25 <= result <= 36)
       case None => false)
    case Column =>
      (match ParseInt32(betValue)
       case Some(col) =>
         || (col == 1 && result in Column1)
         || (col == 2 && result in Column2)
         || (col == 3 && result in Column3)
       case None => false)
    case Unknown => false
  }

  /** The amount credited for a bet when the wheel shows `result`: the
      stake times the odds on a win, nothing otherwise. Only a known bet
      type can win, so a win always carries positive odds. */
  function CalculatePayout(bet: Bet, result: int): (payout: int)
    ensures !Wins(bet, result) ==> payout == 0
    ensures Wins(bet, result) ==> Odds(KindOf(bet.betType)) > 0 && payout == bet.amount * Odds(KindOf(bet.betType))
    ensures payout > 0 <==> Wins(bet, result) && bet.amount > 0
  {
    var kind := KindOf(bet.betType);
    if WinsAs(kind, bet.betValue, result) then
      WinnerHasOdds(kind, bet.betValue, result, bet.amount);
      bet.amount * Odds(kind)
    else 0
  }

  /** Only a known bet type wins, and its odds are positive, so a winning
      stake pays something exactly when it is positive. */
  lemma WinnerHasOdds(kind: BetKind, betValue: string, result: int, amount: int)
    requires WinsAs(kind, betValue, result)
    ensures Odds(kind) > 0
    ensures amount * Odds(kind) > 0 <==> amount > 0
  {
    assert kind != Unknown;
  }

  /** On zero every bet loses except a Single on 0. */
  lemma ZeroLosesButSingleZero(bet: Bet)
    ensures Wins(bet, 0) <==> KindOf(bet.betType) == Single && ParseInt32(bet.betValue) == Some(0)
  {
    ColumnsAreResidues(0);
  }

  /** From 1 to 36, exactly one of Red and Black wins, exactly one of Odd
      and Even, and exactly one of Low and High. */
  lemma EvenMoneyComplementary(result: int, c: string, v: string, a: int)
    requires 1 <= result <= 36
    ensures Wins(Bet(c, "Red", v, a), result) != Wins(Bet(c, "Black", v, a), result)
    ensures Wins(Bet(c, "Odd", v, a), result) != Wins(Bet(c, "Even", v, a), result)
    ensures Wins(Bet(c, "Low", v, a), result) != Wins(Bet(c, "High", v, a), result)
  {
  }

  /** A Dozen bet on `d` wins exactly on 12(d-1)+1 .. 12d for d in 1..3,
      and never for any other value or one that does not parse. */
  lemma DozenWins(betValue: string, result: int)
    ensures WinsAs(Dozen, betValue, result) <==>
              && ParseInt32(betValue).Some?
              && var d := ParseInt32(betValue).value;
                 1 <= d <= 3 && 12 * (d - 1) < result <= 12 * d
  {
  }

  /** Column `k` of the table holds the numbers 1..36 that leave the
      remainder `k mod 3` when divided by three. */
  lemma ColumnsAreResidues(result: int)
    ensures result in Column1 <==> 1 <= result <= 36 && result % 3 == 1
    ensures result in Column2 <==> 1 <= result <= 36 && result % 3 == 2
    ensures result in Column3 <==> 1 <= result <= 36 && result % 3 == 0
  {
    ColumnIsResidue(Column1, 1, result);
    ColumnIsResidue(Column2, 2, result);
    ColumnIsResidue(Column3, 3, result);
  }

  /** A column listed as every third number from `first` on. */
  lemma ColumnIsResidue(column: seq<int>, first: int, result: int)
    requires 1 <= first <= 3 && |column| == 12
    requires forall i | 0 <= i < 12 :: column[i] == 3 * i + first
    ensures result in column <==> 1 <= result <= 36 && result % 3 == first % 3
  {
    if 1 <= result <= 36 && result % 3 == first % 3 {
      var q := (result - first) / 3;
      assert column[q] == result;
    }
  }

  /** A Column bet on `k` wins exactly on the numbers 1..36 of column `k`
      for k in 1..3, and never for any other value or one that does not
      parse. */
  lemma ColumnWins(betValue: string, result: int)
    ensures WinsAs(Column, betValue, result) <==>
              && ParseInt32(betValue).Some?
              && var k := ParseInt32(betValue).value;
                 1 <= k <= 3 && 1 <= result <= 36 && result % 3 == k % 3
  {
    match ParseInt32(betValue)
    case None =>
    case Some(k) =>
      ColumnsAreResidues(result);
      if k == 1 {
        assert WinsAs(Column, betValue, result) <==> result in Column1;
      } else if k == 2 {
        assert WinsAs(Column, betValue, result) <==> result in Column2;
      } else if k == 3 {
        assert WinsAs(Column, betValue, result) <==> result in Column3;
      }
  }

  /** A Single, Dozen or Column bet whose value does not parse as an
      integer never wins, and neither does a bet of unknown type. */
  lemma UnreadableNeverWins(bet: Bet, result: int)
    requires || (KindOf(bet.betType) in {Single, Dozen, Column} && ParseInt32(bet.betValue).None?)
             || KindOf(bet.betType) == Unknown
    ensures CalculatePayout(bet, result) == 0
  {
  }

  /** The sum of the payouts the bets of `id` collect, counting only the
      positive ones (the hub credits nothing else). */
  function Winnings(bets: seq<Bet>, id: string, result: int): (w: int)
    ensures w >= 0
  {
    if bets == [] then 0
    else
      var b := bets[|bets| - 1];
      var p := CalculatePayout(b, result);
      Winnings(bets[..|bets| - 1], id, result) + (if b.connection == id && p > 0 then p else 0)
  }

  /** Every bet's connection has a balance. */
  ghost predicate Covered(balances: map<string, int>, bets: seq<Bet>) {
    forall k | 0 <= k < |bets| :: bets[k].connection in balances
  }

  /** The balances after each positive payout is credited to its bet's
      connection, bet by bet. */
  function Settle(balances: map<string, int>, bets: seq<Bet>, result: int): (r: map<string, int>)
    requires Covered(balances, bets)
    ensures r.Keys == balances.Keys
  {
    if bets == [] then balances
    else Credit(Settle(balances, bets[..|bets| - 1], result), bets[|bets| - 1], result)
  }

  /** The balances after one bet's payout, when positive, is credited to
      its connection. */
  function Credit(balances: map<string, int>, bet: Bet, result: int): (r: map<string, int>)
    requires bet.connection in balances
    ensures r.Keys == balances.Keys
  {
    var p := CalculatePayout(bet, result);
    if p > 0 then balances[bet.connection := balances[bet.connection] + p] else balances
  }

  /** Settling one more bet credits that bet on top of the others. */
  lemma SettleSnoc(balances: map<string, int>, bets: seq<Bet>, i: nat, result: int)
    requires i < |bets| && Covered(balances, bets[..i + 1])
    ensures Covered(balances, bets[..i])
    ensures Settle(balances, bets[..i + 1], result) == Credit(Settle(balances, bets[..i], result), bets[i], result)
  {
    assert bets[..i + 1][..i] == bets[..i];
  }

  /** Settling credits every connection exactly its winnings: a balance
      never falls, and one without a winning bet does not move. */
  lemma {:induction false} SettleCredits(balances: map<string, int>, bets: seq<Bet>, result: int, id: string)
    requires Covered(balances, bets)
    requires id in balances
    ensures Settle(balances, bets, result)[id] == balances[id] + Winnings(bets, id, result)
  {
    if bets != [] {
      SettleCredits(balances, bets[..|bets| - 1], result, id);
    }
  }

  /** A connection with no bet collects nothing. */
  lemma {:induction false} NoBetNoWinnings(bets: seq<Bet>, id: string, result: int)
    requires forall b | b in bets :: b.connection != id
    ensures Winnings(bets, id, result) == 0
  {
    if bets != [] {
      NoBetNoWinnings(bets[..|bets| - 1], id, result);
    }
  }

  /** The history after a spin: the new result in front, cut back to ten
      entries by removing the eleventh. */
  function Recorded(history: seq<int>, result: int): (h: seq<int>)
    requires |history| <= HistorySize
    ensures 0 < |h| <= HistorySize && h[0] == result
    ensures h[1..] == history[..if |history| < HistorySize then |history| else HistorySize - 1]
  {
    var h := [result] + history;
    if |h| > HistorySize then h[..HistorySize] + h[HistorySize + 1..] else h
  }

  class RouletteLobby {
    const creator: string
    var players: seq<PlayerInfo>
    var balances: map<string, int>
    var history: seq<int>
    var currentBets: seq<Bet>

    /** Every player and every pending bet has a balance, and the history
        holds at most ten results. */
    ghost predicate Valid()
      reads this
    {
      && (forall p | p in players :: p.connection in balances)
      && Covered(balances, currentBets)
      && |history| <= HistorySize
    }

    /** Whether a connection is among the players. */
    predicate Joined(connection: string)
      reads this
    {
      exists p | p in players :: p.connection == connection
    }

    /** The lobby the first connection to join a code creates. */
    constructor (creator: string)
      ensures Valid() && this.creator == creator
      ensures players == [] && balances == map[] && history == [] && currentBets == []
    {
      this.creator := creator;
      players, balances, history, currentBets := [], map[], [], [];
    }

    /** A connection joins: the first time it is added with its name and a
        balance of 5000; joining again changes nothing. */
    method JoinLobby(connection: string, name: string)
      requires Valid()
      modifies this
      ensures Valid() && history == old(history) && currentBets == old(currentBets)
      ensures old(Joined(connection)) ==> players == old(players) && balances == old(balances)
      ensures !old(Joined(connection)) ==>
                && players == old(players) + [PlayerInfo(connection, name)]
                && balances == old(balances)[connection := JoinBalance]
      ensures Joined(connection) && balances[connection] == if old(Joined(connection)) then old(balances[connection]) else JoinBalance
    {
      var present := false;
      for i := 0 to |players|
        invariant present <==> exists p | p in players[..i] :: p.connection == connection
      {
        assert players[..i + 1] == players[..i] + [players[i]];
        if players[i].connection == connection {
          present := true;
        }
      }
      assert players[..|players|] == players;
      if !present {
        players := players + [PlayerInfo(connection, name)];
        balances := balances[connection := JoinBalance];
        assert players[|players| - 1].connection == connection;
      }
    }

    /** A bet from a connection: refused when its balance is below the
        amount; otherwise the amount leaves the balance and the bet joins
        the pending ones. A connection without a balance makes the hub
        fail, with nothing changed. */
    method PlaceBet(connection: string, betType: string, betValue: string, amount: int) returns (o: BetOutcome)
      requires Valid()
      modifies this`balances, this`currentBets
      ensures Valid()
      ensures o == (if connection !in old(balances) then NotInLobby
                    else if old(balances[connection]) < amount then Rejected
                    else Placed)
      ensures o != Placed ==> balances == old(balances) && currentBets == old(currentBets)
      ensures o == Placed ==>
                && balances == old(balances)[connection := old(balances[connection]) - amount]
                && currentBets == old(currentBets) + [Bet(connection, betType, betValue, amount)]
    {
      if connection !in balances {
        return NotInLobby;
      }
      if balances[connection] < amount {
        return Rejected;
      }
      balances := balances[connection := balances[connection] - amount];
      currentBets := currentBets + [Bet(connection, betType, betValue, amount)];
      o := Placed;
    }

    /** The wheel shows `result`: each pending bet's positive payout is
        credited to its connection, the pending bets are cleared, and the
        result goes to the front of the history. */
    method SpinWheel(result: int)
      requires Valid() && 0 <= result <= 36
      modifies this`balances, this`currentBets, this`history
      ensures Valid() && currentBets == []
      ensures balances == Settle(old(balances), old(currentBets), result)
      ensures history == Recorded(old(history), result)
    {
      CreditPayouts(currentBets, result);
      currentBets := [];
      RecordResult(result);
    }

    /** Credits each positive payout of `bets` to its connection, bet by
        bet. */
    method CreditPayouts(bets: seq<Bet>, result: int)
      requires Covered(balances, bets)
      modifies this`balances
      ensures balances == Settle(old(balances), bets, result)
    {
      for i := 0 to |bets|
        invariant balances == Settle(old(balances), bets[..i], result)
      {
        assert bets[..i + 1] <= bets;
        SettleSnoc(old(balances), bets, i, result);
        balances := Credit(balances, bets[i], result);
      }
      assert bets[..|bets|] == bets;
    }

    /** Puts `result` in front of the history and removes the eleventh
        entry when there is one. */
    method RecordResult(result: int)
      requires |history| <= HistorySize
      modifies this`history
      ensures history == Recorded(old(history), result)
    {
      history := [result] + history;
      if |history| > HistorySize {
        history := history[..HistorySize] + history[HistorySize + 1..];
      }
    }

    /** A connection leaves: the first player entry it holds is removed;
        its balance stays. */
    method Disconnect(connection: string)
      requires Valid()
      modifies this`players
      ensures Valid() && |players| <= |old(players)|
      ensures !old(Joined(connection)) ==> players == old(players)
      ensures old(Joined(connection)) ==>
                exists k | 0 <= k < |old(players)| ::
                  && old(players[k]).connection == connection
                  && (forall j | 0 <= j < k :: old(players[j]).connection != connection)
                  && players == old(players[..k] + players[k + 1..])
    {
      var k := 0;
      while k < |players| && players[k].connection != connection
        invariant 0 <= k <= |players|
        invariant forall j | 0 <= j < k :: players[j].connection != connection
      {
        k := k + 1;
      }
      if k < |players| {
        players := players[..k] + players[k + 1..];
      }
    }
  }
}
