/** The wallet ledger behind every game: one balance per player, keyed by the
    player's cookie identifier, and an append-only log of transactions.
    The database sets `Players` and `Transactions` become a map and a sequence;
    the database key `Player.Id` is handed out from a counter. */
module WalletService {
  import opened Wrappers

  /** Balance given to a player the first time the wallet sees them. */
  const StartingBalance: int := 5000

  /** A row of `Players`: database key, optional display name, balance. */
  datatype Account = Account(key: nat, displayName: Option<string>, balance: int)

  /** A row of `Transactions`; `playerKey` is the database key of its owner. */
  datatype Transaction = Transaction(
    playerKey: nat,
    gameType: string,
    amountBefore: int,
    amountChange: int,
    amountAfter: int,
    description: string)

  /** C#'s `string.IsNullOrEmpty`. */
  predicate IsNullOrEmpty(s: Option<string>) {
    s.None? || s.value == []
  }

  /** Description logged for a deduction when the caller gives none. */
  function BetDescription(gameType: string): string {
    "Bet placed in " + gameType
  }

  /** Description logged for a credit when the caller gives none. */
  function WinDescription(gameType: string): string {
    "Win in " + gameType
  }

  /** Sum of the changes the log records for one player key. */
  function ChangesFor(log: seq<Transaction>, key: nat): int {
    if log == [] then 0
    else ChangesFor(log[..|log| - 1], key)
         + (if log[|log| - 1].playerKey == key then log[|log| - 1].amountChange else 0)
  }

  /** The transactions of one player key, newest first. */
  function TransactionsOf(log: seq<Transaction>, key: nat): (r: seq<Transaction>)
    ensures |r| <= |log|
    ensures forall t | t in r :: t.playerKey == key && t in log
    ensures forall t | t in log && t.playerKey == key :: t in r
  {
    if log == [] then []
    else
      var last := log[|log| - 1];
      var older := TransactionsOf(log[..|log| - 1], key);
      assert forall t | t in log :: t == last || t in log[..|log| - 1];
      if last.playerKey == key then [last] + older else older
  }

  /** LINQ `Take(count)`: the first `count` elements, none when `count <= 0`. */
  function Take<T>(s: seq<T>, count: int): (r: seq<T>)
    ensures count <= 0 ==> r == []
    ensures 0 <= count <= |s| ==> r == s[..count]
    ensures count > |s| ==> r == s
  {
    if count <= 0 then [] else if count >= |s| then s else s[..count]
  }

  lemma {:induction false} ChangesForUnusedKey(log: seq<Transaction>, key: nat)
    requires forall t | t in log :: t.playerKey < key
    ensures ChangesFor(log, key) == 0
  {
    if log != [] {
      ChangesForUnusedKey(log[..|log| - 1], key);
    }
  }

  lemma ChangesForAppend(log: seq<Transaction>, t: Transaction, key: nat)
    ensures ChangesFor(log + [t], key)
            == ChangesFor(log, key) + (if t.playerKey == key then t.amountChange else 0)
  {
    assert (log + [t])[..|log + [t]| - 1] == log;
  }

  /** The accounts after changing one player's balance by `delta`. */
  function Credit(players: map<string, Account>, id: string, delta: int): (r: map<string, Account>)
    requires id in players
    ensures r.Keys == players.Keys
    ensures r[id].balance == players[id].balance + delta
    ensures r[id].key == players[id].key && r[id].displayName == players[id].displayName
    ensures forall other | other in players && other != id :: r[other] == players[other]
  {
    players[id := players[id].(balance := players[id].balance + delta)]
  }

  /** The log record of a change of `delta` to an account's balance. */
  function Record(acc: Account, delta: int, gameType: string, description: string): (t: Transaction)
    ensures t.playerKey == acc.key && t.amountChange == delta
    ensures t.amountBefore == acc.balance && t.amountAfter == acc.balance + delta
  {
    Transaction(acc.key, gameType, acc.balance, delta, acc.balance + delta, description)
  }

  /** The ledger is consistent: keys are distinct, every record satisfies
      before + change = after, no balance is negative, and every balance is
      the starting balance plus the changes logged for its owner. */
  ghost predicate ValidLedger(players: map<string, Account>, log: seq<Transaction>, nextKey: nat) {
    && (forall id | id in players ::
          && players[id].key < nextKey
          && players[id].balance >= 0
          && players[id].balance == StartingBalance + ChangesFor(log, players[id].key))
    && (forall id1, id2 | id1 in players && id2 in players && id1 != id2 ::
          players[id1].key != players[id2].key)
    && (forall t | t in log ::
          t.amountBefore + t.amountChange == t.amountAfter && t.playerKey < nextKey)
  }

  /** Logging a consistent record of a change to one player's balance, and
      applying that change, keeps the ledger consistent. */
  lemma {:induction false} ApplyChangePreservesValid(players: map<string, Account>, log: seq<Transaction>, nextKey: nat,
                                                     id: string, delta: int, t: Transaction)
    requires ValidLedger(players, log, nextKey)
    requires id in players && players[id].balance + delta >= 0
    requires t.playerKey == players[id].key && t.amountChange == delta
    requires t.amountBefore + t.amountChange == t.amountAfter
    ensures ValidLedger(Credit(players, id, delta), log + [t], nextKey)
  {
    var players' := Credit(players, id, delta);
    forall other | other in players'
      ensures players'[other].balance == StartingBalance + ChangesFor(log + [t], players'[other].key)
    {
      ChangesForAppend(log, t, players[other].key);
    }
    forall u | u in log + [t]
      ensures u.amountBefore + u.amountChange == u.amountAfter && u.playerKey < nextKey
    {
      if u != t { assert u in log; }
    }
  }

  class Wallet {
    var players: map<string, Account>
    var transactions: seq<Transaction>
    var nextKey: nat

    /** The ledger is consistent: keys are distinct, every record satisfies
        before + change = after, no balance is negative, and every balance is
        the starting balance plus the changes logged for its owner. */
    ghost predicate Valid()
      reads this
    {
      ValidLedger(players, transactions, nextKey)
    }

    constructor ()
      ensures Valid() && players == map[] && transactions == []
    {
      players, transactions, nextKey := map[], [], 0;
    }

    /** The balance of a player; 0 for a player the wallet does not know. */
    function GetBalance(playerId: string): (b: int)
      reads this
      ensures playerId in players ==> b == players[playerId].balance
      ensures playerId !in players ==> b == 0
      ensures Valid() ==> b >= 0
    {
      if playerId in players then players[playerId].balance else 0
    }

    /** Whether the balance covers `amount`; an unknown player counts as
        holding 0, so it "has" any amount that is not positive. */
    function HasSufficientBalance(playerId: string, amount: int): (ok: bool)
      reads this
      ensures ok <==> GetBalance(playerId) >= amount
      ensures playerId !in players ==> (ok <==> amount <= 0)
    {
      GetBalance(playerId) >= amount
    }

    /** At most `count` transactions of the player, newest first; none for an
        unknown player. */
    function GetTransactionHistory(playerId: string, count: int): (r: seq<Transaction>)
      reads this
      ensures playerId !in players ==> r == []
      ensures |r| <= if count <= 0 then 0 else count
      ensures playerId in players ==>
                r == Take(TransactionsOf(transactions, players[playerId].key), count)
      ensures playerId in players ==>
                forall t | t in r :: t.playerKey == players[playerId].key && t in transactions
    {
      if playerId !in players then [] else Take(TransactionsOf(transactions, players[playerId].key), count)
    }

    /** Finds the player or creates them with the starting balance. An existing
        player keeps their balance and only gains a display name when they had
        none and a non-empty one is offered. */
    method GetOrCreatePlayer(playerId: string, displayName: Option<string>) returns (acc: Account)
      requires Valid()
      modifies this
      ensures Valid()
      ensures transactions == old(transactions)
      ensures playerId in players && acc == players[playerId]
      ensures old(playerId !in players) ==>
                acc == Account(old(nextKey), displayName, StartingBalance)
                && players == old(players)[playerId := acc]
      ensures old(playerId in players) ==>
                players == old(players)[playerId := acc]
                && acc.key == old(players[playerId].key)
                && acc.balance == old(players[playerId].balance)
                && acc.displayName == (if !IsNullOrEmpty(displayName) && IsNullOrEmpty(old(players[playerId].displayName))
                                       then displayName else old(players[playerId].displayName))
    {
      if playerId !in players {
        acc := Account(nextKey, displayName, StartingBalance);
        ChangesForUnusedKey(transactions, nextKey);
        players := players[playerId := acc];
        nextKey := nextKey + 1;
      } else {
        acc := players[playerId];
        if !IsNullOrEmpty(displayName) && IsNullOrEmpty(acc.displayName) {
          acc := acc.(displayName := displayName);
        }
        players := players[playerId := acc];
      }
    }

    /** Takes `amount` from the balance and logs it. Refused, with nothing
        changed, for an amount that is not positive, an unknown player or a
        balance below the amount. */
    method DeductBalance(playerId: string, amount: int, gameType: string, description: Option<string>)
      returns (ok: bool)
      requires Valid()
      modifies this
      ensures Valid() && nextKey == old(nextKey)
      ensures ok <==> amount > 0 && playerId in old(players) && old(players[playerId].balance) >= amount
      ensures !ok ==> players == old(players) && transactions == old(transactions)
      ensures ok ==>
                && players == Credit(old(players), playerId, -amount)
                && transactions == old(transactions)
                                   + [Record(old(players[playerId]), -amount, gameType, description.GetOr(BetDescription(gameType)))]
    {
      ok := amount > 0 && playerId in players && players[playerId].balance >= amount;
      if ok {
        var t := Record(players[playerId], -amount, gameType, description.GetOr(BetDescription(gameType)));
        ApplyChangePreservesValid(players, transactions, nextKey, playerId, -amount, t);
        players, transactions := Credit(players, playerId, -amount), transactions + [t];
      }
    }

    /** Credits `amount` and logs it. Refused, with nothing changed, for an
        amount that is not positive or an unknown player. */
    method AddBalance(playerId: string, amount: int, gameType: string, description: Option<string>)
      returns (ok: bool)
      requires Valid()
      modifies this
      ensures Valid() && nextKey == old(nextKey)
      ensures ok <==> amount > 0 && playerId in old(players)
      ensures !ok ==> players == old(players) && transactions == old(transactions)
      ensures ok ==>
                && players == Credit(old(players), playerId, amount)
                && transactions == old(transactions)
                                   + [Record(old(players[playerId]), amount, gameType, description.GetOr(WinDescription(gameType)))]
    {
      ok := amount > 0 && playerId in players;
      if ok {
        var t := Record(players[playerId], amount, gameType, description.GetOr(WinDescription(gameType)));
        ApplyChangePreservesValid(players, transactions, nextKey, playerId, amount, t);
        players, transactions := Credit(players, playerId, amount), transactions + [t];
      }
    }
  }
}
