/** The poker table's bookkeeping on seats: counts of who is still in the
    hand, the effect of one betting action on a seat, blind and turn
    positions, the walks of the hub over the seats, and the showdown
    ranking. */
module PokerTable {
  import opened Wrappers
  import opened PokerModels
  import opened Ordering
  import opened HandEvaluator

  /** Table stakes of `PokerGameState`. */
  const SmallBlind: int := 10
  const BigBlind: int := 20
  /** A table seats at most seven players. */
  const MaxSeats: nat := 7

  function Min(a: int, b: int): int {
    if a <= b then a else b
  }

  /** The same players sit in the same seats, on the same connections,
      present or absent as before. */
  predicate SamePlayers(a: seq<Seat>, b: seq<Seat>) {
    && |a| == |b|
    && forall i | 0 <= i < |a| ::
         && b[i].playerId == a[i].playerId && b[i].name == a[i].name
         && b[i].connection == a[i].connection && b[i].active == a[i].active
  }

  /** Errors the hub sends back to the caller. */
  datatype ErrorKind = TableFull | NotHost | TooFewPlayers | MustCallOrRaise | RaiseTooLow

  /** The action names a player can send, after lower-casing. */
  datatype ActionKind = Fold | Check | Call | Raise | AllIn | Unknown

  /** ASCII lower-casing of one character. */
  function LowerChar(c: char): char {
    if 'A' <= c <= 'Z' then (c as int + 32) as char else c
  }

  /** ASCII lower-casing of a string: no upper-case ASCII letter is left,
      and every other character is kept. */
  function Lower(s: string): (r: string)
    ensures |r| == |s|
    ensures forall i | 0 <= i < |r| :: !('A' <= r[i] <= 'Z')
    ensures forall i | 0 <= i < |s| && !('A' <= s[i] <= 'Z') :: r[i] == s[i]
  {
    seq(|s|, i requires 0 <= i < |s| => LowerChar(s[i]))
  }

  /** Lower-casing a lower-cased string changes nothing. */
  lemma LowerIdempotent(s: string)
    ensures Lower(Lower(s)) == Lower(s)
  {
  }

  /** Case-insensitive equality of two identifiers. */
  predicate EqualsIgnoreCase(a: string, b: string) {
    Lower(a) == Lower(b)
  }

  /** The action a lower-cased action name selects; any other name is
      `Unknown`. */
  function ParseAction(s: string): (r: ActionKind)
    ensures r == Fold <==> EqualsIgnoreCase(s, "fold")
    ensures r == Check <==> EqualsIgnoreCase(s, "check")
    ensures r == Call <==> EqualsIgnoreCase(s, "call")
    ensures r == Raise <==> EqualsIgnoreCase(s, "raise")
    ensures r == AllIn <==> EqualsIgnoreCase(s, "allin")
  {
    assert Lower("fold") == "fold" && Lower("check") == "check" && Lower("call") == "call";
    assert Lower("raise") == "raise" && Lower("allin") == "allin";
    var l := Lower(s);
    if l == "fold" then Fold
    else if l == "check" then Check
    else if l == "call" then Call
    else if l == "raise" then Raise
    else if l == "allin" then AllIn
    else Unknown
  }

  /** Names that differ only in ASCII letter case select the same action. */
  lemma ParseActionIgnoresCase(a: string, b: string)
    requires EqualsIgnoreCase(a, b)
    ensures ParseAction(a) == ParseAction(b)
  {
  }

  // ---------------------------------------------------------------------
  // Counting seats

  /** A seat the turn passes over: folded or all-in. */
  predicate Skipped(s: Seat) {
    s.folded || s.allIn
  }

  /** Number of seats still in the hand. */
  function UnfoldedCount(seats: seq<Seat>): (n: nat)
    ensures n <= |seats|
    ensures n == 0 <==> forall i | 0 <= i < |seats| :: seats[i].folded
  {
    if seats == [] then 0
    else
      assert forall i | 1 <= i < |seats| :: seats[i] == seats[1..][i - 1];
      (if seats[0].folded then 0 else 1) + UnfoldedCount(seats[1..])
  }

  /** Number of seats still in the hand and not all-in: those who can act. */
  function ToActCount(seats: seq<Seat>): (n: nat)
    ensures n <= UnfoldedCount(seats)
    ensures n == 0 <==> forall i | 0 <= i < |seats| :: Skipped(seats[i])
  {
    if seats == [] then 0
    else
      assert forall i | 1 <= i < |seats| :: seats[i] == seats[1..][i - 1];
      (if Skipped(seats[0]) then 0 else 1) + ToActCount(seats[1..])
  }

  /** The first seat still in the hand. */
  function FirstUnfolded(seats: seq<Seat>): (k: nat)
    requires UnfoldedCount(seats) > 0
    ensures k < |seats| && !seats[k].folded
    ensures forall j | 0 <= j < k :: seats[j].folded
  {
    if !seats[0].folded then 0 else 1 + FirstUnfolded(seats[1..])
  }

  /** Replacing one seat changes the number of seats in the hand by the
      difference of the two seats' folded flags. */
  lemma {:induction false} UnfoldedCountUpdate(seats: seq<Seat>, i: nat, x: Seat)
    requires i < |seats|
    ensures UnfoldedCount(seats[i := x])
            == UnfoldedCount(seats) - (if seats[i].folded then 0 else 1) + (if x.folded then 0 else 1)
    ensures ToActCount(seats[i := x])
            == ToActCount(seats) - (if Skipped(seats[i]) then 0 else 1) + (if Skipped(x) then 0 else 1)
  {
    if i > 0 {
      assert seats[i := x][1..] == seats[1..][i - 1 := x];
      UnfoldedCountUpdate(seats[1..], i - 1, x);
    } else {
      assert seats[i := x][1..] == seats[1..];
    }
  }

  /** Seats with the same folded and all-in flags give the same counts. */
  lemma {:induction false} SameFlagsSameCounts(a: seq<Seat>, b: seq<Seat>)
    requires |a| == |b|
    requires forall i | 0 <= i < |a| :: a[i].folded == b[i].folded && a[i].allIn == b[i].allIn
    ensures UnfoldedCount(a) == UnfoldedCount(b) && ToActCount(a) == ToActCount(b)
  {
    if a != [] {
      assert forall i | 0 <= i < |a| - 1 :: a[1..][i] == a[i + 1] && b[1..][i] == b[i + 1];
      SameFlagsSameCounts(a[1..], b[1..]);
    }
  }

  /** Two different seats still in the hand make a count of at least two. */
  lemma TwoUnfolded(seats: seq<Seat>, j: nat, k: nat)
    requires j < |seats| && k < |seats| && j != k
    requires !seats[j].folded && !seats[k].folded
    ensures UnfoldedCount(seats) >= 2
  {
    var x := seats[k].(folded := true);
    UnfoldedCountUpdate(seats, k, x);
    assert seats[k := x][j] == seats[j];
  }

  /** When exactly one seat is still in the hand, that seat is the first
      one in the hand: the pot of a hand everybody else folded goes to it. */
  lemma SoleSurvivor(seats: seq<Seat>, j: nat)
    requires UnfoldedCount(seats) == 1 && j < |seats| && !seats[j].folded
    ensures j == FirstUnfolded(seats)
  {
    var k := FirstUnfolded(seats);
    if j != k {
      TwoUnfolded(seats, j, k);
    }
  }

  // ---------------------------------------------------------------------
  // Chips and cards on the seats

  /** Chips in front of the players. */
  function SumBalances(seats: seq<Seat>): int {
    if seats == [] then 0 else seats[0].balance + SumBalances(seats[1..])
  }

  /** Replacing one seat changes the chip total by the difference of the
      two stacks. */
  lemma {:induction false} SumBalancesUpdate(seats: seq<Seat>, i: nat, x: Seat)
    requires i < |seats|
    ensures SumBalances(seats[i := x]) == SumBalances(seats) - seats[i].balance + x.balance
  {
    if i > 0 {
      assert seats[i := x][1..] == seats[1..][i - 1 := x];
      assert seats[1..][i - 1] == seats[i] && seats[i := x][0] == seats[0];
      SumBalancesUpdate(seats[1..], i - 1, x);
    } else {
      assert seats[i := x][1..] == seats[1..];
    }
  }

  /** Seats with the same stacks hold the same chips. */
  lemma {:induction false} SameBalancesSameSum(a: seq<Seat>, b: seq<Seat>)
    requires |a| == |b| && forall i | 0 <= i < |a| :: a[i].balance == b[i].balance
    ensures SumBalances(a) == SumBalances(b)
  {
    if a != [] {
      assert forall i | 0 <= i < |a| - 1 :: a[1..][i] == a[i + 1] && b[1..][i] == b[i + 1];
      SameBalancesSameSum(a[1..], b[1..]);
    }
  }

  /** Replacing two different seats changes the chip total by the
      differences of both stacks. */
  lemma SumBalancesUpdateTwo(seats: seq<Seat>, i: nat, x: Seat, j: nat, y: Seat)
    requires i < |seats| && j < |seats| && i != j
    ensures SumBalances(seats[i := x][j := y])
            == SumBalances(seats) - seats[i].balance + x.balance - seats[j].balance + y.balance
  {
    SumBalancesUpdate(seats, i, x);
    SumBalancesUpdate(seats[i := x], j, y);
  }

  /** `RemoveAll(p => p.Balance <= 0)`: the seats that still have chips,
      in their order. */
  function Solvent(seats: seq<Seat>): (r: seq<Seat>)
    ensures |r| <= |seats|
    ensures forall x | x in r :: x in seats && x.balance > 0
    ensures forall x | x in seats && x.balance > 0 :: x in r
  {
    if seats == [] then []
    else
      var rest := Solvent(seats[1..]);
      if seats[0].balance > 0 then [seats[0]] + rest else rest
  }

  /** Every seat holds a non-negative stack and bet. */
  ghost predicate StacksOk(seats: seq<Seat>) {
    forall i | 0 <= i < |seats| :: seats[i].balance >= 0 && seats[i].bet >= 0
  }

  // ---------------------------------------------------------------------
  // One betting action

  /** What a betting action does to the acting seat: refused with an error,
      or the new seat, the chips it put in the pot (negative when chips come
      back), the table bet afterwards, and whether it raised. */
  datatype Outcome =
    | Refused(error: ErrorKind)
    | Acted(seat: Seat, paid: int, tableBet: int, raised: bool)

  /** The action `kind` by seat `s` against the table bet `tableBet`:
      fold; check (refused when behind); call, capped by the stack; raise
      to `amount`, capped by stack plus bet and refused unless above the
      table bet; all-in with the whole stack; any other name does nothing. */
  function Act(s: Seat, tableBet: int, kind: ActionKind, amount: int): (o: Outcome)
    ensures o.Refused? <==>
              (kind == Check && s.bet < tableBet)
              || (kind == Raise && Min(amount, s.balance + s.bet) <= tableBet)
    ensures o.Refused? ==> o.error == if kind == Check then MustCallOrRaise else RaiseTooLow
    // chips only move between the stack and the bet
    ensures o.Acted? ==> o.seat.balance == s.balance - o.paid && o.seat.bet == s.bet + o.paid
    // nothing but stack, bet and the two flags changes
    ensures o.Acted? ==> o.seat == s.(balance := o.seat.balance, bet := o.seat.bet,
                                       folded := o.seat.folded, allIn := o.seat.allIn)
    ensures o.Acted? ==> (o.seat.folded <==> s.folded || kind == Fold)
    ensures o.Acted? ==> (o.seat.allIn <==> s.allIn || (kind in {Call, Raise, AllIn} && o.seat.balance == 0))
    ensures o.Acted? && kind in {Fold, Check, Unknown} ==> o.paid == 0 && o.tableBet == tableBet && !o.raised
    ensures o.Acted? && s.balance >= 0 ==> o.seat.balance >= 0
    ensures o.Acted? && s.bet >= 0 && tableBet >= 0 && s.balance >= 0 ==> o.seat.bet >= 0 && o.tableBet >= 0
    ensures o.Acted? ==> (o.raised <==> o.seat.bet > tableBet && kind in {Raise, AllIn})
    ensures o.Acted? && o.raised ==> o.tableBet == o.seat.bet
    ensures o.Acted? && !o.raised ==> o.tableBet == tableBet
    ensures kind == AllIn ==> o.Acted? && o.seat.balance == 0 && o.seat.allIn
    // the amounts: a call pays the shortfall capped by the stack, a raise
    // brings the bet to the amount capped by stack plus bet, an all-in
    // pays the whole stack
    ensures kind == Call ==> o.Acted? && o.paid == Min(tableBet - s.bet, s.balance)
    ensures kind == Raise && o.Acted? ==> o.raised && o.seat.bet == Min(amount, s.balance + s.bet)
    ensures kind == AllIn ==> o.paid == s.balance
  {
    match kind
    case Fold => Acted(s.(folded := true), 0, tableBet, false)
    case Check => if s.bet < tableBet then Refused(MustCallOrRaise) else Acted(s, 0, tableBet, false)
    case Call =>
      var c := Min(tableBet - s.bet, s.balance);
      var b := s.balance - c;
      Acted(s.(balance := b, bet := s.bet + c, allIn := s.allIn || b == 0), c, tableBet, false)
    case Raise =>
      var r := Min(amount, s.balance + s.bet);
      if r <= tableBet then Refused(RaiseTooLow)
      else
        var add := r - s.bet;
        var b := s.balance - add;
        Acted(s.(balance := b, bet := r, allIn := s.allIn || b == 0), add, r, true)
    case AllIn =>
      var bet := s.bet + s.balance;
      Acted(s.(balance := 0, bet := bet, allIn := true), s.balance, if bet > tableBet then bet else tableBet, bet > tableBet)
    case Unknown => Acted(s, 0, tableBet, false)
  }

  /** A call from a seat whose bet is above the table bet (a big blind
      posted short, below the small blind) pays a negative amount: chips go
      back from the pot to the stack and the bet drops to the table bet. */
  lemma CallAboveTableBetRefunds(s: Seat, tableBet: int)
    requires s.bet > tableBet && s.balance >= 0
    ensures Act(s, tableBet, Call, 0).paid < 0
    ensures Act(s, tableBet, Call, 0).seat.bet == tableBet
  {
  }

  /** A call that the stack covers brings the bet level with the table;
      one it does not cover puts the whole stack in and is all-in. */
  lemma CallMatchesOrAllIn(s: Seat, tableBet: int)
    requires s.bet <= tableBet && s.balance >= 0
    ensures var o := Act(s, tableBet, Call, 0);
            && o.Acted?
            && (tableBet - s.bet <= s.balance ==>
                  o.paid == tableBet - s.bet && o.seat.bet == tableBet && o.seat.balance == s.balance - o.paid)
            && (tableBet - s.bet > s.balance ==>
                  o.paid == s.balance && o.seat.bet < tableBet && o.seat.balance == 0 && o.seat.allIn)
  {
  }

  // ---------------------------------------------------------------------
  // Positions around the table

  /** The next seat clockwise. */
  function Succ(i: nat, n: nat): (j: nat)
    requires i < n
    ensures j < n
  {
    if i + 1 == n then 0 else i + 1
  }

  /** Seat of the small blind, the big blind and the first to act once the
      button is at `dealer`: one, two and three seats clockwise from it. */
  function SmallBlindSeat(dealer: nat, n: nat): (k: nat)
    requires dealer < n
    ensures k < n
  {
    Succ(dealer, n)
  }

  function BigBlindSeat(dealer: nat, n: nat): (k: nat)
    requires dealer < n
    ensures k < n
  {
    Succ(SmallBlindSeat(dealer, n), n)
  }

  function FirstToActSeat(dealer: nat, n: nat): (k: nat)
    requires dealer < n
    ensures k < n
  {
    Succ(BigBlindSeat(dealer, n), n)
  }

  /** How many steps clockwise lead from seat `a` to seat `b`. */
  function Dist(a: nat, b: nat, n: nat): (d: nat)
    requires a < n && b < n
    ensures d < n && (d == 0 <==> a == b)
  {
    if a <= b then b - a else b - a + n
  }

  /** The clockwise steps are the hub's modular seat arithmetic: the blinds
      and the first to act sit at `dealer + 1`, `dealer + 2` and
      `dealer + 3` modulo the number of seats. */
  lemma BlindsFollowButton(dealer: nat, n: nat)
    requires dealer < n
    ensures SmallBlindSeat(dealer, n) == (dealer + 1) % n
    ensures BigBlindSeat(dealer, n) == (dealer + 2) % n
    ensures FirstToActSeat(dealer, n) == (dealer + 3) % n
  {
    if n == 1 {
      assert (dealer + 1) % n == 0 && (dealer + 2) % n == 0 && (dealer + 3) % n == 0;
    } else {
      ModBelowThrice(dealer + 1, n);
      ModBelowThrice(dealer + 2, n);
      ModBelowThrice(dealer + 3, n);
    }
  }

  /** Euclidean remainder of a number below three times the divisor. */
  lemma ModBelowThrice(a: nat, n: nat)
    requires 0 < n && a < 3 * n
    ensures a % n == if a < n then a else if a < 2 * n then a - n else a - 2 * n
  {
    var r := if a < n then a else if a < 2 * n then a - n else a - 2 * n;
    var q := if a < n then 0 else if a < 2 * n then 1 else 2;
    assert a == q * n + r && 0 <= r < n;
  }

  /** With two players the button posts the big blind and the other player,
      the small blind, acts first before the flop. */
  lemma HeadsUpButtonIsBigBlind(dealer: nat)
    requires dealer < 2
    ensures BigBlindSeat(dealer, 2) == dealer
    ensures SmallBlindSeat(dealer, 2) != dealer
    ensures FirstToActSeat(dealer, 2) == SmallBlindSeat(dealer, 2)
  {
  }

  /** From three players on, the button and the two blinds are three
      different seats. */
  lemma BlindsDistinct(dealer: nat, n: nat)
    requires dealer < n && n >= 2
    ensures SmallBlindSeat(dealer, n) != BigBlindSeat(dealer, n)
    ensures n >= 3 ==> dealer != SmallBlindSeat(dealer, n) && dealer != BigBlindSeat(dealer, n)
  {
  }

  /** A seat posting a blind of `amount`: the stack pays it, the bet is set
      to it, and a stack emptied by it is all-in. */
  function Blind(s: Seat, amount: int): Seat {
    s.(balance := s.balance - amount, bet := amount, allIn := s.allIn || s.balance - amount == 0)
  }

  /** The small blind actually paid: the blind, capped by the stack. */
  function SmallBlindPaid(seats: seq<Seat>, dealer: nat): int
    requires dealer < |seats|
  {
    Min(SmallBlind, seats[SmallBlindSeat(dealer, |seats|)].balance)
  }

  /** The big blind actually paid: the blind, capped by the stack. */
  function BigBlindPaid(seats: seq<Seat>, dealer: nat): int
    requires dealer < |seats|
  {
    Min(BigBlind, seats[BigBlindSeat(dealer, |seats|)].balance)
  }

  /** The seats once the two seats after the button have posted their
      blinds. Posting takes no cards and folds nobody. */
  function Posted(seats: seq<Seat>, dealer: nat): (r: seq<Seat>)
    requires 2 <= |seats| && dealer < |seats|
    ensures |r| == |seats| && SamePlayers(seats, r)
    ensures forall i | 0 <= i < |r| ::
              r[i].hand == seats[i].hand && r[i].folded == seats[i].folded && r[i].playerId == seats[i].playerId
  {
    var n := |seats|;
    var sb, bb := SmallBlindSeat(dealer, n), BigBlindSeat(dealer, n);
    seats[sb := Blind(seats[sb], SmallBlindPaid(seats, dealer))][bb := Blind(seats[bb], BigBlindPaid(seats, dealer))]
  }

  /** Posting the blinds: the small blind seat bets what it pays of the
      small blind and the big blind seat what it pays of the big blind,
      both stacks fall by as much, no stack goes negative, and a stack the
      blind empties is all-in. */
  lemma PostedBlinds(seats: seq<Seat>, dealer: nat)
    requires 2 <= |seats| && dealer < |seats| && StacksOk(seats)
    ensures var r, n := Posted(seats, dealer), |seats|;
            var sb, bb := SmallBlindSeat(dealer, n), BigBlindSeat(dealer, n);
            && r[sb].bet == SmallBlindPaid(seats, dealer) && r[sb].balance == seats[sb].balance - r[sb].bet
            && r[bb].bet == BigBlindPaid(seats, dealer) && r[bb].balance == seats[bb].balance - r[bb].bet
            && 0 <= r[sb].bet <= SmallBlind && 0 <= r[bb].bet <= BigBlind
            && (r[sb].balance == 0 ==> r[sb].allIn) && (r[bb].balance == 0 ==> r[bb].allIn)
            && StacksOk(r)
  {
    BlindsDistinct(dealer, |seats|);
  }

  /** Posting the blinds leaves every other seat untouched. */
  lemma PostedOthersUntouched(seats: seq<Seat>, dealer: nat)
    requires 2 <= |seats| && dealer < |seats|
    ensures forall i | 0 <= i < |seats| && i != SmallBlindSeat(dealer, |seats|) && i != BigBlindSeat(dealer, |seats|) ::
              Posted(seats, dealer)[i] == seats[i]
  {
  }

  /** The chips paid as blinds leave the stacks. */
  lemma PostedChips(seats: seq<Seat>, dealer: nat)
    requires 2 <= |seats| && dealer < |seats|
    ensures SumBalances(Posted(seats, dealer)) + SmallBlindPaid(seats, dealer) + BigBlindPaid(seats, dealer)
            == SumBalances(seats)
  {
    var n := |seats|;
    var sb, bb := SmallBlindSeat(dealer, n), BigBlindSeat(dealer, n);
    BlindsDistinct(dealer, n);
    var x, y := Blind(seats[sb], SmallBlindPaid(seats, dealer)), Blind(seats[bb], BigBlindPaid(seats, dealer));
    SumBalancesUpdateTwo(seats, sb, x, bb, y);
  }

  // ---------------------------------------------------------------------
  // The hub's walks over the seats

  /** The seat the turn passes to from `start`: the first seat clockwise
      after it that can act, or `start` itself when there is none. */
  function NextTurn(seats: seq<Seat>, start: nat): (next: nat)
    requires start < |seats|
    ensures next < |seats|
  {
    WalkFrom(seats, start, Succ(start, |seats|))
  }

  /** The first seat from `k` on, clockwise and stopping at `start`, that
      can act. */
  function WalkFrom(seats: seq<Seat>, start: nat, k: nat): (next: nat)
    requires start < |seats| && k < |seats|
    ensures next < |seats|
    decreases |seats| - Reach(start, k, |seats|)
  {
    if k == start || !Skipped(seats[k]) then k
    else
      DistStep(start, k, start, |seats|);
      WalkFrom(seats, start, Succ(k, |seats|))
  }

  /** The turn moves on clockwise from `start` at least once, passing over
      folded and all-in seats, and stops at the first seat that can act or
      back at `start`. Every seat passed over is folded or all-in. */
  method MoveTurn(seats: seq<Seat>, start: nat) returns (next: nat)
    requires start < |seats|
    ensures next == NextTurn(seats, start)
    ensures next < |seats|
    ensures next == start || !Skipped(seats[next])
    ensures forall j | 0 <= j < |seats| && 0 < Dist(start, j, |seats|) < Reach(start, next, |seats|) ::
              Skipped(seats[j])
    ensures next == start ==> forall j | 0 <= j < |seats| && j != start :: Skipped(seats[j])
  {
    var n := |seats|;
    next := Succ(start, n);
    while Skipped(seats[next]) && next != start
      invariant next < n && 0 < Reach(start, next, n) <= n
      invariant next != start ==> Reach(start, next, n) == Dist(start, next, n)
      invariant forall j | 0 <= j < n && 0 < Dist(start, j, n) < Reach(start, next, n) :: Skipped(seats[j])
      invariant WalkFrom(seats, start, next) == NextTurn(seats, start)
      decreases n - Reach(start, next, n)
    {
      DistStep(start, next, start, n);
      next := Succ(next, n);
    }
  }

  /** Steps from `start` to `next`, a full round when they coincide. */
  function Reach(start: nat, next: nat, n: nat): (d: nat)
    requires start < n && next < n
    ensures 0 < d <= n
  {
    if next == start then n else Dist(start, next, n)
  }

  /** One step clockwise adds one to the distance from a fixed seat, unless
      it comes back to that seat, and takes one from the distance to a
      fixed seat not yet reached. */
  lemma DistStep(from: nat, k: nat, w: nat, n: nat)
    requires from < n && k < n && w < n
    ensures Succ(k, n) != from ==> Dist(from, Succ(k, n), n) == Dist(from, k, n) + 1
    ensures Succ(k, n) == from ==> Dist(from, k, n) == n - 1
    ensures k != w ==> Dist(Succ(k, n), w, n) == Dist(k, w, n) - 1
  {
  }

  /** Seat `k` is the first seat at or after `from`, clockwise, that can
      act. */
  predicate FirstActorIs(seats: seq<Seat>, from: nat, k: nat) {
    && from < |seats| && k < |seats| && !Skipped(seats[k])
    && forall j | 0 <= j < |seats| && Dist(from, j, |seats|) < Dist(from, k, |seats|) :: Skipped(seats[j])
  }

  /** There is only one first seat that can act. */
  lemma FirstActorUnique(seats: seq<Seat>, from: nat, a: nat, b: nat)
    requires FirstActorIs(seats, from, a) && FirstActorIs(seats, from, b)
    ensures a == b
  {
    DistAtMostOnce(from, a, |seats|);
  }

  /** The seat found by looking at `k` and then at most `steps` seats
      further clockwise for one that can act. */
  function ActorWalk(seats: seq<Seat>, k: nat, steps: nat): (r: nat)
    requires k < |seats|
    ensures r < |seats|
    decreases steps
  {
    if steps == 0 || !Skipped(seats[k]) then k else ActorWalk(seats, Succ(k, |seats|), steps - 1)
  }

  /** The seat after the button, where the search for the first seat to
      act on a street starts. */
  function AfterButton(dealer: nat, n: nat): (from: nat)
    requires n > 0
    ensures from < n
  {
    (dealer + 1) % n
  }

  /** The seat the hub gives the turn to when a street opens: the first
      seat at or after `from`, clockwise, that can act. */
  function FirstActor(seats: seq<Seat>, from: nat): (k: nat)
    requires from < |seats|
    ensures k < |seats|
  {
    ActorWalk(seats, from, |seats| - 1)
  }

  /** The walk, started at a seat with every seat before it skipped,
      ends at the first seat that can act, when one exists. */
  lemma {:induction false} ActorWalkFinds(seats: seq<Seat>, from: nat, k: nat, steps: nat)
    requires from < |seats| && k < |seats| && Dist(from, k, |seats|) + steps == |seats| - 1
    requires forall j | 0 <= j < |seats| && Dist(from, j, |seats|) < Dist(from, k, |seats|) :: Skipped(seats[j])
    requires ToActCount(seats) > 0
    ensures FirstActorIs(seats, from, ActorWalk(seats, k, steps))
    decreases steps
  {
    var n := |seats|;
    if Skipped(seats[k]) {
      var w :| 0 <= w < n && !Skipped(seats[w]);
      DistAtMostOnce(from, k, n);
      assert Dist(from, k, n) < Dist(from, w, n);
      DistStep(from, k, from, n);
      ActorWalkFinds(seats, from, Succ(k, n), steps - 1);
    }
  }

  /** When some seat can act, `FirstActor` is the first one. */
  lemma FirstActorFirst(seats: seq<Seat>, from: nat)
    requires from < |seats| && ToActCount(seats) > 0
    ensures FirstActorIs(seats, from, FirstActor(seats, from))
  {
    ActorWalkFinds(seats, from, from, |seats| - 1);
  }

  /** Seats that agree on who is folded or all-in agree on the walk. */
  lemma {:induction false} SameSkipsSameWalk(a: seq<Seat>, b: seq<Seat>, k: nat, steps: nat)
    requires |a| == |b| && k < |a| && forall i | 0 <= i < |a| :: Skipped(a[i]) == Skipped(b[i])
    ensures ActorWalk(a, k, steps) == ActorWalk(b, k, steps)
    decreases steps
  {
    if steps > 0 && Skipped(a[k]) {
      SameSkipsSameWalk(a, b, Succ(k, |a|), steps - 1);
    }
  }

  /** Seats that agree on who is folded or all-in agree on the first seat
      that can act, whatever their bets. */
  lemma SameSkipsSameFirstActor(a: seq<Seat>, b: seq<Seat>, from: nat)
    requires |a| == |b| && from < |a| && forall i | 0 <= i < |a| :: Skipped(a[i]) == Skipped(b[i])
    ensures FirstActor(a, from) == FirstActor(b, from)
  {
    SameSkipsSameWalk(a, b, from, |a| - 1);
  }

  /** The first seat at or after `from`, clockwise, that can act. */
  method FirstActorFrom(seats: seq<Seat>, from: nat) returns (k: nat)
    requires from < |seats| && ToActCount(seats) > 0
    ensures k == FirstActor(seats, from)
    ensures FirstActorIs(seats, from, k)
  {
    var n := |seats|;
    ghost var w :| 0 <= w < n && !Skipped(seats[w]);
    k := from;
    while Skipped(seats[k])
      invariant k < n && Dist(from, k, n) <= Dist(from, w, n)
      invariant forall j | 0 <= j < n && Dist(from, j, n) < Dist(from, k, n) :: Skipped(seats[j])
      invariant ActorWalk(seats, k, n - 1 - Dist(from, k, n)) == FirstActor(seats, from)
      decreases Dist(k, w, n)
    {
      assert k != w;
      DistStep(from, k, w, n);
      DistStep(from, k, from, n);
      DistAtMostOnce(from, k, n);
      k := Succ(k, n);
    }
  }

  /** Distinct seats lie at distinct distances from a fixed seat. */
  lemma DistAtMostOnce(from: nat, k: nat, n: nat)
    requires from < n && k < n
    ensures forall j | 0 <= j < n && Dist(from, j, n) == Dist(from, k, n) :: j == k
  {
  }

  /** No seat that can act has put in less than the table bet. */
  predicate NoneBehind(seats: seq<Seat>, tableBet: int) {
    forall i | 0 <= i < |seats| :: !Skipped(seats[i]) ==> seats[i].bet >= tableBet
  }

  /** Every seat that can act has exactly the table bet in. */
  predicate AllBetsEqual(seats: seq<Seat>, tableBet: int) {
    forall i | 0 <= i < |seats| :: !Skipped(seats[i]) ==> seats[i].bet == tableBet
  }

  /** The state a street starts from: every bet and the table bet are 0,
      and nobody has raised. */
  predicate BetsCleared(seats: seq<Seat>, tableBet: int, lastRaiser: int) {
    tableBet == 0 && lastRaiser == -1 && forall i | 0 <= i < |seats| :: seats[i].bet == 0
  }

  /** AdvanceGame's test for the end of a street, once the turn has passed
      to `next`: every seat that can act has the table bet in, or the turn
      is back at the last raiser and only one seat can act. The hub's
      second branch (bets equal, some seat can act, and nobody behind) adds
      nothing, since equal bets leave nobody behind. */
  predicate StreetCloses(seats: seq<Seat>, tableBet: int, next: nat, lastRaiser: int) {
    AllBetsEqual(seats, tableBet) || (next == lastRaiser && ToActCount(seats) == 1)
  }

  /** The hub's "has everyone acted" scan over the seats that can act. */
  method EveryoneActed(seats: seq<Seat>, tableBet: int) returns (acted: bool)
    ensures acted <==> NoneBehind(seats, tableBet)
  {
    acted := true;
    for i := 0 to |seats|
      invariant acted <==> forall j | 0 <= j < i :: !Skipped(seats[j]) ==> seats[j].bet >= tableBet
    {
      if !Skipped(seats[i]) && seats[i].bet < tableBet {
        acted := false;
      }
    }
  }

  /** Equal bets already mean nobody is behind, so the scan above can never
      report that someone still has to act once the bets are equal. */
  lemma EqualBetsMeanEveryoneActed(seats: seq<Seat>, tableBet: int)
    requires AllBetsEqual(seats, tableBet)
    ensures NoneBehind(seats, tableBet)
  {
  }

  /** After the bets are reset for a new street (every bet and the table
      bet 0) the bets are equal, so the betting round counts as complete
      as soon as one seat that can act has moved. */
  lemma ResetStreetIsComplete(seats: seq<Seat>)
    requires forall i | 0 <= i < |seats| :: seats[i].bet == 0
    ensures AllBetsEqual(seats, 0)
  {
  }

  /** The new-round reset of a seat: no cards, no bet, in the hand. */
  function Cleared(s: Seat): Seat {
    s.(hand := [], bet := 0, folded := false, allIn := false)
  }

  /** The hub's reset loop at the start of a round. */
  method ClearSeats(seats: seq<Seat>) returns (r: seq<Seat>)
    ensures |r| == |seats| && forall i | 0 <= i < |r| :: r[i] == Cleared(seats[i])
    ensures StacksOk(seats) ==> StacksOk(r)
    ensures SumBalances(r) == SumBalances(seats)
  {
    r := seats;
    for i := 0 to |seats|
      invariant |r| == |seats|
      invariant forall j | 0 <= j < i :: r[j] == Cleared(seats[j])
      invariant forall j | i <= j < |r| :: r[j] == seats[j]
    {
      r := r[i := Cleared(r[i])];
    }
    SameBalancesSameSum(seats, r);
  }

  /** The hub's reset of every bet when a street ends. */
  method ClearBets(seats: seq<Seat>) returns (r: seq<Seat>)
    ensures |r| == |seats| && forall i | 0 <= i < |r| :: r[i] == seats[i].(bet := 0)
    ensures UnfoldedCount(r) == UnfoldedCount(seats) && ToActCount(r) == ToActCount(seats)
    ensures StacksOk(seats) ==> StacksOk(r)
  {
    r := seats;
    for i := 0 to |seats|
      invariant |r| == |seats|
      invariant forall j | 0 <= j < i :: r[j] == seats[j].(bet := 0)
      invariant forall j | i <= j < |r| :: r[j] == seats[j]
    {
      r := r[i := r[i].(bet := 0)];
    }
    SameFlagsSameCounts(r, seats);
  }

  /** The hub's deal of two hole cards to each seat in turn from the top of
      the deck: seat `i` receives the cards at positions `2i` and `2i+1`. */
  method DealHoleCards(seats: seq<Seat>, deck: seq<Card>) returns (dealt: seq<Seat>, rest: seq<Card>)
    requires |deck| >= 2 * |seats|
    ensures dealt == WithHoleCards(seats, deck) && rest == deck[2 * |seats|..]
    ensures StacksOk(seats) ==> StacksOk(dealt)
    ensures SumBalances(dealt) == SumBalances(seats)
  {
    dealt, rest := seats, deck;
    for i := 0 to |seats|
      invariant |dealt| == |seats| && rest == deck[2 * i..]
      invariant forall j | 0 <= j < i ::
                  dealt[j] == seats[j].(hand := seats[j].hand + [deck[2 * j], deck[2 * j + 1]])
      invariant forall j | i <= j < |seats| :: dealt[j] == seats[j]
    {
      var p := dealt[i];
      assert rest[0] == deck[2 * i] && rest[1] == deck[2 * i + 1] && rest[2..] == deck[2 * (i + 1)..];
      p := p.(hand := p.hand + [rest[0], rest[1]]);
      dealt, rest := dealt[i := p], rest[2..];
    }
    SameBalancesSameSum(seats, dealt);
  }

  /** The seats once seat `i` holds its hand plus the cards at positions
      `2i` and `2i+1` of the deck. */
  function WithHoleCards(seats: seq<Seat>, deck: seq<Card>): (r: seq<Seat>)
    requires |deck| >= 2 * |seats|
    ensures |r| == |seats| && SamePlayers(seats, r)
    ensures forall i | 0 <= i < |r| :: r[i].hand == seats[i].hand + [deck[2 * i], deck[2 * i + 1]]
  {
    seq(|seats|, i requires 0 <= i < |seats| => seats[i].(hand := seats[i].hand + [deck[2 * i], deck[2 * i + 1]]))
  }

  /** Seats that start the round with no cards and in the hand end the
      deal with two hole cards each, still in the hand, however the blinds
      fell. */
  lemma DealtAfterBlinds(seats: seq<Seat>, dealer: nat, deck: seq<Card>)
    requires 2 <= |seats| && dealer < |seats| && |deck| >= 2 * |seats|
    requires forall i | 0 <= i < |seats| :: seats[i].hand == [] && !seats[i].folded
    ensures forall i | 0 <= i < |seats| ::
              WithHoleCards(Posted(seats, dealer), deck)[i].hand == [deck[2 * i], deck[2 * i + 1]]
              && !WithHoleCards(Posted(seats, dealer), deck)[i].folded
  {
  }

  /** Cards at the odd positions of `s`: what a burn-and-turn walk deals. */
  function EveryOther(s: seq<Card>): (r: seq<Card>)
    ensures |r| == |s| / 2
  {
    if |s| < 2 then [] else [s[1]] + EveryOther(s[2..])
  }

  /** The hub's deal of the remaining community cards: while fewer than
      five are out and the deck is not empty, burn one card and, if any is
      left, turn the next one. A full board or an empty deck deals nothing;
      with enough cards the board is completed from the odd positions of
      the deck, the even ones being burnt. */
  method RevealRest(deck: seq<Card>, community: seq<Card>) returns (deck': seq<Card>, community': seq<Card>)
    ensures |community| >= 5 || deck == [] ==> deck' == deck && community' == community
    ensures |community| <= 5 ==> |community'| <= 5
    ensures |community'| >= 5 || deck' == []
    ensures |community| <= 5 && |deck| >= 2 * (5 - |community|) ==>
              && community' == community + EveryOther(deck[..2 * (5 - |community|)])
              && deck' == deck[2 * (5 - |community|)..]
  {
    deck', community' := deck, community;
    ghost var full := |community| <= 5 && |deck| >= 2 * (5 - |community|);
    ghost var dealtNow := 0;
    while |community'| < 5 && |deck'| > 0
      invariant |community| <= 5 ==> |community'| <= 5
      invariant |community'| >= |community| && |deck'| <= |deck|
      invariant |community| >= 5 || deck == [] ==> deck' == deck && community' == community
      invariant full ==> dealtNow == 2 * (|community'| - |community|) && dealtNow <= |deck|
      invariant full ==> deck' == deck[dealtNow..] && community' == community + EveryOther(deck[..dealtNow])
      decreases |deck'|
    {
      ghost var board, pile := community', deck';
      deck' := deck'[1..];
      if |deck'| > 0 {
        community' := community' + [deck'[0]];
        deck' := deck'[1..];
      }
      if full {
        assert |pile| >= 2 && pile[1] == deck[dealtNow + 1] && deck' == deck[dealtNow + 2..];
        TurnStep(deck, community, board, dealtNow);
        dealtNow := dealtNow + 2;
      }
    }
  }

  /** Burning the card at an even position and turning the next one
      extends the board by the card at the odd position. */
  lemma TurnStep(deck: seq<Card>, community: seq<Card>, c: seq<Card>, d: nat)
    requires d + 2 <= |deck| && d % 2 == 0
    requires c == community + EveryOther(deck[..d])
    ensures c + [deck[d + 1]] == community + EveryOther(deck[..d + 2])
  {
    assert deck[..d + 2] == deck[..d] + [deck[d], deck[d + 1]];
    EveryOtherAppend(deck[..d], deck[d], deck[d + 1]);
  }

  lemma {:induction false} EveryOtherAppend(s: seq<Card>, a: Card, b: Card)
    requires |s| % 2 == 0
    ensures EveryOther(s + [a, b]) == EveryOther(s) + [b]
  {
    if |s| >= 2 {
      assert (s + [a, b])[2..] == s[2..] + [a, b];
      EveryOtherAppend(s[2..], a, b);
    } else {
      assert s == [];
    }
  }

  // ---------------------------------------------------------------------
  // Showdown

  /** One evaluated hand at the showdown with its owner's name. */
  datatype Entry = Entry(name: string, result: HandResult)

  /** The showdown order of one entry. */
  function EntryKey(e: Entry): int {
    ShowdownKey(e.result)
  }

  /** A hand evaluator: hole cards and board to a result, or None. */
  type Evaluator = (seq<Card>, seq<Card>) -> Option<HandResult>

  /** The hands of the seats still in, evaluated in seat order; None when
      the evaluation of one of them fails. */
  function Contenders(seats: seq<Seat>, community: seq<Card>, evaluate: Evaluator): Option<seq<Entry>> {
    if seats == [] then Some([])
    else
      var n := |seats| - 1;
      var r0 := Contenders(seats[..n], community, evaluate);
      if r0.None? then None
      else if seats[n].folded then r0
      else
        var h := evaluate(seats[n].hand, community);
        if h.None? then None else Some(r0.value + [Entry(seats[n].name, h.value)])
  }

  lemma {:induction false} CountAppend(seats: seq<Seat>, x: Seat)
    ensures UnfoldedCount(seats + [x]) == UnfoldedCount(seats) + (if x.folded then 0 else 1)
  {
    if seats != [] {
      assert (seats + [x])[1..] == seats[1..] + [x];
      CountAppend(seats[1..], x);
    }
  }

  /** Contenders of one more seat: the previous ones, then that seat's
      evaluated hand when it is still in. */
  lemma ContendersSnoc(s: seq<Seat>, x: Seat, community: seq<Card>, evaluate: Evaluator)
    ensures Contenders(s + [x], community, evaluate)
            == if Contenders(s, community, evaluate).None? then None
               else if x.folded then Contenders(s, community, evaluate)
               else if evaluate(x.hand, community).None? then None
               else Some(Contenders(s, community, evaluate).value + [Entry(x.name, evaluate(x.hand, community).value)])
  {
    assert (s + [x])[..|s|] == s;
  }

  /** Every contender is the evaluated hand of a seat still in the hand,
      one per such seat. */
  lemma {:induction false} ContendersAreSeats(seats: seq<Seat>, community: seq<Card>, evaluate: Evaluator)
    requires Contenders(seats, community, evaluate).Some?
    ensures |Contenders(seats, community, evaluate).value| == UnfoldedCount(seats)
    ensures forall e | e in Contenders(seats, community, evaluate).value ::
              exists i | 0 <= i < |seats| :: !seats[i].folded && seats[i].name == e.name
                                             && evaluate(seats[i].hand, community) == Some(e.result)
  {
    if seats != [] {
      var n := |seats| - 1;
      var init := seats[..n];
      assert seats == init + [seats[n]];
      ContendersSnoc(init, seats[n], community, evaluate);
      ContendersAreSeats(init, community, evaluate);
      CountAppend(init, seats[n]);
      forall e | e in Contenders(seats, community, evaluate).value
        ensures exists i | 0 <= i < |seats| :: !seats[i].folded && seats[i].name == e.name
                                               && evaluate(seats[i].hand, community) == Some(e.result)
      {
        if e in Contenders(init, community, evaluate).value {
          var i :| 0 <= i < |init| && !init[i].folded && init[i].name == e.name
                   && evaluate(init[i].hand, community) == Some(e.result);
          assert init[i] == seats[i];
        } else {
          assert seats[n].name == e.name;
        }
      }
    }
  }

  /** With an evaluator that handles every five-card view, as the hand
      evaluator does, no evaluation fails once every seat still in sees at
      least five cards. */
  lemma {:induction false} ContendersDefined(seats: seq<Seat>, community: seq<Card>, evaluate: Evaluator)
    requires forall h, c :: |h + c| >= 5 ==> evaluate(h, c).Some?
    requires forall i | 0 <= i < |seats| :: !seats[i].folded ==> |seats[i].hand + community| >= 5
    ensures Contenders(seats, community, evaluate).Some?
  {
    if seats != [] {
      var n := |seats| - 1;
      var init := seats[..n];
      assert seats == init + [seats[n]];
      ContendersSnoc(init, seats[n], community, evaluate);
      ContendersDefined(init, community, evaluate);
    }
  }

  /** Once the evaluation fails for some seat, it fails for the whole table. */
  lemma {:induction false} ContendersPrefixNone(seats: seq<Seat>, i: nat, community: seq<Card>, evaluate: Evaluator)
    requires i <= |seats| && Contenders(seats[..i], community, evaluate).None?
    ensures Contenders(seats, community, evaluate).None?
    decreases |seats| - i
  {
    if i < |seats| {
      assert seats[..i + 1] == seats[..i] + [seats[i]];
      ContendersSnoc(seats[..i], seats[i], community, evaluate);
      ContendersPrefixNone(seats, i + 1, community, evaluate);
    } else {
      assert seats[..i] == seats;
    }
  }

  /** The hub's evaluation loop over the seats still in. */
  method EvaluateContenders(seats: seq<Seat>, community: seq<Card>, evaluate: Evaluator) returns (r: Option<seq<Entry>>)
    ensures r == Contenders(seats, community, evaluate)
  {
    var acc: seq<Entry> := [];
    for i := 0 to |seats|
      invariant Contenders(seats[..i], community, evaluate) == Some(acc)
    {
      assert seats[..i + 1] == seats[..i] + [seats[i]];
      ContendersSnoc(seats[..i], seats[i], community, evaluate);
      if !seats[i].folded {
        var h := evaluate(seats[i].hand, community);
        if h.None? {
          ContendersPrefixNone(seats, i + 1, community, evaluate);
          return None;
        }
        acc := acc + [Entry(seats[i].name, h.value)];
      }
    }
    assert seats[..|seats|] == seats;
    r := Some(acc);
  }

  /** The entries from best to worst; entries that compare equal keep their
      seat order. */
  function Ranking(es: seq<Entry>): seq<Entry> {
    SortDesc(es, EntryKey)
  }

  /** The winner is one of the contenders and no contender's hand ranks
      ahead of it. */
  lemma WinnerRanksFirst(es: seq<Entry>)
    requires es != []
    ensures |Ranking(es)| == |es| && Ranking(es)[0] in es
    ensures forall e | e in es :: !RanksAhead(e.result, Ranking(es)[0].result)
  {
    var w := Ranking(es)[0];
    SortDescMembers(es, EntryKey, w);
    forall e | e in es ensures !RanksAhead(e.result, w.result) {
      SortDescHeadIsMax(es, EntryKey, e);
      ShowdownKeyOrder(e.result, w.result);
    }
  }

  /** The first seat still in the hand with the given name: where the pot
      goes, whichever seat of that name held the winning hand. */
  function FirstNamed(seats: seq<Seat>, name: string): (k: Option<nat>)
    ensures k.Some? ==> k.value < |seats| && !seats[k.value].folded && seats[k.value].name == name
    ensures k.Some? ==> forall j | 0 <= j < k.value :: seats[j].folded || seats[j].name != name
    ensures k.None? <==> forall j | 0 <= j < |seats| :: seats[j].folded || seats[j].name != name
  {
    if seats == [] then None
    else if !seats[0].folded && seats[0].name == name then Some(0)
    else
      assert forall j | 1 <= j < |seats| :: seats[j] == seats[1..][j - 1];
      var t := FirstNamed(seats[1..], name);
      if t.None? then None else Some(t.value + 1)
  }

  /** The first seat with the given connection. */
  function FindConnection(seats: seq<Seat>, connection: string): (k: Option<nat>)
    ensures k.Some? ==> k.value < |seats| && seats[k.value].connection == connection
    ensures k.Some? ==> forall j | 0 <= j < k.value :: seats[j].connection != connection
    ensures k.None? <==> forall j | 0 <= j < |seats| :: seats[j].connection != connection
  {
    if seats == [] then None
    else if seats[0].connection == connection then Some(0)
    else
      assert forall j | 1 <= j < |seats| :: seats[j] == seats[1..][j - 1];
      var t := FindConnection(seats[1..], connection);
      if t.None? then None else Some(t.value + 1)
  }

  /** The first seat whose player identifier matches, ignoring case. */
  function FindPlayer(seats: seq<Seat>, playerId: string): (k: Option<nat>)
    ensures k.Some? ==> k.value < |seats| && EqualsIgnoreCase(seats[k.value].playerId, playerId)
    ensures k.Some? ==> forall j | 0 <= j < k.value :: !EqualsIgnoreCase(seats[j].playerId, playerId)
    ensures k.None? <==> forall j | 0 <= j < |seats| :: !EqualsIgnoreCase(seats[j].playerId, playerId)
  {
    if seats == [] then None
    else if EqualsIgnoreCase(seats[0].playerId, playerId) then Some(0)
    else
      assert forall j | 1 <= j < |seats| :: seats[j] == seats[1..][j - 1];
      var t := FindPlayer(seats[1..], playerId);
      if t.None? then None else Some(t.value + 1)
  }

  /** The name on the best hand at the showdown; none when a hand cannot
      be evaluated or nobody is still in. */
  function ShowdownWinner(seats: seq<Seat>, community: seq<Card>): Option<string> {
    var es := Contenders(seats, community, EvaluateHand);
    if es.None? || es.value == [] then None else Some(Ranking(es.value)[0].name)
  }

  /** The hub's showdown evaluation: every seat still in is evaluated,
      the results ranked, and the name on the first one taken. */
  method FindShowdownWinner(seats: seq<Seat>, community: seq<Card>) returns (name: Option<string>)
    ensures name == ShowdownWinner(seats, community)
  {
    var results := EvaluateContenders(seats, community, EvaluateHand);
    if results.None? || results.value == [] {
      return None;
    }
    return Some(Ranking(results.value)[0].name);
  }

  /** The showdown winner is a contender whose hand no other contender's
      hand ranks ahead of, and some seat still in the hand carries that
      name, so the search for the seat to pay succeeds. */
  lemma WinnerHasSeat(seats: seq<Seat>, community: seq<Card>)
    ensures ShowdownWinner(seats, community).Some? ==>
              var es := Contenders(seats, community, EvaluateHand).value;
              var name := ShowdownWinner(seats, community).value;
              && (exists w | w in es :: w.name == name && forall e | e in es :: !RanksAhead(e.result, w.result))
              && FirstNamed(seats, name).Some?
  {
    var es := Contenders(seats, community, EvaluateHand);
    if es.Some? && es.value != [] {
      WinnerRanksFirst(es.value);
      ContendersAreSeats(seats, community, EvaluateHand);
      var w := Ranking(es.value)[0];
      var i :| 0 <= i < |seats| && !seats[i].folded && seats[i].name == w.name;
    }
  }
}
