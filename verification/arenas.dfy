/** The arena: the game's state machine. It holds the roster, the turn
    counter and the game-over flag; each turn it snapshots the players'
    coins, has a fresh referee settle the turn, ends the game when a player
    has gone bankrupt, and ends it in any case after the final turn. */
module Arenas {
  import opened Wrappers
  import opened Texts
  import opened Moves
  import opened Records
  import opened Players
  import opened Settlement
  import opened Referees

  /** The game is over after this turn. */
  const FinalTurn: int := 10

  /** Why a call raises: `max` of an empty roster, or a message addressed to
      a name that is not a player. */
  datatype ArenaError = EmptyRoster | UnknownRecipient(name: Name)

  // --------------------------------------------------------- the specification

  /** The names in `names` other than `name`, in list order: each of them as
      often as it occurs in `names`, and `name` not at all. */
  function OthersOf(names: seq<Name>, name: Name): (r: seq<Name>)
    ensures multiset(r) == multiset(names)[name := 0]
  {
    if names == [] then []
    else
      var rest := OthersOf(names[1..], name);
      assert names == [names[0]] + names[1..];
      if names[0] == name then rest else [names[0]] + rest
  }

  /** `max(coins)`: an entry no other entry exceeds. */
  function MaxOf(cs: seq<int>): (m: int)
    requires cs != []
    ensures forall j :: 0 <= j < |cs| ==> cs[j] <= m
    ensures exists j :: 0 <= j < |cs| && cs[j] == m
  {
    if |cs| == 1 then cs[0]
    else
      var rest := MaxOf(cs[1..]);
      assert forall j :: 1 <= j < |cs| ==> cs[j] == cs[1..][j - 1];
      var p :| 0 <= p < |cs| - 1 && cs[1..][p] == rest;
      assert cs[p + 1] == rest;
      if cs[0] >= rest then cs[0] else rest
  }

  /** A value that is some entry and that no entry exceeds is the maximum. */
  lemma MaxOfIs(cs: seq<int>, p: nat, v: int)
    requires p < |cs| && cs[p] == v && forall j :: 0 <= j < |cs| ==> cs[j] <= v
    ensures MaxOf(cs) == v
  {
    var m := MaxOf(cs);
    var q :| 0 <= q < |cs| && cs[q] == m;
  }

  /** The coins once the solvency check has passed the first `k` players:
      each of them holding zero coins or fewer now holds zero. */
  function Zeroed(cs: seq<int>, k: nat): (r: seq<int>)
    ensures |r| == |cs|
    ensures k >= |cs| ==> forall j :: 0 <= j < |cs| ==> r[j] >= 0
    ensures forall j :: 0 <= j < |cs| && cs[j] > 0 ==> r[j] == cs[j]
  {
    seq(|cs|, j requires 0 <= j < |cs| => if j < k && cs[j] <= 0 then 0 else cs[j])
  }

  /** One of the first `k` players holds zero coins or fewer. */
  predicate Bankrupt(cs: seq<int>, k: nat)
    requires k <= |cs|
  {
    k > 0 && (Bankrupt(cs, k - 1) || cs[k - 1] <= 0)
  }

  lemma {:induction false} BankruptAt(cs: seq<int>, k: nat)
    requires k <= |cs|
    ensures Bankrupt(cs, k) <==> exists i :: 0 <= i < k && cs[i] <= 0
  {
    if k > 0 {
      BankruptAt(cs, k - 1);
    }
  }

  /** Player `j` is marked a winner while the solvency check passes the first
      `k` players: each bankrupt player ends the game, and that call marks
      every player holding the maximum of the coins as they stand then. */
  predicate MarkedUpTo(cs: seq<int>, j: nat, k: nat)
    requires j < |cs| && k <= |cs|
  {
    k > 0 &&
    (MarkedUpTo(cs, j, k - 1) || (cs[k - 1] <= 0 && Zeroed(cs, k)[j] == MaxOf(Zeroed(cs, k))))
  }

  /** The winners the solvency check marks are exactly the players holding
      the most coins once it is done, and there are none when no player went
      bankrupt. */
  lemma {:induction false} SolvencyWinners(cs: seq<int>, k: nat)
    requires k <= |cs|
    ensures !Bankrupt(cs, k) ==> forall j :: 0 <= j < |cs| ==> !MarkedUpTo(cs, j, k)
    ensures Bankrupt(cs, k) ==> forall j :: 0 <= j < |cs| ==>
              (MarkedUpTo(cs, j, k) <==> Zeroed(cs, k)[j] == MaxOf(Zeroed(cs, k)))
  {
    if k > 0 {
      SolvencyWinners(cs, k - 1);
      if cs[k - 1] <= 0 {
        BustWinners(cs, k - 1, k);
      } else {
        assert Zeroed(cs, k) == Zeroed(cs, k - 1);
      }
    }
  }

  /** The step of `SolvencyWinners` at a bankrupt player: the winners marked
      so far, if any, still hold the maximum, and this player's call marks
      every holder of it. */
  lemma BustWinners(cs: seq<int>, i: nat, k: nat)
    requires k == i + 1 && k <= |cs| && cs[i] <= 0
    requires !Bankrupt(cs, i) ==> forall j :: 0 <= j < |cs| ==> !MarkedUpTo(cs, j, i)
    requires Bankrupt(cs, i) ==> forall j :: 0 <= j < |cs| ==>
               (MarkedUpTo(cs, j, i) <==> Zeroed(cs, i)[j] == MaxOf(Zeroed(cs, i)))
    ensures Bankrupt(cs, k)
    ensures forall j :: 0 <= j < |cs| ==>
              (MarkedUpTo(cs, j, k) <==> Zeroed(cs, k)[j] == MaxOf(Zeroed(cs, k)))
  {
    if Bankrupt(cs, i) {
      ZeroedStep(cs, i);
    }
  }

  /** Once a player has gone bankrupt, setting one more player to zero keeps
      the maximum, and whoever held it still holds it. */
  lemma ZeroedStep(cs: seq<int>, i: nat)
    requires i < |cs| && Bankrupt(cs, i)
    ensures MaxOf(Zeroed(cs, i + 1)) == MaxOf(Zeroed(cs, i))
    ensures forall j :: 0 <= j < |cs| && Zeroed(cs, i)[j] == MaxOf(Zeroed(cs, i)) ==>
              Zeroed(cs, i + 1)[j] == MaxOf(Zeroed(cs, i + 1))
  {
    BankruptAt(cs, i);
    var b :| 0 <= b < i && cs[b] <= 0;
    var before, after := Zeroed(cs, i), Zeroed(cs, i + 1);
    var m := MaxOf(before);
    assert before[b] == 0;
    forall j | 0 <= j < |cs|
      ensures after[j] <= m && (before[j] == m ==> after[j] == m)
    {
    }
    var p :| 0 <= p < |cs| && before[p] == m;
    MaxOfIs(after, p, m);
  }

  /** `f"Turn {turn}"`. */
  function TurnText(turn: int): (r: string)
    ensures |r| > 5 && r[..5] == "Turn "
    ensures turn >= 0 ==> var digits := r[5..];
              (forall i :: 0 <= i < |digits| ==> '0' <= digits[i] <= '9') && DecimalValue(digits) == turn
  {
    var r := "Turn " + IntToString(turn);
    assert r[5..] == IntToString(turn);
    r
  }

  // ------------------------------------------------------ the bookkeeping board

  /** The arena's bookkeeping as a value: the turn counter, the game-over flag
      and each player's seat, by roster position. */
  datatype Board = Board(turn: int, isGameOver: bool, seats: seq<Seat>)

  /** The coins on the seats, by position. */
  function CoinsOn(seats: seq<Seat>): seq<int>
  {
    seq(|seats|, j requires 0 <= j < |seats| => seats[j].coins)
  }

  /** Every seat holding `m` coins becomes a winner. */
  function Crown(seats: seq<Seat>, m: int): seq<Seat>
  {
    seq(|seats|, j requires 0 <= j < |seats| => seats[j].(isWinner := seats[j].isWinner || seats[j].coins == m))
  }

  /** `handle_game_over`: the flag is set, then every seat holding `max` of
      the coins becomes a winner; `max` of no coins raises. */
  function GameOver(b: Board): (Outcome<ArenaError>, Board)
  {
    if b.seats == [] then (Fail(EmptyRoster), b.(isGameOver := true))
    else (Pass, Board(b.turn, true, Crown(b.seats, MaxOf(CoinsOn(b.seats)))))
  }

  /** Seat `i` is set to zero coins and killed. */
  function BustAt(b: Board, i: nat): Board
    requires i < |b.seats|
  {
    b.(seats := b.seats[i := b.seats[i].(coins := 0, isDead := true)])
  }

  /** The solvency check at seat `i`: a seat holding zero coins or fewer is
      busted, and the game ends. */
  function CheckAt(b: Board, i: nat): (r: Board)
    requires i < |b.seats|
    ensures r.turn == b.turn && |r.seats| == |b.seats|
  {
    if b.seats[i].coins <= 0 then GameOver(BustAt(b, i)).1 else b
  }

  /** The solvency check run over the first `k` seats, in roster order. */
  function SolvencyUpTo(b: Board, k: nat): (r: Board)
    requires k <= |b.seats|
    ensures r.turn == b.turn && |r.seats| == |b.seats|
  {
    if k == 0 then b else CheckAt(SolvencyUpTo(b, k - 1), k - 1)
  }

  /** `post_turn_solvency_check`. */
  function Solvency(b: Board): Board
  {
    SolvencyUpTo(b, |b.seats|)
  }

  /** The end of a turn, after the solvency check: after the final turn the
      game ends, and otherwise the counter advances unless the game is over.
      The result is the game-over flag, or the error `max` raises. */
  function EndOfTurn(b: Board): (Result<bool, ArenaError>, Board)
  {
    if b.turn == FinalTurn then
      var g := GameOver(b);
      if g.0.Fail? then (Err(g.0.error), g.1) else (Ok(g.1.isGameOver), g.1)
    else if !b.isGameOver then (Ok(false), b.(turn := b.turn + 1))
    else (Ok(b.isGameOver), b)
  }

  /** `prior_coins = coins` on every seat. */
  function Snapshot(seats: seq<Seat>): seq<Seat>
  {
    seq(|seats|, j requires 0 <= j < |seats| => seats[j].(priorCoins := seats[j].coins))
  }

  /** The seats holding the coins `cs` the referee's settlement left. */
  function Paid(seats: seq<Seat>, cs: seq<int>): seq<Seat>
    requires |cs| == |seats|
  {
    seq(|seats|, j requires 0 <= j < |seats| => seats[j].(coins := cs[j]))
  }

  /** `do_turn` on the bookkeeping, `d` being the referee's settlement of the
      turn: the snapshot, the coins the settlement leaves, then, unless a
      message went to a name that is not a player (which raises out of the
      referee), the solvency check and the end of the turn. */
  function Played(b: Board, d: Delivery): (Result<bool, ArenaError>, Board)
    requires |d.tab.coins| == |b.seats|
  {
    var paid := b.(seats := Paid(Snapshot(b.seats), d.tab.coins));
    if d.unknown.Some? then (Err(UnknownRecipient(d.unknown.value)), paid)
    else EndOfTurn(Solvency(paid))
  }

  // -------------------------------------------------- properties of the board

  /** `handle_game_over` ends the game and leaves the turn, the coins and the
      deaths alone; with a roster it marks as winners exactly those already
      marked and every holder of the most coins (ties give several, and there
      is always one), and only an empty roster raises. */
  lemma GameOverMarksWinners(b: Board, o: Outcome<ArenaError>, after: Board)
    requires (o, after) == GameOver(b)
    ensures after.isGameOver && after.turn == b.turn && |after.seats| == |b.seats|
    ensures o.Fail? <==> b.seats == []
    ensures o.Fail? ==> o.error == EmptyRoster
    ensures forall j :: 0 <= j < |b.seats| ==>
              after.seats[j].coins == b.seats[j].coins && after.seats[j].priorCoins == b.seats[j].priorCoins &&
              after.seats[j].isDead == b.seats[j].isDead
    ensures forall j :: 0 <= j < |b.seats| ==>
              (after.seats[j].isWinner <==> b.seats[j].isWinner || b.seats[j].coins == MaxOf(CoinsOn(b.seats)))
    ensures b.seats != [] ==> exists j :: 0 <= j < |after.seats| && after.seats[j].isWinner
  {
    if b.seats != [] {
      var cs := CoinsOn(b.seats);
      var p :| 0 <= p < |cs| && cs[p] == MaxOf(cs);
      assert after.seats[p].isWinner;
    }
  }

  /** `s` is what the solvency check makes of board `b` once it has passed
      the first `k` seats, stated outright: each of them holding zero coins
      or fewer is at zero and dead, the game is over if there was one, and
      the winners are those `MarkedUpTo` says. */
  ghost predicate SolvedUpTo(b: Board, k: nat, s: Board)
    requires k <= |b.seats|
  {
    var cs := CoinsOn(b.seats);
    s.turn == b.turn && |s.seats| == |b.seats| && CoinsOn(s.seats) == Zeroed(cs, k) &&
    s.isGameOver == (b.isGameOver || Bankrupt(cs, k)) &&
    forall j :: 0 <= j < |b.seats| ==>
      s.seats[j].priorCoins == b.seats[j].priorCoins &&
      s.seats[j].isDead == (b.seats[j].isDead || (j < k && cs[j] <= 0)) &&
      s.seats[j].isWinner == (b.seats[j].isWinner || MarkedUpTo(cs, j, k))
  }

  /** The check run seat by seat agrees with the closed form. */
  lemma {:induction false} SolvencyClosedForm(b: Board, k: nat)
    requires k <= |b.seats|
    ensures SolvedUpTo(b, k, SolvencyUpTo(b, k))
  {
    if k > 0 {
      SolvencyClosedForm(b, k - 1);
      CheckAtStep(b, k - 1);
    }
  }

  /** The step of `SolvencyClosedForm` at seat `i`. */
  lemma CheckAtStep(b: Board, i: nat)
    requires i < |b.seats| && SolvedUpTo(b, i, SolvencyUpTo(b, i))
    ensures SolvedUpTo(b, i + 1, SolvencyUpTo(b, i + 1))
  {
    var prev, cs := SolvencyUpTo(b, i), CoinsOn(b.seats);
    assert prev.seats[i].coins == CoinsOn(prev.seats)[i] == cs[i];
    if cs[i] <= 0 {
      BustStep(b, i, prev);
    } else {
      assert Zeroed(cs, i + 1) == Zeroed(cs, i);
    }
  }

  /** `CheckAtStep` at a seat holding zero coins or fewer: busting it gives
      the coins `Zeroed` says, and the call that ends the game marks the
      holders of their maximum. */
  lemma BustStep(b: Board, i: nat, prev: Board)
    requires i < |b.seats| && SolvedUpTo(b, i, prev) && CoinsOn(b.seats)[i] <= 0
    ensures SolvedUpTo(b, i + 1, GameOver(BustAt(prev, i)).1)
  {
    var cs, bust := CoinsOn(b.seats), BustAt(prev, i);
    forall j | 0 <= j < |cs|
      ensures CoinsOn(bust.seats)[j] == Zeroed(cs, i + 1)[j]
    {
      assert CoinsOn(prev.seats)[j] == Zeroed(cs, i)[j];
    }
    assert CoinsOn(bust.seats) == Zeroed(cs, i + 1);
    var after := GameOver(bust).1;
    var m := MaxOf(Zeroed(cs, i + 1));
    assert after.seats == Crown(bust.seats, m);
    forall j | 0 <= j < |cs|
      ensures after.seats[j].isWinner == (b.seats[j].isWinner || MarkedUpTo(cs, j, i + 1))
    {
      assert bust.seats[j].coins == Zeroed(cs, i + 1)[j];
    }
    assert CoinsOn(after.seats) == Zeroed(cs, i + 1);
  }

  /** `post_turn_solvency_check`: afterwards no seat holds fewer than zero
      coins; every seat that held zero or fewer holds zero and is dead, and
      then the game is over, with the holders of the most coins as they now
      stand marked winners; a seat that held more keeps its coins, and with
      no such seat the winners stay as they were. */
  lemma SolvencyOutcome(b: Board, s: Board)
    requires s == Solvency(b)
    ensures s.turn == b.turn && |s.seats| == |b.seats|
    ensures s.isGameOver <==> b.isGameOver || exists i :: 0 <= i < |b.seats| && b.seats[i].coins <= 0
    ensures forall j :: 0 <= j < |b.seats| ==>
              s.seats[j].coins >= 0 && s.seats[j].coins == (if b.seats[j].coins <= 0 then 0 else b.seats[j].coins) &&
              s.seats[j].priorCoins == b.seats[j].priorCoins &&
              s.seats[j].isDead == (b.seats[j].isDead || b.seats[j].coins <= 0)
    ensures (forall i :: 0 <= i < |b.seats| ==> b.seats[i].coins > 0) ==>
              forall j :: 0 <= j < |b.seats| ==> s.seats[j].isWinner == b.seats[j].isWinner
    ensures (exists i :: 0 <= i < |b.seats| && b.seats[i].coins <= 0) ==>
              forall j :: 0 <= j < |b.seats| ==>
                s.seats[j].isWinner == (b.seats[j].isWinner || s.seats[j].coins == MaxOf(CoinsOn(s.seats)))
  {
    var n, cs := |b.seats|, CoinsOn(b.seats);
    SolvencyClosedForm(b, n);
    SolvencyWinners(cs, n);
    BankruptAt(cs, n);
    forall j | 0 <= j < n
      ensures s.seats[j].coins == Zeroed(cs, n)[j]
    {
      assert s.seats[j].coins == CoinsOn(s.seats)[j];
    }
  }

  /** The end of a turn: the counter stays between the first turn and the
      final one; after the final turn the game is over and the counter stays,
      and otherwise it advances by one exactly when the game is not over. The
      result is the game-over flag, and only the final turn of an empty roster
      raises. The coins, prior coins and deaths stay; the winners change only
      after the final turn, as `GameOverMarksWinners` says. */
  lemma EndOfTurnCounter(b: Board, r: Result<bool, ArenaError>, after: Board)
    requires 1 <= b.turn <= FinalTurn && (r, after) == EndOfTurn(b)
    ensures 1 <= after.turn <= FinalTurn
    ensures after.isGameOver == (b.isGameOver || b.turn == FinalTurn)
    ensures after.turn == if b.turn == FinalTurn || b.isGameOver then b.turn else b.turn + 1
    ensures r.Err? <==> b.turn == FinalTurn && b.seats == []
    ensures r.Err? ==> r.error == EmptyRoster
    ensures r.Ok? ==> r.value == after.isGameOver
    ensures |after.seats| == |b.seats| && CoinsOn(after.seats) == CoinsOn(b.seats)
    ensures forall j :: 0 <= j < |b.seats| ==>
              after.seats[j].priorCoins == b.seats[j].priorCoins && after.seats[j].isDead == b.seats[j].isDead
    ensures b.turn != FinalTurn ==> after.seats == b.seats
    ensures b.turn == FinalTurn && b.seats != [] ==> forall j :: 0 <= j < |b.seats| ==>
              after.seats[j].isWinner == (b.seats[j].isWinner || b.seats[j].coins == MaxOf(CoinsOn(b.seats)))
  {
    if b.turn == FinalTurn {
      var g := GameOver(b);
      GameOverMarksWinners(b, g.0, g.1);
    }
  }

  /** The seats after the settlement hold its coins, and their prior coins
      are the coins they held before it. */
  lemma PaidSnapshot(b: Board, d: Delivery)
    requires |d.tab.coins| == |b.seats|
    ensures var paid := Paid(Snapshot(b.seats), d.tab.coins);
      CoinsOn(paid) == d.tab.coins &&
      forall j :: 0 <= j < |b.seats| ==>
        paid[j] == Seat(d.tab.coins[j], b.seats[j].coins, b.seats[j].isDead, b.seats[j].isWinner)
  {
  }

  /** `do_turn`: every seat's prior coins are its coins from before the turn;
      the counter stays between the first turn and the final one, and the
      game, once over, stays over. A message to an unknown name raises with
      that name and leaves the counter and the flag. Otherwise the result is
      whether the game is over, which it is after the final turn or when a
      player went bankrupt, and the counter advances by one exactly when the
      turn was not the final one and the game is not over; only the final turn
      of an empty roster raises. */
  lemma PlayedCounter(b: Board, d: Delivery, r: Result<bool, ArenaError>, after: Board)
    requires 1 <= b.turn <= FinalTurn && |d.tab.coins| == |b.seats| && (r, after) == Played(b, d)
    ensures |after.seats| == |b.seats|
    ensures forall j :: 0 <= j < |b.seats| ==> after.seats[j].priorCoins == b.seats[j].coins
    ensures 1 <= after.turn <= FinalTurn
    ensures b.isGameOver ==> after.isGameOver
    ensures d.unknown.Some? ==>
              r == Err(UnknownRecipient(d.unknown.value)) && after.turn == b.turn &&
              after.isGameOver == b.isGameOver && CoinsOn(after.seats) == d.tab.coins
    ensures d.unknown.None? ==>
              (r.Err? <==> b.turn == FinalTurn && b.seats == []) && (r.Err? ==> r.error == EmptyRoster) &&
              (r.Ok? ==> r.value == after.isGameOver) &&
              (after.isGameOver <==>
                 (b.isGameOver || b.turn == FinalTurn || exists i :: 0 <= i < |b.seats| && d.tab.coins[i] <= 0)) &&
              after.turn == if b.turn == FinalTurn || after.isGameOver then b.turn else b.turn + 1
  {
    PaidSnapshot(b, d);
    var paid := b.(seats := Paid(Snapshot(b.seats), d.tab.coins));
    if d.unknown.None? {
      var s := Solvency(paid);
      SolvencyOutcome(paid, s);
      EndOfTurnCounter(s, r, after);
    }
  }

  /** `do_turn` with every message delivered: no player ends the turn below
      zero coins; a player the settlement left at zero or fewer holds zero
      and is dead, and every other player holds what the settlement left it.
      The winners are those marked before, and, when the game ended this turn
      or the final turn was played, every holder of the most coins as they
      end the turn. */
  lemma PlayedSolvency(b: Board, d: Delivery, r: Result<bool, ArenaError>, after: Board)
    requires 1 <= b.turn <= FinalTurn && |d.tab.coins| == |b.seats| && (r, after) == Played(b, d)
    requires d.unknown.None?
    ensures |after.seats| == |b.seats|
    ensures forall j :: 0 <= j < |b.seats| ==>
              after.seats[j].coins >= 0 &&
              after.seats[j].coins == (if d.tab.coins[j] <= 0 then 0 else d.tab.coins[j]) &&
              after.seats[j].isDead == (b.seats[j].isDead || d.tab.coins[j] <= 0)
    ensures forall j :: 0 <= j < |b.seats| ==>
              after.seats[j].isWinner ==
                (b.seats[j].isWinner ||
                 ((b.turn == FinalTurn || exists i :: 0 <= i < |b.seats| && d.tab.coins[i] <= 0) &&
                  after.seats[j].coins == MaxOf(CoinsOn(after.seats))))
  {
    PaidSnapshot(b, d);
    var paid := b.(seats := Paid(Snapshot(b.seats), d.tab.coins));
    var s := Solvency(paid);
    SolvencyOutcome(paid, s);
    EndOfTurnCounter(s, r, after);
    assert CoinsOn(after.seats) == CoinsOn(s.seats);
  }
  // ------------------------------------------------------------------ the arena

  /** Different positions of a roster without repeated names hold different
      players. */
  lemma PlayerApart(ps: seq<Player>, i: nat, j: nat)
    requires Distinct(Names(ps)) && i < |ps| && j < |ps| && i != j
    ensures ps[i] != ps[j]
  {
    DistinctAt(Names(ps), i, j);
  }

  lemma PlayersApart(ps: seq<Player>, i: nat)
    requires Distinct(Names(ps)) && i < |ps|
    ensures forall j :: 0 <= j < |ps| && j != i ==> ps[j] != ps[i]
  {
    forall j | 0 <= j < |ps| && j != i
      ensures ps[i] != ps[j]
    {
      PlayerApart(ps, i, j);
    }
  }

  /** A referee over `ps` settles the replies into `settled`: every player
      takes the settlement's coins and the rest of its seat is left as it
      was. The records it files are stated by `Referee.DoTurn`. */
  method Hear(ref: Referee, ps: seq<Player>, responses: seq<Option<string>>, decode: string -> Option<Json>,
              ghost coins: seq<int>, ghost settled: Delivery)
    returns (unknown: Option<Name>)
    requires ref.Valid() && ref.Keyed() && ref.records == map[] && ref.alliances == [] && ref.players == ps
    requires |responses| == |ps| && coins == Coins(ps)
    requires settled == Settle(Names(ps), Replies(responses, Names(ps), decode), Table(coins, EmptyLedgers(|ps|)))
    modifies ref`records, ref`alliances, ps`coins, ps`records
    ensures unknown == settled.unknown && Coins(ps) == settled.tab.coins
    ensures Marks(ps) == old(Marks(ps))
  {
    ghost var filed;
    unknown, filed := ref.DoTurn(responses, decode, coins, settled);
  }

  /** Paying out coins replaces the coins of the seated players. */
  lemma PaidSeated(before: seq<int>, ms: seq<Mark>, cs: seq<int>)
    requires |before| == |ms| == |cs|
    ensures Paid(Seated(before, ms), cs) == Seated(cs, ms)
  {
  }

  /** The boards the solvency check passes through, seat by seat. */
  ghost function SolvencySteps(b: Board): (r: seq<Board>)
    ensures |r| == |b.seats| + 1 && r[0] == b && r[|b.seats|] == Solvency(b)
    ensures forall k :: 0 <= k < |b.seats| ==> |r[k].seats| == |b.seats| && r[k + 1] == CheckAt(r[k], k)
  {
    seq(|b.seats| + 1, k requires 0 <= k <= |b.seats| => SolvencyUpTo(b, k))
  }

  class Arena {
    const players: seq<Player>
    var turn: int
    var isGameOver: bool

    /** No two players share a name, and the turn counter stays between the
        first turn and the final one. */
    predicate Valid()
      reads this`turn
    {
      Distinct(Names(players)) && 1 <= turn <= FinalTurn
    }

    /** The bookkeeping as it stands. */
    function State(): Board
      reads this`turn, this`isGameOver, players`coins, players`priorCoins, players`isDead, players`isWinner
    {
      Board(turn, isGameOver, Seats(players))
    }

    /** Each player is given the names of all the others (the source shuffles
        them; only which names, each as often as it is on the roster, is
        promised here); the game starts at turn 1 and is not over. */
    constructor (players: seq<Player>)
      requires Distinct(Names(players))
      modifies players`otherNames
      ensures Valid()
      ensures this.players == players && turn == 1 && !isGameOver
      ensures forall j :: 0 <= j < |players| ==>
                multiset(players[j].otherNames) == multiset(Names(players))[players[j].name := 0]
    {
      this.players := players;
      turn := 1;
      isGameOver := false;
      new;
      for i := 0 to |players|
        modifies players`otherNames
        invariant forall j :: 0 <= j < i ==> players[j].otherNames == OthersOf(Names(players), players[j].name)
      {
        PlayersApart(players, i);
        players[i].otherNames := OthersOf(Names(players), players[i].name);
      }
    }

    /** `handle_game_over`, as `GameOver` states it. */
    method HandleGameOver() returns (outcome: Outcome<ArenaError>)
      requires Valid()
      modifies this`isGameOver, players`isWinner
      ensures (outcome, State()) == GameOver(old(State()))
    {
      ghost var b := State();
      isGameOver := true;
      assert Seats(players) == b.seats;
      if players == [] {
        return Fail(EmptyRoster);
      }
      assert Coins(players) == CoinsOn(b.seats);
      var winningCoins := MaxOf(Coins(players));
      MarkWinners(winningCoins);
      outcome := Pass;
    }

    /** Every player holding `m` coins is marked a winner. */
    method MarkWinners(m: int)
      requires Valid()
      modifies players`isWinner
      ensures Seats(players) == Crown(old(Seats(players)), m)
    {
      ghost var before := Seats(players);
      for i := 0 to |players|
        invariant forall j :: 0 <= j < |players| ==>
                    players[j].isWinner == (old(players[j].isWinner) || (j < i && players[j].coins == m))
      {
        PlayersApart(players, i);
        if players[i].coins == m {
          players[i].isWinner := true;
        }
      }
      forall j | 0 <= j < |players|
        ensures Seats(players)[j] == Crown(before, m)[j]
      {
      }
    }

    /** `post_turn_solvency_check`, as `Solvency` states it: every player
        with zero coins or fewer, in roster order, is set to zero, killed,
        and ends the game. */
    method PostTurnSolvencyCheck()
      requires Valid()
      modifies this`isGameOver, players`coins, players`isDead, players`isWinner
      ensures State() == Solvency(old(State()))
    {
      ghost var b := State();
      ghost var boards := SolvencySteps(b);
      for i := 0 to |players|
        invariant State() == boards[i]
      {
        CheckPlayer(i, boards[i]);
      }
    }

    /** The solvency check at player `i`, the bookkeeping being `s`. */
    method CheckPlayer(i: nat, ghost s: Board)
      requires Valid() && i < |players| == |s.seats| && State() == s
      modifies this`isGameOver, players`coins, players`isDead, players`isWinner
      ensures State() == CheckAt(s, i)
    {
      if players[i].coins <= 0 {
        Zap(players[i], i);
        var _ := HandleGameOver();
      }
    }

    /** Player `i`, out of coins, is set to zero and killed. */
    method Zap(player: Player, i: nat)
      requires Valid() && i < |players| && player == players[i]
      modifies player`coins, player`isDead
      ensures State() == BustAt(old(State()), i)
    {
      ghost var b := State();
      PlayersApart(players, i);
      player.coins := 0;
      player.Kill();
      assert Seats(players) == BustAt(b, i).seats;
    }

    /** `do_turn`, as `Played` states it, `settled` being the referee's
        settlement of the replies: the coins are snapshotted, a fresh referee
        settles the turn, the solvency check runs, and the game ends after the
        final turn or else the counter advances unless the game is over. A
        message to an unknown name raises out of the referee, before the
        check. What the referee files in each player's records is stated by
        `Referee.DoTurn`. */
    method DoTurn(responses: seq<Option<string>>, decode: string -> Option<Json>)
      returns (r: Result<bool, ArenaError>, ghost settled: Delivery)
      requires Valid() && |responses| == |players|
      modifies this`turn, this`isGameOver
      modifies players`priorCoins, players`coins, players`records, players`isDead, players`isWinner
      ensures Valid()
      ensures settled == Settle(Names(players), Replies(responses, Names(players), decode),
                                Table(old(Coins(players)), EmptyLedgers(|players|)))
      ensures |settled.tab.coins| == |players| && (r, State()) == Played(old(State()), settled)
    {
      ghost var coins := Coins(players);
      settled := Settle(Names(players), Replies(responses, Names(players), decode), Table(coins, EmptyLedgers(|players|)));
      SnapshotCoins();
      var unknown := RunReferee(responses, decode, coins, settled);
      if unknown.Some? {
        return Err(UnknownRecipient(unknown.value)), settled;
      }
      r := Conclude();
    }

    /** `player.prior_coins = player.coins` for every player. */
    method SnapshotCoins()
      requires Valid()
      modifies players`priorCoins
      ensures State() == old(State()).(seats := Snapshot(old(State()).seats))
      ensures Coins(players) == old(Coins(players))
    {
      ghost var b := State();
      for i := 0 to |players|
        invariant forall j :: 0 <= j < |players| ==> players[j].priorCoins == (if j < i then players[j].coins else old(players[j].priorCoins))
      {
        PlayersApart(players, i);
        players[i].priorCoins := players[i].coins;
      }
      forall j | 0 <= j < |players|
        ensures Seats(players)[j] == Snapshot(b.seats)[j]
      {
      }
    }

    /** A new referee for this turn settles the replies, `settled` being what
        the settlement makes of them: the coins become the settlement's and
        nothing else on the board changes. */
    method RunReferee(responses: seq<Option<string>>, decode: string -> Option<Json>, ghost coins: seq<int>, ghost settled: Delivery)
      returns (unknown: Option<Name>)
      requires Valid() && |responses| == |players|
      requires coins == Coins(players)
      requires settled == Settle(Names(players), Replies(responses, Names(players), decode), Table(coins, EmptyLedgers(|players|)))
      modifies players`coins, players`records
      ensures unknown == settled.unknown && |settled.tab.coins| == |players|
      ensures State() == old(State()).(seats := Paid(old(State()).seats, settled.tab.coins))
    {
      SeatsSeated(players);
      var ref := NewReferee();
      unknown := Hear(ref, players, responses, decode, coins, settled);
      SeatsSeated(players);
      PaidSeated(coins, Marks(players), settled.tab.coins);
    }

    /** `Referee(self.players, self.turn)`: a referee for this turn. */
    method NewReferee() returns (ref: Referee)
      requires Valid()
      ensures fresh(ref) && ref.Valid() && ref.Keyed() && ref.players == players && ref.turn == turn
      ensures ref.records == map[] && ref.alliances == []
      ensures Coins(players) == old(Coins(players)) && Marks(players) == old(Marks(players))
    {
      ref := new Referee(players, turn);
    }

    /** The rest of a turn whose messages were all delivered: the solvency
        check, then the end of the turn. */
    method Conclude() returns (r: Result<bool, ArenaError>)
      requires Valid()
      modifies this`turn, this`isGameOver, players`coins, players`isDead, players`isWinner
      ensures Valid()
      ensures (r, State()) == EndOfTurn(Solvency(old(State())))
    {
      PostTurnSolvencyCheck();
      r := EndTurn();
    }

    /** The end of a turn, as `EndOfTurn` states it. */
    method EndTurn() returns (r: Result<bool, ArenaError>)
      requires Valid()
      modifies this`turn, this`isGameOver, players`isWinner
      ensures Valid()
      ensures (r, State()) == EndOfTurn(old(State()))
    {
      if turn == FinalTurn {
        var outcome := HandleGameOver();
        if outcome.Fail? {
          return Err(outcome.error);
        }
      } else if !isGameOver {
        turn := turn + 1;
      }
      r := Ok(isGameOver);
    }

    /** `f"Turn {self.turn}"`. */
    function TurnName(): (r: string)
      reads this`turn
      ensures r == TurnText(turn)
    {
      TurnText(turn)
    }
  }
}
