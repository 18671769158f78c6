/** The settlement of one turn, on values: the reference the referee's passes
    are proved against. Players are addressed by their position in the list of
    players; `names[i]` is the name of player `i` and `moves[i]` the move on its
    turn record (`None` for a record marked invalid). Each pass is written as
    the step the referee's loop takes for one player, repeated over the list in
    order; the lemmas state what a whole pass does. */
module Settlement {
  import opened Wrappers
  import opened Texts
  import opened Moves

  type Name = string

  /** What settlement writes onto one turn record. */
  datatype Ledger = Ledger(givers: seq<Name>, takers: seq<Name>, alliancesWith: seq<Name>,
                           alliancesAgainst: seq<Name>, messages: Dict)

  const EmptyLedger: Ledger := Ledger([], [], [], [], [])

  /** Each player's coins and turn record, by list position. */
  datatype Table = Table(coins: seq<int>, ledgers: seq<Ledger>)

  /** A move the referee accepts: both names are players and they differ. */
  predicate Legal(m: Move, names: seq<Name>) {
    m.give in names && m.take in names && m.give != m.take
  }

  /** One move per player, player names without repeats, every present move
      legal and, like every parsed move, naming each recipient once. */
  predicate WellFormed(names: seq<Name>, moves: seq<Option<Move>>) {
    |moves| == |names| && Distinct(names) &&
    forall i :: 0 <= i < |moves| && moves[i].Some? ==>
      Legal(moves[i].value, names) && UniqueKeys(moves[i].value.messages)
  }

  predicate Fits(tab: Table, n: nat) {
    |tab.coins| == n && |tab.ledgers| == n
  }

  /** Player `k`'s coins change by `d`; nothing else changes. */
  function Credit(tab: Table, k: nat, d: int): (r: Table)
    requires k < |tab.coins|
    ensures |r.coins| == |tab.coins| && r.ledgers == tab.ledgers
  {
    tab.(coins := tab.coins[k := tab.coins[k] + d])
  }

  /** Player `k`'s record now holds `l`; nothing else changes. */
  function Relist(tab: Table, k: nat, l: Ledger): (r: Table)
    requires k < |tab.ledgers|
    ensures r.coins == tab.coins && |r.ledgers| == |tab.ledgers|
  {
    tab.(ledgers := tab.ledgers[k := l])
  }

  function Sum(s: seq<int>): int {
    if s == [] then 0 else s[0] + Sum(s[1..])
  }

  lemma {:induction false} SumUpdate(s: seq<int>, k: nat, v: int)
    requires k < |s|
    ensures Sum(s[k := v]) == Sum(s) - s[k] + v
  {
    if k > 0 {
      SumUpdate(s[1..], k - 1, v);
      assert s[k := v][1..] == s[1..][k - 1 := v];
    }
  }

  /** The number of records marked invalid among the first `k` players. */
  function InvalidCount(moves: seq<Option<Move>>, k: nat): nat
    requires k <= |moves|
  {
    if k == 0 then 0 else InvalidCount(moves, k - 1) + (if moves[k - 1].None? then 1 else 0)
  }

  // ---------------------------------------------------------------- giving

  /** Player `i` pays one coin; when its move is valid the coin goes to its
      give target, which records `i` as a giver. */
  function GiveStep(names: seq<Name>, moves: seq<Option<Move>>, tab: Table, i: nat): (r: Table)
    requires WellFormed(names, moves) && Fits(tab, |names|) && i < |names|
    ensures Fits(r, |names|)
  {
    match moves[i]
    case None => Credit(tab, i, -1)
    case Some(m) =>
      var t := IndexOf(names, m.give);
      var t1 := Credit(tab, t, 1);
      Credit(Relist(t1, t, t1.ledgers[t].(givers := t1.ledgers[t].givers + [names[i]])), i, -1)
  }

  /** The giving pass over the first `k` players. */
  function GiveUpTo(names: seq<Name>, moves: seq<Option<Move>>, tab: Table, k: nat): (r: Table)
    requires WellFormed(names, moves) && Fits(tab, |names|) && k <= |names|
    ensures Fits(r, |names|)
  {
    if k == 0 then tab else GiveStep(names, moves, GiveUpTo(names, moves, tab, k - 1), k - 1)
  }

  function GivePass(names: seq<Name>, moves: seq<Option<Move>>, tab: Table): Table
    requires WellFormed(names, moves) && Fits(tab, |names|)
  {
    GiveUpTo(names, moves, tab, |names|)
  }

  /** The names, in list order, of the first `k` players whose valid move gives to `target`. */
  function GiversTo(names: seq<Name>, moves: seq<Option<Move>>, k: nat, target: Name): seq<Name>
    requires |moves| == |names| && k <= |names|
  {
    if k == 0 then []
    else GiversTo(names, moves, k - 1, target) +
         (if moves[k - 1].Some? && moves[k - 1].value.give == target then [names[k - 1]] else [])
  }

  /** After the giving pass over the first `k` players, each of them has paid one
      coin, and every player has gained one coin per valid giver among them and
      lists exactly those givers, in list order. */
  lemma {:induction false} GiveUpToAt(names: seq<Name>, moves: seq<Option<Move>>, tab: Table, k: nat, j: nat)
    requires WellFormed(names, moves) && Fits(tab, |names|) && k <= |names| && j < |names|
    ensures GiveUpTo(names, moves, tab, k).coins[j] ==
            tab.coins[j] - (if j < k then 1 else 0) + |GiversTo(names, moves, k, names[j])|
    ensures GiveUpTo(names, moves, tab, k).ledgers[j] ==
            tab.ledgers[j].(givers := tab.ledgers[j].givers + GiversTo(names, moves, k, names[j]))
  {
    if k > 0 {
      var i := k - 1;
      var prev := GiveUpTo(names, moves, tab, i);
      GiveUpToAt(names, moves, tab, i, j);
      GiveStepAt(names, moves, prev, i, j);
      var extra := if moves[i].Some? && moves[i].value.give == names[j] then [names[i]] else [];
      GiveUpToUnfold(names, moves, tab, k);
      GiversToUnfold(names, moves, k, names[j]);
      AppendAssoc(tab.ledgers[j].givers, GiversTo(names, moves, i, names[j]), extra);
    }
  }

  lemma GiveUpToUnfold(names: seq<Name>, moves: seq<Option<Move>>, tab: Table, k: nat)
    requires WellFormed(names, moves) && Fits(tab, |names|) && 0 < k <= |names|
    ensures GiveUpTo(names, moves, tab, k) == GiveStep(names, moves, GiveUpTo(names, moves, tab, k - 1), k - 1)
  {
  }

  lemma GiversToUnfold(names: seq<Name>, moves: seq<Option<Move>>, k: nat, target: Name)
    requires |moves| == |names| && 0 < k <= |names|
    ensures GiversTo(names, moves, k, target) ==
            GiversTo(names, moves, k - 1, target) +
            (if moves[k - 1].Some? && moves[k - 1].value.give == target then [names[k - 1]] else [])
  {
  }

  /** One step of the giving pass, seen from player `j`. */
  lemma GiveStepAt(names: seq<Name>, moves: seq<Option<Move>>, tab: Table, i: nat, j: nat)
    requires WellFormed(names, moves) && Fits(tab, |names|) && i < |names| && j < |names|
    ensures var hit := moves[i].Some? && moves[i].value.give == names[j];
            GiveStep(names, moves, tab, i).coins[j] ==
              tab.coins[j] - (if j == i then 1 else 0) + (if hit then 1 else 0) &&
            GiveStep(names, moves, tab, i).ledgers[j] ==
              tab.ledgers[j].(givers := tab.ledgers[j].givers + (if hit then [names[i]] else []))
  {
    if moves[i].Some? {
      IndexOfDistinct(names, j);
    }
  }

  /** The giving pass as a whole: every player pays exactly one coin, valid or
      not, and gains one per valid player that names it as give target. */
  lemma GivePassAt(names: seq<Name>, moves: seq<Option<Move>>, tab: Table, j: nat)
    requires WellFormed(names, moves) && Fits(tab, |names|) && j < |names|
    ensures GivePass(names, moves, tab).coins[j] ==
            tab.coins[j] - 1 + |GiversTo(names, moves, |names|, names[j])|
    ensures GivePass(names, moves, tab).ledgers[j].givers ==
            tab.ledgers[j].givers + GiversTo(names, moves, |names|, names[j])
  {
    GiveUpToAt(names, moves, tab, |names|, j);
  }

  /** Giving is not zero-sum: the total drops by exactly the number of invalid
      records, whose coin nobody receives. */
  lemma {:induction false} GiveUpToTotal(names: seq<Name>, moves: seq<Option<Move>>, tab: Table, k: nat)
    requires WellFormed(names, moves) && Fits(tab, |names|) && k <= |names|
    ensures Sum(GiveUpTo(names, moves, tab, k).coins) == Sum(tab.coins) - InvalidCount(moves, k)
  {
    if k > 0 {
      GiveUpToTotal(names, moves, tab, k - 1);
      GiveStepTotal(names, moves, GiveUpTo(names, moves, tab, k - 1), k - 1);
    }
  }

  /** One giving step removes a coin from the game exactly when the move is invalid. */
  lemma GiveStepTotal(names: seq<Name>, moves: seq<Option<Move>>, tab: Table, i: nat)
    requires WellFormed(names, moves) && Fits(tab, |names|) && i < |names|
    ensures Sum(GiveStep(names, moves, tab, i).coins) == Sum(tab.coins) - (if moves[i].None? then 1 else 0)
  {
    match moves[i]
    case None =>
      SumUpdate(tab.coins, i, tab.coins[i] - 1);
    case Some(m) =>
      var t := IndexOf(names, m.give);
      var coins := tab.coins[t := tab.coins[t] + 1];
      SumUpdate(tab.coins, t, tab.coins[t] + 1);
      SumUpdate(coins, i, coins[i] - 1);
  }

  lemma GivePassTotal(names: seq<Name>, moves: seq<Option<Move>>, tab: Table)
    requires WellFormed(names, moves) && Fits(tab, |names|)
    ensures Sum(GivePass(names, moves, tab).coins) == Sum(tab.coins) - InvalidCount(moves, |names|)
  {
    GiveUpToTotal(names, moves, tab, |names|);
  }

  // ---------------------------------------------------------------- taking

  /** When player `i`'s move is valid it gains one coin, its take target loses
      one and records `i` as a taker; an invalid move changes nothing. */
  function TakeStep(names: seq<Name>, moves: seq<Option<Move>>, tab: Table, i: nat): (r: Table)
    requires WellFormed(names, moves) && Fits(tab, |names|) && i < |names|
    ensures Fits(r, |names|)
  {
    match moves[i]
    case None => tab
    case Some(m) =>
      var t := IndexOf(names, m.take);
      var t1 := Credit(tab, t, -1);
      Credit(Relist(t1, t, t1.ledgers[t].(takers := t1.ledgers[t].takers + [names[i]])), i, 1)
  }

  function TakeUpTo(names: seq<Name>, moves: seq<Option<Move>>, tab: Table, k: nat): (r: Table)
    requires WellFormed(names, moves) && Fits(tab, |names|) && k <= |names|
    ensures Fits(r, |names|)
  {
    if k == 0 then tab else TakeStep(names, moves, TakeUpTo(names, moves, tab, k - 1), k - 1)
  }

  function TakePass(names: seq<Name>, moves: seq<Option<Move>>, tab: Table): Table
    requires WellFormed(names, moves) && Fits(tab, |names|)
  {
    TakeUpTo(names, moves, tab, |names|)
  }

  /** The names, in list order, of the first `k` players whose valid move takes from `target`. */
  function TakersFrom(names: seq<Name>, moves: seq<Option<Move>>, k: nat, target: Name): seq<Name>
    requires |moves| == |names| && k <= |names|
  {
    if k == 0 then []
    else TakersFrom(names, moves, k - 1, target) +
         (if moves[k - 1].Some? && moves[k - 1].value.take == target then [names[k - 1]] else [])
  }

  /** After the taking pass over the first `k` players, each of them with a
      valid move has gained one coin, and every player has lost one coin per
      valid taker among them and lists exactly those takers, in list order. */
  lemma {:induction false} TakeUpToAt(names: seq<Name>, moves: seq<Option<Move>>, tab: Table, k: nat, j: nat)
    requires WellFormed(names, moves) && Fits(tab, |names|) && k <= |names| && j < |names|
    ensures TakeUpTo(names, moves, tab, k).coins[j] ==
            tab.coins[j] + (if j < k && moves[j].Some? then 1 else 0) - |TakersFrom(names, moves, k, names[j])|
    ensures TakeUpTo(names, moves, tab, k).ledgers[j] ==
            tab.ledgers[j].(takers := tab.ledgers[j].takers + TakersFrom(names, moves, k, names[j]))
  {
    if k > 0 {
      var i := k - 1;
      var prev := TakeUpTo(names, moves, tab, i);
      TakeUpToAt(names, moves, tab, i, j);
      TakeStepAt(names, moves, prev, i, j);
      var extra := if moves[i].Some? && moves[i].value.take == names[j] then [names[i]] else [];
      TakeUpToUnfold(names, moves, tab, k);
      TakersFromUnfold(names, moves, k, names[j]);
      assert |TakersFrom(names, moves, k, names[j])| == |TakersFrom(names, moves, i, names[j])| + |extra|;
      AppendAssoc(tab.ledgers[j].takers, TakersFrom(names, moves, i, names[j]), extra);
    }
  }

  lemma TakeUpToUnfold(names: seq<Name>, moves: seq<Option<Move>>, tab: Table, k: nat)
    requires WellFormed(names, moves) && Fits(tab, |names|) && 0 < k <= |names|
    ensures TakeUpTo(names, moves, tab, k) == TakeStep(names, moves, TakeUpTo(names, moves, tab, k - 1), k - 1)
  {
  }

  lemma TakersFromUnfold(names: seq<Name>, moves: seq<Option<Move>>, k: nat, target: Name)
    requires |moves| == |names| && 0 < k <= |names|
    ensures TakersFrom(names, moves, k, target) ==
            TakersFrom(names, moves, k - 1, target) +
            (if moves[k - 1].Some? && moves[k - 1].value.take == target then [names[k - 1]] else [])
  {
  }

  /** One step of the taking pass, seen from player `j`. */
  lemma TakeStepAt(names: seq<Name>, moves: seq<Option<Move>>, tab: Table, i: nat, j: nat)
    requires WellFormed(names, moves) && Fits(tab, |names|) && i < |names| && j < |names|
    ensures var hit := moves[i].Some? && moves[i].value.take == names[j];
            TakeStep(names, moves, tab, i).coins[j] ==
              tab.coins[j] + (if j == i && moves[i].Some? then 1 else 0) - (if hit then 1 else 0) &&
            TakeStep(names, moves, tab, i).ledgers[j] ==
              tab.ledgers[j].(takers := tab.ledgers[j].takers + (if hit then [names[i]] else []))
  {
    if moves[i].Some? {
      IndexOfDistinct(names, j);
    }
  }

  /** The taking pass as a whole: a valid player gains one coin, an invalid one
      nothing, and every player loses one per valid player taking from it. */
  lemma TakePassAt(names: seq<Name>, moves: seq<Option<Move>>, tab: Table, j: nat)
    requires WellFormed(names, moves) && Fits(tab, |names|) && j < |names|
    ensures TakePass(names, moves, tab).coins[j] ==
            tab.coins[j] + (if moves[j].Some? then 1 else 0) - |TakersFrom(names, moves, |names|, names[j])|
    ensures TakePass(names, moves, tab).ledgers[j].takers ==
            tab.ledgers[j].takers + TakersFrom(names, moves, |names|, names[j])
  {
    TakeUpToAt(names, moves, tab, |names|, j);
  }

  /** Taking is zero-sum. */
  lemma {:induction false} TakeUpToTotal(names: seq<Name>, moves: seq<Option<Move>>, tab: Table, k: nat)
    requires WellFormed(names, moves) && Fits(tab, |names|) && k <= |names|
    ensures Sum(TakeUpTo(names, moves, tab, k).coins) == Sum(tab.coins)
  {
    if k > 0 {
      TakeUpToTotal(names, moves, tab, k - 1);
      TakeStepTotal(names, moves, TakeUpTo(names, moves, tab, k - 1), k - 1);
    }
  }

  /** One taking step moves a coin between players and none in or out. */
  lemma TakeStepTotal(names: seq<Name>, moves: seq<Option<Move>>, tab: Table, i: nat)
    requires WellFormed(names, moves) && Fits(tab, |names|) && i < |names|
    ensures Sum(TakeStep(names, moves, tab, i).coins) == Sum(tab.coins)
  {
    match moves[i]
    case None =>
    case Some(m) =>
      var t := IndexOf(names, m.take);
      var coins := tab.coins[t := tab.coins[t] - 1];
      SumUpdate(tab.coins, t, tab.coins[t] - 1);
      SumUpdate(coins, i, coins[i] + 1);
  }

  lemma TakePassTotal(names: seq<Name>, moves: seq<Option<Move>>, tab: Table)
    requires WellFormed(names, moves) && Fits(tab, |names|)
    ensures Sum(TakePass(names, moves, tab).coins) == Sum(tab.coins)
  {
    TakeUpToTotal(names, moves, tab, |names|);
  }

  // ------------------------------------------------------------- alliances

  /** A confirmed alliance: two players who gave to each other and took from
      the same victim. */
  datatype Alliance = Alliance(first: Name, second: Name, victim: Name)

  /** The state of the alliance pass: the table, the list of names already in
      an alliance this turn, and (for the proofs) the alliances formed so far. */
  datatype AllianceScan = AllianceScan(tab: Table, allied: seq<Name>, formed: seq<Alliance>)

  /** Player `i` has a valid move whose give target also has a valid move
      giving back to `i`. */
  predicate Reciprocated(names: seq<Name>, moves: seq<Option<Move>>, i: nat)
    requires WellFormed(names, moves) && i < |names|
  {
    moves[i].Some? &&
    var t := IndexOf(names, moves[i].value.give);
    moves[t].Some? && moves[t].value.give == names[i]
  }

  /** The check for player `i` confirms an alliance: its give is reciprocated,
      neither side is in `allied`, and both took from the same player. */
  predicate Confirms(names: seq<Name>, moves: seq<Option<Move>>, allied: seq<Name>, i: nat)
    requires WellFormed(names, moves) && i < |names|
  {
    Reciprocated(names, moves, i) &&
    var m1 := moves[i].value;
    names[i] !in allied && m1.give !in allied &&
    m1.take == moves[IndexOf(names, m1.give)].value.take
  }

  /** The names of the members of `formed`, two per alliance, in order. */
  function Members(formed: seq<Alliance>): (r: seq<Name>)
    ensures |r| == 2 * |formed|
  {
    if formed == [] then []
    else
      var last := formed[|formed| - 1];
      Members(formed[..|formed| - 1]) + [last.first, last.second]
  }

  /** The alliance between players `a` and `b` against player `v`: each ally
      gains one coin and records the other, the victim loses two and records
      both, in the order the source applies them (so that the updates compose
      when indices coincide). */
  function ProcessAlliance(names: seq<Name>, tab: Table, a: nat, b: nat, v: nat): (r: Table)
    requires Fits(tab, |names|) && a < |names| && b < |names| && v < |names|
    ensures Fits(r, |names|)
  {
    var c1 := tab.coins[a := tab.coins[a] + 1];
    var c2 := c1[b := c1[b] + 1];
    var l1 := tab.ledgers[a := tab.ledgers[a].(alliancesWith := tab.ledgers[a].alliancesWith + [names[b]])];
    var l2 := l1[b := l1[b].(alliancesWith := l1[b].alliancesWith + [names[a]])];
    Table(c2[v := c2[v] - 2], l2[v := l2[v].(alliancesAgainst := l2[v].alliancesAgainst + [names[a], names[b]])])
  }

  /** An alliance as the single updates the referee makes, in its order:
      three coin changes, then the two alliance lists and the victim's list. */
  lemma ProcessAllianceSplit(names: seq<Name>, tab: Table, a: nat, b: nat, v: nat)
    requires Fits(tab, |names|) && a < |names| && b < |names| && v < |names|
    ensures var t3 := Credit(Credit(Credit(tab, a, 1), b, 1), v, -2);
            var t4 := Relist(t3, a, t3.ledgers[a].(alliancesWith := t3.ledgers[a].alliancesWith + [names[b]]));
            var t5 := Relist(t4, b, t4.ledgers[b].(alliancesWith := t4.ledgers[b].alliancesWith + [names[a]]));
            ProcessAlliance(names, tab, a, b, v) ==
            Relist(t5, v, t5.ledgers[v].(alliancesAgainst := t5.ledgers[v].alliancesAgainst + [names[a], names[b]]))
  {
  }

  /** An alliance moves no coin in or out of the game, keeps every player's
      coins in step with its alliance lists, and records the allies on each
      other's lists and on the victim's, first then second. */
  lemma ProcessAllianceFacts(names: seq<Name>, tab: Table, a: nat, b: nat, v: nat)
    requires Fits(tab, |names|) && a < |names| && b < |names| && v < |names|
    ensures var r := ProcessAlliance(names, tab, a, b, v);
            Sum(r.coins) == Sum(tab.coins) && AllianceLedgerKept(tab, r) &&
            names[b] in r.ledgers[a].alliancesWith && names[a] in r.ledgers[b].alliancesWith &&
            |r.ledgers[v].alliancesAgainst| >= 2 &&
            r.ledgers[v].alliancesAgainst[|r.ledgers[v].alliancesAgainst| - 2..] == [names[a], names[b]]
  {
    var r := ProcessAlliance(names, tab, a, b, v);
    var c1 := tab.coins[a := tab.coins[a] + 1];
    var c2 := c1[b := c1[b] + 1];
    SumUpdate(tab.coins, a, tab.coins[a] + 1);
    SumUpdate(c1, b, c1[b] + 1);
    SumUpdate(c2, v, c2[v] - 2);
    forall j | 0 <= j < |names|
      ensures LedgerKeptAt(tab, r, j)
    {
      assert r.coins[j] == tab.coins[j] + (if j == a then 1 else 0) + (if j == b then 1 else 0) - (if j == v then 2 else 0);
      assert |r.ledgers[j].alliancesWith| ==
             |tab.ledgers[j].alliancesWith| + (if j == a then 1 else 0) + (if j == b then 1 else 0);
      assert |r.ledgers[j].alliancesAgainst| == |tab.ledgers[j].alliancesAgainst| + (if j == v then 2 else 0);
    }
  }

  /** A victim other than the two allies has both allies appended to its
      alliances-against list, first then second. */
  lemma ProcessAllianceVictim(names: seq<Name>, tab: Table, a: nat, b: nat, v: nat)
    requires Fits(tab, |names|) && a < |names| && b < |names| && v < |names| && v != a && v != b
    ensures ProcessAlliance(names, tab, a, b, v).ledgers[v] ==
            tab.ledgers[v].(alliancesAgainst := tab.ledgers[v].alliancesAgainst + [names[a], names[b]])
  {
  }

  /** Between `tab0` and `tab`, player `j` kept its givers, takers and messages,
      its alliance lists only grew, and its coins moved by one per new ally
      minus one per entry in its new alliances-against list (two per alliance
      against it). */
  predicate LedgerKeptAt(tab0: Table, tab: Table, j: nat)
    requires j < |tab0.coins| && j < |tab0.ledgers| && j < |tab.coins| && j < |tab.ledgers|
  {
    var l0 := tab0.ledgers[j];
    var l := tab.ledgers[j];
    l.givers == l0.givers && l.takers == l0.takers && l.messages == l0.messages &&
    l0.alliancesWith <= l.alliancesWith && l0.alliancesAgainst <= l.alliancesAgainst &&
    tab.coins[j] - tab0.coins[j] ==
      (|l.alliancesWith| - |l0.alliancesWith|) - (|l.alliancesAgainst| - |l0.alliancesAgainst|)
  }

  predicate AllianceLedgerKept(tab0: Table, tab: Table) {
    |tab.coins| == |tab0.coins| == |tab.ledgers| == |tab0.ledgers| &&
    forall j :: 0 <= j < |tab0.coins| ==> LedgerKeptAt(tab0, tab, j)
  }

  lemma AllianceLedgerKeptTrans(t0: Table, t1: Table, t2: Table)
    requires AllianceLedgerKept(t0, t1) && AllianceLedgerKept(t1, t2)
    ensures AllianceLedgerKept(t0, t2)
  {
    forall j | 0 <= j < |t0.coins|
      ensures LedgerKeptAt(t0, t2, j)
    {
      assert LedgerKeptAt(t0, t1, j) && LedgerKeptAt(t1, t2, j);
    }
  }

  /** The alliance check for player `i`: when it confirms, the alliance forms. */
  function AllianceStep(names: seq<Name>, moves: seq<Option<Move>>, s: AllianceScan, i: nat): (r: AllianceScan)
    requires WellFormed(names, moves) && Fits(s.tab, |names|) && i < |names|
    ensures Fits(r.tab, |names|)
  {
    if Confirms(names, moves, s.allied, i) then
      var m := moves[i].value;
      AllianceScan(ProcessAlliance(names, s.tab, i, IndexOf(names, m.give), IndexOf(names, m.take)),
                   s.allied + [names[i], m.give],
                   s.formed + [Alliance(names[i], m.give, m.take)])
    else s
  }

  /** The alliance pass over the first `k` players, starting from `tab` and the
      names already marked allied. */
  function AllianceUpTo(names: seq<Name>, moves: seq<Option<Move>>, tab: Table, allied: seq<Name>, k: nat): (r: AllianceScan)
    requires WellFormed(names, moves) && Fits(tab, |names|) && k <= |names|
    ensures Fits(r.tab, |names|)
  {
    if k == 0 then AllianceScan(tab, allied, [])
    else AllianceStep(names, moves, AllianceUpTo(names, moves, tab, allied, k - 1), k - 1)
  }

  function AlliancePass(names: seq<Name>, moves: seq<Option<Move>>, tab: Table): AllianceScan
    requires WellFormed(names, moves) && Fits(tab, |names|)
  {
    AllianceUpTo(names, moves, tab, [], |names|)
  }

  lemma AllianceUpToFirst(names: seq<Name>, moves: seq<Option<Move>>, tab: Table, allied: seq<Name>)
    requires WellFormed(names, moves) && Fits(tab, |names|) && 0 < |names|
    ensures AllianceUpTo(names, moves, tab, allied, 1) == AllianceStep(names, moves, AllianceScan(tab, allied, []), 0)
  {
  }

  /** An alliance the moves justify: both allies are players whose valid moves
      give to each other and take from the victim. */
  predicate Genuine(names: seq<Name>, moves: seq<Option<Move>>, a: Alliance)
    requires WellFormed(names, moves)
  {
    a.first in names && a.second in names &&
    var m1 := moves[IndexOf(names, a.first)];
    var m2 := moves[IndexOf(names, a.second)];
    m1.Some? && m2.Some? &&
    m1.value.give == a.second && m2.value.give == a.first &&
    m1.value.take == a.victim && m2.value.take == a.victim
  }

  predicate AllGenuine(names: seq<Name>, moves: seq<Option<Move>>, formed: seq<Alliance>)
    requires WellFormed(names, moves)
  {
    forall p :: 0 <= p < |formed| ==> Genuine(names, moves, formed[p])
  }

  /** One alliance check either changes nothing or forms one genuine alliance
      of two players not yet allied. */
  lemma AllianceStepCases(names: seq<Name>, moves: seq<Option<Move>>, s: AllianceScan, i: nat) returns (a: Alliance)
    requires WellFormed(names, moves) && Fits(s.tab, |names|) && i < |names|
    ensures !Confirms(names, moves, s.allied, i) ==> AllianceStep(names, moves, s, i) == s
    ensures Confirms(names, moves, s.allied, i) ==>
            var r := AllianceStep(names, moves, s, i);
            a == Alliance(names[i], moves[i].value.give, moves[i].value.take) &&
            Genuine(names, moves, a) && a.first !in s.allied && a.second !in s.allied &&
            r.formed == s.formed + [a] && r.allied == s.allied + [a.first, a.second] &&
            r.tab == ProcessAlliance(names, s.tab, i, IndexOf(names, a.second), IndexOf(names, a.victim))
  {
    a := Alliance(names[i], names[i], names[i]);
    if Confirms(names, moves, s.allied, i) {
      IndexOfDistinct(names, i);
      a := Alliance(names[i], moves[i].value.give, moves[i].value.take);
      assert Genuine(names, moves, a);
    }
  }

  /** The names marked allied are the starting ones followed by the members of
      the alliances formed, in order. */
  lemma {:induction false} AllianceAllied(names: seq<Name>, moves: seq<Option<Move>>, tab: Table, allied: seq<Name>, k: nat)
    requires WellFormed(names, moves) && Fits(tab, |names|) && k <= |names|
    ensures AllianceUpTo(names, moves, tab, allied, k).allied == allied + Members(AllianceUpTo(names, moves, tab, allied, k).formed)
  {
    if k > 0 {
      AllianceAllied(names, moves, tab, allied, k - 1);
      var s := AllianceUpTo(names, moves, tab, allied, k - 1);
      AllianceUpToUnfold(names, moves, tab, allied, k);
      var a := AllianceStepCases(names, moves, s, k - 1);
      if Confirms(names, moves, s.allied, k - 1) {
        MembersAppend(s.formed, a);
        AppendAssoc(allied, Members(s.formed), [a.first, a.second]);
      }
    }
  }

  lemma AllianceUpToUnfold(names: seq<Name>, moves: seq<Option<Move>>, tab: Table, allied: seq<Name>, k: nat)
    requires WellFormed(names, moves) && Fits(tab, |names|) && 0 < k <= |names|
    ensures AllianceUpTo(names, moves, tab, allied, k) ==
            AllianceStep(names, moves, AllianceUpTo(names, moves, tab, allied, k - 1), k - 1)
  {
  }

  lemma MembersAppend(f: seq<Alliance>, a: Alliance)
    ensures Members(f + [a]) == Members(f) + [a.first, a.second]
  {
    assert (f + [a])[..|f|] == f;
  }

  /** Every alliance formed is justified by the moves. */
  lemma {:induction false} AllianceGenuine(names: seq<Name>, moves: seq<Option<Move>>, tab: Table, allied: seq<Name>, k: nat)
    requires WellFormed(names, moves) && Fits(tab, |names|) && k <= |names|
    ensures AllGenuine(names, moves, AllianceUpTo(names, moves, tab, allied, k).formed)
  {
    if k > 0 {
      AllianceGenuine(names, moves, tab, allied, k - 1);
      AllianceUpToUnfold(names, moves, tab, allied, k);
      AllianceStepGenuine(names, moves, AllianceUpTo(names, moves, tab, allied, k - 1), k - 1);
    }
  }

  lemma AllianceStepGenuine(names: seq<Name>, moves: seq<Option<Move>>, s: AllianceScan, i: nat)
    requires WellFormed(names, moves) && Fits(s.tab, |names|) && i < |names|
    requires AllGenuine(names, moves, s.formed)
    ensures AllGenuine(names, moves, AllianceStep(names, moves, s, i).formed)
  {
    var a := AllianceStepCases(names, moves, s, i);
    if Confirms(names, moves, s.allied, i) {
      AllGenuineAppend(names, moves, s.formed, a);
    }
  }

  lemma AllGenuineAppend(names: seq<Name>, moves: seq<Option<Move>>, f: seq<Alliance>, a: Alliance)
    requires WellFormed(names, moves) && AllGenuine(names, moves, f) && Genuine(names, moves, a)
    ensures AllGenuine(names, moves, f + [a])
  {
    forall p | 0 <= p < |f| + 1
      ensures Genuine(names, moves, (f + [a])[p])
    {
      if p < |f| {
        assert (f + [a])[p] == f[p];
      }
    }
  }

  lemma MembersAt(formed: seq<Alliance>, p: nat)
    requires p < |formed|
    ensures formed[p].first in Members(formed) && formed[p].second in Members(formed)
  {
    if p < |formed| - 1 {
      MembersAt(formed[..|formed| - 1], p);
    }
  }

  /** No player is a member of two alliances. */
  predicate Apart(a: Alliance, b: Alliance) {
    a.first != b.first && a.first != b.second && a.second != b.first && a.second != b.second
  }

  /** No player is a member of two of the alliances in `f`. */
  predicate AllApart(f: seq<Alliance>) {
    forall p, q :: 0 <= p < q < |f| ==> Apart(f[p], f[q])
  }

  /** No member of an alliance in `f` is among `allied`. */
  predicate FreeOf(f: seq<Alliance>, allied: seq<Name>) {
    forall q :: 0 <= q < |f| ==> f[q].first !in allied && f[q].second !in allied
  }

  /** Every member of an alliance in `f` is among `allied`. */
  predicate Covers(allied: seq<Name>, f: seq<Alliance>) {
    forall q :: 0 <= q < |f| ==> f[q].first in allied && f[q].second in allied
  }

  lemma ApartAppend(f: seq<Alliance>, a: Alliance, allied: seq<Name>)
    requires AllApart(f) && Covers(allied, f) && a.first !in allied && a.second !in allied
    ensures AllApart(f + [a])
  {
    var g := f + [a];
    forall p, q | 0 <= p < q < |g|
      ensures Apart(g[p], g[q])
    {
      assert g[p] == f[p];
      if q < |f| {
        assert g[q] == f[q];
      }
    }
  }

  /** The names marked allied include every member of every alliance formed. */
  lemma AllianceCovers(names: seq<Name>, moves: seq<Option<Move>>, tab: Table, allied: seq<Name>, k: nat)
    requires WellFormed(names, moves) && Fits(tab, |names|) && k <= |names|
    ensures Covers(AllianceUpTo(names, moves, tab, allied, k).allied, AllianceUpTo(names, moves, tab, allied, k).formed)
  {
    var r := AllianceUpTo(names, moves, tab, allied, k);
    AllianceAllied(names, moves, tab, allied, k);
    forall q | 0 <= q < |r.formed|
      ensures r.formed[q].first in r.allied && r.formed[q].second in r.allied
    {
      MembersAt(r.formed, q);
    }
  }

  lemma FreeOfAppend(f: seq<Alliance>, a: Alliance, allied: seq<Name>)
    requires FreeOf(f, allied) && a.first !in allied && a.second !in allied
    ensures FreeOf(f + [a], allied)
  {
    var g := f + [a];
    forall q | 0 <= q < |g|
      ensures g[q].first !in allied && g[q].second !in allied
    {
      if q < |f| {
        assert g[q] == f[q];
      }
    }
  }

  /** No player is in two alliances. */
  lemma {:induction false} AllianceApart(names: seq<Name>, moves: seq<Option<Move>>, tab: Table, allied: seq<Name>, k: nat)
    requires WellFormed(names, moves) && Fits(tab, |names|) && k <= |names|
    ensures AllApart(AllianceUpTo(names, moves, tab, allied, k).formed)
  {
    if k > 0 {
      AllianceApart(names, moves, tab, allied, k - 1);
      AllianceCovers(names, moves, tab, allied, k - 1);
      AllianceUpToUnfold(names, moves, tab, allied, k);
      AllianceStepApart(names, moves, AllianceUpTo(names, moves, tab, allied, k - 1), k - 1);
    }
  }

  lemma AllianceStepApart(names: seq<Name>, moves: seq<Option<Move>>, s: AllianceScan, i: nat)
    requires WellFormed(names, moves) && Fits(s.tab, |names|) && i < |names|
    requires AllApart(s.formed) && Covers(s.allied, s.formed)
    ensures AllApart(AllianceStep(names, moves, s, i).formed)
  {
    var a := AllianceStepCases(names, moves, s, i);
    if Confirms(names, moves, s.allied, i) {
      ApartAppend(s.formed, a, s.allied);
    }
  }

  /** No alliance takes in a name that was already marked allied when the
      pass started. */
  lemma {:induction false} AllianceFree(names: seq<Name>, moves: seq<Option<Move>>, tab: Table, allied: seq<Name>, k: nat)
    requires WellFormed(names, moves) && Fits(tab, |names|) && k <= |names|
    ensures FreeOf(AllianceUpTo(names, moves, tab, allied, k).formed, allied)
  {
    if k > 0 {
      AllianceFree(names, moves, tab, allied, k - 1);
      AllianceStepFree(names, moves, tab, allied, k);
    }
  }

  lemma AllianceStepFree(names: seq<Name>, moves: seq<Option<Move>>, tab: Table, allied: seq<Name>, k: nat)
    requires WellFormed(names, moves) && Fits(tab, |names|) && 0 < k <= |names|
    requires FreeOf(AllianceUpTo(names, moves, tab, allied, k - 1).formed, allied)
    ensures FreeOf(AllianceUpTo(names, moves, tab, allied, k).formed, allied)
  {
    var s := AllianceUpTo(names, moves, tab, allied, k - 1);
    AllianceAllied(names, moves, tab, allied, k - 1);
    var a := AllianceStepCases(names, moves, s, k - 1);
    AllianceUpToUnfold(names, moves, tab, allied, k);
    if Confirms(names, moves, s.allied, k - 1) {
      FreeOfAppend(s.formed, a, allied);
    }
  }

  lemma {:induction false} AlliedGrows(names: seq<Name>, moves: seq<Option<Move>>, tab: Table, allied: seq<Name>, k: nat)
    requires WellFormed(names, moves) && Fits(tab, |names|) && 0 < k <= |names|
    ensures AllianceUpTo(names, moves, tab, allied, k - 1).allied <= AllianceUpTo(names, moves, tab, allied, k).allied
  {
    var s := AllianceUpTo(names, moves, tab, allied, k - 1);
    var a := AllianceStepCases(names, moves, s, k - 1);
    AllianceUpToUnfold(names, moves, tab, allied, k);
  }

  /** First match wins, but no qualifying pair is missed: of every player whose
      give is reciprocated with the same take target, it or its partner ends
      up marked allied. */
  predicate PairCovered(names: seq<Name>, moves: seq<Option<Move>>, allied: seq<Name>, i: nat)
    requires WellFormed(names, moves) && i < |names|
  {
    Reciprocated(names, moves, i) &&
    moves[i].value.take == moves[IndexOf(names, moves[i].value.give)].value.take ==>
    names[i] in allied || moves[i].value.give in allied
  }

  lemma {:induction false} AllianceMaximal(names: seq<Name>, moves: seq<Option<Move>>, tab: Table, allied: seq<Name>, k: nat)
    requires WellFormed(names, moves) && Fits(tab, |names|) && k <= |names|
    ensures forall i :: 0 <= i < k ==> PairCovered(names, moves, AllianceUpTo(names, moves, tab, allied, k).allied, i)
  {
    if k > 0 {
      AllianceMaximal(names, moves, tab, allied, k - 1);
      AlliedGrows(names, moves, tab, allied, k);
      var s := AllianceUpTo(names, moves, tab, allied, k - 1);
      var r := AllianceUpTo(names, moves, tab, allied, k);
      AllianceUpToUnfold(names, moves, tab, allied, k);
      var a := AllianceStepCases(names, moves, s, k - 1);
      forall i | 0 <= i < k
        ensures PairCovered(names, moves, r.allied, i)
      {
        if i < k - 1 {
          assert PairCovered(names, moves, s.allied, i);
        }
      }
    }
  }

  /** The alliance pass only touches the alliance lists and coins, keeps each
      player's coins in step with its alliance lists, and moves no coin in or
      out of the game. */
  lemma {:induction false} AllianceKept(names: seq<Name>, moves: seq<Option<Move>>, tab: Table, allied: seq<Name>, k: nat)
    requires WellFormed(names, moves) && Fits(tab, |names|) && k <= |names|
    ensures AllianceLedgerKept(tab, AllianceUpTo(names, moves, tab, allied, k).tab)
    ensures Sum(AllianceUpTo(names, moves, tab, allied, k).tab.coins) == Sum(tab.coins)
  {
    if k == 0 {
      assert forall j :: 0 <= j < |tab.coins| ==> LedgerKeptAt(tab, tab, j);
    } else {
      AllianceKept(names, moves, tab, allied, k - 1);
      var s := AllianceUpTo(names, moves, tab, allied, k - 1);
      AllianceStepKept(names, moves, s, k - 1);
      AllianceUpToUnfold(names, moves, tab, allied, k);
      AllianceLedgerKeptTrans(tab, s.tab, AllianceStep(names, moves, s, k - 1).tab);
    }
  }

  lemma AllianceStepKept(names: seq<Name>, moves: seq<Option<Move>>, s: AllianceScan, i: nat)
    requires WellFormed(names, moves) && Fits(s.tab, |names|) && i < |names|
    ensures AllianceLedgerKept(s.tab, AllianceStep(names, moves, s, i).tab)
    ensures Sum(AllianceStep(names, moves, s, i).tab.coins) == Sum(s.tab.coins)
  {
    var a := AllianceStepCases(names, moves, s, i);
    if Confirms(names, moves, s.allied, i) {
      ProcessAllianceFacts(names, s.tab, i, IndexOf(names, a.second), IndexOf(names, a.victim));
    } else {
      assert forall j :: 0 <= j < |s.tab.coins| ==> LedgerKeptAt(s.tab, s.tab, j);
    }
  }

  /** The source never stops a player from naming itself as give target, and
      such a move reciprocates itself: unless the player is already allied, it
      forms an alliance with itself, gains two coins and the victim loses two. */
  lemma SelfGiftAllies(names: seq<Name>, moves: seq<Option<Move>>, tab: Table, allied: seq<Name>, i: nat)
    requires WellFormed(names, moves) && Fits(tab, |names|) && i < |names|
    requires moves[i].Some? && moves[i].value.give == names[i]
    requires names[i] !in AllianceUpTo(names, moves, tab, allied, i).allied
    ensures var s := AllianceUpTo(names, moves, tab, allied, i);
            var r := AllianceUpTo(names, moves, tab, allied, i + 1);
            var v := IndexOf(names, moves[i].value.take);
            r.formed == s.formed + [Alliance(names[i], names[i], moves[i].value.take)] &&
            r.tab.coins == s.tab.coins[i := s.tab.coins[i] + 2][v := s.tab.coins[v] - 2]
  {
    IndexOfDistinct(names, i);
    var s := AllianceUpTo(names, moves, tab, allied, i);
    assert AllianceUpTo(names, moves, tab, allied, i + 1) == AllianceStep(names, moves, s, i);
  }

  // -------------------------------------------------------------- messages

  /** The state of the message pass: the table and, once a message has been
      addressed to a name that is not a player, that name. The source raises
      `KeyError` there; the turn stops with what was delivered until then. */
  datatype Delivery = Delivery(tab: Table, unknown: Option<Name>)

  /** Player `j`'s record receives `text` from `sender`, replacing an earlier
      message from the same sender. */
  function Receive(tab: Table, j: nat, sender: Name, text: string): (r: Table)
    requires j < |tab.ledgers|
    ensures |r.coins| == |tab.coins| && |r.ledgers| == |tab.ledgers|
  {
    tab.(ledgers := tab.ledgers[j := tab.ledgers[j].(messages := Put(tab.ledgers[j].messages, sender, text))])
  }

  /** Player `i` sends the first `k` entries of `msgs` in order, stopping at
      the first recipient that is not a player. */
  function SendUpTo(names: seq<Name>, tab: Table, i: nat, msgs: Dict, k: nat): (r: Delivery)
    requires Fits(tab, |names|) && i < |names| && k <= |msgs|
    ensures Fits(r.tab, |names|)
  {
    if k == 0 then Delivery(tab, None)
    else
      var d := SendUpTo(names, tab, i, msgs, k - 1);
      var recipient := msgs[k - 1].0;
      if d.unknown.Some? then d
      else if recipient in names then
        Delivery(Receive(d.tab, IndexOf(names, recipient), names[i], msgs[k - 1].1), None)
      else Delivery(d.tab, Some(recipient))
  }

  /** Player `i`'s turn in the message pass: a valid move sends all of its
      messages; nothing happens once delivery has failed. */
  function MessageStep(names: seq<Name>, moves: seq<Option<Move>>, d: Delivery, i: nat): (r: Delivery)
    requires WellFormed(names, moves) && Fits(d.tab, |names|) && i < |names|
    ensures Fits(r.tab, |names|)
  {
    if d.unknown.Some? || moves[i].None? then d
    else SendUpTo(names, d.tab, i, moves[i].value.messages, |moves[i].value.messages|)
  }

  function MessageUpTo(names: seq<Name>, moves: seq<Option<Move>>, tab: Table, k: nat): (r: Delivery)
    requires WellFormed(names, moves) && Fits(tab, |names|) && k <= |names|
    ensures Fits(r.tab, |names|)
  {
    if k == 0 then Delivery(tab, None)
    else MessageStep(names, moves, MessageUpTo(names, moves, tab, k - 1), k - 1)
  }

  function MessagePass(names: seq<Name>, moves: seq<Option<Move>>, tab: Table): Delivery
    requires WellFormed(names, moves) && Fits(tab, |names|)
  {
    MessageUpTo(names, moves, tab, |names|)
  }

  /** `d` holds `text` as the message from `sender`. */
  predicate Received(d: Dict, sender: Name, text: string) {
    HasKey(d, sender) && Get(d, sender) == text
  }

  /** Some of the first `k` entries of `msgs` is addressed to a name that is not a player. */
  predicate Stray(names: seq<Name>, msgs: Dict, k: nat)
    requires k <= |msgs|
  {
    k > 0 && (Stray(names, msgs, k - 1) || msgs[k - 1].0 !in names)
  }

  lemma {:induction false} StrayAt(names: seq<Name>, msgs: Dict, k: nat)
    requires k <= |msgs|
    ensures Stray(names, msgs, k) <==> exists e :: 0 <= e < k && msgs[e].0 !in names
  {
    if k > 0 {
      StrayAt(names, msgs, k - 1);
    }
  }

  /** Only message dictionaries differ between `tab0` and `tab`. */
  predicate OnlyMessagesChanged(tab0: Table, tab: Table) {
    tab.coins == tab0.coins && |tab.ledgers| == |tab0.ledgers| &&
    forall j :: 0 <= j < |tab0.ledgers| ==> tab.ledgers[j] == tab0.ledgers[j].(messages := tab.ledgers[j].messages)
  }

  lemma OnlyMessagesChangedTrans(t0: Table, t1: Table, t2: Table)
    requires OnlyMessagesChanged(t0, t1) && OnlyMessagesChanged(t1, t2)
    ensures OnlyMessagesChanged(t0, t2)
  {
    forall j | 0 <= j < |t0.ledgers|
      ensures t2.ledgers[j] == t0.ledgers[j].(messages := t2.ledgers[j].messages)
    {
      assert t1.ledgers[j] == t0.ledgers[j].(messages := t1.ledgers[j].messages);
    }
  }

  /** One entry of a delivery: whether it stops the delivery. */
  lemma SendUpToUnknown(names: seq<Name>, tab: Table, i: nat, msgs: Dict, k: nat)
    requires Fits(tab, |names|) && i < |names| && 0 < k <= |msgs|
    ensures var d := SendUpTo(names, tab, i, msgs, k - 1);
            SendUpTo(names, tab, i, msgs, k).unknown ==
              if d.unknown.Some? then d.unknown
              else if msgs[k - 1].0 in names then None
              else Some(msgs[k - 1].0)
  {
  }

  /** One entry of a delivery: what it does to the table. */
  lemma SendUpToTab(names: seq<Name>, tab: Table, i: nat, msgs: Dict, k: nat)
    requires Fits(tab, |names|) && i < |names| && 0 < k <= |msgs|
    ensures var d := SendUpTo(names, tab, i, msgs, k - 1);
            SendUpTo(names, tab, i, msgs, k).tab ==
              if d.unknown.None? && msgs[k - 1].0 in names
              then Receive(d.tab, IndexOf(names, msgs[k - 1].0), names[i], msgs[k - 1].1)
              else d.tab
  {
  }

  /** A sender's delivery fails exactly at a stray recipient, and the failure
      names a recipient that is not a player. */
  lemma {:induction false} SendUpToFails(names: seq<Name>, tab: Table, i: nat, msgs: Dict, k: nat)
    requires Fits(tab, |names|) && i < |names| && k <= |msgs|
    ensures var r := SendUpTo(names, tab, i, msgs, k);
            (r.unknown.Some? <==> Stray(names, msgs, k)) &&
            (r.unknown.Some? ==> r.unknown.value !in names)
  {
    if k > 0 {
      SendUpToFails(names, tab, i, msgs, k - 1);
      SendUpToUnknown(names, tab, i, msgs, k);
    }
  }

  /** A sender's delivery, whole or cut short, changes only message dictionaries. */
  lemma {:induction false} SendUpToKept(names: seq<Name>, tab: Table, i: nat, msgs: Dict, k: nat)
    requires Fits(tab, |names|) && i < |names| && k <= |msgs|
    ensures OnlyMessagesChanged(tab, SendUpTo(names, tab, i, msgs, k).tab)
  {
    if k == 0 {
      assert forall j :: 0 <= j < |tab.ledgers| ==> tab.ledgers[j] == tab.ledgers[j].(messages := tab.ledgers[j].messages);
    } else {
      SendUpToKept(names, tab, i, msgs, k - 1);
      SendUpToUnknown(names, tab, i, msgs, k);
      SendUpToTab(names, tab, i, msgs, k);
      var d := SendUpTo(names, tab, i, msgs, k - 1);
      if d.unknown.None? && msgs[k - 1].0 in names {
        var r := Receive(d.tab, IndexOf(names, msgs[k - 1].0), names[i], msgs[k - 1].1);
        ReceiveKept(d.tab, IndexOf(names, msgs[k - 1].0), names[i], msgs[k - 1].1);
        OnlyMessagesChangedTrans(tab, d.tab, r);
      }
    }
  }

  lemma ReceiveKept(tab: Table, j: nat, sender: Name, text: string)
    requires j < |tab.ledgers|
    ensures OnlyMessagesChanged(tab, Receive(tab, j, sender, text))
  {
  }

  lemma ReceiveAt(tab: Table, jn: nat, sender: Name, text: string, j: nat)
    requires jn < |tab.ledgers| && j < |tab.ledgers|
    ensures Receive(tab, jn, sender, text).ledgers[j] ==
            if j == jn then tab.ledgers[j].(messages := Put(tab.ledgers[j].messages, sender, text))
            else tab.ledgers[j]
  {
  }

  /** What `target`'s dictionary becomes when `sender` sends it the first `k`
      entries of `msgs` that are addressed to it. */
  function SendInbox(d: Dict, sender: Name, msgs: Dict, k: nat, target: Name): Dict
    requires k <= |msgs|
  {
    if k == 0 then d
    else
      var prev := SendInbox(d, sender, msgs, k - 1, target);
      if msgs[k - 1].0 == target then Put(prev, sender, msgs[k - 1].1) else prev
  }

  /** A successful delivery, seen from player `j`: its record changes only by
      the sender's entries addressed to it. */
  lemma {:induction false} SendUpToAt(names: seq<Name>, tab: Table, i: nat, msgs: Dict, k: nat, j: nat)
    requires Fits(tab, |names|) && Distinct(names) && i < |names| && j < |names| && k <= |msgs|
    requires SendUpTo(names, tab, i, msgs, k).unknown.None?
    ensures SendUpTo(names, tab, i, msgs, k).tab.ledgers[j] ==
            tab.ledgers[j].(messages := SendInbox(tab.ledgers[j].messages, names[i], msgs, k, names[j]))
  {
    if k > 0 {
      SendUpToUnknown(names, tab, i, msgs, k);
      SendUpToTab(names, tab, i, msgs, k);
      SendUpToAt(names, tab, i, msgs, k - 1, j);
      var d := SendUpTo(names, tab, i, msgs, k - 1);
      var jn := IndexOf(names, msgs[k - 1].0);
      IndexOfDistinct(names, j);
      assert jn == j <==> msgs[k - 1].0 == names[j];
      ReceiveAt(d.tab, jn, names[i], msgs[k - 1].1, j);
    }
  }

  /** An entry of `msgs` addressed to `target` ends up under the sender's name
      (the keys of `msgs` are unique, so no later entry replaces it). */
  lemma {:induction false} SendInboxHas(d: Dict, sender: Name, msgs: Dict, k: nat, target: Name, e: nat)
    requires UniqueKeys(msgs) && e < k <= |msgs| && msgs[e].0 == target
    ensures Received(SendInbox(d, sender, msgs, k, target), sender, msgs[e].1)
  {
    var prev := SendInbox(d, sender, msgs, k - 1, target);
    if e == k - 1 {
      assert SendInbox(d, sender, msgs, k, target) == Put(prev, sender, msgs[e].1);
      PutFacts(prev, sender, msgs[e].1);
    } else {
      SendInboxHas(d, sender, msgs, k - 1, target, e);
      UniqueKeysAt(msgs, e, k - 1);
      assert SendInbox(d, sender, msgs, k, target) == prev;
    }
  }

  /** A sender's delivery leaves every other sender's entry as it was. */
  lemma {:induction false} SendInboxOther(d: Dict, sender: Name, msgs: Dict, k: nat, target: Name, x: Name)
    requires k <= |msgs| && x != sender
    ensures HasKey(SendInbox(d, sender, msgs, k, target), x) == HasKey(d, x)
    ensures HasKey(d, x) ==> Get(SendInbox(d, sender, msgs, k, target), x) == Get(d, x)
  {
    if k > 0 {
      SendInboxOther(d, sender, msgs, k - 1, target, x);
      PutOther(SendInbox(d, sender, msgs, k - 1, target), sender, msgs[k - 1].1, x);
    }
  }

  /** A delivery adds a key only for the sender, and only when it addresses `target`. */
  lemma {:induction false} SendInboxKeys(d: Dict, sender: Name, msgs: Dict, k: nat, target: Name, x: Name)
    requires k <= |msgs| && HasKey(SendInbox(d, sender, msgs, k, target), x)
    ensures HasKey(d, x) || (x == sender && HasKey(msgs, target))
  {
    if k > 0 {
      var prev := SendInbox(d, sender, msgs, k - 1, target);
      if HasKey(prev, x) {
        SendInboxKeys(d, sender, msgs, k - 1, target, x);
      } else {
        if x != sender {
          PutOther(prev, sender, msgs[k - 1].1, x);
        }
        assert msgs[k - 1].0 == target && Keys(msgs)[k - 1] == target;
      }
    }
  }

  /** Player `j`'s message dictionary after the first `k` players with valid
      moves have sent their messages, all to players. */
  function Inbox(names: seq<Name>, moves: seq<Option<Move>>, d: Dict, k: nat, j: nat): Dict
    requires WellFormed(names, moves) && k <= |names| && j < |names|
  {
    if k == 0 then d
    else
      var prev := Inbox(names, moves, d, k - 1, j);
      match moves[k - 1]
      case None => prev
      case Some(m) => SendInbox(prev, names[k - 1], m.messages, |m.messages|, names[j])
  }

  lemma MessageUpToUnfold(names: seq<Name>, moves: seq<Option<Move>>, tab: Table, k: nat)
    requires WellFormed(names, moves) && Fits(tab, |names|) && 0 < k <= |names|
    ensures MessageUpTo(names, moves, tab, k) == MessageStep(names, moves, MessageUpTo(names, moves, tab, k - 1), k - 1)
  {
  }

  /** The message pass, not yet failed after `k` players, goes on with
      player `k`'s messages; should they fail, the pass ends there. */
  lemma MessageUpToNext(names: seq<Name>, moves: seq<Option<Move>>, tab: Table, k: nat)
    requires WellFormed(names, moves) && Fits(tab, |names|) && k < |names|
    requires MessageUpTo(names, moves, tab, k).unknown == None
    ensures var d := MessageUpTo(names, moves, tab, k + 1);
            d == MessageStep(names, moves, Delivery(MessageUpTo(names, moves, tab, k).tab, None), k) &&
            (d.unknown.Some? ==> MessageUpTo(names, moves, tab, |names|) == d)
  {
    MessageUpToUnfold(names, moves, tab, k + 1);
    if MessageUpTo(names, moves, tab, k + 1).unknown.Some? {
      MessageUpToStuck(names, moves, tab, k + 1, |names|);
    }
  }

  /** Once a sender's delivery has stopped at a stray recipient, its later
      entries change nothing. */
  lemma {:induction false} SendUpToStuck(names: seq<Name>, tab: Table, i: nat, msgs: Dict, k: nat, k2: nat)
    requires Fits(tab, |names|) && i < |names| && k <= k2 <= |msgs|
    requires SendUpTo(names, tab, i, msgs, k).unknown.Some?
    ensures SendUpTo(names, tab, i, msgs, k2) == SendUpTo(names, tab, i, msgs, k)
  {
    if k2 > k {
      SendUpToStuck(names, tab, i, msgs, k, k2 - 1);
    }
  }

  /** Once the message pass has failed, the later players change nothing. */
  lemma {:induction false} MessageUpToStuck(names: seq<Name>, moves: seq<Option<Move>>, tab: Table, k: nat, k2: nat)
    requires WellFormed(names, moves) && Fits(tab, |names|) && k <= k2 <= |names|
    requires MessageUpTo(names, moves, tab, k).unknown.Some?
    ensures MessageUpTo(names, moves, tab, k2) == MessageUpTo(names, moves, tab, k)
  {
    if k2 > k {
      MessageUpToStuck(names, moves, tab, k, k2 - 1);
      MessageUpToUnfold(names, moves, tab, k2);
    }
  }

  /** Among the first `k` players, one with a valid move addresses a message
      to a name that is not a player. */
  predicate Misaddressed(names: seq<Name>, moves: seq<Option<Move>>, k: nat)
    requires |moves| == |names| && k <= |names|
  {
    exists i :: 0 <= i < k && moves[i].Some? && Stray(names, moves[i].value.messages, |moves[i].value.messages|)
  }

  /** The message pass fails exactly when some valid move addresses a
      non-player, and then names that recipient. */
  lemma {:induction false} MessageUpToFails(names: seq<Name>, moves: seq<Option<Move>>, tab: Table, k: nat)
    requires WellFormed(names, moves) && Fits(tab, |names|) && k <= |names|
    ensures var r := MessageUpTo(names, moves, tab, k);
            (r.unknown.Some? <==> Misaddressed(names, moves, k)) &&
            (r.unknown.Some? ==> r.unknown.value !in names)
  {
    if k > 0 {
      var i := k - 1;
      MessageUpToFails(names, moves, tab, i);
      var d := MessageUpTo(names, moves, tab, i);
      MessageUpToUnfold(names, moves, tab, k);
      if d.unknown.None? && moves[i].Some? {
        var msgs := moves[i].value.messages;
        SendUpToFails(names, d.tab, i, msgs, |msgs|);
      }
      MisaddressedStep(names, moves, k);
    }
  }

  lemma MisaddressedStep(names: seq<Name>, moves: seq<Option<Move>>, k: nat)
    requires |moves| == |names| && 0 < k <= |names|
    ensures Misaddressed(names, moves, k) <==>
            Misaddressed(names, moves, k - 1) ||
            (moves[k - 1].Some? && Stray(names, moves[k - 1].value.messages, |moves[k - 1].value.messages|))
  {
    if Misaddressed(names, moves, k) && !Misaddressed(names, moves, k - 1) {
      var w :| 0 <= w < k && moves[w].Some? && Stray(names, moves[w].value.messages, |moves[w].value.messages|);
      assert w == k - 1;
    }
  }

  /** The message pass, failed or not, touches nothing but message
      dictionaries: coins and every other list stay as they were. */
  lemma {:induction false} MessageUpToKept(names: seq<Name>, moves: seq<Option<Move>>, tab: Table, k: nat)
    requires WellFormed(names, moves) && Fits(tab, |names|) && k <= |names|
    ensures OnlyMessagesChanged(tab, MessageUpTo(names, moves, tab, k).tab)
  {
    if k == 0 {
      assert forall j :: 0 <= j < |tab.ledgers| ==> tab.ledgers[j] == tab.ledgers[j].(messages := tab.ledgers[j].messages);
    } else {
      var i := k - 1;
      MessageUpToKept(names, moves, tab, i);
      var d := MessageUpTo(names, moves, tab, i);
      MessageUpToUnfold(names, moves, tab, k);
      if d.unknown.None? && moves[i].Some? {
        var msgs := moves[i].value.messages;
        SendUpToKept(names, d.tab, i, msgs, |msgs|);
        OnlyMessagesChangedTrans(tab, d.tab, SendUpTo(names, d.tab, i, msgs, |msgs|).tab);
      }
    }
  }

  /** A successful message pass, seen from player `j`: its record changes
      only in its message dictionary, which becomes its inbox. */
  lemma {:induction false} MessageUpToAt(names: seq<Name>, moves: seq<Option<Move>>, tab: Table, k: nat, j: nat)
    requires WellFormed(names, moves) && Fits(tab, |names|) && k <= |names| && j < |names|
    requires MessageUpTo(names, moves, tab, k).unknown.None?
    ensures MessageUpTo(names, moves, tab, k).tab.ledgers[j] ==
            tab.ledgers[j].(messages := Inbox(names, moves, tab.ledgers[j].messages, k, j))
  {
    if k > 0 {
      MessageUpToUnfold(names, moves, tab, k);
      var d := MessageUpTo(names, moves, tab, k - 1);
      MessageUpToAt(names, moves, tab, k - 1, j);
      if moves[k - 1].Some? {
        var msgs := moves[k - 1].value.messages;
        SendUpToAt(names, d.tab, k - 1, msgs, |msgs|, j);
      }
    }
  }

  /** Every message a valid player addresses to player `j` is in `j`'s inbox
      under the sender's name: later senders have other names, and a sender
      names each recipient once. */
  lemma {:induction false} InboxHas(names: seq<Name>, moves: seq<Option<Move>>, d: Dict, k: nat, j: nat, i: nat, e: nat)
    requires WellFormed(names, moves) && k <= |names| && j < |names| && i < k && moves[i].Some?
    requires e < |moves[i].value.messages| && moves[i].value.messages[e].0 == names[j]
    ensures Received(Inbox(names, moves, d, k, j), names[i], moves[i].value.messages[e].1)
  {
    var prev := Inbox(names, moves, d, k - 1, j);
    if i == k - 1 {
      var msgs := moves[i].value.messages;
      SendInboxHas(prev, names[i], msgs, |msgs|, names[j], e);
    } else {
      InboxHas(names, moves, d, k - 1, j, i, e);
      if moves[k - 1].Some? {
        var msgs := moves[k - 1].value.messages;
        DistinctAt(names, i, k - 1);
        SendInboxOther(prev, names[k - 1], msgs, |msgs|, names[j], names[i]);
      }
    }
  }

  /** Among the first `k` players, the one named `x` has a valid move with a
      message for player `j`. */
  predicate Addresses(names: seq<Name>, moves: seq<Option<Move>>, x: Name, j: nat, k: nat)
    requires WellFormed(names, moves) && j < |names|
  {
    x in names && IndexOf(names, x) < k && moves[IndexOf(names, x)].Some? &&
    HasKey(moves[IndexOf(names, x)].value.messages, names[j])
  }

  /** Every entry of player `j`'s inbox was there before or comes from a valid
      player whose move addresses `j`. */
  lemma {:induction false} InboxOnly(names: seq<Name>, moves: seq<Option<Move>>, d: Dict, k: nat, j: nat, x: Name)
    requires WellFormed(names, moves) && k <= |names| && j < |names|
    requires HasKey(Inbox(names, moves, d, k, j), x)
    ensures HasKey(d, x) || Addresses(names, moves, x, j, k)
  {
    if k > 0 {
      var prev := Inbox(names, moves, d, k - 1, j);
      if HasKey(prev, x) {
        InboxOnly(names, moves, d, k - 1, j, x);
      } else {
        var msgs := moves[k - 1].value.messages;
        SendInboxKeys(prev, names[k - 1], msgs, |msgs|, names[j], x);
        IndexOfDistinct(names, k - 1);
      }
    }
  }

  // ------------------------------------------------------------ whole turn

  /** The settlement of a turn: giving, taking, alliances and messages, in
      that order. */
  function Settle(names: seq<Name>, moves: seq<Option<Move>>, tab: Table): (r: Delivery)
    requires WellFormed(names, moves) && Fits(tab, |names|)
    ensures Fits(r.tab, |names|)
  {
    var given := GivePass(names, moves, tab);
    var taken := TakePass(names, moves, given);
    MessagePass(names, moves, AlliancePass(names, moves, taken).tab)
  }

  /** Over a whole turn, whether or not message delivery fails, the coins in
      the game drop by exactly the number of invalid moves: taking and
      alliances are zero-sum and a valid give only moves a coin. */
  lemma SettleTotal(names: seq<Name>, moves: seq<Option<Move>>, tab: Table)
    requires WellFormed(names, moves) && Fits(tab, |names|)
    ensures Sum(Settle(names, moves, tab).tab.coins) == Sum(tab.coins) - InvalidCount(moves, |names|)
  {
    var given := GivePass(names, moves, tab);
    var taken := TakePass(names, moves, given);
    var allied := AlliancePass(names, moves, taken).tab;
    GivePassTotal(names, moves, tab);
    TakePassTotal(names, moves, given);
    AllianceKept(names, moves, taken, [], |names|);
    MessageUpToKept(names, moves, allied, |names|);
  }

  /** Three players at twelve coins: A gives to B and takes from C, B gives to
      A and takes from C, C gives to A and takes from B. */
  const Trio: seq<Name> := ["A", "B", "C"]
  const TrioMoves: seq<Option<Move>> :=
    [Some(Move("", "B", "C", [])), Some(Move("", "A", "C", [])), Some(Move("", "A", "B", []))]
  const TrioStart: Table := Table([12, 12, 12], [EmptyLedger, EmptyLedger, EmptyLedger])

  lemma TrioWellFormed()
    ensures WellFormed(Trio, TrioMoves) && Fits(TrioStart, 3)
    ensures IndexOf(Trio, "A") == 0 && IndexOf(Trio, "B") == 1 && IndexOf(Trio, "C") == 2
  {
    assert Keys([]) == [];
  }

  lemma TrioMovesAt()
    ensures TrioMoves[0] == Some(Move("", "B", "C", [])) && TrioMoves[1] == Some(Move("", "A", "C", []))
    ensures |Trio| == |TrioMoves| == 3 && TrioMoves[2] == Some(Move("", "A", "B", [])) && Trio[0] == "A" && Trio[1] == "B" && Trio[2] == "C"
  {
  }

  lemma TrioGiving()
    ensures WellFormed(Trio, TrioMoves) && Fits(TrioStart, 3)
    ensures GivePass(Trio, TrioMoves, TrioStart).coins == [13, 12, 11]
  {
    TrioWellFormed();
    TrioMovesAt();
    var g1 := GiveUpTo(Trio, TrioMoves, TrioStart, 1);
    assert GiveUpTo(Trio, TrioMoves, TrioStart, 0) == TrioStart;
    assert g1 == GiveStep(Trio, TrioMoves, TrioStart, 0);
    var g2 := GiveUpTo(Trio, TrioMoves, TrioStart, 2);
    assert g1.coins == [11, 13, 12];
    assert g2.coins == [12, 12, 12];
  }

  lemma TrioTaking(g: Table)
    requires WellFormed(Trio, TrioMoves) && Fits(g, 3) && g.coins == [13, 12, 11]
    ensures TakePass(Trio, TrioMoves, g).coins == [14, 12, 10]
  {
    TrioWellFormed();
    TrioMovesAt();
    var t1 := TakeUpTo(Trio, TrioMoves, g, 1);
    assert TakeUpTo(Trio, TrioMoves, g, 0) == g;
    assert t1 == TakeStep(Trio, TrioMoves, g, 0);
    var t2 := TakeUpTo(Trio, TrioMoves, g, 2);
    assert t1.coins == [14, 12, 10];
    assert t2.coins == [14, 13, 9];
  }

  lemma TrioFirstCheck(s0: AllianceScan)
    requires WellFormed(Trio, TrioMoves) && Fits(s0.tab, 3) && s0.allied == []
    ensures AllianceStep(Trio, TrioMoves, s0, 0) ==
            AllianceScan(ProcessAlliance(Trio, s0.tab, 0, 1, 2), ["A", "B"], s0.formed + [Alliance("A", "B", "C")])
  {
    TrioWellFormed();
    TrioMovesAt();
    assert Confirms(Trio, TrioMoves, s0.allied, 0);
    var a := AllianceStepCases(Trio, TrioMoves, s0, 0);
  }

  lemma TrioAllianceFirst(t: Table)
    requires WellFormed(Trio, TrioMoves) && Fits(t, 3)
    ensures AllianceUpTo(Trio, TrioMoves, t, [], 1) ==
            AllianceScan(ProcessAlliance(Trio, t, 0, 1, 2), ["A", "B"], [Alliance("A", "B", "C")])
  {
    TrioMovesAt();
    AllianceUpToFirst(Trio, TrioMoves, t, []);
    TrioFirstCheck(AllianceScan(t, [], []));
  }

  lemma TrioAllianceRest(t: Table)
    requires WellFormed(Trio, TrioMoves) && Fits(t, 3)
    ensures AllianceUpTo(Trio, TrioMoves, t, [], 3) == AllianceUpTo(Trio, TrioMoves, t, [], 1)
  {
    TrioWellFormed();
    TrioMovesAt();
    TrioAllianceFirst(t);
    assert !Reciprocated(Trio, TrioMoves, 2);
    assert AllianceUpTo(Trio, TrioMoves, t, [], 2) == AllianceUpTo(Trio, TrioMoves, t, [], 1);
  }

  lemma TrioAlliance(t: Table)
    requires WellFormed(Trio, TrioMoves) && Fits(t, 3) && t.coins == [14, 12, 10]
    ensures var s := AlliancePass(Trio, TrioMoves, t);
            s.formed == [Alliance("A", "B", "C")] && s.tab.coins == [15, 13, 8] &&
            s.tab.ledgers[2].alliancesAgainst == t.ledgers[2].alliancesAgainst + ["A", "B"]
  {
    TrioMovesAt();
    TrioAllianceRest(t);
    TrioAllianceFirst(t);
    ProcessAllianceVictim(Trio, t, 0, 1, 2);
    assert ProcessAlliance(Trio, t, 0, 1, 2).coins == [15, 13, 8];
  }

  /** The three-player turn: A and B ally against C, and the turn ends at 15,
      13 and 8 coins with C's record listing both allies. */
  lemma ThreePlayerTurn()
    ensures WellFormed(Trio, TrioMoves) && Fits(TrioStart, 3)
    ensures Settle(Trio, TrioMoves, TrioStart).tab.coins == [15, 13, 8]
    ensures AlliancePass(Trio, TrioMoves, TakePass(Trio, TrioMoves, GivePass(Trio, TrioMoves, TrioStart))).formed ==
            [Alliance("A", "B", "C")]
    ensures Settle(Trio, TrioMoves, TrioStart).tab.ledgers[2].alliancesAgainst == ["A", "B"]
  {
    TrioGiving();
    var g := GivePass(Trio, TrioMoves, TrioStart);
    TrioTaking(g);
    var t := TakePass(Trio, TrioMoves, g);
    GiveUpToAt(Trio, TrioMoves, TrioStart, 3, 2);
    TakeUpToAt(Trio, TrioMoves, g, 3, 2);
    TrioAlliance(t);
    var s := AlliancePass(Trio, TrioMoves, t);
    MessageUpToKept(Trio, TrioMoves, s.tab, 3);
  }
}
