/** The referee of one turn: it reads each player's reply into a turn record,
    then settles the turn over the players in list order (giving, taking,
    alliances, messages), updating coins and records in place. Each pass is
    proved to leave the players and records in the state the matching pass of
    `Settlement` computes. */
module Referees {
  import opened Wrappers
  import opened Texts
  import opened Moves
  import opened Records
  import opened Players
  import opened Settlement

  // ------------------------------------------------------------- reading a reply

  /** Why a reply does not become a move. */
  datatype Rejection = Malformed | InvalidGive | InvalidTake | MatchingGiveAndTake

  /** `s.find(c)`: the first position of `c`, or -1. */
  function Find(s: string, c: char): (r: int)
    ensures -1 <= r < |s|
    ensures r == -1 <==> c !in s
    ensures r >= 0 ==> s[r] == c && forall k :: 0 <= k < r ==> s[k] != c
  {
    if s == [] then -1
    else if s[0] == c then 0
    else
      var t := Find(s[1..], c);
      assert forall k :: 1 <= k < |s| ==> s[k] == s[1..][k - 1];
      if t == -1 then -1 else t + 1
  }

  /** `s.rfind(c)`: the last position of `c`, or -1. */
  function RFind(s: string, c: char): (r: int)
    ensures -1 <= r < |s|
    ensures r == -1 <==> c !in s
    ensures r >= 0 ==> s[r] == c && forall k :: r < k < |s| ==> s[k] != c
  {
    if s == [] then -1
    else if s[|s| - 1] == c then |s| - 1
    else
      assert forall k :: 0 <= k < |s| - 1 ==> s[k] == s[..|s| - 1][k];
      RFind(s[..|s| - 1], c)
  }

  /** A slice bound as Python reads it: a negative bound counts from the end,
      and the result is clamped to the text. */
  function SliceBound(i: int, n: nat): (r: nat)
    ensures r <= n
    ensures 0 <= i <= n ==> r == i
    ensures -(n as int) <= i < 0 ==> r == n as int + i
    ensures i < -(n as int) ==> r == 0
    ensures i > n ==> r == n
  {
    if i < 0 then (if n + i < 0 then 0 else n + i)
    else if i > n then n
    else i
  }

  /** `s[start:stop]`: empty when the bounds cross. */
  function Slice(s: string, start: int, stop: int): string {
    var a := SliceBound(start, |s|);
    var b := SliceBound(stop, |s|);
    if a < b then s[a..b] else ""
  }

  /** The text from the first `{` to the last `}`, computed as the source does
      it: a missing brace makes the bound -1, which Python reads as a
      position counted from the end. */
  function BraceSlice(s: string): string {
    Slice(s, Find(s, '{'), RFind(s, '}') + 1)
  }

  /** When an opening brace comes no later than the last closing one, the
      slice runs from the first `{` to the last `}` inclusive. */
  lemma BraceSliceSpan(s: string)
    requires 0 <= Find(s, '{') <= RFind(s, '}')
    ensures BraceSlice(s) == s[Find(s, '{')..RFind(s, '}') + 1]
    ensures BraceSlice(s)[0] == '{' && BraceSlice(s)[|BraceSlice(s)| - 1] == '}'
  {
    SliceSpan(s, Find(s, '{'), RFind(s, '}') + 1);
  }

  /** Bounds inside the text are taken as they are: the slice runs from
      `s[a]` to `s[b - 1]`. */
  lemma SliceSpan(s: string, a: int, b: int)
    requires 0 <= a < b <= |s|
    ensures Slice(s, a, b) == s[a..b]
    ensures Slice(s, a, b)[0] == s[a] && Slice(s, a, b)[b - a - 1] == s[b - 1]
  {
  }

  /** Without a closing brace the stop bound is 0 and the slice is empty. */
  lemma BraceSliceNoClose(s: string)
    requires '}' !in s
    ensures BraceSlice(s) == ""
  {
  }

  /** Without an opening brace the start bound -1 means the last character:
      the slice is `}` when the text ends with one, and empty otherwise. */
  lemma BraceSliceNoOpen(s: string)
    requires '{' !in s
    ensures BraceSlice(s) == if s != [] && s[|s| - 1] == '}' then "}" else ""
  {
  }

  /** A reply that is exactly one braced object passes through whole. */
  lemma BraceSliceBraced(s: string)
    requires s != [] && s[0] == '{' && s[|s| - 1] == '}'
    ensures BraceSlice(s) == s
  {
  }

  /** Slicing twice gives what slicing once gave. */
  lemma BraceSliceIdempotent(s: string)
    ensures BraceSlice(BraceSlice(s)) == BraceSlice(s)
  {
    var r := BraceSlice(s);
    if 0 <= Find(s, '{') <= RFind(s, '}') {
      BraceSliceSpan(s);
      BraceSliceBraced(r);
    } else if '{' !in s {
      BraceSliceNoOpen(s);
    } else if '}' !in s {
      BraceSliceNoClose(s);
    }
  }

  /** The give target must be a player, then the take target, then the two
      must differ; the first failing check names the rejection. */
  function CheckResponse(m: Move, names: seq<Name>): (r: Outcome<Rejection>)
    ensures r.Pass? <==> Legal(m, names)
  {
    if m.give !in names then Fail(InvalidGive)
    else if m.take !in names then Fail(InvalidTake)
    else if m.give == m.take then Fail(MatchingGiveAndTake)
    else Pass
  }

  /** Which rejection an illegal move gets: the first check it fails, and
      never `Malformed`, which only the decoding gives. */
  lemma CheckResponseFirstFailure(m: Move, names: seq<Name>)
    ensures CheckResponse(m, names) == Fail(InvalidGive) <==> m.give !in names
    ensures CheckResponse(m, names) == Fail(InvalidTake) <==> m.give in names && m.take !in names
    ensures CheckResponse(m, names) == Fail(MatchingGiveAndTake) <==>
              m.give in names && m.take in names && m.give == m.take
    ensures CheckResponse(m, names) != Fail(Malformed)
  {
  }

  /** A reply read into a move: the braced part is decoded by `decode` (the
      JSON decoder), read as a move and checked against the player names. */
  function ParseResponse(response: string, names: seq<Name>, decode: string -> Option<Json>): (r: Result<Move, Rejection>)
    ensures r.Ok? ==> Legal(r.value, names) && UniqueKeys(r.value.messages)
    ensures r.Ok? <==>
      var j := decode(BraceSlice(response));
      j.Some? && FromJson(j.value).Some? && Legal(FromJson(j.value).value, names)
    ensures r.Ok? ==> FromJson(decode(BraceSlice(response)).value) == Some(r.value)
  {
    match decode(BraceSlice(response))
    case None => Err(Malformed)
    case Some(j) =>
      match FromJson(j)
      case None => Err(Malformed)
      case Some(m) =>
        FromJsonUnique(j);
        match CheckResponse(m, names)
        case Pass => Ok(m)
        case Fail(e) => Err(e)
  }

  /** Every move read from JSON names each recipient once. */
  lemma FromJsonUnique(j: Json)
    requires FromJson(j).Some?
    ensures UniqueKeys(FromJson(j).value.messages)
  {
  }

  /** A legal move written in the requested layout, and decoded from the
      braced part of the reply, is read back as that same move. */
  lemma ParseResponseOfMove(m: Move, names: seq<Name>, decode: string -> Option<Json>, response: string)
    requires Legal(m, names) && UniqueKeys(m.messages)
    requires decode(BraceSlice(response)) == Some(ToJson(m))
    ensures ParseResponse(response, names, decode) == Ok(m)
  {
    FromJsonToJson(m);
  }

  /** What a player's turn record holds: `None` when the call to the player's
      model failed (`response` is `None`) or the reply was rejected. */
  function Accepted(response: Option<string>, names: seq<Name>, decode: string -> Option<Json>): (r: Option<Move>)
    ensures r.Some? ==> Legal(r.value, names) && UniqueKeys(r.value.messages)
    ensures r.Some? <==> response.Some? && ParseResponse(response.value, names, decode).Ok?
  {
    match response
    case None => None
    case Some(text) =>
      match ParseResponse(text, names, decode)
      case Ok(m) => Some(m)
      case Err(_) => None
  }

  /** The move each player's record holds, given every player's reply: a
      full list of replies to a roster without repeated names always gives
      moves the settlement accepts. */
  function Replies(responses: seq<Option<string>>, names: seq<Name>, decode: string -> Option<Json>): (ms: seq<Option<Move>>)
    ensures |ms| == |responses|
    ensures forall j :: 0 <= j < |responses| ==> ms[j] == Accepted(responses[j], names, decode)
    ensures |responses| == |names| && Distinct(names) ==> WellFormed(names, ms)
  {
    seq(|responses|, j requires 0 <= j < |responses| => Accepted(responses[j], names, decode))
  }

  /** The value of a record's settlement lists and message dictionary. */
  function LedgerOf(r: TurnRecord): Ledger
    reads r`givers, r`takers, r`alliancesWith, r`alliancesAgainst, r`messages
  {
    Ledger(r.givers, r.takers, r.alliancesWith, r.alliancesAgainst, r.messages)
  }

  function EmptyLedgers(n: nat): (ls: seq<Ledger>)
    ensures |ls| == n && forall j :: 0 <= j < n ==> ls[j] == EmptyLedger
  {
    if n == 0 then [] else [EmptyLedger] + EmptyLedgers(n - 1)
  }

  function MovesOf(names: seq<Name>, recs: map<Name, TurnRecord>): (ms: seq<Option<Move>>)
    requires forall j :: 0 <= j < |names| ==> names[j] in recs
    ensures |ms| == |names|
    ensures forall j {:trigger ms[j]} :: 0 <= j < |names| ==> ms[j] == recs[names[j]].move
  {
    if names == [] then [] else [recs[names[0]].move] + MovesOf(names[1..], recs)
  }

  /** The records filed under `names`, in order. */
  function RecordsOf(names: seq<Name>, recs: map<Name, TurnRecord>): (rs: seq<TurnRecord>)
    requires forall j :: 0 <= j < |names| ==> names[j] in recs
    ensures |rs| == |names|
    ensures forall j {:trigger rs[j]} :: 0 <= j < |names| ==> rs[j] == recs[names[j]]
  {
    if names == [] then [] else [recs[names[0]]] + RecordsOf(names[1..], recs)
  }

  /** The move on each of the records `rs`. */
  function MovesIn(rs: seq<TurnRecord>): (ms: seq<Option<Move>>)
    ensures |ms| == |rs| && forall j :: 0 <= j < |rs| ==> ms[j] == rs[j].move
  {
    seq(|rs|, j requires 0 <= j < |rs| => rs[j].move)
  }

  lemma MovesInRecords(names: seq<Name>, recs: map<Name, TurnRecord>)
    requires forall j :: 0 <= j < |names| ==> names[j] in recs
    ensures MovesIn(RecordsOf(names, recs)) == MovesOf(names, recs)
  {
  }

  function LedgersOf(names: seq<Name>, recs: map<Name, TurnRecord>): (ls: seq<Ledger>)
    reads recs.Values`givers, recs.Values`takers, recs.Values`alliancesWith, recs.Values`alliancesAgainst, recs.Values`messages
    requires forall j :: 0 <= j < |names| ==> names[j] in recs
    ensures |ls| == |names|
    ensures forall j {:trigger ls[j]} :: 0 <= j < |names| ==> ls[j] == LedgerOf(recs[names[j]])
  {
    if names == [] then [] else [LedgerOf(recs[names[0]])] + LedgersOf(names[1..], recs)
  }

  /** The turn settled from the start: giving, taking, then alliances from an
      empty list of allied names, then messages. */
  lemma SettleFromEmpty(names: seq<Name>, moves: seq<Option<Move>>, tab: Table)
    requires WellFormed(names, moves) && Fits(tab, |names|)
    ensures Settle(names, moves, tab) ==
            MessagePass(names, moves, AllianceUpTo(names, moves, TakePass(names, moves, GivePass(names, moves, tab)), [], |names|).tab)
  {
  }


  // ---------------------------------------------------------------- the referee

  class Referee {
    const players: seq<Player>
    const turn: int
    var records: map<Name, TurnRecord>
    const playerNames: seq<Name>
    const playerMap: map<Name, Player>
    var alliances: seq<Name>

    /** The names are the players' names, without repeats, and the map finds
        each player under its name. */
    predicate Valid() {
      playerNames == Names(players) && Distinct(playerNames) &&
      (forall j :: 0 <= j < |players| ==> players[j].name in playerMap && playerMap[players[j].name] == players[j])
    }

    /** Every player has a record in `recs`, filed under its name. */
    predicate FiledIn(recs: map<Name, TurnRecord>) {
      forall j :: 0 <= j < |playerNames| ==> playerNames[j] in recs
    }

    /** Every record in `recs` is filed under its own player's name and is
        consistent. */
    predicate OwnedBy(recs: map<Name, TurnRecord>) {
      forall a {:trigger a in recs} :: a in recs ==> a in playerMap && recs[a].name == a && recs[a].Consistent()
    }

    /** The map holds no name but the players'. */
    predicate Keyed() {
      forall a {:trigger a in playerMap} :: a in playerMap ==> a in playerNames
    }

    /** `recs` is a full set of records for this turn, every present move legal. */
    predicate ReadyWith(recs: map<Name, TurnRecord>) {
      Valid() && FiledIn(recs) && OwnedBy(recs) && WellFormed(playerNames, MovesOf(playerNames, recs))
    }

    /** Ready to settle: the referee's own records are a full set. */
    predicate Ready()
      reads this`records
    {
      ReadyWith(records)
    }

    /** The move on each player's record, by list position. */
    function Moves(): (ms: seq<Option<Move>>)
      reads this`records
      requires FiledIn(records)
    {
      MovesOf(playerNames, records)
    }

    /** Coins and records as one value, the state the settlement passes act on. */
    function Tab(): (t: Table)
      reads this`records, players`coins, records.Values`givers, records.Values`takers, records.Values`alliancesWith, records.Values`alliancesAgainst, records.Values`messages
      requires FiledIn(records)
      ensures Valid() ==> Fits(t, |playerNames|)
    {
      Table(Coins(players), LedgersOf(playerNames, records))
    }

    /** Player `j`'s coins and record in `recs` hold what `t` has at position
        `j`, for every `j`. */
    predicate MirrorsIn(recs: map<Name, TurnRecord>, t: Table)
      reads players`coins, recs.Values`givers, recs.Values`takers, recs.Values`alliancesWith, recs.Values`alliancesAgainst, recs.Values`messages
      requires Valid() && FiledIn(recs)
    {
      Fits(t, |playerNames|) &&
      forall j :: 0 <= j < |playerNames| ==>
        players[j].coins == t.coins[j] && LedgerOf(recs[playerNames[j]]) == t.ledgers[j]
    }

    lemma MirrorsTab(t: Table)
      requires Valid() && FiledIn(records) && MirrorsIn(records, t)
      ensures Tab() == t
    {
      assert Coins(players) == t.coins;
      assert LedgersOf(playerNames, records) == t.ledgers;
    }

    lemma TabMirrored()
      requires Valid() && FiledIn(records)
      ensures MirrorsIn(records, Tab())
    {
    }

    constructor (players: seq<Player>, turn: int)
      requires Distinct(Names(players))
      ensures Valid() && Keyed()
      ensures this.players == players && this.turn == turn && playerNames == Names(players)
      ensures records == map[] && alliances == []
      ensures forall j :: 0 <= j < |players| ==> players[j].records == old(players[j].records)
    {
      this.players := players;
      this.turn := turn;
      records := map[];
      playerNames := Names(players);
      playerMap := map name | name in Names(players) :: players[IndexOf(Names(players), name)];
      alliances := [];
      new;
      forall j | 0 <= j < |players|
        ensures players[j].name in playerMap && playerMap[players[j].name] == players[j]
      {
        IndexOfDistinct(playerNames, j);
      }
    }

    /** One player's move: the reply (`None` when asking the player's model
        failed) is read, and a rejected reply gives a record marked invalid. */
    method DoTurnForPlayer(player: Player, response: Option<string>, decode: string -> Option<Json>) returns (record: TurnRecord)
      ensures fresh(record)
      ensures record.name == player.name && record.turn == turn
      ensures record.move == Accepted(response, playerNames, decode) && record.Consistent()
      ensures LedgerOf(record) == EmptyLedger
    {
      match response
      case None =>
        record := new TurnRecord(player.name, turn, None, true);
      case Some(text) =>
        match ParseResponse(text, playerNames, decode)
        case Ok(move) =>
          record := new TurnRecord(player.name, turn, Some(move), false);
        case Err(_) =>
          record := new TurnRecord(player.name, turn, None, true);
    }

    /** The whole turn: each player's record is made from its reply, filed
        under its name and appended to the player's own records; then the
        turn is settled, starting from `coins`, into `settled`. `unknown` is
        the recipient name at which message delivery failed, if it did;
        `filed` are the records, by roster position. */
    method DoTurn(responses: seq<Option<string>>, decode: string -> Option<Json>, ghost coins: seq<int>, ghost settled: Delivery)
      returns (unknown: Option<Name>, ghost filed: seq<TurnRecord>)
      requires Valid() && Keyed() && records == map[] && alliances == []
      requires |responses| == |players| && coins == Coins(players)
      requires settled == Settle(Names(players), Replies(responses, Names(players), decode), Table(coins, EmptyLedgers(|players|)))
      modifies this`records, this`alliances, players`coins, players`records
      ensures |filed| == |players|
      ensures forall j :: 0 <= j < |players| ==> filed[j].turn == turn && players[j].records == old(players[j].records) + [filed[j]]
      ensures MovesIn(filed) == Replies(responses, playerNames, decode)
      ensures unknown == settled.unknown && Coins(players) == settled.tab.coins
      ensures forall j :: 0 <= j < |players| ==> LedgerOf(filed[j]) == settled.tab.ledgers[j]
    {
      unknown, filed := PlayTurn(responses, decode, coins);
    }

    /** `DoTurn`, with the settlement written out. */
    method PlayTurn(responses: seq<Option<string>>, decode: string -> Option<Json>, ghost coins: seq<int>)
      returns (unknown: Option<Name>, ghost filed: seq<TurnRecord>)
      requires Valid() && Keyed() && records == map[] && alliances == []
      requires |responses| == |players| && coins == Coins(players)
      modifies this`records, this`alliances, players`coins, players`records
      ensures Ready() && filed == RecordsOf(playerNames, records)
      ensures forall j :: 0 <= j < |players| ==>
                fresh(filed[j]) && filed[j].turn == turn && players[j].records == old(players[j].records) + [filed[j]]
      ensures MovesIn(filed) == Replies(responses, playerNames, decode)
      ensures Delivery(Tab(), unknown) ==
              Settle(playerNames, Replies(responses, playerNames, decode), Table(coins, EmptyLedgers(|players|)))
    {
      FileRecords(responses, decode, Histories(players));
      unknown := SettleTurn(Table(coins, EmptyLedgers(|players|)));
      filed := RecordsOf(playerNames, records);
      MovesInRecords(playerNames, records);
    }

    /** The settlement of a turn whose records are all filed, on a new
        referee (no alliances yet), from the coins and records `start`. */
    method SettleTurn(ghost start: Table) returns (unknown: Option<Name>)
      requires Ready() && Keyed() && alliances == [] && Tab() == start
      modifies this`alliances, players`coins, records.Values`givers, records.Values`takers
      modifies records.Values`alliancesWith, records.Values`alliancesAgainst, records.Values`messages
      ensures Ready()
      ensures Delivery(Tab(), unknown) == Settle(playerNames, Moves(), start)
      ensures forall j :: 0 <= j < |players| ==> players[j].records == old(players[j].records)
      ensures records == old(records)
    {
      SettleFromEmpty(playerNames, Moves(), start);
      unknown := HandleTurn();
    }

    /** The first `k` players have their records for this turn, filed under
        their names, fresh from the replies and appended to their own records;
        the others' records are as they were (`before`). */
    predicate FiledUpTo(recs: map<Name, TurnRecord>, k: nat, before: seq<seq<TurnRecord>>,
                        responses: seq<Option<string>>, decode: string -> Option<Json>)
      reads players`records, recs.Values`givers, recs.Values`takers, recs.Values`alliancesWith
      reads recs.Values`alliancesAgainst, recs.Values`messages
      requires Valid() && k <= |players| && |before| == |players| && |responses| == |players|
    {
      OwnedBy(recs) &&
      (forall j :: 0 <= j < k ==> playerNames[j] in recs) &&
      (forall j {:trigger recs[playerNames[j]]} :: 0 <= j < k ==>
         var r := recs[playerNames[j]];
         r.turn == turn && LedgerOf(r) == EmptyLedger && players[j].records == before[j] + [r] &&
         r.move == Accepted(responses[j], playerNames, decode)) &&
      (forall j :: k <= j < |players| ==> players[j].records == before[j])
    }

    /** The loop of `DoTurn` that makes and files one record per player. */
    method FileRecords(responses: seq<Option<string>>, decode: string -> Option<Json>, ghost before: seq<seq<TurnRecord>>)
      requires Valid() && records == map[] && |responses| == |players|
      requires before == Histories(players)
      modifies this`records, players`records
      ensures Ready()
      ensures forall j :: 0 <= j < |players| ==>
                var r := records[playerNames[j]];
                fresh(r) && r.turn == turn && LedgerOf(r) == EmptyLedger &&
                players[j].records == old(players[j].records) + [r]
      ensures forall j {:trigger responses[j]} :: 0 <= j < |players| ==>
                records[playerNames[j]].move == Accepted(responses[j], playerNames, decode)
      ensures Tab() == Table(Coins(players), EmptyLedgers(|players|))
      ensures Moves() == Replies(responses, playerNames, decode)
    {
      var index := 0;
      while index < |players|
        invariant 0 <= index <= |players|
        invariant FiledUpTo(records, index, before, responses, decode)
        invariant forall j {:trigger records[playerNames[j]]} :: 0 <= j < index ==> fresh(records[playerNames[j]])
      {
        FileRecord(players[index], index, before, responses, decode);
        index := index + 1;
      }
      AllFiled(responses, decode, before);
    }

    /** Once every player's record is filed, the referee is ready to settle
        from the players' coins and empty records. */
    lemma AllFiled(responses: seq<Option<string>>, decode: string -> Option<Json>, before: seq<seq<TurnRecord>>)
      requires Valid() && |before| == |players| && |responses| == |players|
      requires FiledUpTo(records, |players|, before, responses, decode)
      ensures Ready()
      ensures Tab() == Table(Coins(players), EmptyLedgers(|players|))
      ensures Moves() == Replies(responses, playerNames, decode)
    {
      ghost var moves := Moves();
      forall i | 0 <= i < |moves| && moves[i].Some?
        ensures Legal(moves[i].value, playerNames) && UniqueKeys(moves[i].value.messages)
      {
        assert moves[i] == records[playerNames[i]].move;
      }
      MirrorsTab(Table(Coins(players), EmptyLedgers(|players|)));
    }

    /** Player `index`'s turn record made from its reply, filed under its
        name and appended to the player's own records. */
    method FileRecord(player: Player, index: nat, ghost before: seq<seq<TurnRecord>>,
                      responses: seq<Option<string>>, decode: string -> Option<Json>)
      requires Valid() && index < |players| && players[index] == player
      requires |before| == |players| && |responses| == |players|
      requires FiledUpTo(records, index, before, responses, decode)
      modifies this`records, player`records
      ensures FiledUpTo(records, index + 1, before, responses, decode)
      ensures forall j {:trigger records[playerNames[j]]} :: 0 <= j < index ==>
                records[playerNames[j]] == old(records)[playerNames[j]]
      ensures fresh(records[playerNames[index]])
    {
      var record := DoTurnForPlayer(player, responses[index], decode);
      records := records[player.name := record];
      player.records := player.records + [record];
      forall j | 0 <= j < |players| && j != index
        ensures playerNames[j] != playerNames[index]
      {
        DistinctAt(playerNames, j, index);
      }
    }

    /** The four settlement passes in order. `alliances` starts out empty on
        a new referee, so on a new referee this is `Settle` of the state
        before the call. */
    method HandleTurn() returns (unknown: Option<Name>)
      requires Ready() && Keyed()
      modifies this`alliances, players`coins, records.Values`givers, records.Values`takers
      modifies records.Values`alliancesWith, records.Values`alliancesAgainst, records.Values`messages
      ensures var s := AllianceUpTo(playerNames, Moves(), TakePass(playerNames, Moves(), GivePass(playerNames, Moves(), old(Tab()))),
                                    old(alliances), |playerNames|);
              Delivery(Tab(), unknown) == MessagePass(playerNames, Moves(), s.tab) && alliances == s.allied
    {
      HandleGiving();
      HandleTaking();
      HandleAlliances();
      unknown := HandleMessages();
    }

    /** Each player pays a coin; a valid move passes it to the give target,
        which records the player as a giver. */
    method HandleGiving()
      requires Ready()
      modifies players`coins, records.Values`givers
      ensures Tab() == GivePass(playerNames, old(Moves()), old(Tab()))
    {
      TabMirrored();
      GiveAll(records, Moves(), Tab());
      MirrorsTab(GivePass(playerNames, old(Moves()), old(Tab())));
    }

    /** The giving pass's loop over the players, on the records `recs`. */
    method GiveAll(recs: map<Name, TurnRecord>, ghost moves: seq<Option<Move>>, ghost t: Table)
      requires ReadyWith(recs) && moves == MovesOf(playerNames, recs) && MirrorsIn(recs, t)
      modifies players`coins, recs.Values`givers
      ensures MirrorsIn(recs, GivePass(playerNames, moves, t))
    {
      var i := 0;
      while i < |players|
        invariant 0 <= i <= |players|
        invariant MirrorsIn(recs, GiveUpTo(playerNames, moves, t, i))
      {
        GiveTurn(i, recs, moves, GiveUpTo(playerNames, moves, t, i));
        GiveUpToUnfold(playerNames, moves, t, i + 1);
        i := i + 1;
      }
    }

    /** The giving pass's work for player `i`, in the source's order of updates. */
    method GiveTurn(i: nat, recs: map<Name, TurnRecord>, ghost moves: seq<Option<Move>>, ghost t: Table)
      requires ReadyWith(recs) && moves == MovesOf(playerNames, recs) && i < |players| && MirrorsIn(recs, t)
      modifies players`coins, recs.Values`givers
      ensures MirrorsIn(recs, GiveStep(playerNames, moves, t, i))
    {
      var player := players[i];
      var record := recs[player.name];
      assert record.move == moves[i];
      ghost var u := t;
      if !record.isInvalidMove {
        var who := record.move.value.give;
        ghost var k := IndexOf(playerNames, who);
        AddCoins(playerMap[who], k, 1, recs, t);
        ghost var t1 := Credit(t, k, 1);
        AppendGiver(recs[who], k, player.name, recs, t1);
        u := Relist(t1, k, t1.ledgers[k].(givers := t1.ledgers[k].givers + [player.name]));
      }
      AddCoins(player, i, -1, recs, u);
    }

    /** Each valid move takes a coin from its take target, which records the
        player as a taker; the player gains that coin. */
    method HandleTaking()
      requires Ready()
      modifies players`coins, records.Values`takers
      ensures Tab() == TakePass(playerNames, Moves(), old(Tab()))
    {
      TabMirrored();
      TakeAll(records, Moves(), Tab());
      MirrorsTab(TakePass(playerNames, Moves(), old(Tab())));
    }

    /** The taking pass's loop over the players, on the records `recs`. */
    method TakeAll(recs: map<Name, TurnRecord>, ghost moves: seq<Option<Move>>, ghost t: Table)
      requires ReadyWith(recs) && moves == MovesOf(playerNames, recs) && MirrorsIn(recs, t)
      modifies players`coins, recs.Values`takers
      ensures MirrorsIn(recs, TakePass(playerNames, moves, t))
    {
      var i := 0;
      while i < |players|
        invariant 0 <= i <= |players|
        invariant MirrorsIn(recs, TakeUpTo(playerNames, moves, t, i))
      {
        TakeTurn(i, recs, moves, TakeUpTo(playerNames, moves, t, i));
        TakeUpToUnfold(playerNames, moves, t, i + 1);
        i := i + 1;
      }
    }

    /** The taking pass's work for player `i`, in the source's order of updates. */
    method TakeTurn(i: nat, recs: map<Name, TurnRecord>, ghost moves: seq<Option<Move>>, ghost t: Table)
      requires ReadyWith(recs) && moves == MovesOf(playerNames, recs) && i < |players| && MirrorsIn(recs, t)
      modifies players`coins, recs.Values`takers
      ensures MirrorsIn(recs, TakeStep(playerNames, moves, t, i))
    {
      var player := players[i];
      var record := recs[player.name];
      assert record.move == moves[i];
      if !record.isInvalidMove {
        var who := record.move.value.take;
        ghost var k := IndexOf(playerNames, who);
        AddCoins(playerMap[who], k, -1, recs, t);
        ghost var t1 := Credit(t, k, -1);
        AppendTaker(recs[who], k, player.name, recs, t1);
        ghost var t2 := Relist(t1, k, t1.ledgers[k].(takers := t1.ledgers[k].takers + [player.name]));
        AddCoins(player, i, 1, recs, t2);
      }
    }

    /** Each player whose valid move gives to a player whose valid move gives
        back, neither of them allied yet, has the pair investigated. The list
        `alliances` ends as the pass's list of allied names. */
    method HandleAlliances()
      requires Ready()
      modifies this`alliances, players`coins, records.Values`alliancesWith, records.Values`alliancesAgainst
      ensures var s := AllianceUpTo(playerNames, Moves(), old(Tab()), old(alliances), |playerNames|);
              Tab() == s.tab && alliances == s.allied
    {
      TabMirrored();
      AllianceAll(records, Moves(), Tab());
      MirrorsTab(AllianceUpTo(playerNames, Moves(), old(Tab()), old(alliances), |playerNames|).tab);
    }

    /** The alliance pass's loop over the players, on the records `recs`. */
    method AllianceAll(recs: map<Name, TurnRecord>, ghost moves: seq<Option<Move>>, ghost t: Table)
      requires ReadyWith(recs) && moves == MovesOf(playerNames, recs) && MirrorsIn(recs, t)
      modifies this`alliances, players`coins, recs.Values`alliancesWith, recs.Values`alliancesAgainst
      ensures var s := AllianceUpTo(playerNames, moves, t, old(alliances), |playerNames|);
              MirrorsIn(recs, s.tab) && alliances == s.allied
    {
      ghost var allied0 := alliances;
      var i := 0;
      while i < |players|
        invariant 0 <= i <= |players|
        invariant var s := AllianceUpTo(playerNames, moves, t, allied0, i);
                  MirrorsIn(recs, s.tab) && alliances == s.allied
      {
        AllianceNext(i, recs, moves, t, allied0);
        i := i + 1;
      }
    }

    /** The alliance pass after `i` players: player `i`'s check. */
    method AllianceNext(i: nat, recs: map<Name, TurnRecord>, ghost moves: seq<Option<Move>>, ghost t: Table, ghost allied0: seq<Name>)
      requires ReadyWith(recs) && moves == MovesOf(playerNames, recs) && i < |players| && Fits(t, |playerNames|)
      requires var s := AllianceUpTo(playerNames, moves, t, allied0, i);
               MirrorsIn(recs, s.tab) && alliances == s.allied
      modifies this`alliances, players`coins, recs.Values`alliancesWith, recs.Values`alliancesAgainst
      ensures var s := AllianceUpTo(playerNames, moves, t, allied0, i + 1);
              MirrorsIn(recs, s.tab) && alliances == s.allied
    {
      AllianceUpToUnfold(playerNames, moves, t, allied0, i + 1);
      AllianceTurn(i, recs, moves, AllianceUpTo(playerNames, moves, t, allied0, i));
    }

    /** The alliance pass's check for player `i`. */
    method AllianceTurn(i: nat, recs: map<Name, TurnRecord>, ghost moves: seq<Option<Move>>, ghost s: AllianceScan)
      requires ReadyWith(recs) && moves == MovesOf(playerNames, recs) && i < |players|
      requires MirrorsIn(recs, s.tab) && alliances == s.allied
      modifies this`alliances, players`coins, recs.Values`alliancesWith, recs.Values`alliancesAgainst
      ensures var r := AllianceStep(playerNames, moves, s, i);
              MirrorsIn(recs, r.tab) && alliances == r.allied
    {
      ConfirmsByRecords(recs, moves, s.allied, i);
      ghost var a := AllianceStepCases(playerNames, moves, s, i);
      var player := players[i];
      var name1 := player.name;
      var record1 := recs[name1];
      if !record1.isInvalidMove {
        var name2 := record1.move.value.give;
        assert record1.move == moves[i];
        Filed(recs, name2);
        var record2 := recs[name2];
        if !record2.isInvalidMove && record2.move.value.give == name1 &&
           name1 !in alliances && name2 !in alliances {
          InvestigateAlliance(name1, record1, name2, record2, recs, s.tab);
          IndexOfDistinct(playerNames, i);
          assert s.allied + [name1] + [name2] == s.allied + [name1, name2];
        }
      }
    }

    /** The check for player `i` confirms an alliance exactly when the
        referee's tests on the records succeed and both took from the same
        player. */
    lemma ConfirmsByRecords(recs: map<Name, TurnRecord>, moves: seq<Option<Move>>, allied: seq<Name>, i: nat)
      requires ReadyWith(recs) && moves == MovesOf(playerNames, recs) && i < |playerNames|
      ensures var r1 := recs[playerNames[i]];
              Confirms(playerNames, moves, allied, i) <==>
                !r1.isInvalidMove && r1.move.value.give in recs &&
                var name2 := r1.move.value.give;
                !recs[name2].isInvalidMove && recs[name2].move.value.give == playerNames[i] &&
                playerNames[i] !in allied && name2 !in allied &&
                r1.move.value.take == recs[name2].move.value.take
    {
      var r1 := recs[playerNames[i]];
      assert r1.move == moves[i];
      if !r1.isInvalidMove {
        var name2 := r1.move.value.give;
        Filed(recs, name2);
        assert moves[IndexOf(playerNames, name2)] == recs[name2].move;
      }
    }

    /** A player's name is a key of a full set of records. */
    lemma Filed(recs: map<Name, TurnRecord>, who: Name)
      requires FiledIn(recs) && who in playerNames
      ensures who in recs
    {
      assert playerNames[IndexOf(playerNames, who)] in recs;
    }

    /** Two players who gave to each other become allies when they also took
        from the same player. */
    method InvestigateAlliance(name1: Name, record1: TurnRecord, name2: Name, record2: TurnRecord,
                               recs: map<Name, TurnRecord>, ghost t: Table)
      requires Valid() && FiledIn(recs) && OwnedBy(recs) && name1 in playerNames && name2 in playerNames
      requires record1 == recs[name1] && record2 == recs[name2]
      requires record1.move.Some? && record2.move.Some? && record1.move.value.take in playerNames
      requires MirrorsIn(recs, t)
      modifies this`alliances, players`coins, recs.Values`alliancesWith, recs.Values`alliancesAgainst
      ensures record1.move.value.take == record2.move.value.take ==>
                alliances == old(alliances) + [name1] + [name2] &&
                MirrorsIn(recs, Settlement.ProcessAlliance(playerNames, t, IndexOf(playerNames, name1),
                                                          IndexOf(playerNames, name2), IndexOf(playerNames, record1.move.value.take)))
      ensures record1.move.value.take != record2.move.value.take ==>
                alliances == old(alliances) && MirrorsIn(recs, t)
    {
      var take1 := record1.move.value.take;
      var take2 := record2.move.value.take;
      if take1 == take2 {
        alliances := alliances + [name1];
        alliances := alliances + [name2];
        ProcessAlliance(name1, name2, take1, recs, t);
      }
    }

    /** Each ally gains a coin and records the other; the victim loses two
        coins and records both allies. */
    method ProcessAlliance(name1: Name, name2: Name, victim: Name, recs: map<Name, TurnRecord>, ghost t: Table)
      requires Valid() && FiledIn(recs) && OwnedBy(recs)
      requires name1 in playerNames && name2 in playerNames && victim in playerNames && MirrorsIn(recs, t)
      modifies players`coins, recs.Values`alliancesWith, recs.Values`alliancesAgainst
      ensures MirrorsIn(recs, Settlement.ProcessAlliance(playerNames, t, IndexOf(playerNames, name1),
                                                        IndexOf(playerNames, name2), IndexOf(playerNames, victim)))
    {
      ghost var a, b, v := IndexOf(playerNames, name1), IndexOf(playerNames, name2), IndexOf(playerNames, victim);
      AddCoins(playerMap[name1], a, 1, recs, t);
      AddCoins(playerMap[name2], b, 1, recs, Credit(t, a, 1));
      AddCoins(playerMap[victim], v, -2, recs, Credit(Credit(t, a, 1), b, 1));
      ghost var t3 := Credit(Credit(Credit(t, a, 1), b, 1), v, -2);
      AppendAlly(recs[name1], a, name2, recs, t3);
      ghost var t4 := Relist(t3, a, t3.ledgers[a].(alliancesWith := t3.ledgers[a].alliancesWith + [name2]));
      AppendAlly(recs[name2], b, name1, recs, t4);
      ghost var t5 := Relist(t4, b, t4.ledgers[b].(alliancesWith := t4.ledgers[b].alliancesWith + [name1]));
      ExtendAgainst(recs[victim], v, name1, name2, recs, t5);
      ProcessAllianceSplit(playerNames, t, a, b, v);
    }

    /** Each valid move's messages are filed, in order, in the recipients'
        records under the sender's name. A recipient that is not a player
        stops the turn there (the source raises `KeyError`); it is returned in
        `unknown`, with what was delivered before it kept. */
    method HandleMessages() returns (unknown: Option<Name>)
      requires Ready() && Keyed()
      modifies records.Values`messages
      ensures Delivery(Tab(), unknown) == MessagePass(playerNames, Moves(), old(Tab()))
    {
      TabMirrored();
      unknown := MessageAll(records, Moves(), Tab());
      MirrorsTab(MessagePass(playerNames, Moves(), old(Tab())).tab);
    }

    /** The message pass's loop over the players, on the records `recs`. */
    method MessageAll(recs: map<Name, TurnRecord>, ghost moves: seq<Option<Move>>, ghost t: Table)
      returns (unknown: Option<Name>)
      requires ReadyWith(recs) && Keyed() && moves == MovesOf(playerNames, recs) && MirrorsIn(recs, t)
      modifies recs.Values`messages
      ensures var d := MessagePass(playerNames, moves, t);
              MirrorsIn(recs, d.tab) && unknown == d.unknown
    {
      unknown := None;
      var i := 0;
      while i < |players| && unknown == None
        invariant 0 <= i <= |players|
        invariant var d := MessageUpTo(playerNames, moves, t, i);
                  MirrorsIn(recs, d.tab) && unknown == d.unknown
        invariant unknown.Some? ==> MessagePass(playerNames, moves, t) == MessageUpTo(playerNames, moves, t, i)
      {
        unknown := MessageNext(i, recs, moves, t);
        i := i + 1;
      }
    }

    /** The message pass after `i` players without a failure: player `i`'s
        turn, which ends the pass if it fails. */
    method MessageNext(i: nat, recs: map<Name, TurnRecord>, ghost moves: seq<Option<Move>>, ghost t: Table)
      returns (unknown: Option<Name>)
      requires ReadyWith(recs) && Keyed() && moves == MovesOf(playerNames, recs) && i < |players| && Fits(t, |playerNames|)
      requires var d := MessageUpTo(playerNames, moves, t, i);
               MirrorsIn(recs, d.tab) && d.unknown == None
      modifies recs.Values`messages
      ensures var d := MessageUpTo(playerNames, moves, t, i + 1);
              MirrorsIn(recs, d.tab) && unknown == d.unknown
      ensures unknown.Some? ==> MessageUpTo(playerNames, moves, t, |playerNames|) == MessageUpTo(playerNames, moves, t, i + 1)
    {
      MessageUpToNext(playerNames, moves, t, i);
      unknown := MessageTurn(i, recs, moves, MessageUpTo(playerNames, moves, t, i).tab);
    }

    /** The message pass's work for player `i`: its messages in order, up to
        the first recipient that is not a player. */
    method MessageTurn(i: nat, recs: map<Name, TurnRecord>, ghost moves: seq<Option<Move>>, ghost t: Table)
      returns (unknown: Option<Name>)
      requires ReadyWith(recs) && Keyed() && moves == MovesOf(playerNames, recs) && i < |players| && MirrorsIn(recs, t)
      modifies recs.Values`messages
      ensures var d := MessageStep(playerNames, moves, Delivery(t, None), i);
              MirrorsIn(recs, d.tab) && unknown == d.unknown
    {
      var player := players[i];
      var record := recs[player.name];
      assert record.move == moves[i];
      if record.isInvalidMove {
        return None;
      }
      unknown := Deliver(i, recs, record.move.value.messages, t);
    }

    /** Player `i`'s messages filed in order, up to the first recipient that
        has no record. */
    method Deliver(i: nat, recs: map<Name, TurnRecord>, messages: Dict, ghost t: Table) returns (unknown: Option<Name>)
      requires Valid() && Keyed() && FiledIn(recs) && OwnedBy(recs) && i < |players| && MirrorsIn(recs, t)
      modifies recs.Values`messages
      ensures var d := SendUpTo(playerNames, t, i, messages, |messages|);
              MirrorsIn(recs, d.tab) && unknown == d.unknown
    {
      for e := 0 to |messages|
        invariant Sending(i, recs, messages, e, t)
      {
        var stray := SendOne(i, recs, messages, e, t);
        if stray {
          return Some(messages[e].0);
        }
      }
      unknown := None;
    }

    /** Player `i`'s delivery has passed the first `e` entries of `messages`
        without failing, and the records mirror where it stands. */
    predicate Sending(i: nat, recs: map<Name, TurnRecord>, messages: Dict, e: nat, t: Table)
      reads players`coins, recs.Values`givers, recs.Values`takers, recs.Values`alliancesWith, recs.Values`alliancesAgainst, recs.Values`messages
    {
      Valid() && Keyed() && FiledIn(recs) && OwnedBy(recs) && i < |players| && e <= |messages| &&
      Fits(t, |playerNames|) && SendUpTo(playerNames, t, i, messages, e).unknown == None &&
      MirrorsIn(recs, SendUpTo(playerNames, t, i, messages, e).tab)
    }

    /** Entry `e` of player `i`'s messages: filed on the recipient's record,
        or, when the recipient has no record, `stray` and nothing changes. */
    method SendOne(i: nat, recs: map<Name, TurnRecord>, messages: Dict, e: nat, ghost t: Table) returns (stray: bool)
      requires Sending(i, recs, messages, e, t)
      modifies recs.Values`messages
      requires e < |messages|
      ensures stray ==> var d := SendUpTo(playerNames, t, i, messages, |messages|);
                        MirrorsIn(recs, d.tab) && d.unknown == Some(messages[e].0)
      ensures !stray ==> Sending(i, recs, messages, e + 1, t)
    {
      var (recipient, message) := messages[e];
      SendUpToUnknown(playerNames, t, i, messages, e + 1);
      SendUpToTab(playerNames, t, i, messages, e + 1);
      if recipient in playerNames {
        Filed(recs, recipient);
      }
      if recipient !in recs {
        SendUpToStuck(playerNames, t, i, messages, e + 1, |messages|);
        return true;
      }
      FileMessage(recs[recipient], IndexOf(playerNames, recipient), players[i].name, message, recs,
                  SendUpTo(playerNames, t, i, messages, e).tab);
      stray := false;
    }

    // The single updates the passes are made of. Each changes one field of
    // one object and is stated as the matching change to a table mirrored
    // by the players and the records.

    /** `player.coins += delta` on the player at position `k`. */
    method AddCoins(player: Player, ghost k: nat, delta: int, ghost recs: map<Name, TurnRecord>, ghost t: Table)
      requires Valid() && FiledIn(recs) && k < |players| && players[k] == player && MirrorsIn(recs, t)
      modifies player`coins
      ensures MirrorsIn(recs, Credit(t, k, delta))
    {
      player.coins := player.coins + delta;
      forall j | 0 <= j < |players| && j != k
        ensures players[j] != player
      {
        DistinctAt(playerNames, j, k);
      }
    }

    /** `records[who].givers.append(giver)`, `who` being player `k`. */
    method AppendGiver(record: TurnRecord, ghost k: nat, giver: Name, ghost recs: map<Name, TurnRecord>, ghost t: Table)
      requires Valid() && FiledIn(recs) && OwnedBy(recs) && k < |players| && recs[playerNames[k]] == record && MirrorsIn(recs, t)
      modifies record`givers
      ensures MirrorsIn(recs, Relist(t, k, t.ledgers[k].(givers := t.ledgers[k].givers + [giver])))
    {
      record.givers := record.givers + [giver];
      RecordsApart(k, recs);
    }

    /** `records[who].takers.append(taker)`, `who` being player `k`. */
    method AppendTaker(record: TurnRecord, ghost k: nat, taker: Name, ghost recs: map<Name, TurnRecord>, ghost t: Table)
      requires Valid() && FiledIn(recs) && OwnedBy(recs) && k < |players| && recs[playerNames[k]] == record && MirrorsIn(recs, t)
      modifies record`takers
      ensures MirrorsIn(recs, Relist(t, k, t.ledgers[k].(takers := t.ledgers[k].takers + [taker])))
    {
      record.takers := record.takers + [taker];
      RecordsApart(k, recs);
    }

    /** `records[who].alliances_with.append(ally)`, `who` being player `k`. */
    method AppendAlly(record: TurnRecord, ghost k: nat, ally: Name, ghost recs: map<Name, TurnRecord>, ghost t: Table)
      requires Valid() && FiledIn(recs) && OwnedBy(recs) && k < |players| && recs[playerNames[k]] == record && MirrorsIn(recs, t)
      modifies record`alliancesWith
      ensures MirrorsIn(recs, Relist(t, k, t.ledgers[k].(alliancesWith := t.ledgers[k].alliancesWith + [ally])))
    {
      record.alliancesWith := record.alliancesWith + [ally];
      RecordsApart(k, recs);
    }

    /** `records[who].alliances_against.extend([first, second])`, `who` being player `k`. */
    method ExtendAgainst(record: TurnRecord, ghost k: nat, first: Name, second: Name, ghost recs: map<Name, TurnRecord>, ghost t: Table)
      requires Valid() && FiledIn(recs) && OwnedBy(recs) && k < |players| && recs[playerNames[k]] == record && MirrorsIn(recs, t)
      modifies record`alliancesAgainst
      ensures MirrorsIn(recs, Relist(t, k, t.ledgers[k].(alliancesAgainst := t.ledgers[k].alliancesAgainst + [first, second])))
    {
      record.alliancesAgainst := record.alliancesAgainst + [first, second];
      RecordsApart(k, recs);
    }

    /** `records[who].messages[sender] = text`, `who` being player `k`. */
    method FileMessage(record: TurnRecord, ghost k: nat, sender: Name, text: string, ghost recs: map<Name, TurnRecord>, ghost t: Table)
      requires Valid() && FiledIn(recs) && OwnedBy(recs) && k < |players| && recs[playerNames[k]] == record && MirrorsIn(recs, t)
      modifies record`messages
      ensures MirrorsIn(recs, Receive(t, k, sender, text))
    {
      record.messages := Put(record.messages, sender, text);
      RecordsApart(k, recs);
    }

    /** Player `k`'s record is no other player's record. */
    lemma RecordsApart(k: nat, recs: map<Name, TurnRecord>)
      requires Valid() && FiledIn(recs) && OwnedBy(recs) && k < |playerNames|
      ensures forall j :: 0 <= j < |playerNames| && j != k ==> recs[playerNames[j]] != recs[playerNames[k]]
    {
      forall j | 0 <= j < |playerNames| && j != k
        ensures recs[playerNames[j]] != recs[playerNames[k]]
      {
        assert recs[playerNames[j]].name == playerNames[j];
        DistinctAt(playerNames, j, k);
      }
    }
  }
}
