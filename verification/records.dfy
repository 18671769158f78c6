/** The turn record: one per player per turn. The referee creates it with the
    player's move (or marks the move invalid) and then fills its lists and its
    message dictionary in place while it settles the turn. Its recap is the text
    the player is shown about that turn. */
module Records {
  import opened Wrappers
  import opened Texts
  import opened Moves

  class TurnRecord {
    const name: string
    const turn: int
    const isInvalidMove: bool
    const move: Option<Move>
    var givers: seq<string>
    var takers: seq<string>
    var alliancesWith: seq<string>
    var alliancesAgainst: seq<string>
    var messages: Dict

    /** A record whose move is present exactly when it is not marked invalid:
        every record the referee makes is of this kind. */
    predicate Consistent() {
      move.Some? <==> !isInvalidMove
    }

    constructor (name: string, turn: int, move: Option<Move>, isInvalidMove: bool)
      ensures this.name == name && this.turn == turn
      ensures this.move == move && this.isInvalidMove == isInvalidMove
      ensures givers == [] && takers == [] && alliancesWith == [] && alliancesAgainst == []
      ensures messages == []
    {
      this.name := name;
      this.turn := turn;
      this.isInvalidMove := isInvalidMove;
      givers := [];
      takers := [];
      alliancesWith := [];
      alliancesAgainst := [];
      messages := [];
      this.move := move;
    }

    /** The recap text: `RecapText` over the record's fields. */
    function Recap(): string
      reads this
      requires Consistent()
    {
      RecapText(turn, isInvalidMove, move, givers, takers, alliancesWith, alliancesAgainst, messages)
    }
  }

  /** The recap, built piece by piece in the order the source appends: the
      header, the player's actions, then the results of the turn. */
  function RecapText(turn: int, isInvalidMove: bool, move: Option<Move>, givers: seq<string>,
                     takers: seq<string>, alliancesWith: seq<string>, alliancesAgainst: seq<string>,
                     messages: Dict): (r: string)
    requires !isInvalidMove ==> move.Some?
    ensures RecapHeader(turn) <= r
    ensures isInvalidMove ==> r == RecapHeader(turn) + InvalidNotice +
                                   ResultsText(givers, takers, alliancesWith, alliancesAgainst, messages)
    ensures !isInvalidMove ==> r == RecapHeader(turn) + ActionsText(false, move) +
                                    ResultsText(givers, takers, alliancesWith, alliancesAgainst, messages)
  {
    var header := RecapHeader(turn);
    var actions := ActionsText(isInvalidMove, move);
    var results := ResultsText(givers, takers, alliancesWith, alliancesAgainst, messages);
    PrefixOfConcat(header, actions, results);
    header + actions + results
  }

  lemma PrefixOfConcat(a: string, b: string, c: string)
    ensures a <= a + b + c
  {
    assert (a + b + c)[..|a|] == a;
  }

  function RecapHeader(turn: int): string {
    "Recap of Turn " + IntToString(turn) + "\n\nYour actions:\n"
  }

  const InvalidNotice: string := "You provided invalid JSON, so your move was not processed"

  /** What the player did: a fixed notice for an invalid move, otherwise the
      strategy line, the give line, the take line and the heading of the sent
      messages, in that order, followed by one line per sent message. */
  function ActionsText(isInvalidMove: bool, move: Option<Move>): (r: string)
    requires !isInvalidMove ==> move.Some?
    ensures isInvalidMove ==> r == InvalidNotice
    ensures !isInvalidMove ==>
      var m := move.value;
      var lines := StrategyLine(m.strategy) + GaveLine(m.give) + TookLine(m.take) + SentHeading;
      var sent := MessageLines("Message to ", m.messages);
      |r| == |lines| + |sent| && lines <= r && r[|lines|..] == sent
  {
    if isInvalidMove then InvalidNotice
    else
      var m := move.value;
      var lines := StrategyLine(m.strategy) + GaveLine(m.give) + TookLine(m.take) + SentHeading;
      var sent := MessageLines("Message to ", m.messages);
      assert (lines + sent)[..|lines|] == lines && (lines + sent)[|lines|..] == sent;
      lines + sent
  }

  function StrategyLine(strategy: string): string {
    "Your secret strategy: " + strategy + "\n"
  }

  function GaveLine(give: string): string {
    "You gave a coin to " + give + "\n"
  }

  function TookLine(take: string): string {
    "You took a coin from " + take + "\n"
  }

  const SentHeading: string := "You sent these private messages:\n"

  const ResultsHeading: string := "\nResults of the turn:\n"
  const ReceivedHeading: string := "You received these private messages:\n"

  /** What happened to the player, section by section in this order: the
      heading, who gave, who took, the alliances, the heading of the received
      messages and one "Message from" line per received message. The block
      always ends with a blank line. */
  function ResultsText(givers: seq<string>, takers: seq<string>, alliancesWith: seq<string>,
                       alliancesAgainst: seq<string>, messages: Dict): (r: string)
    ensures r == ResultsHeading + GiversLine(givers) + TakersLine(takers) +
                 AllianceLines(alliancesWith, alliancesAgainst) + ReceivedHeading +
                 MessageLines("Message from ", messages) + "\n"
  {
    ResultsHeading + GiversLine(givers) + TakersLine(takers) + AllianceLines(alliancesWith, alliancesAgainst) +
    ReceivedHeading + MessageLines("Message from ", messages) + "\n"
  }

  /** Every name of a line listing names after a heading can be read back
      from the text: the `i`-th sits after the heading, at its offset in the
      joined list. */
  lemma NamesLineAt(heading: string, names: seq<string>, sep: string, end: string, i: nat)
    requires i < |names|
    ensures var line := heading + Join(names, sep) + end;
            var o := |heading| + JoinOffset(names, sep, i);
            o + |names[i]| <= |line| && line[o..o + |names[i]|] == names[i]
  {
    JoinAt(names, sep, i);
    MiddleSlice(heading, Join(names, sep), end, JoinOffset(names, sep, i), names[i]);
  }

  /** A piece found in the middle part of `a + b + c` is found in the whole,
      shifted by `|a|`. */
  lemma MiddleSlice(a: string, b: string, c: string, o: nat, x: string)
    requires o + |x| <= |b| && b[o..o + |x|] == x
    ensures |a| + o + |x| <= |a + b + c| && (a + b + c)[|a| + o..|a| + o + |x|] == x
  {
    assert (a + b + c)[|a|..|a| + |b|] == b;
  }

  const GiversHeading: string := "These players gave you a coin: "
  const TakersHeading: string := "These players took a coin from you: "
  const AlliedWithHeading: string := "These players formed an alliance with you: "
  const AlliedAgainstHeading: string := "These players formed an alliance against you: "
  const NoGiversLine: string := "No players gave you coins\n"
  const NoTakersLine: string := "No players took coins from you\n"

  function GiversLine(givers: seq<string>): (r: string)
    ensures r == NoGiversLine <==> givers == []
    ensures givers != [] ==> r == GiversHeading + Join(givers, ", ") + "\n"
  {
    if givers != [] then
      var r := "These players gave you a coin: " + Join(givers, ", ") + "\n";
      assert r[0] != NoGiversLine[0];
      r
    else NoGiversLine
  }

  function TakersLine(takers: seq<string>): (r: string)
    ensures r == NoTakersLine <==> takers == []
    ensures takers != [] ==> r == TakersHeading + Join(takers, ", ") + "\n"
  {
    if takers != [] then
      var r := "These players took a coin from you: " + Join(takers, ", ") + "\n";
      assert r[0] != NoTakersLine[0];
      r
    else NoTakersLine
  }

  /** Each giver can be read back from the givers line. */
  lemma GiversLineAt(givers: seq<string>, i: nat)
    requires i < |givers|
    ensures var o := |GiversHeading| + JoinOffset(givers, ", ", i);
            o + |givers[i]| <= |GiversLine(givers)| && GiversLine(givers)[o..o + |givers[i]|] == givers[i]
  {
    NamesLineAt(GiversHeading, givers, ", ", "\n", i);
  }

  /** Each taker can be read back from the takers line. */
  lemma TakersLineAt(takers: seq<string>, i: nat)
    requires i < |takers|
    ensures var o := |TakersHeading| + JoinOffset(takers, ", ", i);
            o + |takers[i]| <= |TakersLine(takers)| && TakersLine(takers)[o..o + |takers[i]|] == takers[i]
  {
    NamesLineAt(TakersHeading, takers, ", ", "\n", i);
  }

  /** The alliance lines: the "with you" line comes first and is there exactly
      when `alliancesWith` is not empty; the "against you" line follows it and
      is there exactly when `alliancesAgainst` is not empty. */
  function AllianceLines(alliancesWith: seq<string>, alliancesAgainst: seq<string>): (r: string)
    ensures alliancesWith != [] <==> AlliedWithHeading <= r
    ensures alliancesWith != [] ==> AlliedWithHeading + Join(alliancesWith, ", ") + "\n" <= r
    ensures var w := AlliedWithHeading + Join(alliancesWith, ", ") + "\n";
            var rest := if alliancesWith != [] then r[|w|..] else r;
            (alliancesAgainst != [] <==> AlliedAgainstHeading <= rest) &&
            (alliancesAgainst != [] ==> rest == AlliedAgainstHeading + Join(alliancesAgainst, ", ") + "\n") &&
            (alliancesAgainst == [] ==> rest == "")
  {
    var w := if alliancesWith != [] then AlliedWithHeading + Join(alliancesWith, ", ") + "\n" else "";
    var a := if alliancesAgainst != [] then AlliedAgainstHeading + Join(alliancesAgainst, ", ") + "\n" else "";
    assert (w + a)[..|w|] == w && (w + a)[|w|..] == a;
    assert a != [] ==> a[33] != AlliedWithHeading[33];
    w + a
  }

  /** One line per dictionary entry, in insertion order: the prefix, the key,
      a colon and the value. */
  function MessageLines(prefix: string, d: Dict): string {
    if d == [] then ""
    else prefix + d[0].0 + ": " + d[0].1 + "\n" + MessageLines(prefix, d[1..])
  }

  /** When no name or message holds a line break, the message block has exactly
      one line per entry. */
  lemma {:induction false} MessageLinesCount(prefix: string, d: Dict)
    requires CountChar(prefix, '\n') == 0
    requires forall i :: 0 <= i < |d| ==> CountChar(d[i].0, '\n') == 0 && CountChar(d[i].1, '\n') == 0
    ensures CountChar(MessageLines(prefix, d), '\n') == |d|
  {
    if d != [] {
      MessageLinesCount(prefix, d[1..]);
      var line := prefix + d[0].0 + ": " + d[0].1;
      CountCharAppend(prefix, d[0].0, '\n');
      CountCharAppend(prefix + d[0].0, ": ", '\n');
      CountCharAppend(prefix + d[0].0 + ": ", d[0].1, '\n');
      CountCharAppend(line, "\n", '\n');
      CountCharAppend(line + "\n", MessageLines(prefix, d[1..]), '\n');
      assert MessageLines(prefix, d) == line + "\n" + MessageLines(prefix, d[1..]);
    }
  }
}
