/** A player of the game: a name, the language model behind it (only its name
    and temperature appear in the model, as text), a coin balance and the state
    the arena and the referee update in place. */
module Players {
  import opened Texts
  import opened Records

  const StartingCoins: int := 12

  class Player {
    const name: string
    const modelName: string
    /** The model temperature as the report prints it. */
    const temperature: string
    var coins: int
    var priorCoins: int
    var otherNames: seq<string>
    var records: seq<TurnRecord>
    var isDead: bool
    var isWinner: bool

    constructor (name: string, modelName: string, temperature: string)
      ensures this.name == name && this.modelName == modelName && this.temperature == temperature
      ensures coins == StartingCoins && priorCoins == StartingCoins
      ensures otherNames == [] && records == []
      ensures !isDead && !isWinner
    {
      this.name := name;
      this.modelName := modelName;
      this.temperature := temperature;
      coins := StartingCoins;
      priorCoins := StartingCoins;
      otherNames := [];
      records := [];
      isDead := false;
      isWinner := false;
    }

    /** Marks the player dead and changes nothing else. */
    method Kill()
      modifies this`isDead
      ensures isDead
      ensures coins == old(coins) && priorCoins == old(priorCoins)
      ensures otherNames == old(otherNames) && records == old(records)
      ensures isWinner == old(isWinner)
    {
      isDead := true;
    }

    /** The report: a header naming the player, its model and temperature,
        then each turn's recap in order, its line breaks turned into `<br/>`
        and followed by `<br/>`. */
    method Report() returns (r: string)
      requires forall i :: 0 <= i < |records| ==> records[i].Consistent()
      ensures r == ReportHeader(name, modelName, temperature) + RecapsText(Recaps(records))
      ensures NoNewline(name) && NoNewline(modelName) && NoNewline(temperature) ==> NoNewline(r)
    {
      r := "Player name: " + name + "<br/>";
      r := r + "Model: " + modelName + "<br/>";
      r := r + "Temperature: " + temperature + "<br/><br/>";
      ghost var header := r;
      ghost var recaps := Recaps(records);
      for i := 0 to |records|
        invariant r == header + RecapsText(recaps[..i])
      {
        var recap := records[i].Recap();
        ghost var body := RecapsText(recaps[..i]);
        assert recaps[i] == recap;
        TakeOneMore(recaps, i);
        RecapsTextAppend(recaps[..i], recap);
        r := r + ReplaceNewlines(recap);
        r := r + "<br/>";
        AppendAssoc(header, body, ReplaceNewlines(recap));
        AppendAssoc(header, body + ReplaceNewlines(recap), "<br/>");
      }
      assert recaps[..|records|] == recaps;
      if NoNewline(name) && NoNewline(modelName) && NoNewline(temperature) {
        HeaderHasNoNewline(name, modelName, temperature);
        NoNewlineConcat(header, RecapsText(recaps));
      }
    }
  }

  /** The recap of each record, in order. */
  function Recaps(rs: seq<TurnRecord>): (r: seq<string>)
    reads rs
    requires forall i :: 0 <= i < |rs| ==> rs[i].Consistent()
    ensures |r| == |rs|
  {
    seq(|rs|, i requires 0 <= i < |rs| reads rs => rs[i].Recap())
  }

  function ReportHeader(name: string, modelName: string, temperature: string): string {
    "Player name: " + name + "<br/>" + "Model: " + modelName + "<br/>" +
    "Temperature: " + temperature + "<br/><br/>"
  }

  lemma HeaderHasNoNewline(name: string, modelName: string, temperature: string)
    requires NoNewline(name) && NoNewline(modelName) && NoNewline(temperature)
    ensures NoNewline(ReportHeader(name, modelName, temperature))
  {
    var s := "Player name: ";
    NoNewlineConcat(s, name);
    NoNewlineConcat(s + name, "<br/>");
    s := s + name + "<br/>";
    NoNewlineConcat(s, "Model: ");
    NoNewlineConcat(s + "Model: ", modelName);
    NoNewlineConcat(s + "Model: " + modelName, "<br/>");
    s := s + "Model: " + modelName + "<br/>";
    NoNewlineConcat(s, "Temperature: ");
    NoNewlineConcat(s + "Temperature: ", temperature);
    NoNewlineConcat(s + "Temperature: " + temperature, "<br/><br/>");
  }

  /** The recaps in order, each with its line breaks replaced and followed
      by `<br/>`. */
  function RecapsText(recaps: seq<string>): (r: string)
    ensures NoNewline(r)
  {
    if recaps == [] then ""
    else
      var first := ReplaceNewlines(recaps[0]);
      first + "<br/>" + RecapsText(recaps[1..])
  }

  /** One more recap adds its own piece at the end, the earlier text
      unchanged: the report grows turn by turn. */
  lemma {:induction false} RecapsTextAppend(recaps: seq<string>, x: string)
    ensures RecapsText(recaps + [x]) == RecapsText(recaps) + ReplaceNewlines(x) + "<br/>"
  {
    if recaps == [] {
      assert [x][1..] == [];
    } else {
      assert (recaps + [x])[1..] == recaps[1..] + [x];
      RecapsTextAppend(recaps[1..], x);
    }
  }

  function Coins(ps: seq<Player>): (r: seq<int>)
    reads ps`coins
    ensures |r| == |ps|
    ensures forall j :: 0 <= j < |ps| ==> r[j] == ps[j].coins
  {
    if ps == [] then [] else [ps[0].coins] + Coins(ps[1..])
  }

  /** The part of a player the arena's bookkeeping reads and writes. */
  datatype Seat = Seat(coins: int, priorCoins: int, isDead: bool, isWinner: bool)

  function SeatOf(p: Player): Seat
    reads p`coins, p`priorCoins, p`isDead, p`isWinner
  {
    Seat(p.coins, p.priorCoins, p.isDead, p.isWinner)
  }

  /** Each player's seat, by list position. */
  function Seats(ps: seq<Player>): (r: seq<Seat>)
    reads ps`coins, ps`priorCoins, ps`isDead, ps`isWinner
    ensures |r| == |ps|
    ensures forall j :: 0 <= j < |ps| ==> r[j] == SeatOf(ps[j])
  {
    if ps == [] then [] else [SeatOf(ps[0])] + Seats(ps[1..])
  }

  /** The part of a seat that only the arena writes: everything but the coins. */
  datatype Mark = Mark(priorCoins: int, isDead: bool, isWinner: bool)

  /** Each player's mark, by list position. */
  function Marks(ps: seq<Player>): (r: seq<Mark>)
    reads ps`priorCoins, ps`isDead, ps`isWinner
    ensures |r| == |ps|
    ensures forall j :: 0 <= j < |ps| ==> r[j] == Mark(ps[j].priorCoins, ps[j].isDead, ps[j].isWinner)
  {
    if ps == [] then [] else [Mark(ps[0].priorCoins, ps[0].isDead, ps[0].isWinner)] + Marks(ps[1..])
  }

  /** The seats holding coins `cs` and marks `ms`, position by position. */
  function Seated(cs: seq<int>, ms: seq<Mark>): (r: seq<Seat>)
    requires |cs| == |ms|
    ensures |r| == |cs|
  {
    seq(|cs|, j requires 0 <= j < |cs| => Seat(cs[j], ms[j].priorCoins, ms[j].isDead, ms[j].isWinner))
  }

  /** A seat is its player's coins together with its mark. */
  lemma SeatsSeated(ps: seq<Player>)
    ensures Seats(ps) == Seated(Coins(ps), Marks(ps))
  {
  }

  /** Each player's list of turn records, by list position. */
  function Histories(ps: seq<Player>): (r: seq<seq<TurnRecord>>)
    reads ps`records
    ensures |r| == |ps|
    ensures forall j :: 0 <= j < |ps| ==> r[j] == ps[j].records
  {
    if ps == [] then [] else [ps[0].records] + Histories(ps[1..])
  }

  function Names(ps: seq<Player>): (r: seq<string>)
    ensures |r| == |ps|
    ensures forall j :: 0 <= j < |ps| ==> r[j] == ps[j].name
  {
    seq(|ps|, j requires 0 <= j < |ps| => ps[j].name)
  }
}
