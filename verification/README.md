# Outsmart: turn settlement, in Dafny

Outsmart is a negotiation game between language-model players. Each player
starts with 12 coins. Every turn, each player replies with a JSON move. The
move names:

- a player to give a coin to;
- a player to take a coin from;
- private messages for other players;
- a secret strategy.

A referee settles the turn, and an arena runs the game for at most ten turns.

This project models the core of that game:

- the **move** (`Moves`): the JSON object a reply must hold, and how it is read;
- the **turn record** (`Records`): what one player did and suffered in one turn, and the recap text written from it;
- the **player** (`Players`): coins, records, flags and the HTML report;
- the **referee** (`Referees`): a class over the players and the turn's records that
  - reads each reply into a record (or an invalid record);
  - files the records;
  - runs the four passes in order: giving, taking, alliances and messages;
- the **settlement reference** (`Settlement`): the same four passes written on values. Players are addressed by list position. The referee's heap passes are proved equal to these, and the game's promises are proved about them:
  - every player pays one coin to give;
  - taking is zero-sum;
  - alliances are genuine, disjoint, first-match-wins and conserve coins;
  - every message lands in the recipient's record;
  - a turn loses exactly one coin per invalid move;
- the **arena** (`Arenas`): a class holding the roster, the turn counter and the game-over flag. Its operations are:
  - the coin snapshot;
  - the solvency check, which zeroes and kills bankrupt players and ends the game;
  - the winners (every player tied at the maximum);
  - the end of a turn, at the final turn 10 or when the game is over.
  Each is proved against a value-level `Board` function with lemmas about it.

`Texts` holds the string helpers: join, Python-style dictionaries as
key/value sequences, decimal rendering, newline replacement. `Wrappers`
holds `Option`, `Result` and `Outcome`.

## Model

| member | source | states |
|---|---|---|
| Moves.Member | models/moves.py:6-10 | A key is absent exactly when no member carries it; when present, the value is that of the last member carrying the key, as a parsed JSON object keeps the last duplicate |
| Moves.StringDict | models/moves.py:10 | A member list becomes a `Dict[str, str]` exactly when every value is a string, and the resulting dictionary has no repeated key |
| Moves.StringDictContents | models/moves.py:10 | The dictionary holds exactly the object's keys, each with the string the object holds under it; for a repeated key that is the last value |
| Moves.FromJson | models/moves.py:6-10 | `Move(**obj)` succeeds exactly when the object holds the four aliased keys, the first three as strings and "private messages" as an object of strings; the fields are those members' values |
| Moves.StringDictOfMembers | models/moves.py:10 | A messages dictionary written as JSON members reads back as the same dictionary |
| Moves.ToJsonMembers | models/moves.py:6-10 | The JSON form of a move carries each field under its alias |
| Moves.FromJsonToJson | models/moves.py:6-10 | Reading back the JSON form of a move with unique message recipients gives the same move |
| Texts.PutFacts | game/referees.py:152 | `d[k] = v` keeps the key order, appending `k` only when it is new, and `k` then maps to `v` |
| Texts.PutOther | game/referees.py:152 | `d[k] = v` leaves the presence and value of every other key unchanged |
| Texts.PutKeepsUnique | game/referees.py:152 | Assigning a key keeps the keys of a dictionary unique |
| Texts.NatToString | models/records.py:41 | The decimal rendering of a natural is a nonempty string of digits, without a leading zero, whose decimal value is that natural |
| Texts.ReplaceNewlines | game/players.py:76 | `.replace("\n", "<br/>")` leaves no newline and changes nothing in a text without one |
| Texts.ReplaceNewlinesPieces | game/players.py:76 | The replacement distributes over concatenation, turns a newline into `<br/>` and keeps every other character, which fixes its result on every text |
| Texts.ReplaceNewlinesLength | game/players.py:76 | Each replaced newline lengthens the text by four characters |
| Texts.JoinAt | models/records.py:54-57 | In `sep.join(xs)`, the `i`-th name can be read back at its offset |
| Records.TurnRecord.constructor | models/records.py:20-35 | A new record holds the name, turn, move and invalid flag given, and has empty giver, taker and alliance lists and an empty message dictionary |
| Records.RecapText | models/records.py:37-81 | The recap is the header "Recap of Turn n", then the player's actions (the invalid-move notice for a record marked invalid), then the turn's results |
| Records.ResultsText | models/records.py:52-80 | The results list, in order: the heading, the givers line, the takers line, the alliance lines, the heading of the received messages, one "Message from" line per received message, then a blank line |
| Records.ActionsText | models/records.py:42-51 | An invalid record shows only the notice. A valid one shows, in this order: the strategy line, the "gave a coin to" and "took a coin from" lines with the move's targets, the heading, then one "Message to" line per message |
| Records.GiversLine | models/records.py:54-62 | The "no givers" line appears exactly when nobody gave; otherwise the line lists the givers joined by ", " |
| Records.TakersLine | models/records.py:55-67 | The "no takers" line appears exactly when nobody took; otherwise the line lists the takers joined by ", " |
| Records.GiversLineAt | models/records.py:54-62 | Every giver's name can be read back from the givers line at its offset |
| Records.TakersLineAt | models/records.py:55-67 | Every taker's name can be read back from the takers line at its offset |
| Records.AllianceLines | models/records.py:56-75 | The "alliance with you" line is present exactly when the record has allies and lists them. The "alliance against you" line is present exactly when the record has alliances against it and lists those. Each line appears only in that case and in that order |
| Records.MessageLinesCount | models/records.py:50-51 | The message lines hold one line per message |
| Players.Player.constructor | game/players.py:22-37 | A new player has 12 coins and 12 prior coins, no other names, no records, and is neither dead nor a winner |
| Players.Player.Kill | game/players.py:80-81 | `kill` marks the player dead and changes nothing else |
| Players.Player.Report | game/players.py:67-78 | The report is the header (name, model, temperature), then each record's recap in order with newlines turned into `<br/>` and followed by `<br/>`; it has no newline when the header fields have none |
| Players.RecapsText | game/players.py:75-77 | The HTML body of the recaps contains no newline |
| Players.RecapsTextAppend | game/players.py:75-77 | One more record adds its recap, newlines replaced, followed by `<br/>` |
| Players.HeaderHasNoNewline | game/players.py:72-74 | The report header has no newline when its three fields have none |
| Referees.Find | game/referees.py:172 | `find("{")` is the first position of the character, or -1 exactly when it is absent |
| Referees.RFind | game/referees.py:173 | `rfind("}")` is the last position of the character, or -1 exactly when it is absent |
| Referees.SliceBound | game/referees.py:174 | A slice bound as Python reads it: negative bounds count from the end; bounds past the ends are clipped |
| Referees.BraceSliceSpan | game/referees.py:172-174 | When a `{` comes no later than the last `}`, the slice runs from the first `{` to the last `}` and starts and ends with them |
| Referees.BraceSliceIdempotent | game/referees.py:172-174 | Slicing the braced part of a reply again gives the same text |
| Referees.CheckResponse | game/referees.py:154-164 | A move passes exactly when its give and take targets are both players and differ from each other; nothing stops a move from naming its own player |
| Referees.ParseResponse | game/referees.py:166-178 | A reply becomes a move exactly when its braced part decodes and is read as a move that passes the check; the move is legal and names each recipient once |
| Referees.ParseResponseOfMove | game/referees.py:166-178 | A reply whose braced part decodes to the JSON form of a legal move parses back to that move |
| Referees.Accepted | game/referees.py:33-44 | A record holds a move exactly when the player's model answered and the answer parsed; the move is then legal |
| Referees.Replies | game/referees.py:54-59 | One accepted-or-invalid move per player, in roster order; with distinct names they are well formed for settlement |
| Referees.Referee.constructor | game/referees.py:20-31 | The names are the players' names in order, the map finds each player by name, and there are no records and no alliances yet |
| Referees.Referee.DoTurnForPlayer | game/referees.py:33-44 | A new record for the player and turn, with the accepted move, or marked invalid when the call or the parse failed, and with empty lists |
| Referees.Referee.DoTurn | game/referees.py:46-61 | Each player's history gains exactly one new record for the turn, in order, holding its reply's move. The players' coins and the records' lists are those of `Settle` applied to the old coins; a message to a non-player is reported as in `Settle` |
| Referees.Referee.PlayTurn | game/referees.py:54-61 | The records are filed under the players' names and the state after the passes is `Settle` of the filed moves |
| Referees.Referee.FileRecords | game/referees.py:54-59 | Every player has a fresh record filed under its name and appended to its history; coins are untouched and the records start with empty lists |
| Referees.Referee.FileRecord | game/referees.py:57-59 | Player `index`'s record is filed and appended, and the records of earlier players are kept |
| Referees.Referee.AllFiled | game/referees.py:54-59 | Once every record is filed, the referee is ready to settle with the replies' moves and empty lists |
| Referees.Referee.SettleTurn | game/referees.py:61-71 | Settling a filed turn produces exactly `Settle` of the moves from the starting table, and leaves the filed records and histories in place |
| Referees.Referee.HandleTurn | game/referees.py:63-71 | Giving, then taking, then alliances, then messages, each as its value-level pass |
| Referees.Referee.HandleGiving | game/referees.py:73-83 | The coins and records after the loop are `GivePass` of those before |
| Referees.Referee.GiveAll | game/referees.py:77-83 | The loop over all players gives `GivePass` on the records |
| Referees.Referee.GiveTurn | game/referees.py:78-83 | One player's giving, in the source's order of updates, is `GiveStep` |
| Referees.Referee.HandleTaking | game/referees.py:85-95 | The coins and records after the loop are `TakePass` of those before |
| Referees.Referee.TakeAll | game/referees.py:89-95 | The loop over all players gives `TakePass` on the records |
| Referees.Referee.TakeTurn | game/referees.py:90-95 | One player's taking is `TakeStep` |
| Referees.Referee.HandleAlliances | game/referees.py:97-114 | Coins, records and the allied-names list after the loop are those of the alliance pass from the list before |
| Referees.Referee.AllianceAll | game/referees.py:102-114 | The loop over all players gives the alliance pass on the records |
| Referees.Referee.AllianceNext | game/referees.py:103-114 | After player `i`'s check, the state is the alliance pass over the first `i + 1` players |
| Referees.Referee.AllianceTurn | game/referees.py:103-114 | One player's alliance check is `AllianceStep` |
| Referees.Referee.ConfirmsByRecords | game/referees.py:105-113 | The check on the records confirms an alliance exactly when `Confirms` holds of the moves |
| Referees.Referee.InvestigateAlliance | game/referees.py:116-128 | Two mutual givers are allied, appended to the allied list in order and processed, exactly when they took from the same player; otherwise nothing changes |
| Referees.Referee.ProcessAlliance | game/referees.py:130-139 | The allies gain a coin each and the victim loses two. Each ally records the other, and the victim records both allies, in the source's order |
| Referees.Referee.HandleMessages | game/referees.py:141-152 | The records after the loop, and the recipient it fails on, are those of `MessagePass` |
| Referees.Referee.MessageAll | game/referees.py:146-152 | The loop over all players gives `MessagePass`, stopping at the first recipient that is not a player |
| Referees.Referee.MessageNext | game/referees.py:147-152 | After player `i`'s messages the state is the pass over `i + 1` players, and a failure there is the pass's failure |
| Referees.Referee.MessageTurn | game/referees.py:147-152 | One player's messages are `MessageStep` |
| Referees.Referee.Deliver | game/referees.py:150-152 | A valid player's messages are filed in order up to the first recipient that is not a player, which is reported |
| Referees.Referee.SendOne | game/referees.py:151-152 | One message entry is filed on its recipient's record, or the delivery stops at a stray recipient |
| Referees.Referee.AddCoins | game/referees.py:81 | `coins += delta` on one player changes that player's coins in the table and nothing else |
| Referees.Referee.AppendGiver | game/referees.py:82 | Appending a giver changes that record's givers list and nothing else |
| Referees.Referee.AppendTaker | game/referees.py:94 | Appending a taker changes that record's takers list and nothing else |
| Referees.Referee.AppendAlly | game/referees.py:137-138 | Appending an ally changes that record's alliance list and nothing else |
| Referees.Referee.ExtendAgainst | game/referees.py:139 | Extending the alliances-against list by both allies changes nothing else |
| Referees.Referee.FileMessage | game/referees.py:152 | Filing a message replaces the sender's entry in that record's dictionary and changes nothing else |
| Settlement.GiveUpToAt | game/referees.py:77-83 | After giving over the first `k` players, each of them has paid a coin, and every player has gained one coin per valid giver among them and lists exactly those givers, in order |
| Settlement.GivePassAt | game/referees.py:73-83 | Over the whole pass, each player pays one coin, valid or not, and gains one per valid player giving to it, listing them in roster order |
| Settlement.GivePassTotal | game/referees.py:73-83 | Giving destroys exactly one coin per invalid move |
| Settlement.TakeUpToAt | game/referees.py:89-95 | After taking over the first `k` players, each valid player among them has gained a coin, and every player has lost one per valid taker among them and lists exactly those takers |
| Settlement.TakePassAt | game/referees.py:85-95 | Over the whole pass, a valid player gains one coin and every player loses one per player taking from it |
| Settlement.TakePassTotal | game/referees.py:85-95 | Taking is zero-sum |
| Settlement.ProcessAllianceFacts | game/referees.py:130-139 | An alliance is zero-sum, puts each ally on the other's list, ends the victim's list with both allies, and keeps coins in step with the lists |
| Settlement.AllianceStepCases | game/referees.py:102-128 | One alliance check changes nothing or forms one genuine alliance of two players not yet allied |
| Settlement.AllianceGenuine | game/referees.py:97-128 | Every alliance formed joins two players whose valid moves give to each other and take from the same victim |
| Settlement.AllianceApart | game/referees.py:111-112 | No player is in two alliances in one turn |
| Settlement.AllianceFree | game/referees.py:111-112 | No alliance takes in a player already on the allied list when the pass starts |
| Settlement.AllianceAllied | game/referees.py:126-127 | The allied list is the starting list followed by both members of each alliance, in the order formed |
| Settlement.AllianceCovers | game/referees.py:126-127 | Every member of every alliance formed is on the allied list |
| Settlement.AllianceMaximal | game/referees.py:102-114 | First match wins, but no qualifying pair is missed: for every player whose give is reciprocated with the same take target, it or its partner ends up allied |
| Settlement.AllianceKept | game/referees.py:97-139 | The alliance pass touches only coins and alliance lists, is zero-sum, and keeps each player's coin change in step with its lists |
| Settlement.SelfGiftAllies | game/referees.py:105-114 | A valid move that gives to its own player forms an alliance of that player with itself: it gains two coins and its victim loses two |
| Settlement.SendUpToFails | game/referees.py:151-152 | One sender's delivery fails exactly at a stray recipient, and names a non-player |
| Settlement.SendUpToKept | game/referees.py:151-152 | One sender's delivery changes only message dictionaries |
| Settlement.SendUpToAt | game/referees.py:151-152 | A successful delivery changes each record only by the sender's entries addressed to it |
| Settlement.SendInboxHas | game/referees.py:151-152 | An entry addressed to a recipient ends up under the sender's name in its dictionary |
| Settlement.SendInboxOther | game/referees.py:151-152 | A sender's delivery leaves every other sender's entry as it was |
| Settlement.SendInboxKeys | game/referees.py:151-152 | A delivery adds a key only for the sender, and only when it addresses that recipient |
| Settlement.MessageUpToStuck | game/referees.py:146-152 | Once the message pass has failed, later players change nothing |
| Settlement.MessageUpToFails | game/referees.py:141-152 | The message pass fails exactly when some valid move addresses a non-player, and it reports that name |
| Settlement.MessageUpToKept | game/referees.py:141-152 | Failed or not, the message pass touches only message dictionaries: coins and every list stay as they were |
| Settlement.MessageUpToAt | game/referees.py:141-152 | A successful pass leaves each record's dictionary equal to its inbox |
| Settlement.InboxHas | game/referees.py:146-152 | Every message a valid player addresses to a player is in that player's records under the sender's name |
| Settlement.InboxOnly | game/referees.py:146-152 | Every entry of an inbox was there before or comes from a valid player whose move addresses it |
| Settlement.SettleTotal | game/referees.py:63-71 | Over a whole turn, delivered or not, the coins in the game drop by exactly the number of invalid moves |
| Settlement.ThreePlayerTurn | game/referees.py:63-139 | A and B give to each other and take from C, while C gives to A and takes from B. Starting at 12 each, A and B ally against C and the turn ends at 15, 13 and 8, with C's record listing both allies |
| Arenas.OthersOf | game/arenas.py:25 | The other names are the roster's names with every copy of the player's own name removed, each other name as often as on the roster |
| Arenas.MaxOf | game/arenas.py:43 | `max(coins)` is an entry that no entry exceeds |
| Arenas.MaxOfIs | game/arenas.py:43 | Any entry that no entry exceeds is the maximum |
| Arenas.Zeroed | game/arenas.py:52-54 | After the check over every player, no coins are negative, and positive balances are untouched |
| Arenas.BankruptAt | game/arenas.py:52-53 | The check finds a bankrupt player among the first `k` exactly when one holds zero coins or fewer |
| Arenas.SolvencyWinners | game/arenas.py:43-46 | The check marks winners only when some player went bankrupt, and then marks exactly the players tied at the maximum of the zeroed coins |
| Arenas.BustWinners | game/arenas.py:43-56 | A bankrupt player's turn in the check marks the players tied at the maximum after it is zeroed |
| Arenas.ZeroedStep | game/arenas.py:43-54 | Once a player has gone bankrupt, zeroing another bankrupt player keeps the maximum and the players at it |
| Arenas.TurnText | game/arenas.py:94-95 | The turn name is "Turn " followed by the counter in decimal |
| Arenas.GameOverMarksWinners | game/arenas.py:40-46 | `handle_game_over` sets the flag and keeps the turn and the coins. It raises exactly on an empty roster. Otherwise every player at the maximum becomes a winner, the others keep their flag, and at least one player wins |
| Arenas.SolvencyClosedForm | game/arenas.py:52-56 | The check run player by player agrees with its closed form: coins zeroed, bankrupt players dead, winners as `SolvencyWinners` states |
| Arenas.SolvencyOutcome | game/arenas.py:48-56 | After the check no one holds fewer than zero coins. The game is over exactly when it was or someone held zero or fewer; those players are at zero and dead. With nobody bankrupt nothing changes; otherwise the players at the maximum win |
| Arenas.EndOfTurnCounter | game/arenas.py:69-73 | The counter stays between 1 and 10: after turn 10 the game is over and the counter stays; otherwise it advances by one unless the game is over, and the roster is left as it was. Coins never change, and an empty roster at turn 10 raises |
| Arenas.PlayedCounter | game/arenas.py:58-73 | `do_turn` snapshots every player's coins as prior coins and never reopens a finished game. A failed message delivery raises with the recipient's name before the check, leaving the counter and the game-over flag as they were. Otherwise the result is whether the game is over: after turn 10, or once a player went bankrupt. The counter then advances exactly when neither holds, and only turn 10 of an empty roster raises |
| Arenas.PlayedSolvency | game/arenas.py:58-73 | When all messages were delivered, no player ends the turn below zero. A player that settlement left at zero or fewer is at zero and dead; every other player keeps the settled coins. The new winners are the holders of the most coins, once the game has ended this turn or turn 10 was played |
| Arenas.Hear | game/referees.py:46-61 | The referee pays every player the settlement's coins and leaves their other marks alone |
| Arenas.Arena.constructor | game/arenas.py:16-29 | Each player's other names are exactly the other names on the roster; the game starts at turn 1 and is not over |
| Arenas.Arena.HandleGameOver | game/arenas.py:40-46 | The arena state after `handle_game_over` is `GameOver` of the state before |
| Arenas.Arena.MarkWinners | game/arenas.py:44-46 | Every player holding the winning coins becomes a winner and no other seat changes |
| Arenas.Arena.PostTurnSolvencyCheck | game/arenas.py:48-56 | The state after the check is `Solvency` of the state before |
| Arenas.Arena.CheckPlayer | game/arenas.py:53-56 | One player's check is `CheckAt` |
| Arenas.Arena.Zap | game/arenas.py:54-55 | A bankrupt player is set to zero coins and killed |
| Arenas.Arena.DoTurn | game/arenas.py:58-73 | The players' coins are settled as `Settle` of the replies, and the arena's state and result are `Played` of the state before |
| Arenas.Arena.SnapshotCoins | game/arenas.py:64-65 | Every player's prior coins become its coins; nothing else changes |
| Arenas.Arena.RunReferee | game/arenas.py:66-67 | A fresh referee settles the turn: the coins become the settlement's and nothing else on the board changes |
| Arenas.Arena.NewReferee | game/arenas.py:66 | A fresh, valid referee for this roster and turn, with no records yet |
| Arenas.Arena.Conclude | game/arenas.py:68-73 | The solvency check followed by the end of the turn, as `EndOfTurn` of `Solvency` |
| Arenas.Arena.EndTurn | game/arenas.py:69-73 | The state and result after the end of a turn are `EndOfTurn` of the state before |

## Left out

- The call to each player's language model (`make_move`, with `system_prompt`, `user_prompt` and the prompt texts) is modelled as a parameter `responses: seq<Option<string>>`, one reply per player; `None` stands for a call that raised.
- `json.loads` is modelled as a parameter `decode: string -> Option<Json>`; JSON text syntax is not modelled, only the decoded value.
- Progress reporting (`progress.progress`) and logging are left out: they do not affect the game state.
- `Player.__repr__`, `Arena.__repr__`, `Arena.default`, the views, the app and the model interfaces are not part of this model. They are display code, fixed set-up data, or calls into other systems.
- `temperature` is kept as the text the report prints; the model's float is not modelled.
- `Moves.FromJson`: only JSON strings are accepted for the three text fields and the message values; pydantic's coercion of other scalar types is not modelled.
- `Referees.Referee.HandleMessages`: the `KeyError` raised at a recipient that is not a player is modelled as the returned `unknown` name. The records delivered until then are kept, as the source leaves them. `Arenas.Arena.DoTurn` then returns an error before the solvency check.
- `Referees.Referee.constructor`: requires the players' names to be distinct. The source accepts duplicates, and its `player_map` would then keep only the last player of each name.
- `Arenas.Arena.constructor`: requires distinct names, as the referee does. `random.shuffle` of each player's other names is not modelled: the list keeps roster order and the contract promises only its multiset.
- `Arenas.Arena.DoTurn`: does not restate what is filed in each player's records; `Referees.Referee.DoTurn` states that.
- `Referees.Referee.DoTurn`: does not state the referee's own records map after the turn; `Referees.Referee.PlayTurn` does.
- The game's own instructions ask each player to give to one of the other players and to take from a different player (prompting/system.py:26, 43-47). `check_response` checks only that both names are players and differ, so a move may give to its own player, and `handle_alliances` then allies that player with itself. The model follows the code (`Settlement.SelfGiftAllies`).
- `Settlement.ThreePlayerTurn` works one turn through: three players at 12 coins, A and B give to each other and take from C, C gives to A and takes from B. A and B ally against C, and the turn ends at 15, 13 and 8, keeping all 36 coins.
- Integers are unbounded, as Python's are.
