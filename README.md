# roll5 in Dafny

This project models the core of roll5, a multiplayer five-dice game played in the browser.
The model is a specification layer of datatypes and functions with lemmas about them, plus
imperative classes whose methods are proved to follow those functions.

- **The server engine (`classes.js`).**
  - `DiceSet.values` turns five faces into the 13 category values.
  - `Score` holds the 13 boxes, the five-of-a-kind bonus `b5` and the derived subtotals and total.
  - `Player.tally` commits a box once.
  - `Roll5` runs a turn: up to three rolls with locked dice, one score, then the turn passes to the next player after the scorer who still has an open box, or to the first such player when the scorer has just filled their last box.
- **The room registry (`app.js`).** A map from room key to game. Its `join`, `roll`, `toggleDie`, `score` and `disconnecting` handlers are methods that take the caller's socket id.
- **The browser's copy (`public/javascripts/roll5.js`).** This is the client `DiceSet` and `Score`, rebuilt from every game update. It also includes the guards that decide which score buttons appear and which clicks are sent.

## Files

| file | module | content |
|---|---|---|
| `basics.dfy` | `Basics` | `Option`, `Result`, the exceptions the engine throws, socket ids |
| `boxes.dfy` | `Boxes` | the 13 boxes, their keys, and case-insensitive parsing of a box name |
| `dice.dfy` | `Dice` | `count`, `sum`, `straight`, `values` as functions, and the category lemmas |
| `sheet.dfy` | `Sheet` | the score sheet as a value: `set`, the getters, `tally`, and (de)serialisation |
| `turns.dfy` | `Turns` | game states; rolling, toggling and scoring a turn; the turn rotation; a player leaving |
| `engine.dfy` | `Engine` | the classes `Die`, `DiceSet`, `Score`, `Player` and `Roll5`, each method proved against `Sheet`/`Turns` |
| `app.dfy` | `App` | the handlers as functions on the room table, and the class `Rooms` whose methods follow them |
| `client.dfy` | `Client` | the browser's `DiceSet`, `Score`, `button`, click guards and roll-button rule |

## Model

| member | source | states |
|---|---|---|
| Boxes.Parse | classes.js:3-5 | after lower-casing, a name denotes the box whose key it equals, and `None` (RangeError) exactly when it equals no box key |
| Boxes.ParseKey | classes.js:11-14 | each of the 13 keys resolves to its own box |
| Boxes.ParseIgnoresCase | classes.js:219-220 | illustrates on three names (`"FH"`, `"K5"`, `"Ch"`) that box names are case-insensitive; the general statement is the `Key(b) == Lower(name)` clause of `Boxes.Parse` |
| Boxes.ParseRejectsTotals | classes.js:3-5 | `sub1`, `b5` and the empty name are not boxes |
| Boxes.Upper | classes.js:141 | `"s" + n` is an upper box exactly for n in 1..6, and it is the box counting face n |
| Dice.Count | classes.js:45-48 | `count(n)` is the multiplicity of n among the faces |
| Dice.Sum | classes.js:86 | `sum()` adds all faces; `Dice.ChanceIsUpperSum` states it equals `s1 + … + s6` and `ch` |
| Dice.SumOf | classes.js:87 | `sum(n)` adds the faces equal to n; `Dice.SumOfIsFaceTimesCount` states it is n × `count(n)` |
| Dice.Straight | classes.js:57-83 | the count tests of `straight`; `Dice.SmallStraightIffRun`, `Dice.LargeStraightIffRun` and `Dice.LargeImpliesSmall` state what they accept |
| Dice.ValuesOf | classes.js:90-110 | the 13 category values; `Dice.UpperIsFaceTimesCount`, `Dice.KindsIffCount`, `Dice.KindsNest`, `Dice.FullHouseIffNoSingleton`, `Dice.FullHouseShapes`, `Dice.FiveOfAKindIffAllEqual`, the straight lemmas and `Sheet.ValuesNonNegative` state their meaning |
| Dice.SumOfIsFaceTimesCount | classes.js:85-88 | `sum(n)` equals n × `count(n)` |
| Dice.UpperIsFaceTimesCount | classes.js:90-97 | each `sN` equals N × `count(N)` |
| Dice.ChanceIsUpperSum | classes.js:85-108 | `ch` is the sum of the dice, which equals `s1 + … + s6` |
| Dice.CountsAddUp | classes.js:45-48 | the six face counts of a roll add up to the number of dice |
| Dice.FullHouseIffNoSingleton | classes.js:102 | `fh` is 25 iff no die shows a face of its own, otherwise 0 |
| Dice.FullHouseShapes | classes.js:102 | `fh` is 25 iff the roll is five of a kind or three plus two, so five of a kind also scores 25 |
| Dice.FiveOfAKindIffAllEqual | classes.js:107 | `k5` is 50 iff all five faces are equal, otherwise 0 |
| Dice.KindsIffCount | classes.js:99-100 | `k3` is the dice sum when some face from 1 to 6 shows at least three times and 0 otherwise; `k4` the same with four |
| Dice.AnyAtLeastIsSomeFace | classes.js:99-100 | `counts.some(c => c >= k)` holds exactly when some face from 1 to 6 shows at least k times |
| Dice.KindsNest | classes.js:99-108 | `k3` is 0 or the dice sum; a nonzero `k4` equals `k3`; a nonzero `k5` forces `k3 == k4 == ch` and `fh == 25` |
| Dice.SmallStraightIffRun | classes.js:57-83 | `ss` is 30 iff the faces contain a run of four, otherwise 0 |
| Dice.LargeStraightIffRun | classes.js:57-83 | `ls` is 40 iff the faces are 1-5 or 2-6, otherwise 0 |
| Dice.LargeImpliesSmall | classes.js:104-105 | a nonzero `ls` implies a nonzero `ss` |
| Dice.CountAllMeansAllEqual | classes.js:45-48 | a face counted on every die is the face of every die |
| Sheet.ScoreState.Sub1 | classes.js:230-235 | the upper subtotal, null counting 0; `Sheet.NullCountsAsZero`, `Sheet.FillNeverLowersTotal` and `Client.ClientTotalsAgree` state its properties |
| Sheet.ScoreState.Sub2 | classes.js:237-243 | the lower subtotal, null counting 0; stated by the same lemmas as `Sub1` |
| Sheet.ScoreState.Bonus | classes.js:215-217 | 35 iff `sub1 >= 63`; stated by `Sheet.NullCountsAsZero` and `Client.ClientTotalsAgree` |
| Sheet.ScoreState.Total | classes.js:245-247 | `sub1 + sub2 + bonus + b5`; `Sheet.NothingFilledTotalsB5`, `Sheet.FillNeverLowersTotal` and `Sheet.TallyNeverLowersTotal` state its properties |
| Sheet.ScoreState.Empty | classes.js:120-122 | the number of null boxes; `Sheet.NewScoreIsAllOpen` and `Sheet.OpenAfterFill` state its properties |
| Sheet.SetBox | classes.js:219-228 | `set` fails with InvalidBox iff the name is no box and with InvalidValue iff the value is NaN; otherwise it overwrites exactly that box with no write-once check, leaving `b5` and every other box alone |
| Sheet.NewScoreIsAllOpen | classes.js:208-213 | a fresh score has 13 open boxes and a total of 0 |
| Sheet.NothingFilledTotalsB5 | classes.js:245-247 | with every box null, the total is `b5` |
| Sheet.NullCountsAsZero | classes.js:230-247 | a null box and a box scored 0 give the same `sub1`, `sub2`, `bonus` and `total` |
| Sheet.FillNeverLowersTotal | classes.js:215-247 | filling an open box with v ≥ 0 and not lowering `b5` raises the total by at least v |
| Sheet.OpenAfterFill | classes.js:120-122 | filling an open box lowers the count of null boxes by one |
| Sheet.TallyScore | classes.js:129-162 | what `tally` leaves in the score; `Sheet.TallyOutcome`, `Sheet.TallyFiveBonus`, `Sheet.TallyWithoutBonus`, `Sheet.TallyWithBonus`, `Sheet.TallyNeverLowersTotal` and `Engine.Player.Tally` state it |
| Sheet.TallyOutcome | classes.js:129-162 | `tally` throws InvalidBox for an unknown box and AlreadyScored for a non-null one; otherwise the box gets `dice.values[box]`, no other box changes, and `empty` drops by exactly 1 |
| Sheet.TallyFiveBonus | classes.js:135-137 | `b5` rises by 100 exactly when `k5` was already scored non-zero and the dice are five of a kind, and otherwise stays |
| Sheet.TallyWithoutBonus | classes.js:161 | outside the bonus branch, tally writes the box's value and keeps `b5` |
| Sheet.TallyWithBonus | classes.js:136-158 | in the bonus branch the box ends up holding `dice.values[box]`, and `b5` gains 100 iff `k5` is non-zero (that the joker write is overwritten is stated by `Engine.Player.Commit`) |
| Sheet.TallyNeverLowersTotal | classes.js:129-162 | a successful tally raises the total by at least the value written |
| Sheet.ValuesNonNegative | classes.js:90-110 | every category value of a roll is non-negative |
| Sheet.Serialized | classes.js:207-213 | the fields of a Score as a game update carries them; `Sheet.SerializedHoldsEveryBox` states it |
| Sheet.ScoreFromData | classes.js:208-213 | the server constructor on such data; `Sheet.RebuildKeepsNonZero`, `Sheet.ServerRebuildDropsZeros` and `Engine.Score.constructor` state it |
| Sheet.SerializedHoldsEveryBox | classes.js:208-213 | the game update carries every box (null or number) and `b5` |
| Sheet.RebuildKeepsNonZero | classes.js:208-212 | the server constructor rebuilds a score exactly when no box holds 0 (`|| null` turns 0 into null) |
| Sheet.ServerRebuildDropsZeros | classes.js:208-212 | rebuilding a serialized score gives it back iff no box holds 0 |
| Turns.NewGame | classes.js:166-172 | a new game; `Turns.NewGameGood` and `Engine.Roll5.constructor` state it |
| Turns.RollTurn | classes.js:174-183 | one roll; `Turns.RollTurnOutcome`, `Turns.RollTurnGood` and `Engine.Roll5.Roll` state it |
| Turns.ToggleDie | classes.js:27-30 | one toggle by index, failing for a missing die; `Turns.ToggleTwiceRestores`, `Turns.ToggleDieGood` and `App.ToggleRoom` state it |
| Turns.ToggleTwiceRestores | classes.js:27-30 | a toggle succeeds exactly for an index with a die, and toggling twice gives back the game |
| Turns.ScoreTurn | classes.js:185-204 | one score; `Turns.ScoreTurnOutcome`, `Turns.ScoreTurnHandsOver`, `Turns.ScoreTurnRotation`, `Turns.ScoreTurnGood` and `Engine.Roll5.Score` state it |
| Turns.NextSeat | classes.js:196-197 | the seat after the given one; `Turns.NextSeatInRosterOrder` states it |
| Turns.Rotate | classes.js:191-198 | the hand-over, null with nobody eligible; `Turns.ScoreTurnHandsOver`, `Turns.RotateFromAbsent` and `Turns.RotateToFirstOpen` state it |
| Turns.Depart | app.js:130-151 | one room's part of the disconnect handler; `Turns.DepartRoster`, `Turns.DepartHandsToFirst`, `Turns.DepartGood` and `Turns.DepartScenario` state it |
| Turns.Without | app.js:133 | `filter(p => p.id != socket.id)` on the players; `Turns.DepartRoster` states that the remaining roster is this |
| Turns.WithoutMembers | app.js:133 | the filter keeps exactly the players whose id is not the caller's |
| Turns.Find | app.js:132 | `find` gives the first roster position with the id, or none |
| Turns.IndexOf | classes.js:196 | `indexOf` gives the first position holding the value, or -1 exactly when it is absent |
| Turns.WhereBounded | classes.js:191 | `filter` over roster positions keeps exactly the flagged positions |
| Turns.WhereIncreasing | classes.js:191 | `filter` keeps roster order |
| Turns.RollTurnOutcome | classes.js:174-183 | on `rolls == 0` all dice are unlocked and all take the new faces; below 3, locked dice keep their face, the rest take the new one and `rolls` goes up by 1; at 3 nothing changes; from 0..3, `rolls` stays within 1..3 |
| Turns.ScoreBeforeRollIgnored | classes.js:186 | `score` before the first roll of a turn changes nothing |
| Turns.ScoreTurnOutcome | classes.js:185-204 | with no current player in the roster, `score` throws; it succeeds iff the box is valid and open; afterwards `rolls == 0`, all dice are unlocked with their faces kept, every other player is unchanged, the scorer's box holds `dice.values[box]`, and the scorer's `empty` drops by 1 |
| Turns.ScoreTurnHandsOver | classes.js:191-198 | after a score, `currentPlayer` is null iff no player has an open box; otherwise it is a player with an open box |
| Turns.ScoreTurnRotation | classes.js:191-198 | the new current player is the first one after the scorer in roster order with an open box; if there is none after the scorer, or the scorer just filled its last box, it is the first such player overall |
| Turns.NextSeatInRosterOrder | classes.js:196-197 | `eligible[(indexOf + 1) % length]` is the next flagged roster position after the given one, wrapping; from an unflagged position it is the first flagged one |
| Turns.RotateFromAbsent | app.js:146-147 | when the player is not among the eligible (`indexOf` is -1), the turn goes to the first eligible player |
| Turns.DepartRoster | app.js:132-151 | leaving removes exactly the roster entries with the caller's id, and the remaining roster equals `Turns.Without` of the old one (roster order and repeated entries of other ids kept); the room empties iff every entry had that id; dice and game id are kept; if the caller was not current, `currentPlayer` and `rolls` are unchanged |
| Turns.RotateToFirstOpen | app.js:140-150 | rotating from a position outside the eligible list lands on the first kept player with an open box, or on null when none has one |
| Turns.DepartHandsToFirst | app.js:140-151 | if the caller was current, `rolls` becomes 0 and `currentPlayer` is null iff nobody left has an open box; otherwise it is the first remaining player in roster order with an open box |
| Turns.DepartScenario | app.js:140-151 | illustrates `Turns.DepartHandsToFirst` on one roster: with a, b, c and b current, b leaving hands the turn to a, not to c |
| Turns.NewGameGood | classes.js:166-172 | a new game is well formed: five dice showing 1..6, `rolls` in 0..3, a non-empty roster, the current player on the roster |
| Turns.RollTurnGood | classes.js:174-183 | rolling keeps a game well formed |
| Turns.ToggleDieGood | classes.js:27-30 | toggling keeps a game well formed |
| Turns.ScoreTurnGood | classes.js:185-204 | scoring keeps a game well formed |
| Turns.ScoreTurnFindsPlayer | classes.js:188-189 | in a well-formed game with a current player, `find` never fails |
| Turns.DepartGood | app.js:132-151 | a game that survives a departure stays well formed |
| Turns.FinishedStaysFinished | classes.js:174-204 | once `currentPlayer` is null, rolling, toggling and scoring never make anyone current again |
| Engine.Die.constructor | classes.js:17-20 | a new die shows the given face and is unlocked |
| Engine.Die.Roll | classes.js:22-25 | `roll` never changes a locked die; an unlocked one takes the new face |
| Engine.Die.Toggle | classes.js:27-30 | `toggle` flips the lock and keeps the face |
| Engine.DiceSet.constructor | classes.js:38-43 | five distinct fresh dice, unlocked, showing the given faces |
| Engine.DiceSet.Roll | classes.js:50-55 | the loop rolls each die in turn, so locked dice keep their faces and the rest take the new ones |
| Engine.Score.constructor | classes.js:208-212 | the new score holds the non-zero boxes of the data and `b5` (`?? 0`) |
| Engine.Score.Set | classes.js:219-228 | the field write follows `Sheet.SetBox`: on an error nothing changes |
| Engine.Player.constructor | classes.js:114-118 | a new player has the given name and id and an all-null score |
| Engine.Player.Tally | classes.js:129-162 | the field writes, including the `b5 +=` and the joker writes, leave the score that `Sheet.TallyScore` gives; on an exception the score is untouched |
| Engine.Player.Commit | classes.js:135-161 | for an open box the writes, with the bonus and the joker write that line 157 overwrites, leave exactly the score `Sheet.TallyScore` gives |
| Engine.Player.Joker | classes.js:140-155 | the joker branch either writes nothing or writes 30 into `ss` or 40 into `ls` (only when the box is that straight box), and leaves `b5` and every other box alone |
| Engine.Roll5.constructor | classes.js:166-172 | a new game has the one player, on turn, with fresh dice and `rolls == 1` |
| Engine.Roll5.UnlockDice | classes.js:176 | the loop unlocks every die and keeps its face |
| Engine.Roll5.PassTurn | classes.js:191-202 | `currentPlayer` moves along the eligible players, `rolls` becomes 0 and every die is unlocked |
| Engine.Roll5.Roll | classes.js:174-183 | `roll` updates the game as `Turns.RollTurn` says |
| Engine.Roll5.TallyAt | classes.js:188-189 | the tally changes only the scorer's sheet, as `Sheet.TallyScore` says, and on an exception leaves the game unchanged |
| Engine.Roll5.Score | classes.js:185-204 | `score` updates the game as `Turns.ScoreTurn` says, and leaves it unchanged when the tally throws |
| App.JoinRoom | app.js:79-83 | joining adds the room key and changes no other room |
| App.JoinOutcome | app.js:79-83 | an absent room gets a game with the caller alone, current and with `rolls == 1`; an existing room gets the caller appended, even when the id is already on the roster |
| App.RollRoom | app.js:88-97 | a missing room is reported and leaves every game unchanged; the game changes only when the caller is current; no other room changes |
| App.ToggleRoom | app.js:100-111 | the same gate for `toggleDie`, with no check of the turn stage |
| App.ScoreRoom | app.js:114-125 | the same gate for `score` |
| App.ScoreRoomErrors | app.js:121-122 | in well-formed games the only exceptions `score` can raise are an unknown box and a box already scored |
| App.FinishedRoomIgnoresEveryone | app.js:95-121 | once `currentPlayer` is null, every roll, toggle and score is ignored |
| App.Leave | app.js:128-156 | disconnecting never adds a room and leaves rooms the socket was not in unchanged |
| App.LeaveEveryRoom | app.js:129-154 | when no room empties, each of the socket's rooms loses the caller |
| App.LeaveStopsAtEmptiedRoom | app.js:129-138 | for any rooms of the socket, when every room before `a` keeps a player and the caller's leaving empties `a`, the handler's result is that of the earlier rooms alone with `a` deleted: the early `return` leaves every later room, and every room not visited, untouched |
| App.JoinRoomGood | app.js:79-83 | joining keeps every game well formed |
| App.RollRoomGood | app.js:88-97 | rolling keeps every game well formed |
| App.ToggleRoomGood | app.js:100-111 | toggling keeps every game well formed |
| App.ScoreRoomGood | app.js:114-125 | scoring keeps every game well formed |
| App.LeaveGood | app.js:128-156 | disconnecting keeps every remaining game well formed |
| App.HandOver | app.js:144-150 | the assignment of `currentPlayer` and `rolls` changes nothing else in the game |
| App.SeatPlayer | app.js:83 | `push` appends the player and changes nothing else |
| App.KeepPlayers | app.js:133 | `filter` leaves the kept players in roster order and changes nothing else |
| App.DropPlayer | app.js:131-151 | one room's part of the disconnect handler empties the roster exactly when `Turns.Depart` says so, and otherwise leaves the state that `Turns.Depart` gives |
| App.Rooms.constructor | app.js:71 | the registry starts empty |
| App.Rooms.Join | app.js:79-83 | `join` updates the registry as `App.JoinRoom` says; a game is created only for an absent key |
| App.Rooms.Open | app.js:82 | `games.set` on an absent key adds a new game and changes no other room |
| App.Rooms.Seat | app.js:83 | `players.push` on an existing room changes only that room |
| App.Rooms.Roll | app.js:88-97 | the handler updates the registry and reply as `App.RollRoom` says |
| App.Rooms.Toggle | app.js:100-111 | the handler updates the registry and reply as `App.ToggleRoom` says |
| App.Rooms.Score | app.js:114-125 | the handler updates the registry and reply as `App.ScoreRoom` says |
| App.Rooms.Drop | app.js:130-151 | one pass of the loop deletes the room key exactly when `Turns.Depart` empties the roster, and otherwise replaces only that room's game with the departure's result |
| App.Rooms.Disconnecting | app.js:128-156 | the loop over the socket's rooms updates the registry as `App.Leave` says |
| Client.ClientCount | public/javascripts/roll5.js:24-27 | the browser's `count`; `Client.ClientReductionsAgree` states it equals `Dice.Count` |
| Client.ClientSum | public/javascripts/roll5.js:57-60 | the browser's `sum`; `Client.ClientReductionsAgree` states it equals `Dice.Sum` and `Dice.SumOf` |
| Client.ClientStraight | public/javascripts/roll5.js:29-55 | the browser's `straight`; `Client.ClientValuesAgree` states its `ss` and `ls` are the server's |
| Client.ClientReductionsAgree | public/javascripts/roll5.js:24-27 | the source text of `count` and `sum` is identical on server and browser; the Dafny forms differ (the browser's as a left fold, the way `reduce` runs, the server's as head recursion), and this states they are equal for any faces |
| Client.ClientValues | public/javascripts/roll5.js:62-82 | the browser's `values`; `Client.ClientValuesAgree` and `Client.DefaultDiceValues` state it |
| Client.ClientValuesAgree | public/javascripts/roll5.js:62-82 | for the same faces, the client's `values` are exactly the server's 13 values |
| Client.ClientDiceOfServerGame | public/javascripts/roll5.js:16-22 | the dice of a game update are rebuilt unchanged, so the page shows the server's values for them |
| Client.DefaultDiceValues | public/javascripts/roll5.js:1-22 | a DiceSet built without data shows five zeros, so every category is 0 except `fh`, which is 25 |
| Client.ZeroFacesValues | classes.js:99-108 | five zero faces count no face from 1 to 6, so only `fh` scores |
| Client.ClientKeepsEveryBox | public/javascripts/roll5.js:86-90 | the client constructor copies every box of a server score, null or number, a 0 included, and `b5` |
| Client.ClientTotalsAgree | public/javascripts/roll5.js:92-113 | the client's `sub1`, `sub2`, `bonus` and `total` for a server score are the server's own |
| Client.ZeroSurvivesOnlyOnClient | public/javascripts/roll5.js:88 | a box scored 0 reads back as 0 in the browser, while the server constructor turns it into null |
| Client.Received | public/javascripts/roll5.js:137-142 | the page state after a game update; `Client.ClientDiceOfServerGame` and `Client.ClientTotalsAgree` state what it keeps |
| Client.Button | public/javascripts/roll5.js:118-121 | the score-button guard; `Client.ButtonShowsTally` and `Client.NoButtonBeforeRoll` state it |
| Client.ToggleSent | public/javascripts/roll5.js:182-186 | the die-click guard; `Client.ToggleSentIsApplied` states it |
| Client.RollSent | public/javascripts/roll5.js:188-191 | the roll-click guard; `Client.RollSentUsesARoll` states it |
| Client.RollEnabled | public/javascripts/roll5.js:150-154 | the roll-button rule; `Client.RollSentUsesARoll` states it agrees with `RollSent` |
| Client.RollsRemaining | public/javascripts/roll5.js:155 | the rolls-remaining display; `Client.RollSentUsesARoll` states its range and its drop by one |
| Client.ButtonShowsTally | public/javascripts/roll5.js:118-121 | on the viewer's turn after a roll, the viewer's open box shows a button; its number is exactly what the server writes when it is clicked; other rows show none |
| Client.NoButtonBeforeRoll | public/javascripts/roll5.js:119 | before the first roll no button is shown, and a score sent then would be ignored |
| Client.ToggleSentIsApplied | public/javascripts/roll5.js:182-186 | a toggle the page sends for one of the five dice is applied; the only toggles the server would apply that the page holds back are those before the first roll |
| Client.RollSentUsesARoll | public/javascripts/roll5.js:150-191 | in a well-formed game the roll button is enabled exactly when a click sends a roll; the display stays in 0..3; a sent roll is applied and lowers the display by one |

## Left out

- The socket transport is not modelled: `emit`, room broadcasts, `socket.join`, the `ready` handshake and the `Player n` naming (app.js:74-76, 84, 96, 109, 123, 153). Handlers take the caller's id and the player's name as parameters. A missing room is the reply `NoRoom` instead of an error event.
- Express setup and routing (app.js:1-67) are not modelled.
- `Math.random` is not modelled. Dice faces are parameters. Well-formedness asks them to be 1..6, so the face 0 that `Math.ceil(Math.random() * 6)` gives when `Math.random()` returns exactly 0 is not covered.
- `nanoid` is not modelled. Game ids and player ids are parameters. Socket ids are never empty, so the `|| nanoid()` fallbacks of `Player` never fire.
- `parseInt` and `isNaN` in `Score.set` are not modelled. The value is an `Option<int>`, with `None` standing for NaN.
- `toLowerCase` is modelled for ASCII letters only.
- The RangeError in `count` for a missing argument is left out: every call passes 1..6.
- `Player.reset` is left out: nothing in the core calls it. `Player.score` is therefore fixed for the player's lifetime.
- The `default` case of the joker switch (classes.js:152-153) is left out. It cannot be reached, because the box is `ss` or `ls` there.
- Engine.Roll5.constructor: models only the form `join` uses (one new player, no saved state). Rebuilding a game from saved data (`data?.currentPlayer || …`, `data?.rolls || 1`) is not modelled, because nothing in the core does it.
- Engine.Die.constructor: takes the face directly. The `data?.value || random` defaulting is not modelled.
- Engine.DiceSet.constructor: builds fresh dice from faces. Building from saved dice data is not used by the core.
- App.Rooms.Toggle: the die index is an integer. A string index coerced by JavaScript is not modelled. An index with no die (a TypeError in the handler) is the reply `Raised(NoSuchDie)`, with nothing changed.
- Loose `==` between ids is modelled as equality of strings.
- The browser's rendering is not modelled: the DOM, jQuery, the score table, the `score[key] ?? button(...)` cell choice, the click-handler wiring, and `myId` before `ready`. The page state after an update is the value `Client.Received` builds.
- Client.ClientScoreOf and Client.ClientDice: stated through the lemmas about them rather than an `ensures` of their own.
- Handlers run one at a time, as on Node's event loop. Nothing concurrent is modelled.
- A handler reply `Raised(e)` stands for an exception escaping the socket handler (from `score`, or from `toggleDie` with no such die). What the socket library and Node do with it afterwards is not modelled; the registry is left as the reply says.
- Engine.Player.constructor: accepts any name, the empty one included, and keeps it. JavaScript would substitute `nanoid()` for an empty name; the core always passes `Player n`, so that fallback never fires there.

Both hand-overs go through `eligible[(eligible.indexOf(player) + 1) % eligible.length]`. In `Roll5.score` the eligible players are collected after the tally (classes.js:189-191), so a scorer who has just filled their last box is not among them; `indexOf` is then -1 (classes.js:196) and the turn goes to the first eligible player, otherwise to the next eligible player after the scorer (`Turns.ScoreTurnRotation`). The disconnect handler filters the leaving player out before collecting the eligible players (app.js:133), so there `indexOf` is always -1 (app.js:146) and the turn always goes to the first eligible player (`Turns.Depart`, `Turns.DepartHandsToFirst`).
