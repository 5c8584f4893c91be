# Avalon match logic in Dafny

This project models the match logic of the ProAvalon game room, `gameplay/game.js`. Each room holds one `Game` object. The model covers:

- the constant tables: the alliance template and the mission-size table with its starred two-fail cells;
- `startGame`:
  - the lobby guard;
  - the alliance deal and the seat shuffle;
  - splitting the host's options into role lists and card keys;
  - the two role deals and the fall-back of a seat without a role to its alliance name;
  - what each player is shown, computed once;
  - the first leader and the hammer seat;
  - the empty vote history;
- Fisher-Yates `shuffle` and `generateAssignmentOrders`;
- mission resolution (`calcMissionVotes`);
- leader rotation (`incrementTeamLeader`);
- the vote-history ledger (`VHCheckUndefined`, `VHUpdateTeamPick`, `VHUpdateTeamVotes`);
- move routing (`gameMove`);
- the role/card special-move dispatch (`checkRoleCardSpecialMoves`);
- the state part of `finishGame`;
- `getStatus`;
- what players and spectators are sent (`getGameData`, `getGameDataForSpectators`, `getAllSpies`, `getRevealedRoles`).

The game is an immutable record, `Match.Game`, and every operation is a function from game to game, or a method whose loop mirrors the source and which is proved equal to such a function.

**Randomness.** Every `Math.random()` draw is an explicit input: a value in [0, 1) of type `Shuffle.Unit`. A shuffle round with `k` entries left picks `floor(r * k)`. `startGame` consumes `3N + 1` draws in source order:

- N for the alliance order;
- N for the seating order;
- one per resistance seat for the resistance role order;
- one per spy seat for the spy role order;
- one for the first leader.

**Objects outside the model.** The phase, role and card objects live in modules that are not part of this model. Their behaviour is a record of functions, `Match.Hooks`:

- a phase's `gameMove`;
- a role's or card's `checkSpecialMove`, which answers whether it claimed the move and returns the game as it left it;
- a role's `see`;
- a phase's `buttonSettings`.

`Match.Catalog` records which role, card and phase objects exist, and whether each defines `checkSpecialMove`.

**TypeErrors.** Where the source throws a TypeError, the model returns an error value rather than adding a precondition. This covers:

- a role file missing for a dealt role;
- a key in play with no object behind it;
- a vote history without an entry for a player.

**Sparse arrays.** The ledger's sparse arrays are maps from index to entry.

Two behaviours of the code worth noting:

- The winner is stored as `"resistance"` or `"spies"`. A `finishGame` argument other than `"Resistance"` or `"Spy"` keeps the current winner, so the winner is not necessarily set exactly once.
- The card loop of the dispatch does not test each card's own object. This is a finding below. The rest of the model uses the intended per-card test.

## Model

| member | source | states |
|---|---|---|
| Tables.MissionRow | gameplay/game.js:38-45 | the row for a player count exists exactly for 5 to 10 players and has five missions |
| Tables.TwoFailCellsMatchRule | gameplay/game.js:38-45 | a mission-table cell is starred exactly when the match has seven or more players and it is mission 4, the rule `calcMissionVotes` applies |
| Tables.TemplateSplit | gameplay/game.js:25-36 | the first N template entries hold 2, 2, 3, 3, 3, 4 spies for N = 5..10, and the other entries are resistance |
| Missions.FailsNeeded | gameplay/game.js:1012-1015 | the fail ballots a mission needs, read off the starred table cells, are 2 exactly when the two-fail rule applies and 1 otherwise |
| Missions.CalcMissionVotes | gameplay/game.js:1010-1052 | the outcome is "succeeded" or "failed"; it is "failed" exactly when there are two or more fail ballots, or one fail ballot outside the two-fail rule; on the table this means at least as many fails as the starred cell demands |
| Missions.CountedKeepsCounts | gameplay/game.js:1026-1038 | dropping every ballot other than "succeed" and "fail" keeps both counts, so malformed or missing ballots never change the outcome |
| Missions.SingleFailSurvivesOnlyStarredCells | gameplay/game.js:1044-1046 | with exactly one fail ballot, the mission succeeds exactly on a starred cell |
| Shuffle.Draw | gameplay/game.js:1198-1202 | `floor(r * k)` for a random r in [0, 1) is an index below k |
| Shuffle.SwapPermutes | gameplay/game.js:1212-1214 | the three-assignment exchange of two entries keeps the multiset of entries |
| Shuffle.ShuffleFromPermutes | gameplay/game.js:1204-1217 | the remaining rounds of the shuffle loop rearrange the array |
| Shuffle.ShuffleRound | gameplay/game.js:1208-1214 | one pass of the loop body swaps the current last entry with that round's pick and leaves the same remaining shuffle |
| Shuffle.Shuffle | gameplay/game.js:1204-1217 | the swapping loop over a sequence returns a rearrangement of its input, namely the one the round-by-round definition gives |
| Shuffle.AssignmentOrder | gameplay/game.js:1226-1239 | a shuffled 0..n-1 is a permutation of 0..n-1 |
| Shuffle.GenerateAssignmentOrders | gameplay/game.js:1226-1239 | the filled and shuffled array has length n, entries below n and no repeats, and equals the shuffled 0..n-1 |
| Leadership.JsRem | gameplay/game.js:420 | JavaScript's `%` agrees with the Euclidean remainder on non-negative dividends and keeps the sign of the dividend otherwise |
| Leadership.HammerSeat | gameplay/game.js:420 | for a leader seat in range and at least four players, the hammer is a seat in range, four seats behind the leader |
| Leadership.IncrementTeamLeader | gameplay/game.js:581-589 | only the leader and the pick number change; the pick number goes up by one; a leader in range moves one seat back modulo N and stays in range |
| Leadership.RotateMoves | gameplay/game.js:581-589 | k rotations move the leader k seats back modulo N, count k picks, and change nothing else |
| Leadership.FourthRotationReachesHammer | gameplay/game.js:419-420 | four rotations from the first leader of a 5-10 player match reach the hammer seat, on pick 5 |
| Leadership.FullRoundReturns | gameplay/game.js:581-589 | N rotations give the lead back to the seat it started at |
| Options.SplitOptions | gameplay/game.js:337-367 | every role key in play has a role file; every card key in play has a card file and no role file; the role lists hold at most one name per role key |
| Options.SplitOptionsContents | gameplay/game.js:337-367 | a key is a role in play exactly when it is selected and has a role file; it is a card in play exactly when it is selected, has a card file and has no role file; a name is on an alliance's role list exactly when a selected role file of that alliance carries it |
| Options.IgnoredOptions | gameplay/game.js:362-364 | an option that is not `true`, or whose key has no role or card file, changes nothing |
| Deal.Place | gameplay/game.js:386-389 | a dealing loop sets the slot of each target seat from its permutation entry and leaves every other seat alone |
| Deal.SeatSlot | gameplay/game.js:386-395 | the i-th seat of an alliance, in seat order, draws entry i of that alliance's role order, or nothing when the entry lies past the end of the role list |
| Deal.DealSlotsSound | gameplay/game.js:384-396 | every dealt slot lies inside its own alliance's role list, and no two seats of an alliance share a slot |
| Deal.DealSlotsComplete | gameplay/game.js:384-396 | when an alliance has at least as many seats as roles, each of its roles is dealt to one of its seats |
| Deal.RoleName | gameplay/game.js:399-406 | a seat's role is either an entry of its own alliance's role list or its alliance name |
| Deal.Lower | gameplay/game.js:412 | the file name keeps the role's length, has no upper-case ASCII letter, and keeps every other character |
| Setup.DealAlliances | gameplay/game.js:309-322 | the alliances dealt through a shuffled order have N entries, with the template's spy count for N and resistance elsewhere |
| Setup.DealAlliancesRearranges | gameplay/game.js:319 | the dealt alliances rearrange the first N template entries |
| Setup.SeatPlayers | gameplay/game.js:290-306 | the shuffled seating is a rearrangement of the lobby's usernames |
| Setup.DrawRoleOrders | gameplay/game.js:384-396 | the two role orders are permutations of 0..k-1, one for the k resistance seats and one for the k spy seats |
| Setup.BuildSeats | gameplay/game.js:399-406 | the seats keep the shuffled usernames and dealt alliances, and each seat's role is named by its slot or its alliance |
| Setup.DealRoles | gameplay/game.js:369-406 | each seat's role comes from its own alliance's list or is the alliance name; no two seats of an alliance share a role slot; when an alliance has enough seats every role of its list is dealt |
| Setup.DealTable | gameplay/game.js:288-406 | the first 3N draws seat exactly the lobby's players, with the template's alliance counts and the roles dealt as above |
| Setup.TeamListIsMembers | gameplay/game.js:369-382 | the resistance and spy username lists are the members of each alliance in seat order |
| Setup.MissingRole | gameplay/game.js:410-415 | the result is the first dealt role, in seat order, whose lower-cased name has no role file (every earlier role has one), and none exactly when every role has one |
| Setup.EmptyLedger | gameplay/game.js:446-448 | the vote history has exactly the players' usernames as keys, each with an empty mission list |
| Setup.SeatedPlayers | gameplay/game.js:410-415 | each player is shown what their own role's `see` returns for the dealt seats |
| Setup.Open | gameplay/game.js:417-448 | the opened match is started and not finished, in the picking phase of mission 1, pick 1; the hammer is set from the leader; every player has an empty history; the team lists follow seat order; the selection is recorded |
| Setup.Launch | gameplay/game.js:410-415 | the match opens exactly when every dealt role has a role file; otherwise the reported role is the first dealt role without one |
| Setup.StartGame | gameplay/game.js:276-452 | a lobby outside 5-10 players, or one a player left during the ready check, is refused: the room reopens for joining and the left-during-ready flag is cleared; otherwise the match reports a missing role file only for a role that was dealt, and opens whenever every dealt role has a role file, with exactly the lobby's players, the template's alliance counts, roles dealt per alliance without sharing, frozen `see` data and the opening values |
| Ledger.EnsureCell | gameplay/game.js:1150-1155 | one player's step creates the current mission list and pick cell when they are undefined, and adds no other mission |
| Ledger.EnsureCellAt | gameplay/game.js:1150-1155 | only the requested cell can appear, it appears as "", and every existing cell keeps its text |
| Ledger.CheckUndefined | gameplay/game.js:1148-1157 | the users are unchanged, and a mission list appears only for a listed player at the current mission |
| Ledger.CheckUndefinedAt | gameplay/game.js:1148-1157 | every cell keeps its text, except that the missing current cell of a listed player becomes "" |
| Ledger.CheckUndefinedCreatesCells | gameplay/game.js:1148-1157 | afterwards every listed player has the current cell, no existing cell changed, and nothing was removed |
| Ledger.CheckUndefinedIdempotent | gameplay/game.js:1148-1157 | running the check twice gives the same ledger as running it once |
| Ledger.AppendAtCell | gameplay/game.js:1164 | an append to one cell grows that cell by the tag and changes no other cell |
| Ledger.AppendEachCell | gameplay/game.js:1176-1178 | after the per-seat loop, each player's current cell has grown by the tags of all their seats in seat order, and no other cell changed |
| Ledger.AppendToCurrent | gameplay/game.js:1159-1179 | a check followed by the per-seat appends only adds text: cells other than the listed players' current cells are unchanged, and each listed user's current cell is its old text (or "") followed by the tags of every seat that user holds, in seat order, which with distinct usernames is just that seat's tags |
| Ledger.UpdateTeamPick | gameplay/game.js:1159-1171 | the ledger only grows; each username's current cell gains the pick tags of every seat it holds, in seat order; with distinct usernames each player's cell gains "VHpicked " when they are on the proposed team and "VHleader " when they hold the leader seat |
| Ledger.UpdateTeamVotes | gameplay/game.js:1173-1179 | the ledger only grows; each username's current cell gains the vote tags of every seat it holds, in seat order; with distinct usernames each player's cell gains "VH" followed by their ballot, or by "undefined" when the ballot is missing |
| Rounds.VHCheckUndefined | gameplay/game.js:1148-1157 | the call fails exactly when a player has no history entry; otherwise only the ledger changes, only by growing, and every player has the cell of the current mission and pick |
| Rounds.VHUpdateTeamPick | gameplay/game.js:1159-1171 | the call fails exactly when a player has no history entry; otherwise only the ledger changes, only by appending, and each player's current cell gains the pick tags of every seat their username holds, in seat order (just their own with distinct usernames) |
| Rounds.VHUpdateTeamVotes | gameplay/game.js:1173-1179 | the call fails exactly when a player has no history entry; otherwise only the ledger changes, only by appending, and each player's current cell gains the vote tags of every seat their username holds, in seat order ("VH" and their own ballot with distinct usernames) |
| Rounds.OpeningHistory | gameplay/game.js:446-448 | right after `startGame` every player has a history entry with no cells |
| Rounds.OpeningLedger | gameplay/game.js:1148-1157 | in a just-opened match the first check does not throw and gives each player an empty first cell |
| Rounds.FirstPickCells | gameplay/game.js:1159-1171 | in a just-opened match the first proposal writes into each username's first cell exactly the pick tags of the seats it holds, in seat order, which with distinct usernames is that player's own pick tags |
| Rounds.OpeningStatus | gameplay/game.js:803-816 | a just-opened match reports "Game in progress" |
| Match.MembersOfContents | gameplay/game.js:1266-1270 | a username is listed among an alliance's members exactly when a seat of that alliance holds it |
| Dispatch.RoleRefs | gameplay/game.js:1058-1066 | the role loop consults no card hook |
| Dispatch.CardRefs | gameplay/game.js:1069-1077 | the card loop consults no role hook |
| Dispatch.FirstClaim | gameplay/game.js:1055-1081 | the hooks called form a prefix of the consultation order; only the last call can have claimed, and it did exactly when the verdict is a claim; an unclaimed run called every hook; a crash stops at a key with no object |
| Dispatch.DispatchRolesFirst | gameplay/game.js:1055-1081 | no role hook is called after a card hook |
| Dispatch.DispatchClaims | gameplay/game.js:1055-1081 | the dispatch returns `true` exactly when some hook it called claimed the move |
| Dispatch.RoleLoop | gameplay/game.js:1058-1066 | the role loop either ends with the reference outcome, or hands the card loop a game from which the reference outcome is reached |
| Dispatch.RoleStep | gameplay/game.js:1059-1065 | one role key: a key without a role object throws, a role without the hook is skipped, and an asked hook that claims ends the consultation; in every case the outcome is the reference one, or still reachable from the game handed on |
| Dispatch.CardLoop | gameplay/game.js:1068-1078 | the card loop, testing each card's own object, reaches the reference outcome |
| Dispatch.CardStep | gameplay/game.js:1070-1076 | one card key, testing the card's own object: the outcome is the reference one, or still reachable from the game handed on |
| Dispatch.CheckRoleCardSpecialMoves | gameplay/game.js:1055-1081 | the two loops give the verdict and game of the reference consultation: roles first, then cards, stopping at the first claim |
| Dispatch.CardLoopAsWritten | gameplay/game.js:1069-1077 | the card loop as written calls only card hooks, and a claim is its last call |
| Dispatch.DispatchAsWritten | gameplay/game.js:1055-1081 | with no card keys in play the dispatch as written agrees with the intended one |
| Dispatch.CardLoopAsWrittenCrashes | gameplay/game.js:1071 | with one role without a hook and one card with a hook, the dispatch as written throws before calling anything, while the intended dispatch calls the card's hook |
| Dispatch.GameMove | gameplay/game.js:462-483 | an admin alert is raised exactly when the phase is neither common nor special; a common phase takes precedence over a special one; the dispatch always runs afterwards, on the game the phase object left |
| Dispatch.CommonPhaseWins | gameplay/game.js:465-472 | with the phase listed as common, the special phase object has no influence on the move |
| Dispatch.WinnerAfter | gameplay/game.js:840-845 | "Resistance" records "resistance", "Spy" records "spies", and any other argument keeps the current winner |
| Dispatch.FinishGame | gameplay/game.js:820-858 | a claim, a phase moved away from finished, or a TypeError leaves the game as the hooks left it; otherwise the match is marked finished, the winner is recorded, both vote lists are emptied, and nothing else changes |
| Dispatch.FinishWithoutHooks | gameplay/game.js:820-858 | with no hook in play the match always finishes, and only the phase, flag, winner and vote lists change |
| Dispatch.GetStatus | gameplay/game.js:803-816 | "Finished" exactly when finished; "Frozen" exactly when frozen and not finished; "Game in progress" exactly when started, not frozen and not finished |
| Dispatch.FinishedStatus | gameplay/game.js:838 | a completed `finishGame` leaves a match whose status is "Finished" |
| Visibility.AllSpies | gameplay/game.js:1263-1276 | the spy list exists exactly when the match has started |
| Visibility.RevealedRoles | gameplay/game.js:1278-1288 | the role list exists exactly when the match has started and is in the finished phase |
| Visibility.GetAllSpies | gameplay/game.js:1263-1276 | the pushing loop returns the spy seats' usernames in seat order |
| Visibility.GetRevealedRoles | gameplay/game.js:1278-1288 | the pushing loop returns every seat's role in seat order |
| Visibility.AllSpiesContents | gameplay/game.js:1263-1276 | a username is on the spy list exactly when a spy seat holds it, and the list is as long as there are spy seats |
| Visibility.BoardOf | gameplay/game.js:744-760 | the shared board carries the current proposal, the public votes, the vote and mission histories, the mission and pick numbers, the leader, the hammer, the phase, the winner and the mission-table row for the number of players |
| Visibility.PlayerViews | gameplay/game.js:658-727 | there is no data before the start and one view per seat after it; each view carries its seat and its buttons; before the finished phase it carries the frozen `see`, and in it the full reveal; the last proposed team replaces the current one in the finished and assassination phases |
| Visibility.SpectatorViewOf | gameplay/game.js:730-782 | spectators get hidden, disabled, blank buttons; before the finished phase they see empty spy and Merlin lists and the current board; in it they get the full reveal and the last proposed team |
| Visibility.FinishedViewsAgree | gameplay/game.js:711-716 | once finished, every player and every spectator is shown the same reveal and the same board |
| Visibility.AssassinationViews | gameplay/game.js:717-719 | during assassination the players are shown the last proposed team, while spectators still see the current one and no roles |
| Visibility.OpeningViews | gameplay/game.js:671 | right after `startGame` each player is shown what their own role's file showed, spectators nothing, and everyone the table row for the number of players |
| Visibility.RevealedSpyCount | gameplay/game.js:1263-1276 | in a dealt match the spy list names as many players as the template gives spies for that size |

## Left out

- Database records and per-player statistics (`GameRecord`, the statistics updates with dates): these are external persistence.
- Sockets, emits and room plumbing: `distributeGameData`, `sendText`, `emit("gameEnded")`, the "Game started with" text, the join, sit, stand and leave overrides. These are I/O.
- `recoverGame`: it rebuilds prototypes at run time and holds no game logic.
- The chat history and `addToChatHistory`: these are messaging.
- `getRoleCardPublicGameData` and the `rolesCards` field: this merges payloads of role and card objects that are not part of this model.
- Status messages, `toShowGuns`, `numSelectTargets`, `playersYetToVote`, `gameplayMessage`, `gamePlayersInRoom`, `roomId`, `socketId` and the `spectator` flag: these come from objects not part of this model, or are room plumbing.
- `startGame`'s start time: it is a clock read.
- The internals of the phase, role and card objects. They are the uninterpreted `Match.Hooks`, and the catalogue of which objects exist is an input.
- Setup.StartGame: starts from the values of a newly constructed `Game`. A second start on the same object, which would push onto lists left over from the first, is not modelled.
- Setup.StartGame: a dealt role with no role file throws after `gameStarted` was set. The model reports `MissingRoleFile` without the half-started game.
- Setup.SeatedPlayers: a role's `see` reads the whole room. Here it receives the dealt seats only.
- Deal.Lower: only handles ASCII upper-case letters. Unicode case mapping is not modelled.
- Visibility.PlayerViews: the per-player buttons come from one hook keyed by phase, used for common and special phases alike. When no phase object exists, the admin alert that `getClientButtonSettings` also sends is not modelled.
- Rounds.VHCheckUndefined: on a missing history entry the source throws part-way through the player loop. The model reports `None` and does not keep the partly updated ledger. The same holds for Rounds.VHUpdateTeamPick and Rounds.VHUpdateTeamVotes.
- Visibility.PlayerViews: modelled as if `getRoleCardPublicGameData` (gameplay/game.js:1084-1105) returns normally. In the source its card loop reads `specialRoles[roleKeysInPlay[i]]` with the card index and can throw, which would abort `getGameData` (line 707).
- Visibility.SpectatorViewOf: modelled as if `getRoleCardPublicGameData` returns normally, for the same reason; a throw there would abort `getGameDataForSpectators` (line 770).
- Ledger.UpdateTeamPick: appends "VHpicked " and "VHleader " as one concatenation. The text is the same as two appends.
- Missions.CalcMissionVotes: the "Bad vote" log line is left out, and so is the undeclared global `numOfPlayers` the source assigns.
- Dispatch.GameMove: a role or card key whose JavaScript lookup yields `undefined` is treated as a key with no object. The `socket` argument of the hooks is the username carried by `Match.Move`.

## Findings

| source | as written | input that shows it | evidently intended | confidence | as-written member | corrected member |
|---|---|---|---|---|---|---|
| gameplay/game.js:1071 | the card loop decides whether card i has `checkSpecialMove` by reading `specialCards[roleKeysInPlay[i]]`, the object of the role key at the same index | roles in play `["merlin"]` (a role object with no hook), cards in play `["lady"]` (a card with a hook): `specialCards["merlin"]` is `undefined` and reading its `checkSpecialMove` throws, so the lady card is never asked | test `specialCards[cardKeysInPlay[i]]`, the card that is about to be called | not executed | Dispatch.CardLoopAsWrittenCrashes | Dispatch.CheckRoleCardSpecialMoves |
