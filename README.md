# chancellor-dossier room and role engine, in Dafny

This project models the core of chancellor-dossier, a browser companion for
the board game Secret Hitler, and proves properties of that model. The core
covers six things:

- the role table and the knowledge rules;
- role dealing and its validation;
- whose roles each player may see;
- the room actions a player can take (join, leave, start, reset, remove,
  hand over admin, investigate);
- the store helpers under those actions (room codes, paths, reads, the
  schema check, the reset update map);
- the join-by-code flow, from the page's input field to the player's
  record in the room.

One Dafny module per source file:

| file | module | models |
|---|---|---|
| `common.dfy` | `Common` | Option/Result/Outcome, JavaScript `m[k]` lookups, integer-to-text for error messages |
| `game_types.dfy` | `GameTypes` | `src/types/game-types.ts` |
| `game_logic.dfy` | `GameLogic` | `src/lib/game-logic.ts` |
| `room_store.dfy` | `RoomStore` | the typed room documents the room hook reads and writes |
| `use_room.dfy` | `RoomHook` | `src/hooks/use-room.ts` |
| `investigation_target_selection.dfy` | `TargetSelection` | `src/components/investigation-target-selection.tsx` |
| `use_game_state.dfy` | `GameState` | `src/hooks/use-game-state.ts` |
| `realtime_database.dfy` | `RealtimeDatabase` | `src/lib/realtime-database.ts` |
| `use_room_code.dfy` | `RoomCode` | `src/hooks/use-room-code.ts` (`useRoomCode.validateCode`, `useJoinRoom`) |
| `join_room_page.dfy` | `JoinPage` | `src/pages/join-room-page.tsx` |

Modelling choices:

- **Randomness is a parameter.**
  - `assignRoles` takes one pick per Fisher–Yates step (`picks[i] <= i`).
  - `generateRoomCode` takes a length draw below 3 and one alphabet index per character.
  - `generateUniqueRoomCode` takes a sequence of such draws.
  - The clock (`Date.now()`, `new Date().toISOString()`) and the id stamp of
    an investigation are parameters too.
- **Two views of the store.** The room hook and the game-state hook read a
  room as the typed `Room` of `game-types.ts`. This is `RoomStore.Store`, with
  `metadata`, an ordered player list, `roles` and `investigations`. The
  database helpers and the join-by-code hook work on the raw tree. This is
  `RealtimeDatabase.Database`, whose rooms are `Json` values. Firebase writes
  are modelled at paths of that tree: a `null` value removes a key, and a
  write under a missing node creates it.
- **Hooks and components with state are classes.** A class holds the
  hook's `loading`/`error` flags, or the component's `investigating` or
  `isJoining` flag, and a reference to the store.
  - Each action is a method. Its contract gives the `Outcome`, the new
    flags and the new store contents.
  - A guard that throws before the hook's `try` is modelled as a failure
    that leaves the hook's flags untouched.
  - A thrown error is `Failed(message)`.
- **Loops stay loops.** These parts of the source are imperative methods
  with loop invariants, each proved equal to a specification function:
  - the role pushes, the in-place Fisher–Yates shuffle and the zip in
    `assignRoles`;
  - the tally in `validateRoleAssignment`;
  - the two `forEach` reveals in `getVisibleInformation`;
  - the character loop in `generateRoomCode`;
  - the do-while in `generateUniqueRoomCode`;
  - the key loop building the `resetRoom` update map.

Facts about the source that the model proves:

- **Reset rooms fail the schema check.** A room written by `resetRoom`
  fails `validateRoomSchema`, because the reset deletes `investigations`
  (`RealtimeDatabase.ResetRoomFailsSchema`).
- **Reset does not write the fields the typed room reads.** `resetRoom`
  writes `status` and `players/P/role` at the top of the room. The typed
  room reads the status from `metadata.status` and the roles from `roles`.
  So after `resetGame` the room hook still sees the old status and roles,
  and only the investigations are gone (`RoomHook.RoomClient.ResetGame`).
- **Fresh rooms cannot be joined by code.** A room written by
  `initializeRoomSchema` has no `metadata`. `useJoinRoom` therefore refuses
  it with "Cannot join room. Game has already started."
  (`RoomCode.InitializedRoomRefusesJoin`).
- **Only the hook stops a self-investigation.** `game-room-page.tsx:156`
  passes an empty `currentPresidentId` to the target picker, so the
  picker's "Cannot investigate self" check never fires on that page. The
  room hook's "Cannot investigate yourself" guard is the one that applies
  (`TargetSelection.EmptyPresidentIdOffersSelf`).
- **One investigation per target, not per game.** The room hook refuses an
  investigation only for a target already investigated
  (`RoomHook.ReinvestigationRefused`). Investigating one target leaves every
  other target's verdict as it was (`RoomHook.InvestigationIsPerTarget`).
  The one-investigation-per-game behaviour comes from the game room page
  switching to the result view.

## Model

| member | source | states |
|---|---|---|
| GameTypes.ParseStatus | src/types/game-types.ts:1-7 | a parsed status name is the name of the status it parses to |
| GameTypes.StatusNameRoundTrip | src/types/game-types.ts:1-7 | every status's name parses back to that status |
| GameTypes.HasPlayerIffKey | src/types/game-types.ts:43 | a player is in the list exactly when their id is a key of the players object |
| GameTypes.RoleDistribution | src/types/game-types.ts:78-85 | the table has a row exactly for 5..10 players; each row sums to the player count, has one Hitler and at least one Fascist, and Liberals outnumber the rest |
| GameTypes.RoleDistributionClosedForm | src/types/game-types.ts:78-85 | every row is (n - 1 - (n-3)/2 liberals, (n-3)/2 fascists, 1 Hitler), which pins all six rows |
| GameTypes.RoleDistributionMonotone | src/types/game-types.ts:78-85 | liberal and fascist counts never decrease as the player count grows |
| GameTypes.GetKnowledgeRules | src/types/game-types.ts:94-98 | Hitler knows the Fascists exactly below 7 players; Fascists always know Hitler and each other |
| GameLogic.PartyFromRole | src/lib/game-logic.ts:50-52 | the party is Liberal exactly for the Liberal role |
| GameLogic.PartyOf | src/lib/game-logic.ts:64 | on a possibly missing role: Liberal exactly for a Liberal role, so a missing role is Fascist |
| GameLogic.RepeatCount | src/lib/game-logic.ts:17-30 | k copies of a role hold that role k times and no other role |
| GameLogic.DealtRolesCount | src/lib/game-logic.ts:17-30 | the roles pushed before shuffling hold the row's liberals, fascists and one Hitler |
| GameLogic.Swap | src/lib/game-logic.ts:35 | one swap keeps the length and the multiset of roles |
| GameLogic.ShuffleDown | src/lib/game-logic.ts:33-36 | the Fisher–Yates steps keep the length and the multiset of roles |
| GameLogic.Shuffle | src/lib/game-logic.ts:33-36 | the whole shuffle is a permutation of its input |
| GameLogic.Zip | src/lib/game-logic.ts:39-42 | the assignment's keys are exactly the player ids |
| GameLogic.ZipAt | src/lib/game-logic.ts:39-42 | with distinct ids, player i gets role i |
| GameLogic.CountRoleAdd | src/lib/game-logic.ts:39-42 | adding a new key with role r adds one to r's count and nothing to the others |
| GameLogic.ZipCount | src/lib/game-logic.ts:39-42 | with distinct ids, the assignment holds each role as often as the dealt prefix does |
| GameLogic.BuildRoles | src/lib/game-logic.ts:16-30 | the array pushed by the three loops holds the row's liberals, then its fascists, then Hitler |
| GameLogic.ShuffleInPlace | src/lib/game-logic.ts:33-36 | the in-place loop leaves the array equal to the shuffle of its old contents |
| GameLogic.ZipRoles | src/lib/game-logic.ts:39-42 | the `forEach` builds exactly the zip of players and roles |
| GameLogic.DealCounts | src/lib/game-logic.ts:16-44 | the shuffled deal gives the row's number of Liberals and Fascists and exactly one Hitler |
| GameLogic.AssignRoles | src/lib/game-logic.ts:8-45 | fails with "Invalid player count: N. Must be 5-10 players." exactly when the table has no row; otherwise the result is the shuffled row zipped against the players, its keys are the player ids and, with distinct ids, every role is held by as many players as the row asks for (one Hitler) |
| GameLogic.CreateGamePlayers | src/lib/game-logic.ts:57-67 | same length and order; each entry keeps its player, takes `roles[id]`, its party from that role, and is alive |
| GameLogic.CountAmongAdd | src/lib/game-logic.ts:82-85 | counting one more key adds one to that key's role only |
| GameLogic.TallyStep | src/lib/game-logic.ts:83 | `acc[role] = (acc[role] \|\| 0) + 1` keeps the tally of the keys seen so far |
| GameLogic.TallyComplete | src/lib/game-logic.ts:82-85 | the finished tally gives each role's count, and has an entry exactly for the roles that occur |
| GameLogic.TallyRoles | src/lib/game-logic.ts:82-85 | the `reduce` leaves each role's tally equal to its number of holders, with no entry for a role nobody holds |
| GameLogic.ValidateRoleAssignment | src/lib/game-logic.ts:72-109 | the loop-based check returns the verdict of the table and the three count checks in source order |
| GameLogic.ValidationValidIff | src/lib/game-logic.ts:72-109 | valid exactly when the count has a row and the Liberal, Fascist and Hitler counts match it; valid exactly when there is no error |
| GameLogic.AssignedRolesValidate | src/lib/game-logic.ts:8-109 | every assignment dealt for 5..10 distinct players validates for that count |
| GameLogic.AssignedRolesRejectOtherCount | src/lib/game-logic.ts:8-109 | the same assignment is rejected for any other player count |
| GameLogic.ValidForOneCount | src/lib/game-logic.ts:72-109 | an assignment validates for at most one player count |
| GameLogic.CanStartGame | src/lib/game-logic.ts:114-124 | can start exactly for 5..10 players; below 5 and above 10 the two reasons; no reason when it can start |
| GameLogic.CanStartIffDistribution | src/lib/game-logic.ts:114-124 | the start check and the role table agree on every player count |
| GameLogic.FindIndex | src/lib/game-logic.ts:133 | `findIndex`: the first position with the id, or -1 exactly when none has it |
| GameLogic.GetNextPresident | src/lib/game-logic.ts:129-136 | an empty list has no next president; otherwise the result is a player of the list |
| GameLogic.NextPresidentUnknown | src/lib/game-logic.ts:133-135 | an id not in the list gives the first player |
| GameLogic.NextPresidentFollows | src/lib/game-logic.ts:133-135 | the player after the first holder of the id is next |
| GameLogic.NextPresidentWraps | src/lib/game-logic.ts:133-135 | when the last entry is the first with the current id (always so with distinct ids), the presidency wraps round to the first player |
| GameLogic.IsValidStateTransition | src/lib/game-logic.ts:141-155 | accepts exactly the nine (from, to) pairs the table lists, so only known states are accepted and only VOTING may stay put |
| GameLogic.GameCycle | src/lib/game-logic.ts:145-152 | the full game cycle is accepted step by step, and LOBBY cannot jump to GAME_OVER |
| GameLogic.ShownStep | src/lib/game-logic.ts:179-194 | one more player adds that player to the shown set exactly when their role is revealed to the observer |
| GameLogic.HoldsShownWrite | src/lib/game-logic.ts:181-182 | writing a revealed player keeps every shown player's entry right |
| GameLogic.HoldsShownSkip | src/lib/game-logic.ts:180 | skipping an unrevealed player keeps every shown player's entry right |
| GameLogic.KeepsUnshownWrite | src/lib/game-logic.ts:181-182 | writing a revealed player leaves the entries nobody revealed unchanged |
| GameLogic.RevealShown | src/lib/game-logic.ts:179-194 | a reveal step keeps the view invariant |
| GameLogic.RevealSkipped | src/lib/game-logic.ts:179-194 | a skipped step keeps the view invariant |
| GameLogic.RevealFromRevealed | src/lib/game-logic.ts:179-194 | after all players, the view holds every revealed player's role and party and keeps the seeded entries of everyone else |
| GameLogic.RevealPlayers | src/lib/game-logic.ts:179-194 | the `forEach` loop computes the reveal of the whole list |
| GameLogic.VisibleInformationShape | src/lib/game-logic.ts:161-198 | both maps have the same keys: the observer plus the players shown; each shown player has their own role and party (the last entry of a repeated id wins); the observer keeps their own entry unless a shown entry shares their id |
| GameLogic.GetVisibleInformation | src/lib/game-logic.ts:161-198 | the method returns the specified view |
| GameLogic.LiberalSeesOnlySelf | src/lib/game-logic.ts:173-175 | a Liberal sees only themselves |
| GameLogic.FascistSeesTeam | src/lib/game-logic.ts:177-185 | a Fascist sees themselves, every Fascist and Hitler |
| GameLogic.HitlerSees | src/lib/game-logic.ts:187-195 | Hitler sees the Fascists below 7 players, and only themselves otherwise |
| GameLogic.HitlerViewFollowsKnowledgeRules | src/lib/game-logic.ts:187-195 | Hitler's view agrees with `getKnowledgeRules(n).hitlerKnowsFascists` |
| Common.NatToStringRoundTrip | src/lib/game-logic.ts:13 | the count printed in an error message reads back as that count |
| Common.IntToStringRoundTrip | src/lib/game-logic.ts:79 | the same for negative counts |
| Common.IntToStringInjective | src/lib/game-logic.ts:79 | different counts give different messages |
| RoomStore.SetPlayer | src/lib/realtime-database.ts:129-136 | writing a player record adds the id to the keys, replaces a record with the same id in place and otherwise appends; other players unchanged; ids stay distinct |
| RoomStore.ReplacePlayer | src/lib/realtime-database.ts:129-136 | replacing a record keeps length, order and ids and changes only that player |
| RoomStore.RemovePlayer | src/lib/realtime-database.ts:185-203 | removing a player keeps exactly the other players |
| RoomStore.IdSetMembers | src/lib/realtime-database.ts:185-203 | an id is a key exactly when a record has it |
| RoomStore.RemovePlayerIds | src/lib/realtime-database.ts:185-203 | removal takes exactly that id out of the keys |
| RoomStore.RemoveAbsentPlayer | src/lib/realtime-database.ts:185-203 | removing an absent player changes nothing |
| RoomStore.RemovePlayerDistinct | src/lib/realtime-database.ts:185-203 | removal keeps ids distinct |
| RoomStore.Store.AddPlayer | src/lib/realtime-database.ts:129-136 | the room's players become the written list; nothing else changes |
| RoomStore.Store.RemovePlayerRecord | src/lib/realtime-database.ts:185-203 | the room's players lose that id; nothing else changes |
| RoomStore.Store.StoreInvestigation | src/lib/realtime-database.ts:150-160 | the record is stored under the target; nothing else changes |
| RoomStore.Store.DeleteRoom | src/lib/realtime-database.ts:205-208 | the room is gone; the other rooms are unchanged |
| RoomStore.Store.SetRoles | src/hooks/use-room.ts:222 | the room's roles become the written assignment |
| RoomStore.Store.SetMetadata | src/hooks/use-room.ts:226-231 | the room's metadata becomes the written metadata |
| RoomStore.Store.ResetRoom | src/lib/realtime-database.ts:252-272 | in the typed view a reset clears only the investigations |
| RoomHook.InvestigateError | src/hooks/use-room.ts:334-362 | no error exactly when room and user exist, the user is president, the target is in the room, is not the user, is not yet investigated and has a role |
| RoomHook.InvestigateErrorOrder | src/hooks/use-room.ts:335-356 | the guards fail in source order with their messages: no room or user, not the president, no player record for the target, the target is the caller, the target already investigated, and last the target has no role |
| RoomHook.InvestigationFor | src/hooks/use-room.ts:364-371 | the record's verdict is the target's party, by this president, at this time, with id `uid_stamp` |
| RoomHook.Investigated | src/hooks/use-room.ts:364-376 | exactly one record is added under the target; other records and the rest of the room are unchanged |
| RoomHook.InvestigationIsPerTarget | src/hooks/use-room.ts:354 | investigating one target does not change the verdict for any other |
| RoomHook.ReinvestigationRefused | src/hooks/use-room.ts:354-356 | a target just investigated is refused with "Player already investigated" |
| RoomHook.StartError | src/hooks/use-room.ts:203-217 | no error exactly for the admin with 5..10 players; "No room or user" without a room or user, "Only admin can start the game" for anyone else, and for the admin `canStartGame`'s reason |
| RoomHook.Started | src/hooks/use-room.ts:221-231 | status ROLE_REVEAL, start time now, the first player as starting and current president, the dealt roles; `roles` and `metadata` are the only fields written, and in `metadata` only those four, so players, investigations, id, admin and every other metadata field are kept |
| RoomHook.JoinError | src/hooks/use-room.ts:135-148 | no error exactly when the room exists, is in the lobby and has fewer than 10 players; otherwise "Room not found", "Cannot join a game in progress" or "Room is full", in that order |
| RoomHook.ResetError | src/hooks/use-room.ts:243-250 | no error exactly for the admin or, in GAME_OVER, for anyone; otherwise "No room or user" or "Only admin can reset the game" |
| RoomHook.RemoveError | src/hooks/use-room.ts:263-273 | no error exactly for the admin removing someone else; otherwise "No room or user", "Only admin can remove players", or for the admin removing themselves "Admin cannot remove themselves" |
| RoomHook.TransferError | src/hooks/use-room.ts:286-296 | no error exactly for the admin naming a player in the room; otherwise "No room or user", "Only admin can transfer admin rights", or for the admin "Player not found in room" |
| RoomHook.AfterLeave | src/hooks/use-room.ts:173-191 | the room is deleted exactly when the admin leaves last; otherwise the caller is removed, and an admin leaving hands the role to the first remaining player; only `players` and, for the admin, `metadata.adminId` change, so id, roles, investigations and every other metadata field are kept |
| RoomHook.LeaveKeepsAdminInRoom | src/hooks/use-room.ts:180-186 | after the admin leaves, the new admin is in the room and the old one is not |
| RoomHook.RoomClient.IsPlayerInRoom | src/hooks/use-room.ts:56 | true exactly when there is a user and a room and the user is one of its players |
| RoomHook.RoomClient.JoinRoom | src/hooks/use-room.ts:125-170 | no user: fails and changes nothing; otherwise the outcome is the join check's, and success adds exactly the caller's record and subscribes |
| RoomHook.RoomClient.LeaveRoom | src/hooks/use-room.ts:173-200 | the store becomes the specified leave result, or is unchanged without a room or user |
| RoomHook.DealValidates | src/hooks/use-room.ts:220-222 | the roles `startGame` deals to 5..10 distinct players pass `validateRoleAssignment` for that count and are keyed by exactly the player ids |
| RoomHook.RoomClient.StartGame | src/hooks/use-room.ts:203-237 | the outcome is the start check's; success writes the dealt roles, which validate, and the started metadata |
| RoomHook.RoomClient.ResetGame | src/hooks/use-room.ts:240-259 | the outcome is the reset check's; success clears the investigations |
| RoomHook.RoomClient.RemovePlayerFromRoom | src/hooks/use-room.ts:262-282 | the outcome is the remove check's; success removes exactly that player |
| RoomHook.RoomClient.TransferAdmin | src/hooks/use-room.ts:285-305 | the outcome is the transfer check's; success changes only the admin id |
| RoomHook.RoomClient.InvestigatePlayer | src/hooks/use-room.ts:334-382 | the outcome is the investigation check's; failures write nothing; success stores exactly the one record |
| TargetSelection.CanInvestigate | src/components/investigation-target-selection.tsx:35-44 | false for the president and for anyone already investigated, true for everyone else |
| TargetSelection.InvestigationStatus | src/components/investigation-target-selection.tsx:46-50 | self first, then already investigated, then eligible |
| TargetSelection.CanInvestigateIffEligible | src/components/investigation-target-selection.tsx:35-50 | the button shows exactly when the status says eligible |
| TargetSelection.EmptyPresidentIdOffersSelf | src/pages/game-room-page.tsx:154-160 | with the empty president id the page passes, a president not yet investigated is eligible in the picker, and the room hook answers "Cannot investigate yourself" |
| TargetSelection.EligibleMeansHookAccepts | src/components/investigation-target-selection.tsx:35-44 | shown to the room's president with the room's investigated ids, a player with a role is eligible exactly when the room hook accepts them |
| TargetSelection.Picker.HandleInvestigate | src/components/investigation-target-selection.tsx:22-33 | runs the callback exactly when neither loading nor busy; clears the busy flag afterwards; the store changes only as the callback's outcome says |
| GameState.GameStatusOf | src/hooks/use-game-state.ts:45 | absent exactly without a room; otherwise the room's status name |
| GameState.CurrentPhase | src/hooks/use-game-state.ts:100-119 | a missing or empty status is LOBBY; the six statuses give their strings, per presidency in the three round phases; an unknown status is shown as is |
| GameState.PhaseDependsOnPresidencyOnlyInRounds | src/hooks/use-game-state.ts:108-113 | the phase text depends on presidency exactly in VOTING, LEGISLATIVE and EXECUTIVE_ACTION |
| GameState.NoRoomIsLobby | src/hooks/use-game-state.ts:101 | with no room the phase is LOBBY |
| GameState.Lookup | src/hooks/use-game-state.ts:51 | the player record with that id, present exactly when the id is in the room |
| GameState.CurrentPlayer | src/hooks/use-game-state.ts:50-55 | present exactly with room and user; role `roles[uid]`, party Liberal exactly for a Liberal role, alive, and the player's own record when present |
| GameState.CurrentPlayerMatchesGamePlayers | src/hooks/use-game-state.ts:50-84 | the current player's role, party and life agree with their entry of the players list |
| GameState.IsPresident | src/hooks/use-game-state.ts:59 | equality of uid and president id, where two missing values are equal |
| GameState.IsChancellor | src/hooks/use-game-state.ts:60 | the same for the chancellor |
| GameState.IsAdmin | src/hooks/use-game-state.ts:61 | the same for the admin |
| GameState.PresidentAndChancellor | src/hooks/use-game-state.ts:59-60 | a user who is both holds both offices in the metadata |
| GameState.PolicyCount | src/hooks/use-game-state.ts:65-66 | a missing count is 0 |
| GameState.EnactedPoliciesOf | src/hooks/use-game-state.ts:64-67 | both counts from the metadata, 0 without a room |
| GameState.GamePlayersWithRole | src/hooks/use-game-state.ts:78-84 | the players list holds exactly the room's players with a wanted role |
| GameState.RoomViewByRole | src/hooks/use-game-state.ts:78-96 | in a room: a Liberal sees only themselves, a Fascist the room's Fascists and Hitler, Hitler the Fascists below 7 players |
| GameState.GameStateView.Recompute | src/hooks/use-game-state.ts:70-97 | without room, user or role everything is emptied; otherwise the players list and the view of `getVisibleInformation` |
| RealtimeDatabase.SplitPath | src/lib/realtime-database.ts:80-88 | a path always has at least one segment |
| RealtimeDatabase.SplitPrefix | src/lib/realtime-database.ts:80-88 | splitting a path after a key without `/` keeps the key at the front |
| RealtimeDatabase.SplitJoin | src/lib/realtime-database.ts:80-88 | keys joined by `/` split back into the same keys |
| RealtimeDatabase.RoomPath | src/lib/realtime-database.ts:81 | `rooms/R` |
| RealtimeDatabase.RoomPlayersPath | src/lib/realtime-database.ts:82 | `rooms/R/players` |
| RealtimeDatabase.RoomInvestigationsPath | src/lib/realtime-database.ts:83 | `rooms/R/investigations` |
| RealtimeDatabase.PlayerPath | src/lib/realtime-database.ts:84-85 | `rooms/R/players/P`, the players path plus the id |
| RealtimeDatabase.InvestigationPath | src/lib/realtime-database.ts:86-87 | `rooms/R/investigations/T`, the investigations path plus the id |
| RealtimeDatabase.PathsAddressTheirNodes | src/lib/realtime-database.ts:80-88 | each path addresses the node its name says |
| RealtimeDatabase.PlayerPathInjective | src/lib/realtime-database.ts:84-85 | different rooms or players never share a player path |
| RealtimeDatabase.InvestigationPathInjective | src/lib/realtime-database.ts:86-87 | different rooms or targets never share an investigation path |
| RealtimeDatabase.PlayerAndInvestigationPathsDiffer | src/lib/realtime-database.ts:84-87 | a player path is never an investigation path |
| RealtimeDatabase.AlphabetChars | src/lib/realtime-database.ts:35 | the alphabet is exactly A–Z and 0–9 |
| RealtimeDatabase.CodeOfIsRoomCode | src/lib/realtime-database.ts:34-44 | every draw spells a room code: 4 to 6 alphabet characters |
| RealtimeDatabase.EveryRoomCodeIsDrawn | src/lib/realtime-database.ts:34-44 | every room code can be drawn |
| RealtimeDatabase.GenerateRoomCode | src/lib/realtime-database.ts:34-44 | the loop spells the drawn code, a room code |
| RealtimeDatabase.UniqueCodeFromIsFirstFree | src/lib/realtime-database.ts:63-72 | from any attempt on, the result is the first free code left, or the error when none is free |
| RealtimeDatabase.UniqueCodeIsFirstFree | src/lib/realtime-database.ts:58-75 | fails with "Failed to generate unique room code after maximum attempts" exactly when the first 10 codes are all taken; otherwise the first free one, a room code |
| RealtimeDatabase.Database.IsRoomCodeTaken | src/lib/realtime-database.ts:49-53 | taken exactly when reading the room under the code finds one |
| RealtimeDatabase.GenerateUniqueRoomCode | src/lib/realtime-database.ts:58-75 | the do-while returns that result after at most 10 taken-checks, all 10 on failure; a returned code is not taken |
| RealtimeDatabase.GetRoom | src/lib/realtime-database.ts:165-173 | absent exactly when the room is; otherwise the room's fields with `id` forced to the room id |
| RealtimeDatabase.RoomPlayers | src/lib/realtime-database.ts:176-180 | the room's players object, or `{}` |
| RealtimeDatabase.Schema | src/lib/realtime-database.ts:216-221 | status LOBBY, createdAt now, empty players and investigations, and nothing else |
| RealtimeDatabase.ValidateRoomSchema | src/lib/realtime-database.ts:229-247 | true exactly when the room exists, status and createdAt are neither missing nor null, and players and investigations are objects or null |
| RealtimeDatabase.InitializedRoomValidates | src/lib/realtime-database.ts:213-247 | a room just initialised validates |
| RealtimeDatabase.ApplyUpdatesAppend | src/lib/realtime-database.ts:270-271 | applying a concatenated update list is applying one list after the other |
| RealtimeDatabase.ClearRole | src/lib/realtime-database.ts:267 | a player record without its role and otherwise unchanged |
| RealtimeDatabase.ClearRoles | src/lib/realtime-database.ts:265-268 | every player's record without its role |
| RealtimeDatabase.ResetEffectFields | src/lib/realtime-database.ts:252-272 | after a reset: status LOBBY; startedAt, endedAt, currentChancellorId and investigations gone; every player without a role; every other field unchanged |
| RealtimeDatabase.ResetIdempotent | src/lib/realtime-database.ts:252-272 | resetting twice is resetting once |
| RealtimeDatabase.ResetRoomFailsSchema | src/lib/realtime-database.ts:229-272 | a reset room fails `validateRoomSchema` |
| RealtimeDatabase.ApplyTopField | src/lib/realtime-database.ts:256-262 | a top-level entry sets the field, or removes it when null |
| RealtimeDatabase.ApplyResetFields | src/lib/realtime-database.ts:256-262 | the five room-level entries set the status and remove the four cleared fields |
| RealtimeDatabase.ClearOneRole | src/lib/realtime-database.ts:267 | one role entry clears that player's role and nothing else |
| RealtimeDatabase.ClearRoleTwice | src/lib/realtime-database.ts:267 | clearing a role twice is clearing it once |
| RealtimeDatabase.ApplyRoleClears | src/lib/realtime-database.ts:266-268 | the role entries clear the roles of exactly the listed players |
| RealtimeDatabase.ApplyResetUpdates | src/lib/realtime-database.ts:252-272 | the whole update map, applied, gives the reset room of the specification |
| RealtimeDatabase.ResetRoomUpdates | src/lib/realtime-database.ts:253-268 | the loop builds the five room-level entries and one role entry per player key |
| RealtimeDatabase.SetPlayerAt | src/lib/realtime-database.ts:129-136 | a write at `players/P` replaces exactly that player's record |
| RealtimeDatabase.Database.InitializeRoomSchema | src/lib/realtime-database.ts:213-224 | the room becomes the schema; other rooms unchanged |
| RealtimeDatabase.Database.AddPlayerToRoom | src/lib/realtime-database.ts:129-136 | the record is written at `players/P` of the room; other rooms unchanged |
| RealtimeDatabase.Database.ResetRoom | src/lib/realtime-database.ts:252-272 | the room becomes its reset; other rooms unchanged |
| RoomCode.TrimStart | src/hooks/use-room-code.ts:34 | a suffix of the input whose dropped prefix is all white space, not starting with white space |
| RoomCode.TrimEnd | src/hooks/use-room-code.ts:34 | a prefix of the input whose dropped suffix is all white space, not ending with white space |
| RoomCode.Trim | src/hooks/use-room-code.ts:34 | a slice of the input with only white space around it, and none at its ends |
| RoomCode.TrimEmptyIffBlank | src/hooks/use-room-code.ts:34 | the trim is empty exactly when the input is all white space |
| RoomCode.TrimUnchanged | src/hooks/use-room-code.ts:34 | a string with no white space at its ends is its own trim |
| RoomCode.ToUpperFacts | src/hooks/use-room-code.ts:43 | upper-casing is idempotent and keeps white space where it was |
| RoomCode.Normalize | src/hooks/use-room-code.ts:43 | no longer than the typed code, empty exactly when the code is all white space, and free of lower-case ASCII letters |
| RoomCode.NormalizeIdempotent | src/hooks/use-room-code.ts:43 | normalising twice is normalising once |
| RoomCode.CodeCharsAreNormal | src/hooks/use-room-code.ts:138 | text of A–Z and 0–9 is unchanged by trimming and normalising, and is a key |
| RoomCode.RoomCodesAreNormal | src/hooks/use-room-code.ts:138 | every generated room code is its own normal form |
| RoomCode.JoinCodeError | src/hooks/use-room-code.ts:142-151 | no error exactly for a room in the lobby; "Room not found…" when absent, then "Cannot join room. Game has already started." |
| RoomCode.JoinedFacts | src/hooks/use-room-code.ts:154-168 | a join keeps the rooms and the room's other fields and players, leaves the room joinable, puts the caller in it, and a second join writes nothing |
| RoomCode.InitializedRoomRefusesJoin | src/hooks/use-room-code.ts:149-151 | a room just initialised is refused as already started |
| RoomCode.RoomCodeHook.ValidateCode | src/hooks/use-room-code.ts:33-53 | a blank code is unavailable without touching the store or the flags; otherwise available exactly when the normalised code is not taken |
| RoomCode.JoinRoomHook.JoinRoom | src/hooks/use-room-code.ts:124-179 | no user, then a blank code, fail with nothing changed; otherwise the outcome and error are the join check's; failure writes nothing; success writes the join and navigates to `/room/CODE` |
| JoinPage.KeepCodeChars | src/pages/join-room-page.tsx:33 | no longer than the input, and only A–Z and 0–9 |
| JoinPage.UpperKeepsExactlyLettersAndDigits | src/pages/join-room-page.tsx:33 | a character survives exactly when it is an ASCII letter of either case or a digit |
| JoinPage.KeepAppend | src/pages/join-room-page.tsx:33 | filtering distributes over concatenation, so order is kept |
| JoinPage.KeepUnchanged | src/pages/join-room-page.tsx:33 | text already of A–Z and 0–9 is kept whole |
| JoinPage.KeepEmptyIffNone | src/pages/join-room-page.tsx:33 | the filter is empty exactly when no character is kept |
| JoinPage.Sanitize | src/pages/join-room-page.tsx:33 | never longer than what was typed, and only A–Z and 0–9 |
| JoinPage.SanitizeIdempotent | src/pages/join-room-page.tsx:33 | sanitising twice is sanitising once |
| JoinPage.SanitizeAppend | src/pages/join-room-page.tsx:33 | sanitising a text is sanitising its pieces and joining them |
| JoinPage.SanitizeEmptyIff | src/pages/join-room-page.tsx:33 | the field is empty exactly when nothing typed was a letter or digit |
| JoinPage.SanitizedIsNormal | src/pages/join-room-page.tsx:33 | the field is already trimmed and normalised, and is a key |
| JoinPage.JoinRoomPage.HandleInputChange | src/pages/join-room-page.tsx:31-35 | the field becomes the sanitised text and keeps the page invariant |
| JoinPage.JoinRoomPage.SubmitDisabledIff | src/pages/join-room-page.tsx:103 | the submit button is disabled exactly when the code field is empty, the hook is loading or a join is in progress |
| JoinPage.JoinRoomPage.HandleSubmit | src/pages/join-room-page.tsx:12-29 | an empty field does nothing, and a click the enabled button allows always submits; otherwise the hook joins the room named by exactly the field, its failures are swallowed and the joining flag is cleared |

## Left out

- Firebase I/O, subscriptions, disconnect handlers, `localStorage`, console
  logging and the React render cycle are not modelled. Store writes never
  fail, so a `catch` that only records a store error is not modelled.
- Concurrency is not modelled: every action runs alone, between two
  snapshots.
- RealtimeDatabase.InitializedRoomValidates: holds of the model only.
  Firebase deletes empty objects on write, and this is not modelled. Under
  that rule an initialised room would lose its empty `players` and
  `investigations`, and `validateRoomSchema` would then fail on it. The
  model keeps empty objects.
- `createNewRoom`, `setPlayerReady`, `updatePlayerName` and
  `subscribeToRoomUpdates` in `use-room.ts` are not part of this model.
- `generateCode` and `useCreateRoom` in `use-room-code.ts`, and `createRoom`,
  `updateRoom` and `updatePlayer` in `realtime-database.ts`, are not part
  of this model beyond the schema write.
- `updateRoomMetadata` and the database `assignRoles` are imported by
  `use-room.ts` from `realtime-database.ts`, which is modelled but does not
  export them; their definitions are not part of this model. They are
  taken to merge new metadata into `metadata` and to write the whole
  `roles` object.
- In the typed view, room documents always have metadata, and players are
  kept in insertion order, so `Object.values` and `Object.entries` follow
  that order. JavaScript's integer-like keys come first in real objects;
  that ordering is not modelled.
- In the typed view an absent `players` object is the empty list, and
  since Firebase never stores an empty object, `players == []` is exactly
  a room whose `players` node is absent. Where the source guards with
  `room.players || {}` (use-room.ts:145, 181, 212) or `room.players ?`
  (use-room.ts:56) the model agrees with it. Four places index
  `room.players` without a guard and throw a TypeError on such a room; the
  model answers instead, as the next four lines say.
- GameState.CurrentPlayer: on a room without `players`, `room.players[user.uid]`
  (use-game-state.ts:51) throws; the model returns a view with no record.
- GameState.GameStateView.Recompute: on a room without `players` where the
  user has a role, `Object.values(room.players)` (use-game-state.ts:78)
  throws; the model sets the player list to the empty list.
- RoomHook.TransferError: on a room without `players`, `room.players[playerId]`
  (use-room.ts:294) throws a TypeError; the model answers "Player not found
  in room".
- RoomHook.InvestigateError: on a room without `players`,
  `room.players[targetId]` (use-room.ts:345) throws a TypeError; the model
  answers "Target player not found".
- RoomCode.ToUpper: upper-cases ASCII only. JavaScript's `toUpperCase`
  also maps non-ASCII letters, some to A–Z (ß to SS, ı to I, ſ to S, the ﬀ
  ligature to FF). On such input `Sanitize` and `Normalize` keep less than
  the page does.
- JoinPage.UpperKeepsExactlyLettersAndDigits: states which characters
  survive under ASCII upper-casing only; with JavaScript's full mapping
  some non-ASCII letters would also survive, as letters A–Z.
- JoinPage.SanitizeEmptyIff: likewise stated for ASCII upper-casing; a
  typed ß, ı, ſ or ﬀ alone leaves the page's field non-empty but the
  model's empty.
- JoinPage.JoinRoomPage.HandleInputChange: sets the field to the
  ASCII-only sanitised text, so it keeps less than the page for the same
  non-ASCII letters.
- RoomCode.RoomCodeHook.ValidateCode and RoomCode.JoinRoomHook.JoinRoom
  require the normalised code and the uid to contain no `/`. Firebase would
  read such a code as a deeper path; the page's sanitiser only ever passes
  A–Z and 0–9.
- RealtimeDatabase.Database.AddPlayerToRoom requires the player id to
  contain no `/`, for the same reason.
- RoomStore.Store.AddPlayer: a write under a room that is not stored does
  nothing in the typed view, while the database's `set` at `rooms/R/players/P`
  would create the node. Its only caller, `joinRoom`, has already refused a
  missing room; the untyped `RealtimeDatabase.Database.AddPlayerToRoom` does
  model the creation.
- The input's `maxLength={6}`, which the browser enforces before
  `handleInputChange`, is not modelled.
- `joinedAt` is an ISO string in `useJoinRoom` and a millisecond count in
  `use-room.ts`. The model keeps both as given and does not parse dates.
- RealtimeDatabase.GetRoom: `{ ...roomData, id: roomId }` spreads the
  stored value into a new object. Numbers, booleans and null contribute no
  fields; a string contributes its characters under the keys "0", "1", ….
  The model gives every non-object no fields, so for a string it returns
  only `id`. No modelled consumer sees a difference: `validateRoomSchema`
  and the join-by-code check refuse such a room either way, as neither
  result has `metadata`, `players` or `investigations`. Prototype keys are
  not modelled, here or in
  `isValidStateTransition`'s `validTransitions[fromState]?.includes(toState)`:
  for a from-state such as "toString" or "constructor" the source throws a
  TypeError, and the model answers false. The same holds for
  RoomHook.RoomClient.IsPlayerInRoom, whose `user.uid in room.players`
  (use-room.ts:56) is true for a uid such as "toString", while the model
  answers false. It also holds for the `room.players[id]` truthiness guards
  of `transferAdmin` and `investigatePlayer` (use-room.ts:294, 345).
- GameLogic.GetNextPresident: on an empty list the source reads
  `players[NaN].id` and throws; the model returns no president.
