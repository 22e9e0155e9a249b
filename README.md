# SpringLobby battle engine, replay list and savegame list

This project models three parts of SpringLobby, the lobby client for the Spring RTS engine:

- `IBattle` is the state every battle shares. It holds:
  - the users in the battle and their battle status (team, ally, colour, side, handicap, start position, spectator, ready and sync flags, bot short name), kept in nick order because the user list of the source is a map keyed by nick and `GetUser(i)` walks it in that order;
  - the bots the battle owns;
  - the number of players on each team and on each ally;
  - the ready, sync and ok counters;
  - the start rectangles of the allies and their pending add, resize and delete requests;
  - the host's and the local map and game;
  - the unit restrictions and the option categories;
  - the ready-up times.

  Its operations are:
  - users joining, leaving and changing status, and the local user leaving the battle;
  - the host forcing a user's side, team, ally, colour, handicap or spectator flag;
  - searching for the lowest free team, ally or start position and the closest palette colour;
  - the readiness and auto-start tests;
  - the start-rectangle life cycle;
  - loading and saving option presets;
  - rebuilding a battle from a start script (`GetBattleFromScript`).
- `ReplayList` reads a directory of demo files. For each file it takes the format version, the start script, the game's duration and start time, the map and engine version from the file name, and the date. It keeps the entries that read successfully.
- `SavegameList` does the same for savegames. Their script is the file's bytes up to the first zero byte.

State that the source changes in place is a Dafny `class` with `modifies` clauses:
- `Battle.IBattle`;
- `Playback.StoredGame` and `Playback.WxFile`;
- `Savegames.InputStream`;
- `Replays.ReplayList` and `Savegames.SavegameList`.

Each method is proved against a specification function of the module beside it:
- `Occupancy.Joined` and `Occupancy.Left` for the team and ally sizes;
- the `StartRects` functions for the rectangles;
- `Users.AddUser`, `Users.UpdateStatus` and `Users.RemoveNick` for the user list;
- the `Roster` counts for the recount;
- `ScriptRebuild.ScriptFold` for the player loop of `GetBattleFromScript`;
- the `Presets` encoders and decoders for presets;
- `Replays.ReplayOutcome` and `Savegames.SavegameOutcome` for the playback lists.

Whole-call effects are stated by three twostate predicates, and the methods promise them:
- `AddedAs` (`OnUserAdded`, `OnBotAdded`);
- `RemovedAs` (`OnUserRemoved`, `KickPlayer`);
- `SelfLeftAs` (`OnSelfLeftBattle`).

The code the battle calls but which is not in these files becomes values passed in:
- the unitsync index of maps and games (`Unitsync.Index`);
- the settings store of hosting presets (`SettingsStore.Store`);
- the TDF parser, as a function from bytes to a `Tdf.Node` tree;
- the hash normaliser;
- the character lowering that case-insensitive name comparison uses (`lower`);
- the clock and the date parser and formatter;
- the free colour that `GetFreeColour` would pick;
- the user's answer to the download question;
- the file system, as a map from paths to byte strings.

The messages the host sends (`SendHostInfo`) are recorded as a sequence of `events`.

The small queries `IsFounderMe`, `IsFounder`, `IsProxy`, `MapExists`, `ModExists` and `GetHostModName` are predicates and functions of the class, used in the contracts below. `GetNumPlayers` and `GetNumActivePlayers` are `NumPlayers` and `NumActivePlayers`. They subtract the owned bots (`GetNumBots`, the size of `bots`) and the spectators as `unsigned int`, with wrap-around (`Text.U32`).

Two quirks are modelled as the code is written, with lemmas that show their effect:
- `OnUserBattleStatusUpdated` recounts the ready players with a test that can never hold (see Findings).
- `GetBattleFromScript` re-derives the game hash from the map hash (src/ibattle.cpp:1054). Because of that the map hash is kept raw, and the game hash is the normalised `ModHash`.

## Model

| member | source | states |
|---|---|---|
| Text.U32 | src/ibattle.cpp:259-267 | an `unsigned int` conversion: a value in range is kept, and any value is congruent to its result modulo 2^32 |
| Text.I32 | src/replaylist.cpp:123-125 | an `int` read from 4 bytes is in the signed 32-bit range, equal to the input when that fits, and congruent modulo 2^32 |
| Text.I64 | src/replaylist.cpp:128-132 | the 64-bit start time: equal to the input when it fits, congruent modulo 2^64 |
| Text.IntToString | src/ibattle.cpp:919-928 | the decimal text written into a preset is non-empty, holds no `=`, tab or `_`, and is all digits for a non-negative number |
| Text.NatToString | src/ibattle.cpp:919-928 | the digits of a natural number: non-empty and all digits |
| Text.DigitChar | src/ibattle.cpp:919-928 | a digit character whose value is the digit |
| Text.DigitsValueOfNatToString | src/ibattle.cpp:919-928 | reading back the digits of n gives n |
| Text.ParseLongOfIntToString | src/ibattle.cpp:872-876 | `s2l` of the text `stringify` wrote gives the number back, for every integer |
| Text.IntToStringInjective | src/ibattle.cpp:919-928 | distinct numbers are written as distinct texts |
| Text.LastIndexOf | src/replaylist.cpp:51-56 | the index of the last occurrence of a character (the last such index), or -1 exactly when it does not occur |
| Text.BeforeAfterLastSplit | src/replaylist.cpp:51-56 | BeforeLast, the separator and AfterLast put back together give the name; AfterLast holds no separator; the two BeforeLast variants agree when the separator occurs |
| Text.SplitAtLast | src/replaylist.cpp:51-56 | splitting `a + c + b`, where b has no c, at its last c gives back a and b |
| Text.SpanNot | src/ibattle.cpp:880-885 | the length of the longest prefix free of the delimiter, which is followed by the delimiter or the end |
| Text.Tokens | src/ibattle.cpp:880-885 | the tokenizer yields non-empty tokens free of the delimiter |
| Text.TokensOfJoin | src/ibattle.cpp:880-885 | tokenizing delimiter-terminated non-empty tokens gives exactly those tokens back |
| Text.LexTotal | src/ibattle.cpp:930-934 | the std::map key order on strings is total |
| Text.LexAntisymmetric | src/ibattle.cpp:930-934 | the key order is antisymmetric |
| Text.LexTransitive | src/ibattle.cpp:930-934 | the key order is transitive |
| Text.LeastExists | src/ibattle.cpp:930-934 | a non-empty set of unit names has a least name |
| Text.LeastKey | src/ibattle.cpp:930-934 | the key std::map visits first is in the set and no greater than any other |
| Tdf.Find | src/ibattle.cpp:1041-1042 | `Find` gives a section exactly when the name is a sub-section, and then that sub-section |
| Tdf.GetString | src/ibattle.cpp:1045-1053 | the stored value for a present key, the default otherwise |
| Tdf.GetInt | src/ibattle.cpp:1061-1063 | the stored value parsed and truncated to `int`, the default for an absent key |
| Tdf.GetIntOfIntToString | src/ibattle.cpp:1061-1063 | a number written as decimal text reads back as the same number |
| Occupancy.Joined | src/ibattle.cpp:532-544 | `PlayerJoinedTeam`/`Ally`: k's count rises by one, every other index is untouched, and a map of positive counts stays so |
| Occupancy.Left | src/ibattle.cpp:546-566 | `PlayerLeftTeam`/`Ally`: an absent index changes nothing; a count of 1 removes the entry; otherwise it drops by one; other indices untouched |
| Occupancy.LeftUndoesJoined | src/ibattle.cpp:532-566 | leaving after joining gives back the sizes |
| Occupancy.JoinedUndoesLeft | src/ibattle.cpp:532-566 | joining after leaving an occupied index gives back the sizes |
| Occupancy.TallyCounts | src/ibattle.cpp:282-295 | joining each index of a list in turn counts each index as often as it occurs in the list |
| Occupancy.MoveBackRestores | src/ibattle.cpp:498-522 | moving a player to another team and back restores the sizes |
| Occupancy.ForcedIntended | src/ibattle.cpp:568-597 | the intended ForceSpectator update: the count changes by exactly the user's change of playing status, and nothing else changes |
| Occupancy.ForcedAsWrittenMiscounts | src/ibattle.cpp:573-583 | as written, a player made a spectator stays counted, a player kept playing is counted twice, a spectator made a player is not counted, and a spectator kept a spectator removes another player's count |
| Users.NicksBound | src/ibattle.cpp:97-104 | a user list has at least as many entries as distinct nicks |
| Users.IndexOfNick | src/ibattle.cpp:97-104 | the first position holding the nick, or -1 exactly when the nick is not listed |
| Users.NicksCons | src/ibattle.cpp:214-216 | the nicks of a list with a head user are the head's nick and the rest's |
| Users.UniqueCons | src/ibattle.cpp:214-216 | a list with a head user has distinct nicks iff the head's nick is new and the rest's are distinct |
| Users.NicksSnoc | src/ibattle.cpp:214-216 | appending a user adds its nick |
| Users.AddUser | src/ibattle.cpp:216 | `UserList::AddUser`: the user is listed and its nick added; a new nick makes the list one longer, a listed nick has its entry replaced and keeps the length; every entry comes from the old list or is the user; nicks stay distinct |
| Users.InsertPos | src/ibattle.cpp:99-100 | where a new nick goes: every nick before that position sorts strictly before the new nick, and the nick at it sorts at or after it |
| Users.InsertPosSplits | src/ibattle.cpp:99-100 | in a list in nick order, the nicks before the insertion position sort strictly before the new nick and the rest at or after it |
| Users.InsertedNicks | src/ibattle.cpp:216 | inserting an unlisted nick anywhere adds exactly that nick and keeps nicks distinct |
| Users.InsertedInOrder | src/ibattle.cpp:216 | a user placed between the nicks that sort before it and those that sort after it keeps the list in nick order |
| Users.AddUserInNickOrder | src/ibattle.cpp:216 | adding a user keeps the list in nick order, which is the order in which `GetUser(i)` walks the nick-keyed user map |
| Users.AddUserAdds | src/ibattle.cpp:216 | adding a new nick adds exactly that user: the list's multiset gains it and nothing else |
| Users.ListedByNick | src/ibattle.cpp:97-104 | users are indexed by nick, not by arrival: "abot" added after "zed" has index 0 and "zed" index 1 |
| Users.OrderCons | src/ibattle.cpp:99-100 | a list with a head user is in nick order iff the head's nick sorts at or before every other nick and the rest is in nick order |
| Users.RemoveNickInNickOrder | src/ibattle.cpp:342 | removing a user keeps the list in nick order |
| Users.RemoveNick | src/ibattle.cpp:342 | `UserList::RemoveUser`: exactly the users with that nick leave, the rest stay; nicks stay distinct |
| Users.UpdateStatus | src/ibattle.cpp:494-602 | a write to `user.BattleStatus()`: only the user's own entry changes, to the new status; positions, nicks and nick order stay |
| Users.UpdateStatusTwice | src/ibattle.cpp:494-602 | a second status write overrides the first |
| Users.Merged | src/ibattle.cpp:249 | `User::UpdateBattleStatus`: the result is a bot iff the old status or the update is; team, ally, spectator, ready and sync come from the update; each coordinate is the update's or the old one |
| Users.MergedFull | src/ibattle.cpp:274 | an update carrying every optional field replaces the status, except the demo mark |
| Users.MergedIdempotent | src/ibattle.cpp:274 | the same update twice is the update once |
| Users.MergedTwice | src/ibattle.cpp:274 | a later update overrides an earlier one wherever it carries a value |
| Users.BotStaysBot | src/ibattle.cpp:274 | a bot updated with a status naming no AI keeps its AI name, so the recount still treats it as a bot |
| StartRects.LastAllyLoopNeverEnds | src/ibattle.cpp:866 | with a rectangle at ally 0xFFFFFFFF the unsigned guard `j <= GetLastRectIdx()` holds for every j, and 0xFFFFFFFF + 1 wraps to 0 |
| ScriptRebuild.AllyMinusOneRect | src/ibattle.cpp:1154 | a team with AllyTeam=-1 and an ALLYTEAM-1 section puts a rectangle at ally 0xFFFFFFFF |
| Users.RemoveAbsent | src/ibattle.cpp:342 | removing an unlisted nick changes nothing |
| Users.HeadNotInTail | src/ibattle.cpp:342 | in a list of distinct nicks the first nick does not recur |
| Users.RemoveNickAt | src/ibattle.cpp:810-817 | removing the nick at index j drops exactly entry j, as the loop's `j--` assumes |
| Users.NonBots | src/ibattle.cpp:810-817 | the users that survive the bot removal are exactly the listed non-bots |
| Users.BotsStep | src/ibattle.cpp:810-817 | visiting one more user adds it to the survivors, or to the removed bot nicks and spectator bots |
| Users.StatusAt | src/ibattle.cpp:810-817 | the user at index j is the one its nick finds |
| StartRects.Get | src/ibattle.cpp:451-457 | `GetStartRect`: an ally without a rectangle gets one that is not in use |
| StartRects.Add | src/ibattle.cpp:370-385 | `AddStartRect`: the ally's rectangle is in use, pending addition, with the given edges; every other rectangle is kept |
| StartRects.MarkRemoved | src/ibattle.cpp:389-399 | `RemoveStartRect` only marks an existing rectangle for deletion, which puts it out of use; nothing else changes |
| StartRects.MarkResized | src/ibattle.cpp:402-412 | `ResizeStartRect` only marks an existing rectangle as resized; nothing is put in or out of use |
| StartRects.ConfirmRemoved | src/ibattle.cpp:415-422 | `StartRectRemoved` erases the ally's rectangle exactly when it is marked for deletion |
| StartRects.ConfirmResized | src/ibattle.cpp:425-435 | `StartRectResized` clears the ally's resize mark only |
| StartRects.ConfirmAdded | src/ibattle.cpp:438-448 | `StartRectAdded` clears the ally's add mark only |
| StartRects.RemovalPendingUntilConfirmed | src/ibattle.cpp:389-422 | a removal request puts the rectangle out of use at once, and its confirmation erases exactly it |
| StartRects.ReAddSurvivesConfirmRemoved | src/ibattle.cpp:370-422 | a rectangle added again after a removal request survives the late confirmation |
| StartRects.ResizeThenConfirmRestores | src/ibattle.cpp:402-435 | resizing and then confirming the resize restores the rectangle |
| StartRects.MaxKey | src/ibattle.cpp:466-473 | the largest ally of a non-empty set |
| StartRects.MaxExists | src/ibattle.cpp:466-473 | a non-empty set of allies has a largest element |
| StartRects.LastIdx | src/ibattle.cpp:466-473 | `GetLastRectIdx`: 0 when there is no rectangle, else the largest ally with one |
| StartRects.Below | src/ibattle.cpp:476-484 | the allies below n, of which there are n |
| StartRects.DenseRectsCount | src/ibattle.cpp:476-484 | when every ally up to the last has a rectangle there are last+1 of them, and the ally numbered by their count has none |
| StartRects.NextFreeIdx | src/ibattle.cpp:476-484 | the loop stops at the lowest ally whose rectangle is not in use |
| Allocators.LowestFree | src/ibattle.cpp:178-195 | the two-pass search returns the lowest team (or ally) no counted player holds |
| Allocators.SearchPass | src/ibattle.cpp:182-193 | one pass over the users: an unchanged result is free, a changed one leaves fewer holders at or above it |
| Allocators.AtLeastShrinks | src/ibattle.cpp:182-193 | moving the candidate past a holder lowers the number of holders at or above it, which ends the search |
| Allocators.TakenAfterUpdate | src/ibattle.cpp:633-657 | a status update that keeps position and spectator flag keeps every start position's taken state |
| Allocators.FreeAfterUpdate | src/ibattle.cpp:226-230 | a position free after such an update was free before it |
| Allocators.FreePosition | src/ibattle.cpp:633-657 | `GetFreePosition`: the first start position no player takes, clamped to the map; the map centre when all are taken |
| Allocators.ClosestFixColour | src/ibattle.cpp:197-212 | the first palette entry not excluded and similar enough to the colour, else 0 |
| Allocators.ColourDifference | src/ibattle.cpp:172-176 | the largest of the red, green and blue differences |
| Allocators.ColourDifferenceSymmetric | src/ibattle.cpp:172-176 | the difference does not depend on the order of the colours |
| Allocators.ColourDifferenceZero | src/ibattle.cpp:172-176 | two colours differ by 0 exactly when they are equal |
| Roster.Spectators | src/ibattle.cpp:285 | the recounted spectators, bots included; at most the number of users |
| Roster.SyncedPlayers | src/ibattle.cpp:289 | the recounted synced human players; at most the number of users |
| Roster.OkPlayers | src/ibattle.cpp:290 | the recounted ready-and-synced human players; never more than the synced ones |
| Roster.ReadyPlayers | src/ibattle.cpp:236-237 | the ready human players, as the join path counts them; at most the number of users |
| Roster.RecountedReadyIsZero | src/ibattle.cpp:286-288 | the recount's ready test never holds, so the recounted ready count is 0 |
| Roster.RecountLosesReadyPlayers | src/ibattle.cpp:286-288 | as soon as one playing human is ready, the recount counts fewer ready players than there are |
| Roster.ReadyPositive | src/ibattle.cpp:236-237 | a ready playing human makes the intended ready count positive |
| Roster.ActiveSlots | src/ibattle.cpp:286-293 | the teams (or allies) of the playing humans, one per player |
| Roster.ActiveOn | src/ibattle.cpp:286-293 | the number of playing humans on one team (or ally) |
| Roster.ActiveSlotsCount | src/ibattle.cpp:286-293 | each team occurs in the slot list as often as it has playing humans |
| Roster.RecountedSizesMeaning | src/ibattle.cpp:280-293 | after the recount each team's (ally's) size is its number of playing humans, and exactly the occupied ones are present |
| Roster.RecountStep | src/ibattle.cpp:282-295 | one loop turn adds the user's contribution to each count and size |
| Roster.SizesStep | src/ibattle.cpp:291-292 | the recounted sizes of a list are those of its prefix joined by the last user, if that user plays |
| Roster.EveryoneReadyPrefix | src/ibattle.cpp:354-366 | everyone being ready in the whole list implies it for every prefix |
| Roster.PrefixMissesLastUsers | src/ibattle.cpp:356 | with one bot and one human who is not ready, checking the first GetNumPlayers() users reports everyone ready, while the whole list does not |
| ScriptRebuild.PlayerCount | src/ibattle.cpp:1061-1063 | the number of player sections: NumUsers when positive, else NumPlayers |
| ScriptRebuild.IndexInSequence | src/ibattle.cpp:1128-1129 | the first index holding the side name, or -1 exactly when it is absent |
| ScriptRebuild.PlayerSection | src/ibattle.cpp:1079-1082 | the AI section replaces the PLAYER section when present |
| ScriptRebuild.WithAllyFrame | src/ibattle.cpp:1143-1156 | joining an ally reads and writes only the ally sizes, the ally cache and the rectangles |
| ScriptRebuild.BotSectionWins | src/ibattle.cpp:1079-1114 | a player with an AI section is listed as a bot under its Name with its ShortName, and the counters are untouched |
| ScriptRebuild.TeamCacheStep | src/ibattle.cpp:1116-1132 | one player turn leaves a cached TEAM section as read |
| ScriptRebuild.TeamParsedOnce | src/ibattle.cpp:1116-1132 | every TEAM section is read at most once in the whole loop |
| ScriptRebuild.AllyCacheStep | src/ibattle.cpp:1143-1156 | one player turn leaves a cached ALLYTEAM section as read |
| ScriptRebuild.AllyParsedOnce | src/ibattle.cpp:1143-1156 | every ALLYTEAM section is read at most once in the whole loop |
| ScriptRebuild.RectsStep | src/ibattle.cpp:1143-1156 | one player turn adds rectangles only as the script says |
| ScriptRebuild.SeatRects | src/ibattle.cpp:1116-1156 | seating one player adds rectangles only as the script says |
| ScriptRebuild.AllyRects | src/ibattle.cpp:1143-1156 | joining an ally adds at most one rectangle, whose left edge is its top edge (line 1154) |
| ScriptRebuild.RectsLeftFromTop | src/ibattle.cpp:1078-1160 | every rectangle the whole script adds has its left edge equal to its top edge |
| ScriptRebuild.CountersStep | src/ibattle.cpp:1092-1101 | one player section raises the ready, sync and ok counters by the same amount, never lowers them, and adds at most one spectator |
| ScriptRebuild.CountersAgree | src/ibattle.cpp:1092-1101 | the ready, sync and ok counters rise together and never fall over the loop |
| ScriptRebuild.SpectatorsBounded | src/ibattle.cpp:1086-1094 | each player section adds at most one spectator |
| ScriptRebuild.DemoUsers | src/ibattle.cpp:1159 | the demo users of the loop are listed, with distinct nicks |
| ScriptRebuild.DemoStep | src/ibattle.cpp:1159 | one player turn keeps the demo users listed and the nicks distinct |
| ScriptRebuild.SeatKeepsUsers | src/ibattle.cpp:1083-1101 | seating a player does not list it yet; its status is from the demo, ready and synced |
| ScriptRebuild.OccupancyStep | src/ibattle.cpp:1078-1160 | one player section keeps the team and ally sizes and the rectangles well formed |
| ScriptRebuild.OccupancyStaysValid | src/ibattle.cpp:1078-1160 | the loop keeps the sizes and rectangles well formed |
| SettingsStore.SetHostingPreset | src/ibattle.cpp:902-938 | storing a category's options reads back as stored, keeps all other entries, and lists the preset |
| SettingsStore.Without | src/ibattle.cpp:950-956 | the preset list without the name, the rest kept |
| SettingsStore.DeletePreset | src/ibattle.cpp:950-956 | a deleted preset is no longer listed and has no stored options |
| Presets.PresetIndex | src/ibattle.cpp:827-836 | the first stored preset name equal to the name up to case, as the lowering `lower` passed in folds it, or -1 when none is |
| Presets.FixPresetName | src/ibattle.cpp:827-836 | `FixPresetName`: a stored name equal up to case (under `lower`), "" exactly when none is |
| Presets.NonAsciiFound | src/ibattle.cpp:831 | a lowering that folds a non-ASCII letter lets "ärger" find the stored "Ärger" |
| Presets.SaveName | src/ibattle.cpp:899-900 | the name saved under: the stored variant when there is one, the given name otherwise |
| Presets.PresetIndexAppend | src/ibattle.cpp:899-910 | a newly listed preset is the one its name finds |
| Presets.SavedNameFound | src/ibattle.cpp:899-910 | after saving, `FixPresetName` finds the saved preset under the given name |
| Presets.Applied | src/ibattle.cpp:847-853 | applying stored options to a category keeps the category's keys |
| Presets.AppliedSelf | src/ibattle.cpp:847-853 | loading a category's own options back changes nothing |
| Presets.AppliedStep | src/ibattle.cpp:847-853 | setting the options one key at a time in map order is applying them all |
| Presets.RestrictionTokens | src/ibattle.cpp:930-934 | one non-empty `unit=count` token per restricted unit, tab-free when the names are |
| Presets.EncodeFirst | src/ibattle.cpp:930-934 | the restriction string starts with the least unit's tab-terminated token |
| Presets.EncodeStep | src/ibattle.cpp:930-934 | appending the next token in map order extends the string |
| Presets.TokenRoundTrip | src/ibattle.cpp:880-885 | a token gives back its unit name and count |
| Presets.ApplyTokensOf | src/ibattle.cpp:880-885 | restricting each token's unit in turn adds the whole map |
| Presets.RestrictionsRoundTrip | src/ibattle.cpp:880-885 | decoding the saved restriction string gives the restrictions back |
| Presets.SplitAtUnderscore | src/ibattle.cpp:919-923 | two keys of the form `text_rest` with `_`-free texts are equal only when both parts are |
| Presets.RectKeyInjective | src/ibattle.cpp:919-923 | rectangle keys of different numbers or fields differ |
| Presets.RectKeyIsNotOther | src/ibattle.cpp:919-928 | no rectangle key is `mapname`, `numrects` or `restrictions` |
| Presets.RectKeysDistinct | src/ibattle.cpp:919-923 | a rectangle's five keys are pairwise distinct |
| Presets.RectEntriesLookup | src/ibattle.cpp:919-923 | each field of a saved rectangle is stored under its own key |
| Presets.RectEntriesKeys | src/ibattle.cpp:919-923 | a saved rectangle writes only its own keys |
| Presets.OkAllies | src/ibattle.cpp:916-918 | the allies below n whose rectangle is in use, each once, in increasing order |
| Presets.SaveRectStep | src/ibattle.cpp:916-927 | one loop turn writes the next rectangle in use under the next number, and skips one not in use |
| Presets.WriteRectEntries | src/ibattle.cpp:919-923 | writing the five keys one by one adds the rectangle's entries |
| Presets.SavedRectsAt | src/ibattle.cpp:912-928 | the k-th saved rectangle's fields are found under its keys |
| Presets.AllyRoundTrip | src/ibattle.cpp:872-877 | the ally stored one higher reads back as the ally, except ally 0xFFFFFFFF, which reads back as 0 |
| Presets.CoordRoundTrip | src/ibattle.cpp:872-877 | an edge coordinate reads back unchanged |
| Presets.LoadStepOfSaved | src/ibattle.cpp:872-877 | loading one saved rectangle adds it again |
| Presets.LoadSavedRects | src/ibattle.cpp:872-877 | loading the saved entries restores each saved rectangle |
| Presets.SavedRectsKeys | src/ibattle.cpp:912-928 | every saved key belongs to a saved rectangle |
| Presets.SavedEntryInPreset | src/ibattle.cpp:910-936 | the private category holds every rectangle entry |
| Presets.SavedEntriesKept | src/ibattle.cpp:910-936 | a category that keeps the private entries keeps the rectangle entries and their count |
| Presets.RectsRoundTrip | src/ibattle.cpp:866-877 | loading a saved preset restores every rectangle in use, as a new addition |
| Presets.OkIsSaved | src/ibattle.cpp:916-918 | every rectangle in use is saved |
| Presets.RestrictionsPresetRoundTrip | src/ibattle.cpp:880-885 | the restrictions read back from a saved private category are the saved ones |
| Battle.LoadedMap | src/ibattle.cpp:687-700 | `LoadMap`: once loaded nothing changes; a new local map is the index's map for the host's name and only when it exists with the host's hash |
| Battle.LoadedMod | src/ibattle.cpp:737-750 | `LoadMod`, the same for the game |
| Battle.LoadedMapIdempotent | src/ibattle.cpp:687-700 | loading the map twice is loading it once |
| Battle.LoadedModIdempotent | src/ibattle.cpp:737-750 | loading the game twice is loading it once |
| Battle.ReadyUpAfter | src/ibattle.cpp:299-312 | the ready-up map after a status update: a bot changes nothing; a human is waiting iff playing and not ready-and-synced, keeping its first waiting time; others untouched |
| Battle.Repeat | src/ibattle.cpp:335-338 | n copies of one host message |
| Battle.MarkedAllNoneOk | src/ibattle.cpp:866-869 | marking every ally up to the last puts every rectangle out of use and changes only the delete marks |
| Battle.MarkStep | src/ibattle.cpp:866-869 | one marking turn marks an in-use rectangle for deletion and leaves others |
| Battle.ResetMe | src/ibattle.cpp:808 | resetting me to playing keeps the list's length, nicks and distinctness |
| Battle.StoreCategoriesSnoc | src/ibattle.cpp:902-938 | storing one more category is one more `SetHostingPreset` |
| Battle.StoreCategoriesReadBack | src/ibattle.cpp:902-938 | every stored category reads back, other presets are untouched, and the preset is listed |
| Battle.StoreCategoriesList | src/ibattle.cpp:902-938 | saving lists the preset once, at the end when it is new |
| Battle.SavedCategories | src/ibattle.cpp:902-938 | one entry per category: the battle's options, and the private category of map name, rectangles and restrictions |
| Battle.LoadedOptions | src/ibattle.cpp:845-853 | loading keeps the categories present |
| Battle.LocalMapSet | src/ibattle.cpp:673-684 | `SetLocalMap` changes the state only for a non-empty name, to the index's map |
| Battle.PrivateLoadKeepsOthers | src/ibattle.cpp:855-864 | loading the private category changes no other stored category |
| Battle.LoadedSavedOptions | src/ibattle.cpp:845-853 | loading categories saved from the same options changes none of them |
| Battle.SavedPresetFound | src/ibattle.cpp:897-899 | a preset saved under a name is found again by that name |
| Battle.SavedOptionsLoaded | src/ibattle.cpp:845-854 | loading the categories of a preset saved from the same options changes none of them |
| Battle.LoadedSavedStep | src/ibattle.cpp:845-854 | loading one category stored as the options have it leaves the options unchanged |
| Battle.SavedPrivateRead | src/ibattle.cpp:910-936 | the private category of a saved preset reads back as the map, rectangles and restrictions it was saved with |
| Presets.SavedCountReadBack | src/ibattle.cpp:872 | the stored rectangle count reads back as the number of rectangles saved |
| Presets.LoadSavedAt | src/ibattle.cpp:873-877 | loading saved rectangle k re-adds it, unless its ally is the largest unsigned one, which is skipped |
| Presets.RestoreStep | src/ibattle.cpp:873-877 | one more loaded rectangle keeps every rectangle loaded so far restored |
| Battle.PresetRoundTrip | src/ibattle.cpp:839-941 | saving then loading a preset finds it under its name, gives back the options and restrictions, and restores every rectangle in use when start positions are chosen |
| Battle.LookAt | src/ibattle.cpp:810-817 | in the loop of `OnSelfLeftBattle`, index j looks at the next original user, and removing a bot keeps the same j |
| Battle.LoopDone | src/ibattle.cpp:810 | the loop ends once every original user has been looked at |
| Battle.CountStep | src/ibattle.cpp:810-817 | removing a spectator bot while hosting counts and announces one spectator less |
| Battle.Joining | src/ibattle.cpp:217-220 | a joining user's status: playing, not ready, sync unknown, bot or not as before |
| Battle.PlacedFree | src/ibattle.cpp:226-230 | a free position found on the loaded map is the placement `OnUserAdded` makes |
| Battle.GameReadFromParts | src/ibattle.cpp:1043-1173 | reading the host and then, with a named map, the players is the whole GAME section's effect |
| Battle.IBattle.constructor | src/ibattle.cpp:42-54 | an empty battle: no users, bots, rectangles, sizes or counts; default options |
| Battle.IBattle.PlayerJoinedTeam | src/ibattle.cpp:532-537 | the team sizes become `Joined` of the old ones |
| Battle.IBattle.PlayerJoinedAlly | src/ibattle.cpp:539-544 | the ally sizes become `Joined` of the old ones |
| Battle.IBattle.PlayerLeftTeam | src/ibattle.cpp:546-555 | the team sizes become `Left` of the old ones |
| Battle.IBattle.PlayerLeftAlly | src/ibattle.cpp:557-566 | the ally sizes become `Left` of the old ones |
| Battle.IBattle.AddStartRect | src/ibattle.cpp:370-385 | the rectangles become `StartRects.Add` of the old ones |
| Battle.IBattle.RemoveStartRect | src/ibattle.cpp:389-399 | the rectangles become `MarkRemoved` of the old ones |
| Battle.IBattle.ResizeStartRect | src/ibattle.cpp:402-412 | the rectangles become `MarkResized` of the old ones |
| Battle.IBattle.StartRectRemoved | src/ibattle.cpp:415-422 | the rectangles become `ConfirmRemoved` of the old ones |
| Battle.IBattle.StartRectResized | src/ibattle.cpp:425-435 | the rectangles become `ConfirmResized` of the old ones |
| Battle.IBattle.StartRectAdded | src/ibattle.cpp:438-448 | the rectangles become `ConfirmAdded` of the old ones |
| Battle.IBattle.GetNextFreeRectIdx | src/ibattle.cpp:476-484 | the lowest ally whose rectangle is not in use |
| Battle.IBattle.ClearStartRects | src/ibattle.cpp:486-489 | no rectangles are left |
| Battle.IBattle.ForceSide | src/ibattle.cpp:491-496 | when hosting, or for a bot, only the user's side changes; otherwise nothing does |
| Battle.IBattle.ForceTeam | src/ibattle.cpp:498-508 | the user's team changes, and a playing user leaves its old team and joins the new one; nothing changes unless hosting or for a bot |
| Battle.IBattle.ForceAlly | src/ibattle.cpp:510-522 | the same for the ally |
| Battle.IBattle.ForceColour | src/ibattle.cpp:524-530 | the user's colour changes when hosting or for a bot |
| Battle.IBattle.SetHandicap | src/ibattle.cpp:599-604 | the user's handicap changes when hosting or for a bot |
| Battle.IBattle.ForceSpectator | src/ibattle.cpp:568-597 | the spectator flag, the sizes and ready count as written, and the host's spectator count and announcement when the flag flips |
| Battle.IBattle.SwitchOccupancy | src/ibattle.cpp:573-583 | the sizes and ready count of ForceSpectator, as written |
| Battle.IBattle.GetPlayerNum | src/ibattle.cpp:97-104 | found exactly when the nick is listed, and then its index in the list, which is kept in nick order; -1 otherwise |
| Battle.IBattle.GetMyPlayerNum | src/ibattle.cpp:1006-1009 | the index of me in the nick-ordered list, found exactly when I am listed |
| Battle.IBattle.GetFreeTeam | src/ibattle.cpp:178-195 | the lowest team no counted player holds |
| Battle.IBattle.GetFreeAlly | src/ibattle.cpp:614-631 | the lowest ally no counted player holds |
| Battle.IBattle.SetHostMap | src/ibattle.cpp:660-670 | an empty name fails; a new map replaces the host map and unloads it; the same one changes nothing |
| Battle.IBattle.SetLocalMap | src/ibattle.cpp:673-684 | a non-empty name of a different map makes it the loaded local map; otherwise nothing changes |
| Battle.IBattle.LoadMap | src/ibattle.cpp:687-700 | the state becomes `LoadedMap`, and the local map is returned |
| Battle.IBattle.SetHostMod | src/ibattle.cpp:715-724 | the host game is replaced; it stays loaded only when it is the same |
| Battle.IBattle.SetLocalMod | src/ibattle.cpp:727-734 | a different game becomes the loaded local game, remembering the previous name |
| Battle.IBattle.LoadMod | src/ibattle.cpp:737-750 | the state becomes `LoadedMod`, and the local game is returned |
| Battle.IBattle.IsSynced | src/ibattle.cpp:66-83 | after loading both, synced iff the local map and game match the host's and both exist in the index |
| Battle.IBattle.GetFreePosition | src/ibattle.cpp:633-657 | after loading the map, a free position as `Allocators.FreePosition` states it |
| Battle.IBattle.RestrictUnit | src/ibattle.cpp:781-784 | the unit is restricted to the count |
| Battle.IBattle.UnrestrictUnit | src/ibattle.cpp:787-792 | the unit alone is no longer restricted |
| Battle.IBattle.UnrestrictAllUnits | src/ibattle.cpp:795-798 | no unit is restricted |
| Battle.IBattle.SetScript | src/replaylist.cpp:67 | the start script is the one given |
| Battle.IBattle.SetPlayBackFilePath | src/replaylist.cpp:54 | the playback path is the one given |
| Battle.IBattle.SetEngineName | src/replaylist.cpp:77 | the engine name is the one given |
| Battle.IBattle.SetEngineVersion | src/replaylist.cpp:78 | the engine version is the one given |
| Battle.IBattle.SetBattleType | src/replaylist.cpp:76 | the battle type is the one given |
| Battle.IBattle.GetBattleFromScript | src/ibattle.cpp:1035-1176 | the state after rebuilding is `ScriptRead` of the state before and the parsed script: host game and map, the player loop's users, sizes, rectangles and counters, and the options |
| Battle.IBattle.ReadGame | src/ibattle.cpp:1043-1173 | the GAME section's effect on the state |
| Battle.IBattle.ReadHost | src/ibattle.cpp:1044-1055 | the host game and map from the GAME section, hashes as written |
| Battle.IBattle.ReadPlayers | src/ibattle.cpp:1059-1172 | the player loop's state is `ScriptFold` over the player count, and the options hold the spectators and that count as maximum players |
| Battle.IBattle.ReadPlayer | src/ibattle.cpp:1078-1160 | one loop turn is `PlayerStep` |
| Battle.IBattle.SeatFromSection | src/ibattle.cpp:1083-1156 | one player section is `SeatPlayer` |
| Battle.IBattle.JoinTeamFromSection | src/ibattle.cpp:1116-1141 | the team part of a section is `JoinTeam` |
| Battle.IBattle.CountSeat | src/ibattle.cpp:1086-1101 | a playing user joins its team and counts as ready, synced and ok when human; a spectator counts as one more spectator |
| Battle.IBattle.SectionStatus | src/ibattle.cpp:1083-1093 | the status read from a section is `PlayerStatus` |
| Battle.IBattle.LookUpTeam | src/ibattle.cpp:1116-1132 | the team info is the cached one or read once, and cached |
| Battle.IBattle.JoinAlly | src/ibattle.cpp:1139-1156 | the ally part of a section is `WithAlly` |
| Battle.IBattle.LookUpAlly | src/ibattle.cpp:1143-1156 | a first read ALLYTEAM section is cached and adds its rectangle, with the top edge as left edge |
| Battle.IBattle.LoadOptionsPreset | src/ibattle.cpp:839-894 | found iff the name matches a stored preset up to case (under `lower`); not found changes nothing; found loads every category, the map, rectangles and restrictions, and sends the host messages |
| Battle.IBattle.LoadCategories | src/ibattle.cpp:845-891 | the category loop's effect |
| Battle.IBattle.LoadEachCategory | src/ibattle.cpp:845-890 | the category loop from the first to the last category |
| Battle.IBattle.LoadCategory | src/ibattle.cpp:846-889 | one category: its options applied, and for the private category the map, rectangles and restrictions |
| Battle.IBattle.SetOptions | src/ibattle.cpp:847-853 | a known category gets the stored options applied |
| Battle.IBattle.SetSingleOption | src/ibattle.cpp:850-852 | a known key of a known category gets the value; otherwise nothing changes |
| Battle.IBattle.LoadPrivateOptions | src/ibattle.cpp:855-887 | the private category's map, rectangles and restrictions are loaded |
| Battle.IBattle.LoadPresetLayout | src/ibattle.cpp:866-886 | the old rectangles are marked for deletion, the saved ones added, and the restrictions decoded |
| Battle.IBattle.LoadPresetMap | src/ibattle.cpp:855-864 | a known map is set and announced; an unknown one is cleared from the preset unless the user downloads it |
| Battle.IBattle.MarkPresetRects | src/ibattle.cpp:866-870 | every rectangle up to the last ally is marked for deletion |
| Battle.IBattle.LoadPresetRects | src/ibattle.cpp:872-878 | the saved rectangles are added again, numbered up to the stored count |
| Battle.IBattle.LoadPresetRestrictions | src/ibattle.cpp:880-886 | the restrictions are those the stored string decodes to |
| Battle.IBattle.SaveOptionsPreset | src/ibattle.cpp:897-941 | the preset is saved under `SaveName`, with every category as `SavedCategories` states |
| Battle.IBattle.StoreOptions | src/ibattle.cpp:902-938 | the category loop stores `SavedCategories` |
| Battle.IBattle.PrivateOptionsMap | src/ibattle.cpp:910-936 | the private category is `PrivatePreset` |
| Battle.IBattle.SaveRects | src/ibattle.cpp:912-928 | the rectangles in use are written under consecutive numbers, and their count |
| Battle.IBattle.WriteRect | src/ibattle.cpp:919-923 | one rectangle's five entries |
| Battle.IBattle.RestrictionsString | src/ibattle.cpp:930-934 | the restrictions encoded in unit order |
| Battle.IBattle.DeletePreset | src/ibattle.cpp:950-956 | the preset found for the name is deleted from the store, and the current preset forgotten when it was that one |
| Battle.IBattle.SetProxy | src/ibattle.cpp:974-977 | the proxy host is the one given |
| Battle.IBattle.SetInGame | src/ibattle.cpp:1178-1183 | in game with the start time now, or out of game with start time 0 |
| Battle.IBattle.GetBattleRunningTime | src/ibattle.cpp:1185-1190 | 0 when not running; otherwise the start time plus the result is now |
| Battle.IBattle.AddUserFromDemo | src/ibattle.cpp:967-972 | the user, marked from the demo, is recorded and listed |
| Battle.IBattle.OnUserAdded | src/ibattle.cpp:214-243 | `AddedAs`: the user is listed reset; when hosting a played battle a human gets the lowest free team and ally and the free colour; when hosting, a user without a position gets the first free one; it joins its team and ally, and a human starts waiting to be ready |
| Battle.IBattle.Place | src/ibattle.cpp:216-230 | listing, slot assignment and placement as `AddedAs` states them |
| Battle.IBattle.Seat | src/ibattle.cpp:231-241 | joining the team and ally, and a human's ready-up time |
| Battle.IBattle.AssignSlots | src/ibattle.cpp:221-225 | the team, ally and colour part |
| Battle.IBattle.AssignPosition | src/ibattle.cpp:226-230 | the start position part |
| Battle.IBattle.TakeFreePosition | src/ibattle.cpp:227-229 | the host places the user on the first free position |
| Battle.IBattle.OnBotAdded | src/ibattle.cpp:245-252 | the bot is owned, its new user's default status is updated with the given one (`Merged`), and it is added as `OnUserAdded` adds a user |
| Battle.IBattle.OnUserBattleStatusUpdated | src/ibattle.cpp:269-313 | the update is merged into the user's status (`Merged`), so a bot stays a bot; spectators, sync, ok and sizes are recounted over all users (ready as written: 0); the host announces a changed spectator count; the ready-up map is updated |
| Battle.IBattle.StoreAndRecount | src/ibattle.cpp:274-295 | the merged status and the recount |
| Battle.IBattle.Recount | src/ibattle.cpp:275-295 | every count and size is the `Roster` count of the users |
| Battle.IBattle.CountUser | src/ibattle.cpp:284-293 | one user's contribution to each count |
| Battle.IBattle.TrackReadyUp | src/ibattle.cpp:299-312 | the ready-up map becomes `ReadyUpAfter` |
| Battle.IBattle.IsEveryoneReady | src/ibattle.cpp:354-366 | as written: true iff every human player other than me among the first GetNumPlayers() users, in nick order, is ready and synced |
| Battle.IBattle.IsEveryoneReadyCorrected | src/ibattle.cpp:354-366 | true iff every human player other than me in the whole list is ready and synced |
| Battle.IBattle.ShouldAutoStart | src/ibattle.cpp:315-321 | as written: true iff not in game, full or locked, and every human player other than me among the first GetNumPlayers() users is ready and synced |
| Battle.IBattle.ShouldAutoStartIntended | src/ibattle.cpp:315-321 | with the corrected readiness test: true iff not in game, full or locked, and every listed human player other than me is ready and synced |
| Battle.IBattle.Withdraw | src/ibattle.cpp:325-338 | a playing user leaves its team and ally; a human leaves the counters; the host counts and announces a leaving spectator |
| Battle.IBattle.Drop | src/ibattle.cpp:342-350 | the user is unlisted, and a bot is no longer owned |
| Battle.IBattle.RemoveOther | src/ibattle.cpp:323-351 | `RemovedAs` for another user |
| Battle.IBattle.OnUserRemoved | src/ibattle.cpp:323-351 | `RemovedAs`: the user leaves occupancy, counters and list; when it is me, every bot goes and the rectangles, sizes and counters are cleared |
| Battle.IBattle.RemoveMe | src/ibattle.cpp:323-351 | `RemovedAs` for me |
| Battle.IBattle.WithdrawAndLeave | src/ibattle.cpp:325-340 | my withdrawal followed by `OnSelfLeftBattle` |
| Battle.IBattle.KickPlayer | src/ibattle.cpp:607-612 | when hosting, or for a bot, the user is removed as `RemovedAs` states; otherwise nothing changes |
| Battle.IBattle.OnSelfLeftBattle | src/ibattle.cpp:806-825 | `SelfLeftAs`: me reset to playing, every bot removed (spectator bots counted and announced by the host), the rectangles, sizes and counters cleared |
| Battle.IBattle.RemoveBotsAndClear | src/ibattle.cpp:810-823 | the bots go, then the aggregates are cleared |
| Battle.IBattle.ResetMeToPlaying | src/ibattle.cpp:808-809 | me is playing and no longer in the battle |
| Battle.IBattle.ClearAggregates | src/ibattle.cpp:818-823 | no rectangles, sizes or counts |
| Battle.IBattle.RemoveAllBots | src/ibattle.cpp:810-817 | the survivors are the non-bots, the owned bots lose the removed nicks, and each spectator bot is counted and announced |
| Battle.IBattle.VisitAllUsers | src/ibattle.cpp:810-817 | the loop from the first to the last original user |
| Battle.IBattle.VisitUser | src/ibattle.cpp:811-816 | one loop turn |
| Battle.IBattle.RemoveBotAt | src/ibattle.cpp:812-815 | the bot at index j is removed as `OnUserRemoved` removes it |
| Battle.IBattle.MeIsNoBot | src/ibattle.cpp:810-817 | when me is not a bot, no entry with my nick is a bot |
| Playback.Slice | src/replaylist.cpp:45 | a read delivers at most the bytes asked for |
| Playback.Padded | src/replaylist.cpp:44-45 | a zero-initialised buffer partly overwritten keeps its size |
| Playback.LEPadded | src/replaylist.cpp:44-45 | the zero bytes left past a short read do not change the little-endian value |
| Playback.LESlice | src/replaylist.cpp:45 | the value a read delivers is the field's value |
| Playback.ReadField | src/replaylist.cpp:102-109 | a field read into a wider zeroed variable has the field's value |
| Playback.Bytes | src/replaylist.cpp:112-113 | the script buffer: the file's bytes, zero past the end |
| Playback.ReadBytes | src/replaylist.cpp:112-113 | reading into the zero-filled script buffer gives `Bytes` |
| Playback.WxFile.constructor | src/replaylist.cpp:61 | the file opens iff it exists and is readable; its data, position 0 |
| Playback.WxFile.Seek | src/replaylist.cpp:41 | an open file seeks to a non-negative offset; otherwise the seek fails and the position stays |
| Playback.WxFile.Read | src/replaylist.cpp:45 | the bytes from the position, as many as there are, and the position advances by them |
| Playback.StoredGame.constructor | src/replaylist.cpp:29 | an empty entry with a fresh, empty battle |
| Playback.RebuiltCompletes | src/ibattle.cpp:1035-1176 | rebuilding throws exactly on the scripts that do not complete |
| Playback.RebuildBattle | src/replaylist.cpp:74 | `GetBattleFromScript(false)` on the entry's battle, completing iff the script completes |
| Playback.AddThenRemove | src/replaylist.cpp:29-33 | adding an entry under a new key and removing it gives back the entries |
| Playback.FirstThrown | src/replaylist.cpp:27-35 | the first file whose reading throws, or the number of files |
| Playback.KeptPrefix | src/replaylist.cpp:27-35 | the entries kept when the loop stops |
| Playback.CountFailedSnoc | src/gui/playback/savegamelist.cpp:37-41 | the failure count grows by one exactly at a failed file |
| Playback.CountFailedBounded | src/gui/playback/savegamelist.cpp:37-41 | at most every file fails, and all do iff the count is the number of files |
| Replays.HeaderOffsets | src/replaylist.cpp:104-119 | the script length is at 64, the duration at 72, both 240 further from version 5 on |
| Replays.ReplayScriptShape | src/replaylist.cpp:94-115 | the script is empty iff the file is not open, the header size is negative or the clamped length is 0; otherwise it has that length, taken from the header offset |
| Replays.ReplayScriptZeroPastEnd | src/replaylist.cpp:112-113 | the script's bytes past the end of the file are zero |
| Replays.SplitReplayName | src/replaylist.cpp:55-56 | a name `map_version.ext` gives the map and the version |
| Replays.FileNameOfPath | src/replaylist.cpp:51 | the file name is the part after the last separator |
| Replays.ReplayOutcomes | src/replaylist.cpp:27-35 | one outcome per file |
| Replays.ReplayOutcomeAt | src/replaylist.cpp:27-35 | the i-th outcome is that of the i-th file |
| Replays.ListedAdd | src/replaylist.cpp:29-30 | an entry named after its file, and read in full when it succeeded, may join the list |
| Replays.ReplayList.constructor | src/replaylist.cpp:20-22 | an empty list |
| Replays.ReplayList.AddPlayback | src/replaylist.cpp:29 | a new entry under key i |
| Replays.ReplayList.RemovePlayback | src/replaylist.cpp:33 | the entry under key i is gone |
| Replays.ReplayList.LoadPlaybacks | src/replaylist.cpp:24-36 | throws iff some file's rebuild throws; keeps exactly the successful files before the first throw; each kept entry is read in full |
| Replays.ReplayList.LoadPlayback | src/replaylist.cpp:28-34 | one file: its outcome, kept unless failed |
| Replays.ReplayList.AddReplay | src/replaylist.cpp:29-30 | a new entry read from the file |
| Replays.ReplayList.ReplayVersion | src/replaylist.cpp:39-47 | the version at offset 16, 0 when the seek fails |
| Replays.ReplayList.GetScriptFromReplay | src/replaylist.cpp:94-115 | the script is `ReplayScript` of the file, the cursor where the reads leave it |
| Replays.ReplayList.ScriptBounds | src/replaylist.cpp:98-110 | the header size and clamped script length |
| Replays.ReplayList.GetHeaderInfo | src/replaylist.cpp:117-138 | an open file gives the duration, size and start time as text |
| Replays.ReplayList.ReadDuration | src/replaylist.cpp:119-126 | the duration and size |
| Replays.ReplayList.ReadStartTime | src/replaylist.cpp:128-136 | the start time as text |
| Replays.ReplayList.GetReplayInfos | src/replaylist.cpp:49-92 | the outcome is `ReplayOutcome`; the entry is named after the path, and a success reads it in full |
| Replays.ReplayList.ReadReplayFile | src/replaylist.cpp:58-92 | the file part of `GetReplayInfos` |
| Replays.ReplayList.OpenReplay | src/replaylist.cpp:58-67 | opens iff the file exists and opens, and then the script is read |
| Replays.ReplayList.ReadHeaderAndBattle | src/replaylist.cpp:73-92 | the header, the rebuilt battle and the date |
| Replays.ReplayList.NameAfter | src/replaylist.cpp:51-56 | the fields the path gives |
| Replays.ReplayList.ReadBattle | src/replaylist.cpp:74-92 | the rebuild, the game's name, the battle type, engine and date |
| Replays.ReplayList.MarkReplay | src/replaylist.cpp:75-79 | the game's name from the battle, a replay of spring at the name's version |
| Replays.ReplayList.ReadDate | src/replaylist.cpp:82-89 | the date from the file name and its text, false and nothing changed when it does not parse |
| Savegames.InputStream.constructor | src/gui/playback/savegamelist.cpp:72 | the stream opens iff the file exists; position 0; failed iff not open |
| Savegames.InputStream.Read | src/gui/playback/savegamelist.cpp:79 | the next byte, or the old character and a failed stream at the end |
| Savegames.FirstZero | src/gui/playback/savegamelist.cpp:77-81 | the index of the first zero byte, or the length |
| Savegames.FirstZeroAt | src/gui/playback/savegamelist.cpp:77-81 | any index with no zero before it and a zero (or the end) at it is `FirstZero` |
| Savegames.ScriptHasNoZero | src/gui/playback/savegamelist.cpp:80 | the script holds no zero byte |
| Savegames.ScriptStopsAtZero | src/gui/playback/savegamelist.cpp:77-81 | a file with a zero byte gives the bytes before the first one |
| Savegames.ScriptDoublesLastByte | src/gui/playback/savegamelist.cpp:77-81 | a non-empty file without a zero gives its bytes with the last one twice, as the loop re-appends the unchanged character after the failed read |
| Savegames.ScriptPrefix | src/gui/playback/savegamelist.cpp:77-81 | the script starts with the bytes before the first zero and is at most one longer |
| Savegames.EmptyScripts | src/gui/playback/savegamelist.cpp:69-84 | an unopened file gives an empty script; an empty file gives one iff the uninitialised character is zero |
| Savegames.SavegameOutcomes | src/gui/playback/savegamelist.cpp:31-41 | one outcome per file |
| Savegames.SavegameOutcomeAt | src/gui/playback/savegamelist.cpp:31-41 | the i-th outcome is that of the i-th file |
| Savegames.ListedAdd | src/gui/playback/savegamelist.cpp:35-37 | an entry named after its file, and read in full when it succeeded, may join the list |
| Savegames.SavegameList.constructor | src/gui/playback/savegamelist.cpp:21-23 | an empty list, no failures |
| Savegames.SavegameList.AddPlayback | src/gui/playback/savegamelist.cpp:35 | a new entry under key i |
| Savegames.SavegameList.RemovePlayback | src/gui/playback/savegamelist.cpp:39 | the entry under key i is gone |
| Savegames.SavegameList.LoadPlaybacks | src/gui/playback/savegamelist.cpp:26-43 | throws iff some rebuild throws; keeps exactly the successful files before the first throw; the failure count is the failed files before it |
| Savegames.SavegameList.LoadPlayback | src/gui/playback/savegamelist.cpp:34-41 | one file: its outcome, kept unless failed, counted when failed |
| Savegames.SavegameList.AddSavegame | src/gui/playback/savegamelist.cpp:35-37 | a new entry read from the file |
| Savegames.SavegameList.GetSavegameInfos | src/gui/playback/savegamelist.cpp:45-67 | the outcome is `SavegameOutcome`: an empty path or script fails; the entry is named after the path, and a success reads it in full |
| Savegames.SavegameList.NameAfter | src/gui/playback/savegamelist.cpp:50-52 | the fields the path gives |
| Savegames.SavegameList.ReadSavegameFile | src/gui/playback/savegamelist.cpp:55-66 | the script, the rebuilt battle, game name, type and size |
| Savegames.SavegameList.MarkSavegame | src/gui/playback/savegamelist.cpp:62-64 | the game's name from the battle, a savegame battle, the file's size |
| Savegames.SavegameList.GetScriptFromSavegame | src/gui/playback/savegamelist.cpp:69-84 | the loop reads `SavegameScript` of the file |

## Left out

- GetFreeColour, GetFixColoursPalette, GetFixColour and GetNewColour: the palette is not part of this model, so the colour `OnUserAdded` assigns is an input.
- LoadScriptMMOpts (src/ibattle.cpp:1012-1032): both playback lists call `GetBattleFromScript(false)`, which does not reach it.
- The user's rank and country code are not modelled. No modelled operation reads them.
- The TDF parser and `ColorFromFloatString` are function parameters. The script's grammar is not part of this model.
- `MakeHashUnsigned` is a function parameter (`hashFn`).
- The assertion `LoadMod` makes on an empty game name is not modelled.
- Exceptions (`ASSERT_LOGIC`, `ASSERT_EXCEPTION`, a throwing `GetBattleFromScript`) are modelled as result flags (`ok`, `completed`, `Thrown`), not as unwinding.
- Integers are unbounded except where the source's width matters. Those places are written out with `Text.U32`, `Text.I32` and `Text.I64`.
- UI calls (`ui()`, `ui().Download`), wxLog messages and `Update()` notifications are left out. The user's answer to the download question is a parameter.
- `UserPositionChanged` has an empty body and is not modelled.
- `SetBattleOptions` is replaced by assigning the options it would set.
- Battle.IBattle.SetSingleOption: does not check an option's value against its type. The option values unitsync loads (`loadOptions`) are not part of this model.
- User identity (`&user == &GetMe()`) is nick equality. Nicks are distinct in the list.
- The operations that take a `User&` (`ForceSide`, `ForceTeam`, `ForceAlly`, `ForceColour`, `SetHandicap`, `ForceSpectator`, `OnUserBattleStatusUpdated`, `OnUserRemoved`, `KickPlayer`) take its nick and require it to be listed. The source reaches such a user through the battle's own list.
- Battle.IBattle.GetNextFreeRectIdx: requires fewer than 2^32 rectangles, so the unsigned search ends.
- Battle.IBattle.SaveOptionsPreset: requires, when start positions are chosen, that ally 0xFFFFFFFF has no rectangle. On that input the `unsigned int` loop over the rectangles (src/ibattle.cpp:916) never ends (see Findings), and a method of the model must end.
- Battle.IBattle.LoadOptionsPreset: requires, when the preset is found, that ally 0xFFFFFFFF has no rectangle. On that input the `unsigned int` marking loop (src/ibattle.cpp:866) never ends (see Findings). Such a rectangle would also not survive the round trip: its saved ally number `ally + 1` wraps to 0, which the load skips (`Presets.AllyRoundTrip`).
- Battle.IBattle.MarkPresetRects: requires that ally 0xFFFFFFFF has no rectangle, the only input on which the loop at src/ibattle.cpp:866 ends. On that input the source hangs, and `StartRects.LastAllyLoopNeverEnds` shows why.
- Battle.IBattle.SaveRects: requires that ally 0xFFFFFFFF has no rectangle, the only input on which the loop at src/ibattle.cpp:916 ends. On that input the source hangs, for the same reason.
- Battle.ChoosesStartPositions: reads "startpostype" with `ParseLong`, which needs the whole text to be digits. The source's `LSL::Util::FromString<long>` (src/ibattle.cpp:913-914) is stream extraction, which skips leading spaces and ignores trailing text. The option is stored as a plain number, so the two agree on every value it holds.
- Users.UpdateStatus: replaces the whole status. It models the direct writes to `user.BattleStatus()` (src/ibattle.cpp:494-602). `User::UpdateBattleStatus` merges the update instead, and is `Users.Merged`.
- Users.Merged: user.cpp is not part of this model. `Merged` follows `User::UpdateBattleStatus` as SpringLobby writes it: the AI name, AI version and owner are copied only when non-empty, and a start coordinate only when positive. The demo mark is kept. `NewStatus` is the default `UserBattleStatus`, with start position (-1, -1).
- Battle.IBattle.OnUserRemoved: requires that the local user, if listed, is not a bot. Otherwise the bot loop of `OnSelfLeftBattle` would remove the local user from inside its own removal.
- Battle.IBattle.KickPlayer: requires the same when the kicked user is the local one.
- Battle.IBattle.OnSelfLeftBattle: requires that the local user, if listed, is not a bot, for the same reason.
- Battle.IBattle.IsEveryoneReady: requires `GetNumPlayers() <= GetNumUsers()`, which holds when every owned bot is listed. Otherwise `GetUser(i)` would read past the list.
- Saving the settings to disk (`SaveSettings`) is not modelled. The store is a value.
- The plain accessors `GetCurrentPreset`, `GetPresetList`, `GetProxy`, `GetHostMapName`, `GetHostModHash`, `GetLocalMap`, `GetScript`, `GetServer`, `GetFounder` and the destructor are fields of the model, not members.
- GetStartRect and GetNumRects are `StartRects.Get` and the size of the rectangle map.
- `wxDateTime` and `time(0)` are the `Clock` parameter and the `now` argument.
- `TowxString`, `STD_STRING` and `mb_str` are the identity on strings.
- The host is little-endian. The path separator `SEP` is `/`.
- userlist.cpp is not part of this model. Its `UserList` is a map keyed by nick (`user_map_t`), so the model keeps the users in nick order and `GetUser(i)` is the i-th of them. The nick order is `Text.LexLe`, by character code.
- storedgame.h and the `IPlaybackList` base class are not part of this model. `AddPlayback` and `RemovePlayback` are written per list.
- Read errors other than the end of the file are not modelled.
- The uninitialised `char c` of `GetScriptFromSavegame` is a parameter (`uninit`). An empty file gives that byte.
- `wxFileName::GetSize` is the length of the file's content.
- Replays.ReplayList.GetReplayInfos: states the entry's fields and outcome. The rebuilt battle's state is stated by `Playback.RebuildBattle` alone.
- Savegames.SavegameList.GetSavegameInfos: states the entry's fields and outcome. The rebuilt battle's state is stated by `Playback.RebuildBattle` alone.
- Battle.IBattle.OnUserAdded: computes the free team and the free ally on the same list. The source assigns the team first, but `GetFreeAlly` does not read teams, so the result is the same.
- Battle.IBattle.ShouldAutoStart: requires, when it reaches the readiness test, `GetNumPlayers() <= GetNumUsers()`, for the reason given for `IsEveryoneReady`.
- Battle.IBattle.OnSelfLeftBattle: does not model the final `LSL::usync().UnSetCurrentMod()` (src/ibattle.cpp:824). The game unitsync has loaded is state of the archive library, and the model passes unitsync in as read-only queries (`Unitsync.Index`). The destructor's call of the same function (src/ibattle.cpp:60) is left out for the same reason.
- Presets.PresetIndex: compares characters through a lowering function `lower` passed in. wx folds case with `wxTolower`, which depends on the C library's locale, so the model does not fix one.
- Battle.IBattle.ForceSpectator: keeps the occupancy and ready count updates as written. The intended update is `Occupancy.ForcedIntended` (see Findings).
- Battle.IBattle.OnUserBattleStatusUpdated: keeps the ready recount as written (see Findings).

## Findings

| source | as written | input that shows it | evidently intended | confidence | as-written member | corrected member |
|---|---|---|---|---|---|---|
| src/ibattle.cpp:573-583 | `ForceSpectator` joins the team and ally when the user is currently playing, then leaves them when the user is to become a spectator | a playing user forced to spectate: the counts are unchanged, but the user should leave its team and ally | join when a spectator becomes a player, leave when a player becomes a spectator | not executed | Occupancy.ForcedAsWrittenMiscounts | Occupancy.ForcedIntended |
| src/ibattle.cpp:356 | `IsEveryoneReady` looks at the first GetNumPlayers() users only, a number that leaves out the bots, although bots are listed among them | a bot followed by a human who is not ready: only the bot is looked at, and the battle reports everyone ready | look at every listed user | not executed | Roster.PrefixMissesLastUsers | Battle.IBattle.IsEveryoneReadyCorrected |
| src/ibattle.cpp:866 | the marking loop of `LoadOptionsPreset` runs `for (unsigned int j = 0; j <= GetLastRectIdx(); ++j)` | a rectangle at ally 0xFFFFFFFF, which a script's team with AllyTeam=-1 and an ALLYTEAM-1 section adds (`ScriptRebuild.AllyMinusOneRect`): the guard always holds, because `++j` wraps from 0xFFFFFFFF to 0, and loading a preset hangs | visit every ally up to the last one once, then stop | not executed | StartRects.LastAllyLoopNeverEnds | Battle.IBattle.MarkPresetRects |
| src/ibattle.cpp:916 | the save loop of `SaveOptionsPreset` runs `for (unsigned int boxnum = 0; boxnum <= boxcount; boxnum++)` with `boxcount = GetLastRectIdx()` | the same rectangle at ally 0xFFFFFFFF, with start positions chosen in game: saving a preset hangs | visit every ally up to the last one once, then stop | not executed | StartRects.LastAllyLoopNeverEnds | Battle.IBattle.SaveRects |
| src/ibattle.cpp:288 | the recount counts a user as ready only when it is ready and a spectator, inside a branch for users that are not spectators | any ready playing human: the recount leaves the ready counter at 0 | count ready players that are not spectators | not executed | Roster.RecountLosesReadyPlayers | Roster.ReadyPlayers |

`MarkPresetRects` and `SaveRects` count in a loop variable that does not wrap, so they end; they are stated on the inputs where the source's loops end too. `ShouldAutoStart` keeps the readiness test as written, and `ShouldAutoStartIntended` states the auto-start test with the corrected one. `ForceSpectator` and the recount keep the code as written in the class, so that the counters it holds stay those the program computes. The corrected functions state what the counts should be.
