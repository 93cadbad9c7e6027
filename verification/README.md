# BotHider: a verification model

BotHider lets the bots of a CS2 server appear as players. It adopts every fake client that connects,
gives it a name and a SteamID from a configured pool, hides the engine's fake-client bits while the
game is shown to others, shows those bits again around the native calls that need them, and publishes
avatars in a network string table. This project models the state machines behind that and proves what
they are for.

The world around the plugin is abstract. Clients have flag bytes, a user id and two SteamID fields;
entities have a pointer, a handle, flag bits and a deletion mark; pointers are identity numbers. The
engine may rebind, delete or rewrite anything between two steps. String-table calls may fail, and a
failed call leaves the table as it was. One thread runs the plugin.

How the files go together:

- `Prelude`, `Engine`, `Rng`: sizes and machine integers, clients and entities with the byte-level
  effects on them, the xorshift generator.
- `Manager`, `StringTable`, `Avatar*`: the per-slot table, the string table, one reconciliation pass
  as a function (`Avatar`), its invariant (`AvatarInvariant`), what passes and whole histories
  guarantee (`AvatarTheorems`, `AvatarRuns`), what becomes of one slot (`AvatarOutcomes`), what a history
  asks for and by when it is published (`AvatarHistories`), exactly when a pass is right
  (`AvatarExactness`), the limit set by the 32-bit request counter (`AvatarWrap`, `AvatarExample`), and
  the loop that updates the runtime states in place (`AvatarReconciler`).
- `ScopedRestore`, `ScopeLaws`, `Disguise`, `Packing`: capture and restore of the fake-client bits,
  the managed disguise, FL_BOT during packing. `Population` is the machine of frames and depth
  counters, `PopulationOpens` says which calls show the bots, `PopulationTraces` has its well-nested
  runs, `PopulationAtRest` how bots look over them, `IdentityHooks` the hooks that update it.
- `BotInfo`, `Allocation`, `AllocationHooks`: the identity pool, the three tables that record who has
  which identity, and the hooks that adopt and release bots. `PluginRuns` joins them to the avatars.
- `Incarnation`, `Lifetimes`, `LifetimeEffects`, `Bridge`, `AvatarReads`: the lifetime counter, and
  everything that is asked for in one bot lifetime and carried out later, by no other lifetime, and in
  its own.
- `Png`, `Ping`, `ControllerRemoval`, `ClanTag`, `PersonaName`: the PNG container check, the ping
  window, deferred controller removal, the clan tag override, the name normaliser.

Each module has the operations as functions of the state; classes update the same state in place and
are proved equal to those functions; lemmas prove what the functions achieve.

Four results need a word. The avatar reconciler notices a new request by a 32-bit counter, so a
number of unexamined requests that is a multiple of 2^32 goes unnoticed; and it publishes nothing while
index 0 of the table holds data or is the key it would need. `AvatarExample` shows a concrete input for
each, and `AvatarExactness` says exactly when a pass is right. A voter or script scope that
was opened in player mode shows the human again when it closes, even if bot mode came into force
meanwhile; `PopulationAtRest` shows a concrete input and says exactly when all calls leave the mode in
force on show. Lifetime stamps are 64 bits wide without zero, so they repeat after 2^64 - 1 adoptions
and not before; isolation of lifetimes holds up to that distance, and `HandleIsAcceptedExactly` says
what happens at it. Adopting over a managed slot would leak its identity (`AdoptOverManagedLeaks`);
the callers check first.

## Model

| member | source | states |
|---|---|---|
| StringTable.SetUserDataReads | src/features/avatar/avatar_override.cpp:54-60 | writing one key changes what is read under that key and under no other |
| StringTable.AddStringReads | src/features/avatar/avatar_override.cpp:97-106 | a new key is found at the end, and no other key reads differently |
| Manager.FakeClientManager.ClearSlot | src/features/identity/fake_client_manager.cpp:101-109 | a cleared slot is empty but for its request sequence, which moves on |
| Manager.FakeClientManager.AdoptSlot | src/features/identity/fake_client_manager.cpp:73-99 | the slot is managed under the given SteamID and the next non-zero stamp; no other slot changes |
| Manager.FakeClientManager.ReleaseAll | src/features/identity/fake_client_manager.cpp:117-122 | every slot is cleared |
| Manager.FakeClientManager.SetSyntheticSid | src/features/identity/fake_client_manager.cpp:148-152 | only the slot's SteamID changes |
| Manager.FakeClientManager.SetAvatarRequest | src/features/identity/fake_client_manager.cpp:172-183 | the request carries the bytes, the present lifetime and the next sequence; nothing is published any more |
| Manager.FakeClientManager.PublishAvatarState | src/features/identity/fake_client_manager.cpp:185-190 | what is published names a SteamID only if applied |
| AvatarInvariant.ClearReads | src/features/avatar/avatar_override.cpp:42-61 | a clear that succeeds empties one SteamID's entry; one that fails does nothing |
| AvatarInvariant.SetReads | src/features/avatar/avatar_override.cpp:64-113 | a write that succeeds stores the bytes under one SteamID, never at index 0; one that fails changes no SteamID's bytes |
| AvatarInvariant.VisitKeeps | src/features/avatar/avatar_override.cpp:166-231 | any visit, failing or not, keeps: one owner per SteamID, an owner for every override, and behind every slot marked processed the requested bytes and the report of them |
| AvatarTheorems.PassKeeps | src/features/avatar/avatar_override.cpp:166-231 | so does a pass over the slots in any order with any failures |
| AvatarTheorems.ProcessedPassIsExact | src/features/avatar/avatar_override.cpp:151-232 | if a pass ends with every slot processed, the overrides are exactly the wanted map |
| AvatarTheorems.ReportedAvatarIsTrue | csharp/BotHiderImpl/BridgeClient.cs:177-178 | a slot that reports an avatar has its present request in the table |
| AvatarTheorems.PassReports | src/features/avatar/avatar_override.cpp:168-229 | after a pass with any failures a visited slot reports an avatar iff it asks for one and its present request was served, also for a second avatar, a new SteamID or a takeover |
| AvatarTheorems.PassKeepsReportedAvatar | src/features/avatar/avatar_override.cpp:197-229 | no pass takes a reported avatar away: a former holder of the SteamID never wipes it, nor does a failure |
| AvatarRuns.StepKeeps | src/features/avatar/avatar_override.cpp:142-232 | the invariant survives adoptions, releases, SteamID changes, requests, passes and resets |
| AvatarRuns.ReachableIsGood | src/features/avatar/avatar_override.cpp:142-232 | it holds after every history |
| AvatarRuns.OwnershipAndTruth | src/features/avatar/avatar_override.cpp:197-229 | in every reachable state no two slots own one SteamID, every override has an owner, and HasBotAvatar tells the truth |
| AvatarRuns.VisitHead | src/features/avatar/avatar_override.cpp:42-113 | whatever fails, a visit leaves index 0 of the table as it is, or puts the sentinel into an empty table |
| AvatarRuns.ServedSlot | src/features/avatar/avatar_override.cpp:176-229 | a slot whose retry is due, or was cancelled by a changed request or SteamID, is processed if nothing fails for it and the table takes its SteamID, whatever becomes of the others |
| AvatarRuns.CalmSetIff | src/features/avatar/avatar_override.cpp:64-113 | a write that nothing fails goes through iff the table is empty, or index 0 has no data and is not the SteamID's own key |
| AvatarRuns.CalmPass | src/features/avatar/avatar_override.cpp:176-229 | with nothing failing, no retry still waiting and no slot's SteamID refused by the table, a pass processes every slot |
| AvatarRuns.HistoryThenCalmPass | src/features/avatar/avatar_override.cpp:151-232 | after any history and one calm pass the overrides are the map from current SteamIDs to requested bytes, unless a request counter came round unexamined or index 0 stands in a slot's way |
| AvatarOutcomes.RefusedOwnerKeeps | src/features/avatar/avatar_override.cpp:197-222 | a slot whose SteamID the table refuses keeps it, if it owned it, and the bytes that are there, whatever fails |
| AvatarOutcomes.RefusedOutsider | src/features/avatar/avatar_override.cpp:197-222 | and if it did not, it never gets it, and owns nothing after a visit without a failure |
| AvatarOutcomes.RefusedReports | src/features/avatar/avatar_override.cpp:186-222 | and it goes on reporting an avatar iff it did before |
| AvatarOutcomes.SlotOutcome | src/features/avatar/avatar_override.cpp:168-229 | what a pass makes of a slot for which nothing fails, whether it is served, missed or refused: what it owns, the bytes under its SteamID, and whether it reports an avatar |
| AvatarHistories.AsksForLastRequest | src/features/avatar/avatar_override.cpp:171-176 | after any history a slot asks for what its present bot asked for last, under the SteamID it has now, and for nothing without such a request |
| AvatarHistories.FailureWaitsASecond | src/features/avatar/avatar_override.cpp:184-196 | a slot whose work failed is left alone for exactly one second, unless its request or SteamID changes |
| AvatarHistories.RetriesEnd | src/features/avatar/avatar_override.cpp:188-196 | a second after the last pass of any history no slot is waiting |
| AvatarHistories.ResetStartsAfresh | src/features/avatar/avatar_override.cpp:157-163 | a table not seen before starts with nothing reported, owned or waiting, and keeps every request |
| AvatarHistories.LastWishesArePublished | src/features/avatar/avatar_override.cpp:151-232 | after any history, whatever failed in it, a calm pass a second later publishes the last wishes of the present bots and nothing else, and every such bot reports its avatar, unless a counter came round or index 0 stands in the way |
| AvatarExactness.CalmPassIsExactIff | src/features/avatar/avatar_override.cpp:151-232 | a calm pass is right if and only if every slot whose counter came round, or whose SteamID the table refuses, owns its SteamID and has its bytes there already |
| AvatarExactness.SlotOrderIsIrrelevant | src/features/avatar/avatar_override.cpp:166-231 | two visiting orders publish the same overrides, also where requests are missed or refused |
| AvatarExactness.CalmPassAfterRelease | src/features/avatar/avatar_override.cpp:174-210 | once no slot is managed a calm pass leaves no override, however many requests went unseen and whatever index 0 holds |
| AvatarExactness.ReleaseAllLeavesNone | src/features/identity/command_hooks.cpp:206-216 | after a pass with any failures, releasing every bot and passing at once leaves no override |
| AvatarWrap.RequestCountDecides | src/features/avatar/avatar_override.cpp:168-184 | new bytes requested n times in a row get published if and only if n is no multiple of 2^32 and the table takes the SteamID |
| AvatarWrap.FullTurnBreaksRefinement | src/features/avatar/avatar_override.cpp:168-184 | any multiple of 2^32 requests for other bytes makes the pass end with wrong overrides |
| AvatarExample.ConcreteFullTurn | src/features/identity/fake_client_manager.cpp:172-183 | a bot that was adopted and shows its avatar after a run from the start; 2^32 requests leave that avatar in place |
| AvatarExample.ConcreteRefusal | src/features/avatar/avatar_override.cpp:78-83 | a bot that asks for an avatar over a table whose index 0 holds data: nothing fails, and the pass leaves it out |
| PluginRuns.RunsAreHistories | src/features/identity/command_hooks.cpp:206-275 | every run of identity steps, requests and passes is a legal history of the avatars and ends where it ends |
| PluginRuns.PluginOwnershipAndTruth | src/features/avatar/avatar_override.cpp:197-229 | so ownership and truth hold over the plugin's own runs, with nothing assumed of the identity steps |
| PluginRuns.PluginPublishes | src/features/avatar/avatar_override.cpp:151-232 | and after every run a calm pass is right under the same exact condition |
| PluginRuns.LateStartIsRun | src/features/identity/client_hooks.cpp:100-114 | adopting the bots that were there before is a run of connections |
| AvatarReconciler.ClearAvatarOverride | src/features/avatar/avatar_override.cpp:42-61 | does to the table what the specification of a clear says |
| AvatarReconciler.SetAvatarOverride | src/features/avatar/avatar_override.cpp:64-113 | does to the table what the specification of a write says |
| AvatarReconciler.Reconciler.TransferOwnership | src/features/avatar/avatar_override.cpp:224-228 | the writer owns the SteamID, and whoever owned it does not |
| AvatarReconciler.Reconciler.VisitSlot | src/features/avatar/avatar_override.cpp:168-230 | one iteration of the slot loop is the visit that the theorems are about |
| AvatarReconciler.Reconciler.ResetStates | src/features/avatar/avatar_override.cpp:157-163 | a new table starts from fresh runtime states and nothing published |
| AvatarReconciler.Reconciler.ProcessOverrides | src/features/avatar/avatar_override.cpp:151-232 | the whole call is the pass that the theorems are about, over slots 0 to 63 |
| BotInfo.AccountKeysAreCanonical | src/features/botinfo/bot_info.cpp:36-44 | accepted keys are exactly the decimal forms of the non-zero 32-bit numbers, one key each |
| BotInfo.LoadedIdsAreDistinct | src/features/botinfo/bot_info.cpp:76-113 | distinct accepted keys give distinct, non-zero SteamIDs, each the account's own |
| BotInfo.PickIsProper | src/features/botinfo/bot_info.cpp:120-137 | whatever is drawn: nothing only if nothing is free; otherwise a free entry, and one of that name if there is one |
| BotInfo.PickCountsCandidates | src/features/botinfo/bot_info.cpp:122-136 | the draw decides evenly: its remainder counts the candidates in the order of the pool, so that each comes up |
| BotInfo.SomeEntryIsFree | src/features/botinfo/bot_info.cpp:122-129 | a pool larger than the assignments and the occupied ids together has a free entry |
| BotInfo.PickSucceeds | src/features/botinfo/bot_info.cpp:120-137 | and then a pick succeeds |
| BotInfo.BotInfoStore.NextRand | src/features/botinfo/bot_info.cpp:25-33 | whatever the state was, zero included, it is not zero afterwards, where the generator would stick |
| BotInfo.BotInfoStore.PickForBot | src/features/botinfo/bot_info.cpp:120-137 | makes the specified pick and takes that one entry |
| BotInfo.BotInfoStore.ReleaseAssignment | src/features/botinfo/bot_info.cpp:140-144 | frees that one entry; a null entry frees none |
| BotInfo.BotInfoStore.ResetAssignments | src/features/botinfo/bot_info.cpp:147-147 | frees every entry |
| Rng.ShuffleKeepsNonZero | src/features/ping/ping_display.cpp:52-57 | the generator reaches the zero state only from it |
| Rng.ShuffleExamples | src/features/ping/ping_display.cpp:52-57 | where two states lead, and a number drawn |
| Allocation.AdoptedIdIsFresh | src/features/identity/client_hooks.cpp:70-89 | the adopted SteamID is non-zero, its entry was free, and no other live client or bot has it |
| Allocation.ChangeGoesThrough | src/features/identity/command_hooks.cpp:251-275 | a SteamID change goes through iff the handle is current and no other client or bot has the id; a refused one changes nothing |
| Allocation.AdoptionShows | src/features/identity/client_hooks.cpp:70-98 | what an adoption comes to in all tables and in the client, in player mode and in bot mode, where only the SteamID fields change; without an entry to give nothing happens |
| Allocation.ConnectionAdopts | src/features/identity/client_hooks.cpp:43-68 | a connection is adopted iff it is a fake client on an unmanaged slot, not SourceTV by name, network id or mark, and the pool has an identity for it; it gets a free entry, one of its name if there is one |
| Allocation.ChangeShows | src/features/identity/command_hooks.cpp:266-274 | a SteamID change that goes through shows in the slot and in the client at once, and nowhere else; in bot mode no flag changes, and in player mode the controller loses the fake-client bit, inside a transaction too |
| Allocation.EntryIsRechecked | src/features/identity/client_hooks.cpp:117-170 | server entry keeps a bot iff it is not SourceTV and its SteamID is still its own alone, and shows it as the mode asks; otherwise slot and entry, and no others, are freed and the client is given back |
| Allocation.HltvIsReleased | src/features/identity/identity_runtime.cpp:319-338 | a frame releases a managed slot iff its client is SourceTV, which keeps its flags and loses its SteamID |
| Allocation.DisconnectGivesBack | src/features/identity/client_hooks.cpp:187-216 | a disconnect frees slot and entry, and no others, and leaves a marked fake client without a SteamID |
| Allocation.AllAreGivenBack | src/features/identity/identity_runtime.cpp:210-225 | before a level change every managed client is made a fake client without a SteamID and its controller is marked; no other client or entity changes |
| Allocation.LevelChangeFreesAll | src/features/identity/command_hooks.cpp:205-216 | a level change leaves no slot managed, nothing bound and no entry taken |
| Allocation.AdoptKeeps | src/features/identity/client_hooks.cpp:70-98 | adopting an unmanaged slot keeps the bijection of slots and entries, the stamps and the distinct SteamIDs |
| Allocation.ReleaseKeeps | src/features/identity/identity_state.cpp:32-38 | so does releasing a slot |
| Allocation.ReleaseAllKeeps | src/features/identity/identity_state.cpp:46-55 | so does releasing all |
| Allocation.SetSteamIdKeeps | src/features/identity/command_hooks.cpp:251-275 | so does changing a SteamID |
| Allocation.PutInServerKeeps | src/features/identity/client_hooks.cpp:117-170 | so does the recheck on server entry, with its two ways to release |
| Allocation.ReleaseHltvKeeps | src/features/identity/identity_runtime.cpp:319-338 | so does releasing a slot that turned out to be SourceTV |
| Allocation.AdoptOverManagedLeaks | src/features/identity/client_hooks.cpp:57-61 | adopting over a managed slot would leave its entry taken with no slot bound to it |
| Allocation.AdoptExistingKeeps | src/features/identity/client_hooks.cpp:100-114 | a late start keeps the invariant and never adopts over a managed slot |
| Allocation.LateStartAdopts | src/features/identity/client_hooks.cpp:100-114 | a late start adopts exactly the fake clients that are not SourceTV, each iff the pool has an identity for it when its turn comes |
| Allocation.ReachableStates | src/features/identity/identity_state.cpp:15-55 | in every reachable state: managed iff bound iff stamped; no entry bound twice; taken iff bound; SteamIDs non-zero and distinct |
| AllocationHooks.ClientHooks.CollectOccupiedSteamIds | src/features/identity/identity_runtime.cpp:148-174 | collects exactly the other clients' non-zero ids and the other bots' reserved ids |
| AllocationHooks.ClientHooks.CheckSteamIdAvailability | src/features/identity/identity_runtime.cpp:176-181 | the check fails iff the id is zero or the slot has no client; else the id is in use iff another client or another bot has it |
| AllocationHooks.ClientHooks.ReleaseSlot | src/features/identity/identity_state.cpp:32-38 | all three tables let go of the slot |
| AllocationHooks.ClientHooks.ReleaseAll | src/features/identity/identity_state.cpp:46-55 | all three tables and both queues are emptied |
| AllocationHooks.ClientHooks.AdoptClient | src/features/identity/client_hooks.cpp:70-98 | adopts with the pool's draw, and succeeds iff the pool had an entry to give |
| AllocationHooks.ClientHooks.OnClientConnectedPost | src/features/identity/client_hooks.cpp:43-68 | adopts fake clients that are neither SourceTV nor managed already |
| AllocationHooks.ClientHooks.ReleaseManagedHltvSlot | src/features/identity/identity_runtime.cpp:319-338 | releases iff the managed slot's client is SourceTV |
| AllocationHooks.ClientHooks.OnClientPutInServerPost | src/features/identity/client_hooks.cpp:117-170 | rechecks the SteamID and either shows the bot again or releases it |
| AllocationHooks.ClientHooks.OnClientDisconnectPre | src/features/identity/client_hooks.cpp:187-216 | gives the client back, queues its controller for removal after a kick or a ban, and releases the slot |
| AllocationHooks.ClientHooks.SetSteamId | src/features/identity/command_hooks.cpp:251-275 | goes through iff the handle is of the present lifetime and the id is available |
| AllocationHooks.ClientHooks.RestoreManagedClients | src/features/identity/identity_runtime.cpp:210-225 | every managed client gets its bot bits back and an empty SteamID; their number is returned |
| AllocationHooks.ClientHooks.OnStartChangeLevelPre | src/features/identity/command_hooks.cpp:205-216 | restores every client, empties the three tables and the queues, and passes over the avatars |
| AllocationHooks.ClientHooks.AdoptExistingBots | src/features/identity/client_hooks.cpp:100-114 | adopts the fake clients that were there before |
| Incarnation.StampsAgree | src/features/identity/fake_client_manager.cpp:89-91 | stamps are never zero; two adoptions share a stamp iff they lie a multiple of 2^64 - 1 apart |
| Incarnation.FreshForOneCycle | src/features/identity/fake_client_manager.cpp:89-91 | any 2^64 - 1 adoptions in a row have distinct stamps, and the next repeats the first |
| Lifetimes.StepKeeps | src/features/identity/command_hooks.cpp:75-120 | handles, queued kicks and reads keep the stamp of the lifetime they stem from, through every interleaving |
| Lifetimes.LifetimesAreIsolated | src/bridge/exports.cpp:21-26 | over every run no setter call, kick or finished read acts on a later occupant less than 2^64 - 1 adoptions on |
| Lifetimes.KicksHitTheirTarget | src/features/identity/command_hooks.cpp:75-106 | a queued kick is carried out only on the slot, client and user id it was asked for |
| Lifetimes.ClearedReadsAreNeverApplied | csharp/BotHiderImpl/BridgeClient.cs:239-315 | an applied read was started on that slot, was not applied or ended before, and no clear came in between |
| Lifetimes.OneReadPerSlot | csharp/BotHiderImpl/BridgeClient.cs:267-275 | at most one read per slot is pending |
| Lifetimes.HandleIsAcceptedExactly | src/bridge/exports.cpp:21-26 | a handle is accepted iff connected, managed, and the occupant's lifetime is its own or full cycles of stamps later |
| LifetimeEffects.LifetimesBegin | src/features/identity/fake_client_manager.cpp:73-99 | an adoption makes the slot managed in a lifetime of its own with the next stamp; other slots go on |
| LifetimeEffects.LifetimesEnd | src/features/identity/fake_client_manager.cpp:101-122 | a release ends it, and a release of all ends every one |
| LifetimeEffects.HandlesAreTaken | csharp/BotHiderImpl/BridgeClient.cs:151-169 | a caller that can reach a slot holds its present lifetime |
| LifetimeEffects.SettersTakeEffect | src/bridge/exports.cpp:21-26 | a setter call takes effect exactly when its handle is accepted, and otherwise does nothing |
| LifetimeEffects.KicksAreQueued | src/features/identity/command_hooks.cpp:60-71 | a kick is queued iff the slot's bot is managed and not SourceTV and the command is there; it comes last and names client, user id and lifetime |
| LifetimeEffects.DrainsTakeAll | src/features/identity/command_hooks.cpp:76-82 | a drain takes over all queued kicks in order |
| LifetimeEffects.KicksAreCarriedOut | src/features/identity/command_hooks.cpp:84-106 | the next kick is carried out iff the slot's bot is the one it was asked for, with the same client and user id, and has a name; otherwise it is dropped |
| LifetimeEffects.ReadsAreUsed | csharp/BotHiderImpl/BridgeClient.cs:297-315 | over every run a finished read becomes the slot's request iff the slot can be reached, its bot is the one that asked, no clear came since, and the bytes are a PNG container of at most 16 KiB or none; either way it is over |
| LifetimeEffects.ClearsEmpty | csharp/BotHiderImpl/BridgeClient.cs:252-256 | "0" empties the request, whether or not a read is pending |
| Bridge.CopyInput | src/bridge/exports.cpp:41-47 | a text goes through iff it is there, fits and has no zero byte; read back from the buffer it is unchanged, and a refused text leaves the buffer alone |
| Bridge.TextOfTerminated | src/bridge/exports.cpp:44-45 | a terminated copy reads back as the text |
| Bridge.SetAvatar | src/bridge/exports.cpp:136-144 | accepted iff the handle is current and the bytes are none or a PNG container of at most 16 KiB; then they are the slot's request |
| AvatarReads.PathsAreRead | csharp/BotHiderImpl/BridgeClient.cs:252-266 | which paths clear, which name a PNG of the avatar directory, on Linux and on Windows, and that all others are refused |
| AvatarReads.WishesAreObeyed | csharp/BotHiderImpl/BridgeClient.cs:239-275 | a clear empties the request and voids a pending read; a file starts a read for the present lifetime if none is pending; all else does nothing |
| AvatarReads.FinishedReadsAreUsed | csharp/BotHiderImpl/BridgeClient.cs:297-315 | a finished read is taken off its entry, and its bytes become the request iff its bot is still there and they are acceptable; an unfinished one stays |
| AvatarReads.BridgeClient.TrySetBotAvatar | csharp/BotHiderImpl/BridgeClient.cs:239-275 | clears for "0", starts a read for a PNG name of the avatar directory if none is pending, and refuses all else; touches no other slot |
| AvatarReads.BridgeClient.FinishAvatarReads | csharp/BotHiderImpl/BridgeClient.cs:297-315 | each slot for itself is finished as these laws say |
| ScopedRestore.CaptureTable | src/features/identity/identity_hooks.cpp:77-140 | what a capture does to every client and entity, and which bits each slot's snapshot says were flipped, with controllers shared or not |
| ScopedRestore.RestoreTable | src/features/identity/identity_hooks.cpp:142-189 | what a restore does to every client and entity of any later world |
| ScopeLaws.ClosingRestoresClient | src/features/identity/identity_hooks.cpp:142-167 | closing puts exactly the flipped connection bits and the fake-player byte back; other bits stay as last written; released or rebound slots are left alone |
| ScopeLaws.ClosingRestoresController | src/features/identity/identity_hooks.cpp:169-187 | closing clears the fake-client bit exactly on the controllers that opening set it on and whose slot still has them |
| ScopeLaws.OpeningShowsBot | src/features/identity/identity_hooks.cpp:96-134 | while the scope is open every managed slot looks like a bot, also with a shared controller |
| ScopeLaws.ClosingFace | src/features/identity/identity_hooks.cpp:142-189 | how a slot looks after closing, from how it looked before opening and how it looks now |
| ScopeLaws.ClosingUndoesOpening | src/features/identity/identity_hooks.cpp:66-189 | opening and closing together undo each other for the client, and for its controller, shared or not, exactly if the bit was clear before just when a slot that marked it still has it |
| ScopeLaws.SharedIsCleared | src/features/identity/identity_hooks.cpp:129-187 | as long as no slot that shares the controller comes or goes, closing clears its bit iff it was clear before opening |
| ScopeLaws.ClosingUndoesOpeningKept | src/features/identity/identity_hooks.cpp:66-189 | so a slot that kept its look inside looks as before: its client always, the whole of it if no slot that shares its controller came or went |
| ScopeLaws.ClosingShows | src/features/identity/identity_hooks.cpp:142-189 | a human before is a human after; a bot before is shown as it was shown last; for the client always, for the controller while those who share it stay |
| Disguise.ShowTable | src/features/identity/identity_runtime.cpp:125-146 | the disguise loop changes the managed clients and their controllers and nothing else |
| Disguise.AllShow | src/features/identity/identity_runtime.cpp:125-146 | afterwards every managed client shows the mode asked for, under its managed SteamID in both fields |
| Disguise.DisguisedClient | src/features/identity/identity_runtime.cpp:125-146 | what becomes of each field of a client: flags as the mode asks, the managed SteamID if there is one, nothing else, and nothing for unmanaged slots |
| Disguise.DisguisedEntity | src/features/identity/identity_runtime.cpp:184-207 | of the entities only the fake-client bit of the managed clients' controllers changes |
| Packing.HideTable | src/features/identity/identity_runtime.cpp:82-97 | FL_BOT is cleared on exactly the managed pawns that had it, and each of them is recorded once |
| Packing.NoManagedPawnIsBot | src/features/identity/identity_runtime.cpp:82-97 | after the override no live managed pawn carries FL_BOT |
| Packing.PawnsLoseBot | src/features/identity/identity_runtime.cpp:82-97 | an entity loses FL_BOT iff it is the live pawn of a managed client's live controller, is noted iff it had it, and nothing else changes |
| Packing.ShowBotsTable | src/features/identity/identity_runtime.cpp:100-120 | the restore sets FL_BOT on the recorded pawns that live on, and does nothing else |
| Packing.NotedPawnsAreBots | src/features/identity/identity_runtime.cpp:100-120 | an entity gets FL_BOT iff it was noted and lives on with the same pointer and handle, and nothing else changes |
| Packing.PackKeepsBotFlag | src/features/identity/identity_runtime.cpp:82-120 | over a pack a surviving entity keeps FL_BOT as it was, and its other bits as last written |
| Population.StepKeeps | src/features/identity/identity_hooks.cpp:198-262 | every hook event keeps the books: depth, snapshot, re-disguise mark, hook depth, pawn record |
| Population.EndIsMatched | src/features/identity/identity_hooks.cpp:211-217 | the unmatched-end branch is never taken |
| Population.Accounting | src/features/identity/identity_hooks.cpp:198-262 | over every run the depth is the number of enabled frames, the snapshot is there iff depth > 0, the hook depth is the number of native frames, and Remove refuses iff one is open |
| Population.OwnerIsFirst | src/features/identity/identity_runtime.cpp:63-76 | the search stops at the first managed slot with that live controller |
| Population.ConsistentAtRest | src/features/identity/identity_hooks.cpp:211-226 | when the outermost transaction ends, every managed client shows the mode then in force |
| Population.ModeChangeShows | src/features/identity/command_hooks.cpp:180-202 | which mode is in force after a change was asked for, and that a change shows at once |
| Population.ModeChangeSettlesStart | src/features/identity/command_hooks.cpp:180-202 | a start in player mode that was put off is dropped by every change that goes through and by the fallback, and kept by a refusal |
| Population.WishBetweenLevelsCounts | src/plugin.cpp:93-133 | a mode asked for between two levels is what the next level starts in |
| Population.LevelChangeKeepsMode | src/plugin.cpp:93-133 | player mode survives a level change exactly if the next level can have it, and is put off further only where the disguise is not possible there |
| Population.DepthIsOpen | src/features/identity/identity_hooks.cpp:570-576 | the hook depth is zero exactly while no native frame is open |
| PopulationOpens.QuotaBegins | src/features/identity/identity_hooks.cpp:265-269 | in player mode, and only then, a quota call begins a transaction: noted on its own stack, and unless one is open all managed slots look like bots from then on; otherwise the world stays |
| PopulationOpens.HumanTeamBegins | src/features/identity/identity_hooks.cpp:313-317 | the same for a human-team restriction |
| PopulationOpens.JoinBegins | src/features/identity/identity_hooks.cpp:327-332 | for a team join iff in player mode the first managed slot with that live controller is not SourceTV |
| PopulationOpens.EndMatchBegins | src/features/identity/identity_hooks.cpp:364-370 | for the end of a match iff in player mode new teams are wanted |
| PopulationOpens.CommandBegins | src/features/identity/command_hooks.cpp:125-168 | for a command iff in player mode it is one of seven names and the kick was not put off |
| PopulationOpens.ScopesBegin | src/features/identity/identity_hooks.cpp:279-301 | a voter count or script check shows the bots and pushes a snapshot iff in player mode, at any depth |
| PopulationTraces.PopulationCloses | src/features/identity/identity_hooks.cpp:198-226 | an inner transaction leaves the world alone; the outermost closes with its own snapshot, then disguises |
| PopulationTraces.FlattenRuns | src/features/identity/identity_hooks.cpp:239-262 | a well-nested trace is a legal run of hook events and leads to the same state |
| PopulationTraces.ScopesCloseTheirOwn | src/features/identity/identity_hooks.cpp:279-310 | at any depth and through mode flips a voter or script scope closes with the snapshot of its own opening |
| PopulationTraces.TransactionsCloseTheirOwn | src/features/identity/identity_hooks.cpp:265-340 | the same for population calls |
| PopulationTraces.PacksCloseTheirOwn | src/features/identity/identity_hooks.cpp:342-361 | nested packs and mode flips cannot lose the restore |
| PopulationTraces.PackKeepsBotFlags | src/features/identity/identity_hooks.cpp:342-361 | from the outermost disguised pack on no managed pawn has FL_BOT; afterwards survivors have it as before |
| PopulationAtRest.ShowAllShows | src/features/identity/identity_runtime.cpp:125-146 | the disguise shows a slot wholly as the mode asks, whoever shares its controller, and keeps its binding |
| PopulationAtRest.TraceShows | src/features/identity/identity_hooks.cpp:66-377 | over any well-nested trace a slot, or its client alone, looks at the end as the trace says |
| PopulationAtRest.TraceEndsInMode | src/features/identity/identity_hooks.cpp:66-377 | a slot that shows the mode at the start shows the mode in force at the end iff no voter or script scope closed over a change to bot mode that nothing later made good; for its client always, for the whole of it while those who share its controller stay |
| PopulationAtRest.FlipInsideScopeIsStale | src/features/identity/identity_hooks.cpp:279-292 | a bot shown as a human, a voter count and a change to bot mode inside it: all calls have returned, and the bot is still shown as a human |
| PopulationAtRest.TraceKeepsFace | src/features/identity/identity_hooks.cpp:66-377 | over any well-nested trace of scopes, packs and transactions a slot ends up looking as it began, if others leave it so and it looked as each outermost transaction leaves it |
| IdentityHooks.Hooks.SetControllerFakeClientFlag | src/features/identity/identity_runtime.cpp:184-207 | sets or clears that one bit iff there is a controller |
| IdentityHooks.Hooks.CaptureIdentity | src/features/identity/identity_hooks.cpp:77-140 | the loop performs the capture that the laws are about |
| IdentityHooks.Hooks.RestoreIdentity | src/features/identity/identity_hooks.cpp:142-189 | the loop performs the restore that the laws are about |
| IdentityHooks.Hooks.ApplyManagedDisguise | src/features/identity/identity_runtime.cpp:125-146 | the loop performs the disguise that the laws are about |
| IdentityHooks.Hooks.BeginPopulationTransaction | src/features/identity/identity_hooks.cpp:198-209 | the outermost begin captures and sets the re-disguise mark; an inner one only counts and adds its wish to the mark; nothing else changes |
| IdentityHooks.Hooks.EndPopulationTransaction | src/features/identity/identity_hooks.cpp:211-226 | the outermost end restores the capture and then disguises if anyone wished it; an inner one only counts; an unmatched one does nothing |
| IdentityHooks.Hooks.BeginPopulationFrame | src/features/identity/identity_hooks.cpp:248-253 | pushes the frame on its own stack, deepens the hook depth, and begins a transaction if enabled |
| IdentityHooks.Hooks.EndPopulationFrame | src/features/identity/identity_hooks.cpp:256-262 | pops the frame pushed last on its stack and ends a transaction iff that frame had begun one, whatever the mode is now |
| IdentityHooks.Hooks.QuotaPre | src/features/identity/identity_hooks.cpp:265-269 | a quota call opens a frame that is enabled in player mode; state as in the machine that the laws are about |
| IdentityHooks.Hooks.QuotaPost | src/features/identity/identity_hooks.cpp:272-276 | its return closes that frame; state as in the machine |
| IdentityHooks.Hooks.HumanTeamPre | src/features/identity/identity_hooks.cpp:313-317 | a human-team restriction opens a frame that is enabled in player mode; state as in the machine |
| IdentityHooks.Hooks.HumanTeamPost | src/features/identity/identity_hooks.cpp:320-324 | its return closes that frame; state as in the machine |
| IdentityHooks.Hooks.IsManagedBotController | src/features/identity/identity_runtime.cpp:59-79 | finds the first managed slot with that live controller and excludes SourceTV |
| IdentityHooks.Hooks.JoinTeamPre | src/features/identity/identity_hooks.cpp:327-332 | a team join opens a frame that is enabled in player mode for managed bots only; state as in the machine |
| IdentityHooks.Hooks.JoinTeamPost | src/features/identity/identity_hooks.cpp:335-339 | its return closes that frame; state as in the machine |
| IdentityHooks.Hooks.EndMatchPre | src/features/identity/identity_hooks.cpp:364-370 | the end of a match opens a frame that is enabled in player mode if new teams are to be picked; state as in the machine |
| IdentityHooks.Hooks.EndMatchPost | src/features/identity/identity_hooks.cpp:373-377 | its return closes that frame; state as in the machine |
| IdentityHooks.Hooks.DispatchConCommandPre | src/features/identity/command_hooks.cpp:125-168 | a command opens a frame outside the hook depth, enabled in player mode for bot_add and for kicks that are not put off; state as in the machine |
| IdentityHooks.Hooks.DispatchConCommandPost | src/features/identity/command_hooks.cpp:171-177 | its return closes that frame with the mode then in force; state as in the machine |
| IdentityHooks.Hooks.VotersPre | src/features/identity/identity_hooks.cpp:279-284 | a voter count in player mode captures and pushes its own snapshot, otherwise an empty frame; state as in the machine |
| IdentityHooks.Hooks.VotersPost | src/features/identity/identity_hooks.cpp:287-292 | its return restores from the frame pushed last; state as in the machine |
| IdentityHooks.Hooks.ScriptIsBotPre | src/features/identity/identity_hooks.cpp:295-301 | a script check in player mode captures and pushes its own snapshot, otherwise an empty frame; state as in the machine |
| IdentityHooks.Hooks.ScriptIsBotPost | src/features/identity/identity_hooks.cpp:304-310 | its return restores from the frame pushed last; state as in the machine |
| IdentityHooks.Hooks.ApplyBotFlagOverride | src/features/identity/identity_runtime.cpp:82-97 | the loop performs the override that the laws are about |
| IdentityHooks.Hooks.RestoreBotFlagOverride | src/features/identity/identity_runtime.cpp:100-120 | the loop performs the restore that the laws are about |
| IdentityHooks.Hooks.PackPre | src/features/identity/identity_hooks.cpp:342-348 | only the outermost pack in player mode hides FL_BOT and records the pawns; state as in the machine |
| IdentityHooks.Hooks.PackPost | src/features/identity/identity_hooks.cpp:351-361 | only the outermost return restores the recorded pawns and empties the record; state as in the machine |
| IdentityHooks.Hooks.SetIdentityMode | src/features/identity/command_hooks.cpp:180-202 | changes the mode, falls back to bot mode or refuses, and drops a start in player mode that was put off; succeeds iff bot mode was asked for or player mode is possible |
| IdentityHooks.Hooks.OnLevelShutdown | src/plugin.cpp:121-133 | puts player mode off until the next level; state as in the machine |
| IdentityHooks.Hooks.OnLevelInit | src/plugin.cpp:93-101 | takes player mode up again, or falls back; state as in the machine |
| IdentityHooks.Hooks.Remove | src/features/identity/identity_hooks.cpp:570-587 | removes the hooks iff no native call is inside one of them; console commands do not count |
| Png.WriteThenRead | src/bridge/exports.cpp:53-55 | the big-endian reader inverts the encoding |
| Png.EncodingIsUnique | src/bridge/exports.cpp:60-76 | bytes are the encoding of at most one chunk list |
| Png.ScanDecidesGrammar | src/bridge/exports.cpp:49-78 | scanning chunk by chunk accepts exactly the encodings of well-formed chunk lists |
| Png.SmallestContainers | src/bridge/exports.cpp:49-78 | the smallest containers, byte by byte, are accepted |
| Png.HasPngStructure | src/bridge/exports.cpp:49-78 | accepts iff the bytes are the signature and a chunk list with the one IHDR first, a non-empty IDAT, and the one empty IEND at the very end; no unsigned operation wraps |
| Ping.SumSlides | src/features/ping/ping_display.cpp:9-16 | a new sample enters the window sum and the one of 64 ticks ago leaves it |
| Ping.RingHolds | src/features/ping/ping_display.cpp:11-14 | the ring holds the last 64 samples, each at its tick modulo 64 |
| Ping.AverageInRange | src/features/ping/ping_display.cpp:18-22 | the average of samples from a range is in it |
| Ping.ShownInNumbers | src/features/ping/ping_display.cpp:18-34 | what is shown: the baseline below 32 samples, then the average of the last 64, or of all, at the last multiple of 32 |
| Ping.SampleInBounds | src/features/ping/ping_display.cpp:60-66 | every sample is in the configured range and within a tenth of the baseline, rounded up |
| Ping.SampleFollowsDraw | src/features/ping/ping_display.cpp:60-66 | a sample is the baseline moved by the draw's remainder, or the end of the range beyond which that lies |
| Ping.EverySampleOccurs | src/features/ping/ping_display.cpp:60-66 | every value of the range within a tenth of the baseline is drawn by some number |
| Ping.TickKeepsUpToDate | src/features/identity/fake_client_manager.cpp:124-134 | one tick keeps the published ping equal to the average due, also when it is not written again |
| Ping.PingDisplay.RecordSample | src/features/ping/ping_display.cpp:9-16 | ring, running sum and fill level agree with the history of samples |
| Ping.PingDisplay.CurrentAverage | src/features/ping/ping_display.cpp:18-22 | the average of the last 64 samples, or fewer, truncated towards zero |
| Ping.PingDisplay.MaybeProduce | src/features/ping/ping_display.cpp:24-34 | produces the average every 32 ticks unless it was written last |
| Ping.PingDisplay.Reset | src/features/ping/ping_display.cpp:36-41 | the history is empty again |
| Ping.PingJitter.NextSample | src/features/ping/ping_display.cpp:50-67 | a sample in range, within a tenth of the baseline; the generator never gets stuck at zero |
| Ping.PingSlot.Adopt | src/features/identity/fake_client_manager.cpp:85-92 | the baseline lies in the configured range and is what is shown at first |
| Ping.PingSlot.OnTick | src/features/identity/fake_client_manager.cpp:124-134 | after any number of ticks the slot shows its baseline, or the average of the last 64 samples at the last multiple of 32, within the range |
| ControllerRemoval.QueueKeepsUnique | src/features/identity/identity_runtime.cpp:252-261 | the queue never holds two items for one handle |
| ControllerRemoval.LiveControllersAreQueued | src/features/identity/identity_runtime.cpp:228-262 | a client's live controller is queued exactly once and last, with its pointer, handle, slot and user id; items queued before stay; otherwise nothing changes |
| ControllerRemoval.DrainThins | src/features/identity/identity_runtime.cpp:274-306 | a drain keeps the order, and keeps only items that had not waited yet |
| ControllerRemoval.DrainRemoves | src/features/identity/identity_runtime.cpp:274-306 | removed are items of the queue, at most once each, live with the same pointer and handle and not rebound to another user id; nothing else happens to the world |
| ControllerRemoval.RemovedIsNotKept | src/features/identity/identity_runtime.cpp:274-306 | what a drain removes it does not keep |
| ControllerRemoval.RemovedAtMostOnce | src/features/identity/identity_runtime.cpp:228-307 | over every run an item is removed at most once: between two removals for one handle it was queued anew |
| ControllerRemoval.RemovalIsJustified | src/features/identity/identity_runtime.cpp:276-304 | an item may go iff its controller is live and unchanged, and no client has it or the queued user still does after one drain |
| ControllerRemoval.WaitIsJustified | src/features/identity/identity_runtime.cpp:290-302 | an item waits iff its controller is live and unchanged, it has not waited, and the first client with the controller is the queued user's |
| ControllerRemoval.DrainDecides | src/features/identity/identity_runtime.cpp:265-307 | a drain removes all items that may go, keeps all that have to wait, and drops all others |
| ControllerRemoval.FramesDrain | src/features/identity/identity_runtime.cpp:265-307 | what a frame does with each item: dropped if its controller is not still there, removed at once if no client uses it, kept at the first drain and removed at the second if the queued user does, dropped if another user does first; all dropped without UTIL_Remove |
| ControllerRemoval.OtherStepsQueue | src/features/identity/identity_runtime.cpp:228-310 | a disconnect queues behind the others, a release empties the queue, and only the engine changes the world |
| ControllerRemoval.RunKeeps | src/features/identity/identity_runtime.cpp:228-310 | over every run the handles stay unique and no item has waited twice |
| ControllerRemoval.GoneByTheSecondDrain | src/features/identity/identity_runtime.cpp:265-307 | every item leaves by the second drain after it was queued |
| ControllerRemoval.RemovalQueue.IsControllerReferencedByClient | src/features/identity/identity_runtime.cpp:33-54 | finds the first client with that controller |
| ControllerRemoval.RemovalQueue.QueueControllerRemovalForClient | src/features/identity/identity_runtime.cpp:228-262 | queues as that law says, and answers whether the controller is live |
| ControllerRemoval.RemovalQueue.DrainPendingControllerRemovals | src/features/identity/identity_runtime.cpp:265-307 | erasing in place gives the drain that the laws are about |
| ClanTag.EveryAccessCounts | csharp/BotHiderImpl/features/clantag/ClanTagPresenter.cs:93-108 | for every way an access can fail: when the controller is written, when the call throws, when a write is owed, and when the base is given up |
| ClanTag.CallsAreFaithful | csharp/BotHiderImpl/features/clantag/ClanTagPresenter.cs:87-109 | over every run the base is the value read first and is given up only by a restore that returns normally, when the controller holds it; a failed write is retried by the next call that can read |
| ClanTag.OverridesAreUndone | csharp/BotHiderImpl/features/clantag/ClanTagPresenter.cs:87-109 | after any overrides, failing or not, a restore that returns normally leaves the original value |
| ClanTag.ClanPresentationState.Apply | csharp/BotHiderImpl/features/clantag/ClanTagPresenter.cs:93-108 | the fields and the controller end as specified for every way an access can fail |
| ClanTag.RestoreIsOwn | csharp/BotHiderImpl/features/clantag/ClanTagPresenter.cs:47-67 | a slot's restore writes only to the controller its base came from |
| ClanTag.RestoreSettles | csharp/BotHiderImpl/features/clantag/ClanTagPresenter.cs:47-67 | when a restore gives the slot up, what it leaves on the holder's controller, and that it touches no other |
| ClanTag.EmptyClanRestores | csharp/BotHiderImpl/features/clantag/ClanTagPresenter.cs:15-22 | an empty clan, by tag or group, is a restore, and a player without user id changes nothing |
| ClanTag.OverrideShows | csharp/BotHiderImpl/features/clantag/ClanTagPresenter.cs:23-44 | any other clan is put on the player's controller after a former holder was restored, and no other controller changes |
| ClanTag.OverrideIsOwn | csharp/BotHiderImpl/features/clantag/ClanTagPresenter.cs:15-44 | after an override the slot is held for the player it was made for, iff no other player on the slot was left with a clan that could not be restored |
| ClanTag.OverrideRemembers | csharp/BotHiderImpl/features/clantag/ClanTagPresenter.cs:15-44 | the base then remembered is the holder's own, or else exactly what the player's controller carried after a former holder was given up |
| ClanTag.ClanTagPresenter.Apply | csharp/BotHiderImpl/features/clantag/ClanTagPresenter.cs:15-44 | the three arrays and the controllers end as specified; other slots are untouched |
| ClanTag.ClanTagPresenter.Restore | csharp/BotHiderImpl/features/clantag/ClanTagPresenter.cs:47-67 | the slot is restored on the matching controller and given up, or kept if that failed; other slots are untouched |
| PersonaName.VisibleIsFilter | csharp/BotHiderImpl/BridgeClient.cs:323-332 | the visible elements are those with a visible rune, in order |
| PersonaName.NormalisedIsLongest | csharp/BotHiderImpl/BridgeClient.cs:343-360 | the result is the longest prefix of the visible, trimmed elements that fits in 31 bytes, trimmed at the end |
| PersonaName.NormalisedIsPresentable | csharp/BotHiderImpl/BridgeClient.cs:318-361 | no invisible element, no white space at the edges, at most 31 bytes |
| PersonaName.UnchangedIffPresentable | csharp/BotHiderImpl/BridgeClient.cs:318-361 | a name is left as it is iff it is already like that |
| PersonaName.NormalisingIsIdempotent | csharp/BotHiderImpl/BridgeClient.cs:318-361 | normalising twice is normalising once |
| PersonaName.NormalisedNamesAreAccepted | src/bridge/exports.cpp:110-117 | CopyInput accepts every normalised name, if control characters are elements of their own |
| PersonaName.BlankNamesVanish | csharp/BotHiderImpl/BridgeClient.cs:320-321 | the early return for blank names agrees with the rest |
| PersonaName.IsInvisiblePersonaElement | csharp/BotHiderImpl/BridgeClient.cs:363-371 | invisible iff every rune is |
| PersonaName.IsWhitespacePersonaElement | csharp/BotHiderImpl/BridgeClient.cs:373-387 | white space iff some rune is and the others are that or invisible |
| PersonaName.BuildBoundedVisiblePersonaName | csharp/BotHiderImpl/BridgeClient.cs:318-361 | the loops compute the normalised name |

## Left out

- AvatarRuns.HistoryThenCalmPass: stated where no slot's 32-bit request counter came round unexamined and index 0 of the table is not in a slot's way, because the code publishes nothing there; `AvatarExactness.CalmPassIsExactIff` gives the exact condition, and `AvatarExample` an input for each.
- AvatarHistories.LastWishesArePublished: under the same two conditions, for the same reason.
- AvatarRuns.StepKeeps: the engine itself writes no SteamID entry of the table, and a runtime reset happens only on a table without overrides; with other entries the code would not know of them.
- Lifetimes.StepKeeps: the drain of queued kicks is one step per kick, on values, because the engine may release or adopt bots while a kick is dispatched; finding a bot by name or user id and the kick itself are the engine's.
- Png.HasPngStructure: stated for lengths below 2^32, where the caller passes at most 16 KiB. Chunk checksums and pixel data are not examined, as in the code.
- PopulationAtRest.TraceEndsInMode: for the controller bit of a slot it is stated while the slots that share the controller stay as they are; what a single scope does when they do not is in `ScopeLaws.ClosingUndoesOpening`.
- PersonaName.NormalisingIsIdempotent: about sequences of text elements; splitting text into elements again after joining it, and the Unicode classes, are the runtime's.
- ControllerRemoval.DrainRemoves: removing an entity marks it as being deleted and does nothing else until the drain is over.
- The nesting counters are unbounded numbers; native calls do not nest 2^32 deep.
- Kick and read results are told apart by history fields that no step looks at; clocks, random seeds, task completion and engine answers are parameters.
- Network change notifications, log output, names, crosshair codes and flair: they feed no decision of the modelled parts.
- String-table key formatting: the decimal SteamID is a key constructor of its own, and the sentinel another.
- Entity handles are taken apart by their low 15 bits; the SDK's handle type is not part of this model.
- `PopulationTransactionScope` is used nowhere, so every transaction of the model asks for re-disguise when it begins, as every caller does.
- OnTick runs over one slot; the other slots have windows of their own.
- Disconnect reasons are numbers of the engine's network protocol; the file that defines them is not part of this model, so they are parameters.
- What `Path.GetFileName` and `Path.GetDirectoryName` answer, and how a character folds to upper case, are parameters.
- Signature scanning, gamedata, hook installation, plugin load and unload, JSON and config parsing, convars and the CounterStrikeSharp commands: plumbing without state of its own worth stating.
- Threads and mutexes: the plugin runs on the game thread.
