# A verified model of parts of the vmangos core

Eight components of the server and its tools, each of which keeps state or does arithmetic over an
unbounded domain, modelled in Dafny and proved against what they are for. All modules verify
together: `dafny verify dfyconfig.toml`.

* **Spawn quotas** (`SpawnQuota.dfy`): a creature group chooses what each of its spawn points
  brings forth, on line and greedily, under a minimum and a maximum per creature entry.
  Maxima hold over every run exactly as long as the fallback is not needed; minima hold in every
  run in which all points spawn exactly if they are feasible at all, provided that no point
  serves two minima, however many maxima there are. With two minima at one point the greedy
  choice can fail although an assignment exists.
* **Creature group** (`CreatureGroup.dfy`): leader election and the two guards that break the
  recursion between the group and its creatures. A group respawn calls every creature that is due
  exactly once, unless a script was faster, whatever is reported back to the group and whomever
  scripts respawn on the way, and no more than seven calls are ever nested. Over every run of
  deaths, respawns, arrivals, departures and attacks, the leader is the original one or a living
  member that stands in for a dead original leader, until one of the two is taken off the map
  without a report; once the original leader lives again, this holds again. A group that is loaded
  before its creatures are there gets there when its leader comes. Breaking up the group leaves
  no pointer to it behind.
* **Game events** (`EventWindow.dfy`, `GameEventMgr.dfy`): the scheduler never sleeps over a
  change of the window of an event that has been loaded, so that the active set and the grid
  follow the windows at every second but the one before an update; spawns are in the grid exactly
  as their event demands through any mix of updates and manual requests.
* **Realm merge** (`RealmMerge.dfy`): the fresh-key allocator, and the sequence of in-place
  updates that makes the keys of two databases disjoint. Both methods carry out one simultaneous
  injective substitution, with no duplicate key at any moment.
* **Conditions** (`Conditions.dfy`, `ConditionStorage.dfy`): evaluation of the condition table, its
  denotational meaning, elimination of negation, and what loading does and does not guarantee.
  All of this is about the rows that can be evaluated, row by row: those that lead neither to a
  missing row nor into a cycle.
* **Cameras** (`Camera.dfy`): observer lists whose callbacks remove the current element from the
  list that is being walked. Whatever comes, moves and goes, every camera is listed once, a
  non-player is registered as active exactly while it is on the map and flagged or watched, and
  a camera that ends is on its owner.
* **Map files** (`MapGrid.dfy`, `MapHeights.dfy`, `MapLiquid.dfy`, `MapFile.dfy`): from the chunks of
  a source file through height packing, liquid merging and the file layout to what the server
  finds when it has loaded the file again: one theorem (`MapFile.ConvertADT`) from the chunks to
  areas, holes, the height at any point and the topmost liquid.
* **Limits** (`AccountLimits.dfy`, `GuardMgr.dfy`): instances per hour, however the visits of all
  accounts interleave and whether they ask or not, with the exact arrivals that put an end to the
  limit; new mail recipients per window; and the charges of guard posts: each against the history
  of all calls.

Where an operation changes fields or arrays in place it is a method of a class, or a method over
arrays, proved against functions and predicates on values; lemmas about whole runs use those.
Random choice, the order of hash maps and what scripts do in a callback are nondeterministic, the
clock is a parameter, and unsigned 32-bit wrap-around and C's truncated remainder are written out.

## What the code does not do

* A pass over the game events divides by zero exactly if a scheduled event has a period of zero, by
  its occurrence or by wrap-around, and the time lies from its start to its end
  (`GameEvents.PassesDefinedIff`). Rows of length zero stay in the table and take part in this;
  reserved slot 0 and the gaps in the numbering are harmless (`EmptySlotLasts`). Restarting a valid
  event without a period leads there at once (`RestartedIsDefinedIff`), so that the results on
  whole runs are about tables whose events have one.
* `NextCheck` would sleep over a change if the length of an event wrapped to zero while its shifted
  start lay whole periods ahead (`EventWindow.NextCheckSoundIff`). Loading excludes this: only
  events that are shorter than a year are shifted (`EventWindow.LoadedIsNoticed`).
* `IsValid` does not order the references of event-target and object-fit conditions. That is all
  that can go wrong: a reference that dangles after loading, and one reference of every cycle, is
  such a one and does not point to a lower row (`LoadedFaultsPointUp`). Both occur
  (`SelfReferenceIsAccepted`, `ErasedReferenceDangles`), but a reference to a higher row that is there
  and leads back to nothing does no harm (`ForwardReferenceIsHarmless`).
* `CanBeUsedWithoutPlayer` looks at required rows only, at needs for a player only, and takes source
  and target for the same. Whether a call without a target can have all its parameters depends on
  every combined row and on the swaps above it (`CompleteWithoutTarget`, `TargetIsNeeded`). The
  answer tells that exactly if some required row asks for a player as the target, or if there are
  needs that it does not see exactly when a required row asks for a player where a swap has put
  the source (`AnswerIsRightIff`). So it invites calls that are never met (`OtherNeedsEscape`,
  `OptionalOperandEscapes`) and refuses complete ones (`SwappedPlayerIsRefused`).
* Logins and game masters enter instances without being asked about the limit, and a player can
  end up elsewhere than he asked for. Each such arrival that finds no room raises by one what an
  hour can hold, and exactly those put an end to the limit for visits that do ask
  (`AccountLimits.RunIsKept`, `AlwaysLimitedIff`): a check drops one expired entry and no more, so
  that once too much is on file as many can be entered in any later hour (`Overrun`). Two logins are
  enough to break a limit of one (`LoginsEscape`).
* What an event replaces is spawned at start only if the event is scheduled then. One that is
  disabled at start and enabled later lacks it until the event has been active or stopped
  (`GameEventMgr.InStepIff`).
* The fallback of `ChooseCreatureId` exceeds a maximum whatever it picks (`FallbackExceeds`).
* An instance limit of zero still lets an account into one instance.
* `AddMember` compares with the current leader, so that it lets the original leader in as a
  member of his own group while someone else leads.
* A guard post discards the rest of an update beyond the recharge time: recharges are more than
  60000 milliseconds apart, one per update at most.

## Model

| member | source | states |
|---|---|---|
| SpawnQuota.LoadLimit | src/game/CreatureGroups.cpp:498-508 | a row of the limits table is dropped exactly if it has a positive maximum below its minimum; a limit that is kept has its own minimum, and its own maximum or the largest number there is if that is not positive |
| SpawnQuota.ChooseAnyId | src/game/Objects/Creature.cpp:63-77 | without quotas the choice is any id before the first zero, or 1 if there is none |
| SpawnQuota.ChoiceIsFree | src/game/CreatureGroups.cpp:395-399 | where nothing is forced, exactly the ids that are unlimited or not used up by others may be chosen |
| SpawnQuota.Survey | src/game/CreatureGroups.cpp:319-352 | after counting the other points, every limit is lowered by exactly the number of them that hold the entry, and the list of points without a creature is complete |
| SpawnQuota.CountListing | src/game/CreatureGroups.cpp:380-388 | the number of points of a set whose data lists the entry |
| SpawnQuota.PickForced | src/game/CreatureGroups.cpp:371-393 | the smallest available entry whose remaining need the other points without a creature cannot exceed, or nothing if there is none |
| SpawnQuota.ChooseCreatureId | src/game/CreatureGroups.cpp:314-399 | the chosen entry is one of those the rule allows: the smallest forced one, else any available one, else any id at all |
| SpawnQuota.RunIsProper | src/game/CreatureGroups.cpp:314-399 | in every state of every run each spawned creature is one that its point lists |
| SpawnQuota.MaxKeptIff | src/game/CreatureGroups.cpp:354-369 | a spawn keeps every maximum whatever is picked, exactly if some id of the point is unlimited or not used up |
| SpawnQuota.FallbackExceeds | src/game/CreatureGroups.cpp:361-369 | once every id of the point is used up, any choice exceeds the maximum of the chosen entry |
| SpawnQuota.MaxHolds | src/game/CreatureGroups.cpp:314-399 | over any run of spawns, respawns and despawns without a fallback no limited entry exceeds its maximum |
| SpawnQuota.UnlimitedIdSuffices | src/game/CreatureGroups.cpp:361-369 | with one unlimited id at every point no run falls back |
| SpawnQuota.SpawnKeepsReachable | src/game/CreatureGroups.cpp:371-399 | with one minimum per point, a spawn keeps the remaining need of every entry within the number of free points that list it |
| SpawnQuota.DespawnKeepsReachable | src/game/CreatureGroups.cpp:324-339 | so does a despawn, for any group |
| SpawnQuota.RunStaysReachable | src/game/CreatureGroups.cpp:314-399 | feasible at the start, the need stays reachable in every state of every run |
| SpawnQuota.MinHolds | src/game/CreatureGroups.cpp:371-393 | whenever all points of a run are spawned, every entry has at least its minimum |
| SpawnQuota.MinimumsIffFeasible | src/game/CreatureGroups.cpp:371-393 | with one minimum per point and any maxima, the minima are met in all runs if and only if no minimum exceeds the number of points that list the entry |
| SpawnQuota.CompetingLimitsFail | src/game/CreatureGroups.cpp:371-393 | with two minima at one point a feasible group can miss a minimum although another assignment meets both |
| CreatureGroups.GameMap.RespawnCreature | src/game/Objects/Creature.cpp:2398-2414 | a creature that is not alive is dead, without corpse, and due now, with all else as before, and one that is alive stays as it is; whatever is reported to the group and whomever scripts respawn meanwhile, the group respawns nobody else, exactly those that scripts have respawned change besides, and they change in the same way |
| CreatureGroups.RestartedIsDue | src/game/Objects/Creature.cpp:2398-2414 | whoever has been respawned by anybody and was not alive lies dead and comes to life at the next tick |
| CreatureGroups.GameMap.AttackedBy | src/game/CreatureGroups.cpp:238-245 | only the called creature can take up the fight, whatever attacks are reported meanwhile |
| CreatureGroups.CreatureGroup.constructor | src/game/CreatureGroups.h:61-63 | a new group is led by its original leader, has no members or options and both guards clear |
| CreatureGroups.CreatureGroup.Depth | src/game/CreatureGroups.cpp:177-219 | the measure that falls with every nested call of a respawn is at most six on entry by a report (seven for the creature's own call), which bounds the nesting |
| CreatureGroups.CreatureGroup.OnRespawn | src/game/CreatureGroups.cpp:146-167 | the original leader takes back the lead; with the option set, every other due creature of the group is respawned once by the group unless a script was faster; a blocked or deleted group changes nothing |
| CreatureGroups.CreatureGroup.RespawnAll | src/game/CreatureGroups.cpp:169-181 | every due creature of the group but the excepted one is respawned by the group exactly once, unless a script was faster, and no other; all of them that were not alive are about to come to life; whoever is respawned by anybody is restarted and nobody else changes; the guard is as before, and nothing happens while a respawn is under way |
| CreatureGroups.SpreadReaches | src/game/CreatureGroups.cpp:184-219 | those due are exactly the creatures of the group that are in the world, wait for their respawn time and are not held back by a battleground |
| CreatureGroups.SpreadRevives | src/game/CreatureGroups.cpp:169-219 | after a group respawn every one of them that was not alive is dead with its time come, and whoever was alive is unchanged |
| CreatureGroups.CreatureGroup.Respawn | src/game/CreatureGroups.cpp:184-219 | respawns the creature exactly if it is in the world, its respawn time lies ahead, no battleground holds it back and no respawn is under way |
| CreatureGroups.SpreadToOne | src/game/CreatureGroups.cpp:184-219 | one respawn ordered by the group, with all that scripts make of it, counts as the respawn of that point alone |
| CreatureGroups.SpreadToNext | src/game/CreatureGroups.cpp:169-181 | respawning one more point extends a partial group respawn, with no creature respawned twice |
| CreatureGroups.SecondPassIsIdle | src/game/CreatureGroups.cpp:169-219 | a second group respawn at the same time orders no respawn at all if those due at first were dead |
| CreatureGroups.CreatureGroup.OnMemberAttackStart | src/game/CreatureGroups.cpp:38-52 | every idle creature of the group but the attacker is called exactly once, and nothing changes but that some of those fight |
| CreatureGroups.CreatureGroup.MemberAssist | src/game/CreatureGroups.cpp:221-244 | calls the creature exactly if it is in the world, alive, has an AI and no victim, and no call is under way |
| CreatureGroups.CalledNext | src/game/CreatureGroups.cpp:46-51 | calling one more creature extends a partial call for help, with no creature called twice |
| CreatureGroups.CallReaches | src/game/CreatureGroups.cpp:221-244 | the creatures called are exactly those of the group that are in the world, alive, with an AI and without a victim |
| CreatureGroups.CreatureGroup.AddMember | src/game/CreatureGroups.cpp:26-36 | adds or replaces a member and its options unless it is the current leader; the original leader stays out of the members exactly if it is not he who is added, or he leads |
| CreatureGroups.CreatureGroup.RemoveMember | src/game/CreatureGroups.cpp:261-269 | removes exactly that member |
| CreatureGroups.CreatureGroup.RemoveTemporaryLeader | src/game/CreatureGroups.cpp:246-259 | removes the member and gives the lead back |
| CreatureGroups.CreatureGroup.OnMemberDied | src/game/CreatureGroups.cpp:75-111 | in a waypoint formation whose leader died the first other member alive in the world leads, or the original leader if there is none; otherwise the lead does not change |
| CreatureGroups.CreatureGroup.DisbandGroup | src/game/CreatureGroups.cpp:271-290 | every creature of the group loses its pointer to it and no other creature changes |
| CreatureGroups.CreatureGroup.RemovalKeepsLeaderIff | src/game/CreatureGroups.cpp:75-111 | taking a creature off the map keeps the leader invariant exactly if it is neither the leader nor the original leader |
| CreatureGroups.CreatureGroup.RespawnsKeepLeader | src/game/CreatureGroups.cpp:169-219 | group respawns keep the leader invariant and the pointers |
| CreatureGroups.CreatureGroup.Die | src/game/Objects/Unit.cpp:1262-1263 | a reported death keeps all invariants, the leader's if it held |
| CreatureGroups.CreatureGroup.Revive | src/game/Objects/Creature.cpp:832-905 | a reported respawn keeps the invariants, gives the original leader his lead back and spreads to the group |
| CreatureGroups.CreatureGroup.OnLeaveCombat | src/game/CreatureGroups.cpp:114-144 | a creature that gives up its fight respawns the rest of the group exactly if the options say so for anybody, or for the original leader who is or would be among those that give up, with the invariants kept |
| CreatureGroups.CreatureGroup.EvadeRespawnsIff | src/game/CreatureGroups.cpp:121-143 | when the options make the group respawn: always, or for the original leader and, if the group gives up together, for anybody while he is alive in the world with an AI |
| CreatureGroups.CreatureGroup.Enter | src/game/Objects/Creature.cpp:278-303 | a creature that comes to the map finds its group again, with the invariants kept |
| CreatureGroups.CreatureGroup.JoinCreatureGroup | src/game/Objects/Creature.cpp:4242-4261 | a creature without a group becomes a member with its options, with the invariants kept |
| CreatureGroups.CreatureGroup.LeaveCreatureGroup | src/game/Objects/Creature.cpp:4263-4282 | a member that leaves while leading gives the lead back; if the original leader leaves, no creature points to the group any more |
| CreatureGroups.CreatureGroup.Handle | src/game/CreatureGroups.cpp:26-293 | whatever happens on the map takes place and keeps guards, pointers and the lead within the group; the leader invariant is lost exactly by taking the leader or the original leader off the map, and restored when the original leader comes to life |
| CreatureGroups.CreatureGroup.Load | src/game/CreatureGroups.cpp:443-480 | exactly the creatures of the rows are members, but for the leader himself |
| CreatureGroups.CreatureGroup.Run | src/game/CreatureGroups.cpp:26-293 | every sequence of happenings keeps the invariants; without removals from the map the leader invariant is never lost, and where it does not hold at first it does once the leader comes to the map alive, if nobody is taken off it later |
| CreatureGroups.FormAndRun | src/game/CreatureGroups.cpp:26-293 | a group formed around a creature satisfies the invariants after every run, the leader invariant included unless somebody was taken off the map |
| CreatureGroups.LoadAndRun | src/game/CreatureGroups.cpp:420-480 | a group that is loaded with its members before any of them is on the map satisfies the invariants after every run, the leader invariant included once its leader has come alive and nobody has been taken off the map since |
| EventWindow.CRemIsTruncated | src/game/GameEventMgr.cpp:43 | the remainder used is that of division truncated toward zero, for every dividend |
| EventWindow.DefinedIff | src/game/GameEventMgr.cpp:39-70 | neither function ever divides by zero for an event exactly if it has a period or ends before it starts |
| EventWindow.WindowIff | src/game/GameEventMgr.cpp:39-44 | from the shifted start on an event is on exactly within one of its windows, each of its length and a period apart, and before its end |
| EventWindow.OffOutside | src/game/GameEventMgr.cpp:39-44 | it is off before its start and from its end on |
| EventWindow.NextCheck | src/game/GameEventMgr.cpp:46-70 | the delay is below 2^32; before the start it reaches exactly the start, from then on it does not pass the end, and after the end it is a day |
| EventWindow.NextCheckSound | src/game/GameEventMgr.cpp:39-70 | an event as loading leaves it does not change state before the predicted moment, for every start, end, leap-day shift and wrapped product |
| EventWindow.NextCheckSoundIff | src/game/GameEventMgr.cpp:39-70 | for any event at all and any moment the prediction is sound exactly if it is not the case that the length has wrapped to zero with the shifted start whole periods ahead |
| EventWindow.LoadedIsNoticed | src/game/GameEventMgr.cpp:219-252 | which is never the case for an event as loading leaves it |
| EventWindow.EmptyIsOff | src/game/GameEventMgr.cpp:39-44 | an event of length zero is never on |
| EventWindow.NextCheckTight | src/game/GameEventMgr.cpp:58-69 | the state flips exactly at the predicted moment when the length lies between zero and the period, the dividend is not negative and the end is not reached |
| EventWindow.NextCheckReaches | src/game/GameEventMgr.cpp:58-69 | under the same conditions the delay reaches a change, or exactly the end |
| EventWindow.FirstStartExact | src/game/GameEventMgr.cpp:55-56 | before the first start the prediction is exactly the start |
| GameEvents.LoadFromDB | src/game/GameEventMgr.cpp:165-256 | every row but row 0 fills its slot, a row for other patches as a disabled event, every other slot is the empty one, and leap days are counted, in eight bits, only for yearly events shorter than a year |
| GameEvents.PassesDefinedIff | src/game/GameEventMgr.cpp:725-757 | no pass divides by zero exactly if every scheduled event has a period or ends before it starts |
| GameEvents.EmptySlotLasts | src/game/GameEventMgr.h:45-47 | the empty slot is no event and divides by zero nowhere |
| GameEvents.RestartedEndsLater | src/game/GameEventMgr.cpp:90-96 | a valid event whose schedule has been overwritten ends after it starts, as before if it can |
| GameEvents.RestartedIsDefinedIff | src/game/GameEventMgr.cpp:72-97 | a valid event whose schedule has been overwritten divides by zero nowhere exactly if it has a period |
| GameEvents.ShortestBounds | src/game/GameEventMgr.cpp:713-757 | the pass asks for no longer delay than the base and the prediction of every scheduled event |
| GameEvents.HardcodedBaseIsShortest | src/game/GameEventMgr.cpp:712-723 | the base is the least of a day and what the enabled hardcoded events ask for |
| GameEvents.ShortestIsAsked | src/game/GameEventMgr.cpp:753-757 | the delay is the base or the prediction of some scheduled event |
| GameEvents.ShortestIsShortest | src/game/GameEventMgr.cpp:712-760 | so it is the least of a day, the requests of enabled hardcoded events and the predictions of events that are neither hardcoded nor disabled |
| GameEvents.LastUpdate | src/game/GameEventMgr.cpp:708-763 | at every second of a run the state is that of the most recent update |
| GameEvents.ActiveSetFollowsWindows | src/game/GameEventMgr.cpp:708-763 | in a run where each update comes exactly when asked for, every scheduled event is active precisely while its window is open, except possibly in the last second before an update |
| GameEvents.OtherEventFrame | src/game/GameEventMgr.cpp:807-959 | spawning and removing the lists of one event disturbs no other |
| GameEvents.SwitchKeepsInStep | src/game/GameEventMgr.cpp:765-805 | exchanging the two lists of an event puts it in step with the active set and keeps all others so |
| GameEvents.GameEventMgr.constructor | src/game/GameEventMgr.cpp:1096-1100 | before the first pass nothing is active and nothing is in the grid |
| GameEvents.GameEventMgr.GameEventSpawn | src/game/GameEventMgr.cpp:807-882 | the list index is in range and exactly the known spawns of the list are added to the grid |
| GameEvents.GameEventMgr.GameEventUnspawn | src/game/GameEventMgr.cpp:884-959 | the list index is in range and exactly the known spawns of the list are removed |
| GameEvents.GameEventMgr.ApplyNewEvent | src/game/GameEventMgr.cpp:783-805 | the event becomes active and in step, every other stays in step |
| GameEvents.GameEventMgr.UnApplyEvent | src/game/GameEventMgr.cpp:765-781 | the event becomes inactive and in step, every other stays in step |
| GameEvents.GameEventMgr.StartEvent | src/game/GameEventMgr.cpp:72-97 | starts a valid event and, on request, overwrites its schedule; otherwise nothing changes |
| GameEvents.GameEventMgr.StopEvent | src/game/GameEventMgr.cpp:99-113 | stops a valid event and, on request, overwrites its schedule; otherwise nothing changes |
| GameEvents.GameEventMgr.EnableEvent | src/game/GameEventMgr.cpp:115-152 | sets the state; only an active event of the table that was changed is stopped, and at once |
| GameEvents.GameEventMgr.UpdateOne | src/game/GameEventMgr.cpp:725-748 | one scheduled event is brought in line with its window and into step |
| GameEvents.GameEventMgr.UpdateAll | src/game/GameEventMgr.cpp:725-757 | after the loop the active set is the updated one, the delay the shortest, and at the first pass every scheduled event is in step |
| GameEvents.GameEventMgr.Update | src/game/GameEventMgr.cpp:708-763 | the pass returns, in milliseconds, one second more than the least of a day, the requests of enabled hardcoded events and the predictions of scheduled ones; every valid event that is neither hardcoded nor disabled is active exactly if its window is open, and those that are one or the other stay as they are |
| GameEvents.GameEventMgr.Initialize | src/game/GameEventMgr.cpp:673-696 | from an empty grid the first pass puts every scheduled event in step |
| GameEvents.GameEventMgr.RunFromStart | src/game/GameEventMgr.cpp:673-763 | updates called at server start and then exactly when asked for produce the run above, and at every second but the one before an update the spawns of every scheduled event are in the grid while its window is open, and those it replaces while it is not |
| GameEvents.GameEventMgr.Serve | src/game/GameEventMgr.cpp:72-152 | every request takes effect and keeps all settled events in step, and exactly those become settled that are active or have been stopped |
| GameEvents.GameEventMgr.ServeFromStart | src/game/GameEventMgr.cpp:72-152 | over any mix of updates and requests a spawn listed for an event is in the grid exactly while it is active, and one it replaces exactly while it is not |
| GameEvents.GameEventMgr.InStepIff | src/game/GameEventMgr.cpp:725-750 | an event that was not scheduled at start and has been neither active nor stopped since is in step exactly if it replaces nothing |
| GameEvents.DormantInStepIff | src/game/GameEventMgr.cpp:741-748 | the same for one kind of spawn lists |
| GameEvents.GameEventMgr.GetGameEventId | src/game/GameEventMgr.cpp:1063-1072 | inverts the list index: the signed event whose list holds the creature, or 0 if none does |
| RealmMerge.UniqueKeyData.constructor | contrib/RealmMerge/RealmMerge.cpp:86-91 | a new allocator has replaced nothing |
| RealmMerge.UniqueKeyData.ReplaceKeyIfNeeded | contrib/RealmMerge/RealmMerge.cpp:93-112 | a key taken in database 1 gets a key used in neither database and not given out before, the same one every time; any other key stays; the search terminates |
| RealmMerge.UniqueKeyData.CounterBounded | contrib/RealmMerge/RealmMerge.cpp:103-108 | the counter never exceeds the number of keys of both databases |
| RealmMerge.UpdateWhere | contrib/RealmMerge/RealmMerge.cpp:388-397 | one statement replaces exactly the cells that hold the old key |
| RealmMerge.StatementExtends | contrib/RealmMerge/RealmMerge.cpp:380-398 | a further statement after a simultaneous substitution is the substitution extended by it, as no new key is an old one |
| RealmMerge.OneMoreStatement | contrib/RealmMerge/RealmMerge.cpp:392 | a statement that leaves the key column without duplicates extends a run of such statements |
| RealmMerge.RenamingKeepsDistinct | contrib/RealmMerge/RealmMerge.cpp:380-398 | renaming a duplicate-free key column leaves it duplicate-free |
| RealmMerge.SlowRename | contrib/RealmMerge/RealmMerge.cpp:380-398 | the whole sequence of statements is one simultaneous substitution on every column, and the states of the key column from one statement to the next never hold a duplicate |
| RealmMerge.OneMoreRow | contrib/RealmMerge/RealmMerge.cpp:364-375 | shifting one more row extends a run of states without duplicates |
| RealmMerge.ShiftColumn | contrib/RealmMerge/RealmMerge.cpp:364-375 | the rows of a column are shifted in any order and guarded zeros stay; for a key column the states after each row, one for every row, hold no duplicate |
| RealmMerge.FastShift | contrib/RealmMerge/RealmMerge.cpp:361-376 | every column is shifted by the same amount, the key column through states without duplicates |
| RealmMerge.ReferencesPreserved | contrib/RealmMerge/RealmMerge.cpp:358-400 | two keys or references are equal after the merge exactly if they were before, and only "no reference" stays that |
| RealmMerge.MergedKeyCount | contrib/RealmMerge/RealmMerge.cpp:352-356 | the merged database has as many keys as both together |
| RealmMerge.MergeKeys | contrib/RealmMerge/RealmMerge.cpp:352-400 | refuses exactly if there are too many keys and then changes nothing; otherwise the columns are renamed by one injective map whose image is disjoint from the keys of database 1 and within 32-bit range; at no moment of either method does the key column hold a duplicate |
| RealmMerge.RenameSlowly | contrib/RealmMerge/RealmMerge.cpp:377-399 | so the slow method |
| Conditions.ProvidedTargets | src/game/Conditions.cpp:683-702 | which requirements an object meets as a target: those for its own kind, for units if it is a player or a creature, and for any object |
| Conditions.ProvidedOthers | src/game/Conditions.cpp:681-750 | the requirements of the source are those of the target after a swap; those of both, of any and of map or object are made of these |
| Conditions.GroundedIffRanked | src/game/Conditions.cpp:119-172 | evaluation of every row comes to an end, with no reference that dangles or closes a cycle, exactly if the rows can be ranked so that every reference falls |
| Conditions.PlaceIsNeeded | src/game/Conditions.cpp:681-750 | a row that finds other objects is never met without map, source and target, whatever its flags; one that combines never lacks parameters of its own |
| Conditions.SwapTwice | src/game/Conditions.cpp:124-125 | two swaps cancel |
| Conditions.OrIsSetwise | src/game/Conditions.cpp:151-160 | the outcome of OR depends only on the set of its operands, not on their order or on which are optional |
| Conditions.AndIsSetwise | src/game/Conditions.cpp:161-171 | so does that of AND |
| Conditions.EventTargetsSetwise | src/game/Conditions.cpp:527-545 | an event-target condition holds exactly if its operand holds of all targets, in any order |
| Conditions.AllTargetsMeetIff | src/game/Conditions.cpp:527-545 | the walk over the targets stops at the first that fails and otherwise meets them all |
| Conditions.MeetsIsHolds | src/game/Conditions.cpp:119-172 | for every row that leads neither to a missing row nor into a cycle, evaluation equals the denotational meaning: leaves see source and target exchanged exactly if the path has an odd number of swaps, missing parameters give false before any reversal |
| Conditions.RewrittenIsGrounded | src/game/Conditions.cpp:140-150 | replacing every NOT by its operand leaves every such row one |
| Conditions.RewritingPreservesMeets | src/game/Conditions.cpp:119-150 | and preserves its value in every call in which no leaf lacks its parameters |
| Conditions.DisabledIsNeverTrue | src/game/Conditions.h:335 | a disabled entry makes the whole table evaluate as if its own part were constantly false |
| ConditionStorage.Storage.IsValid | src/game/Conditions.cpp:753-841 | the entry is rewritten as loading demands and accepted exactly if its references are lower and present and its values make sense |
| ConditionStorage.CombinedIsKeptIff | src/game/Conditions.cpp:757-826 | a NOT, OR or AND entry is accepted, and unchanged, exactly if all it combines is present and lower |
| ConditionStorage.Storage.LoadConditions | src/game/ObjectMgr.cpp:12038-12060 | loading keeps exactly the entries that make sense: what they combine is lower and kept, what they apply is there when they are looked at, and the other tables do not object; only leaves are changed, by being disabled or translated |
| ConditionStorage.LoadedIsRight | src/game/ObjectMgr.cpp:12038-12060 | the same of checking all entries in ascending order, for every table |
| ConditionStorage.LoadedIsOrdered | src/game/Conditions.cpp:753-826 | after loading, every operand of NOT, OR and AND is lower and present |
| ConditionStorage.LoadedFaultsPointUp | src/game/Conditions.cpp:1187-1220 | after loading, a reference that dangles, and one reference of every cycle, belongs to an event-target or object-fit condition and does not point to a lower row |
| ConditionStorage.DownIsGrounded | src/game/Conditions.cpp:753-826 | a row from which no such reference can be reached is evaluated without a missing row or a cycle |
| ConditionStorage.ForwardReferenceIsHarmless | src/game/Conditions.cpp:1187-1196 | an accepted reference to a higher row that closes no cycle does no harm |
| ConditionStorage.SelfReferenceIsAccepted | src/game/Conditions.cpp:1187-1196 | a condition that refers to itself is accepted |
| ConditionStorage.ErasedReferenceDangles | src/game/Conditions.cpp:1206-1220 | an accepted reference to a higher entry dangles once that entry is rejected |
| ConditionStorage.DisabledStays | src/game/Conditions.cpp:827-841 | a disabled entry is accepted unchanged when it is loaded again |
| ConditionStorage.UsableIffRequiredFree | src/game/Conditions.cpp:1363-1381 | usable without a player exactly if no row reached through required operands needs one |
| ConditionStorage.NeedsTargetIff | src/game/Conditions.cpp:676-750 | the requirements that no call without a target meets, below an even and below an odd number of swaps |
| ConditionStorage.CompleteWithoutTarget | src/game/Conditions.cpp:119-172 | a call without a target has all its parameters exactly if no combined row needs the target at its parity of swaps, and everything else is provided |
| ConditionStorage.TargetIsNeeded | src/game/Conditions.cpp:119-172 | if some combined row does, no call without a target has all its parameters, whatever map and source |
| ConditionStorage.UsableIffUnasked | src/game/Conditions.cpp:1363-1381 | usable without a player exactly if no required row asks for a player, neither as the target nor where a swap has put the source |
| ConditionStorage.TargetFreeSplits | src/game/Conditions.cpp:1363-1381 | no combined row needs the target exactly if no required row asks for a player as the target and no row needs it that the answer does not see |
| ConditionStorage.AnswerIsRightIff | src/game/LootMgr.cpp:423-427 | the answer tells whether the call without a target can have all its parameters exactly if some required row asks for a player as the target, or if rows it does not see need the target exactly when a required row asks for a player in the place of the source |
| ConditionStorage.OtherNeedsEscape | src/game/LootMgr.cpp:423-427 | a row that needs a target of another kind, or a source after a swap, is answered yes, and the call without a target is never met |
| ConditionStorage.SwappedPlayerIsRefused | src/game/Conditions.cpp:1376-1380 | a row that looks at the source through a swap is answered no, although the call without a target has all its parameters |
| ConditionStorage.OptionalOperandEscapes | src/game/Conditions.cpp:1373-1375 | an optional operand that needs a player goes unnoticed |
| Cameras.Camera.constructor | src/game/Camera.cpp:28-31 | a new camera is listed once, at its owner |
| Cameras.Camera.SetView | src/game/Camera.cpp:57-97 | the camera moves exactly if the view is another object of the owner's map that can be a view; afterwards it is listed once, in its new source only, and the active set is in step |
| Cameras.Camera.ResetView | src/game/Camera.cpp:105-108 | back to the owner, if he is in the map of the source |
| Cameras.Camera.Handle | src/game/Camera.cpp:99-134 | each event either moves the camera home or updates its grid as the event says |
| Cameras.GameMap.CameraCall | src/game/Camera.h:95-105 | every camera attached at the start is called exactly once although callbacks unlink the current node; those that leave are gone, the others stay in order |
| Cameras.GameMap.EnterGrid | src/game/Camera.h:115-131 | all cameras of the object follow it into the grid, and no view changes |
| Cameras.GameMap.RemovedFromWorld | src/game/Camera.h:121-125 | each attached camera is visited once, and exactly those of other owners in the map leave; afterwards only the object's own player views it exactly if no viewer's player was off the map |
| Cameras.GameMap.VisibilityChanged | src/game/Camera.h:133-136 | exactly the cameras whose owner can no longer see the object leave, and all invariants of the map hold again |
| Cameras.GameMap.Vacate | src/game/Objects/Unit.cpp:8358 | when an object leaves the map every viewer's player is on it: all cameras of others go home and none stays behind |
| Cameras.GameMap.Add | src/game/Maps/Map.cpp:484-520 | an object comes to the map: it is registered if it is flagged or watched, and its cameras follow it |
| Cameras.GameMap.Remove | src/game/Maps/Map.cpp:1306-1345 | an object leaves the map: it is no longer registered, its cameras go home, no other view changes, and all invariants hold again |
| Cameras.GameMap.RemovePlayer | src/game/Objects/Player.cpp:2365-2401 | a player leaves the map: his own camera goes home first, then those that view him, and all invariants hold again |
| Cameras.GameMap.SetActiveObjectState | src/game/Objects/Object.cpp:3366-3393 | changes the flag by leaving the map and coming back, with all invariants kept |
| Cameras.GameMap.Logout | src/game/Camera.cpp:33-40 | a player who has left the map can go: his camera is on himself, as its destructor asserts |
| Cameras.GameMap.Handle | src/game/Camera.cpp:28-134 | whatever comes, goes, moves, looks, hides or is flagged keeps the invariants: cameras listed once, grids followed, non-players registered exactly while on the map and flagged or watched, players and views on the map together |
| Cameras.GameMap.Run | src/game/Camera.cpp:28-134 | so does every run, on objects and cameras created on the way |
| MapGrid.EarlierIsOutside | contrib/extractor/System.cpp:373-450 | no chunk touches a vertex that an earlier chunk owns |
| MapHeights.IndicesPartition | contrib/extractor/System.cpp:376-388 | each of the 145 heights of a chunk is a vertex of exactly one of the two grids, in exactly one place |
| MapHeights.IndicesAreDistinct | contrib/extractor/System.cpp:421-447 | no two vertices share an index, and every index lies within the 145 |
| MapHeights.VertexIs | contrib/extractor/System.cpp:390-447 | the height of a vertex is the base plus the stored one, nine corners and eight middles taking turns |
| MapHeights.FillChunk | contrib/extractor/System.cpp:390-447 | the vertices of a chunk get base plus stored height, or the base alone, and no other vertex changes |
| MapHeights.FillGrid | contrib/extractor/System.cpp:369-450 | every vertex of both grids has the height its last chunk gives it |
| MapHeights.FaithfulIffEdgesAgree | contrib/extractor/System.cpp:369-450 | every chunk finds all its own heights in the grid exactly if neighbours agree on common edges |
| MapHeights.Measure | contrib/extractor/System.cpp:455-477 | the range covers all heights, and is no wider if heights lie between -20000 and 20000 |
| MapHeights.LimitHeights | contrib/extractor/System.cpp:479-494 | heights below the limit are raised to it and the range with them |
| MapHeights.FormatFor | contrib/extractor/System.cpp:505-530 | heights are dropped exactly if the extremes are equal, or packing is allowed and they are close; otherwise the smallest format is taken whose configured limit the range keeps |
| MapHeights.QuantumNear | contrib/extractor/System.cpp:262-270 | a height of the range fits the integer type and is read back within half a step |
| MapHeights.QuantumMonotone | contrib/extractor/System.cpp:533-549 | a higher vertex is stored as no smaller an integer |
| MapHeights.EndsAreExact | contrib/extractor/System.cpp:533-549 | the lowest and the highest vertex are stored without loss |
| MapHeights.Quantise | contrib/extractor/System.cpp:533-549 | every vertex is stored as its integer |
| MapHeights.PackHeights | contrib/extractor/System.cpp:452-555 | limited heights, their exact range, the format that follows from it, and every vertex as its integer |
| MapHeights.ReadingIsNear | contrib/extractor/System.cpp:505-555 | in every format a vertex is read back within the tolerance: the range over 510 or 131070, nothing for floats, the whole range if not stored |
| MapHeights.ToleranceIsConfigured | contrib/extractor/System.cpp:95-98 | the tolerance is below what the configured limits allow |
| MapHeights.SurfaceAtVertices | src/game/Maps/GridMap.cpp:305-369 | the interpolated surface of a square passes through its four corners and its middle |
| MapHeights.SurfaceIsPlane | src/game/Maps/GridMap.cpp:305-369 | over each of the four triangles, edges included, it is the plane through two corners and the middle |
| MapHeights.EveryPlace | src/game/Maps/GridMap.cpp:305-369 | the four triangles cover the square |
| MapHeights.SurfaceIsStraight | src/game/Maps/GridMap.cpp:305-369 | along every line within a triangle the surface is straight |
| MapHeights.SurfaceIsAffine | src/game/Maps/GridMap.cpp:371-437 | interpolating integers and decoding the result is interpolating decoded heights |
| MapHeights.SurfaceIsKept | src/game/Maps/GridMap.cpp:286-505 | at any point of any square, not only at vertices, packed and unpacked surface are within half a step |
| MapLiquid.LevelIsTop | contrib/extractor/System.cpp:590-623 | the level of a layer is the height of the highest corner of its visible cells |
| MapLiquid.CellsAreShown | contrib/extractor/System.cpp:598-607 | the cells of a layer that are counted are those that are not hidden |
| MapLiquid.StackIsAnnounced | contrib/extractor/System.cpp:579-586 | the n-th layer belongs to the n-th kind of liquid that the chunk announces, as far as both go |
| MapLiquid.MergeLayer | contrib/extractor/System.cpp:589-624 | one layer shows its cells, raises exactly the vertices it reaches and higher, and is counted and measured |
| MapLiquid.TopIsHighest | contrib/extractor/System.cpp:566-624 | a merged vertex has the height of the highest surface that reaches it, and none if none does |
| MapLiquid.ChoiceIsLargest | contrib/extractor/System.cpp:626-632 | the type comes from the first layer with the most cells, higher level deciding ties; a layer without cells is never chosen |
| MapLiquid.MergeSurface | contrib/extractor/System.cpp:579-632 | one layer of a chunk extends tops, visibility, type and count to the longer stack |
| MapLiquid.MergeSurfaces | contrib/extractor/System.cpp:579-633 | all layers that are announced and present are merged, in order |
| MapLiquid.MergeChunk | contrib/extractor/System.cpp:557-653 | a chunk contributes its type, its visible cells and the vertices it reaches, and nothing else |
| MapLiquid.MergeGrid | contrib/extractor/System.cpp:557-656 | a sub cell is shown exactly if one of its surfaces shows it, and its first corner then has the height of the topmost one although chunks overwrite common vertices |
| MapLiquid.TypedIffShown | contrib/extractor/System.cpp:597-632 | flags and entry of a chunk differ from zero exactly if some sub cell of it is shown |
| MapLiquid.TypeIsChosen | contrib/extractor/System.cpp:604-632 | the type is that of the chosen layer, with the bit for deep water exactly if any layer shows a dark cell |
| MapLiquid.DarkIsBit | contrib/extractor/System.cpp:601-605 | a cell is dark if it is not hidden and its highest bit is set |
| MapLiquid.DeepIfDark | contrib/extractor/System.cpp:604-605 | any dark cell of any layer makes the chunk deep |
| MapLiquid.DarkIfDeep | contrib/extractor/System.cpp:604-605 | and no chunk is deep without one |
| MapLiquid.HasFullType | contrib/extractor/System.cpp:661-675 | whether chunks are of more than one type |
| MapLiquid.FindBox | contrib/extractor/System.cpp:688-710 | the smallest box of shown sub cells and the range of heights; sub cells not shown are cleared, shown ones are not touched |
| MapLiquid.PackLiquid | contrib/extractor/System.cpp:658-740 | there is a section exactly if anything is shown; the box is from 2 to 129 wide and high, lies within the vertices, contains all shown sub cells and touches one on each side; a common type exactly if all chunks have it, a common level only if it does for all, and levels one by one only if some surface is far from the common one |
| MapFile.ReadWritten | src/game/Maps/GridMap.cpp:151-255 | an array that stands at a position is read back from it |
| MapFile.WriteRows | contrib/extractor/System.cpp:804-808 | the rows of the box follow each other without gap |
| MapFile.WriteMap | contrib/extractor/System.cpp:766-817 | the sequence of writes is the image of all sections |
| MapFile.SectionSizes | contrib/extractor/System.cpp:352-367 | every section is as long as its header announces, for every packing |
| MapFile.WidthFits | contrib/extractor/System.cpp:505-530 | the integers of a format are those that its number of bytes can hold |
| MapFile.SectionsTile | contrib/extractor/System.cpp:742-817 | every section stands at the announced offset, right after the one before it, up to the end of the file |
| MapFile.AreaIsRead | src/game/Maps/GridMap.cpp:151-167 | the area section is read as it was written |
| MapFile.HeightIsRead | src/game/Maps/GridMap.cpp:169-211 | so is the height section in each of its four formats |
| MapFile.LiquidIsRead | src/game/Maps/GridMap.cpp:223-255 | so is the liquid section with and without types and levels |
| MapFile.RoundTrip | src/game/Maps/GridMap.cpp:77-131 | loading what was written gives back what was stored, for every combination of packings |
| MapFile.AreasAreKept | src/game/Maps/GridMap.cpp:257-267 | every chunk has its own area, stored one by one or once for all |
| MapFile.HeightIsFound | src/game/Maps/GridMap.cpp:507-595 | a level fits a sub cell of the box if it is what the server finds there, or a common one close below |
| MapFile.LevelsAreKept | src/game/Maps/GridMap.cpp:507-595 | over every sub cell of the box the server finds the height of its first corner, or the common level |
| MapFile.OnlyTheBoxHasLevels | src/game/Maps/GridMap.cpp:583-595 | the server finds liquid over exactly the sub cells of the box |
| MapFile.ConvertLiquid | contrib/extractor/System.cpp:557-740 | from the layers of all chunks to a section in which the server finds the topmost surfaces and the kinds again, and no level outside the rows and columns shown, or to none exactly if all is dry |
| MapFile.PackedSurvives | src/game/Maps/GridMap.cpp:507-554 | over every flooded sub cell the server finds the topmost surface, or a common level below it that is as close as configured, and for every chunk its own kind of liquid |
| MapFile.ConvertHeights | contrib/extractor/System.cpp:369-555 | every vertex of both grids is stored, row by row, as its limited height or the integer for it |
| MapFile.VertexSurvives | src/game/Maps/GridMap.cpp:169-212 | the height the server makes of it is within the tolerance of the format |
| MapFile.VerticesAreFound | src/game/Maps/GridMap.cpp:286-505 | at the vertices of every square of a loaded map the server finds what is stored for them, each in its own place |
| MapFile.SourceVertices | contrib/extractor/System.cpp:369-494 | so is the height of the source at a vertex that of the vertex itself |
| MapFile.PointSurvives | src/game/Maps/GridMap.cpp:286-505 | the height the server works out at any point of a square, from the five stored vertices around it, is within the tolerance of the format |
| MapFile.ConvertedHeightsSurvive | src/game/Maps/GridMap.cpp:286-505 | and that over the whole grid |
| MapFile.ConvertADT | contrib/extractor/System.cpp:302-817 | from the chunks of a source file to the server: whatever the packing, the file loads, and gives back every chunk's area, the holes, at any point the interpolated height of the source within the tolerance of the format, the topmost liquid surfaces over what is shown, none in rows or columns outside it, and the kinds of liquid, or no liquid exactly if all is dry |
| AccountLimits.AccountMgr.CheckInstanceCount | src/game/AccountMgr.cpp:441-460 | lets in exactly if the account or the instance is on file, there is room, or an entry has expired; only in the last case something changes, and the first expired entry goes |
| AccountLimits.AccountMgr.AddInstanceEnterTime | src/game/AccountMgr.cpp:462-473 | files the time and changes no other account |
| AccountLimits.AnswerIsFair | src/game/Maps/MapManager.cpp:207-214 | whoever is kept out has used up the limit within the last hour, for whoever is let in there is room |
| AccountLimits.AccountMgr.Handle | src/game/Maps/Map.cpp:2210-2221 | one player asks, or arrives with or without having asked: exactly his account changes, as the rule for one account says, and every arrival is filed |
| AccountLimits.AccountMgr.Serve | src/game/AccountMgr.cpp:441-473 | over any run, however the visits of all accounts interleave, no account enters more distinct instances in any closed hour than the limit (one if the limit is zero) plus the number of its arrivals without leave that found no room; an account that always asks stays within the limit |
| AccountLimits.StepIsKept | src/game/AccountMgr.cpp:441-473 | a check keeps any cap at or above the limit, an arrival with leave finds room under it, and one without leave raises it by one at most |
| AccountLimits.RunIsKept | src/game/AccountMgr.cpp:441-473 | so does any run: the file and every hour hold no more than the limit and the crowding arrivals so far |
| AccountLimits.AskedIsNotCrowded | src/game/Objects/Player.cpp:2132-2163 | an account that asks before every arrival crowds nowhere |
| AccountLimits.Overrun | src/game/AccountMgr.cpp:453-458 | with more on file than the limit, visits that all ask can break it within one later hour, as each check drops one expired entry only |
| AccountLimits.StaysLimitedIff | src/game/AccountMgr.cpp:441-473 | from a given state the limit holds over all runs of asked visits exactly if it has held so far, no more is on file than the limit, and what has been granted has room |
| AccountLimits.AlwaysLimitedIff | src/game/AccountMgr.cpp:441-473 | the limit holds at every moment of a run and in all its asked continuations exactly if no arrival without leave has found no room |
| AccountLimits.LoginsEscape | src/game/Handlers/CharacterHandler.cpp:568 | two logins into different instances break a limit of one |
| AccountLimits.EntryIsKept | src/game/AccountMgr.cpp:462-473 | filing an entry when there is room keeps the file and every hour of the history within the cap |
| AccountLimits.ExpiredMayGo | src/game/AccountMgr.cpp:453-458 | dropping an expired entry loses nothing that a later hour counts |
| AccountLimits.RefusedAreMany | src/game/AccountMgr.cpp:451-459 | a refusal means that the limit was used up within the last hour |
| AccountLimits.ZeroLimitLetsOneIn | src/game/AccountMgr.cpp:441-473 | with limit zero one instance is entered all the same |
| AccountLimits.AccountPersistentData.CanMail | src/game/AccountMgr.cpp:517-531 | an old recipient, or fewer recent recipients than allowed |
| AccountLimits.AccountPersistentData.JustMailed | src/game/AccountMgr.cpp:512-515 | renews the time on file of the recipient |
| AccountLimits.AccountPersistentData.Mail | src/game/Handlers/MailHandler.cpp:330-349 | a mail is refused exactly if the recipient is new and enough others were written to in the window that ends now |
| AccountLimits.AccountPersistentData.Serve | src/game/AccountMgr.cpp:512-531 | over any run first mails go to no more than the allowed number of recipients in any window, although later mails renew times |
| AccountLimits.RecentIsWithin | src/game/AccountMgr.cpp:523-527 | the recipients counted are those of the whole history in the window |
| AccountLimits.NewRecipientIsAllowed | src/game/AccountMgr.cpp:517-531 | one more new recipient keeps every window within the limit |
| GuardPosts.GuardMgr.Update | src/game/GuardMgr.cpp:231-255 | every post sees the time pass: cooldown, common timer and at most one charge |
| GuardPosts.GuardMgr.SummonGuard | src/game/GuardMgr.cpp:421-442 | a charge is spent exactly if the post has one and no cooldown, and no other post changes |
| GuardPosts.GuardMgr.Serve | src/game/GuardMgr.cpp:231-255 | any sequence of calls acts on each post as the sequence of events that concern it |
| GuardPosts.ChargesAreConserved | src/game/GuardMgr.cpp:252-253 | charges stay between 0 and 10, and none is spent that was neither there nor refilled |
| GuardPosts.ChargesAddUp | src/game/GuardMgr.cpp:231-255 | final charges and spends are the initial charges and exactly the refills that found the post below its maximum |
| GuardPosts.CooldownRunsDown | src/game/GuardMgr.cpp:245-251 | between two spends the cooldown falls by exactly the time that passes, down to zero |
| GuardPosts.AnswersIff | src/game/GuardMgr.cpp:436-442 | after a spend the post answers again exactly if a cooldown has passed and a charge is left or has been refilled |
| GuardPosts.RefillsComeIff | src/game/GuardMgr.cpp:235-241 | there is a refill exactly if more time passes than the timer holds, and until then it falls by exactly that time |
| GuardPosts.RefillsTakeTime | src/game/GuardMgr.cpp:235-241 | refills are more than 60000 milliseconds apart however time is cut into updates |
| GuardPosts.SpendsTakeTime | src/game/GuardMgr.cpp:245-251 | spends are 10000 milliseconds apart |
| GuardPosts.SpendsAreBounded | src/game/GuardMgr.cpp:231-255 | in any stretch of any run the spends are bounded by its length in both ways |
| GuardPosts.SpendsAreApart | src/game/GuardMgr.cpp:436-442 | at least 10000 milliseconds pass between two spends |
| GuardPosts.ServeFromStart | src/game/GuardMgr.cpp:159-255 | from the start a post spends at most ten charges and one for every 60001 milliseconds |
| GuardPosts.BoundIsTight | src/game/GuardMgr.cpp:231-255 | from the second recharge on that bound is attained |

## Left out

- GameEvents.GameEventMgr.StartEvent: what the script of a hardcoded event does when it is enabled is left out; the overwritten schedule is stated as the code has it, with a length in minutes added to a time in seconds; nothing is claimed about what follows from it.
- GameEvents.GameEventMgr.StopEvent: the same holds for its overwritten schedule.
- GameEvents.GameEventMgr.RunFromStart: tables in which a pass would divide by zero are excluded; PassesDefinedIff says which these are.
- GameEvents.GameEventMgr.EnableEvent: what the script of a hardcoded event does when it is enabled or disabled is left out.
- GameEvents.GameEventMgr.Update: hardcoded events count only through the delays they ask for, and the clock stands still during one pass.
- CreatureGroups.GameMap.RespawnCreature: scripts may report respawns and respawn creatures, but not make creatures die, join or leave meanwhile, which would change the members while the program walks over them; no creature is dead by default.
- MapHeights.Quantise: real arithmetic, without the rounding of floats.
- MapFile.RoundTrip: a file that is not complete fails to load in the model, while the server goes on with whatever it has read.
- MapLiquid.PackLiquid: nothing is claimed about the heights of the other three corners of a sub cell, which the walk through the grid may clear.
- Conditions.MeetsIsHolds: the leaves, such as auras, quests or distances, are arbitrary predicates of target, map and source; a row that leads to a missing row or into a cycle has no value, as the program's lookup then ends in a null pointer or without end.
- Event pools, quests, mails and creature changes that come with an event.
- Notifications of group members about deaths, the joint evading itself (but not whether it makes the group respawn), positions in a formation, and the database commands of groups.
- The columns of the realm merge whose guards differ between the two methods (`caster_guid`, `mail.sender_guid`), the renaming of characters and guilds by name, and the tables of other key spaces, which follow the same pattern.
- The order of keys in ordered maps where the outcome does not depend on it: the loops then take members in any order.
- Chunks missing from a source file: the walk over area ids already needs all of them.
- Holes: copied without change. Heights over holes: only the float variant of the server's lookup looks for them.
- Locks and threads: every component is modelled as called by one thread at a time.
- Network packets, logging, progress bars and configuration files.
