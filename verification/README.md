# A model of Re Distinto: Instancia, Planificador, Coordinador

Re Distinto is a small distributed key store. ESIs run scripts of GET, SET and STORE. The
Planificador decides which ESI runs and which ESI owns which key. The Coordinador asks the
Planificador before every operation and sends SETs and STOREs to Instancias. Each Instancia keeps
values in a fixed arena of equal slots.

This project models these three processes and the bytes between them, and proves properties of
the model. `dafny verify dfyconfig.toml` checks all of it.

**Instancia.** A byte array cut into slots, a sorted entry table, a count of free slots, and a
status per slot that eviction works on. `Instance.Instancia` is the object whose methods update
these in place; each is proved against a function of the state before. `EntryTable`, `Storage`,
`Compaction`, `Slots`, `Agreement`, `Policies` and `Biggest` say what those functions are and what
holds of them, `Search` and `Eviction` hold the search loops and the three eviction algorithms,
`SetSpecs` and `SetRuns` put a whole SET together, `InstanceRuns` runs of calls and of requests,
`Answers` says in terms of slots what is answered and where a value goes, and `LruRuns` follows the
ages through runs. `Rewrites`, `Regrowth` and `RewriteRuns` say exactly which requests leave the two
tables in agreement; `BrokenPromise`, `EqualSizes` and `OverVictims` are inputs on which the code
does less than it is meant to. The central results: over every run of calls the arena refines a
plain map (`CallsRefineMap`), compaction loses nothing (`MovesLoseNothing`, `CompactionIdempotent`),
over every run of regular requests both tables stay in agreement (`ServiceAgrees`, `ServeSet`), and
over every run of any requests under CIRC and LRU they do so exactly when each request meets the
condition for its kind (`RunFitsIff`).

**Planificador.** Five queues, a lock table and a waiter list. `Planner.Planificador` has the main
loop as one method per event; `Release`, `PlannerTables`, `PlannerSteps` and `PlannerTurns` say what
each step does to the tables as values and why the invariant holds after it; `StoreReleases` says
when a STORE is forgotten. `QueueOrder`, `TurnLaws` and `Wakings` say what a turn does to single
ESIs, locks and requests: who is alive and where, who owns what, in which order the queues stand,
and that who waits for a key is served first come, first served (`TurnTakes`, `OwnerServes`).
`Deadlock` is the detector of the console, proved against cycles in the wait-for graph of
`WaitGraph`.

**Coordinador.** `Gate` interleaves an ESI, the Coordinador, the Planificador and its console, one
event per message, and proves key mutual exclusion over every run. `GateRuns` proves over runs that
an ESI keeps a key until it STOREs it, the operator releases it or the ESI is gone (`LocksLast`),
and that whoever has waited longest is served first (`OldestWakes`, `OldestServed`,
`OldestInherits`); `GateNotes` that arrivals and commands are not lost. `Handoff` has one move per
atomic step of the semaphore hand-off, for any number of threads. `Sharing` and `Dispatch` are the
distribution of keys and the redispatch of failed SETs; `Wire` and `Chunker` the wire format and the
buffers and sockets that carry it.

## How it relates to the source

- Keys are strings compared by equality. The source mixes `strcmp` and `strcasecmp`, so this
  stands for keys that are distinct ignoring case; the statuses also need keys other than the
  empty one and "NULL", which free slots carry (`NO_KEYS`).
- A value has at least one byte. `instance_status` returns it as a C string, so it comes back
  whole exactly when it has no zero byte (`CStringWhole`).
- `list_sort`, lists and dictionaries of so-commons are not part of this model: a sort is any
  ordered permutation, a list is a sequence, a dictionary is a map.
- Slot numbers, sizes and file descriptors are unbounded integers. Where the width decides - the
  index of KE, and everything on the wire - it is written out.
- A process is a sequence of atomic events; a message is one event.
- The unlock flag of the planner is one flag for STOREs and for the releases of a dead ESI, as in
  the source, and this is why a kill can make a STORE be forgotten (`StoreReleasedIff`).
- An ESI told that its operation is illegal exits without reporting, so the planner sees a lost
  connection and never the report of a broken law.
- Dispatching to no instance at all is one of the failing answers of `Gate`.

## Where the code does less than it is meant to

Each of these is kept as the code has it, with an input, and with the exact condition but for BSU,
where the condition is sufficient.

- A rewrite of a live key can leave stale slots in the status table: when it moves or shrinks, and
  when its eviction marks slots that its new block does not take (`ShrinkLeavesStale`,
  `GrowsOverVictims`). `RunFitsIff` has the exact condition over runs under CIRC and LRU. A request
  that needs no eviction keeps the tables in agreement when it is not placed at once, growth by way
  of a compaction included, or stays in place with no fewer slots (`RewriteAgreesIff`). One that
  evicts does when its key is no survivor, when the value stays in place and its block takes every
  victim's slot, or, through a compaction, when no victim lies in the last slots
  (`EvictingAgreesIff`, `LongBlockNeverAgrees`). One that the atomic values are too few for evicts at
  its retry, and does when the victims are then the last entries (`TooFewAgreesIff`). For one call
  or request under any policy there are `CallAgreesIff` and `RequestAgreesIff`.
- An answer of COMPACT is kept exactly when the usage it reports fits (`RetryKeepsPromise`). Under
  CIRC and LRU, and where BSU is exact, that shows before the SET: it fits unless the SET needs an
  eviction that the free slots and the atomic values are too few for (`PromiseIff`,
  `AsksForCompaction`, `CompactNotKept`).
- BSU with free slots takes them off again in each circular call. It replaces exactly what is missing
  when no slot is free, and when one slot is missing and one atomic value is bigger than all the
  others (`BsuExact`). It replaces nothing exactly when there is no such value and the missing slots
  and the atomic values together are at most one more than the free slots (`BsuFindsNoneIff`,
  `NoneForOne`). It can replace two keys for one slot (`TwoForOne`), and it can happen to replace
  what is missing in other cases too: the number depends on the circular pointer
  (`PointerDecides`), so that no condition on the tables alone decides it. `Bsu` computes it.
- The detector follows a null reference when a key-holding ESI leads to a request for a key that
  the system itself has, or nobody has any more (`DetectDeadlocks`, `SystemKeyCrashes`).
- The detector walks for ever from a key-holding ESI that leads into a cycle it is not on
  (`WalkStopsIff`, `AllWalksStopIff`, `TailNeverStops`).
- A kill of an ESI that holds a key makes the planner forget a STORE of the same turn
  (`StoreReleasedIff`, `KillForgetsStore`).
- A status question of the planner's console during a GET of a locked key leaves the planner
  waiting for its own mutex (`ReleasedIff`, `ReleasedSoon`, `StatusGetsStuck`).
- Two queries in flight can swap their answers; with one client, or one query at a time, they never
  do (`CrossIff`, `AnswersFit`, `AnswersCanCross`).
- KE finds no instance for a key that does not start with a letter (`DispatchKey`,
  `NoLetterFindsNone`, `LetterIndexInRange`, `WrapsBeyond`).

## Model

| member | source | states |
|---|---|---|
| EntryTable.ReqEntries | instancia/entry_table.c:13-17 | the rounded-up quotient counts how often the slot size can be taken off before nothing is left |
| EntryTable.BlocksBounds | instancia/entry_table.c:13-17 | that many slots hold the value and one slot fewer does not |
| EntryTable.RemoveWellPlaced | instancia/entry_table.c:262-278 | deleting a key keeps the table sorted, disjoint and inside, gives back exactly its block, and occupies nothing new |
| EntryTable.PutWellPlaced | instancia/entry_table.c:36-83 | an entry put in a free run keeps the table sorted by slot with unique keys and disjoint blocks inside the arena, and takes exactly its block |
| EntryTable.FreeRunAtMostLeft | instancia/entry_table.c:148-237 | in a sound table no free run is longer than `entries_left` |
| EntryTable.FullTableOccupies | instancia/entry_table.c:36-83 | when `entries_left` is 0 no slot is free |
| EntryTable.FirstFit | instancia/entry_table.c:192-237 | the first fit, independent of how it is searched: a free run of the needed length, none starting earlier; -1 exactly when there is none |
| EntryTable.StrictOrderUnique | instancia/entry_table.c:77-81 | sorting by slot number has one outcome on a sound table |
| Search.GetEntry | instancia/entry_table.c:125-135 | the scan finds the entry of the key, and nothing exactly when the key is absent |
| Search.StartsAt | instancia/entry_table.c:137-146 | a number is found exactly when some entry starts there |
| Search.StartsSuffice | instancia/entry_table.c:158-190 | behind an entry, no slot of a run is occupied if and only if no entry starts in it |
| Search.RoomToGrow | instancia/entry_table.c:158-190 | the loop over entry starts decides exactly whether the slots a growing value would add are free |
| Search.GapScan | instancia/entry_table.c:192-237 | the scan of the gaps before, between and after the entries returns the least free run, -1 when there is none |
| Search.NextEntry | instancia/entry_table.c:148-237 | the whole search: the place of the live entry when the value shrinks or can grow there, otherwise the first fit |
| Search.HasContinuousEntries | instancia/entry_table.c:339-423 | true exactly when the key is alone or last in the table or the table without it has a long enough free run |
| Storage.ByteLimitIsSlotLimit | instancia/storage.c:38-46 | the byte test before a write is equivalent to the slot range test: it is what bounds growth in place |
| Storage.AbsentKeyAgrees | instancia/entry_table.c:339-423 | for an absent key the contiguity test and the placement agree on every non-empty table, and -1 is the answer whenever more than `entries_left` slots are needed |
| Storage.SpotIsFree | instancia/entry_table.c:148-237 | wherever a SET places a value inside the arena - fresh, shrunk, grown in place, relocated - its slots are free once the key itself is lifted out |
| Storage.OthersKeepBytes | instancia/storage.c:35-55 | a write in a free run leaves the bytes of every other key as they were |
| Storage.PurgeRefinesMap | instancia/entry_table.c:306-313 | deleting the replaced keys drops exactly those keys from the key-to-value map |
| Storage.PutRefinesMap | instancia/instancia.c:203-216 | a placement changes the map at its key and nowhere else, and the arena stays sound |
| Storage.AttemptRefinesMap | instancia/instancia.c:182-227 | from the contiguity test on: OK sets the key in the map, COMPACT drops it, ERROR changes nothing |
| Compaction.PackedAt | instancia/compactation.c:14-45 | each entry goes to the sum of the slot counts before it, with its key and size |
| Compaction.StageWellPlaced | instancia/compactation.c:14-45 | the table is sorted, disjoint and inside the arena after any number of moved entries |
| Compaction.StageFirstFit | instancia/compactation.c:30-35 | with the next entry lifted out, the first fit for it is the end of the entries moved so far |
| Compaction.StageStep | instancia/compactation.c:23-38 | delete, place, insert and sort turn the table with i moved entries into the one with i + 1, though the list is being indexed meanwhile |
| Compaction.MoveApart | instancia/compactation.c:23-38 | the new place of an entry misses every other entry, moved or still to move |
| Compaction.MovesLoseNothing | instancia/compactation.c:14-45 | after any number of moves every value can be read back where its entry now is |
| Compaction.PackedLookup | instancia/compactation.c:14-45 | every key keeps its index |
| Compaction.FreeSlotsLast | instancia/compactation.c:14-45 | after a compaction a slot is occupied exactly when it lies before the total of the block lengths: the free slots are one last run |
| Compaction.CompactionKeepsMap | instancia/compactation.c:14-45 | a compaction keeps the key-to-value map and `entries_left` |
| Compaction.CompactionIdempotent | instancia/compactation.c:14-45 | compacting twice is compacting once, table and bytes |
| Slots.PickedDistinct | instancia/algorithms.c:88-138 | no slot is a victim twice |
| Slots.PickedIsFirstAtomics | instancia/algorithms.c:88-138 | along an order without repetitions the victims are its first atomic slots, as many as are needed |
| Slots.PickedHeaviest | instancia/algorithms.c:157-190 | victims found along a ranking weigh at least as much as every surviving atomic slot |
| Agreement.AtomicSlotOwner | instancia/algorithms.c:424-437 | in tracking tables an atomic slot is the one slot of an atomic entry with its key and size |
| Agreement.EnoughVictims | instancia/entry_table.c:288-299 | an order that visits every slot finds as many victims as are asked for, up to the count of atomic entries |
| Agreement.VictimKeys | instancia/algorithms.c:88-138 | victims carry distinct live keys of one slot each |
| Agreement.EvictionFrees | instancia/entry_table.c:306-313 | evicting victims frees exactly one slot each |
| Agreement.EvictionTracks | instancia/algorithms.c:88-138 | after an eviction the status table still tracks the entry table; only the slots marked USED are leftovers |
| Agreement.PlacementTracks | instancia/algorithms.c:325-349 | a placement keeps both tables in step when it covers what its key had before |
| Agreement.DeletionTracks | instancia/algorithms.c:351-370 | deleting a key from both tables clears exactly the slots of its block and keeps the tables in step |
| Agreement.FullTableClean | instancia/algorithms.c:325-349 | when no slot is free no leftover of an eviction is left |
| Policies.MoveTracks | instancia/compactation.c:23-38 | one turn of the compaction loop keeps both tables in step |
| Policies.CompactionTracks | instancia/compactation.c:14-45 | so does a whole compaction, and it brings no key back |
| Policies.CompactionUsed | instancia/compactation.c:14-45 | of the slots that an eviction left marked USED a compaction overwrites those before the packed end and no others |
| Policies.PlacementAgreesIff | instancia/algorithms.c:325-349 | a placement leaves the status table exact if and only if the new block covers the old one of its key and every slot that an eviction left marked USED |
| Slots.ClearsThatMany | instancia/algorithms.c:351-370 | of the slots that carry a key as many are cleared as the value had, or all if they are fewer |
| Slots.ClearsFirst | instancia/algorithms.c:351-370 | the ones that are cleared are the first ones |
| Slots.HandIs | instancia/algorithms.c:54-155 | for any number of victims: the hand stops right behind the last one found from the pointer on, and at the end of the list when they are fewer than are asked for |
| Policies.CompactionAges | instancia/compactation.c:14-45 | a compaction forgets which key was SET last: the age of a slot afterwards is the number of entries behind its own |
| Slots.VisitedIs | instancia/algorithms.c:93-121 | a scan that stops right after the last victim it needs, or at the end, is what moves the hand |
| Policies.ShrinkLeavesStale | instancia/instancia.c:203-216 | a concrete rewrite that leaves a stale slot: two slots shrunk to one |
| Policies.CircularVisitsAll | instancia/algorithms.c:90-137 | wherever the hand of the circular algorithm stands, its two loops visit every slot once, in cyclic order from the hand |
| Policies.ExactEviction | instancia/algorithms.c:88-138 | with agreeing tables an eviction that finds the missing number of victims leaves exactly the needed space free |
| Policies.SetKeepsAges | instancia/algorithms.c:325-349 | through a placement the age of each live slot stays the number of SETs since the last one of its key |
| Policies.LruEvictsLeastRecent | instancia/algorithms.c:157-190 | each LRU victim was last SET strictly before every atomic key that survives |
| Eviction.SortDescending | instancia/algorithms.c:145-155 | a permutation of the slots in descending order of age or size |
| Eviction.CircularScan | instancia/algorithms.c:93-137 | the two scan branches together mark the first atomic slots in cyclic order from the hand, and the hand is left where the first of the two loops stopped |
| Eviction.AlgorithmCircular | instancia/algorithms.c:31-142 | CIRC: how many victims, which, in which order in `replaced_keys`, and where the hand stops; -1 and no change when it is not to evict |
| Eviction.AlgorithmLru | instancia/algorithms.c:157-190 | LRU: the first atomic slots along a ranking by age |
| Eviction.AlgorithmBsu | instancia/algorithms.c:192-247 | BSU: for some order by size its victims, their order in `replaced_keys` and the hand are those of its specification, for any number of free slots |
| Biggest.CircularVictims | instancia/algorithms.c:222-228 | the nested circular call on a list with repetitions takes distinct atomic slots of the list, and all of them when it finds too few |
| Biggest.BsuVictims | instancia/algorithms.c:192-247 | whatever the free slots, the order and the hand, BSU takes distinct atomic slots |
| Biggest.GroupHeaviest | instancia/algorithms.c:192-242 | adding the victims of one size keeps every victim at least as large as every surviving atomic slot |
| Biggest.BiggestGo | instancia/algorithms.c:192-247 | BSU with no free slot: each victim is at least as large as every survivor, and they are as many as needed unless the atomic slots run out |
| Biggest.AloneGoes | instancia/algorithms.c:192-247 | BSU, one slot missing and one atomic value bigger than all the others: that one goes and no other, and the hand stays |
| Biggest.BsuExact | instancia/algorithms.c:192-247 | from tracking tables BSU finds exactly the missing number of victims when no slot is free, and from agreeing ones when one slot is missing and one atomic value is bigger than all the others |
| Biggest.BsuFindsNoneIff | instancia/algorithms.c:192-247 | from agreeing tables on which the atomic values would do, BSU finds no victim if and only if none of them is bigger than all the others and they and the missing slots are at most one more than the free slots |
| EqualSizes.Agree | instancia/algorithms.c:192-247 | concrete tables: some values of one byte each in agreeing tables |
| EqualSizes.NoneForOne | instancia/algorithms.c:192-247 | two of them and two free slots: a SET of three slots under BSU replaces none, whatever the order of equals and the hand, and is answered COMPACT with a usage of five slots of four |
| EqualSizes.TwoForOne | instancia/algorithms.c:192-247 | four of them and one free slot: a SET of two slots under BSU replaces two keys where one slot is missing |
| EqualSizes.PointerDecides | instancia/algorithms.c:192-247 | three of them and one free slot: the same SET under BSU replaces two keys or one, by the hand alone, where two slots are missing |
| SetRuns.RetryAfterCompaction | instancia/instancia.c:404-417 | after a compaction an absent key is placed right behind the packed entries, if and only if its slots are at most `entries_left` |
| SetRuns.AbsentAttempt | instancia/instancia.c:182-227 | an absent key with enough free slots never ends in ERROR, and a COMPACT leaves both tables alone |
| SetRuns.PlacementAgrees | instancia/instancia.c:203-216 | placing an absent key on tables ready for it ends with agreeing tables |
| SetRuns.CompactionKeepsReady | instancia/instancia.c:404-412 | a compaction keeps the tables ready for the retry |
| SetRuns.EvictionMakesReady | instancia/instancia.c:160-180 | an exact eviction makes the tables ready for the key that caused it |
| SetRuns.SameBlocksAgrees | instancia/instancia.c:203-216 | a rewrite with as many slots succeeds in place and the tables agree afterwards |
| SetRuns.RunRefinesMap | instancia/instancia.c:151-227 | over any run of SETs, evictions and compactions the arena stays sound, `entries_left` stays within bounds, and table plus bytes stand for the map that the same run gives |
| SetRuns.CStringWhole | instancia/storage.c:65-73 | a value is read back whole exactly when it has no zero byte |
| SetRuns.CStringStops | instancia/storage.c:65-73 | otherwise it is read back up to its first zero byte |
| SetRuns.ReadsBackWhole | instancia/instancia.c:260-274 | over any run of SETs of such values every key reads back as the map says |
| Answers.AtomicCountIs | instancia/entry_table.c:288-304 | the atomic entries are exactly those that take one slot |
| Answers.AttemptIs | instancia/instancia.c:182-227 | from the contiguity test on: COMPACT exactly when the key is neither alone nor last and no free run without it is long enough; otherwise OK exactly when the value stays in place and the arena does not end before it, or does not stay and some run is free |
| Answers.AttemptPlaces | instancia/instancia.c:182-227 | where the value goes: in place, or to the free run that no other starts before; every other entry stays |
| Answers.CallAnswers | instancia/instancia.c:151-227 | one call, in slots: NO_SPACE exactly when the value lacks more slots than are free or taken by entries of one slot; otherwise the status of the placement, with the replaced keys gone if slots are lacking; ERROR under CIRC without a victim |
| InstanceRuns.NoSpaceIff | instancia/instancia.c:151-158 | a call is refused for lack of space exactly when its value lacks more slots than are free or taken by atomic entries |
| InstanceRuns.SpecIsServe | instancia/instancia.c:151-227 | a call of `instance_set` is a refusal that changes nothing, or one attempt on the table without the dropped keys, with its status |
| InstanceRuns.CallsRefineMap | instancia/instancia.c:327-475 | over any sequence of calls of `instance_set` and compactions, under any policy, the instance stays sound, `entries_left` stays within bounds, and table plus bytes stand for the map that the calls make |
| InstanceRuns.RequestAgrees | instancia/instancia.c:359-435 | from agreeing tables a whole such request - one call, or call, compaction and second call - ends agreeing, in OK or refused untouched |
| InstanceRuns.ServiceAgrees | instancia/instancia.c:327-475 | over any run of such requests both tables agree after each, and the instance stands for the map of the run |
| Rewrites.CallAgreesIff | instancia/instancia.c:151-227 | one call of `instance_set` on tables in step, any key, size and policy: they agree afterwards if and only if a value that is placed does not move from a place it had, takes no fewer slots, and takes every slot marked USED, and without a placement no slot is marked |
| Rewrites.RequestAgreesIff | instancia/instancia.c:359-435 | a whole SET request from agreeing tables, any key, size and policy: they agree at its end if and only if its last call meets that condition |
| Rewrites.RewriteAgreesIff | instancia/instancia.c:359-435 | a whole request that needs no eviction: the tables agree at its end if and only if the value is not placed at once, or stays in place with no fewer slots; growth by way of a compaction ends in OK and agrees |
| Rewrites.EvictingAgreesIff | instancia/instancia.c:359-435 | a whole request that evicts exactly the missing slots: an absent key, or one that is a victim itself, ends agreeing; a live one placed at once does if and only if it stays put and every victim lies in its new block; one that grows by way of a compaction if and only if no victim lies in the last slots, as many as it held |
| Rewrites.LongBlockNeverAgrees | instancia/instancia.c:359-435 | a live key that survives the eviction and held more slots than were free: when its SET succeeds at once the tables never agree |
| Regrowth.TailRun | instancia/instancia.c:182-227 | after an exact eviction from a packed table an absent key is placed if and only if the victims were the last entries |
| Regrowth.TooFewAgreesIff | instancia/instancia.c:359-435 | CIRC and LRU, a live value that the free slots and the atomic values are too few for: the tables agree at the end if and only if the victims of the last call lie in the last slots, as many as the value takes, and that is when its answer is not COMPACT |
| RewriteRuns.RequestFitsIff | instancia/instancia.c:327-435 | CIRC and LRU, any request from agreeing tables: they agree at its end if and only if the one of these conditions that applies holds |
| RewriteRuns.RunFitsIff | instancia/instancia.c:327-475 | CIRC and LRU, over any run of SETs of any keys and sizes and compactions: the tables agree throughout if and only if every request meets the condition for its kind |
| OverVictims.Agree | instancia/instancia.c:160-216 | a concrete full arena of one value of two slots and three of one, whose tables agree |
| OverVictims.GrowsOverVictims | instancia/instancia.c:160-216 | there a SET that grows the first value by a slot in place succeeds under every policy, replaces the three others, and leaves two slots marked USED |
| BrokenPromise.Agree | instancia/instancia.c:384-412 | a concrete full arena of three values whose tables agree |
| BrokenPromise.AsksForCompaction | instancia/instancia.c:151-195 | there a SET that grows a value is answered COMPACT under every policy, with nothing evicted |
| BrokenPromise.CompactNotKept | instancia/instancia.c:384-412 | the usage it reports is six slots of five, and the second call fails or evicts another key |
| SetSpecs.SpecRefinesMap | instancia/instancia.c:151-227 | `instance_set` as a map update for each status: set, dropped, only the replaced keys gone, or nothing at all |
| SetSpecs.RetryKeepsPromise | instancia/instancia.c:384-412 | an answer of COMPACT is kept - OK without further eviction, using what was reported - if and only if the reported usage fits the arena |
| SetSpecs.PromiseIff | instancia/instancia.c:384-412 | for a SET that evicts nothing or exactly what is missing, whether that usage fits shows before it: it does unless the SET needs an eviction and its slots are more than the free slots and the atomic values together |
| SetSpecs.ChosenExact | instancia/algorithms.c:15-25 | from agreeing tables each policy evicts exactly needed minus free distinct atomic keys (BSU when no slot is free, or one is missing and one atomic value is the biggest alone) |
| SetSpecs.SetAgrees | instancia/instancia.c:151-227 | from agreeing tables a SET of an absent key, or of a live one with as many slots, that evicts nothing or exactly what is missing, is refused untouched, or ends agreeing, or asks for a compaction it is ready for; never ERROR |
| SetSpecs.RetryAgrees | instancia/instancia.c:404-417 | the retry then succeeds and both tables agree again |
| LruRuns.LruEvictsOldest | instancia/algorithms.c:157-190 | over every compaction-free run from agreeing tables each LRU eviction takes the keys that were SET longest ago |
| Instance.Instancia.constructor | instancia/storage.c:9-33 | a new instance is sound, empty, and its tables agree |
| Instance.Instancia.StorageSet | instancia/storage.c:35-55 | the copy byte by byte writes exactly the value, and is refused exactly when it would pass the end |
| Instance.Instancia.StorageRetrieve | instancia/storage.c:57-63 | reads exactly the bytes of an entry |
| Instance.Instancia.TableDelete | instancia/entry_table.c:262-278 | removes the entry of the key and adjusts `entries_left`; false exactly when the key is absent |
| Instance.Instancia.DeleteFew | instancia/entry_table.c:306-313 | removes the entries of all the listed keys |
| Instance.Instancia.TableInsert | instancia/entry_table.c:36-83 | adds, updates in place or relocates; the list is the sorted table with the key at the given place, and `entries_left` stays exact |
| Instance.Instancia.StatusAdd | instancia/algorithms.c:325-349 | every slot in use gets older and the block is stamped |
| Instance.Instancia.StatusDelete | instancia/algorithms.c:351-370 | clears the first slots with the key, up to the given number |
| Instance.Instancia.AlgorithmsExec | instancia/algorithms.c:15-25 | the victims of the configured policy, marked and listed, and where the circular hand is left, for any number of free slots |
| Instance.Instancia.Compact | instancia/compactation.c:14-45 | the loop over the list it mutates ends with the packed table and the moved bytes |
| Instance.Instancia.InstanceStatus | instancia/instancia.c:260-274 | returns the value of the map as a C string, nothing for an absent key |
| Instance.Instancia.MakeRoom | instancia/instancia.c:160-180 | evicts and deletes, or reports that there was no victim with nothing changed |
| Instance.Instancia.PlaceValue | instancia/instancia.c:182-227 | contiguity test, write, insertion and status update act together as one attempt |
| Instance.Instancia.InstanceSet | instancia/instancia.c:151-227 | the whole new state, status and replaced keys of a SET |
| Instance.Instancia.CompactAndRetry | instancia/instancia.c:404-417 | compaction and second attempt keep what the COMPACT answer reported |
| Instance.Instancia.ServeOne | instancia/instancia.c:340-475 | one turn of the request loop keeps the tables agreeing; the value just SET is the one held; it ends the loop exactly for an accepted SET that lacks more slots than are free or atomic, and leaves the state as it was then |
| Instance.Instancia.ThreadApi | instancia/instancia.c:327-475 | the request loop: it serves all the requests, or stands at one that is not regular, or ended at one that is too big; the tables agree throughout and the instance stands for the map that its calls make |
| Instance.Instancia.ServeSet | instancia/instancia.c:359-435 | the SET request: refusal of replaced keys; NO_SPACE exactly when the value lacks too many slots, otherwise the status of the placement; it is one call of `instance_set`, or two around a compaction; the map afterwards for every outcome; from agreeing tables and for regular requests OK, no more keys replaced than slots missing, and agreement at the end |
| WaitGraph.EndsOrCycles | planificador/consola.c:285-340 | a walk in a wait-for graph ends or gets to a cycle; the measure is the ESIs not visited yet |
| WaitGraph.WalkStopsIff | planificador/consola.c:335-340 | the detector's walk stops if and only if its start is on a cycle or leads to none |
| WaitGraph.CycleReachesBack | planificador/consola.c:240-377 | lying on one cycle is symmetric |
| Deadlock.Follow | planificador/consola.c:285-340 | the walk collects the chain of owners up to an ESI with no request or back to the start, or crashes at a request that leads out of the system |
| Deadlock.NumberFrom | planificador/consola.c:240-377 | one turn of the detector numbers a whole chain, none of which gets to such a request, and keeps what was numbered before |
| Deadlock.DetectDeadlocks | planificador/consola.c:192-377 | it crashes exactly when a key-holding ESI leads to a request for a key of nobody in the system; otherwise two ESIs get the same positive number exactly when they lie on one cycle, 0 exactly when they lie on none, and the numbers are 1 to the count of deadlocks |
| Deadlock.AllWalksStopIff | planificador/consola.c:240-377 | all walks the detector may start stop if and only if no key-holding ESI leads into a cycle it is not on |
| Deadlock.SystemKeyCrashes | planificador/consola.c:295-306 | a concrete table with a key locked by configuration on which the detector crashes |
| Deadlock.TailNeverStops | planificador/consola.c:240-377 | a concrete table whose third ESI makes the detector walk for ever |
| Release.FirstWaiterIs | planificador/planificador.c:777-798 | the first waiter of a key is the request that no other on the key stands before; there is none exactly when nobody waits for it |
| Release.UnlockAllIs | planificador/planificador.c:777-848 | releasing several keys wakes for each its first waiter in list order and leaves the rest of queues, locks and waiters in place |
| Release.ReleaseExact | planificador/planificador.c:877-937 | `release_resources` exactly: no lock or waiter entry of the ESI is left, the woken are the first waiters of its keys and nobody else, everything else keeps its place |
| PlannerTables.UnlockKeeps | planificador/planificador.c:818-848 | releasing a key keeps the queues a partition and blocked equal to waiting |
| PlannerTables.ReleaseKeeps | planificador/planificador.c:877-937 | releasing an ESI that has left the queues restores the invariant without it |
| PlannerSteps.InvMeans | planificador/planificador.c:639-645 | the invariant for one ESI: in exactly one queue once if live, in none otherwise, and blocked exactly when it has one waiter entry |
| PlannerSteps.SockKeeps | planificador/planificador.c:939-970 | losing a live ESI keeps the invariant and exactly the locks of the others |
| PlannerSteps.SockAllKeeps | planificador/planificador.c:972-1006 | so does losing several |
| PlannerSteps.SockAllUnlock | planificador/planificador.c:972-1006 | a pending release survives exactly when none of the lost ESIs held a key |
| PlannerSteps.WakeAllKeeps | planificador/planificador.c:409-430 | console releases keep the invariant and add no lock |
| PlannerSteps.ParkKeeps | planificador/planificador.c:320-333 | an ESI that starts to wait keeps the partition |
| PlannerSteps.LockKeeps | planificador/planificador.c:1116-1119 | locking a free key for an ESI that is not blocked keeps owners unique and nobody waiting for itself |
| PlannerSteps.EndKeeps | planificador/planificador.c:349-358 | the end of a script keeps the invariant |
| PlannerSteps.ElectKeeps | planificador/planificador.c:850-861 | an election keeps the partition, with one ESI in execution |
| PlannerSteps.CorpsesAre | planificador/planificador.c:939-1006 | ESIs that are lost go to the queue of the finished, each once, in the order in which they are lost |
| PlannerSteps.ElectTakesHead | planificador/planificador.c:850-861 | an election puts the head of the sorted ready queue in execution, leaves the rest in order and touches nothing else |
| PlannerSteps.BlockAllKeeps | planificador/planificador.c:1222-1257 | console blocks of ready ESIs all come true and keep the invariant |
| PlannerTurns.ConsoleBlockedKeeps | planificador/planificador.c:1175-1294 | every console block that names an executing or ready ESI comes true, and the invariant holds |
| PlannerTurns.HousekeepingKeeps | planificador/planificador.c:359-391 | releases, arrivals and console blocks keep the invariant and put nobody in execution |
| PlannerTurns.TurnKeeps | planificador/planificador.c:294-391 | a whole turn after a report keeps the invariant and leaves nobody but the reporting ESI in execution |
| PlannerTurns.IdleKeeps | planificador/planificador.c:409-441 | so does an idle turn |
| StoreReleases.WakeAllDrops | planificador/planificador.c:363-377 | console releases drop a lock exactly when they name its key more often than it has waiters |
| StoreReleases.SockAllLeaves | planificador/planificador.c:972-1006 | the deaths of other ESIs leave exactly those waiters of a key that did not die |
| StoreReleases.StoreReleasedIff | planificador/planificador.c:345-391 | after a STORE its ESI is rid of the key at the end of the turn exactly when no ESI killed in that turn held a key, or it was killed itself, or console releases free the key anyway |
| StoreReleases.KillForgetsStore | planificador/planificador.c:345-377 | a concrete turn in which a kill makes the planner forget a STORE |
| QueueOrder.TurnLive | planificador/planificador.c:294-391 | who is alive after a turn: exactly those who were, were not killed, did not die of their report and did not end their script |
| QueueOrder.IdleLive | planificador/planificador.c:409-441 | the same for a turn with nobody in execution |
| QueueOrder.TurnLine | planificador/planificador.c:316-391 | as long as an ESI waits for a key, a later request for it stays behind in the list through a whole turn, and in the list unless its ESI is gone |
| QueueOrder.IdleLine | planificador/planificador.c:409-441 | the same for a turn with nobody in execution |
| QueueOrder.TurnInOrder | planificador/planificador.c:863-875 | the ready queue after a turn, before an election: those that were ready in their order, then the woken, then the new ones in the order of arrival |
| QueueOrder.IdleInOrder | planificador/planificador.c:409-441 | the same for a turn with nobody in execution |
| QueueOrder.TurnNotes | planificador/planificador.c:359-391 | which notes a turn clears: none at the end of a script, none without an arrival or a release, all otherwise |
| QueueOrder.ArrivalsOnly | planificador/planificador.c:863-875 | with nothing but an arrival pending the new queue goes behind the ready one and is empty |
| TurnLaws.TurnPlaces | planificador/planificador.c:294-391 | where each live ESI is after a turn: blocked exactly if it waits; in execution exactly if it was, reported a success and was not blocked; still new exactly if nobody was taken in; ready otherwise |
| TurnLaws.IdlePlaces | planificador/planificador.c:409-441 | the same for a turn with nobody in execution |
| TurnLaws.TurnOwners | planificador/planificador.c:294-391 | locks after a turn: those of ESIs still alive and of the system stay unless their key is released after a STORE or by console; new ones only where a console block asked, for its ESI or, if that does not exist, for the system |
| TurnLaws.IdleOwners | planificador/planificador.c:409-441 | the same for a turn with nobody in execution |
| TurnLaws.TurnAsked | planificador/planificador.c:294-391 | whoever waits after a turn asked before it, reported to be blocked, or was blocked by console on a locked key |
| TurnLaws.TurnWaits | planificador/planificador.c:777-848 | nobody stops waiting for a key unless it is released or its owner is gone |
| TurnLaws.IdleAsked | planificador/planificador.c:409-441 | who waits after an idle turn; a block of an ESI that does not exist leaves the key locked |
| TurnLaws.IdleWaits | planificador/planificador.c:409-441 | nobody stops waiting without reason in an idle turn |
| TurnLaws.TurnHears | planificador/planificador.c:1175-1294 | what became of each console block: a live ESI owns the key or waits for it, unless it waits for something else or is new; the key of one that does not exist is locked |
| TurnLaws.IdleHears | planificador/planificador.c:1175-1294 | the same for a turn with nobody in execution |
| TurnLaws.FirstGetsKey | planificador/planificador.c:1222-1257 | of several console blocks on a free key the first one gets it |
| Wakings.WakeAllTakes | planificador/planificador.c:409-430 | console releases wake the first ones who wait for a key, in order, as many as the key is named |
| Wakings.DeathTakes | planificador/planificador.c:972-1006 | several deaths, that of the owner among them: the first of those who wait and have not died before is woken, the others wait on in order |
| Wakings.TurnTakes | planificador/planificador.c:294-391 | a turn that goes on takes exactly the first ones off the line of each key, as many as it is released - once for a STORE that no death made forgotten, once for each console release - and leaves the others in front of whom console blocks add |
| Wakings.IdleTakes | planificador/planificador.c:409-441 | the same for a turn with nobody in execution |
| Wakings.EndTakes | planificador/planificador.c:877-937 | the end of a script takes the first request for each of its keys and no other |
| Wakings.TurnServes | planificador/planificador.c:777-848 | a turn that releases a key, after a STORE or by console, makes the first one who waits for it ready |
| Wakings.IdleServes | planificador/planificador.c:409-430 | the same for a turn with nobody in execution |
| Wakings.OwnerServes | planificador/planificador.c:877-1006 | when the owner of a key ends its script, dies or is killed, the first one who waits for the key becomes ready, if it has not died itself |
| Wakings.IdleOwnerServes | planificador/planificador.c:877-1006 | the same for a turn with nobody in execution |
| Lists.FirstIsLightest | planificador/planificador.c:647-754 | the head of a list sorted by a rank has the least rank |
| Planner.Planificador.constructor | planificador/planificador.c:128-130 | from a duplicate-free list of initial locks the invariant holds, with an election due |
| Planner.Planificador.UpdateBlockedQueue | planificador/planificador.c:777-848 | who wakes and whether the lock goes |
| Planner.Planificador.ReleaseResources | planificador/planificador.c:877-937 | the loop over the owned keys releases them all, and clears a pending release exactly when there was one to release |
| Planner.Planificador.SockMyPort | planificador/planificador.c:939-970 | the ESI is taken out of whatever queue it is in and releases what it had |
| Planner.Planificador.Burn | planificador/planificador.c:972-1006 | all killed ESIs are lost, but not the one that just ended its script |
| Planner.Planificador.UpdateNewQueue | planificador/planificador.c:863-875 | the new queue is appended to the ready queue and is empty |
| Planner.Planificador.BlockByConsole | planificador/planificador.c:1175-1294 | the three passes over the pending console blocks |
| Planner.Planificador.Reschedule | planificador/planificador.c:647-754 | FIFO elects the head of the queue, the others an ESI of least rank |
| Planner.Planificador.HandleReport | planificador/planificador.c:294-343 | queues and tables after the report alone, when somebody is to be elected, and that an ESI that blocks is the first to wait for the key only if nobody waited for it |
| Planner.Planificador.FinishExecuting | planificador/planificador.c:349-358 | what the end of a script releases |
| Planner.Planificador.Report | planificador/planificador.c:294-405 | a whole turn after a report: new tables, what stays pending, whether somebody is elected and by which order; who is alive, that the killed are in no queue and all who left on that of the finished, that arrivals are taken in; the invariant holds again |
| Planner.Planificador.Tick | planificador/planificador.c:409-441 | an idle turn ends with somebody in execution unless no ESI is ready; who is alive, that the killed are in no queue, that arrivals are taken in; with nothing else pending the ready ESIs and then the new ones are the queue that the election goes by |
| Planner.Planificador.ConnectFirst | planificador/planificador.c:190-206 | on a planner with empty queues and nothing pending a new ESI runs after the next turn |
| Planner.Planificador.Connect | planificador/planificador.c:198-204 | a new ESI enters the new queue and the live ESIs |
| Planner.Planificador.Query | planificador/planificador.c:219-239 | the answer is whether the key has an owner |
| Planner.Planificador.QueryOwner | planificador/planificador.c:241-259 | the answer is whether the executing ESI owns the last key asked for |
| Planner.Planificador.BlockLastKey | planificador/planificador.c:261-273 | a granted key belongs to the executing ESI, and the invariant holds |
| Planner.Planificador.Note | planificador/planificador.c:275-290 | what an unlock request and the console commands leave for the next turn, the kill flag included |
| Planner.Planificador.Run | planificador/planificador.c:185-445 | over any run of allowed events: the queues partition the live ESIs, at most one executes, the reschedule flag implies that none does, blocked means one waiter entry |
| Gate.DemandsMet | coordinador/connection/esi-connection.c:102-128 | whatever the Coordinador asks, the planner is in a state in which it may be asked |
| Gate.GateKept | coordinador/connection/esi-connection.c:102-146 | every step of the ESI, the Coordinador, the planner and its console keeps the gate closed, the exit of an ESI on an invalid line among them |
| Gate.MutualExclusion | coordinador/connection/esi-connection.c:120-146 | over every run a key has at most one owner, and an operation at an instance belongs to the only ESI that runs, which owns the key |
| Gate.GateStarts | planificador/planificador.c:479-499 | with duplicate-free initial locks and nobody connected the gate is closed |
| Gate.MutualExclusionFromStart | coordinador/connection/esi-connection.c:120-146 | the same over every run from the beginning |
| Gate.NothingInBetween | planificador/planificador.c:217-285 | between check and lock of a GET, and while an instance works, no other event changes the locks |
| Gate.GateDecides | coordinador/connection/esi-connection.c:102-146 | what each operation decides from the locks at the time of asking: taken, own, blocked, sent to an instance, or illegal |
| GateRuns.DueKept | coordinador/connection/instance-connection.c:233-236 | a release is pending only between the answer to a STORE and the turn of its report, for a key that its ESI still has; a turn leaves none pending |
| GateRuns.InstanceReplies | coordinador/connection/instance-connection.c:140-172 | the ESI is told that everything is ok if the instance did it, and that it is illegal if not; no lock changes yet |
| GateRuns.SetKeepsKey | coordinador/connection/instance-connection.c:140-145 | after a successful SET and the turn of its report the ESI still owns the key, unless it was killed or the operator released the key |
| GateRuns.StoreFreesKey | coordinador/connection/instance-connection.c:233-240 | after a successful STORE and the turn of its report the ESI has not the key any more, exactly when no ESI killed in that turn held a key, or it was killed itself, or the operator released the key often enough |
| GateRuns.ReportMeans | coordinador/connection/esi-connection.c:102-146 | what a reply comes to with the turn of its report: told to be blocked, the ESI waits for the key it asked for, unless that becomes free in the same turn; told that its operation is illegal, or done with its last one, it is gone; else it is alive unless killed |
| GateRuns.LocksLast | coordinador/connection/instance-connection.c:140-240 | over every run a lock goes only when its ESI has STOREd its key, the operator releases the key, or its ESI is gone |
| GateRuns.OldestWakes | planificador/planificador.c:316-318 | over every run: while an ESI waits for a key, one that asks for it later, by a GET or by console, is not the first to be woken and does not stop waiting unless it dies |
| GateRuns.FirstStays | planificador/planificador.c:777-798 | over every run: who waits for a key first stays the first for as long as it waits |
| GateRuns.OldestServed | planificador/planificador.c:777-848 | over every run: the turn that releases a key, after a STORE or by console, ends the waiting of the one who has waited longest and leaves it ready or running |
| GateRuns.OldestInherits | planificador/planificador.c:877-1006 | the same when the owner of the key ends its script, dies or is killed |
| GateNotes.NotesKept | planificador/planificador.c:185-290 | between two turns no pending arrival, release, block or kill gets lost |
| GateNotes.Noted | planificador/planificador.c:185-290 | each arrival, console command and STORE leaves its note |
| GateNotes.KillsHeard | planificador/consola.c:129-146 | the next turn kills who was to be killed |
| GateNotes.ArrivalsHeard | planificador/planificador.c:863-875 | the next turn but the last one of a script makes the new ESIs ready or running, unless a console block makes them wait |
| GateNotes.BlocksHeard | planificador/planificador.c:1175-1294 | the next idle turn, or one with an arrival or a release, hears the console blocks |
| Handoff.TokenKept | coordinador/connection/scheduler-connection.c:41-116 | semaphores, reader and clients hold one token between them, under every interleaving and for any number of clients |
| Handoff.NeverOverwritten | coordinador/connection/scheduler-connection.c:238-249 | an answer is only stored when the one before has been taken |
| Handoff.OneReceiver | coordinador/connection/scheduler-connection.c:49-112 | at most one thread may receive from the socket |
| Handoff.NothingBetweenAnswers | coordinador/connection/scheduler-connection.c:91-112 | the client that receives the second answer itself never gets a console request instead |
| Handoff.ConversationKept | coordinador/connection/scheduler-connection.c:41-116 | with one query in flight every step of every thread keeps the conversation |
| Handoff.AnswersFit | coordinador/connection/scheduler-connection.c:70-116 | over every such run each client gets an answer to its own question, and no answer ends the process |
| Handoff.StuckForever | planificador/planificador.c:219-259 | with a console status question outstanding the planner never gets back the mutex it keeps between its two answers |
| Handoff.EveryMoveGoesOn | planificador/planificador.c:219-259 | with none outstanding no step brings one up, and every step is one towards the second answer |
| Handoff.ReleasedSoon | planificador/planificador.c:219-259 | then the planner has its mutex back within five steps, whatever the schedule |
| Handoff.ReleasedIff | planificador/planificador.c:219-290 | the planner can get that mutex back if and only if no status question was outstanding |
| Handoff.StatusGetsStuck | planificador/consola.c:149-160 | a concrete run from the start that gets stuck that way |
| Handoff.AnswersCanCross | coordinador/connection/scheduler-connection.c:203-249 | a concrete run in which two queries in flight swap their answers |
| Handoff.CrossIff | coordinador/connection/scheduler-connection.c:203-249 | from the start some client can get the answer to the question of another if and only if there is more than one client |
| Sharing.RotatedKept | coordinador/instance-list/instance-list.c:120-133 | popping and pushing rotates the available instances, whatever disconnected nodes lie between |
| Sharing.RoundRobin | coordinador/distribution.c:47-59 | as many dispatches in a row as there are available instances pick each of them once |
| Sharing.LetterIndexInRange | coordinador/distribution.c:84-92 | the index of KE is one of the instances for every key that starts with a letter and for no other, the latter up to 376451316 instances |
| Sharing.WrapsBeyond | coordinador/distribution.c:84-92 | with one instance more the index of some other character wraps around into the list; a key that starts with a digit finds none of three |
| Sharing.LetterCases | coordinador/distribution.c:84-92 | the letters are the codes 65 to 90 and 97 to 122; a capital has the index of its small letter; the small ones are spread evenly |
| Sharing.LetterIndexMonotone | coordinador/distribution.c:84-92 | a later letter never falls to an earlier instance |
| Sharing.LettersShared | coordinador/distribution.c:84-92 | each instance gets floor(26/n) or ceil(26/n) letters |
| Dispatch.Coordinador.Add | coordinador/instance-list/instance-list.c:84-98 | a new instance comes first in the list, connected and with no entries in use |
| Dispatch.Coordinador.PopAndPush | coordinador/instance-list/instance-list.c:120-133 | the first available instance goes to the end of the list, every other one keeps its place; none exactly when all connected ones are excluded |
| Dispatch.Coordinador.GetByIndex | coordinador/instance-list/instance-list.c:62-82 | the index counts available instances only |
| Dispatch.Coordinador.SortByUsedSpace | coordinador/instance-list/instance-list.c:135-138 | the same instances, ordered by the entries they use |
| Dispatch.Coordinador.ShareBySpace | coordinador/distribution.c:69-82 | LSU picks an available instance that uses no more than any other |
| Dispatch.Coordinador.ShareEqually | coordinador/distribution.c:47-59 | EL picks the first available instance and puts it last |
| Dispatch.Coordinador.ShareByLetter | coordinador/distribution.c:84-99 | KE picks none exactly when there is none or the key does not start with a letter, and by the place of the letter otherwise, capital or small |
| Dispatch.Coordinador.DispatchKey | coordinador/distribution.c:24-45 | a connected home is kept and nothing changes; otherwise the policy picks among the available instances, none only if nobody is left or KE finds no letter; the key table holds the instance and keeps the flag of a key with a live home or none, and every other key |
| Dispatch.Coordinador.CreateKey | coordinador/key-table/key-table.c:38-48 | a new key gets the instance, uninitialized; one that is there gets it and keeps its flag; other keys stay |
| Dispatch.Coordinador.DispatchAgain | coordinador/distribution.c:24-45 | a second dispatch of a key returns the same instance |
| Dispatch.Coordinador.DispatchNewKeys | coordinador/distribution.c:47-59 | n fresh keys under EL go to the n connected instances, each once |
| Dispatch.Coordinador.HandleSet | coordinador/connection/instance-connection.c:101-172 | for each status, an unknown one and a broken connection: who is answered what, what the key table and the used entries become, who is excluded or disconnected and who is asked next |
| Dispatch.Coordinador.DispatchFailed | coordinador/connection/instance-connection.c:174-188 | redispatched to an instance that is connected and not excluded, or answered illegal because none is left |
| Dispatch.Coordinador.ServeSet | coordinador/connection/instance-connection.c:101-188 | a SET never visits an instance twice, gives exactly one answer and is destroyed once; the answer and the key table follow from the last visit |
| Dispatch.FirstLetterCounts | coordinador/distribution.c:84-92 | keys whose first characters are the same, or the two cases of a letter, find the same instance |
| Dispatch.LetterKeys | coordinador/distribution.c:84-92 | which keys start with a letter, by the code of their first character |
| Dispatch.NoLetterFindsNone | coordinador/distribution.c:84-99 | the letter index finds no instance if and only if none is available or the key does not start with a letter |
| Wire.NumberBack | libs/chunker.c:21-35 | a number comes back from its little-endian bytes |
| Wire.NumberDigits | libs/chunker.c:21-35 | each byte of a number is its digit to the base 256, the lowest first |
| Wire.SizeBack | instancia/coordinator_api.c:70-97 | sizes come back, the rest of the stream untouched |
| Wire.IntBack | instancia/coordinator_api.c:99-108 | so do signed integers |
| Wire.VariableBack | libs/chunker.c:132-157 | so do byte strings with their length in front |
| Wire.TextBack | libs/chunker.c:132-157 | so do C strings |
| Wire.SetLayout | coordinador/connection/instance-connection.c:349-372 | a SET request place by place: the code 1, the flag, key and value each with length and terminator |
| Wire.RequestSamples | coordinador/connection/instance-connection.c:375-426 | STORE and the request of a value byte by byte |
| Wire.BareRequests | coordinador/connection/instance-connection.c:396-406 | COMPACT, the test of the connection and KILL byte by byte |
| Wire.NoticeSamples | instancia/coordinator_api.c:145-212 | each notice byte by byte |
| Wire.ConfigLayout | coordinador/connection/instance-connection.c:296-334 | the configuration place by place, the first key first |
| Wire.RequestBack | instancia/coordinator_api.c:99-143 | the instance receives each request as it was sent and consumes exactly its bytes |
| Wire.RequestsBack | instancia/coordinator_api.c:99-143 | so it does any sequence of requests |
| Wire.NoticeBack | coordinador/connection/instance-connection.c:273-294 | the Coordinador receives each notice as it was sent |
| Wire.NoticesBack | instancia/coordinator_api.c:145-212 | so it does any sequence of notices |
| Wire.ConfigBack | coordinador/connection/instance-connection.c:296-334 | the configuration arrives with its list of keys, of any length |
| Chunker.Connection.ChunkSend | libs/chunker.c:73-95 | whatever partial sends the system makes, everything goes in order; on failure a prefix has gone |
| Chunker.Connection.ChunkRecv | libs/chunker.c:111-130 | a short stream is a failure, otherwise exactly that many bytes are consumed |
| Chunker.Connection.ChunkRecvVariable | libs/chunker.c:132-157 | as much as the size in front says |
| Chunker.Connection.RecvTextList | libs/chunker.c:159-203 | the loop receives the same texts as the stream holds |
| Chunker.Connection.ReceiveConfig | instancia/coordinator_api.c:70-97 | agrees with the decoder that `ConfigBack` is about |
| Chunker.Connection.ReceiveRequest | instancia/coordinator_api.c:99-143 | agrees with the decoder that `RequestBack` is about |
| Chunker.Connection.Notify | instancia/coordinator_api.c:145-212 | sends exactly the bytes that `NoticeBack` is about |
| Chunker.Connection.SendRequest | coordinador/connection/instance-connection.c:349-394 | block by block exactly the bytes that `RequestBack` is about, no failure when each block goes in one piece, and on failure a prefix of them |

## Left out

- Biggest.BsuExact: sufficient only; with free slots whether BSU replaces exactly what is missing depends on the circular pointer and on the order of equals, which `Bsu` computes from.
- SetSpecs.SetAgrees: absent keys and rewrites with as many slots, for SETs that evict nothing or exactly what is missing; `RewriteRuns.RunFitsIff` says which other requests end agreeing under CIRC and LRU, `Rewrites.RequestAgreesIff` which under any policy.
- RewriteRuns.RunFitsIff: CIRC and LRU; runs under BSU only request by request, by `Rewrites.RequestAgreesIff`.
- Gate.MutualExclusion: the executing ESI can be lost before it sends its operation and after the answer; the loss of an ESI whose operation is being asked about, granted or done at an instance, or that is not the executing one, is no event.
- Gate.NothingInBetween: the same.
- LruRuns.LruEvictsOldest: runs without compaction only, since a compaction sets the ages anew (`CompactionAges`).
- GateRuns.OldestWakes: for a request that is not asked for once more by console while it waits, since it could be woken and wait again, last, in one turn.
- GateRuns.OldestServed: turns without kills; with kills `Wakings.TurnTakes` says how many are served, and `GateRuns.OldestInherits` is about the death of the owner.
- Deadlock.DetectDeadlocks: for tables in which no key-holding ESI leads into a cycle it is not on; on others the source walks for ever, as `AllWalksStopIff` says.
- Planner.Planificador.Run: kills of live ESIs, at most one pending console block per ESI and none on a key of its own; outside these the queues do not stay a partition.
- Planner.Planificador.Reschedule: the burst estimates and waiting times are a rank that depends on the ESI and the turn; the floating-point formulas are not modelled, nor the preference for the running ESI among equals.
- Sharing.LetterIndexInRange: for keys that do not start with a letter up to 376451316 instances, which is as far as it is true (`WrapsBeyond`).
- Handoff.AnswersFit: one query in flight, which is what the planner's single executing ESI makes of the Coordinador; with more, `CrossIff` says when answers cross.
- SJFCD, the preemptive algorithm: with kills, or a block and an arrival in one step, an ESI can be queued twice.
- Sends of the planner are taken to succeed; pausing the scheduler is not modelled.
- The length test that refuses an operation before the planner is asked.
- STORE at an instance and the dump files it writes, recovery from disk, `mmap`: file input and output.
- The broadcast of COMPACT to the other instances, and the reconnection of an instance under a known name.
- Sockets, `select`, handshakes, threads, signals and process exit, beyond the steps that `Handoff` and `Chunker` name.
- `entry_table_status_continuous_entries`: its index never advances and nothing calls it.
- Configuration files, logging, the console's parser and output, the script parser.
- Memory management: values are copied, nothing is freed.
