# nibrun: protocols, allocators, codecs and parsers

This project models the parts of nibrun whose correctness depends on more than one function at a
time: the host agent's admission and drain protocols, the SQLite stream store with its relay and
guest, the slot allocator, the tenant log queue, the guest runtime's in-place parsers and codecs, and
the checkers that exist once as an incremental form and once as a simple one.

`dafny verify dfyconfig.toml` checks all of it.

## How the source is modelled

- A TypeScript class or Effect service whose state is replaced step by step is a `class` with those
  fields; a C struct filled or rewritten in place is a `class` with those fields and arrays; a loop is
  a `method` with that loop. Each is proved against functions on values, and the properties are
  proved about those functions.
- Concurrency is a transition system over the same functions. One step is one `yield*`-separated
  action of an Effect fiber, or the JavaScript between two awaits. Any number of fibers take steps in
  any order, and a fiber may be interrupted at every step at which Effect can interrupt it. A run is a
  sequence of states; the main results hold in every state of every run.
- A `Deferred`, a semaphore or an object that a fiber creates is named by that fiber, which makes it
  new. A random UUID is a number not used before. What the kernel, SQLite, SHA-256, a clock or a
  remote side answers is a parameter.

| files | what they model |
|---|---|
| `VolumeMigrationFences`, `FenceProtocol` | the readers/writer fence around volume migration |
| `GuestActivity`, `ActivityProtocol` | the per-app gate, counter and drain barrier of guest work |
| `AppWaker`, `WakeProtocol` | single-flight wakes |
| `HostComposition` | all three nested as the host nests them |
| `HranaStreams`, `HranaRelay`, `HranaPipeline`, `RelayProtocol`, `RelayRuns`, `RelaySteps`, `RelayAnswers`, `RelayWrap` | stream store, relay and guest pipeline, alone and together |
| `SlotAllocator`, `SlotRuns` | the cyclic slot allocator |
| `TenantLogQueue`, `LogQueueProtocol` | the bounded log queue and its one consumer |
| `ConfigReferences`, `ConfigExpansion`, `ConfigArguments`, `TenantEnvironment`, `CronEnvironment` | instance configuration: references, arguments, environments |
| `CronWire`, `GuestCron` | the cron command frame and its in-place decoder |
| `Base64`, `HranaBatch`, `GuestLogs`, `GuestLogRuns` | guest runtime codecs, batches and log forwarding |
| `Elf`, `ArtifactDigest`, `ElfImages`, `JsonBudget`, `EnvFile`, `EnvFileRoundTrip`, `EnvFileLines`, `SeenTenantLogs` | incremental checkers and parsers against whole-input forms |

## What the code does not do

Seven places where a property one would expect holds only under a condition. The condition is exact; in
the second, it is exact for each waiting call, while another call of the app may still move.

- A wake is lost for good when its fiber is interrupted after it published its claim and before
  `boot` begins (`WakeProtocol.AWakeCanBeLost`, `WakeProtocol.LostForGood`). A waiter can still be
  served exactly when that has not happened to the call it waits for
  (`WakeProtocol.WaiterIsServedUnlessLost`); otherwise it, and every later wake of the app, waits until
  it is interrupted (`WakeProtocol.JoinersWaitForGood`).
- Nesting the fence inside `exclusively`, the other way round than the comments ask for, deadlocks
  (`HostComposition.InvertedNestingDeadlocks`). Nested as asked for, the calls of one app never all
  wait, unless one of them waits for a lost wake (`HostComposition.NeverStuck`); one that does never
  takes a step of its own again (`HostComposition.StrandedForGood`). Other apps are not affected.
- The guest refuses a baton it gave out itself when its 64-bit generation has just wrapped
  (`RelayRuns.GuestExpectsWhatIsSent`, reached in `RelayWrap.WrappedGuestRefuses`).
- A slot cursor read off disk beyond the exactly representable integers makes the scan miss slots
  (`SlotAllocator.ScanFindsUsableSlots`).
- A publisher or consumer of the log queue that is interrupted with events in its hands leaves their
  bytes counted for ever, and a consumer also loses them (`LogQueueProtocol.BytesAreCounted`,
  `LogQueueProtocol.OrderIsKept`, reached in `LogQueueProtocol.AnEventCanBeLost`).
- Under an artifact size cap below 65,535 bytes the verdict depends on where the upload is cut
  (`ArtifactDigest.ChunksDoNotMatter`).
- Dropped log output is uncounted once the 64-bit counter has no room for it
  (`GuestLogRuns.OutputIsAccountedFor`, reached in `GuestLogRuns.OutputCanGoUncounted`).

## Model

| member | source | states |
|---|---|---|
| VolumeMigrationFences.Fences.Admit | apps/agent/src/services/volume-migration-fences.service.ts:23-44 | each distinct requested app is admitted once unless held; every held app is reported as blocked; nothing else changes |
| VolumeMigrationFences.Fences.Finish | apps/agent/src/services/volume-migration-fences.service.ts:46-81 | one admission of each app is given back, entries nobody needs disappear, and the cells to signal are those of apps whose last access this was |
| VolumeMigrationFences.Fences.Acquire | apps/agent/src/services/volume-migration-fences.service.ts:97-119 | a held app is refused; otherwise it becomes held and the cell to await is returned exactly when accesses are active |
| VolumeMigrationFences.Fences.Release | apps/agent/src/services/volume-migration-fences.service.ts:121-132 | the hold ends, and the entry with it when nothing is active |
| VolumeMigrationFences.AdmitEachIsAll | apps/agent/src/services/volume-migration-fences.service.ts:34-40 | admitting apps one after another, each blocked by the entries as they then are, is admitting all of them at once |
| VolumeMigrationFences.FinishEachIsAll | apps/agent/src/services/volume-migration-fences.service.ts:68-73 | the same for giving admissions back |
| FenceProtocol.EveryState | apps/agent/src/services/volume-migration-fences.service.ts:20-150 | in every interleaving of any number of `access` and `during` calls, with interrupts, counts and holds are exact and drains pending, owed or done |
| FenceProtocol.FencedBodyIsAlone | apps/agent/src/services/volume-migration-fences.service.ts:135-150 | while a `during` body runs its app is held with no active access, no access admitted for it is inside, and no other call holds it |
| FenceProtocol.HeldFenceClosesAdmission | apps/agent/src/services/volume-migration-fences.service.ts:30-40 | while a call holds an app every newcomer's access is blocked for it and every other `acquire` of it fails without changing anything |
| FenceProtocol.AdmissionTells | apps/agent/src/services/volume-migration-fences.service.ts:23-44 | an access is blocked for exactly the apps some call holds and admitted for exactly the others it asked for |
| FenceProtocol.AcquisitionTells | apps/agent/src/services/volume-migration-fences.service.ts:97-119 | a fence is refused exactly while a call holds the app, runs at once exactly if no admitted access is left, and waits otherwise |
| FenceProtocol.DrainIsNeverLost | apps/agent/src/services/volume-migration-fences.service.ts:63-81 | a waiting fence has accesses still active, or its signal pending in some finishing call, or can resume; and it is signalled only when none is active |
| FenceProtocol.HeldFenceOnlyDrains | apps/agent/src/services/volume-migration-fences.service.ts:34-60 | from when a call takes a fence until it lets go of it, drained or not, the accesses it waits for only become fewer |
| FenceProtocol.NothingLeaks | apps/agent/src/services/volume-migration-fences.service.ts:55-60 | once every call has left no entry remains |
| GuestActivity.Registry.Acquire | apps/agent/src/services/guest-activity.service.ts:16-28 | the app's registered gate and counter, or new ones, with one more user |
| GuestActivity.Registry.Release | apps/agent/src/services/guest-activity.service.ts:30-41 | one user less, and no registration once there is none |
| GuestActivity.Running.Begin | apps/agent/src/services/guest-activity.service.ts:61-66 | the count goes up; a run that starts a busy period brings its cell |
| GuestActivity.Running.End | apps/agent/src/services/guest-activity.service.ts:67-76 | the count goes down; the last run of a busy period gets its cell to signal |
| ActivityProtocol.EveryState | apps/agent/src/services/guest-activity.service.ts:14-124 | the invariant of registry, gates, counters and cells in every interleaving of `run`, `whenIdle` and `exclusively`, with interrupts |
| ActivityProtocol.OneRoomPerApp | apps/agent/src/services/guest-activity.service.ts:16-51 | all calls for one app that have not left share one gate and counter, which is the registered one, with as many users |
| ActivityProtocol.LookTells | apps/agent/src/services/guest-activity.service.ts:94-119 | with the permit, `whenIdle` runs its body exactly if no run is counted in and gives up otherwise, `exclusively` runs exactly then and waits otherwise, and `run` is counted in |
| ActivityProtocol.BodyUnlessInterrupted | apps/agent/src/services/guest-activity.service.ts:53-124 | a call that was not interrupted has run its body by the time it leaves, unless it is a `whenIdle` that looked at a busy guest |
| ActivityProtocol.AloneInTheGuest | apps/agent/src/services/guest-activity.service.ts:85-124 | while a `whenIdle` or `exclusively` body runs, no run of that app is counted in and no other body of that app runs |
| ActivityProtocol.AwaitsItsBusyPeriod | apps/agent/src/services/guest-activity.service.ts:116-119 | the cell an exclusive call awaits is that of the busy period it saw: untouched while a run is inside, and owed or done once none is |
| ActivityProtocol.OnlyTwoWaits | apps/agent/src/services/guest-activity.service.ts:53-124 | a call that can only be interrupted is queued for a permit somebody has, or awaits a cell that is not done |
| ActivityProtocol.NothingLeaks | apps/agent/src/services/guest-activity.service.ts:30-41 | once every call has left no registration remains |
| AppWaker.Claims.Claim | apps/agent/src/services/app-waker.service.ts:224-229 | the app's claim in flight if there is one, else this call's own |
| AppWaker.Claims.Forget | apps/agent/src/services/app-waker.service.ts:239-243 | the app's claim is no longer in flight, every other one is |
| WakeProtocol.SingleFlight | apps/agent/src/services/app-waker.service.ts:219-248 | at most one call per app boots, and its claim is the one in flight |
| WakeProtocol.WakeTells | apps/agent/src/services/app-waker.service.ts:224-234 | a wake joins the call that is booting the app, and boots it itself exactly if there is none |
| WakeProtocol.OutcomeIsTheBoots | apps/agent/src/services/app-waker.service.ts:235-237 | the booting call's outcome is the one its boot ended with |
| WakeProtocol.JoinersCounted | apps/agent/src/services/app-waker.service.ts:230-233 | a claim's `joined` is the number of calls that joined it |
| WakeProtocol.JoinersShareTheOutcome | apps/agent/src/services/app-waker.service.ts:230-240 | a call that joined and left uninterrupted has left with the very outcome with which the call it joined left, or is about to |
| WakeProtocol.WaiterIsServedUnlessLost | apps/agent/src/services/app-waker.service.ts:230-246 | a waiter, or the call it waits for, can take a step towards its return exactly unless that call was interrupted before its boot began |
| WakeProtocol.LostForGood | apps/agent/src/services/app-waker.service.ts:224-236 | such a claim is in flight and not completed in every later state |
| WakeProtocol.JoinersWaitForGood | apps/agent/src/services/app-waker.service.ts:224-236 | whoever joined it, or wakes the app later, waits in every later state or was interrupted |
| WakeProtocol.AWakeCanBeLost | apps/agent/src/services/app-waker.service.ts:224-236 | a run in which that happens, whose waiter can only be interrupted |
| HostComposition.MigrationIsAlone | apps/agent/src/services/guest-activity.service.ts:103-124 | with the fence outside `exclusively`, a migration's body excludes every admitted access, fence, run, exclusive body and wake of its app |
| HostComposition.NeverStuck | apps/agent/src/services/volume-migration-fences.service.ts:15 | app by app: the migrations, cron runs around wakes, requests, suspensions and reconciliations that concern it never all wait, as long as none of that app's calls waits for a lost wake or is nested the wrong way |
| HostComposition.StrandedForGood | apps/agent/src/services/app-waker.service.ts:224-236 | in every later state a call that waits for a lost wake still does, unfinished and without any step but an interrupt, or was interrupted |
| HostComposition.InvertedNestingDeadlocks | apps/agent/src/services/guest-activity.service.ts:103 | a run of two calls, one nesting the fence inside `exclusively`, that ends with both waiting for each other |
| HranaStreams.Streams.Acquire | packages/sqlite/src/hrana-streams.ts:35-61 | a baton in the right scope is checked out and works no more; without one a stream begins to open while there is room; every refusal changes nothing |
| HranaStreams.Streams.FinishOpen | packages/sqlite/src/hrana-streams.ts:151-170 | the opened stream is live, or closed at once if the caller left or the opening was invalidated |
| HranaStreams.Streams.Release | packages/sqlite/src/hrana-streams.ts:63-76 | an open stream gets a new baton with its own expiry, a closed one none |
| HranaStreams.Streams.Close | packages/sqlite/src/hrana-streams.ts:78-91 | the stream is not live and no baton names it; closing twice changes nothing |
| HranaStreams.Streams.Expire | packages/sqlite/src/hrana-streams.ts:70-73 | an expired baton and its stream are gone |
| HranaStreams.Streams.CloseScopes | packages/sqlite/src/hrana-streams.ts:101-111 | every matching opening is invalidated and every matching live stream closed, one after another, before the first await |
| HranaStreams.Streams.CloseAll | packages/sqlite/src/hrana-streams.ts:113-119 | the same for all of them, and the store is disposed |
| HranaStreams.OneMoreClosed | packages/sqlite/src/hrana-streams.ts:121-127 | closing streams one after another is closing them together |
| HranaStreams.AllClosedOk | packages/sqlite/src/hrana-streams.ts:113-119 | afterwards nothing is live, no baton works and the store's invariant holds |
| HranaPipeline.StoredSql.StoreSql | apps/runtime/src/sqlite-hrana-pipeline.c:10-38 | the thirty slots are a finite map from numbers to texts: a number is stored once until closed, and each of the failures is exactly characterised |
| HranaPipeline.GuestStream.Pipeline | apps/runtime/src/sqlite-hrana-pipeline.c:144-179 | which reply is given for which baton, and what baton and generation come next |
| HranaRelay.Relay.Incoming | packages/sqlite/src/hrana-relay.ts:35-56 | the guest's answer is kept for the next call, or the stream is closed, before a baton is given out |
| RelayRuns.EveryState | packages/sqlite/src/hrana-relay.ts:15-57 | the joint invariant of store, relay and guests in every interleaving of requests, guests, timers and revocations |
| RelayRuns.BatonsNameLiveStreams | packages/sqlite/src/hrana-streams.ts:35-171 | at every await the limit holds, batons name distinct live unclosed streams, and a checked-out stream has none |
| RelayRuns.BatonsWorkOnce | packages/sqlite/src/hrana-streams.ts:50-58 | a baton once taken out is in no later state |
| RelayRuns.OnePipelineAtATime | packages/sqlite/src/hrana-relay.ts:27-39 | at most one request at a time has a stream or awaits its guest |
| RelayRuns.GuestExpectsWhatIsSent | apps/runtime/src/sqlite-hrana-pipeline.c:148-156 | the baton sent is null to a guest that has served nothing and else its last answer, and the guest's test takes it exactly unless its generation has just wrapped |
| RelayRuns.RevokedStreamsNeverReturn | packages/sqlite/src/hrana-streams.ts:101-170 | a stream live or opening when `closeScopes` names its scope has a baton in no later state |
| RelayRuns.ClosedForGood | packages/sqlite/src/hrana-streams.ts:113-119 | after `closeAll` no stream is live and no baton works in any later state |
| RelayAnswers.StreamsStayInScope | packages/sqlite/src/hrana-streams.ts:50-61 | a request only ever has a stream that a request of its own scope opened |
| RelayAnswers.BatonsGiveStreams | packages/sqlite/src/hrana-streams.ts:46-59 | a baton gives its stream exactly to a caller that is there, of the scope it was opened under, while the store is open; every refusal changes nothing |
| RelayAnswers.OpensWhileThereIsRoom | packages/sqlite/src/hrana-streams.ts:145-149 | a request without a baton begins to open exactly while the store is open and live and opening streams are fewer than the limit |
| RelayAnswers.OpensUnlessRevoked | packages/sqlite/src/hrana-streams.ts:151-170 | the opened stream goes to its request exactly if its caller is there and no revocation of its scope came since it began |
| RelayAnswers.GuestAnswers | apps/runtime/src/sqlite-hrana-pipeline.c:153-178 | a valid pipeline is served unless the generation has just wrapped; a request that closes the stream closes the guest's and answers no baton |
| RelayAnswers.AnswersGiveBatons | packages/sqlite/src/hrana-relay.ts:35-56 | a baton is given out exactly for an accepted answer with a baton, to a caller that is there, for a stream not closed; in every other case the stream is closed |
| RelayAnswers.BatonsOnlyForAccepted | packages/sqlite/src/hrana-relay.ts:42-43 | no request ends with a baton unless its response was accepted while its caller was there |
| RelayAnswers.ClosingPipelineEndsStream | apps/runtime/src/sqlite-hrana-pipeline.c:173-175 | after such a pipeline no later state has a baton for the stream |
| RelayAnswers.BatonsLast | packages/sqlite/src/hrana-streams.ts:50-119 | a baton ends exactly by its use in its scope, its expiry, or the revocation of its scope |
| RelayWrap.WrappedGuestRefuses | apps/runtime/src/sqlite-hrana-pipeline.c:148-171 | a run of 2^64 pipelines on one stream, after which the guest refuses the baton it gave out |
| SlotAllocator.Slots.constructor | apps/agent/src/lib/network/allocator.ts:36-47 | the stored records and cursor as loaded |
| SlotAllocator.LoadedApart | apps/agent/src/lib/network/allocator.ts:36-47 | whatever the records say, no two apps share a slot, all slots are the host's, and exactly the slots the records name are held |
| SlotAllocator.LoadedFirst | apps/agent/src/lib/network/allocator.ts:39-45 | each slot goes to the first app whose record names it |
| SlotAllocator.Slots.FindFree | apps/agent/src/services/slot-allocator.service.ts:35-57 | the first usable slot of the scan |
| SlotAllocator.ScanFindsUsableSlots | apps/agent/src/services/slot-allocator.service.ts:47-56 | the scan fails only when no slot is usable, for all assignments and devices, exactly from cursors between -2^53 and 2^53 - 126 |
| SlotAllocator.NextFreeIsNearest | apps/agent/src/services/slot-allocator.service.ts:29-57 | it gives the usable slot nearest after the cursor around the ring |
| SlotAllocator.AssignedApart | apps/agent/src/services/slot-allocator.service.ts:98-118 | from any cursor, an answered slot is the app's, has the device it needs and is nobody else's |
| SlotAllocator.KeepsItsSlot | apps/agent/src/services/slot-allocator.service.ts:62-72 | an app with a slot is answered that slot, not given anew, exactly if it needs no device or its device exists |
| SlotAllocator.GivesAVacantSlot | apps/agent/src/services/slot-allocator.service.ts:103-118 | an app without one is given the nearest vacant slot exactly if there is one; both errors are characterised |
| SlotAllocator.Slots.Allocate | apps/agent/src/services/slot-allocator.service.ts:88-128 | the answer, the assignments and the cursor after a whole call, with both errors |
| SlotAllocator.Slots.Release | apps/agent/src/services/slot-allocator.service.ts:151-156 | the app's slot is free, all others as before |
| SlotRuns.StaysApart | apps/agent/src/services/slot-allocator.service.ts:88-156 | assignments stay injective and in range over every run |
| SlotRuns.EveryOtherSlotFirst | apps/agent/src/services/slot-allocator.service.ts:29-34 | between two times a slot is given, every other slot was held or lacked the needed device at some call |
| SlotRuns.InterleavedStaysApart | apps/agent/src/services/slot-allocator.service.ts:96-125 | no two apps share a slot even when the blocks of many calls interleave |
| SlotRuns.GivenWasFree | apps/agent/src/services/slot-allocator.service.ts:98-117 | a slot given in such an interleaving belonged to nobody at that moment |
| TenantLogQueue.LogQueue.Admit | apps/agent/src/services/tenant-log-queue.service.ts:56-63 | an event is accepted exactly when its bytes fit under the cap, and then counted |
| TenantLogQueue.LogQueue.Take | apps/agent/src/services/tenant-log-queue.service.ts:79-104 | the batch is a prefix of owed and pending events and the rest is owed, in order |
| TenantLogQueue.BatchIsLongestPrefix | apps/agent/src/services/tenant-log-queue.service.ts:88-98 | it is the longest prefix that fits, or the first event alone; so something always leaves |
| TenantLogQueue.LogQueue.Release | apps/agent/src/services/tenant-log-queue.service.ts:110-111 | the batch's bytes are given back |
| TenantLogQueue.LogQueue.Restore | apps/agent/src/services/tenant-log-queue.service.ts:119-123 | the batch is in front of everything still owed |
| LogQueueProtocol.OrderIsKept | apps/agent/src/services/tenant-log-queue.service.ts:56-123 | released, in flight, owed and pending events are the offered ones in order, exactly if the consumer was never interrupted with events in its hands |
| LogQueueProtocol.BytesAreCounted | apps/agent/src/services/tenant-log-queue.service.ts:51-68 | the counter stays within the cap and is the bytes of what is unreleased, exactly if no publisher or consumer was ever interrupted with events in its hands |
| LogQueueProtocol.EveryEventIsSomewhere | apps/agent/src/services/tenant-log-queue.service.ts:56-123 | each accepted event is exactly once still to be offered, queued, in flight, released, or gone with an interrupted fiber |
| LogQueueProtocol.NothingLost | apps/agent/src/lib/agent/logs.ts:17-41 | without such interrupts nothing is lost |
| LogQueueProtocol.AnEventCanBeLost | apps/agent/src/lib/agent/logs.ts:17-41 | a run with such an interrupt, whose event is gone and whose bytes stay counted |
| ConfigReferences.FindReference | apps/runtime/src/config.c:313-331 | the first complete reference, skipping every other sigil |
| ConfigReferences.ExpansionSubstitutes | apps/runtime/src/config.c:399-432 | for whatever literal text and references a value is made of, expansion replaces each reference by its value, copies all else, never rescans, and resolves exactly when every name is offered and given |
| ConfigReferences.ParsedTells | apps/runtime/src/config.h:18-22 | every value is made of literal text and complete references |
| ConfigReferences.OneTemplate | apps/runtime/src/config.h:18-22 | in one way only |
| ConfigExpansion.Arena.Append | apps/runtime/src/config.c:388-395 | text goes behind the cursor, or the arena is marked overflowed for good |
| ConfigExpansion.Arena.ExpandEntry | apps/runtime/src/config.c:399-440 | it fails exactly on a name not offered or not given or when the arena is too small, and otherwise writes exactly the expansion and its terminator |
| ConfigExpansion.Arena.ExpandAll | apps/runtime/src/config.c:448-453 | the same for all entries: each is redirected to its own block exactly if it names something |
| ConfigExpansion.ExpandTenantValues | apps/runtime/src/config.c:444-454 | on the static arena it fails exactly on a reference that does not resolve or a total beyond 131,072 bytes |
| ConfigExpansion.BlocksApart | apps/runtime/src/config.c:407-438 | expansions have disjoint bytes of the arena |
| ConfigExpansion.EntriesReadBack | apps/runtime/src/config.c:442-454 | afterwards each entry's pointer reads, as a C string, as its own expansion |
| ConfigArguments.Arguments.Parse | apps/runtime/src/config.c:204-227 | a line is taken exactly if its index is below 64 and new |
| ConfigArguments.Arguments.ParseAll | apps/runtime/src/config.c:517-525 | with the check for gaps, exactly the complete numberings from zero are accepted, and each argument has the slot it was numbered for |
| TenantEnvironment.BuildEnvironment | apps/runtime/src/config.c:577-636 | the array holds the environment, null-terminated, within its 266 slots and every fixed buffer |
| TenantEnvironment.EnvironmentTells | apps/runtime/src/config.c:577-636 | at most 265 entries with distinct names; platform names only from the platform; the tenant's others kept; defaults for what neither set |
| TenantEnvironment.DefaultsAreSet | apps/runtime/src/config.c:625-633 | under HOME, TMPDIR and PATH the tenant's own value, or the default exactly if it set none |
| TenantEnvironment.ReferencesAgree | apps/runtime/src/config.c:339-376 | a platform variable and the reference of its name have the same value, or neither has one |
| TenantEnvironment.KeptTells | apps/runtime/src/config.c:610-624 | exactly the tenant's entries under names that are not the platform's are kept, unchanged |
| TenantEnvironment.KeptJoins | apps/runtime/src/config.c:610-624 | in order |
| TenantEnvironment.ReservedName | apps/runtime/src/config.c:534-554 | an entry is dropped exactly when its name is one of the six the platform issues |
| CronEnvironment.BuildCronEnvironment | apps/runtime/src/cron-command.c:17-36 | the merge, null-terminated, within the fixed array of line 74 |
| CronEnvironment.MergeIsRightBiased | apps/runtime/src/cron-command.c:23-34 | as a map it is the base overridden by the run's own variables, each name once |
| CronEnvironment.MergeKeepsOrder | apps/runtime/src/cron-command.c:23-34 | the base's names stay where they were, new ones follow in the order they first appear |
| CronWire.NumbersRoundTrip | apps/runtime/src/guest-cron.c:99-111 | `read_u32` inverts `write_u32` |
| CronWire.NumbersAreBigEndian | apps/runtime/src/guest-cron.c:99-102 | and it reads the highest byte first |
| CronWire.DecodesEncodings | apps/runtime/src/guest-cron.h:11-13 | a body is decoded to a request exactly if it is that request's encoding and the request is within the bounds |
| GuestCron.EnvironmentName | apps/runtime/src/guest-cron.c:180-194 | it accepts exactly NAME=value with a portable name |
| GuestCron.DecodedCommand.Decode | apps/runtime/src/guest-cron.c:196-243 | the in-place decoder accepts exactly the encodings; then every field reads as a C string as it was encoded, and a refused body is unchanged |
| GuestCron.TerminatorsSpareFields | apps/runtime/src/guest-cron.c:238-241 | terminators at the ends of the fields overwrite no field's bytes |
| Base64.Encode | apps/runtime/src/sqlite-values.c:13-32 | the loop writes the encoding and its terminator within the allocated size |
| Base64.Decode | apps/runtime/src/sqlite-values.c:39-66 | the loop accepts exactly the canonical texts of at most 87,384 characters and stores their bytes within the allocated size |
| Base64.MutualInverses | apps/runtime/src/sqlite-values.c:13-66 | decoding and encoding are mutual inverses: a text is accepted exactly if it is the encoding of the bytes it decodes to |
| Base64.DigitsAreTheAlphabet | apps/runtime/src/sqlite-values.c:10-37 | the digits are the characters of the alphabet of section 4 of RFC 4648, and nothing else is one |
| Base64.GroupSpelled | apps/runtime/src/sqlite-values.c:18-29 | a group spells its bits highest first, six to a character, with zeros for missing bytes and padding where only they would decide |
| HranaBatch.Condition | apps/runtime/src/sqlite-hrana-batch.c:4-42 | validity of a guard does not depend on the states, and a valid guard's value is its meaning |
| HranaBatch.BatchValid | apps/runtime/src/sqlite-hrana-batch.c:44-60 | it accepts exactly the batches whose guards refer to earlier steps and whose statements are valid |
| HranaBatch.RunBatch | apps/runtime/src/sqlite-hrana-batch.c:62-104 | each exit is exactly characterised; results and errors stand at their step's index |
| HranaBatch.Execute | apps/runtime/src/sqlite-hrana-statements.c:254-323 | an execution stores its output exactly on success, given that a step's code is never that of success |
| HranaBatch.ValidNeverMisused | apps/runtime/src/sqlite-hrana-batch.c:44-104 | what the check accepts is never given up half-way; and each step that ran has a result or an error and not both, exactly if its execution stored an output on success alone |
| HranaBatch.StepRunsWhenGuardHolds | apps/runtime/src/sqlite-hrana-batch.c:84-96 | a step ran exactly when its guard holds of the steps before it |
| HranaBatch.GuardsTell | apps/runtime/src/sqlite-hrana-batch.c:4-42 | a step guarded by another's success or failure ran exactly if that one has a result or an error |
| GuestLogs.GuestLogForwarder.ForwardOutput | apps/runtime/src/guest-logs.c:135-159 | which frames go out and what is counted, for every answer of the kernel |
| GuestLogs.GuestLogForwarder.ServiceConnection | apps/runtime/src/guest-logs.c:165-175 | a hung-up connection is closed and a new one begun |
| GuestLogRuns.OutputIsSent | apps/runtime/src/guest-logs.c:135-159 | output goes out exactly if a connection is there or comes about, the gap went out before it and it fits; otherwise it is counted and the connection given up |
| GuestLogRuns.QuietUntilRetry | apps/runtime/src/guest-logs.c:44-47 | until the retry time nothing tries to connect |
| GuestLogRuns.ServiceReconnects | apps/runtime/src/guest-logs.c:165-175 | a closed connection is given up for 250 ms, and otherwise what connection can be had is had |
| GuestLogs.EncodeU64 | apps/runtime/src/guest-logs.c:123-128 | a gap's payload is the count, big-endian |
| GuestLogRuns.OutputIsAccountedFor | apps/runtime/src/guest-logs.c:130-159 | written bytes are those sent, in sent gaps or still counted, exactly unless the counter once had no room |
| GuestLogRuns.OutputCanGoUncounted | apps/runtime/src/guest-logs.c:130-133 | a run of two writes at whose end one byte is neither sent nor counted |
| GuestLogRuns.RoomForAll | apps/runtime/src/guest-logs.c:130-133 | which cannot happen before 2^64 bytes were written |
| GuestLogRuns.FramesAreInPlace | apps/runtime/src/guest-logs.c:135-159 | an output frame holds the tenant's bytes from the sum of the lengths and gaps before it |
| Elf.IsElfExecutable | apps/api/src/lib/elf.ts:13-20 | it tells whether the bytes begin with the ELF magic |
| Elf.ReadInterpreter | apps/api/src/lib/elf.ts:73-101 | the loop reads the first interpreter segment |
| Elf.MachineStands | apps/api/src/lib/elf.ts:62-64 | a machine read from a prefix is that of every extension |
| Elf.InterpreterStands | apps/api/src/lib/elf.ts:66-101 | and so is an interpreter |
| ElfImages.NumberReadsBack | apps/api/src/lib/elf.ts:62-92 | little-endian bytes of any size read back as the number they were written for |
| ElfImages.MachineReadsBack | apps/api/src/lib/elf.ts:62-64 | the machine of a file is the one its header was written for |
| ElfImages.InterpreterReadsBack | apps/api/src/lib/elf.ts:73-101 | its interpreter is the name the first entry of that type points to, up to the NUL |
| ElfImages.ImageIsOne | apps/api/src/lib/elf.ts:22-36 | any header, table and path written one behind the other are such a file |
| ElfImages.DynamicVerdict | apps/api/src/lib/artifact-digest.ts:39-66 | the verdict on such a file: its machine, then its interpreter, then its size, then stored |
| ElfImages.StaticVerdict | apps/api/src/lib/artifact-digest.ts:39-66 | the same for a file that names no interpreter |
| ElfImages.NotExecutableVerdict | apps/api/src/lib/elf.ts:13-20 | an upload is no executable exactly if it does not begin with the magic |
| ArtifactDigest.Reading.Take | apps/api/src/lib/artifact-digest.ts:69-131 | what a chunk settles depends only on the bytes before it and its own |
| ArtifactDigest.Reading.Verdict | apps/api/src/lib/artifact-digest.ts:134-155 | the verdict at the end, from the kept header and the hash of all bytes |
| ArtifactDigest.InspectArtifact | apps/api/src/lib/artifact-digest.ts:170-189 | the loop over a stream's chunks |
| ArtifactDigest.ChunksDoNotMatter | apps/api/src/lib/artifact-digest.ts:69-157 | the verdict is one function of all bytes however they are cut, exactly if the cap is at least 65,535 |
| ArtifactDigest.CutMatters | apps/api/src/lib/artifact-digest.ts:85-91 | for every smaller cap, one artifact with two verdicts |
| ArtifactDigest.PassThrough | apps/api/src/lib/artifact-digest.ts:325-349 | passing bytes on reaches the same verdict and hands on everything up to the refused chunk, never more than the cap |
| JsonBudget.ValidateStructure | packages/sqlite/src/hrana-validation.ts:24-42 | exactly the trees within both limits are accepted, and the stack never outgrows the node limit |
| JsonBudget.NodeBudget | apps/runtime/src/guest-sqlite-worker.c:256-274 | the recursion accepts exactly the trees within both limits and takes their nodes off the budget |
| JsonBudget.BothBudgets | apps/runtime/src/guest-sqlite-worker.c:365-367 | agent and guest take exactly the same requests: at most 16,384 nodes, at most 32 levels below the root |
| EnvFile.ParseEnvFile | packages/app-operations/src/env-file.ts:31-68 | the loop ends on every text, and its result is that of reading the lines one block after another |
| EnvFile.LinesReadOnce | packages/app-operations/src/env-file.ts:31-68 | the variables are those of blocks of lines, each line in one block, which reach the end of the file; a file is refused exactly for the line at which they stop |
| EnvFile.ClosesAtFirst | packages/app-operations/src/env-file.ts:104-127 | the closing quote is the first with an even number of backslashes before it, or the first at all in single quotes |
| EnvFile.GatherLines | packages/app-operations/src/env-file.ts:75-102 | the loop over the lines of a quoted value |
| EnvFile.GatherTells | packages/app-operations/src/env-file.ts:75-102 | the value goes on over the fewest lines that close it and is what stands before the closing quote; there is none exactly if all the lines together do not close it |
| EnvFileLines.UnquotedTells | packages/app-operations/src/env-file.ts:140-145 | an unquoted value is what is written before the first white space with a '#' behind it, trimmed |
| EnvFileLines.SkippedTells | packages/app-operations/src/env-file.ts:37-43 | a line says nothing exactly if it is blank or its first character that is no white space is '#' |
| EnvFileLines.PlainLineReads | packages/app-operations/src/env-file.ts:45-60 | NAME=value without quotes is read back, with or without `export`, white space around it and a comment behind it |
| EnvFileRoundTrip.PrintedRoundTrip | packages/app-operations/src/env-file.ts:14-138 | variables printed with double quotes and escapes are read back, whatever their values hold, line feeds and tabs escaped or not |
| SeenTenantLogs.SeenLogs.Admit | packages/app-operations/src/seen-tenant-logs.ts:10-25 | one record against the newest instant and its keys |
| SeenTenantLogs.KeyInjective | packages/app-operations/src/seen-tenant-logs.ts:19 | a key tells source and sequence number apart |
| SeenTenantLogs.AdmitsOnceInOrder | packages/app-operations/src/seen-tenant-logs.ts:3-26 | a record is admitted exactly when no earlier one was of a later instant or was itself |

## Left out

- `markActive` and `deferredWork` of the agent's state, and the clock read beside them.
- `boot`, `sleep`, VmManager, the reconcile planner and cron scheduling: a boot is one step that ends somehow.
- Reuse distance when `allocate` calls overlap: the cursor is then read and written in separate steps; `SlotRuns` proves it for whole calls, and injectivity for overlapping ones.
- Persisting slots and cursor, and app identifiers in stored records that fail their schema, which stop the agent from starting.
- Everything of a slot but its number: addresses, ports and tap names are functions of it.
- HranaPipeline.StoredSql.StoreSql: does not model `strdup` running out of memory.
- What a request's SQL does, `requests_valid` beyond a flag, response size accounting, and timeouts of the query engine.
- The agreement of a response's types with its requests and its schema, beyond one flag that says whether the relay accepted it.
- The lines of instance.env other than arguments and tenant variables, and the number parsing of `strtoul`.
- Log lines; what a failing parser reports beyond that it fails.
- Overlapping names inside one tenant environment: `config_parse` has refused them before `config_build_environment` runs, which is a precondition here.
- The cron frame's header, acknowledgements, the order of its replies, and everything about processes, pipes and signals.
- `sqlite_bind_value` apart from the base64 decoder, and allocation failures.
- Partial writes of a log frame: one is a failure to the guest, and what the host makes of the fragment is not modelled.
- Texts with unpaired surrogates: a character is a Unicode scalar value here, in environment files as in log events, and text outside the basic plane would be two code units in the source.
- `boundedTo` and `digesting` in artifact-digest.ts: they forward and hash chunks.
- JSON text parsing and schema checks: both budgets start from a parsed tree.
- A printer of whole files with single-quoted or unquoted values: the round trip of files is stated for double quotes, the only form that can carry every value; what a single line without quotes says is stated on its own.
- A log record whose `_time` is no date: its schema excludes it.
- `supervise.c`, `sqlite-sessions.service.ts`, `read_header` of the SQLite worker, the dashboard, the CLI, the API routes and deployment scripts.
