# machined-rs in Dafny

machined-rs is a small node operating system: a PID 1 daemon built around a reconcile
runtime, a service supervisor, an image builder, A/B disk upgrades, guarded disk
provisioning and an SNTP client. This project models its state-changing cores and proves
what they promise over all inputs, all runs and all interleavings.

`dafny verify dfyconfig.toml` checks everything. One file is one module:

| file | what it models |
|---|---|
| `Resources`, `Store` | resource values; the versioned store with finalizers, teardown and change events |
| `Owned` | the owner's pass: upsert what is desired, collect what is not |
| `Finalizer`, `FinalizerPasses` | owner, consumer and other writers interleaved at single store calls; what each does when left alone |
| `Address`, `Cascade` | the address controller over a simulated kernel; the owner, consumer, owner cascade |
| `Wakeup`, `WakeupLoop` | a controller loop on a bounded, lossy broadcast channel; its log, channel, receiver and rounds |
| `Graph`, `Text` | paths, cycles and orders; string operations shared by the text formats |
| `StartOrder`, `Manager`, `Supervise` | dependency order, reverse stop, restart policy and backoff |
| `Closure`, `Cpio` | kernel-module closure; the cpio "newc" writer and a reader to invert it |
| `Boot`, `Upgrade` | slot tokens and the `os_prefix` rewrite; A/B upgrades under failures and power cuts |
| `Block`, `Provision`, `ProvisionPasses` | simulated disks; the provisioning decision, the pass and the reset; what each kind of pass leaves |
| `ProvisionMachine`, `ProvisionRuns`, `ProvisionWipes` | scans, passes, failures, resets and reboots as one machine; its runs without and with wipe |
| `Sntp` | timestamps, the offset, and the published value |

Code that updates state in place is a class or a method with loops, proved equal to a
function on values; the properties are lemmas about those functions and about state
machines built from them. Logical time is a step count, and scheduling is arbitrary.

## Findings

Properties the code meets only under a condition. For each there is an input that fails and an
equivalence that says exactly when it holds.

- A successful compare-and-swap proves the object was not touched since it was read iff the
  key was not destroyed in between; versions restart at 1 (`Store.SuccessProvesUntouched`,
  `Store.StaleReadWinsAfterRecreation`).
- Events are sent after the lock is released. A watcher that replays the channel is right iff for
  each key the last event received and the last one due end alike (`Store.ReorderedRightIff`), and
  every order serves it iff for each key all events end like the last (`Store.AnyOrderRightIff`);
  two swapped events on one key mislead it (`Store.SwappedEmitsMislead`).
- An applied key always keeps its finalizer (`Finalizer.FinalizerSafety`). Effect by effect this holds
  iff no key is ever asked for with two different specs: otherwise the old effect leaks, because
  `revert` sees only the new spec (`Finalizer.SafetyIffFunctional`).
- The teardown cascade leaves exactly the desired addresses for every listing order iff no dropped
  spec shares its address with a kept one, no desired spec is already being torn down and no applied
  spec moves to another address (`Cascade.KernelAfterCascade`). A desired spec caught in teardown
  is never revived (`Cascade.StuckForever`).
- A/B upgrades survive every run iff the slot token reaches the daemon first at every boot: it lands on
  an options line, no earlier word names a slot, and the command line can be read
  (`Upgrade.CrashSafeIffTokenReaches`). A base command line with a token of its own, one broken over two
  lines, or a command line that cannot be read fails (`Upgrade.UnsafeWithoutToken`,
  `Boot.BrokenBaseLosesToken`).
- `rewrite_os_prefix` keeps every other line, and the last of two rewrites wins, iff no kept line
  still ends in a carriage return after line splitting; its comment promises this for all text
  (`Boot.FlipChangesOnlyPointers`, `Boot.LastFlipWins`, at an input `Boot.DoubledCrIsLost`).
- The module closure is documented as ordered for every table. It is iff no cycle passes through a path
  the roots reach (`Closure.FullyOrderedIff`, `Closure.CyclicTableUnordered`).
- The cpio round trip holds iff names and data fit 32 bits, there are fewer than 2^32 entries
  and none is named like the trailer (`Cpio.RoundTrip`); one that is takes all later entries with it
  (`Cpio.TrailerNameCuts`).
- In every run without `wipe` an appended partition ends up with a filesystem iff no failing call, shutdown
  or reboot cut the appending pass short before its format, or a reset formatted it while it was published
  (`ProvisionRuns.FilesystemIff`). A failing format and a reboot between two calls both leave one
  without (`ProvisionMachine.FaultReached`, `ProvisionMachine.RebootMidPass`). From then on only such a reset
  gives it one (`ProvisionRuns.FormattedLaterIff`); without it every pass over a later complete scan decides
  Skip and publishes the partition as provisioned (`ProvisionRuns.UnformattedIsPublished`).
- With `wipe`, a pass whose calls succeed clears the install disk unless it listed our layout or nothing at all
  (`ProvisionWipes.ListingDecidesWipe`, an equivalence). A second pass over the same stale scan
  wipes a finished installation (`ProvisionWipes.StaleScanWipesAgain`); after a scan begun later and completed with
  its retirements no pass does (`ProvisionWipes.WipeConverges`).
- A time survives NTP encoding to within 1 ns iff it lies in era 0 (`Sntp.RoundTripIffEra0`); the first second
  after it reads back as 1900 (`Sntp.Era1ReadsBackAs1900`). The cast of the offset to 64 bits is lossless for
  every response iff the two local readings sum to at most `Sntp.MAX_READINGS` (`Sntp.PublishedExactlyIff`).

Where code and comments disagree the model follows the code: besides the above, the `Provision`
decision is documented for "blank" disks, but a blank-looking disk without `wipe` is refused.

## Model

| member | source | states |
|---|---|---|
| Store.State.Get | crates/runtime-core/src/state.rs:50-58 | the stored object, or NotFound |
| Store.State.List | crates/runtime-core/src/state.rs:60-69 | every object of a namespace and type exactly once, in some order |
| Store.State.Create | crates/runtime-core/src/state.rs:74-86 | AlreadyExists, or the object stored at version 1 and Running with one event |
| Store.State.Update | crates/runtime-core/src/state.rs:90-109 | NotFound, Conflict, or the new spec one version up with one event |
| Store.State.AddFinalizer | crates/runtime-core/src/state.rs:112-126 | idempotent; one version up and one event only when added |
| Store.State.RemoveFinalizer | crates/runtime-core/src/state.rs:129-144 | removes every occurrence; no event when there was none |
| Store.State.Teardown | crates/runtime-core/src/state.rs:150-173 | marks TearingDown once and reports whether no finalizer remains |
| Store.State.Destroy | crates/runtime-core/src/state.rs:177-197 | refuses a wrong version or remaining finalizers, else removes and announces |
| Store.PerformEvent | crates/runtime-core/src/state.rs:74-197 | a call emits an event iff it changed the store, and the event carries exactly that change |
| Store.PerformResult | crates/runtime-core/src/state.rs:74-197 | when each call succeeds: a free key, a stored key, the right version, no finalizers; a failing one changes and emits nothing, and a teardown reports whether finalizers are left |
| Store.ReplayReproduces | crates/runtime-core/src/state.rs:44-197 | folding the events of any sequence of calls reproduces the store |
| Store.PerformAt | crates/runtime-core/src/state.rs:74-197 | per key and event kind: what one call may do to version, owner, phase and presence |
| Store.VersionFidelity | crates/runtime-core/src/state.rs:74-197 | without a destroy the version counts the changes, the owner is fixed, TearingDown is final, and equal versions mean equal objects |
| Store.SuccessProvesUntouched | crates/runtime-core/src/state.rs:90-197 | a swap or destroy that succeeds after any calls proves the object untouched iff it was not destroyed meanwhile |
| Store.StaleReadWinsAfterRecreation | crates/runtime-core/src/state.rs:74-109 | the counterexample: a stale update wins against a re-created key |
| Store.ReplayAt | crates/runtime-core/src/watch.rs:16-21 | what a replay leaves under a key is what the last event about it says |
| Store.WatcherRightIff | crates/runtime-core/src/state.rs:44-48 | for any sequence of received events the watcher ends up with the store iff, key by key, the last event received says what the last one emitted says |
| Store.ReorderedRightIff | crates/runtime-core/src/state.rs:83-84 | for any permutation of the emitted events the watcher is right iff for each key the last events end alike: both destroy it or both leave the same object |
| Store.AnyOrderRightIff | crates/runtime-core/src/state.rs:83-84 | every permutation of the events of some calls leaves the watcher right iff for each key all events about it end like the last |
| Store.PerKeyOrderSuffices | crates/runtime-core/src/state.rs:44-48 | in particular keeping each key's own order suffices |
| Store.SwappedEmitsMislead | crates/runtime-core/src/state.rs:83-84 | two emits of one key swapped after unlock leave a watcher wrong |
| Owned.UpsertOne | crates/runtime-core/src/owned.rs:36-52 | creates stamped with the owner, updates only on a changed spec, silent otherwise |
| Owned.CollectOne | crates/runtime-core/src/owned.rs:54-66 | an owned, undesired object is destroyed, or held TearingDown under finalizers |
| Owned.Collect | crates/runtime-core/src/owned.rs:54-66 | the collecting half settles every key and cannot undo an upsert |
| Owned.ReconcileOwned | crates/runtime-core/src/owned.rs:20-69 | a lone pass always succeeds, settles every key, and emits nothing if it changes nothing |
| Owned.PassOutcome | crates/runtime-core/src/owned.rs:20-69 | desired keys carry the desired spec, undesired owned ones are gone or TearingDown, all others untouched |
| Owned.PassIsIdempotent | crates/runtime-core/src/owned.rs:20-69 | a second identical pass changes nothing |
| Finalizer.HeldStays | crates/runtime-core/src/state.rs:112-197 | no call but removing the finalizer can take a held key away |
| Finalizer.InvStep | crates/runtime-core/src/owned.rs:20-106 | every step of owner, consumer or others, with any specs, keeps: applied keys are stored under the finalizer until reverted and released |
| Finalizer.FinalizerSafety | crates/runtime-core/src/owned.rs:20-106 | over every interleaving, with spec updates, stale snapshots and failing effects, each key applied and not reverted since is stored and carries the finalizer |
| Finalizer.EffectSafety | crates/runtime-core/src/owned.rs:79-106 | while no key is asked for with two specs, the same holds effect by effect |
| Finalizer.SpecChangeLeaks | crates/runtime-core/src/owned.rs:91-104 | a key asked for with two specs leaks an effect in some run of plain passes |
| Finalizer.SafetyIffFunctional | crates/runtime-core/src/owned.rs:20-106 | effect by effect all interleavings are safe iff writers never change the spec of a key |
| FinalizerPasses.LonePassSettles | crates/runtime-core/src/owned.rs:20-69 | every way of the machine from an owner pass's start back to idle, no one else moving, settles the store as ReconcileOwned does; an owned, undesired key without finalizers is gone |
| FinalizerPasses.LonePassCompletes | crates/runtime-core/src/owned.rs:20-69 | whatever is stored, a lone owner pass can be run to its end |
| FinalizerPasses.LonePassConsumes | crates/runtime-core/src/owned.rs:79-106 | a lone consumer pass with succeeding effects leaves each Running input held and applied, each TearingDown one released and not applied, and nothing else changed |
| FinalizerPasses.LoneConsumerCompletes | crates/runtime-core/src/owned.rs:79-106 | whatever is stored, such a consumer pass can be run to its end |
| FinalizerPasses.OthersInterfere | crates/runtime-core/src/state.rs:74-197 | at any point any allowed calls of others are a run, with the effect the store gives them |
| FinalizerPasses.FailureEndsPass | crates/runtime-core/src/owned.rs:36-104 | a failing call or effect, or a vanished key, changes no object and ends its own actor's pass only |
| Address.FakeNetworkBackend.AddAddress | crates/netlink/src/fake.rs:90-101 | fails on an unknown link, else the address is in the kernel once |
| Address.FakeNetworkBackend.DelAddress | crates/netlink/src/fake.rs:102-108 | the address is gone from that link, nothing else changes |
| Address.PublishStatus | crates/controllers/src/network/mod.rs:31-42 | the status is created or updated, no other key touched |
| Address.DestroyStatus | crates/controllers/src/network/mod.rs:44-49 | the status is removed if nothing holds it |
| Address.HandleOne | crates/runtime-core/src/owned.rs:91-104 | finalizer before apply, release after revert; fails exactly on an unknown link |
| Address.Reconcile | crates/controllers/src/network/address.rs:47-99 | a pass consumes every listed spec and leaves the kernel as folding the listing does |
| Cascade.StoreAfterCascade | crates/runtime-core/src/owned.rs:20-106 | after owner, consumer, owner exactly the desired specs remain, changed specs included, finalized and Running iff not dying at the start |
| Cascade.StatusAfterCascade | crates/controllers/src/network/address.rs:47-99 | the statuses left are those of the desired specs not dying at the start, and exactly the ones nothing could remove |
| Cascade.StuckForever | crates/runtime-core/src/owned.rs:36-52 | a desired spec caught in TearingDown is never revived by any number of passes in any order, and in the end never touched |
| Cascade.KernelAt | crates/controllers/src/network/address.rs:56-93 | for an address not both applied and reverted the listing order does not matter |
| Cascade.LostUnlessClean | crates/controllers/src/network/address.rs:56-93 | with a shared address or a dying desired spec some listing order loses a desired address |
| Cascade.KernelAfterCascade | crates/controllers/src/network/address.rs:47-99 | the kernel holds exactly the desired addresses for every listing order iff nothing is shared, no desired spec is dying and no applied spec moves to another address |
| Cascade.RunCascade | crates/controllers/src/network/address.rs:47-99 | the three passes on store and kernel fail iff an applied spec names an unknown link; else exactly the desired specs remain, and exactly their addresses under the condition of KernelAfterCascade |
| Wakeup.InvStep | crates/runtime-core/src/runtime.rs:140-196 | every mutation, emit, receive, lag, tick or loop step keeps the wake-up invariant |
| Wakeup.NoLostWakeup | crates/runtime-core/src/runtime.rs:140-196 | a relevant mutation not yet covered by a reconcile is still unsent, queued, behind a lag, or the loop is committed |
| Wakeup.AtRestUpToDate | crates/runtime-core/src/runtime.rs:140-196 | whenever the loop rests, its last reconcile began on the inputs as they are now |
| Wakeup.InternalStepApproaches | crates/runtime-core/src/runtime.rs:168-195 | every step without a mutation brings the next reconcile nearer |
| Wakeup.UncoveredMeansEnabled | crates/runtime-core/src/runtime.rs:140-196 | with an uncovered mutation the system is never stuck short of a reconcile |
| Wakeup.ReconcileWithinDistance | crates/runtime-core/src/runtime.rs:140-196 | once mutations stop a reconcile begins within a known number of steps, whatever the schedule |
| Wakeup.MatchIff | crates/runtime-core/src/runtime.rs:209-213 | an event is relevant iff its namespace and type are those of an input |
| Wakeup.WakesIff | crates/runtime-core/src/runtime.rs:168-195 | a parked loop commits to a reconcile exactly on a tick, a lag report or an event of one of its inputs |
| Wakeup.NoNeedlessReconcile | crates/runtime-core/src/runtime.rs:168-195 | no run commits the loop to another reconcile without one of these |
| WakeupLoop.LogIsFaithful | crates/runtime-core/src/state.rs:74-197 | in every run the store is what the calls made of it and the log holds exactly their events, in order |
| WakeupLoop.EveryEventSentOnce | crates/runtime-core/src/state.rs:44-48 | in every run each logged event is unsent or sent exactly once |
| WakeupLoop.SendAnyTime | crates/runtime-core/src/state.rs:83-84 | an unsent event can be sent at any moment and is then the newest on the channel |
| WakeupLoop.ReceiverBounds | crates/runtime-core/src/runtime.rs:178-182 | a subscriber sees only later events; a lag is reported iff more than 1024 are unread and leaves 1024; a drain ends empty, or lagged |
| WakeupLoop.TakenInOrder | crates/runtime-core/src/runtime.rs:172-191 | in every run the receiver takes events in order, at most once, and passes over one only if it was overwritten |
| WakeupLoop.OneRound | crates/runtime-core/src/runtime.rs:188-192 | undisturbed, a woken loop empties the queue, reconciles once on the store as it is and parks |
| WakeupLoop.FirstRound | crates/runtime-core/src/runtime.rs:140-166 | at boot the loop subscribes, reconciles and parks |
| WakeupLoop.EventWakes | crates/runtime-core/src/runtime.rs:172-178 | a call that changes the store wakes a parked loop once its event is sent, iff it is of one of its inputs |
| WakeupLoop.TickAndShutdown | crates/runtime-core/src/runtime.rs:168-171 | a parked loop can tick or be shut down at any moment |
| WakeupLoop.StoppedForGood | crates/runtime-core/src/runtime.rs:168-171 | in every run a loop that was shut down never reconciles again |
| StartOrder.Tally | crates/supervisor/src/manager.rs:31-43 | fails iff some dependency is unknown and names it; else both tables count the dependency pairs |
| StartOrder.FirstQueue | crates/supervisor/src/manager.rs:45-50 | the sorted ids without dependencies |
| StartOrder.Release | crates/supervisor/src/manager.rs:55-64 | starting one service decrements and queues exactly those it releases |
| StartOrder.StartNext | crates/supervisor/src/manager.rs:53-65 | one round keeps the loop invariant with one more service started |
| StartOrder.StartOrder | crates/supervisor/src/manager.rs:30-71 | Ok iff ids are distinct, dependencies known and the graph acyclic; the order is a permutation, dependencies first, largest startable id at each position |
| StartOrder.Incomplete | crates/supervisor/src/manager.rs:67-69 | an incomplete order proves a repeated id or a cycle |
| StartOrder.StartOrderIsDetermined | crates/supervisor/src/manager.rs:45-71 | the order is unique, so no hash-map order shows through |
| Text.LessIff | crates/supervisor/src/manager.rs:45-50 | the order ids are sorted by: a proper prefix first, else the smaller character where they first differ |
| Manager.ServiceManager.StartAll | crates/supervisor/src/manager.rs:99-131 | tasks spawned in start order, or none on error |
| Manager.ServiceManager.StopAll | crates/supervisor/src/manager.rs:140-187 | flags are set in reverse start order, each only when the tasks of all transitive dependents have ended |
| Manager.DependentsLater | crates/supervisor/src/manager.rs:140-187 | in a start order everything that depends on a position comes after it |
| Supervise.DelayGrows | crates/supervisor/src/restart.rs:29-40 | a short run doubles the delay up to 30 s |
| Supervise.DelayResets | crates/supervisor/src/restart.rs:29-40 | the first restart, or one after 60 s of running, waits one second |
| Supervise.DelayStep | crates/supervisor/src/restart.rs:29-40 | the carried backoff always yields min(2^j, 30) s, j counting restarts since the last long run |
| Supervise.DelayTable | crates/supervisor/src/restart.rs:29-40 | in nanoseconds: 1, 2, 4, 8, 16 and then 30 seconds after short runs, one second after a run of a minute |
| Supervise.PolicyTable | crates/supervisor/src/restart.rs:14-21 | the outcomes after which each policy restarts: none, Failure, Success and Failure |
| Supervise.ReadyIff | crates/supervisor/src/readiness.rs:17-35 | a dependency is ready iff it is published as finished, or as running and healthy |
| Supervise.Gate | crates/supervisor/src/readiness.rs:37-66 | readiness means each dependency was observed ready in this attempt; ready dependencies are let through at once |
| Supervise.RunOnce | crates/supervisor/src/service.rs:124-136 | a run ends the loop by stop or policy, or goes on after exactly the promised delay; PolicyTable and DelayTable say what those are |
| Supervise.Attempt | crates/supervisor/src/service.rs:105-137 | one turn of the loop keeps all promises and makes progress when unhindered |
| Supervise.RunSupervised | crates/supervisor/src/service.rs:95-138 | policy by policy: no second start under Never, each restart after an exit with an outcome of the policy, each such exit followed by a sleep or a stop; starts only after every dependency was seen up, at most one start after stop, exact delays, a stop ends the loop, and no allowed start is missed |
| Closure.ReadIndex | crates/imager/src/modules.rs:28-39 | each path has the dependencies, and each name the path, of the last line about it, and nothing else is there; DepLineSays and ModuleNameOf say what a line is about |
| Closure.ModuleNameOf | crates/imager/src/modules.rs:7-14 | the name of dir/base.ko, and of dir/base.ko.gz, is base with dashes as underscores |
| Closure.DepLineSays | crates/imager/src/modules.rs:31-38 | a line "p.gz: d1.gz d2.gz ..." is about p and lists d1, d2, ... |
| Text.TrimExact | crates/imager/src/modules.rs:35-35 | trimming takes the whitespace off both ends and nothing else |
| Text.LastLine | crates/imager/src/modules.rs:31-31 | a last piece without a newline is a line as it stands |
| Closure.Visit | crates/imager/src/modules.rs:44-57 | visiting terminates on any table, emits only what the path reaches, dependencies first off cycles |
| Closure.EmitKeeps | crates/imager/src/modules.rs:53-56 | emitting after all dependencies keeps the order off cycles |
| Closure.ResolveClosure | crates/imager/src/modules.rs:28-66 | Ok iff every root is declared; then exactly the reachable paths once each, d before p for every edge p to d unless d reaches p; else the first missing root |
| Closure.NamedModuleResolves | crates/imager/src/modules.rs:28-66 | in any table, the last line "dir/base.ko.gz: d.ko.gz ..." about base makes root base, in either spelling, resolve to dir/base.ko with each d.ko in the closure and, off cycles, before it |
| Closure.OneLineTable | crates/imager/src/modules.rs:28-66 | for the table of just that line with one dependency the closure is exactly the dependency, then the module |
| Closure.FullyOrderedIff | crates/imager/src/modules.rs:17-27 | every dependency of an emitted path comes first iff no cycle passes through a path the roots reach |
| Closure.CyclicTableUnordered | crates/imager/src/modules.rs:17-27 | the input: on a table of two modules that need each other the documented order fails |
| Closure.DashesResolveAlike | crates/imager/src/modules.rs:11-14 | root names that differ only in `-` and `_` stand for the same path |
| Cpio.HexRoundTrip | crates/imager/src/cpio.rs:47-49 | eight hex digits read back as the field |
| Cpio.CpioWriter.Pad4 | crates/imager/src/cpio.rs:63-67 | the buffer zero-padded to a multiple of four |
| Cpio.CpioWriter.WriteHeader | crates/imager/src/cpio.rs:31-49 | magic and 13 fields |
| Cpio.CpioWriter.WriteEntry | crates/imager/src/cpio.rs:28-61 | padding the whole buffer equals padding each region from its own start |
| Cpio.CpioWriter.Add | crates/imager/src/cpio.rs:28-61 | one more entry, inodes counted from 1 |
| Cpio.CpioWriter.Dir | crates/imager/src/cpio.rs:69-71 | a directory entry with its mode bits |
| Cpio.CpioWriter.File | crates/imager/src/cpio.rs:73-75 | a regular file with its data |
| Cpio.CpioWriter.Symlink | crates/imager/src/cpio.rs:77-81 | a link with mode 0777 and the target as data |
| Cpio.CpioWriter.CharDevice | crates/imager/src/cpio.rs:83-85 | a device node with its numbers |
| Cpio.ModeBits | crates/imager/src/cpio.rs:8-11 | the mode words carry the POSIX file type in their top four bits and the permissions unchanged below |
| Cpio.FormatText | crates/imager/src/cpio.rs:31-49 | the magic is 070701, the trailer's name TRAILER!!!, and fields are upper-case hexadecimal that reads back |
| Cpio.OtherMagicRefused | crates/imager/src/cpio.rs:31-34 | a reader refuses whatever does not begin with the magic |
| Cpio.HeaderIsReproducible | crates/imager/src/cpio.rs:31-49 | every header reads back owner, times, device and checksum as zero and one link |
| Cpio.ArchiveEnds | crates/imager/src/cpio.rs:87-90 | an archive is its entries and then the trailer with no mode, device or data |
| Cpio.CpioWriter.Finish | crates/imager/src/cpio.rs:87-90 | the archive decodes to the added entries, in order, iff they are encodable |
| Cpio.EntriesAligned | crates/imager/src/cpio.rs:52-60 | every entry starts at a multiple of four |
| Cpio.FrameAligned | crates/imager/src/cpio.rs:52-60 | every data region starts, and every entry ends, at a multiple of four |
| Cpio.PaddedAfter | crates/imager/src/cpio.rs:52-60 | after an aligned prefix whole-buffer padding and own-start padding agree |
| Cpio.DecodesEntry | crates/imager/src/cpio.rs:28-61 | one written entry reads back with name, mode, device numbers, data and inode |
| Cpio.RoundTrip | crates/imager/src/cpio.rs:28-90 | decode after encode is the identity iff everything fits 32 bits and no name is the trailer's |
| Cpio.TrailerNameCuts | crates/imager/src/cpio.rs:87-90 | the input: after any entries, one named like the trailer is lost with all that follow |
| Boot.ParsedSlot | crates/imager/src/sdboot.rs:18-26 | read through the entry file, the daemon gets the slot iff the token reaches it first, else one fixed slot |
| Boot.EntryHead | crates/imager/src/sdboot.rs:18-26 | whatever the base, an entry file names the kernel and initramfs in its own slot's directory, /A or /B |
| Boot.SlotAgreement | crates/imager/src/sdboot.rs:18-26 | over the whole entry file, the daemon reads back the slot the imager wrote, for both slots, iff the token lands on an options line and no earlier word names a slot |
| Boot.OneLineBase | crates/machined/src/bootloader.rs:41-51 | for a base on one line the condition is that it carries no slot token |
| Boot.BrokenBaseLosesToken | crates/imager/src/sdboot.rs:18-26 | the input: a base broken over two lines loses the token |
| Boot.PiSlotAgreement | crates/imager/src/rpi.rs:39-41 | the Raspberry Pi command line always names its slot |
| Boot.RewriteOsPrefix | crates/machined/src/bootloader.rs:158-172 | fails iff there is no pointer line; else every pointer line is replaced and all others kept in order, the line os_prefix=A/ or os_prefix=B/ of the slot is there and the other's is not, and the firmware reads that directory |
| Boot.FlipChangesOnlyPointers | crates/machined/src/bootloader.rs:158-172 | read back, only pointer lines changed, iff no kept line ends in a carriage return |
| Boot.LastFlipWins | crates/machined/src/bootloader.rs:158-172 | two rewrites equal the second alone under the same condition, for all texts |
| Boot.DoubledCrIsLost | crates/machined/src/bootloader.rs:158-172 | the input: a kept line with two carriage returns breaks both properties |
| Boot.PlainTextNeverFrays | crates/machined/src/bootloader.rs:158-172 | the condition holds for text without carriage returns |
| Boot.FlipNames | crates/machined/src/bootloader.rs:158-172 | after a rewrite every pointer line names the slot, and there is one iff there was |
| Boot.FlipSelects | crates/machined/src/bootloader.rs:158-172 | after a rewrite the last os_prefix value, which the firmware uses, is A/ or B/ as asked |
| Boot.FlipIsIdentityIff | crates/machined/src/bootloader.rs:158-172 | byte for byte, a rewrite changes nothing iff the text ends in a newline and every pointer line already names the slot |
| Boot.FlipBackRestores | crates/machined/src/bootloader.rs:158-172 | flipping to the other slot and back restores such a file byte for byte |
| Boot.PiConfigNamesA | crates/imager/src/rpi.rs:25-34 | the imager's config.txt names slot A, has a pointer line, and flipping it to B and back restores it |
| Upgrade.ExtractBundle | crates/machined/src/upgrade.rs:39-69 | both images, the last entry of each name winning, or nothing |
| Upgrade.CaseOnly | crates/machined/src/upgrade.rs:94-96 | two digests compare equal iff position by position they are the same character or one ASCII letter in two cases |
| Upgrade.VerifiedIff | crates/machined/src/upgrade.rs:86-100 | for hexadecimal digests a request is verified iff its sha256 is the bundle's and the bundle holds both images |
| Upgrade.CaseOfDigest | crates/machined/src/upgrade.rs:94-96 | upper-casing letters of the requested digest changes nothing |
| Upgrade.SlotBelieved | crates/machined/src/bootloader.rs:41-51 | on either boot loader the daemon knows its slot iff the token reaches it, else it believes the same in both |
| Upgrade.Known | crates/machined/src/main.rs:423-424 | with a command line that can be read and carries the token, the belief is the booted slot at every boot |
| Upgrade.FactoryPointsToA | crates/imager/src/sdboot.rs:11-13 | on either boot loader the pointer file the imager writes names slot A and can be flipped |
| Upgrade.PointerSelects | crates/machined/src/bootloader.rs:129-172 | a pointer file written for a slot makes the boot loader, reading its default entry or its os_prefix, take that slot, so no file names both |
| Upgrade.InvStep | crates/machined/src/upgrade.rs:86-124 | every step, failure or power cut keeps the crash invariant and the running slot |
| Upgrade.SafeWithToken | crates/machined/src/upgrade.rs:86-124 | in every reachable state the pointed-to slot is one complete verified pair, and no step writes the running slot |
| Upgrade.UnsafeWithoutToken | crates/machined/src/main.rs:423-424 | if the token is hidden, lost or not read, one or two upgrades tear the pointed-to slot |
| Upgrade.CrashSafeIffTokenReaches | crates/machined/src/main.rs:459-489 | crash safety over all runs, on either boot loader, iff the slot token reaches the daemon first at every boot |
| Upgrade.Esp.PowerCycle | crates/machined/src/bootloader.rs:103-116 | a restart keeps the disk, boots the slot read from the pointer file, and learns it from the command line, or takes A when that cannot be read |
| Upgrade.Esp.WriteInactiveSlot | crates/machined/src/bootloader.rs:68-93 | both files in the slot, or only that slot disturbed |
| Upgrade.Esp.SetActive | crates/machined/src/bootloader.rs:129-234 | loader.conf or config.txt rewritten so that the boot loader selects the slot and it can be flipped again, iff nothing fails; else nothing changes |
| Upgrade.Esp.StageAndCommit | crates/machined/src/upgrade.rs:86-124 | an attempt is a run of the machine: committed iff verified and nothing failed, else pointer and running slot untouched; a request with another hexadecimal digest leaves the disk as it was |
| Block.PartLeafInjective | crates/block/src/fake.rs:69-78 | partitions of one disk have different resource ids |
| Block.PartDeviceText | crates/block/src/fake.rs:69-78 | the partition number follows the disk's name, after a p iff the name ends in a digit |
| Block.DecimalReadsBack | crates/block/src/fake.rs:69-78 | the number is written in decimal without leading zeros and reads back |
| Block.NumberedFresh | crates/block/src/fake.rs:150-156 | numbering after the existing partitions gives unused names when numbering has no gaps |
| Block.CountOnExact | crates/block/src/fake.rs:150-156 | the partitions counted on a disk are exactly those of that disk |
| Block.FakeBlockBackend.Wipe | crates/block/src/fake.rs:91-97 | the disk's partitions are gone, all others kept |
| Block.FakeBlockBackend.CreatePartitions | crates/block/src/fake.rs:99-122 | unformatted partitions numbered from 1 |
| Block.FakeBlockBackend.AddPartitions | crates/block/src/fake.rs:124-172 | refuses iff a planned label exists, touching nothing; else appends under fresh names and keeps numbering gap-free |
| Block.FakeBlockBackend.Format | crates/block/src/fake.rs:174-182 | one partition's filesystem set, the call logged |
| Provision.PlanExact | crates/controllers/src/block/provision.rs:40-89 | the decision, all four ways, in terms of the labels on the disk |
| Provision.PlanIgnoresOrder | crates/controllers/src/block/provision.rs:40-89 | the decision does not depend on listing order |
| Provision.VolumeProvisioner.FormatAndPublish | crates/controllers/src/block/provision.rs:401-415 | partitions formatted in order up to the first failure; published only if all succeed |
| Provision.VolumeProvisioner.Complete | crates/controllers/src/block/provision.rs:417-446 | appends only: with gap-free numbering no existing partition, EFI included, is changed or named in a format call |
| Provision.VolumeProvisioner.Overwrite | crates/controllers/src/block/provision.rs:390-416 | wipes first when anything was discovered, then lays out |
| Provision.VolumeProvisioner.Reconcile | crates/controllers/src/block/provision.rs:378-448 | a pass is its decision's effect on disks, format calls and statuses, with every failure point |
| Provision.VolumeProvisioner.PerformReset | crates/machined/src/main.rs:175-208 | one format call for each of STATE and EPHEMERAL that is published, with its recorded type or ext4; those that succeed set the filesystem, nothing else changes |
| Provision.LaidOutShape | crates/controllers/src/block/provision.rs:396-445 | laying out leaves old partitions untouched and adds exactly the planned ones |
| ProvisionPasses.DecisionInWords | crates/controllers/src/block/provision.rs:40-89 | Skip iff the labels on the install disk are exactly EFI, STATE and EPHEMERAL; else Provision iff wipe; else CompleteLayout iff a lone EFI; else refusal |
| ProvisionPasses.DiscoveredAt | crates/controllers/src/block/provision.rs:473-492 | each of our names is published iff seen on the disk, with device and filesystem of the last volume under it |
| ProvisionPasses.ProvisionOutcome | crates/controllers/src/block/provision.rs:390-416 | a wiping pass that succeeds leaves, formats and publishes EFI as vfat, STATE and EPHEMERAL as ext4, in that order, and keeps only held statuses besides |
| ProvisionPasses.CompleteOutcome | crates/controllers/src/block/provision.rs:417-446 | an appending pass that succeeds adds, formats and publishes STATE and EPHEMERAL as ext4 beside what was seen |
| ProvisionPasses.OtherOutcomes | crates/controllers/src/block/provision.rs:378-389 | a skipping pass touches no disk and publishes what was seen, a refusing one changes nothing, a failing one publishes nothing |
| ProvisionPasses.SucceedsIff | crates/controllers/src/block/provision.rs:378-448 | which faults and which labels already there make a pass fail |
| ProvisionPasses.ResetCallsExact | crates/machined/src/main.rs:182-206 | a reset formats the device published as STATE, then EPHEMERAL, with the recorded filesystem if known, else ext4 |
| ProvisionMachine.PassIsRun | crates/controllers/src/block/provision.rs:349-449 | an uninterrupted pass, with or without wipe and with any failure, does exactly what the controller's reconcile does |
| ProvisionMachine.ScanIsRun | crates/controllers/src/block/discovery.rs:44-103 | an uninterrupted scan publishes exactly the volumes found, each under its device's leaf name, retires all others, and then sets the disk status |
| ProvisionMachine.ShownLast | crates/controllers/src/block/discovery.rs:72-92 | of volumes with one leaf name the last found is published |
| ProvisionMachine.ScanCanFail | crates/controllers/src/block/discovery.rs:94-102 | a scan can fail at any moment and leaves what it has published |
| ProvisionMachine.RebootForgets | crates/controllers/src/block/provision.rs:349-377 | a reboot keeps the disks and empties the store, and no pass gets past the barrier until a scan ends |
| ProvisionMachine.FaultReached | crates/controllers/src/block/provision.rs:417-446 | on any flashed image each fault has a run that ends in what it leaves |
| ProvisionMachine.RebootMidPass | crates/controllers/src/block/provision.rs:425-444 | the input: on any flashed image a reboot after n formats, no call failing, leaves the rest unformatted |
| ProvisionRuns.CoreStep | crates/controllers/src/block/provision.rs:349-449 | whatever passes list, every step without wipe keeps the initial partitions and the appended ones in place, each formatted by at most one pass |
| ProvisionRuns.SafeWithoutWipe | crates/controllers/src/block/provision.rs:349-449 | without wipe, over every run and for any listing, no initial partition is removed, renamed or formatted by a pass, no device is formatted twice by passes, and one changes at all only if a reset named it |
| ProvisionRuns.FilesystemIff | crates/controllers/src/block/provision.rs:425-444 | in every run without wipe, once the appending pass is over, each appended partition has a filesystem iff the pass was not cut short before its format or a reset formatted it |
| ProvisionRuns.FormattedLaterIff | crates/machined/src/main.rs:182-206 | in every continuation an unformatted partition gets a filesystem iff a reset is taken while it is published and its format succeeds; passes format nothing more |
| ProvisionRuns.TruthStep | crates/controllers/src/block/discovery.rs:60-103 | with scans that report only what is there, every step keeps what is shown, listed and published true of the disks |
| ProvisionRuns.ResetSparesEfi | crates/machined/src/main.rs:175-208 | over every run with resets anywhere, each format call a reset made went to a partition carrying the label STATE or EPHEMERAL it was made for, if scans report only what is there |
| ProvisionRuns.InvStep | crates/controllers/src/block/discovery.rs:60-103 | with complete scans, every scan step, pass call, failure, reset or reboot keeps: past the barrier every initial partition and all that the latest scan found are shown |
| ProvisionRuns.BarrierShowsAll | crates/controllers/src/block/discovery.rs:90-103 | with complete scans, a pass past the disk-status barrier lists every initial partition and every one the latest completed scan found |
| ProvisionRuns.SkipForGood | crates/controllers/src/block/provision.rs:417-446 | in every run with complete scans and resets anywhere, after an append and a scan begun after it and completed, every later pass past the barrier decides Skip; no partition comes or goes, and once the appending pass is over passes format nothing |
| ProvisionRuns.UnformattedIsPublished | crates/controllers/src/block/provision.rs:378-446 | after such a scan a pass publishes an unformatted partition with an empty filesystem, and a reset then formats it with ext4 unless its format fails |
| ProvisionWipes.FreshWipeConverges | crates/controllers/src/block/provision.rs:390-416 | a wiping pass on a listing of what is there makes the disk ours |
| ProvisionWipes.WipesUnlessSeenAsOurs | crates/controllers/src/block/provision.rs:390-416 | with wipe and whatever fails, nothing is formatted iff the listing shows our layout or a call fails first; unless our layout is listed nothing on the disk survives the wipe call |
| ProvisionWipes.StaleScanWipesAgain | crates/controllers/src/block/provision.rs:390-416 | two passes over one scan wipe twice |
| ProvisionWipes.WipeMakesOurs | crates/controllers/src/block/provision.rs:390-416 | in every run with wipe, the table written after a wipe makes the disk ours |
| ProvisionWipes.WipeConverges | crates/controllers/src/block/provision.rs:378-416 | in every run with wipe, once the disk is ours and a complete scan begun after that has ended with its retirements, every later pass past the barrier decides Skip and no partition comes or goes, whatever resets, failures and reboots follow |
| ProvisionWipes.ListingDecidesWipe | crates/controllers/src/block/provision.rs:390-395 | in any state a pass with wipe leaves the partitions of the install disk iff it listed our layout or nothing at all, or there are none |
| Sntp.BeRoundTrip | crates/time/src/sntp.rs:20-21 | big-endian bytes read back |
| Sntp.RoundTripIffEra0 | crates/time/src/sntp.rs:19-63 | encoding loses at most 1 ns iff the time is in era 0 |
| Sntp.Era1ReadsBackAs1900 | crates/time/src/sntp.rs:19-63 | the input: the first second after era 0 reads back as the start of 1900 |
| Sntp.KnownTimestamps | crates/time/src/sntp.rs:7-24 | the Unix epoch, one second and half a second later, byte by byte |
| Sntp.OffsetAccuracy | crates/time/src/sntp.rs:35-53 | 2 * abs(offset - theta) <= abs(d1 - d2) + 3 |
| Sntp.OffsetIsHalf | crates/time/src/sntp.rs:35-53 | the offset is half of (t2 - t1) + (t3 - t4), rounded toward zero |
| Sntp.RefusedIff | crates/time/src/sntp.rs:40-47 | a response is refused iff its mode is not 4 or its transmit timestamp is zero |
| Sntp.EarlyReading | crates/time/src/sntp.rs:26-31 | a local reading before 1970 counts as 1970 |
| Sntp.TimestampRange | crates/time/src/sntp.rs:19-24 | the range of any decoded timestamp |
| Sntp.CastLossless | crates/controllers/src/time/sync.rs:95-106 | the cast is the one 64-bit value congruent modulo 2^64, the number itself iff it fits |
| Sntp.PublishedExactlyIff | crates/controllers/src/time/sync.rs:95-106 | the 64-bit cast is lossless for every response iff the local readings sum to at most MAX_READINGS |
| Sntp.PublishedExactlyUntil2191 | crates/controllers/src/time/sync.rs:95-106 | in particular for readings up to 7 * 10^18 ns |
| Sntp.TimeSyncController.Reconcile | crates/controllers/src/time/sync.rs:73-122 | the first answering server wins; the clock is stepped by its offset only beyond 128 ms; a failed step changes nothing else |

## Left out

- gRPC server and client, TLS, PKI, CRI, `PodController`: I/O and foreign libraries.
- `SysfsBlock` system calls, the GPT library's space search and FAT: of the backend only "a new partition gets an
  unused name" is used, and a partition call that fails after writing is allowed.
- The rtnetlink backend, platform calls, processes and signals: outcomes are arbitrary.
- SHA-256, gzip and tar: a bundle is a digest and a list of readable or unreadable entries.
- Filesystem probing, configuration loading, CLI, field mapping: tables with no property across functions.
- Wall-clock timing of debounce, polling, grace and backoff sleeps: arbitrary scheduling.
- Desired sets with duplicate ids: outside the contract of `reconcile_owned`; 64-bit version overflow.
- A closed broadcast channel, and log or status messages.
- Owned.ReconcileOwned: one pass with no other writer; interleavings with others are in Finalizer,
  on one owner and one consumer.
- Cascade.RunCascade: no other writer between the three passes, and all address specs belong to one
  owner and one finalizer; interleavings and failing effects are in Finalizer.
- Supervise.RunSupervised: covers every prefix of the loop up to a horizon, since the loop itself need
  not end; a run and a sleep take a fixed number of logical steps while the environment is arbitrary;
  status publications other than the final stop are not logged.
- Boot.SlotAgreement: the boot loader is taken to pass on the values of all options lines, split as the
  daemon's own text functions split lines.
- Upgrade.Esp.SetActive: the pointer-file write is atomic and finished copies are durable; the boot loader is
  taken to use the last value of its key in the pointer file.
- Upgrade.CrashSafeIffTokenReaches: download and status publication have no effect on the disk.
- ProvisionRuns.SafeWithoutWipe: discovered volumes are a map by resource id and a status publication is
  one step; device leaf names are taken to be distinct at the start.
- ProvisionRuns.ResetSparesEfi: scans may miss partitions, but what they report must be there under that label;
  a reset formats its two names in one step, and a power cut between them is not modelled.
- ProvisionRuns.BarrierShowsAll: complete scans are a hypothesis. `list_volumes` skips a disk whose table cannot be
  read and the disk still gets its status, so a pass may then list less; `SafeWithoutWipe` covers that case.
- ProvisionRuns.SkipForGood: takes complete scans as a hypothesis, for the same reason.
- ProvisionRuns.UnformattedIsPublished: takes complete scans as a hypothesis, for the same reason.
- ProvisionWipes.WipeConverges: takes complete scans as a hypothesis, and no volume of another disk to have the
  install disk's own path as device.
- ProvisionWipes.WipeMakesOurs: says nothing of a table written without a wipe, after a pass listed nothing; the
  machine takes it as new partitions under unused names, while a real table write replaces those on the disk.
- ProvisionWipes.FreshWipeConverges: assumes no volume of another disk has the install disk's own path as
  device, and takes a pass as one step; WipeConverges is the statement over runs.
- Provision.VolumeProvisioner.Reconcile: partition sizes, type GUIDs and UUIDs are not modelled.
- Cpio.CpioWriter.Add: a 33-bit name length or inode overflow is cut to 32 bits, as a release build does.
- Sntp.TimeSyncController.Reconcile: 64-bit overflow of the sync counter is not modelled.
