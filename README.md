# Agama: service status manager and helpers, in Dafny

This project models, and proves properties of, the following parts of the Agama installer:

- **The service status manager** of the Agama server (`StatusService`, `service_status.dfy`). It owns a service's optional progress sequence and its Idle/Busy status. It handles `Start`, `NextStep`, `Finish` and `GetProgress` actions one at a time and publishes `Progress` and `ServiceStatusChanged` events. The manager is a class with the two mutable fields and a ghost log of published events. Each handler is a method proved equal to a pure transition function. `Run` is a loop over a sequence of actions, proved equal to the fold `RunActions`. The properties proved include:
  - busy is equivalent to having an active sequence;
  - a start while busy is refused and changes nothing;
  - the event order of each handler;
  - ordered composition of runs.
- **File format detection** (`FileFormatDetection`). This is the Json > Jsonnet > Script > Unknown cascade. The JSON and Jsonnet tests are parameters.
- **Setting the default gateway** in the network state (`Network`). It is a class whose method rewrites only the configured routes: first an "absent" default route, then the real one.
- **The zFCP cache updaters** (`Zfcp`). These handle controllers keyed by `id` and disks keyed by `name`.
- **The custom space policy page** (`SpacePolicy`). This covers partition actions, the initial action list, the lookup with a "keep" default, and the change of one device's action. The page's action list is a class field.
- **The storage config editor helpers** (`ConfigEditor`). These are type guards, size texts, drive and partition descriptions, and the filter of shown partitions.
- **The proposal volume list** (`ProposalVolumes`). This covers add, reset, delete and edit, the row actions, the size label and the auto-calculated hint.

Shared pieces:
- `Wrappers` holds `Option`/`Result`.
- `Lists` holds the JavaScript `filter`/`find`/`findIndex` and copy-then-assign patterns, stated once for any key.

`ProgressSequence::step` comes from a library that is not part of this model. It is a parameter of the manager (`step`) about which nothing is assumed, so every property holds for any answer it gives.

Three facts about the manager's code shape the model:
- `start_task` only calls `step()` on the new sequence; nothing advances it.
- `next_step` only calls `step()` and publishes what it answers; nothing advances, so no cursor is modelled.
- Whether `next_step` publishes anything depends only on whether `step()` answers `None`.

## Model

| member | source | states |
|---|---|---|
| StatusService.StatusCode | rust/agama-server/src/services/service_status.rs:49-53 | the published status code is 0 exactly for Idle and is below 2 |
| StatusService.StartTransition | rust/agama-server/src/services/service_status.rs:150-169 | refused with Busy exactly when busy, and then nothing changes; otherwise: the sequence is over exactly the given steps, the status is Busy, the invariant holds and the log only grows; the new events are the step's Progress event when `step` gives one, then exactly one status change to 1 |
| StatusService.NextStepTransition | rust/agama-server/src/services/service_status.rs:174-190 | never changes status or sequence; answers None exactly when there is no sequence or no step, and then publishes nothing; otherwise it publishes exactly one Progress event equal to the step it returns |
| StatusService.FinishTransition | rust/agama-server/src/services/service_status.rs:216-233 | from any state: Idle, no sequence, invariant holds; it publishes exactly the finished empty step, then the status change to 0 |
| StatusService.ProgressQuery | rust/agama-server/src/services/service_status.rs:193-211 | None exactly when there is no sequence or no step; otherwise the summary copies the steps and the step's current step, total, title and finished flag |
| StatusService.Dispatch | rust/agama-server/src/services/service_status.rs:124-141 | Start goes to StartTransition and replies with its result; NextStep goes to NextStepTransition and Finish to FinishTransition, with no reply; GetProgress changes nothing and replies with ProgressQuery; keeps the invariant; only appends events |
| StatusService.RunActions | rust/agama-server/src/services/service_status.rs:118-143 | for any action list: one reply per Start/GetProgress, the invariant is kept, and the event log only grows |
| StatusService.RunActionsSnoc | rust/agama-server/src/services/service_status.rs:119-141 | one more action is handled in the state left by the earlier ones, and its reply comes after theirs |
| StatusService.RunActionsAppend | rust/agama-server/src/services/service_status.rs:119-122 | running `a` then `b` is running `a + b`: states chain and replies concatenate in order |
| StatusService.StartWhileBusyIsRejected | rust/agama-server/src/services/service_status.rs:150-153 | from Idle, Start then Start replies Ok then Busy, and the sequence stays the first one's |
| StatusService.FinishAlwaysResets | rust/agama-server/src/services/service_status.rs:216-233 | after any actions, a Finish leaves Idle and no sequence; the last two events are the finished step and the change to 0 |
| StatusService.StepsAndQueriesKeepState | rust/agama-server/src/services/service_status.rs:174-211 | any run of NextStep/GetProgress keeps status and sequence |
| StatusService.QueryAfterStart | rust/agama-server/src/services/service_status.rs:154-208 | after a start from Idle, a query answers None exactly when the new sequence has no step; otherwise its steps are the ones given |
| StatusService.ServiceStatusManager.constructor | rust/agama-server/src/services/service_status.rs:97-108 | Idle, no sequence, empty log, invariant holds |
| StatusService.ServiceStatusManager.IsBusy | rust/agama-server/src/services/service_status.rs:236-238 | under the invariant, busy exactly when a sequence is active |
| StatusService.ServiceStatusManager.StartTask | rust/agama-server/src/services/service_status.rs:150-169 | new fields, log and result are those of StartTransition; when busy: Err(Busy) and nothing changes; when idle: Ok, the given steps, Busy and the invariant |
| StatusService.ServiceStatusManager.NextStep | rust/agama-server/src/services/service_status.rs:174-190 | equal to NextStepTransition; fields unchanged; the log grows by the returned step or not at all |
| StatusService.ServiceStatusManager.FinishTask | rust/agama-server/src/services/service_status.rs:216-233 | equal to FinishTransition; the invariant holds afterwards |
| StatusService.ServiceStatusManager.GetProgress | rust/agama-server/src/services/service_status.rs:193-211 | read-only; the answer is ProgressQuery of the current state: None without a sequence or when `step()` answers None; when it answers, the sequence's steps |
| StatusService.ServiceStatusManager.Run | rust/agama-server/src/services/service_status.rs:118-143 | the final state and replies are those of RunActions on the actions in order; the invariant is preserved |
| FileFormatDetection.FromString | rust/agama-lib/src/utils/file_format.rs:49-59 | Json iff JSON parses; Jsonnet iff not JSON and Jsonnet; Script iff neither and a shebang; Unknown iff none of the three |
| FileFormatDetection.IsScriptSpec | rust/agama-lib/src/utils/file_format.rs:88-90 | a script exactly when the first two characters are '#' and '!' |
| FileFormatDetection.ShebangIsScript | rust/agama-lib/src/utils/file_format.rs:54-55 | shebang content that neither parser accepts is a script |
| Network.DefaultGatewayRoutes | rust/agama-lib/src/network/state.rs:78-86 | two entries, both to 0.0.0.0/0 via the device; the first has no address and is Absent, the second has the address and no state |
| Network.GatewayEntriesDiffer | rust/agama-lib/src/network/state.rs:81-83 | the removal entry is the gateway entry without its address and with state Absent |
| Network.NetworkState.SetDefaultGateway | rust/agama-lib/src/network/state.rs:71-89 | always Ok; the configured routes exist afterwards and are exactly the two gateway entries, whatever they were before; interfaces, DNS and running routes are unchanged |
| Zfcp.UpdateControllers | web/src/queries/zfcp.ts:76-105 | Added appends; Removed is the filter by id (never longer, keeps exactly the controllers with another id); Changed keeps the length; other events leave the list as it was |
| Zfcp.UpdateDisks | web/src/queries/zfcp.ts:125-154 | the same for disks, keyed by name: Removed is the filter by name, never longer |
| Zfcp.ControllerRemovedKeepsOrder | web/src/queries/zfcp.ts:87-90 | removal distributes over concatenation, so survivors keep their order |
| Zfcp.ControllerChangedReplacesFirst | web/src/queries/zfcp.ts:96-101 | the first controller with the id becomes the new one and every other position is unchanged |
| Zfcp.DiskRemovedKeepsOrder | web/src/queries/zfcp.ts:136-139 | removal by name keeps the survivors' order |
| Zfcp.DiskChangedReplacesFirst | web/src/queries/zfcp.ts:145-150 | the first disk with the name becomes the new one and every other position is unchanged |
| Zfcp.RemovingUnknownControllerChangesNothing | web/src/queries/zfcp.ts:87-90 | removing an id that no controller has leaves the list as it was |
| Zfcp.RemovingUnknownDiskChangesNothing | web/src/queries/zfcp.ts:136-139 | removing a name that no disk has leaves the list as it was |
| Lists.RemoveKey | web/src/queries/zfcp.ts:88 | the filter keeps exactly the elements with another key, and adds none |
| Lists.FindIndex | web/src/queries/zfcp.ts:99 | -1 when no element has the key; otherwise the first index with it |
| Lists.Find | web/src/components/storage/SpacePolicySelection.tsx:77 | nothing exactly when no element has the key; otherwise the first element with it |
| Lists.ReplaceFirst | web/src/queries/zfcp.ts:97-100 | the copy keeps the length |
| Lists.ReplaceFirstSpec | web/src/queries/zfcp.ts:97-100 | the first element with the key is replaced and the others are unchanged; with no such element the list is unchanged |
| Lists.RemoveKeyAppend | web/src/components/storage/ProposalVolumes.jsx:313 | filtering distributes over concatenation (order kept) |
| Lists.RemoveAbsentKey | web/src/queries/zfcp.ts:137 | filtering out a key that no element has is the identity |
| Lists.RemoveKeyKeepsUniqueKeys | web/src/components/storage/SpacePolicySelection.tsx:81 | filtering keeps keys unique |
| SpacePolicy.PartitionAction | web/src/components/storage/SpacePolicySelection.tsx:36-41 | delete iff the delete flag is set (even with resize); resize iff only resize; none iff neither; never keep |
| SpacePolicy.PartitionDeviceAction | web/src/components/storage/SpacePolicySelection.tsx:55-59 | none without a partition list or a partition of that name; otherwise the partition action of the first partition with that name; never keep |
| SpacePolicy.InitialActions | web/src/components/storage/SpacePolicySelection.tsx:61-70 | no longer than the children; every entry is a child storage device carrying its defined partition action; every such child has its entry; no entry keeps |
| SpacePolicy.InitialActionsAppend | web/src/components/storage/SpacePolicySelection.tsx:62-69 | the list follows the children's order: building it for two runs of children and joining is building it for the whole |
| SpacePolicy.InitialActionsOfOne | web/src/components/storage/SpacePolicySelection.tsx:62-69 | one child gives no entry when it is a free slot or has no action, and otherwise exactly one entry with its action |
| SpacePolicy.WithAction | web/src/components/storage/SpacePolicySelection.tsx:80-82 | the given action is last and is the only entry for its device; every other device's entries stay and nothing new is added |
| SpacePolicy.WithActionKeepsNamesUnique | web/src/components/storage/SpacePolicySelection.tsx:80-82 | if no device had two entries before, none has two after |
| SpacePolicy.WithActionKeepsOrder | web/src/components/storage/SpacePolicySelection.tsx:81 | the entries before the new one are the old ones of other devices, in their order |
| SpacePolicy.SpacePolicySelection.constructor | web/src/components/storage/SpacePolicySelection.tsx:61-70 | the page starts from the initial actions |
| SpacePolicy.SpacePolicySelection.DeviceAction | web/src/components/storage/SpacePolicySelection.tsx:74-78 | keep for a free slot or a device without an entry; otherwise the value of the device's first entry |
| SpacePolicy.SpacePolicySelection.ChangeActions | web/src/components/storage/SpacePolicySelection.tsx:80-85 | the stored list becomes WithAction of the old one, and the device then reads the new value |
| ConfigEditor.SearchClassification | web/src/components/storage/ConfigEditor.tsx:42-52 | "all" iff the search is "*"; "advanced" iff it is an object; exactly one of the three guards holds |
| ConfigEditor.PartitionGuards | web/src/components/storage/ConfigEditor.tsx:54-70 | an entry with generate, delete or deleteIfNeeded is not a plain partition; the three guards together reject exactly generator entries that delete nothing |
| ConfigEditor.DeviceName | web/src/components/storage/ConfigEditor.tsx:76-81 | a name exactly for an advanced search with a condition, and then the condition's name |
| ConfigEditor.NatToString | web/src/components/storage/ConfigEditor.tsx:89 | a number is written as a non-empty string of decimal digits whose decimal value is the number, with no leading zero |
| ConfigEditor.SizeInfo | web/src/components/storage/ConfigEditor.tsx:83-93 | text to itself, number to "", pair and record to "a - b" |
| ConfigEditor.SizeInfoShapes | web/src/components/storage/ConfigEditor.tsx:83-93 | a pair and a record with the same bounds read the same; the text is empty only for a number or an empty string |
| ConfigEditor.DeviceSize | web/src/components/storage/ConfigEditor.tsx:95-100 | nothing exactly for a falsy size (undefined, "", 0); otherwise its size text |
| ConfigEditor.DriveInfo | web/src/components/storage/ConfigEditor.tsx:102-109 | the filesystem type of a formatted drive, "Partitioned (n)" otherwise; fails only for an unformatted drive without a partition list |
| ConfigEditor.ShownPartitions | web/src/components/storage/ConfigEditor.tsx:114-117 | keeps exactly the entries that are not generators deleting nothing, and adds none |
| ConfigEditor.ShownPartitionsAppend | web/src/components/storage/ConfigEditor.tsx:115-117 | the filter distributes over concatenation (order kept) |
| ConfigEditor.DrivePartitions | web/src/components/storage/ConfigEditor.tsx:111-118 | empty for a formatted drive or a missing list; otherwise the shown entries of the list |
| ConfigEditor.PartitionInfo | web/src/components/storage/ConfigEditor.tsx:120-128 | "Delete" for an entry to delete; "Size: " and the interpolated device size for one to delete if needed; the same followed by ", File system: " for a plain partition |
| ConfigEditor.PartitionInfoSuffix | web/src/components/storage/ConfigEditor.tsx:123-127 | a plain partition's text is the delete-if-needed text plus ", File system: " |
| ProposalVolumes.AddVolume | web/src/components/storage/ProposalVolumes.jsx:375-379 | nothing when onChange is noop; otherwise the old volumes followed by the new one |
| ProposalVolumes.ResetVolumes | web/src/components/storage/ProposalVolumes.jsx:381-384 | nothing when onChange is noop; otherwise the empty list |
| ProposalVolumes.DeleteVolume | web/src/components/storage/ProposalVolumes.jsx:312-315 | the filter by mount point: never longer, and keeps exactly the volumes with another mount point |
| ProposalVolumes.DeleteVolumeKeepsOrder | web/src/components/storage/ProposalVolumes.jsx:313 | deleting keeps the remaining volumes' order |
| ProposalVolumes.DeletingUnknownVolumeChangesNothing | web/src/components/storage/ProposalVolumes.jsx:312-315 | deleting a mount point that no volume has leaves the list as it was |
| ProposalVolumes.EditVolume | web/src/components/storage/ProposalVolumes.jsx:305-310 | same length; the first volume with the mount point becomes the edited one and the others are unchanged; with no such volume the list is unchanged |
| ProposalVolumes.VolumeActions | web/src/components/storage/ProposalVolumes.jsx:231-234 | edit first; two actions for an optional volume and one otherwise; delete is offered iff the volume is optional |
| ProposalVolumes.SizeLabel | web/src/components/storage/ProposalVolumes.jsx:178-186 | "At least min" without a maximum; "min - max" when both are truthy and differ; the minimum otherwise |
| ProposalVolumes.SizeLabelShapes | web/src/components/storage/ProposalVolumes.jsx:183-186 | the label is missing only with a maximum and no minimum; equal limits show one size |
| ProposalVolumes.AutoCalculatedHint | web/src/components/storage/ProposalVolumes.jsx:47-68 | null iff snapshots do not matter and the other-volumes list is defined and empty; the snapshots item iff snapshots matter, and then first; the volumes item when the list is non-empty; each item at most once (the count is one per condition that holds) |
| ProposalVolumes.HintWithoutItems | web/src/components/storage/ProposalVolumes.jsx:49-51 | with no snapshots and a missing list, the hint is shown with no item |
| ProposalVolumes.SizeLimits | web/src/components/storage/ProposalVolumes.jsx:177-195 | the cell shows the size label; the "auto" tip is present exactly when `isAuto` (adaptive sizes, limits not fixed), and its description is the auto-calculated hint |
| ProposalVolumes.FixedLimitsShowNoTip | web/src/components/storage/ProposalVolumes.jsx:180-192 | fixed limits never show the tip; the label does not depend on the adaptive flag |

## Left out

- Tokio machinery is not modelled: the channels, `start`'s spawned task and `ServiceStatusClient`. The channel becomes an ordered action list. Because of that, the channel errors (`SendError`, `RecvError`) and the panic on a failed send in the client's `get_progress` have no counterpart.
- `EventsSender` delivery is an external sink. It is a ghost log that only grows; the source ignores send failures.
- The internals of `ProgressSequence` (a library outside this model) are not modelled. `step` is uninterpreted and no cursor is modelled.
- The `tracing::error!` diagnostics of `next_step` have no counterpart.
- File I/O and foreign parsing are not modelled: `FileFormat::from_file` reads a file, `is_json` runs serde_json, and `is_jsonnet` spawns `jsonnetfmt`. The last two are parameters of `FromString`.
- The nmstate wrappers `from_system`, `apply`, `update_device`, `get_iface` and the accessors delegate entirely to nmstate. A route entry keeps only the four fields the gateway code sets. Interfaces and DNS are opaque records.
- React rendering, hooks, websocket subscription, navigation and `setCustomSpacePolicy` are left out. So are the i18n calls (`_`, `format`, `sprintf`), which the model treats as the identity on the English text.
- Three helpers are not part of this model: `deviceSize` from the storage utilities (volume sizes arrive already formatted), `toStorageDevice` (assumed to give the device itself, or nothing for a free slot) and `deviceChildren`.
- Zfcp.UpdateControllers: when no controller has the changed id, `res[-1] = device` adds a property named "-1" to the copy. The model keeps only the elements, which are unchanged.
- Zfcp.UpdateDisks: the same "-1" property is not modelled for a changed disk whose name is absent.
- ProposalVolumes.EditVolume: the same "-1" property is not modelled when no volume has the mount point.
- ConfigEditor.SizeInfo: numbers are whole byte counts, so JavaScript's formatting of fractions is not modelled. Both bounds of a `{min, max}` size are taken to be present.
- ConfigEditor.NatToString: every number is written with all its decimal digits. JavaScript writes numbers from 1e21 up in exponent form ("1e+21") and is not exact above 2^53; neither is modelled.
- SpacePolicy.PartitionDeviceAction: it takes the matching drive's partition list directly. The lookup of the drive in the config model by id, and the TypeError on `drive.partitions` when no drive has that id, are not modelled.
- ConfigEditor.SearchClassification: the guards are modelled on searches that are strings or objects only. An undefined search is handled in `DeviceName`.
- The optional booleans of the config model and of volumes (`delete`, `resizeIfNeeded`, `adaptiveSizes`, `fixedSizeLimits`, `optional`, `snapshotsAffectSizes`) are booleans, with an absent flag read as false, matching JavaScript truthiness.
- The other files of the repository are outside this model: generated D-Bus proxies, the libzypp bindings, the overview and settings sections, the route tables, the Ruby storage planner and the tests without their implementations.
