# WispDisk: recoverable disk management, verified

WispDisk is a StorPort miniport that serves RAM disks, and a command-line client that
creates and deletes them through miniport control requests. Requests and replies can be
lost, so every mutation is reserved first and executed under a handle (adapter instance,
operation id) that the client can query and resubmit. This project models that protocol,
the storage it governs, the SCSI data path and the client's deletion of mounted disks, and
proves what they promise. `dafny verify dfyconfig.toml` checks everything.

## How it is built

- **Protocol, Driver** hold the vocabulary and, for every section the driver executes under
  its spin lock, a function from the adapter extension before to the one after.
- **AdapterExtension** is the adapter in its own form, fixed tables and fields updated in
  place by one method per lock section; each method is proved equal to its function.
- **Lifecycle** runs these sections one after the other as CreateDisk, DeleteDisk and the
  shutdown loop do, with the pool and its owning allocation.
- **System** interleaves these sections: any number of submitters and I/O threads, one
  worker, stop and restart, and the shutdown thread. Allocation, zeroing, draining, freeing,
  completion and notification are separate events between sections. `Reachable` means
  reached from some adapter's initialisation by some interleaving. History fields record
  SRB completions, effects per operation id, bus-change notifications, accepted writes, and
  whether memory outside a live buffer was ever touched (`fault`).
- **Storage, StorageSteps, StorageEvents** (slots, buffers, leases, bytes, block contents)
  and **Invariant, TableSteps, ManagementSteps, ManagementEvents** (token, records, links
  to LUNs, effect counts, SRB ownership, truth of replies) state the invariant and show that
  each event keeps it; **Steps** puts this together.
- **Frames** says what each event leaves alone, and **Guarantees, Retention, History, Progress,
  Shutdown** are the promises in every reachable state and over whole runs: safety, how long a
  handle is remembered, that every SRB is completed, and that shutdown ends with everything freed.
- **BigEndian, Scsi, ScsiCommands, Dispatch** are CDB decoding, the READ and WRITE copies, the
  commands that describe a disk and the lease around a SCSI request.
- **Recovery, Client** run the client's recovery loop, create and delete against the driver
  of System over a transport that loses requests and replies.
- **Saga, Removal** are the deletion of a mounted disk: lock, dismount and unmount all
  volumes, delete in the driver, restore when the driver kept the disk.
- **Wire, ControlRequest** are the bytes in between: envelope, headers, capacity, and what
  each side makes of the other's message.
- **Instances** is the compare-exchange loop that numbers adapter instances.

## Assumptions

- A pool allocation returns a buffer that is not live, possibly one freed before, or fails. A queued work item runs exactly once.
- The payload of a pending SRB changes only by the driver's own writes.
- Stop and restart may come at any time, but no restart follows the start of shutdown.
- A control request is delivered before its call returns, or never; only the client that
  reserved a handle submits it.
- Each memory copy is one step.
- A failed operating-system call on a volume has no effect, and nobody else changes the
  mount points while they are being removed and restored.
- The client checks size, sector multiple and drive letter before it reserves
  (`cli/src/args.rs:103-112`), so a create carries valid parameters.

## Where code and prose differ

- LUN states are Empty, Online and Stopping (`driver/src/driver.h:20-24`), not the four named
  at `docs/architecture.md:231`; a slot is not reserved while its backing is allocated and
  zeroed, so the quota check is repeated nowhere and its safety rests on the management token.
- READ and WRITE exist in 6, 10, 12 and 16 byte forms (`driver/src/scsi/read_write.cpp:18-54`);
  `docs/architecture.md:215` names only the 10 and 16 byte ones.

## Model

| member | source | states |
|---|---|---|
| `Guarantees.LeaseSafety` | driver/src/storage/lun_store.cpp:163-265 | in every reachable state each live lease's buffer is allocated, unfreed and of exactly the leased size and device; an Empty slot has no lease; the drain event is signalled iff no lease is live; freed memory is never touched |
| `Guarantees.PoolConservation` | driver/src/storage/lun_store.cpp:128-218 | every live buffer has exactly one owner (a LUN, or the running creation or removal) and every other buffer has none, on every failure path |
| `Guarantees.QuiescentPool` | driver/src/storage/lun_store.cpp:136-153 | when no creation or removal is under way the live memory is exactly the LUNs' backing stores |
| `Guarantees.Accounting` | driver/src/storage/lun_store.cpp:43-125 | the byte total is the sum of the live sizes, at most 512 MiB although check and commit are separate sections; every ListState reply lists disks whose sizes add up to its total, at most 16 of them and at most one pending operation |
| `Guarantees.RemovalNeverSaturates` | driver/src/storage/lun_store.cpp:184-197 | the saturating subtraction of a removal is always an exact one |
| `Guarantees.SerializationToken` | driver/src/management/management_controller.cpp:177-194 | busy iff exactly one command holds the token, idle event iff not busy, and a Pending record is that command's own |
| `Guarantees.WorkerCopyIsCurrent` | driver/src/management/management_controller.cpp:481-546 | the worker always finds its record Pending, and the record it overwrites is its own copy plus its own result: no concurrent update is lost |
| `Guarantees.CreateRecordsMatchLuns` | driver/src/management/management_controller.cpp:422-458 | Succeeded create records and LUNs carrying a creating operation are in bijection, by device and operation id, between any two sections; each such LUN has the size, media kind and drive letter its record asked for |
| `Guarantees.RepliesAgreeWithQueries` | driver/src/management/management_controller.cpp:203-239 | every outcome ever given for a handle, first answer or replay, is what a query of the handle answers now, except that a created disk may have been deleted since and old handles are forgotten |
| `Guarantees.AtMostOnce` | driver/src/management/management_controller.cpp:203-239 | each operation id executes at most one mutation over any run of submissions, replays, evictions and parameter changes, and its retained record says whether it did |
| `Guarantees.CompletedOnce` | driver/src/management/management_controller.cpp:627-642 | no management SRB is completed twice, the completed ones are the Done ones, and a free token leaves none unanswered; that every one is completed is Progress.EverySrbCompletes |
| `Guarantees.BusChangeIffChanged` | driver/src/management/management_controller.cpp:596-636 | BusChangeDetected is raised once, in order, for exactly the commands that changed the LUN table |
| `Guarantees.DataIntegrity` | driver/src/scsi/read_write.cpp:61-96 | each block an accepted READ delivers is the last block written to that device since it was created, or zeros, for all CDB forms, any number of LUNs and reused slots and buffers |
| `Guarantees.WriteIsLast` | driver/src/scsi/read_write.cpp:86-95 | an accepted WRITE becomes the last write of exactly the blocks it covers, of no other block and no other device |
| `Guarantees.ReportedIffServed` | driver/src/scsi/scsi_commands.cpp:13-22 | REPORT LUNS lists exactly the LUNs for which a SCSI request gets a lease |
| `Guarantees.InventoryBytes` | driver/src/storage/lun_store.cpp:43-59 | the listed sizes add up to the occupied slots' sizes |
| `Steps.StepKeepsInvariant` | driver/src/management/management_controller.cpp:323-679 | every event of the driver keeps the whole invariant, and changes handles, devices and effect counts only in the promised order |
| `Steps.ReachableInvariant` | driver/src/management/management_controller.cpp:38-679 | every state of every interleaving of submitters, worker, I/O, stop and restart, and shutdown has the invariant |
| `Retention.AtMostSeventeenPinned` | driver/src/management/management_controller.cpp:115-130 | at most 16 live creates and one pending record are exempt from eviction |
| `Retention.ReservationSucceeds` | driver/src/management/management_controller.cpp:95-147 | a reservation of a create or delete succeeds iff the adapter is not stopping and ids are not exhausted; the table never fills up |
| `Retention.EvictedLate` | driver/src/management/management_controller.cpp:115-140 | the record a reservation reclaims is at least 110 reservations old |
| `Retention.RunRetains` | driver/src/management/management_controller.cpp:95-147 | over a whole run with any interference a known handle stays known while at most 110 younger handles have been reserved |
| `Retention.HandleSurvives` | driver/src/management/management_controller.cpp:95-162 | a fresh handle can still be queried after every run with at most 110 further reservations |
| `TableSteps.ScanPicks` | driver/src/management/management_controller.cpp:115-130 | the reservation scan picks the first unused record, or else the unpinned record of least id |
| `TableSteps.PublishBinding` | driver/src/management/management_controller.cpp:521-546 | publication of a create makes the Succeeded record and the LUN's creating operation appear together |
| `ManagementEvents.FinalizedBinding` | driver/src/management/management_controller.cpp:422-458 | the slot becomes Empty and its create record Deleted in one section, so the bijection survives |
| `History.ObservationsFollow` | driver/src/management/management_controller.cpp:203-239 | whatever a client observed of a handle, every later observation follows it: Reserved, Pending, one fixed outcome, Deleted only after a successful create; not found is absorbing |
| `History.SettledForever` | driver/src/management/management_controller.cpp:217-229 | a fixed outcome stays fixed and its mutation is not executed again |
| `History.UntriedWhileLeft` | driver/src/management/management_controller.cpp:203-239 | a handle nobody submits is never executed, whatever else happens |
| `History.GoneForever` | driver/src/storage/lun_store.cpp:109-113 | a removed device id never comes back in that adapter instance |
| `History.ListedIffPresent` | driver/src/storage/lun_store.cpp:43-59 | the inventory lists a device iff some non-Empty slot holds it |
| `History.DeleteConfirmed` | driver/src/management/management_controller.cpp:435-458 | once a reserved delete was answered Succeeded, in every later state no buffer belongs to the device and no ListState reply lists it |
| `History.CompletedIsFinal` | driver/src/management/management_controller.cpp:596-636 | a completed SRB is never touched again |
| `History.OursOverRuns` | driver/src/management/management_controller.cpp:203-239 | while only one command is submitted under a handle, its record is Reserved or carries exactly that command's parameters |
| `Progress.CommandAdvances` | driver/src/management/management_controller.cpp:549-642 | every own step of the command in flight brings it nearer to its end |
| `Progress.OthersLeaveCommand` | driver/src/management/management_controller.cpp:323-378 | no other event, be it a submission, a reservation, I/O, stop, restart or the start of shutdown, touches the command in flight |
| `Progress.CommandIsBounded` | driver/src/management/management_controller.cpp:549-642 | in every run, with any interference, the command of an admitted SRB takes at most twelve steps and nothing moves its end away |
| `Progress.EnoughSteps` | driver/src/management/management_controller.cpp:596-642 | once the command has taken as many steps as its rank, in whatever order the threads ran, its SRB has its reply |
| `Progress.CommandNeverStuck` | driver/src/management/management_controller.cpp:549-642 | a command in flight can always take its next step, except while the LUN it removes still has leases, and exactly then it cannot |
| `Progress.CommandFinishes` | driver/src/management/management_controller.cpp:177-194 | without leases the driver's own steps, at most as many as the rank, end the command and give the token back |
| `Progress.EverySrbCompletes` | driver/src/management/management_controller.cpp:627-642 | from every reachable state every management SRB the driver has taken can be completed by the driver alone: once the I/O in progress has ended, in at most thirteen steps |
| `Shutdown.AdvanceCounts` | driver/src/management/management_controller.cpp:645-679 | every step of the worker or the shutdown thread strictly lowers the number of steps left |
| `Shutdown.OthersDoNotDelay` | driver/src/management/management_controller.cpp:46-61 | once admission is closed no other event can add steps |
| `Shutdown.ShutdownIsBounded` | driver/src/management/management_controller.cpp:52-61 | after CloseAdmission, in every run, worker and shutdown thread make at most 118 steps |
| `Shutdown.NeverStuck` | driver/src/management/management_controller.cpp:645-653 | with no lease left there is always a next step until the worker is released |
| `Shutdown.ShutdownCompletes` | driver/src/management/management_controller.cpp:52-61 | from every state in which shutdown has begun and the leases have drained, the driver's own steps reach the release of the worker |
| `Shutdown.ReleasedIsEmpty` | driver/src/management/management_controller.cpp:645-679 | then all slots are Empty, no byte is accounted, no buffer is live, no record is Pending or a live create, every SRB has its reply and every bus change was announced |
| `Shutdown.FrozenForever` | driver/src/management/management_controller.cpp:655-679 | after the release no request makes anything touch adapter storage again |
| `AdapterExtension.Adapter.constructor` | driver/src/adapter_context.cpp:19-47 | initialisation yields the empty tables, counters at 1 and the idle event signalled |
| `AdapterExtension.Adapter.SelectAvailableLun` | driver/src/storage/lun_store.cpp:82-97 | the in-place section equals its specification: admission, quota and first empty slot, in this order |
| `AdapterExtension.Adapter.CommitNewLun` | driver/src/storage/lun_store.cpp:99-125 | the in-place section equals its specification; the new device id is the old counter, which wraps to zero at 32 bits and then ends creation |
| `AdapterExtension.Adapter.MarkLunStopping` | driver/src/storage/lun_store.cpp:163-172 | the first online slot of the device, and only it, becomes Stopping |
| `AdapterExtension.Adapter.DetachBackingStore` | driver/src/storage/lun_store.cpp:174-182 | the pointer is taken only from a Stopping slot of that device |
| `AdapterExtension.Adapter.FinalizeRemovalLocked` | driver/src/storage/lun_store.cpp:184-197 | the slot is cleared and its size leaves the total |
| `AdapterExtension.Adapter.MarkAllLunsStopping` | driver/src/storage/lun_store.cpp:220-227 | exactly the online slots become Stopping |
| `AdapterExtension.Adapter.FirstStoppingLun` | driver/src/storage/lun_store.cpp:229-237 | the first Stopping slot, if any |
| `AdapterExtension.Adapter.AcquireLunIo` | driver/src/storage/lun_store.cpp:239-257 | a view exactly for an addressed, online, backed slot; the count rises and the drain event is cleared on the first lease |
| `AdapterExtension.Adapter.ReleaseLunIo` | driver/src/storage/lun_store.cpp:259-265 | the count falls and the drain event is set when it reaches zero |
| `AdapterExtension.Adapter.SnapshotOnlineLuns` | driver/src/storage/lun_store.cpp:71-80 | the numbers of exactly the online slots, in order |
| `AdapterExtension.Adapter.FindOperationLocked` | driver/src/management/management_controller.cpp:78-92 | the first record with the id; id zero names none |
| `AdapterExtension.Adapter.ReserveOperation` | driver/src/management/management_controller.cpp:95-147 | the in-place scan and reservation equal their specification |
| `AdapterExtension.Adapter.QueryOperation` | driver/src/management/management_controller.cpp:150-162 | the retained record of a handle of this instance |
| `AdapterExtension.Adapter.SnapshotState` | driver/src/management/management_controller.cpp:165-175 | the pending count and inventory of one instant |
| `AdapterExtension.Adapter.BindOperationLocked` | driver/src/management/management_controller.cpp:203-239 | refusal, replay or binding, with all error codes |
| `AdapterExtension.Adapter.PrepareSubmission` | driver/src/management/management_controller.cpp:323-378 | admission, binding and the publication of Pending are one section; the token is given back unless accepted |
| `AdapterExtension.Adapter.FailOperationLocked` | driver/src/management/management_controller.cpp:262-288 | the record becomes Failed with the status, and the reply says so |
| `AdapterExtension.Adapter.FinalizeDiskRemoval` | driver/src/management/management_controller.cpp:452-459 | create records become Deleted in the section that empties the slot |
| `AdapterExtension.Adapter.SnapshotPendingOperation` | driver/src/management/management_controller.cpp:481-497 | a copy of the record, only while it is Pending |
| `AdapterExtension.Adapter.PublishOperationResult` | driver/src/management/management_controller.cpp:521-546 | the record is overwritten from the worker's copy and a created LUN is stamped in the same section |
| `Lifecycle.CreateDisk` | driver/src/storage/lun_store.cpp:128-161 | run on its own: on success exactly one zeroed buffer is live more and the slot owns it; on each failure, with its status, neither adapter nor pool has changed |
| `Lifecycle.DrainAndFinalize` | driver/src/storage/lun_store.cpp:203-218 | run on its own: the drained slot's buffer is freed once and the slot is finalized |
| `Lifecycle.DeleteDisk` | driver/src/management/management_controller.cpp:435-450 | run on its own: the device's slot is emptied, its create record Deleted and its buffer freed; an unknown device changes nothing |
| `Lifecycle.ReleasingStep` | driver/src/management/management_controller.cpp:645-653 | each round of the shutdown loop frees exactly the slot's buffer and leaves one stopping slot less |
| `Lifecycle.DrainAndReleaseDisks` | driver/src/management/management_controller.cpp:645-653 | run on its own: the shutdown loop ends with every slot fresh, no byte accounted for and exactly the disks' buffers freed |
| `Lifecycle.PoolAllocation.End` | driver/src/support/stor_port_pool_allocation.cpp:16-20 | the end of the scope frees the buffer unless it was released |
| `Scsi.AcceptedInBounds` | driver/src/scsi/read_write.cpp:74-87 | an accepted transfer stays inside the disk and the request buffer and no 32-bit or 64-bit product overflows |
| `Scsi.Decode6InvertsEncode` | driver/src/scsi/read_write.cpp:18-27 | decoding inverts the 6-byte encoding, with count 0 read as 256, and fails iff the CDB is too short |
| `Scsi.Decode10InvertsEncode` | driver/src/scsi/read_write.cpp:29-36 | decoding inverts the 10-byte encoding |
| `Scsi.Decode12InvertsEncode` | driver/src/scsi/read_write.cpp:38-45 | decoding inverts the 12-byte encoding |
| `Scsi.Decode16InvertsEncode` | driver/src/scsi/read_write.cpp:47-54 | decoding inverts the 16-byte encoding |
| `Scsi.OneBlockIffCapacity` | driver/src/scsi/scsi_commands.cpp:92-110 | a well-buffered one-block access is accepted iff its LBA is at most the last LBA that READ CAPACITY (10) and (16) report |
| `Scsi.ParseReadWriteCdb` | driver/src/scsi/read_write.cpp:7-59 | the parser's out-parameters are the decoded access of the CDB |
| `Scsi.HandleReadWrite` | driver/src/scsi/read_write.cpp:61-96 | disk, request buffer, transfer length, sense data and status after every verdict |
| `Scsi.HandleReadCapacity10` | driver/src/scsi/scsi_commands.cpp:92-100 | the clipped 8-byte capacity data |
| `Scsi.HandleReadCapacity16` | driver/src/scsi/scsi_commands.cpp:102-110 | the clipped 32-byte capacity data, or sense data for another service action |
| `Scsi.Srb.SetSense` | driver/src/scsi/scsi_response.cpp:45-65 | no data moves and the fixed-format sense data is stored when it fits |
| `Scsi.Srb.CopyResponse` | driver/src/scsi/scsi_response.cpp:67-84 | the response is clipped to the transfer length, with data overrun exactly when it was longer; only an empty one needs no buffer |
| `ScsiCommands.NamesTellApart` | driver/src/scsi/scsi_commands.cpp:61-81 | two disks have the same serial number page or identification page exactly when their device ids are equal |
| `ScsiCommands.WriteDeviceIdHex` | driver/src/scsi/scsi_response.cpp:37-43 | the eight hexadecimal digits of the device id, in place |
| `ScsiCommands.HandleInquiry` | driver/src/scsi/scsi_commands.cpp:24-90 | standard data, the three vital product data pages or sense data, clipped to the allocation and transfer lengths |
| `ScsiCommands.HandleRequestSense` | driver/src/scsi/scsi_commands.cpp:112-124 | the clipped fixed-format sense data without an error |
| `ScsiCommands.HandleModeSense` | driver/src/scsi/scsi_commands.cpp:126-158 | header and caching page of the 6 and 10 byte forms, clipped, or sense data for another page |
| `ScsiCommands.HandleReportLuns` | driver/src/scsi/scsi_commands.cpp:160-177 | the clipped list of exactly the online slots, in order |
| `BigEndian.ReadBigEndian64` | driver/src/scsi/scsi_response.cpp:10-16 | the eight bytes' big-endian value |
| `BigEndian.WriteBigEndian32` | driver/src/scsi/scsi_response.cpp:23-28 | the four bytes of the value, nothing else changed |
| `BigEndian.WriteBigEndian64` | driver/src/scsi/scsi_response.cpp:30-35 | the eight bytes of the value, nothing else changed |
| `BigEndian.ValueOfBytes` | driver/src/scsi/scsi_response.cpp:5-35 | reading inverts writing |
| `Dispatch.ReleaseUndoesAcquire` | driver/src/storage/lun_io_lease.cpp:8-16 | a lease leaves its slot, drain event included, as it found it |
| `Dispatch.LunIoLease.constructor` | driver/src/storage/lun_io_lease.cpp:8-10 | construction acquires exactly what it reports |
| `Dispatch.LunIoLease.End` | driver/src/storage/lun_io_lease.cpp:12-16 | the end of the scope releases exactly what was acquired |
| `Dispatch.DispatchScsiCommand` | driver/src/scsi/scsi.cpp:11-58 | the effect of every command on disk, buffer, transfer length, sense data and status |
| `Dispatch.HandleExecuteScsi` | driver/src/scsi/scsi.cpp:60-77 | every path gives its lease back, so the adapter is unchanged; REPORT LUNS lists the online slots without one; no device iff the slot cannot be leased; only an accepted WRITE changes the disk; the describing commands carry their contents |
| `Recovery.QueryTruthful` | cli/src/driver/windows/recovery.rs:79-103 | every query reply about the client's handle is interpreted as what happened to it: completed means executed once and for all, and a created disk stands as described or is gone; failed means never executed, deleted means the device is gone, reserved means not tried yet, and no reply is invalid |
| `Recovery.NeverInvalid` | cli/src/driver/windows/recovery.rs:79-103 | no record of a reachable driver is interpreted as invalid |
| `Recovery.SubmitCallTruthful` | cli/src/driver/windows/adapter/reserved_operation.rs:44-56 | whatever the transport does with a submission, a reply tells the truth and a rejection means that nothing was executed |
| `Recovery.QueryCallTruthful` | cli/src/driver/windows/adapter/reserved_operation.rs:58-65 | whatever the transport does with a query, a reply tells the truth |
| `Recovery.TraceBounds` | cli/src/driver/windows/recovery.rs:151-192 | with w successful waits there are at most w + 1 submissions and w + 1 queries |
| `Recovery.DigestSound` | cli/src/driver/windows/recovery.rs:171-189 | what the loop concludes from an answer holds in the driver |
| `Recovery.Attempt.WaitForRetry` | cli/src/driver/windows/adapter/reserved_operation.rs:67-74 | waits succeed until the budget of waits that stands for the deadline is used up |
| `Recovery.Attempt.Submit` | cli/src/driver/windows/adapter/reserved_operation.rs:44-56 | one submit call, made only when it is allowed and safe |
| `Recovery.Attempt.QueryOnce` | cli/src/driver/windows/adapter/reserved_operation.rs:58-65 | one query call |
| `Recovery.ResolveOperation` | cli/src/driver/windows/recovery.rs:151-192 | exactly-once: resolved means one effect for the handle, rejected none, already deleted one and the device gone, unresolved at most one; every resubmission follows a matching Reserved reply and a wait, an ambiguous submission is queried at once, and the outcome and its errors are what the history of calls says |
| `Recovery.StandsForever` | cli/src/driver/windows/recovery.rs:79-103 | a created disk stays at the LUN, device id, size, media kind and letter of its response until it is removed for good |
| `Recovery.ConcludedForever` | cli/src/driver/windows/recovery.rs:151-192 | the conclusion stays true in every later state, as long as nobody submits the handle again |
| `Client.ReservedFresh` | cli/src/driver/windows/adapter/mod.rs:115-127 | a reserved handle is valid for the client, was never issued before and has not been tried |
| `Client.ReserveCallFresh` | cli/src/driver/windows/adapter/mod.rs:115-127 | a reply of this adapter to a reservation is always an acceptable handle |
| `Client.StateCallConfirms` | cli/src/driver/windows/adapter/mod.rs:184-200 | after a completed delete no inventory of the same instance lists the device |
| `Client.Adapter.CreateDisk` | cli/src/driver/windows/adapter/mod.rs:151-172 | Created means exactly one LUN was committed for the handle this call reserved and the response converts to a CreatedDisk; rejected none; unresolved at most one, and only after every wait of its budget; the result is the outcome the history of calls ended with; a created disk is at the LUN and under the device id returned, with this handle and the size, media kind and letter asked for, or it has been removed since; a removed one is gone |
| `Client.Adapter.ConfirmDelete` | cli/src/driver/windows/adapter/mod.rs:187-200 | confirmed iff the inventory read is of this instance and does not list the device; otherwise no inventory of this instance could be read |
| `Client.Adapter.DeleteReserved` | cli/src/driver/windows/adapter/mod.rs:181-201 | the reserved delete is resolved and confirmed as one |
| `Client.Adapter.DeleteById` | cli/src/driver/windows/adapter/mod.rs:174-201 | confirmed means one delete and the device gone; an unconfirmed delete has happened too, and the confirmation fails only when no inventory of this instance could be read; a changed adapter gets no delete |
| `Saga.RemovedIsPrefix` | cli/src/driver/windows/volume/mod.rs:129-137 | the removed mount points are a prefix of the volume's and exactly they are missing, wherever removal stopped |
| `Saga.PreparedInOrder` | cli/src/driver/windows/disk/removal.rs:114-121 | a complete preparation is: every lock taken or forced, then every dismount, then every removal, and nothing else |
| `Saga.PreparedIsPrefix` | cli/src/driver/windows/disk/deletion.rs:26-45 | however far the preparation came, the missing mount points are exactly the removed prefixes |
| `Saga.RestoreUndoesPrepare` | cli/src/driver/windows/disk/deletion.rs:47-62 | a restoration that reports success after any preparation brings back exactly the original mounts; one that fails adds nothing foreign |
| `Saga.UnlockIsLast` | cli/src/driver/windows/volume/mod.rs:139-190 | each removed mount point is tried once, in order, and the lock is given back once, after the last, only if the volume owns it; success iff every call succeeded |
| `Saga.Volume.Lock` | cli/src/driver/windows/volume/mod.rs:106-119 | a refused lock is an error unless forced, and is never recorded as owned |
| `Saga.Volume.RemoveMounts` | cli/src/driver/windows/volume/mod.rs:129-137 | removal stops at the first failure |
| `Saga.Volume.RestoreMounts` | cli/src/driver/windows/volume/mod.rs:139-157 | restoration goes on after failures |
| `Saga.Volume.RestoreRemovedMount` | cli/src/driver/windows/volume/mod.rs:159-190 | the last restoration releases an owned lock |
| `Saga.DiskDeletion.Lock` | cli/src/driver/windows/disk/deletion.rs:26-31 | locking stops at the first refusal |
| `Saga.DiskDeletion.Dismount` | cli/src/driver/windows/disk/deletion.rs:33-38 | dismounting stops at the first failure |
| `Saga.DiskDeletion.RemoveMounts` | cli/src/driver/windows/disk/deletion.rs:40-45 | unmounting stops at the first failure |
| `Saga.DiskDeletion.Restore` | cli/src/driver/windows/disk/deletion.rs:47-62 | every volume is restored, failures are accumulated |
| `Removal.DeletionOrder` | cli/src/driver/windows/disk/removal.rs:112-157 | the driver is asked only after every volume was locked or forced, dismounted and unmounted; a successful restoration leaves exactly the original mounts; an unconfirmed or completed deletion restores none |
| `Removal.Compensate` | cli/src/driver/windows/disk/removal.rs:132-156 | an unresolved answer never restores; any other restores iff the inventory read next shows the same device online in the same instance |
| `Removal.DeleteAllocation` | cli/src/driver/windows/disk/removal.rs:88-163 | the volumes after every result; an unresolved outcome never restores; mount points come back only when the driver, as it is then, holds the disk online; deleted means one delete and the device gone |
| `Wire.UnpackPack` | cli/src/protocol.rs:42-61 | a wire structure reads back as it was written |
| `ControlRequest.LayoutSizes` | cli/src/protocol.rs:246-252 | the field layouts have the sizes both sides check at compile time |
| `ControlRequest.AdmittedMutation` | driver/src/management/operation_state.cpp:7-26 | every admitted mutation obeys the protocol rules and its buffer has room for the full response |
| `ControlRequest.ReservedCreateParsed` | driver/src/management/operation_state.cpp:70-107 | re-validation through a scratch request accepts a reserved create iff its own fields are valid; the rewritten header never turns it away |
| `ControlRequest.ReservedDeleteParsed` | driver/src/management/operation_state.cpp:109-142 | likewise for a reserved delete |
| `ControlRequest.CreateArrives` | cli/src/driver/windows/adapter/mod.rs:203-247 | the reserved create the client sends is, byte for byte, the command the driver submits |
| `ControlRequest.DeleteArrives` | cli/src/driver/windows/adapter/mod.rs:203-247 | the reserved delete the client sends is the command the driver submits |
| `ControlRequest.ReplyArrives` | cli/src/driver/windows/adapter/mod.rs:248-335 | what the client makes of the returned buffer is exactly the driver's reply: a failed status is a rejection with that status, a response arrives field by field |
| `ControlRequest.ControlBuffer.FromSrb` | driver/src/management/control_request.cpp:54-71 | the envelope check |
| `ControlRequest.ControlBuffer.PrepareCompletion` | driver/src/management/control_request.cpp:45-52 | return code, length and transfer length, nothing else |
| `ControlRequest.ControlBuffer.WriteResponse` | driver/src/management/control_request.h:91-103 | a short buffer gets no payload and BUFFER_TOO_SMALL, any other the whole response |
| `ControlRequest.ControlBuffer.WriteError` | driver/src/management/control_request.cpp:111-123 | an error header when it fits, otherwise only the return code |
| `Instances.InstancesUnique` | driver/src/adapter_context.cpp:26-35 | whatever the clocks and however the loops interleave, instance ids are positive, never repeated and increasing exactly in the runs in which no compare-exchange succeeds on a full 64-bit counter |
| `Instances.CandidateRises` | driver/src/adapter_context.cpp:30-33 | the candidate is above the last id iff the counter is not full |
| `Instances.ExchangeFailsIffOvertaken` | driver/src/adapter_context.cpp:30-34 | a compare-exchange fails iff another adapter got an id since the read |
| `Instances.FullCounterWraps` | driver/src/adapter_context.cpp:30-34 | a run from initialisation that breaks the promise: with the clock at its end the second adapter gets a negative id and the third the id of the first again |
| `Instances.AllocateInstance` | driver/src/adapter_context.cpp:26-35 | the loop's id is computed from the value it replaced, under any interference |

## Left out

- 32-bit `ActiveRequests` and the other counters StorPort bounds by its queue depth: modelled without wrap-around. The device id, operation id and instance counters do wrap as in the code.
- `driver/src/management/diagnostics.cpp`: tracing, and fault injection except that the worker may reject a reserved command before executing it; the injected transport error after a successful command is a lost reply here.
- QueryVersion and the legacy ListDisks reply: constant bytes and a listing.
- Legacy create and delete are part of the transition system, but their handle-less replies carry no recovery promise.
- The Windows calls themselves (SetupAPI, WMI, volume enumeration, interface notification, opening volumes and disks, waiting for drive letters and disks to appear or vanish): replaced by success or failure where a modelled procedure needs them, otherwise left out.
- Disk provisioning and formatting (`cli/src/driver/windows/disk/provisioning.rs`, `creation.rs`): a sequence of foreign calls around create and delete.
- IRQL rules, the spin lock's implementation and SAL annotations: each section under the lock is one event.
- Torn concurrent copies to one block: the driver promises no atomicity there.
- StorPort's handling of a busy worker object in ReleaseWorker (`driver/src/management/management_controller.cpp:655-679`) is one event, the release.
- Adapter enumeration and the check that one adapter claims an instance (`cli/src/driver/windows/disk/removal.rs:22-86`); the model starts with that adapter.
- Argument parsing, logging text, the build tool, scripts and resources.
- Scsi.HandleReadWrite: takes the leased backing store as an array of exactly the view's size; that the pointer is such a buffer is Guarantees.LeaseSafety, proved on the transition system.
- ControlRequest.ReplyArrives: covers error headers and operation responses; the legacy create and list replies have the same writer but no recovering reader.
- Lifecycle.CreateDisk: its sections run without interference between them; Guarantees, Progress and Shutdown cover every interleaving of the same sections.
- Lifecycle.DrainAndFinalize: likewise, and the drain is over when it starts.
- Lifecycle.DeleteDisk: likewise, with no lease on the removed slot.
- Lifecycle.DrainAndReleaseDisks: likewise, with every lease already given back.
- Recovery.Attempt.WaitForRetry: does not read a clock; a deadline is the number of waits that still succeed.
- Reserve, query and list requests complete in the section that answers them: their SRBs are not tracked from admission to completion as those of mutations are.
- Client.Adapter.CreateDisk: leaves out the version query the client makes before it reserves; so does Client.Adapter.DeleteById.
- Removal.DeleteAllocation: starts with the volumes already opened and located.
