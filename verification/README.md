# A model of the monitor manager and its inotify wrapper

The manager starts, watches and stops monitor and scraper processes for its clients. Below it sits
a C++ wrapper around the kernel's inotify interface, which tells it about sockets and config files
that come and go. This project models both and proves what they keep.

**The inotify wrapper.** `EventRecords` is the byte layout of the event records that inotify(7)
describes, `Kernel` an inotify instance (path names, inodes, marks, unread records), `Delivery` the
question which events of a batch are delivered, said twice: one event after the other, and by a
condition on the whole batch. `Registry` is what `Inotify` and `InotifyWatch` do, as a state machine with
the theorems about its runs, and `InotifyObjects` has the two classes, which share mutable watch objects,
with every method proved to do what the machine does. `RegistryEffects` says what each call does to marks, indexes
and watches, and when it throws, without its function. `MaskNames` is the dumping of masks as text.

**The manager.** `Replies` says who is owed a reply and contains the two-way join of combined
commands. `Lifecycle` is the event loop: every callback is one step, and everything that is still to be called
back is part of the state. `LifecycleSound`, `LifecycleLedger`, `LifecycleStatus`, `LifecycleLosses` and
`LifecycleFacts` hold the invariants of all runs and what follows from them; `LifecycleEffects` says what each
event does, in terms of the states before and after it alone, and `LifecyclePromises` what a client may conclude
from an OK. `StoredObjects` has the two tables
of mutable stored objects and `MonitorManagerObject` the class whose callbacks change them in place, with its
loops, proved to go through exactly the runs of `Lifecycle`; `CompletionObject`, `Termination`, `SocketNames` and
`Messages` are parts of it.

**Between them.** `FileWatcherObject` is the loop over queued events, which keeps a list of watches beside the
wrapper's own indexes. `ConfigFiles` is the fan-out of a changed config file.

Check everything with `dafny verify dfyconfig.toml`.

## What the outside may do

- The kernel refuses any call it likes, drops marks by itself and announces that with an IN_IGNORED record, emits any
  event for a mark it has, and may let path names lead to other inodes. Watch descriptors are never used twice and an
  IN_IGNORED record is never lost.
- Timers expire, sockets appear and vanish, processes die, exit handlers run, STOP commands are written or fail, and
  answers arrive in any order that the event loop allows. Posted halves of combined commands run in the order of
  posting. Looking for python, the register of classes, spawning and connecting answer anything.
- A check of a socket may report success later or never. As written, the check reports nothing when its first
  connection succeeds, and the timer for its second attempt is a local that is gone before it can fire
  (src/bin/moman/moman.cpp:404-423), so that in the code as it stands a success is never reported; the model also covers
  those runs in which it is.
- An exception that leaves a callback ends the run. Nothing is claimed after it.

## Where the code differs from what it says

- `Inotify::Remove` is documented to do nothing for a watch that is not there
  (include/kekmonitors/inotify-cxx.h:491-499). It erases whatever watch owns that path, and when the stranger has a
  descriptor from another `Inotify` it removes the mark and the index entry that have this number here:
  `Registry.RemoveStrangerExactly`.
- Enabling a second watch on one inode succeeds and leaves two watches with one descriptor:
  `Registry.SetEnabledKeepsValid` says exactly when, `Registry.EnablingCanBreakTheRegistry` shows it.
- A change of mask that throws may have changed the mask of another watch in the kernel, when the path names an
  inode whose mark is that watch's by now: `Registry.FailedSetMaskExactly`, `Registry.FailedSetMaskHarmsExactly`,
  `Registry.SetMaskCanHarmAnother`.
- The recovery of a failed Add cannot take bits back if the watch it restores asks for IN_MASK_ADD, and it reaches
  another mark, or makes one, if the path of that watch names another inode by now: `Registry.FailedAddExactly`,
  `Registry.RecoveryCanFail`, `Registry.RecoveryCanMiss`.
- The continuation of an add expects its entry to have a process. It need not:
  `LifecycleFacts.AddFailsExactly`, `LifecycleFacts.AddCanFail`. Its two answers that "should not have happened" are
  among the cases of `Lifecycle.AddDone` like all others.
- A client whose add was cancelled may never be answered, for instance when the class is added again before the
  first add continues: `LifecycleLedger.LossesExactly`, `LifecycleFacts.ClientCanBeLost`.
- The branch of an add that reuses an existing entry is never taken: `LifecycleSound.NeverReused`. Its reply that no
  python was found is never sent either, because the search throws instead of answering nothing
  (src/lib/utils.cpp:92-117); the model lets the search answer nothing too.
- A dumped mask does not show a single close flag beside IN_MOVE_SELF: `MaskNames.NothingLostExactly`.
- A class whose name contains a dot is never recognised by its socket: `SocketNames.KeyOfExactly`.

## Model

| member | source | states |
|---|---|---|
| `EventRecords.DecodeEncode` | include/kekmonitors/inotify-cxx.h:222-232 | An event built from a record anywhere in a buffer has the record's descriptor, mask and cookie, and its name up to the first NUL, which is inside the record, also when the length is 0 |
| `EventRecords.DecodeAll` | src/lib/inotify-cxx.cpp:458-470 | Walking over any sequence of encoded records stays aligned, finds every name ended inside its record, stops exactly at the end, and recovers all of them in order |
| `Delivery.AfterAllKeeps` | src/lib/inotify-cxx.cpp:458-470 | A descriptor is still watched at some point of a batch exactly when no earlier event of the batch ended its watch |
| `Delivery.DeliverIsFilter` | src/lib/inotify-cxx.cpp:458-470 | The events delivered one after the other are those that a condition on the whole batch selects, in order: up to and including the one that ends a watch |
| `Delivery.StillWatchedExactly` | src/lib/inotify-cxx.cpp:463-468 | That condition in terms of flags: an event is delivered exactly if its descriptor is watched and no earlier event of the batch for it had IN_IGNORED, or the watch IN_ONESHOT |
| `Registry.TakeAllDelivers` | src/lib/inotify-cxx.cpp:458-470 | The decode loop refines that filter: the queue grows by exactly the delivered events, and the descriptor index keeps exactly the watches that are not over |
| `Registry.LoopNeverThrows` | src/lib/inotify-cxx.cpp:282-289 | The exception for events on disabled watches cannot occur in the decode loop |
| `RegistryEffects.TakeMeans` | src/lib/inotify-cxx.cpp:458-470 | One event: it is queued exactly if its descriptor is watched, and its watch is disabled and leaves the descriptor index exactly if the event has IN_IGNORED or the watch IN_ONESHOT; no other watch and no mark changes |
| `RegistryEffects.TakeAllKeepsExactly` | src/lib/inotify-cxx.cpp:458-470 | A whole batch: a watch is kept exactly if no event of the batch for its descriptor had IN_IGNORED, and it has no IN_ONESHOT or had no event |
| `RegistryEffects.ReadingKeepsExactly` | src/lib/inotify-cxx.cpp:456-472 | A read: a watch without IN_ONESHOT is kept exactly if none of the records that were read is an IN_IGNORED of its own |
| `Registry.AddKeepsValid` | src/lib/inotify-cxx.cpp:331-391 | Adding, whatever comes of it, keeps the agreement of both indexes, the watch fields and the kernel |
| `RegistryEffects.AddMeans` | src/lib/inotify-cxx.cpp:331-391 | Exactly when adding throws which exception, and that an exception leaves both indexes and every watch as they were |
| `RegistryEffects.AddedMeans` | src/lib/inotify-cxx.cpp:347-391 | After a successful Add of an enabled watch its path has a mark with its mask and a descriptor that leads to it, and every other mark, watch and index entry is as before |
| `Registry.RemoveKeepsValid` | src/lib/inotify-cxx.cpp:393-420 | Removing a watch of the registry keeps the agreement |
| `RegistryEffects.RemoveMeans` | src/lib/inotify-cxx.cpp:393-420 | Removing throws exactly if the kernel has dropped the mark, and changes nothing then; otherwise the mark is gone from the kernel and the watch from both indexes, and every other mark, watch and index entry is as before |
| `Registry.RemoveStrangerExactly` | src/lib/inotify-cxx.cpp:403-417 | Removing a watch that the registry does not hold, with or without a descriptor of another one, throws exactly when that descriptor has no mark here, changes nothing exactly when it throws, or the stranger has no descriptor and no watch here has its path, and keeps the agreement exactly when it throws, or takes the path and the descriptor of one and the same watch, or of no enabled one |
| `RegistryEffects.RemoveStrangerMeans` | src/lib/inotify-cxx.cpp:403-417 | What goes when it does not throw: that path, that descriptor and its mark, and nothing else |
| `Registry.RemoveAllForgets` | src/lib/inotify-cxx.cpp:422-440 | After RemoveAll no former mark is left in the kernel, and every former watch can be added again |
| `RegistryEffects.RemoveAllMeans` | src/lib/inotify-cxx.cpp:422-440 | The marks that go are those of the watches and no others |
| `Registry.SetMaskNeedsItsMark` | src/lib/inotify-cxx.cpp:230-246 | Changing the mask of a watch that has a descriptor succeeds only while the kernel still has its mark, which then carries the new mask; what a change that throws does is the matter of the next two rows |
| `Registry.FailedSetMaskExactly` | src/lib/inotify-cxx.cpp:233-241 | A change of mask that throws leaves everything as before if and only if the kernel refused it, or the mark that the path leads to by then is not changed by the new mask |
| `Registry.FailedSetMaskHarmsExactly` | src/lib/inotify-cxx.cpp:233-241 | Where paths name the inodes of their marks and masks agree, a change of mask that throws leaves the kernel filtering with a mask that no watch shows if and only if it was granted and changed the mark of another watch that does not ask for IN_MASK_ADD |
| `Registry.SetMaskCanHarmAnother` | src/lib/inotify-cxx.cpp:233-241 | A failed change of one mask that changes what the kernel filters for another watch |
| `RegistryEffects.SetMaskMeans` | src/lib/inotify-cxx.cpp:230-246 | A change of mask succeeds exactly for a watch without a descriptor and for one whose path still leads to its mark, if the kernel grants it; then that watch and its mark change and nothing else, and no other outcome changes a watch or an index |
| `Registry.SetEnabledKeepsValid` | src/lib/inotify-cxx.cpp:248-280 | Enabling or disabling keeps the agreement if and only if it does not enable a watch whose inode another enabled watch has marked |
| `RegistryEffects.DisablingMeans` | src/lib/inotify-cxx.cpp:266-276 | Disabling throws exactly if the kernel has dropped the mark, and changes nothing then; otherwise the mark is gone, the watch is detached from it, and nothing else changes |
| `RegistryEffects.EnablingMeans` | src/lib/inotify-cxx.cpp:257-265 | Enabling throws exactly if the kernel refuses, and changes nothing then; otherwise the inode of the path is marked with the mask of the watch, and an index entry that another watch has is not replaced |
| `Registry.FailedAddIsRolledBack` | src/lib/inotify-cxx.cpp:361-381 | Where paths name the inodes of their marks and masks agree, a failed Add leaves the whole state as before, kernel masks included, unless the recovery itself failed or the restored watch asks for IN_MASK_ADD |
| `Registry.FailedAddExactly` | src/lib/inotify-cxx.cpp:331-391 | In every state of agreement, wherever path names lead by then, and for each exception: a failed Add leaves the whole state as before if and only if it made no call to the kernel that was granted, or that call changed nothing, or the recovery reached the same mark and restored its mask, or reached another and neither call changed anything |
| `Registry.RecoveryExactly` | src/lib/inotify-cxx.cpp:365-380 | Where paths name the inodes of their marks and masks agree, the recovery call restores everything if and only if the restored watch does not ask for IN_MASK_ADD or no bit was added |
| `Registry.QuietRunKeepsMasks` | src/lib/inotify-cxx.cpp:230-391 | While path names stay put, recoveries succeed, and no watch whose mark is gone changes its mask while its path leads to the mark of another, the kernel filters with exactly the masks that the watches show, over whole runs |
| `Registry.EveryRun` | src/lib/inotify-cxx.cpp:230-499 | Over every run of calls, reads and kernel steps both indexes, the watch fields and the kernel agree; an active watch is marked or its end is announced and unread. Runs pass over the calls that would break the agreement: enabling a colliding watch when the kernel grants it, and removing a stranger whose path or descriptor is that of an enabled watch, unless both are those of one watch |
| `Registry.QueueKeepsOrder` | src/lib/inotify-cxx.cpp:458-543 | Over every such run, what was taken out of the queue and then what is left in it is what was in it and then what the reads delivered: no event is lost, doubled or overtaken, whatever happens to the watches in between |
| `Registry.EnablingCanBreakTheRegistry` | src/lib/inotify-cxx.cpp:257-265 | Two watches with one descriptor, after a call that succeeded |
| `Registry.RecoveryCanFail` | src/lib/inotify-cxx.cpp:365-380 | A failed Add that leaves bits in the kernel, with IN_MASK_ADD |
| `Registry.RecoveryCanMiss` | src/lib/inotify-cxx.cpp:365-380 | A failed Add that leaves its mask in the kernel without IN_MASK_ADD, because the path of the restored watch names another inode by then |
| `InotifyObjects.Inotify.Add` | src/lib/inotify-cxx.cpp:331-391 | The object does what the machine does with any watch, and a failed call leaves both indexes and the watch as they were |
| `InotifyObjects.Inotify.Remove` | src/lib/inotify-cxx.cpp:393-420 | The object does what the machine does, the mark is gone from the kernel, and the removed watch can be added again; `RegistryEffects.RemoveMeans` says what else changes and when it throws |
| `InotifyObjects.Inotify.RemoveStranger` | src/lib/inotify-cxx.cpp:393-420 | The object does what the machine does with a watch it does not hold: it takes the path of that watch from the path index, and its descriptor from the other index and the kernel |
| `InotifyObjects.Inotify.RemoveAll` | src/lib/inotify-cxx.cpp:422-440 | Both indexes are empty and every former watch is detached, with its mask and its flag as before |
| `InotifyObjects.Inotify.Close` | src/lib/inotify-cxx.cpp:318-329 | In whatever state the indexes are, closing releases every watch, and closing again changes nothing |
| `InotifyObjects.InotifyWatch.SetMask` | src/lib/inotify-cxx.cpp:230-246 | An attached watch changes its mask in the kernel first and keeps the old one when that fails; a detached one just changes it |
| `InotifyObjects.InotifyWatch.SetEnabled` | src/lib/inotify-cxx.cpp:248-280 | An attached watch is marked or unmarked in the kernel and enters or leaves the descriptor index; a failed call changes no field |
| `InotifyObjects.InotifyWatch.Disable` | src/lib/inotify-cxx.cpp:282-299 | The watch leaves the descriptor index without a call to the kernel, or throws if it was disabled |
| `InotifyObjects.Inotify.Decode` | src/lib/inotify-cxx.cpp:456-472 | The loop over the bytes, which disables watches as it looks them up, reads inside the records only, names included, and does what the machine does with the records in it; `RegistryEffects.TakeMeans` and `RegistryEffects.TakeAllKeepsExactly` say what that is |
| `InotifyObjects.Inotify.WaitForEvents` | src/lib/inotify-cxx.cpp:442-499 | Reading takes the oldest records out of the kernel, does with them what the machine does, and keeps the agreement |
| `InotifyObjects.Inotify.GetEvent` | src/lib/inotify-cxx.cpp:510-526 | The oldest event comes out of the queue, and nothing comes out exactly when the queue is empty; over whole runs this is the row of `Registry.QueueKeepsOrder` |
| `MaskNames.DumpTypes` | src/lib/inotify-cxx.cpp:120-224 | The dump is made of the names to be dumped, in their order, with commas; splitting it and joining the masks of the parts gives the named flags of the value, without a close flag that IN_MOVE_SELF hides |
| `MaskNames.IsDumpedExactly` | src/lib/inotify-cxx.cpp:120-224 | Which names those are: the ones all of whose bits the value has, except event names when it has all events, single close flags beside IN_MOVE_SELF, and single moves beside the other one |
| `MaskNames.VisibleExactly` | src/lib/inotify-cxx.cpp:153-175 | What a dump hides: both close bits of a value with IN_MOVE_SELF and exactly one of them, and nothing else |
| `MaskNames.NothingLostExactly` | src/lib/inotify-cxx.cpp:153-175 | That is every named flag if and only if IN_MOVE_SELF does not come with exactly one close flag |
| `MaskNames.LookupUnderstands` | src/lib/inotify-cxx.cpp:63-118 | Looking a printed name up gives its mask, however the names are spelled as long as they differ |
| `Messages.MakeCommonResponse` | src/lib/utils.cpp:119-138 | The loop over two responses computes the merged one |
| `Messages.CommonResponseMeans` | src/lib/utils.cpp:119-138 | The merged response is OK exactly when both are; otherwise it has the common error and describes the failed ones only, both of them in the order of arrival when both failed; it throws exactly when a failed one has an unregistered code |
| `CompletionObject.MonitorScraperCompletion.CheckForCompletion` | src/bin/moman/callbacks.cpp:50-57 | The completion callback is invoked once for every response but the first, with the first and that one |
| `CompletionObject.BothHalves` | src/bin/moman/callbacks.cpp:21-57 | Two halves that each reply once: never after one, once after both |
| `Replies.RespondKeeps` | src/bin/moman/callbacks.cpp:50-57 | Invoking an owed callback meets that obligation and no other, and tells every client the right thing |
| `Replies.RespondFailsExactly` | src/bin/moman/callbacks.cpp:50-57 | Invoking an owed callback throws if and only if it completes a join of which one half failed with an unregistered code |
| `Replies.MergedMeans` | src/bin/moman/callbacks.cpp:271-332 | The answer to a combined command is OK exactly when both halves are, and has otherwise the code of that command and the descriptions of both in the order of arrival; only a status has a payload, with the first answer under the monitors |
| `Replies.RespondMeans` | src/bin/moman/callbacks.cpp:21-57 | Invoking a callback writes this response to the client it belongs to, or as the first half of a join nothing, or as the second the merged answer; it changes no other join and no other client |
| `Replies.UnansweredExactly` | src/bin/moman/server.cpp:61-89 | A client has no reply yet if and only if a callback of its command is owed or was dropped |
| `LifecycleLedger.StepKeepsAccounted` | src/bin/moman/server.cpp:61-89 | Every step keeps the books of obligations balanced |
| `LifecycleLedger.OnePlace` | src/bin/moman/callbacks.cpp:202-269 | On every run that does not fail, each callback of each command is in exactly one place: held by one pending continuation or posted half, invoked once, or dropped once |
| `LifecycleLedger.EveryClient` | src/bin/moman/server.cpp:75-88 | On every such run each client gets at most one reply and the right one: for a combined command both halves merged, when and only when both are in |
| `LifecycleLedger.LossesExactly` | src/bin/moman/callbacks.cpp:214-239 | A step loses a client in exactly one situation: a cancelled add whose class is stored, unconfirmed, when it continues |
| `LifecycleLosses.OthersAreAnswered` | src/bin/moman/server.cpp:75-88 | On every run that does not fail, a client that did not ask for an add has its reply as soon as nothing pending holds a callback of its command |
| `LifecycleSound.NeverReused` | src/bin/moman/callbacks.cpp:106-135 | Every existing entry is refused, whatever its flags |
| `LifecycleSound.StepKeepsSound` | src/bin/moman/callbacks.cpp:77-421 | Every step keeps what is known about entries, processes, timers and STOPs |
| `LifecycleSound.EveryRunSound` | src/bin/moman/moman.hpp:24-52 | ... in every reachable state |
| `LifecycleFacts.OneProcessPerClass` | src/bin/moman/callbacks.cpp:178-200 | Never more than one process per class lives or has its exit still to be handled, and it is the stored one |
| `LifecycleFacts.ExitClearsItsOwn` | src/bin/moman/moman.cpp:351-370 | An exit clears exactly the process that exited: its entry loses it, or goes if it has no socket, and nothing else changes |
| `LifecycleEffects.ProcessExitsMeans` | src/bin/moman/moman.cpp:351-370 | Over the step: the class loses its process, or its entry if it has no socket, and exactly then the wait on its timer is cancelled; an error only takes the handler away |
| `LifecycleFacts.SpawnsExactly` | src/bin/moman/callbacks.cpp:85-200 | An add spawns if and only if the class has no entry, python was found, the class is registered and spawning works; otherwise it changes nothing |
| `LifecycleEffects.SingleMeans` | src/bin/moman/callbacks.cpp:77-399 | A command for one kind, over the step: for an add the exact answer to each kind of refusal, or else the new entry, process and timer with a wait on it; for a stop likewise, or else the mark and one STOP; for a status the exact tables; and nothing else changes |
| `LifecycleEffects.PostedMeans` | src/bin/moman/callbacks.cpp:21-57 | The oldest posted half does the same for its own kind, and answers its join |
| `LifecycleEffects.AddContinuesMeans` | src/bin/moman/callbacks.cpp:202-269 | The continuation of an add answers once: OK exactly if the class is stored and its wait was cancelled by a confirmation or ran out with the process alive, otherwise the code for adds of its kind with the reason; it lets go and throws in the one case each; and which flags of the entry are reset |
| `LifecyclePromises.OkIsEarned` | src/bin/moman/callbacks.cpp:77-269 | On every run that does not fail, whenever a callback of an add was invoked with OK, some step of the run stored a new class of the kind asked for, with a new process, and made that very callback wait |
| `LifecycleFacts.NoEmptyEntries` | src/bin/moman/moman.hpp:150-164 | No stored entry is empty, and each is stored under its own class name |
| `LifecycleFacts.RemovalsCommute` | src/bin/moman/moman.hpp:150-164 | Removing socket and process in either order erases the entry and cancels its timer |
| `LifecycleFacts.TimerHasOneOwner` | src/bin/moman/callbacks.cpp:176-202 | The timer of a waiting add belongs to the entry of its class and to no other |
| `LifecycleFacts.AtMostOneStop` | src/bin/moman/callbacks.cpp:363-399 | However commands, sockets and exits interleave, at most one STOP is initiated for an entry between its insertion and its erasure |
| `LifecycleEffects.StopIsWrittenMeans` | src/bin/moman/callbacks.cpp:392-420 | Once a STOP is written, or could not be, the class has lost its socket, and its entry if it had no process, with the wait on its timer cancelled; a failure is answered with the code for stops of its kind, a success with nothing yet |
| `LifecycleEffects.StopIsAnsweredMeans` | src/bin/moman/callbacks.cpp:402-411 | The answer of the class is passed on as it is, to the callback of that stop |
| `LifecycleFacts.StatusIsExact` | src/bin/moman/callbacks.cpp:286-311 | The two tables hold exactly the classes with a process and those with a socket, every stored class is in one of them |
| `LifecycleFacts.TerminatesEverything` | src/bin/moman/moman.cpp:499-511 | Terminating leaves no process alive and exactly the entries that have a socket, with that socket |
| `LifecycleFacts.EveryShutdown` | src/bin/moman/callbacks.cpp:59-67 | A manager that has shut down has no process left |
| `LifecycleEffects.ShutdownMeans` | src/bin/moman/callbacks.cpp:59-67 | Over the step: OK to the client, no process alive, exactly the entries with a socket left, and exactly the waits on the timers of the others cancelled |
| `LifecycleFacts.AddFailsExactly` | src/bin/moman/callbacks.cpp:202-269 | The continuation of an add ends the run if and only if its timer expired and its class is stored without a process, or its answer completes a join of which one half failed with an unregistered code |
| `LifecycleFacts.AddCanFail` | src/bin/moman/callbacks.cpp:253-254 | A run that the first of these ends |
| `LifecycleFacts.ClientCanBeLost` | src/bin/moman/callbacks.cpp:214-239 | A run without any verification at whose end nothing is owed and a client was never answered, because its class was added again before its cancelled add continued |
| `LifecycleStatus.MonitorsBeforeScrapers` | src/bin/moman/callbacks.cpp:21-57 | In every run that does not fail, the reply to a combined status has under the monitors the exact tables of the monitors as they were after some number of events, and under the scrapers those of the scrapers after some later number |
| `Termination.InAnyOrder` | src/bin/moman/moman.cpp:499-511 | Terminating entry by entry, in whatever order the two tables are walked, gives the same result |
| `SocketNames.KeyOfExactly` | src/bin/moman/moman.cpp:429-449 | A socket stands for a class if and only if its name is the kind, a dot and a class name without a dot |
| `MonitorManagerObject.SocketEventMeans` | src/bin/moman/moman.cpp:426-497 | A file named Monitor or Scraper, a dot and a class name without one: its creation and its deletion are those events for that class, and any other mask is passed over |
| `MonitorManagerObject.OnlyOurNames` | src/bin/moman/moman.cpp:426-445 | Whatever changes anything is the creation or deletion of such a file |
| `LifecycleEffects.SocketCreatedMeans` | src/bin/moman/moman.cpp:452-488 | A stored class has the new socket, and is looked at exactly if it is being added; a class that is not stored is looked at and nothing is stored yet |
| `LifecycleEffects.SocketVerifiedMeans` | src/bin/moman/moman.cpp:461-487 | A socket that is alive confirms an add and cancels its wait, or stores a class that is not stored by then, with the socket and without a process |
| `StoredObjects.StoredTables.Tabulate` | src/bin/moman/callbacks.cpp:294-305 | The loop over a table of objects writes under their class names and overwrites nothing |
| `StoredObjects.StoredTables.RemoveStoredSocket` | src/bin/moman/moman.hpp:150-164 | The stored object loses its socket, or is erased from its own table and releases its timer when it has no process; every other object of both tables stays as it is |
| `StoredObjects.StoredTables.RemoveStoredProcess` | src/bin/moman/moman.hpp:150-164 | The same for its process |
| `MonitorManagerObject.MonitorManager.OnAdd` | src/bin/moman/callbacks.cpp:77-200 | Rejects a bad payload, refuses every stored class, and otherwise starts and stores a new object and arms a timer as the step of the event loop does, with the same verdict on its callback |
| `MonitorManagerObject.MonitorManager.AddContinuation` | src/bin/moman/callbacks.cpp:202-269 | Takes its callback out of the pending ones and replies, lets it go or throws, with the flags of the entry reset, in exactly the cases that `LifecycleEffects.AddContinuesMeans` lists |
| `MonitorManagerObject.MonitorManager.OnGetStatus` | src/bin/moman/callbacks.cpp:286-311 | Decides to reply with the exact tables of its kind and changes nothing |
| `MonitorManagerObject.MonitorManager.OnStop` | src/bin/moman/callbacks.cpp:334-399 | Refuses what has no socket or is already being stopped; otherwise marks the entry and initiates one STOP, whose continuation holds the callback |
| `MonitorManagerObject.MonitorManager.StopContinuation` | src/bin/moman/callbacks.cpp:392-420 | Removes the socket of whatever is stored for the class by then, whether the STOP was written or not, and waits for the answer or reports the failure |
| `MonitorManagerObject.MonitorManager.OnProcessExit` | src/bin/moman/moman.cpp:351-370 | Takes the process from the entry of its class, with the entry if it has no socket; nothing but the handler goes when it is handed an error |
| `MonitorManagerObject.MonitorManager.CheckSocketAndUpdateList` | src/bin/moman/moman.cpp:426-497 | The right entry for the socket's name is updated, erased or looked for, and nothing happens for other names and other events |
| `MonitorManagerObject.MonitorManager.TerminateProcesses` | src/bin/moman/moman.cpp:499-511 | The loop ends although it erases what it walks through and does not always move on, and treats every entry once |
| `MonitorManagerObject.MonitorManager.Shutdown` | src/bin/moman/callbacks.cpp:59-67 | Shutting down terminates everything and replies |
| `MonitorManagerObject.MonitorManager.HandleCallback` | src/bin/moman/server.cpp:61-89 | Dispatching creates the reply obligations of the command and runs or posts its callback |
| `MonitorManagerObject.RunLoop` | src/bin/moman/moman.cpp:517-523 | The object goes through exactly the runs that the theorems are about |
| `FileWatcherObject.FileWatcher.OnInotifyUpdate` | src/bin/moman/moman.cpp:126-228 | The loop handles exactly the queued events in their order, up to the first exception, with the exact state, exception and effects; without one, the list and the path index name the same distinct watches afterwards |
| `FileWatcherObject.FileWatcher.KeepWatching` | src/bin/moman/moman.cpp:126-228 | Over any sequence of things that the kernel does and of reads, each followed by its update, the list and the path index name the same watches as long as no exception has ended it |
| `FileWatcherObject.FileWatcher.HandleEvent` | src/bin/moman/moman.cpp:131-225 | One event, with the exact exception, what it makes watched with which mask or forgotten, and what it leads to |
| `FileWatcherObject.SocketDirectoryMeans` | src/bin/moman/moman.cpp:139-147 | An event in the socket directory changes nothing that is watched and is passed on exactly if it has IN_DELETE, or IN_CREATE and is about a socket |
| `FileWatcherObject.ConfigDirectoryMeans` | src/bin/moman/moman.cpp:148-225 | An event anywhere else: which masks and names begin a watch, with which mask, or end one, and that configs are sent exactly for a new or written file whose watching did not throw; no other exception is possible |
| `FileWatcherObject.LastEventDecides` | src/bin/moman/moman.cpp:157-224 | Whether a path is watched after any number of events is decided by the last one that was about it |
| `FileWatcherObject.AsksExactly` | src/bin/moman/moman.cpp:157-224 | Which masks and names ask for a path to be watched and which revoke it |
| `FileWatcherObject.EffectsExactly` | src/bin/moman/moman.cpp:126-228 | Over any number of events, the effects are those that one of the events leads to by its flags and names, in their order, and no others |
| `ConfigFiles.ScanBackwards` | src/bin/moman/moman.cpp:249-262 | The scan returns the component between the last two separators |
| `ConfigFiles.ScanStaysInside` | src/bin/moman/moman.cpp:252-262 | Its unsigned index does not wrap if and only if the path has at least two separators |
| `ConfigFiles.SubDirOfFile` | src/bin/moman/moman.cpp:249-262 | For a file in a directory it returns the name of that directory |
| `ConfigFiles.SubDirOfOnlyFiles` | src/bin/moman/moman.cpp:249-262 | It returns a name only for such paths: whatever path yields one is a directory, that name and a file name without separator, joined by separators |
| `ConfigFiles.ParseAndSendConfigs` | src/bin/moman/moman.cpp:230-293 | A changed file starts exactly one delivery for every member and every kind it concerns that has both process and socket, and no other, with the command that file name and directory fix |
| `ConfigFiles.WantedExactly` | src/bin/moman/moman.cpp:265-349 | What that is: each member to the monitor and to the scraper of its name, as far as the directory concerns them, that has both process and socket, with the command for what the file holds, common or specific |

## Left out

- The event loop is single-threaded; the locking macros, non-blocking mode and the /proc functions are not modelled.
- The retry of an interrupted read, and a read error: a read hands over some of the oldest records or nothing.
- The blocking and the asynchronous read have the same decode loop word for word; the model has it once.
- The iteration order of the two unordered maps of the manager is arbitrary; in the state machine, though not in the
  object, they are one map whose keys contain the kind.
- A handler of the manager object returns its verdict on the callback, which is carried out right after it; the code
  calls back inside the handler, as the last thing it does on every path.
- The order in which RemoveAll meets the watches is arbitrary. Objects are never freed, so that a queued event whose
  watch has left the list still has its watch; nothing is claimed about the lifetime of such watches in C++.
- What an inotify update leads to is a list of effects; the methods for a socket event and for a changed config file
  take it from there. They touch neither the list of watches nor the inotify object.
- The check of a new socket looks the class up again when it reports success; the iterator that the code keeps may
  be invalid by then. A class that is gone, or has no timer, ends the run.
- Connections, buffers, timeouts and JSON text: success, failure and the fields that are looked at are all that is
  left of them.
- A register entry without a path, and a process that cannot be spawned, are one case: the exception ends the run.
- How the flag names are spelled is a parameter; only that spellings differ, are not empty and have no comma matters.
- Config files of other names than the four get the command that a fresh command object has, as in the code; which
  events lead to such files is not looked into.
- The logging, the command line tools, the INI configuration and the tables of command and error names; the registered
  error codes are a parameter.
