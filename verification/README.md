# xqlite's native layer: a verified model

xqlite is an Elixir binding to SQLite whose native half (Rust, `native/xqlitenif/src`) keeps raw C pointers in
atomic cells, shares one connection between BEAM threads behind a mutex, multiplexes SQLite's single-slot hooks
over many subscribers, emulates the WAL autocheckpoint it displaces, hands query results over in batches, and
reads meaning back out of SQLite's text. This project models that half in Dafny and proves what it is meant to
guarantee. SQLite, the BEAM scheduler and the callers are the environment: what they answer or choose is a
parameter of a step, so every theorem holds for every answer and every interleaving.

| files | part of the program | main results |
|---|---|---|
| `Lifecycle`, `LifecycleInvariant`, `LifecycleTheorems`, `LifecycleFates`, `LifecycleSessions`, `LifecycleEffects`, `LifecycleProgress` | streams, statements, blobs, sessions and the connection, any number of threads, one atomic action per step | no C call on a freed or unguarded object in any interleaving; one owner per C object; exactly when an object, a session or the database is freed or leaked, for good; what every call does when run; deadlock freedom, and calls under way end |
| `HookList`, `HookListRace` | subscriber lists and the process-wide log hook | the list is exactly the surviving registrations; ids are never reused; a reader that holds the writers' lock never sees freed memory, and one that does not can |
| `BusySlot` | the busy-handler slot and its retry policy | policy and observers over all runs; exactly when handles repeat; the retry budget of one busy event |
| `Progress` | the progress dispatch: cancel guard and ticks | the guard leaves the list as it found it, with every listed flag owned at every point; ticks are decimated exactly |
| `Wal` | the wal_hook slot | refinement of stock SQLite's autocheckpoint: checkpoints always agree, and exactly what else does when |
| `Streaming` | batched fetching and stepping | delivered rows are a gapless prefix in every run; exactly when each reply is given; closed form of undisturbed runs; exactly which rows an error loses |
| `Blob` | incremental blob ranges | last writer wins on every byte; chunked reads reassemble the blob |
| `Quoting`, `Literals`, `IntegerText`, `FloatGrammar` | SQL quoting and DEFAULT literals | two-sided inverses, exact 64-bit values, order-independent classification |
| `Splitting`, `Constraints` | constraint error messages | a message parses back to its parts if and only if a stated condition on the names holds |

`dafny verify dfyconfig.toml` checks the whole project.

## Reading the model

* A schedule is a sequence of (thread, choice) pairs and `Run` folds a deterministic `Step` over it. C calls are
  never guarded by the model: a bad one sets `faulty`, and the theorem is that `faulty` stays false.
* A class mirrors each struct that the source updates in place. Its methods equate the new state with a pure
  function of the old one, and the theorems about runs are about that function.
* Where a property a reader might expect is false of the code, a lemma gives an input that breaks it and another
  states exactly when it holds: `PoisonCanLeak` and `FateIff` with `CloserFate`, `StrayKeepsTheDatabase` and
  `LastDropFreesTheDatabase`, `UpperCaseStealsTheSlot` and `InStepIff` with `ReplyIff`, `HandlesRestart` and `HandlesDistinctIff`, `RowsCanBeLost` and `NothingIsLostIff`, and the two-way
  `ParsesBack` lemmas. `UnlockedReadersRace` shows why the log callback takes the lock of
  `LockedReadersAreSafe`.

Where the code and its own words differ, the model follows the code:

* `connection.rs:58-67` says the connection is dropped before the busy-handler box is reclaimed. In Rust a
  type's `Drop` body runs before its fields are dropped, so the box goes first. `DropHook` states the
  consequence: the handler dangles from there until the connection is closed, and only then. Nothing else runs
  in between, since the destructor holds the last reference.
* `lib/xqlite/xqlitenif.ex:1117-1135` describes a batch size of 0 that returns no rows; `stream_fetch` rejects
  every batch size below 1.
* The repair in `set_pragma` compares the pragma name exactly and needs the call to succeed; SQLite compares
  names without case. `InStepIff`, `ReplyIff` and `SubscribersHearIff` give the exact limits over whole runs; raw SQL
  is the documented one. Checkpoints are not affected.
* Busy observer handles restart at 0 when the slot empties, so they are unique among live observers only;
  `HandlesDistinctIff` says when a run repeats one.
* `stream_open` can return early after preparing a statement and before storing it (`nif.rs:1136`, `nif.rs:1144`),
  and `explain_analyze.rs:103` likewise. The model keeps such a statement as a stray: it is never used, it is
  never freed, and it keeps the database allocated (`StrayKeepsTheDatabase`).

## Model

Paths are relative to the repository root.

| member | source | states |
|---|---|---|
| LifecycleInvariant.StepInv | native/xqlitenif/src/stream.rs:37-89 | every atomic action of every routine, by any thread, keeps the protocol invariant and undoes nothing: frees are never taken back, a freed, leaked or stray object never changes again, taken, deleted and forgotten sessions stay so, drops, poison and the closed database stay |
| LifecycleTheorems.EveryCallIsSafe | native/xqlitenif/src/blob.rs:256-305 | in every interleaving no C call touches a freed statement or blob, a freed database, a deleted or orphaned session, and none is made without the connection guard |
| LifecycleEffects.ObjectCallsAreSafe | native/xqlitenif/src/statement.rs:44-65 | in every interleaving, whoever is about to pass a statement or blob to SQLite holds the connection mutex, and object and database are allocated |
| LifecycleEffects.SessionCallsAreSafe | native/xqlitenif/src/session.rs:74-126 | likewise for calls on a session, which is live and locked by the caller, on an open connection |
| LifecycleEffects.ConnectionCallsAreSafe | native/xqlitenif/src/connection.rs:200-215 | likewise for calls on the connection itself |
| LifecycleTheorems.DatabaseOutlivesItsObjects | native/xqlitenif/src/connection.rs:188-197 | the database is freed at most once, and when it is, no statement or blob is alive, stored or owed a free |
| LifecycleEffects.CloseCloses | native/xqlitenif/src/connection.rs:188-197 | a close, or the drop of the resource, leaves the connection closed in every continuation; if it was open the database is freed once exactly when every object was freed before, and stays allocated otherwise; a second close changes neither |
| LifecycleEffects.ClosedIff | native/xqlitenif/src/connection.rs:188-197 | over whole runs, the connection is closed if and only if a closer took its step or the resource was dropped |
| LifecycleEffects.CloseConnAlone | native/xqlitenif/src/connection.rs:188-197 | a close begun by an idle thread runs through to that effect on a clean lock and changes nothing on a poisoned one |
| LifecycleEffects.CloseAlone | native/xqlitenif/src/stream.rs:37-89 | closing or dropping a stream, statement or blob empties the cell and frees the object on a clean lock, leaks it on a poisoned one, and changes nothing else |
| LifecycleEffects.UseAlone | native/xqlitenif/src/statement.rs:44-65 | a use passes exactly the cell's object to SQLite on a clean lock, an open connection and a full cell, and otherwise changes nothing |
| LifecycleEffects.FetchAlone | native/xqlitenif/src/nif.rs:1274-1358 | a fetch steps the stream's statement, frees it and empties the cell when a step yields no row, does so at once on a poisoned lock, and changes nothing on a closed connection |
| LifecycleEffects.CloseSessionAlone | native/xqlitenif/src/session.rs:31-71 | closing or dropping a session takes its value and deletes it on a clean lock and an open connection, forgets it otherwise, and changes nothing else |
| LifecycleEffects.UseSessionAlone | native/xqlitenif/src/session.rs:74-126 | on clean locks, an open connection and a value still there, a use gets to call SQLite on the session |
| LifecycleEffects.WithConnAlone | native/xqlitenif/src/connection.rs:200-215 | on a clean lock and an open connection the caller gets to SQLite and what it opens is there afterwards; on a closed one nothing is created |
| LifecycleFates.OwnershipIsConserved | native/xqlitenif/src/stream.rs:37-70 | at every moment each C object has exactly one owner among cells, threads that swapped it out, the allocator, the poisoned-lock leak and the early-exit stray; it is leaked if and only if a closer found the lock poisoned during the run |
| LifecycleFates.FateIff | native/xqlitenif/src/stream.rs:37-70 | over whole runs, an object is leaked if and only if some closer that had swapped it out found the connection mutex poisoned, and freed if and only if a guard holder made the call |
| LifecycleFates.CloserFate | native/xqlitenif/src/stream.rs:47-69 | whatever the other threads do, a closer that gets a poisoned mutex leaks its object in every continuation, and only then; one that gets a clean mutex keeps the object in hand until its next call frees it once, and only then |
| LifecycleFates.SettledForGood | native/xqlitenif/src/stream.rs:37-70 | a freed or leaked object is unchanged in every continuation |
| LifecycleTheorems.EverythingIsReclaimed | native/xqlitenif/src/session.rs:46-71 | without poisoning, once all resources are dropped each stored object was freed exactly once, and each session was deleted, or leaked because the connection was closed first |
| LifecycleTheorems.LastDropFreesTheDatabase | native/xqlitenif/src/connection.rs:58-67 | dropping the connection last, unclosed, frees the database if and only if no object was leaked by a poisoned lock and none strayed; otherwise the database stays allocated |
| LifecycleFates.StrayKeepsTheDatabase | native/xqlitenif/src/nif.rs:1130-1146 | an unpoisoned run with everything dropped in which a statement prepared and not stored keeps the database allocated in every continuation |
| LifecycleSessions.SessionFateIff | native/xqlitenif/src/session.rs:46-71 | over whole runs, a session is forgotten if and only if its closer, having taken it, found the lock poisoned or the connection closed, and deleted if and only if it found neither |
| LifecycleTheorems.LeakIsForGood | native/xqlitenif/src/blob.rs:248-255 | a database kept alive by a close that found objects open is never freed later, so late finalizers find it allocated |
| LifecycleTheorems.LockOrder | native/xqlitenif/src/session.rs:37-54 | a thread only waits for a lock ranked above all it owns: connection, then session, then the log lock |
| LifecycleTheorems.NoWaitCycle | native/xqlitenif/src/log_hook.rs:42-64 | no interleaving produces a cycle of threads waiting for each other, and no chain is longer than three locks |
| LifecycleTheorems.SomeThreadCanMove | native/xqlitenif/src/session.rs:74-126 | unless all threads are idle some thread can take a step that changes the state |
| LifecycleProgress.EveryCallCanFinish | native/xqlitenif/src/session.rs:46-126 | from every reachable state some continuation of plain steps, with no new call begun, brings every thread back to idle with no C object in anybody's hands |
| LifecycleProgress.PlainStepsRunOut | native/xqlitenif/src/stream.rs:37-70 | in any sequence of plain steps, however scheduled, at most a fixed number change anything, so calls under way cannot go on forever |
| LifecycleFates.PoisonCanLeak | native/xqlitenif/src/stream.rs:47-57 | a run in which a panic poisons the lock between swap and finalize; the statement is unfreed with every thread idle, and in every continuation |
| Subscribers.RunIsTheSurvivors | native/xqlitenif/src/hook_util.rs:237-318 | after any registrations and removals the list holds exactly the registrations not removed since, in order, under the ids they were given |
| Subscribers.IdsAreNeverReused | native/xqlitenif/src/hook_util.rs:220-274 | below 2^64 registrations the ids that registrations return climb strictly along the run, so no two are equal, listed or not |
| HookLists.HookList.Register | native/xqlitenif/src/hook_util.rs:237-274 | appends under the next id, wraps at 2^64, frees the previous vector and nothing else |
| HookLists.HookList.Reclaim | native/xqlitenif/src/hook_util.rs:263-273 | frees a vector, and can only be called once the head no longer points to it |
| HookLists.HookList.Unregister | native/xqlitenif/src/hook_util.rs:281-318 | removes exactly the entries with that id, says whether there were any, and touches nothing when there were none |
| HookLists.HookList.Visit | native/xqlitenif/src/hook_util.rs:330-343 | visits every entry once, in registration order |
| HookLists.HookList.IsEmpty | native/xqlitenif/src/hook_util.rs:346-348 | true exactly when no entry is listed |
| HookLists.HookList.DropAll | native/xqlitenif/src/hook_util.rs:353-362 | empties the list and frees the last vector once |
| HookListRace.LockedReadersAreSafe | native/xqlitenif/src/log_hook.rs:42-64 | with readers under the writers' lock no interleaving visits or frees a freed vector, and when nobody is inside all but the published vector have been freed exactly once |
| HookListRace.UnlockedReadersRace | native/xqlitenif/src/log_hook.rs:42-54 | without that lock a schedule exists in which a reader visits freed memory |
| BusySpec.RunKeepsTheSlot | native/xqlitenif/src/busy_handler.rs:136-257 | over any mutations, accepted or refused: the slot is null exactly when the history left neither policy nor observer; otherwise its policy is the last accepted one and its observers are the accepted registrations not removed since, in order, under the handles they were given |
| BusySpec.FreshHandle | native/xqlitenif/src/busy_handler.rs:161-172 | a registration's handle names no live observer |
| BusySpec.HandlesDistinctIff | native/xqlitenif/src/busy_handler.rs:161-257 | the handles returned in a run are pairwise distinct if and only if the slot stays installed between any two registrations |
| BusySpec.HandlesRestart | native/xqlitenif/src/busy_handler.rs:161-217 | register, remove, register again: both registrations return handle 0 |
| BusySpec.EventBudget | native/xqlitenif/src/busy_handler.rs:63-107 | the decisions of one busy event depend on the policy and on the whole milliseconds since that event's own first callback only, however old the slot is |
| BusySpec.RetryIff | native/xqlitenif/src/busy_handler.rs:63-107 | the k-th callback of an event retries if and only if k is below the policy's retries and fewer nanoseconds than its milliseconds have gone by since the event's first callback |
| Common.ElapsedIsTheTime | native/xqlitenif/src/busy_handler.rs:82 | the measured time is the number of whole milliseconds between the two instants, for spans below 2^64 ms, and 0 before the start |
| BusySpec.RetriesAreBounded | native/xqlitenif/src/busy_handler.rs:63-107 | one event is granted at most the policy's retries, none at or past its elapsed limit, and none without a policy |
| BusySpec.MidEventDecision | native/xqlitenif/src/busy_handler.rs:63-257 | after any mutations in the middle of an event that leave the slot installed, the new policy decides at once, and it retries if and only if its budget, counted from the event's first callback, allows |
| BusyHandler.BusySlot.InstallHook | native/xqlitenif/src/hook_util.rs:120-152 | a refused registration leaves slot, handler and live boxes as they were; an accepted one moves handler and slot to the new box and frees the predecessor once, through Reclaim |
| BusyHandler.BusySlot.UninstallHook | native/xqlitenif/src/hook_util.rs:159-177 | a refused clear changes nothing; an accepted one clears the handler and frees the box, through Reclaim |
| BusyHandler.BusySlot.Reclaim | native/xqlitenif/src/hook_util.rs:131-174 | frees a box, and can only be called once neither the slot nor SQLite's handler points to it, which fixes the order in both callers |
| BusyHandler.BusySlot.SwapIn | native/xqlitenif/src/busy_handler.rs:222-257 | installs a non-vacant state, uninstalls for a vacant one, and is a no-op when refused |
| BusyHandler.BusySlot.SetPolicy | native/xqlitenif/src/busy_handler.rs:136-144 | replaces the policy and keeps observers, handles and clock |
| BusyHandler.BusySlot.RemovePolicy | native/xqlitenif/src/busy_handler.rs:149-156 | removes the policy and keeps the observers; the slot goes null if none are left |
| BusyHandler.BusySlot.RegisterObserver | native/xqlitenif/src/busy_handler.rs:161-172 | appends the observer under the next handle, or reports refusal and changes nothing |
| BusyHandler.BusySlot.UnregisterObserver | native/xqlitenif/src/busy_handler.rs:177-185 | drops exactly that handle and keeps the policy |
| BusyHandler.BusySlot.DropHook | native/xqlitenif/src/hook_util.rs:183-192 | frees the box once; SQLite's pointer dangles afterwards exactly if the handler was still ours |
| BusyHandler.BusySlot.BusyCallback | native/xqlitenif/src/busy_handler.rs:63-107 | restarts the clock at count 0, tells every observer in order the count and the whole milliseconds gone by, and returns the policy's decision |
| ProgressSpec.GuardIsScoped | native/xqlitenif/src/cancel.rs:49-74 | after the guard's destructor the cancel list is what it was before, for every earlier list and every token vector, repeats included |
| ProgressSpec.GuardCancels | native/xqlitenif/src/cancel.rs:49-62 | while the guard stands, a callback interrupts if and only if one of its tokens is raised or it would have interrupted anyway |
| ProgressSpec.OwnedWhileBuilding | native/xqlitenif/src/cancel.rs:49-62 | at every turn of construction each flag reachable from the list has an owner |
| ProgressSpec.OwnedWhileTearing | native/xqlitenif/src/cancel.rs:65-74 | each reachable flag has an owner between turns of the drain and within a turn, when the subscriber is gone and its Arc not yet released |
| ProgressSpec.ReleaseFirstIff | native/xqlitenif/src/cancel.rs:67-70 | the other order would leave every reachable flag owned if and only if somebody else still owns the flag being released |
| Progress.ReleaseEntry | native/xqlitenif/src/cancel.rs:65-74 | one turn: unregister, then release; every listed flag is owned before, in between and after |
| Progress.Flags.Release | native/xqlitenif/src/cancel.rs:65-74 | drops one Arc, and can only be called when no listed subscriber needs it |
| ProgressSpec.TicksAreDecimated | native/xqlitenif/src/progress_dispatch.rs:177-232 | over any run with other subscribers coming and going, a subscriber hears exactly the counts of its own that its decimation divides, in order, each with the milliseconds since it was installed; interrupted callbacks move no counter |
| ProgressSpec.HeardIff | native/xqlitenif/src/progress_dispatch.rs:209-228 | message by message: a subscriber is told of its count, wrapping at 2^64, with the whole milliseconds since it was installed, if and only if its decimation divides that count |
| ProgressSpec.DroppedHearsNothing | native/xqlitenif/src/nif.rs:1586-1600 | a removed subscriber hears nothing more, whatever happens afterwards |
| ProgressSpec.TickRate | native/xqlitenif/src/progress_dispatch.rs:90-123 | after a registration with decimation n, a run with k uninterrupted callbacks sends that subscriber ceil(k / n) messages, whoever else comes and goes |
| Progress.ProgressDispatch.Callback | native/xqlitenif/src/progress_dispatch.rs:177-232 | returns 1 exactly when some flag is raised, then sends nothing and bumps nothing; otherwise bumps all counters and sends what is due |
| Progress.ProgressDispatch.CancelPass | native/xqlitenif/src/progress_dispatch.rs:190-207 | reports whether any listed flag is raised, reading only flags that have an owner |
| Progress.ProgressDispatch.TickPass | native/xqlitenif/src/progress_dispatch.rs:209-228 | bumps every counter by one modulo 2^64 and sends one message, with count and elapsed milliseconds, per subscriber whose old count is divisible |
| Progress.ProgressDispatch.RegisterTick | native/xqlitenif/src/nif.rs:1558-1584 | rejects a zero decimation; otherwise appends a subscriber with its own counter at 0 and the current instant |
| Progress.ProgressDispatch.UnregisterTick | native/xqlitenif/src/nif.rs:1586-1600 | removes that subscriber; the survivors keep their counters |
| Progress.ProgressHandlerGuard.constructor | native/xqlitenif/src/cancel.rs:49-62 | registers every token in order, records each with its id, and keeps every listed flag owned |
| Progress.ProgressHandlerGuard.Drop | native/xqlitenif/src/cancel.rs:65-74 | restores the list and gives back exactly the guard's ownership shares, by turns that keep every listed flag owned |
| WalSpec.EmulationIsExact | native/xqlitenif/src/wal_hook.rs:74-130 | for every sequence of tracked commands and every log behaviour, all replies and checkpointed commits equal stock SQLite's, and the master callback owns the slot between commands |
| WalSpec.CheckpointsAlwaysAgree | native/xqlitenif/src/wal_hook.rs:74-130 | for every command sequence whatever, raw SQL, other spellings and late errors included, checkpoints happen on exactly the commits on which stock SQLite makes them |
| WalSpec.StepRefines | native/xqlitenif/src/nif.rs:538-591 | one tracked command keeps the two machines in step and shows the same |
| WalSpec.InStepIff | native/xqlitenif/src/nif.rs:559-591 | after any commands, raw SQL, other spellings and late errors included, the emulation is in step with stock SQLite if and only if every command that took the slot was followed by a successful write under the exact name |
| WalSpec.SlotMoves | native/xqlitenif/src/nif.rs:559-591 | one command from any reachable state: the master owns the slot afterwards if and only if the command heals, or the master owned it and the command does not take it; otherwise stock SQLite's hook is in it |
| WalSpec.SubscribersHearIff | native/xqlitenif/src/wal_hook.rs:74-130 | a commit tells exactly the processes subscribed and not unsubscribed since, in order, if every command that took the slot was healed since, and nobody otherwise |
| WalSpec.ListIsTheListeners | native/xqlitenif/src/wal_hook.rs:177-187 | after any commands the list is exactly the subscriptions not cancelled since, in order, under the ids they were given |
| WalSpec.ListIsProjected | native/xqlitenif/src/wal_hook.rs:177-187 | and it is the list those subscriptions and cancellations alone would have made |
| WalSpec.SeenIff | native/xqlitenif/src/nif.rs:538-591 | in step or out of it, a command shows what stock SQLite shows, except exactly for the reads that do not agree: in step another spelling with a non-zero threshold, out of step the exact name with a stale threshold |
| WalSpec.ReplyIff | native/xqlitenif/src/nif.rs:538-591 | the same for every single reply of every run |
| WalSpec.UpperCaseStealsTheSlot | native/xqlitenif/src/nif.rs:559-591 | an upper-case write leaves SQLite's own hook in the slot and the mirrored threshold stale |
| WalSpec.SuccessfulSetHeals | native/xqlitenif/src/nif.rs:559-591 | from any state, the next successful exact write puts the emulation back in step |
| WalHook.WalConn.constructor | native/xqlitenif/src/connection.rs:116-186 | a fresh connection has the master in the slot and a threshold of 1000 |
| WalHook.WalConn.SetPragma | native/xqlitenif/src/nif.rs:559-591 | the new slot and threshold, and the reply, are those of the emulation's step, error cases included |
| WalHook.WalConn.GetPragma | native/xqlitenif/src/nif.rs:538-556 | the answer is stock SQLite's if and only if the read agrees: in step, an exact name, another pragma or a zero threshold; out of step, another spelling or a threshold that is not stale |
| WalHook.WalConn.Commit | native/xqlitenif/src/wal_hook.rs:74-130 | tells every subscriber in order and checkpoints exactly when a positive threshold is reached |
| WalHook.WalConn.Subscribe | native/xqlitenif/src/wal_hook.rs:177-182 | appends a subscriber and leaves slot and threshold alone |
| WalHook.WalConn.Unsubscribe | native/xqlitenif/src/wal_hook.rs:185-187 | removes a subscriber and leaves slot and threshold alone |
| StreamSpec.DeliveredIsAPrefix | native/xqlitenif/src/nif.rs:1222-1389 | over any calls, batch sizes, connection states and concurrent closes, the rows delivered are the statement's first rows, in order, without gap or repeat; while open they are all rows stepped |
| StreamSpec.ClosedIsFinal | native/xqlitenif/src/nif.rs:1274-1277 | once closed by end, error, close or poisoning, every later valid fetch says done |
| StreamSpec.OpenIff | native/xqlitenif/src/nif.rs:1222-1389 | a stream is open if and only if no call so far closed it, met a poisoned lock, or was stopped by an end, an error or somebody else's close |
| StreamSpec.FaultIff | native/xqlitenif/src/nif.rs:1247-1312 | exactly when a fetch is refused for its size, answers a closed connection or a poisoned lock, and what each does to the stream |
| StreamSpec.DoneIff | native/xqlitenif/src/nif.rs:1274-1388 | done is said if and only if the stream had ended before, or the first look of this call found the handle closed or the statement at its end |
| StreamSpec.FailureIff | native/xqlitenif/src/nif.rs:1343-1362 | an error is reported if and only if the statement fails at the first look that is not a row |
| StreamSpec.RowsIff | native/xqlitenif/src/nif.rs:1317-1376 | exactly which rows a fetch returns: a full batch, or everything gathered before the end or somebody else's close |
| StreamSpec.PlainAnswer | native/xqlitenif/src/nif.rs:1317-1388 | closed form of each reply in an undisturbed run, for all row counts, batch sizes, ends and errors |
| StreamSpec.PlainDelivery | native/xqlitenif/src/nif.rs:1317-1388 | a statement that ends is delivered whole as soon as the batches add up to it; one that fails loses exactly the rows behind the last whole batch |
| StreamSpec.NothingIsLostIff | native/xqlitenif/src/nif.rs:1343-1362 | a failing statement delivers all its rows if and only if they fill whole batches |
| StreamSpec.RowsCanBeLost | native/xqlitenif/src/nif.rs:1343-1362 | one row and then an error, fetched with room for two: the row is lost |
| StreamSpec.MultiStepAgrees | native/xqlitenif/src/nif.rs:920-989 | until the end, stepping a statement in batches returns what fetching a stream returns, rows and error codes, and the done flag is set by the very call that runs past the last row |
| StreamSpec.MultiFaultIff | native/xqlitenif/src/statement.rs:44-65 | exactly when a batch is refused for its size, finds the lock poisoned, the connection closed or the statement finalized; none of these changes the statement |
| Streaming.XqliteStream.Fetch | native/xqlitenif/src/nif.rs:1222-1389 | reply and new stream state for sizes below 1 or beyond i64, a closed stream, a poisoned or closed connection and the loop |
| Streaming.XqliteStream.FetchLoop | native/xqlitenif/src/nif.rs:1317-1388 | the loop, with a concurrent close at any turn, equals the one-fetch specification |
| Streaming.XqliteStatement.MultiStep | native/xqlitenif/src/nif.rs:920-989 | reply and new state for sizes below 1, a poisoned or closed connection, a finalized statement, and the loop: rows and done flag, or an error that drops the batch's rows |
| BlobSpec.LastWriterWins | native/xqlitenif/src/blob.rs:187-213 | after any writes, accepted or rejected, each byte is what the last accepted write over it put there, or the original |
| BlobSpec.ReadBack | native/xqlitenif/src/blob.rs:132-213 | a written range reads back as written and every range away from it as before |
| BlobSpec.ChunksReassemble | native/xqlitenif/src/blob.rs:132-183 | consecutive reads of any sizes concatenate to the blob |
| Blob.XqliteBlob.Read | native/xqlitenif/src/blob.rs:132-183 | the existing part of the range, for every usize offset and length; an empty one without asking SQLite; never a range SQLite would refuse, with the C int casts written out |
| Blob.XqliteBlob.Write | native/xqlitenif/src/blob.rs:187-213 | a range past the end is the size error and changes no byte, for every usize offset, saturation included; otherwise exactly that range changes |
| Quoting.UndoubleDoubled | native/xqlitenif/src/schema.rs:193-210 | undoubling inverts doubling for every text and quote |
| Quoting.DoubleUndoubled | native/xqlitenif/src/schema.rs:193-210 | whatever undoubles is the doubling of its value |
| Quoting.QuotedIsOneToken | native/xqlitenif/src/util.rs:344-346 | a tokenizer reading a quoted name stops exactly at its closing quote, whatever the name contains and whatever follows |
| Quoting.QuotedIsInjective | native/xqlitenif/src/util.rs:322-324 | different texts quote differently |
| Literals.ParseTextLiteral | native/xqlitenif/src/schema.rs:193-210 | accepts t with value s if and only if t is s quoted |
| Literals.ParseBlobLiteral | native/xqlitenif/src/schema.rs:213-227 | accepts exactly the hex spellings, with exactly their bytes |
| Literals.IntIsExact | native/xqlitenif/src/schema.rs:244-263 | an integer-shaped text parses to the number it denotes (decimal, or hex as 64-bit two's complement, then the sign) exactly when that fits i64 |
| IntegerText.LooksIff | native/xqlitenif/src/schema.rs:233-242 | a text is integer-shaped if and only if it is an optional sign and decimal digits, or an optional sign, 0x or 0X, and hexadecimal digits |
| IntegerText.HexReads | native/xqlitenif/src/schema.rs:244-257 | the hexadecimal value of every text is that of positional notation, any letter cases and leading zeros included |
| IntegerText.DecReads | native/xqlitenif/src/schema.rs:258-263 | the same for decimal |
| Literals.KindsAreDisjoint | native/xqlitenif/src/schema.rs:147-190 | no string is recognised by two of the ten recognisers |
| Literals.OrderIsIrrelevant | native/xqlitenif/src/schema.rs:147-190 | every order of the recognisers classifies every default alike |
| Literals.IntClassifies | native/xqlitenif/src/schema.rs:177-185 | an integer-shaped default is its exact value when it fits and verbatim otherwise, never a float |
| IntegerText.HexClassifies | native/xqlitenif/src/schema.rs:244-257 | a hexadecimal default: its value below 2^63, two's complement up to 2^64, verbatim from there; a minus negates, except for 2^63, which stays verbatim |
| IntegerText.DecimalClassifies | native/xqlitenif/src/schema.rs:258-263 | a decimal default, with any sign and leading zeros: its value when it fits i64, verbatim otherwise |
| IntegerText.PrintedHexClassifies | native/xqlitenif/src/schema.rs:244-257 | printing any u64 in base 16, either case and prefix, and classifying it gives its two's complement |
| DefaultArms.NoDefaultIff | native/xqlitenif/src/schema.rs:147-150 | no default exactly for a missing one |
| DefaultArms.KeywordIff | native/xqlitenif/src/schema.rs:153-170 | null, the booleans and the current-time words, each exactly for its keyword in any letter case, white space around it |
| DefaultArms.TextArmIff | native/xqlitenif/src/schema.rs:171-173 | a text exactly for its quoted form |
| DefaultArms.BlobArmIff | native/xqlitenif/src/schema.rs:174-176 | a blob exactly for a spelling of its bytes |
| DefaultArms.FloatArmIff | native/xqlitenif/src/schema.rs:186-188 | a float exactly for a finite literal of float shape |
| DefaultArms.VerbatimIff | native/xqlitenif/src/schema.rs:177-190 | verbatim, white space included, exactly when nothing recognises the text or it is an integer out of range |
| Literals.PrintedIntClassifies | native/xqlitenif/src/schema.rs:233-263 | printing any i64 and classifying it is the identity |
| Literals.PrintedTextClassifies | native/xqlitenif/src/schema.rs:147-173 | classifying any printed string gives that string |
| Literals.SpeltBlobClassifies | native/xqlitenif/src/schema.rs:213-227 | any bytes in any mixture of letter cases classify as exactly those bytes |
| Literals.PrintedBlobClassifies | native/xqlitenif/src/schema.rs:213-227 | hex printing in either case and classifying is the identity |
| FloatGrammar.FloatShapeIff | native/xqlitenif/src/schema.rs:268-300 | the shape test accepts exactly the numeric grammar with a point, an exponent, or both |
| FloatGrammar.TrimIsTheCore | native/xqlitenif/src/schema.rs:147-152 | trimming removes white space at both ends and nothing else |
| Splitting.JoinSplit | native/xqlitenif/src/constraint_parse.rs:128-147 | joining the split parts restores the text |
| Splitting.SplitJoin | native/xqlitenif/src/constraint_parse.rs:128-147 | splitting joined parts gives them back if and only if none contains the separator |
| Splitting.SplitOnceIsFirst | native/xqlitenif/src/constraint_parse.rs:100-126 | a cut is at the first match, and none means no match |
| Constraints.ParseTableColumns | native/xqlitenif/src/constraint_parse.rs:128-147 | the first table named and one column per part, in order |
| Constraints.UniqueParsesBack | native/xqlitenif/src/constraint_parse.rs:60-74 | a UNIQUE message gives back its table and columns if and only if the table has no dot, no name contains ", ", and the list does not read as an index message |
| Constraints.IndexFormIff | native/xqlitenif/src/constraint_parse.rs:64-72 | exactly which clean names read as an index message |
| Constraints.IndexParsesBack | native/xqlitenif/src/constraint_parse.rs:64-72 | an index message gives back the name, whatever it contains, and nothing else |
| Constraints.NotNullParsesBack | native/xqlitenif/src/constraint_parse.rs:83-88 | a NOT NULL message parses back if and only if its names are clean |
| Constraints.PrimaryKeyParsesBack | native/xqlitenif/src/constraint_parse.rs:76-81 | a PRIMARY KEY message parses back if and only if its names are clean |
| Constraints.PrimaryKeyFallsBack | native/xqlitenif/src/constraint_parse.rs:42-51 | a message with the PRIMARY KEY heading is never read as UNIQUE; every other one is |
| Constraints.CheckIff | native/xqlitenif/src/constraint_parse.rs:90-98 | a CHECK message reads as a name if and only if it is that name, verbatim, behind the heading |
| Constraints.DatatypeParsesBack | native/xqlitenif/src/constraint_parse.rs:100-126 | both type words are read whatever the names contain; table and column come back if and only if the table has no dot |
| Constraints.DatatypeUnqualified | native/xqlitenif/src/constraint_parse.rs:114-117 | a column without a dot leaves the table unknown |
| Constraints.StorageClassIff | native/xqlitenif/src/constraint_parse.rs:18-27 | the six storage-class words, each for its class, and none for any other word |
| Constraints.UnqualifiedParsesBack | native/xqlitenif/src/constraint_parse.rs:128-147 | columns listed without a table come back as they are, with the table unknown |
| Constraints.FirstTableCounts | native/xqlitenif/src/constraint_parse.rs:128-147 | of several tables the first one named counts |
| Constraints.NothingIff | native/xqlitenif/src/constraint_parse.rs:39-58 | nothing is read from a message if and only if it lacks the shape its code calls for |

## Left out

- SQLite and rusqlite: the environment; each C call appears as its effect on allocation, on a hook slot, on rows or on bytes.
- Memory orderings: every atomic access is one indivisible step of a sequentially consistent machine.
- Term encoding and decoding, allocation failures of result binaries and maps, and tags of tick subscribers.
- The update, commit and rollback hooks: the same subscriber list as the modelled ones, with nothing new to say.
- The authorizer, transactions, backup, serialize, extension loading, pragma name validation and error classification.
- Schema introspection loops, EXPLAIN ANALYZE counters and change counts: row-by-row copying.
- The Elixir modules under `lib/`.
- LiteralFloat: keeps the literal's text; the conversion to f64 is abstract, and its finiteness test is a parameter of classification.
- Panic capture in callbacks: a panic under the connection guard is a step of the lifecycle model; elsewhere it is not modelled.
- Log events: the lifecycle model lets any thread raise one at any step, which is more than SQLite does.
- IdsAreNeverReused: assumes fewer than 2^64 registrations; the counter wraps, and Register models that.
- HandlesDistinctIff: assumes fewer than 2^64 registrations, for the same reason.
- RunKeepsTheSlot: assumes fewer than 2^64 registrations for handle distinctness, for the same reason.
- GuardIsScoped: assumes that the ids of one guard do not wrap past 2^64.
- TicksAreDecimated: assumes that ids do not wrap within the run; the subscriber's own count may.
- HeardIff: assumes the same; the time is stated for spans below 2^64 ms, where the source's cast is exact.
- TickRate: assumes that neither ids nor the count wrap after the registration.
- DroppedHearsNothing: assumes that ids do not wrap, since a wrapped id could be handed out again.
- SubscribersHearIff: assumes fewer than 2^64 subscriptions, for the same reason as IdsAreNeverReused.
- RetryIff: assumes an event shorter than 2^64 milliseconds, where the source truncates; EventBudget covers longer ones.
- RetriesAreBounded: the elapsed-time bound assumes an event shorter than 2^64 milliseconds, where the source truncates.
- MultiStep: a cancel token reaches it as a failed step; the guard it holds meanwhile is modelled in `Progress`.
- MultiStepAgrees: covers calls up to and including the one that reaches the end; what a statement yields after that is the environment's.
