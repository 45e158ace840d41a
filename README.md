# Per-user message scheduler of a WhatsApp assistant bot

The bot in `src/app.ts` answers each inbound text message by asking an
assistant and sending the answer back. Messages of one user are processed
one at a time and in arrival order. Messages of different users do not
wait for each other. Two module-level tables hold the scheduler's state:

- `userQueues` maps a user id (`ctx.from`) to the array of that user's pending tasks;
- `userLocks` maps a user id to a lock flag.

The welcome flow's action pushes each message as a task. When the user is
unlocked and the task is the only one queued, the action calls
`handleQueue`. That loop locks the user, shifts the head task and awaits
its processing. A rejection is caught and logged, and the lock is released
in `finally`. The loop runs until the queue is empty and then deletes both
table entries.

JavaScript runs the code between two `await`s without interruption. The
scheduler therefore changes state in two kinds of atomic step:

- Submit: the action's push and test, plus `handleQueue` up to its first `await`;
- EndTask: one resumption of the loop after the awaited processing settles.

The project has three modules:

- `Registry` (`registry.dfy`) writes the state as a value and each step as
  a function that follows the code line by line. It proves the scheduler's
  properties, first for one step and then for every interleaving of steps
  over any number of users.
- `App` (`app.dfy`) is the class `Scheduler`. Its fields `userQueues`,
  `userLocks` and `errorLog` are updated in place, one method per piece of
  code. The methods that make up a whole atomic step or a whole run (the
  constructor, `Submit`, `EndTask`, `RunQueue`, `Welcome`) keep the
  invariant `Valid()`. The others (`Enqueue`, `TakeHead`, `DeleteEntries`,
  `NextTask`, `Release`, `HandleQueue`, `DrainLoop`) are pieces of one
  step, between which the invariant need not hold. Each of them states its
  effect, through the ghost `Model()`, as the matching `Registry` function
  of the old state. `Submit` and `EndTask` are also proved equal to the
  `Registry` steps. `RunQueue` and `DrainLoop` are `handleQueue` written
  as its own `while` loop, for a run in which nothing else interleaves.
- `Scenarios` (`scenarios.dfy`) drives fresh `Scheduler` objects through
  typical runs and states what they report.

Besides the two tables, the model keeps ghost bookkeeping that the program
does not store:

- how many drain loops run per user;
- the task each suspended loop awaits;
- each user's history of submitted and processed tasks.

The invariant ties this bookkeeping to the tables. When no step is under
way, a user has an entry exactly when one drain loop runs for the user.
That loop then holds the lock and awaits a task. Processed tasks, then the
task in flight, then the queued tasks are exactly the submitted tasks, in
submission order.

Two consequences of the atomic steps:

- Submit starts a drain exactly when the user had no entry. The
  `queue.length === 1` test at line 153 is then always true.
- The `false` written to the lock at line 61 is never seen by another
  step. The same step either locks the user again (line 54) or deletes the
  entry (line 65).

`processUserMessage` (lines 28-41) is represented only by how its awaited
call settles: `Completed` or `Failed`. Every outcome is allowed everywhere.
As written, line 39 reads `chunk`, which is declared nowhere in the file: it
appears only in the commented-out loop at lines 33-38.
Every call therefore rejects after the assistant has been asked, and each
message produces one error-log line. The all-`Failed` run is one case the
model covers (`Registry.FailureOnlyLogs`, `Scenarios.OneUserBurst`).

## Model

| member | source | states |
|---|---|---|
| Registry.InitInv | src/app.ts:21-22 | With both tables empty and nothing submitted, the scheduler invariant holds. |
| Registry.EnqueueSpec | src/app.ts:145-150 | The push creates the user's queue when absent (it then holds only the new task) and otherwise appends at the tail. It records the submission and leaves every other user's queue, all locks, tasks in flight, processed history and error log unchanged. |
| Registry.SubmitAppends | src/app.ts:145-155 | For a user with an entry, the test at line 153 fails: the task is only appended and the invariant is kept. |
| Registry.SubmitStarts | src/app.ts:145-155 | For a user with no entry, the queue is created holding only the new task and `handleQueue` is called on an unlocked user with no loop running. |
| Registry.SubmitSpec | src/app.ts:143-155 | A submission keeps the invariant. It starts a drain if and only if the user had no entry, and so never while a task of that user is in flight: at most one loop per user. Started: the new task is in flight at once, under the lock, with an empty queue. Otherwise the task joins the tail and locks and tasks in flight are unchanged. The submission history grows by the task; nothing is processed or logged, and other users' entries do not change. |
| Registry.HandleQueueSpec | src/app.ts:46-55 | Called on a user just given a first task, `handleQueue` leaves at most one loop running, with the head of the queue in flight, under the lock, and the rest queued. The invariant holds again. |
| Registry.NextTaskSpec | src/app.ts:53-66 | The loop test with tasks queued locks the user and takes the head in flight, leaving the tail queued. With none, it ends the loop and deletes the user's queue, lock and in-flight task. Either way no other user's entries change and the invariant holds. |
| Registry.NextTaskFrame | src/app.ts:53-66 | The loop test leaves every other user's queue and lock unchanged. |
| Registry.ReleaseSpec | src/app.ts:56-62 | After the catch and the `finally`, the loop is still running with the lock released and nothing in flight. The processed history has grown by exactly the settled task, and the error log by the user exactly when the task failed. |
| Registry.EndTaskShifts | src/app.ts:53-63 | One resumption adds the settled task to the processed history. It then takes the head of the queue in flight, or, with the queue empty, leaves nothing in flight and no entry. |
| Registry.EndTaskStep | src/app.ts:53-66 | A resumption keeps the invariant, whatever the outcome. The settled task is processed, a failure adds exactly one error-log line naming the user, and the loop continues with the head of the queue. With the queue empty, exactly the user's queue, lock and in-flight entries are deleted. Other users' entries and submitted and processed histories are untouched. |
| Registry.FailureOnlyLogs | src/app.ts:56-62 | A failed task leads to the same state and the same next task as a completed one, except for one extra error-log line. A completed one logs nothing. |
| Registry.ResubmitAfterCleanup | src/app.ts:145-155 | Once the loop has deleted a user's entries, the user's next submission creates a fresh queue and starts a new loop, which takes that task under the lock. |
| Registry.RunInv | src/app.ts:46-67 | Every interleaving of submissions and resumptions, for any users, leaves the invariant holding. |
| Registry.SubmittedIsArrivals | src/app.ts:143-150 | After any interleaving, the submission history of every user is exactly that user's messages in the order they arrived. |
| Registry.FifoPerUser | src/app.ts:46-67 | After any interleaving, for every user: processed tasks, then the one in flight, then the queued ones are exactly the user's messages in arrival order, so nothing is reordered, dropped or duplicated. At most one loop runs. The user has an entry exactly while a task is in flight, and its lock is then set. |
| Registry.LoopPass | src/app.ts:53-63 | One pass of the loop from its test, then the remaining resumptions, equals the remaining resumptions from the next test. |
| Registry.DrainKeepsInv | src/app.ts:53-66 | Any number of consecutive resumptions of a user's loop keeps the invariant. |
| Registry.DrainTakesQueue | src/app.ts:53-55 | Resumed once for the task in flight and once per queued task, the loop takes up exactly the queued tasks, in queue order. |
| Registry.DrainProcessesAll | src/app.ts:53-63 | After those resumptions, the processed history has grown by the task that was in flight followed by every queued task, in order. |
| Registry.DrainDeletesEntries | src/app.ts:65-66 | After those resumptions, the queue, lock and in-flight tables are the old ones with exactly the user's entry removed. |
| Registry.DrainCompletes | src/app.ts:53-66 | Whatever each outcome, a running loop that is resumed as many times as it has tasks works through the whole queue in order. Everything ever submitted for the user ends up processed, and exactly the user's entries are deleted. |
| Registry.DrainLogs | src/app.ts:56-62 | Over a whole drain, the error log grows by one line naming the user per failed task, in order, and by nothing else. |
| Registry.DrainKeepsOthers | src/app.ts:53-66 | A drain for one user leaves every other user's submitted and processed histories unchanged. |
| Registry.RunAlone | src/app.ts:46-67 | `handleQueue` called on a user just given a first task and run to its return with nothing interleaved restores the invariant. Every task submitted for the user is processed and one line is logged per failure. Exactly the user's queue and lock entries are removed, and no other user's history changes. |
| Registry.FirstMessageAlone | src/app.ts:141-156 | The welcome action for a user with no entry, awaited to its end: the new queue holds only the message and a drain starts. Afterwards the message is processed, one line is logged exactly when it failed, the tables are as before, and other users' histories are unchanged. |
| App.Scheduler.constructor | src/app.ts:21-22 | Both tables and the error log start empty, and the invariant holds. |
| App.Scheduler.Enqueue | src/app.ts:143-150 | The new state is the push step of the model. The user's queue is the old queue (empty if absent) followed by the task. |
| App.Scheduler.TakeHead | src/app.ts:54-55 | Locks the user and removes the head of its queue, returning it as the task in flight. |
| App.Scheduler.DeleteEntries | src/app.ts:65-66 | On an empty queue, deletes the user's lock and queue entries and ends the loop. |
| App.Scheduler.NextTask | src/app.ts:53-66 | Matches the model's loop test: take the head under the lock, or delete both entries. |
| App.Scheduler.Release | src/app.ts:56-62 | Logs a failure, releases the lock and records the settled task as processed. |
| App.Scheduler.HandleQueue | src/app.ts:46-55 | Matches the model's `handleQueue` up to its first `await`. When the user is locked, it returns at once and changes nothing. |
| App.Scheduler.Submit | src/app.ts:143-155 | Keeps `Valid()` and matches the model's Submit step. Reports a started drain if and only if the user had no entry. With a drain, the task is in flight and the queue empty; otherwise the task is appended and locks and tasks in flight are unchanged. Other users' queues and locks are untouched. |
| App.Scheduler.EndTask | src/app.ts:56-66 | Keeps `Valid()` and matches the model's EndTask step. The settled task is processed, and the error log grows by the user exactly on failure. The next task is the old head of the queue; with the queue empty, the user's queue and lock entries are deleted. |
| App.Scheduler.DrainLoop | src/app.ts:53-66 | The `while` loop with its deletes, the awaited calls settling as given, leads to the state of the model's resumptions. It returns the old queue, in order, as the tasks it took. |
| App.Scheduler.RunQueue | src/app.ts:46-67 | `handleQueue` run to its return with nothing interleaved keeps `Valid()`. It takes the whole queue in order and leaves every submitted task of the user processed. It logs one line per failure and removes exactly the user's queue and lock entries. Other users' histories are unchanged. |
| App.Scheduler.Welcome | src/app.ts:141-156 | The welcome action awaited to its end, with nothing interleaved. A user's first message is taken and processed at once: the error log gains the user exactly when the call fails, other users' histories are unchanged, and the tables are left as they were. A message for a user with an entry is only queued. |
| Scenarios.OneUserBurst | src/app.ts:143-155 | Three messages of one user arriving while the first is processed: only the first starts a drain. The loop then takes the second and third in arrival order and ends. Each failure is logged once, and the user's entries are gone. |
| Scenarios.TwoUsers | src/app.ts:143-155 | A second user's first message starts its own drain while the first user is busy. The first user's next message is only queued and later taken by the first user's loop, while the second user stays locked. |
| Scenarios.ResubmitAfterCleanup | src/app.ts:65-66 | After the loop has deleted a user's entries, the user's next message starts a new drain. |
| Scenarios.OneAtATime | src/app.ts:141-156 | Two messages of one user, each awaited to its end, are each processed by their own drain whatever the outcome, and no entry is left behind. |

## Left out

- `voiceNoteFlow` (lines 73-116) and `noteToVoiceFlow` (lines 118-134) do not go through the scheduler.
- The internals of `processUserMessage` (lines 28-41) are out of scope: the typing indicator, the assistant call, text cleanup and sending. Only how its awaited call settles (`Completed` or `Failed`) is modelled, as a parameter.
- `main` (lines 163-197), the environment constants (lines 13-20) and the `builderbot` flow engine are left out. The engine decides when the welcome action runs for an inbound message; in the model that is the caller of `Submit`.
- Real time, the presence helpers in `src/utils/presence` and the OpenAI client are not modelled. The order in which awaited calls settle is arbitrary: an interleaving is any sequence of Submit and EndTask steps, and any user with a task in flight may settle next.
- The text logged at line 59 and the caught error value are left out. The error log records only the user id of each logged line.
- User ids, message bodies and the `flowDynamic`/`state`/`provider` handles are opaque values. The scheduler only compares user ids for equality and never looks inside the rest.
- The local `queue` at lines 47 and 149 is the same array as the table entry. The model reads and writes the table entry directly.
- `App.Scheduler.RunQueue`, `App.Scheduler.DrainLoop` and `App.Scheduler.Welcome` describe a run in which no other step interleaves; interleaved runs are covered by `Submit`, `EndTask` and `Registry.FifoPerUser`.
