# Verified model of four POSIX-threads demonstrations

This project models the sequential logic inside four of the repository's
POSIX-threads programs and proves what that logic promises:

- **crew.c**: a crew of worker threads searches a directory tree for a
  string. A work queue (`first`/`last`) and `work_count` (items queued or
  being processed) decide when a run is over. The model is the class
  `Crew.Crew`. The file system is a map from path to what `lstat`,
  `opendir`/`readdir_r` and `fopen`/`fgets` would report for it. Each
  worker's position in `worker_routine` is a field. Ghost bookkeeping
  (`issued`, `retired`, `dropped`) proves `work_count == |queue| +
  in-flight + |dropped|`. Here `dropped` holds the items a worker skipped
  with the `continue` after a failed open (see Findings). It also proves
  that the count reaches zero only once every item reachable from the
  root has been processed.
- **alarm_mutex.c** and **alarm_cond.c**: an alarm list kept sorted by
  expiry time. Both programs share the stable sorted insert
  (`AlarmList`). The classes `AlarmMutex.AlarmMutexServer` and
  `AlarmCond.AlarmCondServer` hold the list, the alarm thread's phase and
  the reported alarms. alarm_cond.c also keeps its `current_time` signal
  hint.
- **pipe.c**: a chain of stages, each with a one-slot buffer. Each
  non-tail stage's thread forwards `data + 1`, and the pipeline's
  `activity` counter tracks outstanding inputs. The model is the classes
  `Pipe.Stage` and `Pipe.Pipeline`. A ghost `chain` of stage objects and
  a ghost `slots` view prove that an input comes out of an n-stage
  pipeline as `input + n - 1`, in first-in first-out order.

Concurrency is modelled by guarded atomic steps:

- Every region a mutex protects is one method, with four exceptions
  listed under "## Left out": `Crew.Crew.Process` and
  `AlarmCond.AlarmCondServer.BeginIteration`, and `Pipe.Pipeline.Start`
  and `Pipe.Pipeline.Result`, which each join the `pipe->mutex` region
  with a stage's region.
- A thread blocked on a condition variable takes no step, so the wait
  condition becomes the step's precondition.
- Clocks (`now`), timeouts (`timedOut`) and signal failures
  (`signalStatus`) are method parameters.

Where the code and its documented intent differ, the model follows the
code:

- In crew.c the worker that brings `work_count` to zero leaves its loop
  (crew.c:250-259). The pool therefore shrinks by one worker per run
  rather than being reused. `main` performs a single run, so this is
  modelled as written (`Crew.Crew.Finish`).
- `create_crew` starts `CREW_SIZE` threads whatever `crew_size` is, and
  puts no lower bound on `crew_size` (crew.c:276-304). This is modelled as
  written (`Crew.Crew.Create`).

## Model

| member | source | states |
|---|---|---|
| AlarmList.NewAlarm | alarm_mutex.c:108 | a new alarm is due `seconds` after `now` and keeps its seconds and message |
| AlarmList.InsertPos | alarm_cond.c:31-39 | the walk stops at the first alarm due strictly later than the new one, or at the end, and every alarm before it is due no later |
| AlarmList.InsertPosUnique | alarm_cond.c:31-39 | those facts determine the stopping point uniquely |
| AlarmList.Insert | alarm_cond.c:42-45 | insertion adds exactly one element, and inserting into an empty list gives the one-element list |
| AlarmList.InsertSplices | alarm_cond.c:31-45 | the new alarm sits at the stopping point, and unlinking it gives back the old list, so the other alarms keep their relative order |
| AlarmList.InsertIsPermutation | alarm_cond.c:31-45 | insertion adds exactly the new alarm: as multisets, new list = old list + {alarm} |
| AlarmList.InsertKeepsSorted | alarm_mutex.c:113-129 | inserting into a list sorted by non-decreasing time gives a sorted list |
| AlarmList.InsertIsStable | alarm_mutex.c:115-123 | in a sorted list the new alarm goes after exactly the alarms due at or before its time (both directions) |
| AlarmList.EqualTimesKeepArrivalOrder | alarm_cond.c:32-38 | of two alarms with equal times, the one inserted second lands immediately after the first |
| AlarmList.FindLink | alarm_mutex.c:113-123 | the pointer walk returns exactly the stopping point `InsertPos` |
| AlarmList.TailKeepsSorted | alarm_mutex.c:37 | unlinking the head of a sorted list leaves it sorted |
| AlarmMutex.SleepTime | alarm_mutex.c:43-47 | the sleep time is never negative; the thread wakes no earlier than the alarm is due, and does not sleep at all for an alarm already due |
| AlarmMutex.AlarmMutexServer.constructor | alarm_mutex.c:16 | the program starts with an empty list and nothing reported |
| AlarmMutex.AlarmMutexServer.Request | alarm_mutex.c:103-129 | the list becomes the stable sorted insert of the alarm `now + seconds`, stays sorted, and records one more requested alarm |
| AlarmMutex.AlarmMutexServer.TakeHead | alarm_mutex.c:32-47 | with an empty list the sleep time is 1 and nothing is removed; otherwise the head is removed and held, and the sleep time is `SleepTime(head.time, now)` |
| AlarmMutex.AlarmMutexServer.WakeUp | alarm_mutex.c:59-68 | after the sleep the removed alarm, if any, is appended to the reported alarms exactly once, and the list is untouched |
| AlarmMutex.AllRequestedReported | alarm_mutex.c:27-68 | once the list is empty and the thread holds nothing, the reported alarms are exactly the requested ones, counted with multiplicity |
| AlarmCond.AlarmCondServer.constructor | alarm_cond.c:17-20 | the program starts with an empty list and `current_time == 0` |
| AlarmCond.AlarmCondServer.InsertAlarm | alarm_cond.c:23-62 | stable sorted insert, permutation, and: signals and sets `current_time` to the alarm's time iff `current_time == 0 \|\| current_time > alarm.time`, otherwise `current_time` is unchanged |
| AlarmCond.AlarmCondServer.Request | alarm_cond.c:166-174 | the alarm `now + seconds` is inserted under the signal rule, and one more alarm is requested |
| AlarmCond.AlarmCondServer.BeginIteration | alarm_cond.c:78-85 | each iteration resets `current_time` to 0 and then waits for a non-empty list |
| AlarmCond.AlarmCondServer.TakeHead | alarm_cond.c:87-119 | the head is removed; an alarm due at or before `now` is reported at once, a later one is held and its time becomes `current_time` |
| AlarmCond.AlarmCondServer.Wake | alarm_cond.c:97-115 | on a timeout the held alarm is reported; on a wake-up with `current_time` unchanged the thread waits again; otherwise the held alarm is reinserted, so none is lost, and `current_time` follows the signal rule of insert_alarm |
| Crew.ScanFile | crew.c:204-222 | stops at the first chunk containing the search string (so at most one match per file); with no match no chunk contains it, and a read error is reported iff reading fails |
| Crew.ChildPath | crew.c:155-157 | a child path is the parent path, "/", and the entry name |
| Crew.ChildPathSplits | crew.c:155-157 | the parent path and the entry name can be read back from the child path |
| Crew.ChildItemsAreEntries | crew.c:142-159 | an item is created for an entry iff the entry is neither "." nor "..", with path parent + "/" + name and the parent's search string |
| Crew.ClosedHoldsWalks | crew.c:121-185 | a set of items that holds the root and all children of its members holds everything reachable from the root |
| Crew.Crew.Create | crew.c:272-307 | `crew_size > CREW_SIZE` gives EINVAL and changes nothing; otherwise count 0, an empty queue and `CREW_SIZE` waiting workers |
| Crew.Crew.Enqueue | crew.c:167-173 | the item is appended at the tail and the count grows by exactly one |
| Crew.Crew.Start | crew.c:319-384 | with the count at zero the root is queued and the count becomes 1; if signalling fails, the queue is emptied and the count reset to 0, and that status is returned |
| Crew.Crew.AwaitDone | crew.c:386-398 | once the count is 0, crew_start returns 0; by then nothing is queued, held or dropped, and every item reachable from the root has been released |
| Crew.Crew.Begin | crew.c:58-75 | a worker enters its loop only once the count is non-zero |
| Crew.Crew.Dequeue | crew.c:91-104 | the worker takes the head of a non-empty queue and the rest stays queued; the count is unchanged |
| Crew.Crew.Process | crew.c:111-236 | a symlink is skipped, an openable directory queues and counts its children, an openable regular file is scanned, other kinds are reported by type; the outcome matches what the path names; after a failed `opendir`/`fopen` the worker is headed for the `continue` (`Dropping`), after any other outcome for the decrement (`Finishing`) |
| Crew.Crew.Expand | crew.c:131-185 | the readdir loop queues and counts one item per non-dot entry, in listing order, before the directory item is released |
| Crew.Crew.Finish | crew.c:242-265 | enabled only for a worker whose item was not a failed open: the count drops by one and the item is released; the worker leaves its loop iff the count reaches 0, and otherwise goes back for work |
| Crew.Crew.Abandon | crew.c:125-129 | the `continue`, enabled only after a failed open: the worker takes new work without decrementing, and the item stays counted |
| Crew.Crew.FallThrough | crew.c:242-248 | the corrected control flow: after a failed open the worker proceeds to the decrement instead of the `continue`, with the count unchanged so far |
| Crew.DroppedItemBlocksDone | crew.c:126-129 | while any item has been dropped, the count stays above zero |
| Crew.StartSearch | crew.c:412-417 | main's `create_crew(CREW_SIZE)` and `crew_start` up to the final wait: CREW_SIZE workers not yet started, the root queued and the count 1 |
| Crew.UnopenableRootAsWritten | crew.c:125-129 | for a root directory that cannot be opened, processing leaves the worker `Dropping`, where the decrement is not enabled; after the `continue` the count is 1 with nothing queued and nothing held, so no step can lower it and crew_start never returns |
| Crew.UnopenableRootCorrected | crew.c:242-260 | with the failed open falling through to the decrement, the same run ends: the worker exits and crew_start returns 0 |
| Pipe.Stage.constructor | pipe.c:137-138 | a new stage has an empty buffer holding 0 |
| Pipe.Stage.Send | pipe.c:47-58 | data is stored only into an empty buffer, which is then marked full |
| Pipe.Pipeline.Create | pipe.c:104-157 | `stages` stages, linked in order, with empty buffers, the tail's link null, `activity == 0`, no input outstanding; `stages >= 1` is required |
| Pipe.Pipeline.LinkStages | pipe.c:117-145 | the allocation loop builds exactly `stages` fresh stages linked head to tail, each empty, and the last one ends the chain as the tail |
| Pipe.Pipeline.StartThreads | pipe.c:148-154 | exactly the non-tail stages get a thread; no buffer changes |
| Pipe.Pipeline.Start | pipe.c:159-177 | `activity` grows by exactly one and the input joins the end of the outstanding inputs, in the head buffer |
| Pipe.Pipeline.Forward | pipe.c:84-97 | a stage passes its value plus one into the empty next buffer, then empties its own buffer; the order of outstanding inputs is unchanged |
| Pipe.Pipeline.Result | pipe.c:181-235 | with `activity <= 0` it returns 0 and changes nothing; otherwise `activity` drops by one, it returns the tail's data, which is the oldest input plus `stages - 1`, and it empties the tail buffer and no other |
| Pipe.PendingShift | pipe.c:92-95 | moving a value to the next stage neither overtakes nor falls behind another input |
| Pipe.PendingPop | pipe.c:222-225 | the tail holds the oldest outstanding input |
| Pipe.ToInt32 | pipe.c:37 | passing a `long` to an `int` parameter gives the value modulo 2^32, read as signed, and is the identity within range |
| Pipe.TailValueAsWritten | pipe.c:37 | the tail value with every send (pipe.c:92, pipe.c:174) narrowed to `int`: always within `int` range, and congruent modulo 2^32 to the intended `input + n - 1` |
| Pipe.NarrowingHarmlessInRange | pipe.c:92 | while all values fit in an `int`, the tail of an n-stage pipeline holds `input + n - 1` |
| Pipe.NarrowingWrapsLargeInputs | pipe.c:37 | with `int data`, input 3000000000 comes out of the five-stage pipeline as -1294967292 instead of 3000000004 |
| Pipe.FiveStageRun | pipe.c:243 | main's five-stage pipeline, given x, yields `x + 4` once every stage has forwarded it |

## Left out

- Threads, mutexes and condition variables: each locked region is one atomic step, and waits are preconditions. Fairness, wake-up order, spurious wake-ups beyond those `Wake` models, and the failure of any pthread call (including `pthread_create` and the mutex-lock failure returned by `crew_start`) are not modelled.
- Input and output: `printf`/`fprintf` messages, `fgets` on standard input and `sscanf` parsing in the `main` functions. A well-formed command is a method's parameters, and a malformed one changes nothing.
- Clock and sleeping: `time`, `sleep`, `sched_yield` and `pthread_cond_timedwait` become the parameters `now` and `timedOut`.
- Memory: `malloc`/`free` are object creation and dropping, and allocation failure (which aborts) is not modelled.
- Path and name buffers: paths are unbounded strings. The model therefore does not capture that a child path is copied with `strcpy`/`strcat` into `malloc(path_max)` without a length check, so a child path of `path_max` or more characters overflows the buffer (crew.c:151-157).
- Dirent buffer sizing: the model does not capture that each worker sizes its `readdir_r` buffer from the global `name_max` when it starts (crew.c:52-53). `name_max` is zero until `crew_start` sets it (crew.c:38-39, crew.c:339-352), after `create_crew` has started the workers (crew.c:297-304), so a worker that runs first gets a buffer with no room for `d_name`. `pathconf` itself is not modelled.
- Crew.ScanFile: the 256-byte `fgets` buffering is modelled as a given list of chunks. A match spanning two chunks is not found in the model either. The case where `fgets` returns NULL with neither an error nor end of file is not modelled.
- Crew.Crew.Process: a failed `lstat` aborts the process. The model reports `StatFailed` and changes nothing.
- Crew.Crew.Expand: a `readdir_r` error ends the listing, as a failing directory's shorter `names`. `closedir`/`fclose` failures only print.
- Crew.Crew.Process: it is one atomic step covering the unlocked `lstat`/`opendir`/`readdir_r`/`fgets` work and every per-child enqueue (crew.c:111-236), which are separate locked regions in the source. The model does not capture other workers' steps interleaving within one item's processing.
- AlarmCond.AlarmCondServer.BeginIteration: together with `TakeHead` it splits the single locked region alarm_cond.c:73-121. When the list is already non-empty, a `Request` can therefore run between the two in the model, which the source excludes. The model admits more interleavings than the source, not fewer.
- Pipe.Pipeline.Start: `pipe_start` increments `activity` under `pipe->mutex` (pipe.c:162-172) and then sends under the head stage's mutex (pipe.c:41-67). The model does both in one step, requiring an empty head buffer, so it does not capture a `pipe_result` running between the increment and the send.
- Pipe.Pipeline.Result: the decrement of `activity` under `pipe->mutex` (pipe.c:187-202) and the wait for the tail under the tail stage's mutex (pipe.c:209-232) are one step, requiring a full tail whenever `activity > 0`, so it does not capture a `pipe_start` running between them.
- Integer widths: `time_t`, `int` and `long` are unbounded in the model, apart from the `int` narrowing in pipe.c recorded under Findings. `long` overflow of `data + 1` is not modelled.
- The alarm message's 64-character limit and the list's nodes as heap objects: the list is a sequence of alarm values.

## Findings

| source | as written | input that shows it | evidently intended | confidence | as-written member | corrected member |
|---|---|---|---|---|---|---|
| crew.c:126-129, crew.c:199-202 | when `opendir` or `fopen` fails, the worker `continue`s past the decrement of `work_count` | a root path naming a directory that cannot be opened: the count stays 1 with nothing queued or held, so `crew_start` waits forever | release the item (decrement, and signal `done` at zero) after a failed open, like any other item | high (not executed) | Crew.UnopenableRootAsWritten | Crew.UnopenableRootCorrected |
| pipe.c:37, pipe.c:92, pipe.c:174 | `pipe_send` takes `int data` while stages and inputs are `long`, so every send narrows the value | input 3000000000 in main's five-stage pipeline yields -1294967292 | the value is passed as `long`, and the result is input + 4 | high (not executed) | Pipe.NarrowingWrapsLargeInputs | Pipe.FiveStageRun |
