# qor job queue — a Dafny model

qor keeps one job queue per name in a Redis store. The keys of a queue
named `<queue>` are:

- the `q:<queue>:ready` list of ids waiting to be worked, oldest first;
- the `q:<queue>:working` set of ids handed to a worker;
- the `q:<queue>:finished` list of completed or failed ids waiting to be purged;
- one hash `q:<queue>:j:<id>` per job record;
- the counters `lastid`, `worked`, `completed` and `failed`.

The `Queue` class of `qor/queue.py` works on these keys:

- `addjob` issues the next id, writes a ready record and appends the id to
  the ready list.
- `nextjob` pops the ready list until it meets a job that has a record and
  has not expired. On the way it deletes the expired records and skips the
  ids without a record. It then moves that job to working, counts it in
  `worked` and stamps its start time.
- `finishjob` moves a working job to the finished list with a final state, a
  finish time and a message, and counts it as completed or failed.
- `nextjobpurge` pops the finished list until an id still has a record, and
  returns that record.
- `jobdata`, `size`, `purgesize` and `stats` are read-only queries.
- `_jobexists` and `_deletejob` test for and delete one record.

The model is the Dafny class `QueueEngine.Queue` (`queue.dfy`):

- The store becomes its fields:
  - `ready` and `finished` as `seq<int>`;
  - `working` as `set<int>`;
  - the records as `jobs: map<int, Job>`;
  - the four counters as `nat`.
- Each method is one atomic step. In the source only the pipelines (lines
  80-94, 135-153 and 162-182) and single Redis commands are atomic; the
  windows this leaves between concurrent clients are listed under
  "## Left out".
- The clock is the `now` parameter.

The class invariant `Valid()` (`QueueEngine.QueueInv`) states:

- Every id in the keys was issued, i.e. lies in `1..lastid`.
- The ready list is in increasing id order.
- The finished list has no repetition.
- No id is in more than one of ready, working and finished.
- A record is in the ready or working state exactly when its id is in the
  ready list or the working set.
- A record whose id is in the finished list is completed or failed.
- Each record's timestamps agree with its state.
- `worked` equals the size of the working set plus `completed` plus `failed`.

`AddJob`, `NextJob`, `FinishJob` and `NextJobPurge` require and keep this
invariant, and `DeleteJob` keeps it when the queue was valid before. Each of
these methods' postconditions gives its whole new state in terms of the old
one. `PopDequeuable` is only the loop half of `NextJob` (`qor/queue.py:116-131`):
it leaves popped ids whose records are still in the ready state, and the rest
of `NextJob` restores the invariant.

The other files:

- `jobs.dfy`:
  - the job record;
  - the expiry rule;
  - the two head-of-list scans, `FirstDequeuable` for `nextjob` and
    `FirstRecorded` for `nextjobpurge`. These say where each loop stops.
- `ids.dfy`: facts about lists of distinct ids and about the ids a counter
  has issued.
- `scenarios.dfy`: short runs of a fresh queue derived from the contracts
  alone, such as the full life of one job and an expired job being dropped.

Two behaviours of the code that the model keeps as they are:

- **Purge keeps the record.** `nextjobpurge` pops the id from the finished
  list and returns the record, but does not delete it
  (`qor/queue.py:186-202`). The record stays in the store, and `jobdata`
  still answers it.
- **Negative expiry times expire at once.** Only an `expiretime` of 0
  disables expiry (`qor/queue.py:77`). A negative value gives a job whose
  expiry time precedes its creation, so it has already expired when it is
  created and `nextjob` deletes it.

## Model

| member | source | states |
|---|---|---|
| Jobs.NewJob | qor/queue.py:73-90 | the record `addjob` writes is in the ready state, holds the payload, was created at `now`, has no start or finish time, and has an empty worker and message |
| Jobs.NewJobExpiry | qor/queue.py:75-78 | a new job is expired at `now` exactly when `expiretime` is not 0 and `created + expiretime <= now`; with a negative `expiretime` it is expired at its own creation time |
| Jobs.FirstDequeuable | qor/queue.py:116-131 | where the `nextjob` loop stops: no id before position k has an unexpired record, and the id at k, if any, has one |
| Jobs.PopsDeleteOnlyExpired | qor/queue.py:122-128 | popping the ids before the accepted one deletes only records that had expired and whose ids were among those popped; the accepted job's record survives unchanged |
| Jobs.FirstRecorded | qor/queue.py:191-200 | where the `nextjobpurge` loop stops: no id before position k has a record, and the id at k, if any, has one |
| QueueEngine.ExhaustedKeepsInv | qor/queue.py:116-134 | a `nextjob` that finds no dequeuable job empties the ready list, deletes the expired records and keeps the queue invariant |
| QueueEngine.AcceptKeepsInv | qor/queue.py:116-153 | a `nextjob` that accepts the first dequeuable job keeps the queue invariant; the accepted job's record survives the pops unchanged, and only larger ids stay behind it in the ready list |
| QueueEngine.AcceptKeepsIssued | qor/queue.py:135-152 | accepting a job keeps every id within the issued range |
| QueueEngine.AcceptKeepsOnePosition | qor/queue.py:135-138 | moving the accepted id from the ready list to the working set keeps each id in at most one collection and keeps the ready list increasing |
| QueueEngine.AcceptKeepsStateMirrors | qor/queue.py:135-152 | after acceptance, the ready and working record states still match the ready list and the working set |
| QueueEngine.FinishKeepsInv | qor/queue.py:161-182 | moving a working job to the finished list with a final state keeps the queue invariant, including `worked == working + completed + failed` |
| QueueEngine.Queue.constructor | qor/queue.py:8-12 | a new queue has no ids, no records and all counters at 0, and satisfies the invariant |
| QueueEngine.Queue.JobExists | qor/queue.py:30-33 | true exactly when the id has a record; on a valid queue only an issued id (`1..lastid`) can have one, so an id beyond the counter never does |
| QueueEngine.Queue.JobData | qor/queue.py:99-109 | returns the record exactly when it exists; on a valid queue that record's id was issued, its timestamps match its state, and its state says whether the id is in the ready list or the working set |
| QueueEngine.Queue.Size | qor/queue.py:38-40 | the length of the ready list, which equals the number of distinct ids in it |
| QueueEngine.Queue.PurgeSize | qor/queue.py:42-44 | the length of the finished list, which equals the number of distinct ids in it |
| QueueEngine.Queue.Stats | qor/queue.py:46-61 | reports the three sizes and the three counters; `worked == working + completed + failed`, and `ready + working + purge <= lastid` |
| QueueEngine.Queue.AddJob | qor/queue.py:63-97 | issues `lastid + 1`, an id never used before and larger than every waiting id; stores the new ready record and appends the id to the ready list; keeps the invariant |
| QueueEngine.Queue.DeleteJob | qor/queue.py:24-28 | removes exactly the record of the id, reports whether there was one, and keeps the invariant |
| QueueEngine.Queue.PopDequeuable | qor/queue.py:116-131 | the `nextjob` loop, called only from `NextJob`, which restores the invariant after it: pops exactly the ids before the first dequeuable job and returns that job, or empties the list and returns none; deletes the records of exactly the popped ids, which are the expired or missing ones |
| QueueEngine.Queue.NextJob | qor/queue.py:111-155 | with no dequeuable job: the ready list ends empty, only expired records are deleted, and working and `worked` are unchanged; otherwise: returns the first dequeuable id, drops it and the ids before it from ready, adds it to working, adds 1 to `worked` and marks its record working from `now`; only expired records are deleted; the ids left in ready are all larger (FIFO); keeps the invariant |
| QueueEngine.Queue.FinishJob | qor/queue.py:157-184 | succeeds exactly when the id has a record and is working; on failure nothing changes; on success the id moves from working to the tail of finished, exactly one of `completed`/`failed` is incremented, and the record gets its final state, finish time and message; a finished id is no longer working, so a second call fails; keeps the invariant |
| QueueEngine.Queue.NextJobPurge | qor/queue.py:186-202 | pops the finished list up to and including the first id with a record and returns that record, which is completed or failed; with none left the list ends empty and the result is none; records, counters, ready and working are unchanged |
| Scenarios.FreshStats | qor/queue.py:46-61 | a fresh queue reports 0 for every figure |
| Scenarios.AddOne | qor/queue.py:63-97 | the first job added to a fresh queue gets id 1 and is the only job in the ready list |
| Scenarios.TakeOne | qor/queue.py:111-155 | that job is then taken: it moves to working, with `worked` at 1 |
| Scenarios.CompleteOne | qor/queue.py:157-182 | that job is then completed: it is in the finished list with its completed record |
| Scenarios.CompletedOnce | qor/queue.py:157-184 | after one job is completed, finishing it again fails, and the stats are ready 0, working 0, worked 1, failed 0, completed 1, purge 1 |
| Scenarios.PurgeAfterCompletion | qor/queue.py:186-202 | purging the completed job returns its final record (payload, message, completed state, creation, start and finish times), and a second purge finds nothing |
| Scenarios.FinishUnknownRefused | qor/queue.py:157-184 | while one job is working, `finishjob` on an id never issued is refused and every figure of `stats` stays as it was |
| Scenarios.DeleteFirstAddSecond | qor/queue.py:24-28 | after the first job is completed its record is deleted, and a second job added at 103 gets id 2 and waits alone in the ready list |
| Scenarios.TakeSecond | qor/queue.py:111-155 | the second job is taken: it is the only working job, and the first id still waits in finished without a record |
| Scenarios.CompleteSecond | qor/queue.py:157-182 | the second job is completed and queued in finished behind the id without a record |
| Scenarios.PurgeSkipsDeleted | qor/queue.py:191-200 | the purge skips the finished id whose record was deleted, returns the completed record of the job behind it, and leaves the finished list empty |
| Scenarios.ExpiredJobIsDropped | qor/queue.py:116-134 | a job with a one-second expiry asked for two seconds later is not returned; its record is deleted and `worked` stays 0 |

## Left out

- The Redis connection and pool (`qor/queue.py:8-10`) and the queue name (`qor/queue.py:11-12`). One `Queue` object stands for one queue's keys.
- QueueEngine.Queue.constructor: stands only for a queue name none of whose keys exist yet. The source's `__init__` reads nothing from the store, so a `Queue` on a name whose keys already exist starts from their contents. The model takes any such starting point to be a `Valid()` state that the operations reach from the empty one.
- The key formatting of `_jkey` (`qor/queue.py:20-22`). Records are indexed by integer id.
- The JSON `_encode`/`_decode` codec (`qor/queue.py:14-18`) and the parsing of stored timestamps back into integers or None (`qor/queue.py:105-107`). The payload is a string in its encoded form, and timestamps are `Option<int>`.
- The wall clock `_timenow` (`qor/queue.py:35-36`). Each operation takes one `now`. The source's `nextjob` reads the clock once for every popped record that has an expiry (line 126, inside the loop) and once more for the start time (line 144). The model evaluates every expiry check and the start time at the single `now`, so time does not advance within one call.
- Store outages, and `addjob` answering False when its pipeline reports failure (`qor/queue.py:94-97`). Each pipeline is one atomic step that succeeds.
- Concurrency between clients. Each method is one atomic step, but in the source several steps run outside a pipeline, and concurrent clients can interleave there. The invariant `Valid()` does not hold under these interleavings:
  - `addjob` takes its id with `incr` (line 67) before its pipeline (lines 80-94). Two concurrent calls can push their ids onto ready in the opposite order, which breaks `Increasing(ready)`.
  - `finishjob` checks existence and membership (line 161) before its pipeline (lines 162-182). Two concurrent calls on the same working id can both pass the check. The id is then pushed onto finished twice, which breaks `Distinct(finished)`. `completed` or `failed` also goes up by 2 for one job, which breaks `worked == |working| + completed + failed`.
  - `nextjob` pops and reads records (lines 116-131) before its pipeline (lines 135-153). A client that stops between the pop and the pipeline loses the job: its id is in no collection while its record stays in the ready state, which breaks the ready-state mirror.
  - `jobdata` tests existence (line 103) before `hgetall` (line 104). A record deleted in between is read as empty, and the lookup of `data` at line 105 fails.
- The default arguments `addjob(data=[], expiretime=0)` (line 63) and `finishjob(successful=True, message='')` (line 157). The model's `AddJob` and `FinishJob` take every argument explicitly; a call with the defaults is `AddJob(<encoded []>, 0, now)` or `FinishJob(id, true, "", now)`.
- An `expiretime` that is not an integer. Lines 77-78 accept any truthy number, so a fractional `expiretime` stores an expiry such as `1234.5`. `jobdata`'s `int(...)` at line 107 then raises an error, after `nextjob`'s `lpop` at line 117 has already removed the id from ready. The job is lost from ready, and its record stays in the ready state. The model's `expiretime` is an `int` and cannot express this.
- Redis counters are signed 64-bit integers, and `incr` (lines 67, 141 and 174) fails once a counter would pass 2^63 - 1. The model's `lastid`, `worked`, `completed` and `failed` are unbounded `nat`s, so it has no overflow failure.
- QueueEngine.Queue.FinishJob: returns `true` on success, where the source returns `pipe.execute()` (`qor/queue.py:182`), the list of the pipeline's replies, which callers only test for truthiness.
- QueueEngine.Queue.DeleteJob: returns a bool for whether a record existed, rather than Redis's count of deleted keys.
- QueueEngine.Queue.Stats: counters that were never written read as 0 in the source (`qor/queue.py:57-59`). The model keeps the counters as `nat` fields that start at 0, so the None-to-0 loop has no counterpart.
- QueueEngine.Queue.NextJob: the source tests `if jobid` for truthiness (`qor/queue.py:134`). This agrees with testing for a returned id because ids start at 1.
- The `worker` field is carried but never set, as in the source.
- The `__main__` demo and its prints (`qor/queue.py:204-242`).
