/**
 * The job record a queue keeps per id (the hash `q:<queue>:j:<id>` in the
 * store), its expiry rule, and the two head-of-list scans that `nextjob`
 * and `nextjobpurge` perform.
 */
module Jobs {
  import opened Wrappers
  import opened Ids

  /** The job payload, in the encoded form the queue stores; its codec is not modelled. */
  type Payload = string

  datatype JobState = Ready | Working | Completed | Failed

  /** The fields of a job record; timestamps are whole seconds. */
  datatype Job = Job(
    data: Payload,
    state: JobState,
    createdAt: int,
    startedAt: Option<int>,
    expiresAt: Option<int>,
    finishedAt: Option<int>,
    worker: string,
    message: string)

  /** A job in a final state: waiting in the finished list, or purged from it. */
  predicate Terminal(state: JobState) {
    state == Completed || state == Failed
  }

  /** The timestamps a record carries at each stage of its life. */
  predicate StampsAgree(j: Job) {
    match j.state
    case Ready => j.startedAt.None? && j.finishedAt.None?
    case Working => j.startedAt.Some? && j.finishedAt.None?
    case _ => j.startedAt.Some? && j.finishedAt.Some?
  }

  /** A job has expired once its expiry time is set and not later than `now`. */
  predicate Expired(j: Job, now: int) {
    j.expiresAt.Some? && j.expiresAt.value <= now
  }

  /** The record `addjob` writes for a job created at `now`; only an `expiretime` of 0 disables expiry. */
  function NewJob(data: Payload, now: int, expiretime: int): (j: Job)
    ensures j.state == Ready && j.data == data && j.createdAt == now
    ensures j.startedAt == None && j.finishedAt == None
    ensures j.worker == "" && j.message == ""
  {
    Job(data, Ready, now, None, if expiretime == 0 then None else Some(now + expiretime), None, "", "")
  }

  /**
   * A new job expires `expiretime` seconds after its creation, never when
   * `expiretime` is 0, and at once when `expiretime` is negative.
   */
  lemma NewJobExpiry(data: Payload, created: int, expiretime: int, now: int)
    ensures Expired(NewJob(data, created, expiretime), now)
        <==> expiretime != 0 && created + expiretime <= now
    ensures expiretime < 0 ==> Expired(NewJob(data, created, expiretime), created)
  {
  }

  /** `nextjob` accepts `id` when it has a record that has not expired. */
  predicate Dequeuable(jobs: map<int, Job>, id: int, now: int) {
    id in jobs && !Expired(jobs[id], now)
  }

  /**
   * The position in `ids` of the first dequeuable job, or `|ids|` when there
   * is none: the number of ids `nextjob` pops before it accepts one.
   */
  function FirstDequeuable(ids: seq<int>, jobs: map<int, Job>, now: int): (k: nat)
    ensures k <= |ids|
    ensures forall i :: 0 <= i < k ==> !Dequeuable(jobs, ids[i], now)
    ensures k < |ids| ==> Dequeuable(jobs, ids[k], now)
  {
    if ids == [] then 0
    else if Dequeuable(jobs, ids[0], now) then 0
    else 1 + FirstDequeuable(ids[1..], jobs, now)
  }

  /** The records left once `nextjob` has popped the ids `popped` and deleted the expired ones among them. */
  function AfterPops(jobs: map<int, Job>, popped: seq<int>): (r: map<int, Job>) {
    jobs - Elems(popped)
  }

  /**
   * Popping the ids before the first dequeuable one removes only records that
   * had expired, and keeps the record of that first dequeuable job.
   */
  lemma PopsDeleteOnlyExpired(ids: seq<int>, jobs: map<int, Job>, now: int, k: nat)
    requires k == FirstDequeuable(ids, jobs, now)
    ensures forall id :: id in jobs && id !in AfterPops(jobs, ids[..k]) ==> id in ids[..k] && Expired(jobs[id], now)
    ensures k < |ids| ==> ids[k] in AfterPops(jobs, ids[..k]) && AfterPops(jobs, ids[..k])[ids[k]] == jobs[ids[k]]
  {
    forall id | id in jobs && id !in AfterPops(jobs, ids[..k])
      ensures id in ids[..k] && Expired(jobs[id], now)
    {
      var i :| 0 <= i < k && ids[..k][i] == id;
      assert !Dequeuable(jobs, ids[i], now);
    }
  }

  /**
   * The position in `ids` of the first id that still has a record, or `|ids|`
   * when there is none: the number of ids `nextjobpurge` pops before it
   * returns a record.
   */
  function FirstRecorded(ids: seq<int>, jobs: map<int, Job>): (k: nat)
    ensures k <= |ids|
    ensures forall i :: 0 <= i < k ==> ids[i] !in jobs
    ensures k < |ids| ==> ids[k] in jobs
  {
    if ids == [] then 0
    else if ids[0] in jobs then 0
    else 1 + FirstRecorded(ids[1..], jobs)
  }
}
