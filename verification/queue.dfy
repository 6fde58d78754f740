/**
 * The job queue of qor: a state machine over the keys one queue owns in the
 * store. Each public method is one atomic step; the clock is the `now`
 * parameter.
 */
module QueueEngine {
  import opened Wrappers
  import opened Ids
  import opened Jobs

  /** The answer of `stats`; counters never written read as 0. */
  datatype QueueStats = QueueStats(ready: nat, working: nat, worked: nat, failed: nat, completed: nat, purge: nat)

  /** Every id in the queue's keys was handed out by the counter `lastid`. */
  ghost predicate IdsIssued(ready: seq<int>, working: set<int>, finished: seq<int>, jobs: map<int, Job>, lastid: nat) {
    && (forall i :: 0 <= i < |ready| ==> 1 <= ready[i] <= lastid)
    && (forall id :: id in working ==> 1 <= id <= lastid)
    && (forall i :: 0 <= i < |finished| ==> 1 <= finished[i] <= lastid)
    && (forall id :: id in jobs ==> 1 <= id <= lastid)
  }

  /**
   * The ready list is in id order, the finished list has no repetition, and
   * no id is in more than one of ready, working and finished.
   */
  ghost predicate OnePosition(ready: seq<int>, working: set<int>, finished: seq<int>) {
    && Increasing(ready)
    && Distinct(finished)
    && (forall i :: 0 <= i < |ready| ==> ready[i] !in working && ready[i] !in finished)
    && (forall id :: id in working ==> id !in finished)
  }

  /**
   * A record is in the ready state exactly when its id is in the ready list,
   * in the working state exactly when its id is in the working set, in a
   * final state when its id is in the finished list, and its timestamps
   * agree with its state.
   */
  ghost predicate StateMirrors(ready: seq<int>, working: set<int>, finished: seq<int>, jobs: map<int, Job>) {
    && (forall id :: id in jobs ==> (jobs[id].state == Ready <==> id in ready))
    && (forall id :: id in jobs ==> (jobs[id].state == Working <==> id in working))
    && (forall i :: 0 <= i < |finished| && finished[i] in jobs ==> Terminal(jobs[finished[i]].state))
    && (forall id :: id in jobs ==> StampsAgree(jobs[id]))
  }

  /**
   * The queue invariant over the contents of the keys; in addition to the
   * three above, every job ever taken by `nextjob` is still working or was
   * counted as completed or failed.
   */
  ghost predicate QueueInv(ready: seq<int>, working: set<int>, finished: seq<int>, jobs: map<int, Job>,
                           lastid: nat, worked: nat, completed: nat, failed: nat)
  {
    && IdsIssued(ready, working, finished, jobs, lastid)
    && OnePosition(ready, working, finished)
    && StateMirrors(ready, working, finished, jobs)
    && worked == |working| + completed + failed
  }

  /**
   * `nextjob` on a ready list without a dequeuable job: popping every id and
   * deleting the expired records keeps the invariant.
   */
  lemma ExhaustedKeepsInv(ready: seq<int>, working: set<int>, finished: seq<int>, jobs: map<int, Job>,
                          lastid: nat, worked: nat, completed: nat, failed: nat, now: int)
    requires QueueInv(ready, working, finished, jobs, lastid, worked, completed, failed)
    requires FirstDequeuable(ready, jobs, now) == |ready|
    ensures QueueInv([], working, finished, AfterPops(jobs, ready), lastid, worked, completed, failed)
  {
    var jobs' := AfterPops(jobs, ready);
    forall id | id in jobs'
      ensures jobs'[id].state != Ready
    {
      assert id !in ready;
    }
  }

  /** The record of a job `nextjob` has just taken. */
  function Started(j: Job, now: int): (r: Job) {
    j.(state := Working, startedAt := Some(now))
  }

  /**
   * `nextjob` accepting the job at position `k` of the ready list, the first
   * dequeuable one: dropping the ids before it, deleting the expired records
   * among them and moving the job to working keeps the invariant.
   */
  lemma AcceptKeepsInv(ready: seq<int>, working: set<int>, finished: seq<int>, jobs: map<int, Job>,
                       lastid: nat, worked: nat, completed: nat, failed: nat, now: int, k: nat)
    requires QueueInv(ready, working, finished, jobs, lastid, worked, completed, failed)
    requires k == FirstDequeuable(ready, jobs, now) && k < |ready|
    ensures
      var id := ready[k];
      QueueInv(ready[k + 1..], working + {id}, finished,
               AfterPops(jobs, ready[..k])[id := Started(jobs[id], now)],
               lastid, worked + 1, completed, failed)
    ensures ready[k] in AfterPops(jobs, ready[..k]) && AfterPops(jobs, ready[..k])[ready[k]] == jobs[ready[k]]
    ensures var rest := ready[k + 1..]; forall i :: 0 <= i < |rest| ==> ready[k] < rest[i]
  {
    var id := ready[k];
    PopsDeleteOnlyExpired(ready, jobs, now, k);
    var jobs' := AfterPops(jobs, ready[..k])[id := Started(jobs[id], now)];
    AcceptKeepsIssued(ready, working, finished, jobs, lastid, k, Started(jobs[id], now));
    AcceptKeepsOnePosition(ready, working, finished, k);
    AcceptKeepsStateMirrors(ready, working, finished, jobs, k, now);
    assert |working + {id}| == |working| + 1;
  }

  lemma AcceptKeepsIssued(ready: seq<int>, working: set<int>, finished: seq<int>, jobs: map<int, Job>,
                          lastid: nat, k: nat, started: Job)
    requires IdsIssued(ready, working, finished, jobs, lastid) && k < |ready|
    ensures IdsIssued(ready[k + 1..], working + {ready[k]}, finished,
                      AfterPops(jobs, ready[..k])[ready[k] := started], lastid)
  {
  }

  lemma AcceptKeepsOnePosition(ready: seq<int>, working: set<int>, finished: seq<int>, k: nat)
    requires OnePosition(ready, working, finished) && k < |ready|
    ensures OnePosition(ready[k + 1..], working + {ready[k]}, finished)
    ensures var rest := ready[k + 1..]; forall i :: 0 <= i < |rest| ==> ready[k] < rest[i]
  {
  }

  lemma AcceptKeepsStateMirrors(ready: seq<int>, working: set<int>, finished: seq<int>, jobs: map<int, Job>,
                                k: nat, now: int)
    requires OnePosition(ready, working, finished) && StateMirrors(ready, working, finished, jobs)
    requires k < |ready| && ready[k] in jobs
    ensures var jobs' := AfterPops(jobs, ready[..k])[ready[k] := Started(jobs[ready[k]], now)];
      StateMirrors(ready[k + 1..], working + {ready[k]}, finished, jobs')
  {
    var id := ready[k];
    var rest := ready[k + 1..];
    var jobs' := AfterPops(jobs, ready[..k])[id := Started(jobs[id], now)];
    forall id' | id' in jobs'
      ensures (jobs'[id'].state == Ready <==> id' in rest)
    {
      if id' != id {
        assert id' !in ready[..k];
        if id' in ready {
          var i :| 0 <= i < |ready| && ready[i] == id';
          assert i > k;
          assert rest[i - k - 1] == id';
        }
      }
    }
  }

  /**
   * `finishjob` on a working job that has a record: moving it to the tail of
   * the finished list with its final state keeps the invariant.
   */
  lemma FinishKeepsInv(ready: seq<int>, working: set<int>, finished: seq<int>, jobs: map<int, Job>,
                       lastid: nat, worked: nat, completed: nat, failed: nat,
                       id: int, successful: bool, message: string, now: int)
    requires QueueInv(ready, working, finished, jobs, lastid, worked, completed, failed)
    requires id in jobs && id in working
    ensures QueueInv(ready, working - {id}, finished + [id],
                     jobs[id := jobs[id].(state := if successful then Completed else Failed,
                                          finishedAt := Some(now), message := message)],
                     lastid, worked,
                     completed + (if successful then 1 else 0), failed + (if successful then 0 else 1))
  {
    assert |working - {id}| == |working| - 1;
    assert id !in finished;
  }

  class Queue {
    /** `q:<queue>:ready`: ids waiting to be worked, oldest first. */
    var ready: seq<int>
    /** `q:<queue>:working`: ids handed to a worker and not yet finished. */
    var working: set<int>
    /** `q:<queue>:finished`: completed or failed ids waiting to be purged, oldest first. */
    var finished: seq<int>
    /** `q:<queue>:j:<id>`: the record of every job not deleted. */
    var jobs: map<int, Job>
    /** The counters `lastid`, `worked`, `completed` and `failed`. */
    var lastid: nat
    var worked: nat
    var completed: nat
    var failed: nat

    /** The queue invariant, `QueueInv` of the fields. */
    ghost predicate Valid()
      reads this
    {
      QueueInv(ready, working, finished, jobs, lastid, worked, completed, failed)
    }

    /** A queue whose keys are all absent. */
    constructor ()
      ensures Valid()
      ensures ready == [] && working == {} && finished == [] && jobs == map[]
      ensures lastid == 0 && worked == 0 && completed == 0 && failed == 0
    {
      ready, working, finished, jobs := [], {}, [], map[];
      lastid, worked, completed, failed := 0, 0, 0, 0;
    }

    /**
     * `_jobexists`: whether `id` has a record. On a valid queue only an
     * issued id can have one, so an id beyond the counter never does.
     */
    function JobExists(id: int): (b: bool)
      reads this
      ensures b <==> id in jobs
      ensures Valid() && b ==> 1 <= id <= lastid
      ensures Valid() && (id < 1 || id > lastid) ==> !b
    {
      id in jobs
    }

    /**
     * `jobdata`: the record of `id`, if any. A returned record is one that
     * was issued, and on a valid queue its state says where its id is queued.
     */
    function JobData(id: int): (r: Option<Job>)
      reads this
      ensures r.Some? <==> id in jobs
      ensures r.Some? ==> r.value == jobs[id]
      ensures Valid() && r.Some? ==> 1 <= id <= lastid && StampsAgree(r.value)
      ensures Valid() && r.Some? ==> (r.value.state == Ready <==> id in ready)
      ensures Valid() && r.Some? ==> (r.value.state == Working <==> id in working)
    {
      if JobExists(id) then Some(jobs[id]) else None
    }

    /** `size`: the length of the ready list, which is the number of distinct jobs waiting in it. */
    function Size(): (n: nat)
      reads this
      requires Valid()
      ensures n == |ready| && n == |Elems(ready)|
    {
      IncreasingIsDistinct(ready);
      DistinctCard(ready);
      |ready|
    }

    /** `purgesize`: the length of the finished list, which is the number of distinct jobs waiting in it. */
    function PurgeSize(): (n: nat)
      reads this
      requires Valid()
      ensures n == |finished| && n == |Elems(finished)|
    {
      DistinctCard(finished);
      |finished|
    }

    /**
     * `stats`: the sizes of the three collections and the counters. Every job
     * taken by `nextjob` is either still working or counted as completed or
     * failed, and the three collections never hold more jobs than were issued.
     */
    function Stats(): (s: QueueStats)
      reads this
      requires Valid()
      ensures s.ready == Size() && s.working == |working| && s.purge == PurgeSize()
      ensures s.worked == worked && s.completed == completed && s.failed == failed
      ensures s.worked == s.working + s.completed + s.failed
      ensures s.ready + s.working + s.purge <= lastid
    {
      DisjointIssuedBound(Elems(ready), working, Elems(finished), lastid);
      QueueStats(Size(), |working|, worked, failed, completed, PurgeSize())
    }

    /**
     * `addjob`: issues the next id, stores a ready record for it and appends
     * it to the tail of the ready list. The id was never used before and comes
     * after every id already waiting.
     */
    method AddJob(data: Payload, expiretime: int, now: int) returns (id: int)
      requires Valid()
      modifies this`lastid, this`jobs, this`ready
      ensures Valid()
      ensures id == old(lastid) + 1 && lastid == id
      ensures id !in old(jobs) && id !in old(ready) && id !in old(working) && id !in old(finished)
      ensures forall x :: x in old(ready) ==> x < id
      ensures ready == old(ready) + [id]
      ensures jobs == old(jobs)[id := NewJob(data, now, expiretime)]
    {
      lastid := lastid + 1;
      id := lastid;
      jobs := jobs[id := NewJob(data, now, expiretime)];
      ready := ready + [id];
    }

    /** `_deletejob`: removes the record of `id`, reporting whether there was one. */
    method DeleteJob(id: int) returns (deleted: bool)
      modifies this`jobs
      ensures deleted <==> id in old(jobs)
      ensures jobs == old(jobs) - {id}
      ensures old(Valid()) ==> Valid()
    {
      deleted := JobExists(id);
      jobs := jobs - {id};
    }

    /**
     * The loop of `nextjob`: pops ids from the head of the ready list until
     * one has a record that has not expired, deleting the expired records it
     * meets and skipping ids without a record, and answers that id; with no
     * such id it empties the list and answers None. It is only the loop half
     * of `NextJob`: it leaves popped ids whose records are still in the ready
     * state, so it neither requires nor keeps `Valid()`, and `NextJob`
     * restores the invariant after it.
     */
    method PopDequeuable(now: int) returns (r: Option<int>)
      modifies this`ready, this`jobs
      ensures var k := FirstDequeuable(old(ready), old(jobs), now);
        && (r.None? <==> k == |old(ready)|)
        && (r.None? ==> ready == [] && jobs == AfterPops(old(jobs), old(ready)))
        && (r.Some? ==> r.value == old(ready)[k] && ready == old(ready)[k + 1..]
                        && jobs == AfterPops(old(jobs), old(ready)[..k]))
    {
      r := None;
      ghost var popped := 0;
      while true
        invariant popped <= |old(ready)| && ready == old(ready)[popped..]
        invariant jobs == AfterPops(old(jobs), old(ready)[..popped])
        invariant forall i :: 0 <= i < popped ==> !Dequeuable(old(jobs), old(ready)[i], now)
        invariant r.None?
        decreases |ready|
      {
        if ready == [] {
          assert old(ready)[..popped] == old(ready);
          break;
        }
        var id := ready[0];
        ready := ready[1..];
        popped := popped + 1;
        var job := JobData(id);
        if job.Some? {
          if Expired(job.value, now) {
            var _ := DeleteJob(id);
          } else {
            r := Some(id);
            assert Dequeuable(old(jobs), old(ready)[popped - 1], now);
            break;
          }
        }
      }
    }

    /**
     * `nextjob`: takes the first job of the ready list that has a record
     * that has not expired, after deleting the expired records and dropping
     * the ids without a record that come before it. The job moves to the
     * working set, is counted in `worked` and becomes a working record
     * started at `now`. With no such job the ready list ends empty and only
     * the expired records change.
     */
    method NextJob(now: int) returns (r: Option<int>)
      requires Valid()
      modifies this`ready, this`jobs, this`working, this`worked
      ensures Valid()
      ensures r.None? ==>
        && FirstDequeuable(old(ready), old(jobs), now) == |old(ready)|
        && ready == []
        && jobs == AfterPops(old(jobs), old(ready))
        && working == old(working) && worked == old(worked)
      ensures r.Some? ==>
        var k := FirstDequeuable(old(ready), old(jobs), now);
        && k < |old(ready)| && r.value == old(ready)[k]
        && ready == old(ready)[k + 1..]
        && working == old(working) + {r.value}
        && worked == old(worked) + 1
        && jobs == AfterPops(old(jobs), old(ready)[..k])[r.value := Started(old(jobs)[r.value], now)]
      ensures r.Some? ==> r.value in old(jobs) && r.value in jobs && jobs[r.value] == Started(old(jobs)[r.value], now)
      ensures forall id :: id in old(jobs) && id !in jobs ==> id in old(ready) && Expired(old(jobs)[id], now)
      ensures r.Some? ==> forall i :: 0 <= i < |ready| ==> r.value < ready[i]
    {
      ghost var k := FirstDequeuable(ready, jobs, now);
      PopsDeleteOnlyExpired(ready, jobs, now, k);
      ghost var ready', working', jobs', worked';
      if k < |ready| {
        AcceptKeepsInv(ready, working, finished, jobs, lastid, worked, completed, failed, now, k);
        ready', working', worked' := ready[k + 1..], working + {ready[k]}, worked + 1;
        jobs' := AfterPops(jobs, ready[..k])[ready[k] := Started(jobs[ready[k]], now)];
      } else {
        ExhaustedKeepsInv(ready, working, finished, jobs, lastid, worked, completed, failed, now);
        ready', working', worked', jobs' := [], working, worked, AfterPops(jobs, ready);
      }
      assert QueueInv(ready', working', finished, jobs', lastid, worked', completed, failed);
      r := PopDequeuable(now);
      if r.Some? {
        var id := r.value;
        working := working + {id};
        worked := worked + 1;
        jobs := jobs[id := Started(jobs[id], now)];
      }
      assert ready == ready' && working == working' && jobs == jobs' && worked == worked';
    }

    /**
     * `finishjob`: a job that has a record and is working moves to the tail
     * of the finished list, is counted as completed or failed, and its record
     * gets the final state, `finished_at` = `now` and the message. Any other
     * id is refused and nothing changes; in particular a job finished once
     * cannot be finished again.
     */
    method FinishJob(id: int, successful: bool, message: string, now: int) returns (ok: bool)
      requires Valid()
      modifies this`working, this`finished, this`completed, this`failed, this`jobs
      ensures Valid()
      ensures ok <==> id in old(jobs) && id in old(working)
      ensures !ok ==>
        && working == old(working) && finished == old(finished) && jobs == old(jobs)
        && completed == old(completed) && failed == old(failed)
      ensures ok ==>
        && working == old(working) - {id}
        && finished == old(finished) + [id]
        && completed == old(completed) + (if successful then 1 else 0)
        && failed == old(failed) + (if successful then 0 else 1)
        && jobs == old(jobs)[id := old(jobs)[id].(state := if successful then Completed else Failed,
                                                 finishedAt := Some(now), message := message)]
      ensures ok ==> id !in working
    {
      if JobExists(id) && id in working {
        FinishKeepsInv(ready, working, finished, jobs, lastid, worked, completed, failed, id, successful, message, now);
        working := working - {id};
        finished := finished + [id];
        var state := if successful then Completed else Failed;
        if successful {
          completed := completed + 1;
        } else {
          failed := failed + 1;
        }
        jobs := jobs[id := jobs[id].(state := state, finishedAt := Some(now), message := message)];
        ok := true;
      } else {
        ok := false;
      }
    }

    /**
     * `nextjobpurge`: pops ids from the head of the finished list until one
     * still has a record and returns that record, which stays in the store;
     * with none left the list ends empty and the answer is None.
     */
    method NextJobPurge() returns (r: Option<Job>)
      requires Valid()
      modifies this`finished
      ensures Valid()
      ensures r.None? ==> FirstRecorded(old(finished), jobs) == |old(finished)| && finished == []
      ensures r.Some? ==>
        var k := FirstRecorded(old(finished), jobs);
        && k < |old(finished)|
        && r.value == jobs[old(finished)[k]]
        && finished == old(finished)[k + 1..]
      ensures r.Some? ==> Terminal(r.value.state)
    {
      r := None;
      ghost var popped := 0;
      while true
        invariant popped <= |old(finished)| && finished == old(finished)[popped..]
        invariant forall i :: 0 <= i < popped ==> old(finished)[i] !in jobs
        invariant r.None?
        decreases |finished|
      {
        if finished == [] {
          break;
        }
        var id := finished[0];
        finished := finished[1..];
        popped := popped + 1;
        r := JobData(id);
        if r.Some? {
          break;
        }
      }
    }
  }
}
