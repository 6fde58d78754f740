/**
 * Runs of a fresh queue that follow only from the contracts of the queue's
 * operations.
 */
module Scenarios {
  import opened Wrappers
  import opened Jobs
  import opened QueueEngine

  /** A fresh queue reports zero for every figure of `stats`. */
  method FreshStats() returns (stats: QueueStats)
    ensures stats == QueueStats(0, 0, 0, 0, 0, 0)
  {
    var q := new Queue();
    stats := q.Stats();
  }

  /**
   * A fresh queue after one job is added at time 100 without expiry: the job
   * gets id 1 and waits alone in the ready list.
   */
  method AddOne() returns (q: Queue)
    ensures fresh(q) && q.Valid()
    ensures q.ready == [1] && q.working == {} && q.finished == []
    ensures q.lastid == 1 && q.worked == 0 && q.completed == 0 && q.failed == 0
    ensures q.jobs == map[1 := NewJob("x", 100, 0)]
  {
    q := new Queue();
    var id := q.AddJob("x", 0, 100);
  }

  /**
   * The job added in `AddOne` is taken by a worker at 101.
   */
  method TakeOne() returns (q: Queue)
    ensures fresh(q) && q.Valid()
    ensures q.ready == [] && q.working == {1} && q.finished == []
    ensures q.lastid == 1 && q.worked == 1 && q.completed == 0 && q.failed == 0
    ensures 1 in q.jobs && q.jobs[1] == Started(NewJob("x", 100, 0), 101)
  {
    q := AddOne();
    assert !Expired(q.jobs[1], 101);
    assert FirstDequeuable(q.ready, q.jobs, 101) == 0;
    var taken := q.NextJob(101);
    assert taken == Some(1);
  }

  /**
   * The job taken in `TakeOne` is then completed at 102: it moves from the
   * working set to the finished list with its final record.
   */
  method CompleteOne() returns (q: Queue)
    ensures fresh(q) && q.Valid()
    ensures q.ready == [] && q.working == {} && q.finished == [1]
    ensures q.lastid == 1 && q.worked == 1 && q.completed == 1 && q.failed == 0
    ensures 1 in q.jobs && q.jobs[1].data == "x" && q.jobs[1].message == "ok"
    ensures q.jobs[1].state == Completed && q.jobs[1].createdAt == 100
    ensures q.jobs[1].startedAt == Some(101) && q.jobs[1].finishedAt == Some(102)
  {
    q := TakeOne();
    var finished := q.FinishJob(1, true, "ok", 102);
    assert finished;
  }

  /**
   * One job taken and completed: `stats` then counts it once as worked and
   * once as completed, and a second `finishjob` on it is refused.
   */
  method CompletedOnce() returns (again: bool, stats: QueueStats)
    ensures !again
    ensures stats == QueueStats(0, 0, 1, 0, 1, 1)
  {
    var q := CompleteOne();
    again := q.FinishJob(1, true, "ok", 103);
    stats := q.Stats();
  }

  /**
   * One job through its whole life: added, taken, completed, then purged;
   * the purge returns its final record, and a second purge finds nothing.
   */
  method PurgeAfterCompletion() returns (purged: Option<Job>, rest: Option<Job>)
    ensures purged.Some? && purged.value.data == "x" && purged.value.message == "ok"
    ensures purged.value.state == Completed && purged.value.createdAt == 100
    ensures purged.value.startedAt == Some(101) && purged.value.finishedAt == Some(102)
    ensures rest == None
  {
    var q := CompleteOne();
    assert FirstRecorded(q.finished, q.jobs) == 0;
    purged := q.NextJobPurge();
    assert q.finished == [];
    rest := q.NextJobPurge();
  }

  /**
   * A job that expires one second after its creation is gone when a worker
   * asks two seconds later: `nextjob` finds nothing and the record is deleted.
   */
  method ExpiredJobIsDropped() returns (taken: Option<int>, record: Option<Job>, worked: nat)
    ensures taken == None && record == None && worked == 0
  {
    var q := new Queue();
    var id := q.AddJob("x", 1, 100);
    assert q.ready == [id] && Expired(q.jobs[id], 102);
    assert FirstDequeuable(q.ready, q.jobs, 102) == 1;
    taken := q.NextJob(102);
    record := q.JobData(id);
    worked := q.Stats().worked;
  }

  /**
   * While one job is working, `finishjob` on an id that was never issued is
   * refused and leaves every figure of `stats` as it was.
   */
  method FinishUnknownRefused() returns (ok: bool, stats: QueueStats)
    ensures !ok
    ensures stats == QueueStats(0, 1, 1, 0, 0, 0)
  {
    var q := TakeOne();
    ok := q.FinishJob(7, true, "ok", 102);
    stats := q.Stats();
  }

  /**
   * After the job of `CompleteOne` is completed, its record is deleted while
   * its id waits in the finished list, and a second job "y" is added at 103.
   */
  method DeleteFirstAddSecond() returns (q: Queue)
    ensures fresh(q) && q.Valid()
    ensures q.ready == [2] && q.working == {} && q.finished == [1]
    ensures 1 !in q.jobs && 2 in q.jobs && q.jobs[2] == NewJob("y", 103, 0)
  {
    q := CompleteOne();
    var deleted := q.DeleteJob(1);
    var id := q.AddJob("y", 0, 103);
  }

  /** The second job is taken at 104. */
  method TakeSecond() returns (q: Queue)
    ensures fresh(q) && q.Valid()
    ensures q.ready == [] && q.working == {2} && q.finished == [1]
    ensures 1 !in q.jobs && 2 in q.jobs && q.jobs[2] == Started(NewJob("y", 103, 0), 104)
  {
    q := DeleteFirstAddSecond();
    assert !Expired(q.jobs[2], 104);
    assert FirstDequeuable(q.ready, q.jobs, 104) == 0;
    var taken := q.NextJob(104);
    assert taken == Some(2);
  }

  /** The second job is completed at 105, behind the id whose record is gone. */
  method CompleteSecond() returns (q: Queue)
    ensures fresh(q) && q.Valid()
    ensures q.finished == [1, 2]
    ensures 1 !in q.jobs && 2 in q.jobs && q.jobs[2].data == "y" && q.jobs[2].state == Completed
  {
    q := TakeSecond();
    var finished := q.FinishJob(2, true, "ok", 105);
    assert finished;
  }

  /**
   * `nextjobpurge` skips a finished id whose record was deleted and returns
   * the record of the next finished job, leaving the finished list empty.
   */
  method PurgeSkipsDeleted() returns (purged: Option<Job>, left: nat)
    ensures purged.Some? && purged.value.data == "y" && purged.value.state == Completed
    ensures left == 0
  {
    var q := CompleteSecond();
    assert FirstRecorded(q.finished, q.jobs) == 1;
    purged := q.NextJobPurge();
    assert q.finished == [];
    left := q.PurgeSize();
  }
}
