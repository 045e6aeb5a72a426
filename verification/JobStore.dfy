/** JobStore: its dictionaries, changed in place. */
module JobStoreClass {
  import opened Wrappers
  import opened Errors
  import opened Jobs
  import Runner

  class JobStore {
    const retention: real
    const maxJobs: int
    var jobs: seq<Job>
    /** Each job's asyncio task, and whether it is done. */
    var tasks: map<nat, bool>

    /** The tasks that are not done. */
    function Live(): set<nat>
      reads this
    {
      set id | id in tasks && !tasks[id]
    }

    constructor (retention: real, maxJobs: int)
      ensures this.retention == retention && this.maxJobs == maxJobs && jobs == [] && Live() == {}
    {
      this.retention, this.maxJobs := retention, maxJobs;
      jobs, tasks := [], map[];
    }

    /** The first loop of _reap: delete what is past retention. */
    method DropExpired(now: real)
      requires UniqueIds(jobs)
      modifies this`jobs
      ensures jobs == Unexpired(old(jobs), now, retention)
    {
      var snapshot := jobs;
      for i := 0 to |snapshot|
        invariant jobs == Unexpired(snapshot[..i], now, retention) + snapshot[i..]
      {
        var job := snapshot[i];
        OneExpiry(snapshot, i, now, retention);
        if job.Terminal() && job.finishedAt.Some? && now - job.finishedAt.value > retention {
          jobs := Without(jobs, job.id);
        }
      }
      assert snapshot[..|snapshot|] == snapshot && snapshot[|snapshot|..] == [];
    }

    /** The rest of _reap: delete the oldest finished jobs over the cap. */
    method DropOverflow()
      modifies this`jobs
      ensures jobs == WithoutAll(old(jobs), Evicted(old(jobs), maxJobs))
    {
      ghost var kept := jobs;
      var finished := Sort(TerminalJobs(jobs), OldestFinishedFirst);
      var overflow := |jobs| - maxJobs;
      var evicted := finished[..Min(Max(0, overflow), |finished|)];
      for i := 0 to |evicted|
        invariant WithoutAll(jobs, evicted[i..]) == WithoutAll(kept, evicted)
      {
        assert evicted[i..][0] == evicted[i] && evicted[i..][1..] == evicted[i + 1..];
        jobs := Without(jobs, evicted[i].id);
      }
    }

    /** _reap */
    method Reap(now: real)
      requires UniqueIds(jobs)
      modifies this`jobs
      ensures jobs == Jobs.Reap(old(jobs), now, retention, maxJobs)
    {
      DropExpired(now);
      DropOverflow();
    }

    method Submit(id: nat, prompt: string, timeoutSec: real, now: real) returns (job: Job)
      requires UniqueIds(jobs)
      modifies this
      ensures job == NewJob(id, prompt, timeoutSec, now)
      ensures jobs == Jobs.Submit(old(jobs), job, now, retention, maxJobs)
      ensures Live() == old(Live()) + {id}
    {
      Reap(now);
      job := NewJob(id, prompt, timeoutSec, now);
      jobs := jobs + [job];
      tasks := tasks[id := false];
    }

    method List(now: real) returns (r: seq<Job>)
      requires UniqueIds(jobs)
      modifies this`jobs
      ensures jobs == Jobs.Reap(old(jobs), now, retention, maxJobs) && r == Sort(jobs, NewestCreatedFirst)
    {
      Reap(now);
      r := Sort(jobs, NewestCreatedFirst);
    }

    /** cancel() up to its await: whether a live task was told to stop. A job that is
        still running without a live task is finished here. */
    method Cancel(id: nat, now: real) returns (found: bool, told: bool)
      requires UniqueIds(jobs)
      modifies this`jobs
      ensures found == Find(jobs, id).Some? == Find(old(jobs), id).Some? && (told <==> found && id in Live())
      ensures jobs == if Find(old(jobs), id).Some? && id !in Live() && !Find(old(jobs), id).value.Terminal()
                      then Put(old(jobs), FinishCancelled(Find(old(jobs), id).value, now)) else old(jobs)
      ensures found && (told || Find(old(jobs), id).value.Terminal()) ==> Find(jobs, id) == Find(old(jobs), id)
      ensures found && !told && !Find(old(jobs), id).value.Terminal() ==>
                EndsAs(Find(old(jobs), id).value, Find(jobs, id).value, Runner.Cancelled, now)
      ensures forall k :: k != id ==> Find(jobs, k) == Find(old(jobs), k)
    {
      var job := Find(jobs, id);
      FindMeans(jobs, id);
      if job == None {
        return false, false;
      }
      if id in tasks && !tasks[id] {
        return true, true;
      }
      if !job.value.Terminal() {
        ghost var finished := FinishCancelled(job.value, now);
        PutMeans(jobs, finished);
        FindOthers(jobs, finished);
        jobs := Put(jobs, FinishCancelled(job.value, now));
      }
      return true, false;
    }

    /** _run, once execute() has ended: the job gets its final state, which says how it
        ended, and nothing else in the store changes; the task is done, and no other is. */
    method TaskEnds(id: nat, end: Runner.Ending, now: real)
      requires UniqueIds(jobs) && Find(jobs, id).Some? && id in Live()
      modifies this
      ensures Find(jobs, id) == Some(Finished(Find(old(jobs), id).value, end, now))
      ensures EndsAs(Find(old(jobs), id).value, Find(jobs, id).value, end, now)
      ensures forall k :: k != id ==> Find(jobs, k) == Find(old(jobs), k)
      ensures jobs == Put(old(jobs), Find(jobs, id).value) && UniqueIds(jobs) && |jobs| == |old(jobs)|
      ensures Live() == old(Live()) - {id} && tasks.Keys == old(tasks.Keys)
    {
      var job := Find(jobs, id).value;
      FindMeans(jobs, id);
      var finished;
      match end {
        case Cancelled => finished := FinishCancelled(job, now);
        case Raised => finished := FinishRaised(job, now, "unexpected error");
        case Returned(o) => finished := FinishWith(job, now, o);
      }
      PutMeans(jobs, finished);
      FindOthers(jobs, finished);
      jobs := Put(jobs, finished);
      tasks := tasks[id := true];
    }

    /** The done-callback, some time later. */
    method Forget(id: nat)
      requires id in tasks && tasks[id]
      modifies this`tasks
      ensures Live() == old(Live()) && tasks.Keys == old(tasks.Keys) - {id}
    {
      tasks := tasks - {id};
    }

    /** shutdown() up to its await: one pass over the tasks collects those that are not
        done, which are told to stop and waited for. */
    method TellAll() returns (told: set<nat>)
      ensures told == Live()
      ensures forall id :: id in told <==> id in tasks && !tasks[id]
    {
      told := {};
      var rest := tasks.Keys;
      while rest != {}
        invariant rest <= tasks.Keys
        invariant forall id :: id in told <==> id in tasks && id !in rest && !tasks[id]
        decreases |rest|
      {
        var id :| id in rest;
        if !tasks[id] {
          told := told + {id};
        }
        rest := rest - {id};
      }
    }

    method Stats() returns (total: nat, running: nat)
      ensures total == |jobs| && running == RunningCount(jobs)
    {
      running := 0;
      for i := 0 to |jobs|
        invariant running + RunningCount(jobs[i..]) == RunningCount(jobs)
      {
        assert jobs[i..][0] == jobs[i] && jobs[i..][1..] == jobs[i + 1..];
        if jobs[i].status == Running { running := running + 1; }
      }
      total := |jobs|;
    }
  }

  /** A job that has ended: it keeps who it is, is finished now, and its status, result
      and failure are those of the way execute() ended; what that says nothing about
      stays. */
  ghost predicate EndsAs(before: Job, j: Job, end: Runner.Ending, now: real) {
    && j.id == before.id && j.promptPreview == before.promptPreview && j.createdAt == before.createdAt
    && j.timeoutSec == before.timeoutSec && j.finishedAt == Some(now)
    && match end
       case Cancelled =>
         && j.status == CancelledStatus && j.error == Str("cancelled")
         && j.text == before.text && j.durationMs == before.durationMs && j.failure == before.failure
       case Raised =>
         && j.status == FailedStatus && j.error == Str("unexpected error")
         && j.failure == Some(Failure("worker_failed", 502, false, None))
         && j.text == before.text && j.durationMs == before.durationMs
       case Returned(o) =>
         && j.status == (if o.succeeded then Succeeded else FailedStatus) && j.durationMs == o.durationMs
         && (o.succeeded ==> j.text == o.text && j.error == before.error && j.failure == before.failure)
         && (!o.succeeded ==> j.error == o.error && j.failure == o.failure && j.text == before.text)
  }

  lemma FindOthers(jobs: seq<Job>, job: Job)
    requires UniqueIds(jobs) && Find(jobs, job.id).Some?
    ensures Find(Put(jobs, job), job.id) == Some(job)
    ensures forall k :: k != job.id ==> Find(Put(jobs, job), k) == Find(jobs, k)
  {
    forall k ensures Find(Put(jobs, job), k) == if k == job.id then Some(job) else Find(jobs, k) {
      FindOther(jobs, job, k);
    }
  }

  lemma {:induction false} FindOther(jobs: seq<Job>, job: Job, k: nat)
    requires Find(jobs, job.id).Some?
    ensures Find(Put(jobs, job), k) == if k == job.id then Some(job) else Find(jobs, k)
  {
    if jobs[0].id != job.id {
      FindOther(jobs[1..], job, k);
    }
  }

  lemma {:induction false} FindAfterPut(jobs: seq<Job>, job: Job)
    ensures Find(Put(jobs, job), job.id).Some? <==> Find(jobs, job.id).Some?
  {
    if jobs != [] && jobs[0].id != job.id {
      FindAfterPut(jobs[1..], job);
    }
  }

  lemma {:induction false} UnexpiredAppend(a: seq<Job>, b: Job, now: real, retention: real)
    ensures Unexpired(a + [b], now, retention)
            == Unexpired(a, now, retention) + (if Expired(b, now, retention) then [] else [b])
  {
    if a == [] {
      assert [b][1..] == [] && a + [b] == [b];
    } else {
      assert (a + [b])[1..] == a[1..] + [b];
      UnexpiredAppend(a[1..], b, now, retention);
    }
  }

  lemma {:induction false} DeleteFirst(a: seq<Job>, job: Job, b: seq<Job>)
    requires forall j :: j in a ==> j.id != job.id
    ensures Without(a + ([job] + b), job.id) == a + b
  {
    if a == [] {
      assert a + ([job] + b) == [job] + b && ([job] + b)[1..] == b && a + b == b;
    } else {
      assert a[0] in a;
      assert (a + ([job] + b))[1..] == a[1..] + ([job] + b);
      DeleteFirst(a[1..], job, b);
      assert a + b == [a[0]] + (a[1..] + b);
    }
  }

  /** One turn of the expiry loop. */
  lemma OneExpiry(jobs: seq<Job>, i: nat, now: real, retention: real)
    requires UniqueIds(jobs) && i < |jobs|
    ensures var done := Unexpired(jobs[..i], now, retention);
            Unexpired(jobs[..i + 1], now, retention) + jobs[i + 1..]
            == if Expired(jobs[i], now, retention) then Without(done + jobs[i..], jobs[i].id) else done + jobs[i..]
  {
    var done := Unexpired(jobs[..i], now, retention);
    assert jobs[..i + 1] == jobs[..i] + [jobs[i]];
    assert jobs[i..] == [jobs[i]] + jobs[i + 1..];
    UnexpiredAppend(jobs[..i], jobs[i], now, retention);
    if Expired(jobs[i], now, retention) {
      EarlierDiffer(jobs, i, now, retention);
      DeleteFirst(done, jobs[i], jobs[i + 1..]);
      assert done + [] == done;
    } else {
      assert done + [jobs[i]] + jobs[i + 1..] == done + jobs[i..];
    }
  }

  lemma EarlierDiffer(jobs: seq<Job>, i: nat, now: real, retention: real)
    requires UniqueIds(jobs) && i < |jobs|
    ensures forall j :: j in Unexpired(jobs[..i], now, retention) ==> j.id != jobs[i].id
  {
    UnexpiredMembers(jobs[..i], now, retention);
    forall j | j in Unexpired(jobs[..i], now, retention) ensures j.id != jobs[i].id {
      var k :| 0 <= k < i && jobs[..i][k] == j;
      assert jobs[k] == j;
    }
  }
}
