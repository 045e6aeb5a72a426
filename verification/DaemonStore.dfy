/** The job store is the daemon's store: whatever a method of the class does to its two
    dictionaries, the event of the same name does to the daemon. A store that stands for a
    daemon's state goes on doing so, method by method. */
module DaemonStore {
  import Jobs
  import Runner
  import opened JobStoreClass
  import opened Daemon
  import opened DaemonSafety

  /** The store holds the daemon's jobs, and its tasks that are not done are the daemon's. */
  ghost predicate StandsFor(store: JobStore, conf: Settings, s: System)
    reads store
  {
    && store.retention == conf.retention && store.maxJobs == conf.maxJobs
    && store.jobs == s.jobs && store.Live() == JobTasks(s.tasks)
  }

  method NewStore(conf: Settings, ghost now: real) returns (store: JobStore)
    ensures fresh(store) && StandsFor(store, conf, Initially(conf, now))
  {
    store := new JobStore(conf.retention, conf.maxJobs);
    assert JobTasks(map[]) == {};
  }

  lemma OneTaskMore(tasks: map<nat, Task>, id: nat)
    ensures JobTasks(tasks[id := Task(true, Fresh)]) == JobTasks(tasks) + {id}
  {
  }

  lemma OneTaskLess(tasks: map<nat, Task>, id: nat)
    ensures JobTasks(tasks - {id}) == JobTasks(tasks) - {id}
  {
  }

  method SubmitSimulates(store: JobStore, conf: Settings, ghost s: System, id: nat,
      prompt: string, timeoutSec: real, now: real)
    requires SystemInv(conf, s) && StandsFor(store, conf, s) && id == s.nextId
    modifies store
    ensures StandsFor(store, conf, Next(conf, s, Submit(prompt, timeoutSec, now)))
  {
    OneTaskMore(s.tasks, id);
    var job := store.Submit(id, prompt, timeoutSec, now);
  }

  method ListSimulates(store: JobStore, conf: Settings, ghost s: System, now: real) returns (r: seq<Job>)
    requires SystemInv(conf, s) && StandsFor(store, conf, s)
    modifies store
    ensures StandsFor(store, conf, Next(conf, s, List(now))) && r == Jobs.Sort(store.jobs, Jobs.NewestCreatedFirst)
  {
    r := store.List(now);
  }

  /** cancel() tells the daemon's live task of the job, if there is one; without one it is
      the event CancelDead, if the job is still running, and nothing otherwise. */
  method CancelSimulates(store: JobStore, conf: Settings, ghost s: System, id: nat, now: real)
    returns (found: bool, told: bool)
    requires SystemInv(conf, s) && StandsFor(store, conf, s)
    modifies store
    ensures found <==> Jobs.Find(s.jobs, id).Some?
    ensures told <==> found && id in s.tasks
    ensures StandsFor(store, conf, if May(conf, s, CancelDead(id, now)) then Next(conf, s, CancelDead(id, now)) else s)
  {
    Jobs.FindMeans(s.jobs, id);
    if Jobs.Find(s.jobs, id).Some? { JobsTaskIsLive(conf, s, id); }
    found, told := store.Cancel(id, now);
    if Jobs.Find(s.jobs, id).Some? && id !in s.tasks && !Jobs.Find(s.jobs, id).value.Terminal() {
      JobStoreClass.FindAfterPut(s.jobs, Jobs.FinishCancelled(Jobs.Find(s.jobs, id).value, now));
    }
  }

  /** A job's task that the daemon still has is a job task. */
  lemma JobsTaskIsLive(conf: Settings, s: System, id: nat)
    requires SystemInv(conf, s) && Jobs.Find(s.jobs, id).Some?
    ensures id in JobTasks(s.tasks) <==> id in s.tasks
  {
    Jobs.FindMeans(s.jobs, id);
  }

  /** The end of a job's task, however it ends. */
  method EndSimulates(store: JobStore, conf: Settings, ghost s: System, id: nat, end: Runner.Ending, now: real)
    requires SystemInv(conf, s) && StandsFor(store, conf, s) && id in JobTasks(s.tasks)
    modifies store
    ensures StandsFor(store, conf, EndTask(s, id, end, now))
  {
    OneTaskLess(s.tasks, id);
    store.TaskEnds(id, end, now);
  }

  /** The late done-callback is nothing to the daemon. */
  method ForgetSimulates(store: JobStore, conf: Settings, ghost s: System, id: nat)
    requires StandsFor(store, conf, s) && id in store.tasks && store.tasks[id]
    modifies store
    ensures StandsFor(store, conf, s)
  {
    store.Forget(id);
  }

  /** What shutdown() collects is what the daemon then waits for; with nothing collected it
      goes straight on to stop the pool. */
  method TellAllSimulates(store: JobStore, conf: Settings, ghost s: System, ghost e: Event) returns (told: set<nat>)
    requires StandsFor(store, conf, s) && May(conf, s, e) && BeginsJobs(e)
    ensures StandsFor(store, conf, Next(conf, s, e))
    ensures Next(conf, s, e).closing == if told == {} then StoppingPool else Telling(told)
  {
    told := store.TellAll();
  }
}
