/** Background jobs and the algorithm that keeps their store bounded. */
module Jobs {
  import opened Wrappers
  import opened Errors
  import Runner

  datatype Status = Running | Succeeded | FailedStatus | CancelledStatus

  datatype Job = Job(
    id: nat, promptPreview: string, timeoutSec: real, status: Status, createdAt: real,
    finishedAt: Option<real>, text: Json, durationMs: Json, error: Json, failure: Option<Failure>)
  {
    predicate Terminal() { !status.Running? }
  }

  /** The dictionary of jobs, in insertion order. */
  ghost predicate UniqueIds(jobs: seq<Job>) {
    forall i, j :: 0 <= i < j < |jobs| ==> jobs[i].id != jobs[j].id
  }

  lemma HeadIsUnique(jobs: seq<Job>)
    requires UniqueIds(jobs) && jobs != []
    ensures UniqueIds(jobs[1..]) && forall j :: j in jobs[1..] ==> j.id != jobs[0].id
  {
    forall j | j in jobs[1..] ensures j.id != jobs[0].id {
      var i :| 0 <= i < |jobs| - 1 && jobs[1..][i] == j;
      assert jobs[i + 1] == j;
    }
  }

  lemma ConsUnique(job: Job, rest: seq<Job>)
    requires UniqueIds(rest) && forall j :: j in rest ==> j.id != job.id
    ensures UniqueIds([job] + rest)
  {
    assert forall i :: 0 <= i < |rest| ==> rest[i] in rest;
  }

  // ---- order ----

  /** The first job comes somewhere before the second. */
  ghost predicate Before(jobs: seq<Job>, j: Job, k: Job) {
    exists a, b :: 0 <= a < b < |jobs| && jobs[a] == j && jobs[b] == k
  }

  /** The jobs of `some`, which are also in `all`, in the order they have there. */
  predicate InOrder(some: seq<Job>, all: seq<Job>)
    decreases |all|
  {
    some == []
    || (all != [] && if some[0] == all[0] then InOrder(some[1..], all[1..]) else InOrder(some, all[1..]))
  }

  lemma {:induction false} InOrderTail(some: seq<Job>, all: seq<Job>)
    requires InOrder(some, all) && some != []
    ensures InOrder(some[1..], all)
    decreases |all|, 2
  {
    if some[0] == all[0] {
      InOrderLonger(some[1..], all);
    } else {
      InOrderTail(some, all[1..]);
      InOrderLonger(some[1..], all);
    }
  }

  lemma InOrderLonger(some: seq<Job>, all: seq<Job>)
    requires all != [] && InOrder(some, all[1..])
    ensures InOrder(some, all)
    decreases |all|, 1
  {
    if some != [] && some[0] == all[0] { InOrderTail(some, all[1..]); }
  }

  lemma {:induction false} InOrderTrans(a: seq<Job>, b: seq<Job>, c: seq<Job>)
    requires InOrder(a, b) && InOrder(b, c)
    ensures InOrder(a, c)
    decreases |c|
  {
    if a != [] {
      if b[0] != c[0] {
        InOrderTrans(a, b, c[1..]);
        InOrderLonger(a, c);
      } else if a[0] == b[0] {
        InOrderTrans(a[1..], b[1..], c[1..]);
      } else {
        InOrderTrans(a, b[1..], c[1..]);
      }
    }
  }

  lemma {:induction false} InOrderSelf(jobs: seq<Job>)
    ensures InOrder(jobs, jobs)
  {
    if jobs != [] { InOrderSelf(jobs[1..]); }
  }

  lemma {:induction false} InOrderMember(some: seq<Job>, all: seq<Job>, j: Job)
    requires InOrder(some, all) && j in some
    ensures j in all
    decreases |all|
  {
    assert some == [some[0]] + some[1..] && all == [all[0]] + all[1..];
    if some[0] == all[0] {
      if j != some[0] { InOrderMember(some[1..], all[1..], j); }
    } else {
      InOrderMember(some, all[1..], j);
    }
  }

  lemma BeforeCons(job: Job, rest: seq<Job>, j: Job, k: Job)
    ensures Before([job] + rest, j, k) <==> (job == j && k in rest) || Before(rest, j, k)
  {
    var all := [job] + rest;
    if Before(all, j, k) {
      var a, b :| 0 <= a < b < |all| && all[a] == j && all[b] == k;
      assert rest[b - 1] == k;
      if a > 0 { assert rest[a - 1] == j; }
    }
    if job == j && k in rest {
      var b :| 0 <= b < |rest| && rest[b] == k;
      assert all[0] == j && all[b + 1] == k;
    }
    if Before(rest, j, k) {
      var a, b :| 0 <= a < b < |rest| && rest[a] == j && rest[b] == k;
      assert all[a + 1] == j && all[b + 1] == k;
    }
  }

  lemma {:induction false} InOrderBefore(some: seq<Job>, all: seq<Job>, j: Job, k: Job)
    requires InOrder(some, all) && Before(some, j, k)
    ensures Before(all, j, k)
    decreases |all|
  {
    assert some == [some[0]] + some[1..] && all == [all[0]] + all[1..];
    BeforeCons(some[0], some[1..], j, k);
    BeforeCons(all[0], all[1..], j, k);
    if some[0] == all[0] {
      if Before(some[1..], j, k) {
        InOrderBefore(some[1..], all[1..], j, k);
      } else {
        InOrderMember(some[1..], all[1..], k);
      }
    } else {
      InOrderBefore(some, all[1..], j, k);
    }
  }

  /** In a list without repetitions two different jobs come in one order. */
  lemma OneOrder(jobs: seq<Job>, j: Job, k: Job)
    requires UniqueIds(jobs) && j in jobs && k in jobs && j != k
    ensures Before(jobs, j, k) <==> !Before(jobs, k, j)
  {
    var a :| 0 <= a < |jobs| && jobs[a] == j;
    var b :| 0 <= b < |jobs| && jobs[b] == k;
    assert a < b ==> Before(jobs, j, k);
    assert b < a ==> Before(jobs, k, j);
  }

  lemma {:induction false} CountsOnce(jobs: seq<Job>)
    requires UniqueIds(jobs)
    ensures |set j | j in jobs| == |jobs|
  {
    if jobs != [] {
      HeadIsUnique(jobs);
      CountsOnce(jobs[1..]);
      var rest := set j | j in jobs[1..];
      assert jobs == [jobs[0]] + jobs[1..];
      assert (set j | j in jobs) == rest + {jobs[0]};
      assert jobs[0] !in rest;
    }
  }

  // ---- deleting ----

  /** del jobs[id], or nothing if there is no such job. */
  function Without(jobs: seq<Job>, id: nat): seq<Job> {
    if jobs == [] then []
    else if jobs[0].id == id then jobs[1..]
    else [jobs[0]] + Without(jobs[1..], id)
  }

  function WithoutAll(jobs: seq<Job>, gone: seq<Job>): seq<Job>
    decreases |gone|
  {
    if gone == [] then jobs else WithoutAll(Without(jobs, gone[0].id), gone[1..])
  }

  lemma {:induction false} WithoutMeans(jobs: seq<Job>, job: Job)
    requires UniqueIds(jobs) && job in jobs
    ensures UniqueIds(Without(jobs, job.id)) && |Without(jobs, job.id)| == |jobs| - 1
    ensures forall j :: j in Without(jobs, job.id) <==> j in jobs && j != job
  {
    assert jobs == [jobs[0]] + jobs[1..];
    HeadIsUnique(jobs);
    if jobs[0].id == job.id {
      assert jobs[0] == job;
    } else {
      assert job in jobs[1..];
      WithoutMeans(jobs[1..], job);
      ConsUnique(jobs[0], Without(jobs[1..], job.id));
    }
  }

  lemma {:induction false} WithoutAllMeans(jobs: seq<Job>, gone: seq<Job>)
    requires UniqueIds(jobs) && UniqueIds(gone) && forall g :: g in gone ==> g in jobs
    ensures UniqueIds(WithoutAll(jobs, gone)) && |WithoutAll(jobs, gone)| == |jobs| - |gone|
    ensures forall j :: j in WithoutAll(jobs, gone) <==> j in jobs && j !in gone
    decreases |gone|
  {
    if gone != [] {
      var rest := gone[1..];
      assert gone == [gone[0]] + rest;
      WithoutMeans(jobs, gone[0]);
      assert forall g :: g in rest ==> g in jobs && g != gone[0];
      WithoutAllMeans(Without(jobs, gone[0].id), rest);
    }
  }

  lemma {:induction false} WithoutInOrder(jobs: seq<Job>, id: nat)
    ensures InOrder(Without(jobs, id), jobs)
  {
    if jobs != [] {
      if jobs[0].id == id {
        InOrderSelf(jobs[1..]);
        InOrderLonger(jobs[1..], jobs);
      } else {
        WithoutInOrder(jobs[1..], id);
        assert Without(jobs, id)[1..] == Without(jobs[1..], id);
      }
    }
  }

  lemma {:induction false} WithoutAllInOrder(jobs: seq<Job>, gone: seq<Job>)
    ensures InOrder(WithoutAll(jobs, gone), jobs)
    decreases |gone|
  {
    if gone == [] {
      InOrderSelf(jobs);
    } else {
      WithoutInOrder(jobs, gone[0].id);
      WithoutAllInOrder(Without(jobs, gone[0].id), gone[1..]);
      InOrderTrans(WithoutAll(jobs, gone), Without(jobs, gone[0].id), jobs);
    }
  }

  // ---- sorted() ----

  datatype Order = OldestFinishedFirst | NewestCreatedFirst

  /** `finished_at or 0.0`; or `created_at`, reversed. */
  function Key(j: Job, order: Order): real {
    match order
    case OldestFinishedFirst => if j.finishedAt.Some? then j.finishedAt.value else 0.0
    case NewestCreatedFirst => -j.createdAt
  }

  function Insert(job: Job, sorted: seq<Job>, order: Order): seq<Job> {
    if sorted == [] || Key(job, order) < Key(sorted[0], order) then [job] + sorted
    else [sorted[0]] + Insert(job, sorted[1..], order)
  }

  /** A stable sort: of two jobs with the same key the earlier one stays in front. */
  function Sort(jobs: seq<Job>, order: Order): seq<Job> {
    if jobs == [] then [] else Insert(jobs[|jobs| - 1], Sort(jobs[..|jobs| - 1], order), order)
  }

  ghost predicate Sorted(jobs: seq<Job>, order: Order) {
    forall i, j :: 0 <= i < j < |jobs| ==> Key(jobs[i], order) <= Key(jobs[j], order)
  }

  lemma {:induction false} InsertCounts(job: Job, sorted: seq<Job>, order: Order)
    ensures multiset(Insert(job, sorted, order)) == multiset(sorted) + multiset{job}
  {
    if sorted != [] {
      assert sorted == [sorted[0]] + sorted[1..];
      InsertCounts(job, sorted[1..], order);
    }
  }

  lemma InsertAdds(job: Job, sorted: seq<Job>, order: Order)
    ensures multiset(Insert(job, sorted, order)) == multiset(sorted) + multiset{job}
    ensures |Insert(job, sorted, order)| == |sorted| + 1
    ensures forall j :: j in Insert(job, sorted, order) <==> j in sorted || j == job
  {
    InsertCounts(job, sorted, order);
    var r := Insert(job, sorted, order);
    assert |multiset(r)| == |r| && |multiset(sorted)| == |sorted|;
    forall j ensures j in r <==> j in sorted || j == job {
      assert j in r <==> j in multiset(r);
      assert j in sorted <==> j in multiset(sorted);
    }
  }

  lemma {:induction false} InsertSorts(job: Job, sorted: seq<Job>, order: Order)
    requires Sorted(sorted, order)
    ensures Sorted(Insert(job, sorted, order), order)
  {
    if sorted != [] && Key(job, order) >= Key(sorted[0], order) {
      InsertSorts(job, sorted[1..], order);
      InsertAdds(job, sorted[1..], order);
      var rest := Insert(job, sorted[1..], order);
      forall j | 0 <= j < |rest| ensures Key(sorted[0], order) <= Key(rest[j], order) {
        assert rest[j] in rest;
      }
    }
  }

  lemma {:induction false} InsertKeepsUnique(job: Job, sorted: seq<Job>, order: Order)
    requires UniqueIds(sorted) && Sorted(sorted, order) && forall s :: s in sorted ==> s.id != job.id
    ensures UniqueIds(Insert(job, sorted, order))
  {
    if sorted != [] && Key(job, order) >= Key(sorted[0], order) {
      InsertKeepsUnique(job, sorted[1..], order);
      InsertAdds(job, sorted[1..], order);
      var rest := Insert(job, sorted[1..], order);
      forall j | 0 <= j < |rest| ensures sorted[0].id != rest[j].id {
        assert rest[j] in rest;
      }
    }
  }

  lemma {:induction false} SortIsSorted(jobs: seq<Job>, order: Order)
    ensures Sorted(Sort(jobs, order), order)
    decreases |jobs|
  {
    if jobs != [] {
      SortIsSorted(jobs[..|jobs| - 1], order);
      InsertSorts(jobs[|jobs| - 1], Sort(jobs[..|jobs| - 1], order), order);
    }
  }

  lemma {:induction false} SortCounts(jobs: seq<Job>, order: Order)
    ensures multiset(Sort(jobs, order)) == multiset(jobs)
    decreases |jobs|
  {
    if jobs != [] {
      var init, last := jobs[..|jobs| - 1], jobs[|jobs| - 1];
      SortCounts(init, order);
      InsertCounts(last, Sort(init, order), order);
      assert jobs == init + [last];
    }
  }

  lemma SameMembers(a: seq<Job>, b: seq<Job>)
    requires multiset(a) == multiset(b)
    ensures |a| == |b| && forall j :: j in a <==> j in b
  {
    assert |multiset(a)| == |a| && |multiset(b)| == |b|;
    forall j ensures j in a <==> j in b {
      assert j in a <==> j in multiset(a);
      assert j in b <==> j in multiset(b);
    }
  }

  lemma {:induction false} SortKeepsUnique(jobs: seq<Job>, order: Order)
    requires UniqueIds(jobs)
    ensures UniqueIds(Sort(jobs, order))
    decreases |jobs|
  {
    if jobs != [] {
      var init, last := jobs[..|jobs| - 1], jobs[|jobs| - 1];
      SortKeepsUnique(init, order);
      SortIsSorted(init, order);
      SortCounts(init, order);
      SameMembers(Sort(init, order), init);
      InsertKeepsUnique(last, Sort(init, order), order);
    }
  }

  lemma SortSorts(jobs: seq<Job>, order: Order)
    ensures Sorted(Sort(jobs, order), order) && multiset(Sort(jobs, order)) == multiset(jobs)
    ensures |Sort(jobs, order)| == |jobs| && forall j :: j in Sort(jobs, order) <==> j in jobs
    ensures UniqueIds(jobs) ==> UniqueIds(Sort(jobs, order))
  {
    SortIsSorted(jobs, order);
    SortCounts(jobs, order);
    SameMembers(Sort(jobs, order), jobs);
    if UniqueIds(jobs) { SortKeepsUnique(jobs, order); }
  }

  lemma TailIsSorted(sorted: seq<Job>, order: Order)
    requires Sorted(sorted, order) && sorted != []
    ensures Sorted(sorted[1..], order)
  {
  }

  lemma {:induction false} InsertIsStable(job: Job, sorted: seq<Job>, order: Order, j: Job)
    requires j in sorted && Sorted(sorted, order) && Key(j, order) <= Key(job, order)
    ensures Before(Insert(job, sorted, order), j, job)
  {
    var k :| 0 <= k < |sorted| && sorted[k] == j;
    assert Key(sorted[0], order) <= Key(j, order);
    assert sorted == [sorted[0]] + sorted[1..];
    InsertAdds(job, sorted[1..], order);
    BeforeCons(sorted[0], Insert(job, sorted[1..], order), j, job);
    if j in sorted[1..] {
      TailIsSorted(sorted, order);
      InsertIsStable(job, sorted[1..], order, j);
    }
  }

  lemma {:induction false} InsertKeepsOrder(job: Job, sorted: seq<Job>, order: Order, j: Job, k: Job)
    requires Before(sorted, j, k)
    ensures Before(Insert(job, sorted, order), j, k)
  {
    BeforeCons(job, sorted, j, k);
    assert sorted == [sorted[0]] + sorted[1..];
    BeforeCons(sorted[0], sorted[1..], j, k);
    BeforeCons(sorted[0], Insert(job, sorted[1..], order), j, k);
    InsertAdds(job, sorted[1..], order);
    if Before(sorted[1..], j, k) { InsertKeepsOrder(job, sorted[1..], order, j, k); }
  }

  /** Of two jobs with the same key the one that comes first stays first. */
  lemma {:induction false} SortIsStable(jobs: seq<Job>, order: Order, j: Job, k: Job)
    requires Before(jobs, j, k) && Key(j, order) <= Key(k, order)
    ensures Before(Sort(jobs, order), j, k)
    decreases |jobs|
  {
    var init, last := jobs[..|jobs| - 1], jobs[|jobs| - 1];
    BeforeOrLast(jobs, j, k);
    if Before(init, j, k) {
      SortIsStable(init, order, j, k);
      InsertKeepsOrder(last, Sort(init, order), order, j, k);
    } else {
      SortSorts(init, order);
      InsertIsStable(last, Sort(init, order), order, j);
    }
  }

  lemma BeforeOrLast(jobs: seq<Job>, j: Job, k: Job)
    requires Before(jobs, j, k)
    ensures jobs != []
    ensures Before(jobs[..|jobs| - 1], j, k) || (j in jobs[..|jobs| - 1] && k == jobs[|jobs| - 1])
  {
    var n := |jobs| - 1;
    var a, b :| 0 <= a < b < |jobs| && jobs[a] == j && jobs[b] == k;
    assert jobs[..n][a] == j;
    if b < n { assert jobs[..n][b] == k; }
  }

  // ---- _reap ----

  predicate Expired(j: Job, now: real, retention: real) {
    j.Terminal() && j.finishedAt.Some? && now - j.finishedAt.value > retention
  }

  function Unexpired(jobs: seq<Job>, now: real, retention: real): seq<Job> {
    if jobs == [] then []
    else (if Expired(jobs[0], now, retention) then [] else [jobs[0]]) + Unexpired(jobs[1..], now, retention)
  }

  function TerminalJobs(jobs: seq<Job>): seq<Job> {
    if jobs == [] then [] else (if jobs[0].Terminal() then [jobs[0]] else []) + TerminalJobs(jobs[1..])
  }

  function RunningCount(jobs: seq<Job>): nat {
    if jobs == [] then 0 else (if jobs[0].Terminal() then 0 else 1) + RunningCount(jobs[1..])
  }

  /** The jobs dropped for space: the first ones of the finished, oldest first. */
  function Evicted(jobs: seq<Job>, maxJobs: int): seq<Job> {
    var finished := Sort(TerminalJobs(jobs), OldestFinishedFirst);
    finished[..Min(Max(0, |jobs| - maxJobs), |finished|)]
  }

  function Reap(jobs: seq<Job>, now: real, retention: real, maxJobs: int): seq<Job> {
    var kept := Unexpired(jobs, now, retention);
    WithoutAll(kept, Evicted(kept, maxJobs))
  }

  lemma {:induction false} UnexpiredMembers(jobs: seq<Job>, now: real, retention: real)
    ensures forall j :: j in Unexpired(jobs, now, retention) <==> j in jobs && !Expired(j, now, retention)
  {
    if jobs != [] {
      UnexpiredMembers(jobs[1..], now, retention);
      assert jobs == [jobs[0]] + jobs[1..];
    }
  }

  lemma {:induction false} UnexpiredRunning(jobs: seq<Job>, now: real, retention: real)
    ensures RunningCount(Unexpired(jobs, now, retention)) == RunningCount(jobs)
  {
    if jobs != [] {
      UnexpiredRunning(jobs[1..], now, retention);
      var rest := Unexpired(jobs[1..], now, retention);
      assert ([jobs[0]] + rest)[1..] == rest && [] + rest == rest;
    }
  }

  lemma {:induction false} UnexpiredUnique(jobs: seq<Job>, now: real, retention: real)
    requires UniqueIds(jobs)
    ensures UniqueIds(Unexpired(jobs, now, retention))
  {
    if jobs != [] {
      HeadIsUnique(jobs);
      UnexpiredUnique(jobs[1..], now, retention);
      UnexpiredMembers(jobs[1..], now, retention);
      ConsUnique(jobs[0], Unexpired(jobs[1..], now, retention));
      assert [] + Unexpired(jobs[1..], now, retention) == Unexpired(jobs[1..], now, retention);
    }
  }

  lemma {:induction false} TerminalMembers(jobs: seq<Job>)
    ensures forall j :: j in TerminalJobs(jobs) <==> j in jobs && j.Terminal()
    ensures |TerminalJobs(jobs)| + RunningCount(jobs) == |jobs|
  {
    if jobs != [] {
      TerminalMembers(jobs[1..]);
      assert jobs == [jobs[0]] + jobs[1..];
    }
  }

  lemma {:induction false} TerminalUnique(jobs: seq<Job>)
    requires UniqueIds(jobs)
    ensures UniqueIds(TerminalJobs(jobs))
  {
    if jobs != [] {
      HeadIsUnique(jobs);
      TerminalUnique(jobs[1..]);
      TerminalMembers(jobs[1..]);
      ConsUnique(jobs[0], TerminalJobs(jobs[1..]));
      assert [] + TerminalJobs(jobs[1..]) == TerminalJobs(jobs[1..]);
    }
  }

  lemma TerminalJobsMeans(jobs: seq<Job>)
    ensures forall j :: j in TerminalJobs(jobs) <==> j in jobs && j.Terminal()
    ensures UniqueIds(jobs) ==> UniqueIds(TerminalJobs(jobs))
    ensures |TerminalJobs(jobs)| + RunningCount(jobs) == |jobs|
  {
    TerminalMembers(jobs);
    if UniqueIds(jobs) { TerminalUnique(jobs); }
  }

  lemma {:induction false} UnexpiredInOrder(jobs: seq<Job>, now: real, retention: real)
    ensures InOrder(Unexpired(jobs, now, retention), jobs)
  {
    if jobs != [] {
      UnexpiredInOrder(jobs[1..], now, retention);
      var rest := Unexpired(jobs[1..], now, retention);
      InOrderLonger(rest, jobs);
      assert ([jobs[0]] + rest)[1..] == rest && [] + rest == rest;
    }
  }

  lemma {:induction false} TerminalInOrder(jobs: seq<Job>)
    ensures InOrder(TerminalJobs(jobs), jobs)
  {
    if jobs != [] {
      TerminalInOrder(jobs[1..]);
      var rest := TerminalJobs(jobs[1..]);
      InOrderLonger(rest, jobs);
      assert ([jobs[0]] + rest)[1..] == rest && [] + rest == rest;
    }
  }

  /** A prefix of a sorted list holds its smallest members. */
  lemma PrefixIsOldest(finished: seq<Job>, n: nat, j: Job, k: Job)
    requires Sorted(finished, OldestFinishedFirst) && n <= |finished|
    requires j in finished[..n] && k in finished && k !in finished[..n]
    ensures Key(j, OldestFinishedFirst) <= Key(k, OldestFinishedFirst)
  {
    assert finished == finished[..n] + finished[n..];
    var a :| 0 <= a < n && finished[..n][a] == j;
    var b :| 0 <= b < |finished| - n && finished[n..][b] == k;
    assert finished[a] == j && finished[n + b] == k;
  }

  lemma EvictedMembers(jobs: seq<Job>, maxJobs: int)
    requires UniqueIds(jobs)
    ensures var e := Evicted(jobs, maxJobs);
            && UniqueIds(e) && (forall j :: j in e ==> j in jobs && j.Terminal())
            && |jobs| - |e| == Max(RunningCount(jobs), Min(|jobs|, maxJobs))
  {
    TerminalJobsMeans(jobs);
    SortSorts(TerminalJobs(jobs), OldestFinishedFirst);
  }

  lemma EvictedAreOldest(jobs: seq<Job>, maxJobs: int, j: Job, k: Job)
    requires j in Evicted(jobs, maxJobs) && k in jobs && k.Terminal() && k !in Evicted(jobs, maxJobs)
    ensures Key(j, OldestFinishedFirst) <= Key(k, OldestFinishedFirst)
  {
    TerminalJobsMeans(jobs);
    SortSorts(TerminalJobs(jobs), OldestFinishedFirst);
    var finished := Sort(TerminalJobs(jobs), OldestFinishedFirst);
    PrefixIsOldest(finished, |Evicted(jobs, maxJobs)|, j, k);
  }

  /** The job may stay: it is running, or has not been finished for longer than the
      retention time. */
  predicate Retained(j: Job, now: real, retention: real) {
    j.status.Running? || j.finishedAt.None? || now - j.finishedAt.value <= retention
  }

  /** `finished_at or 0.0` */
  function FinishTime(j: Job): real {
    match j.finishedAt
    case Some(t) => t
    case None => 0.0
  }

  lemma KeptIs(jobs: seq<Job>, now: real, retention: real)
    requires UniqueIds(jobs)
    ensures forall j :: j in Unexpired(jobs, now, retention) <==> j in jobs && Retained(j, now, retention)
    ensures |Unexpired(jobs, now, retention)| == |set j | j in jobs && Retained(j, now, retention)|
  {
    var kept := Unexpired(jobs, now, retention);
    UnexpiredMembers(jobs, now, retention);
    UnexpiredUnique(jobs, now, retention);
    CountsOnce(kept);
    assert (set j | j in jobs && Retained(j, now, retention)) == set j | j in kept;
  }

  lemma RunningAre(jobs: seq<Job>)
    requires UniqueIds(jobs)
    ensures RunningCount(jobs) == |set j | j in jobs && j.status.Running?|
  {
    TerminalJobsMeans(jobs);
    CountsOnce(jobs);
    CountsOnce(TerminalJobs(jobs));
    var all, finished := set j | j in jobs, set j | j in TerminalJobs(jobs);
    assert finished <= all && (set j | j in jobs && j.status.Running?) == all - finished;
  }

  lemma ReapMembers(jobs: seq<Job>, now: real, retention: real, maxJobs: int)
    requires UniqueIds(jobs)
    ensures var kept := Unexpired(jobs, now, retention);
            var r := Reap(jobs, now, retention, maxJobs);
            && UniqueIds(kept) && UniqueIds(r) && RunningCount(kept) == RunningCount(jobs)
            && |r| == Max(RunningCount(jobs), Min(|kept|, maxJobs))
            && (forall j :: j in r <==> j in kept && j !in Evicted(kept, maxJobs))
            && (forall j :: j in Evicted(kept, maxJobs) ==> j.Terminal())
            && (Evicted(kept, maxJobs) != [] ==> |kept| > maxJobs)
  {
    var kept := Unexpired(jobs, now, retention);
    UnexpiredUnique(jobs, now, retention);
    UnexpiredRunning(jobs, now, retention);
    EvictedMembers(kept, maxJobs);
    WithoutAllMeans(kept, Evicted(kept, maxJobs));
  }

  /** The reap algorithm, for any store and any limit, negative ones included: running
      jobs all survive, no finished job past retention does, any other job goes only if
      more than the limit were left, and the size is the number of running jobs or the
      limit, whichever is larger, unless fewer are left anyway. The survivors keep their
      order. */
  lemma ReapMeans(jobs: seq<Job>, now: real, retention: real, maxJobs: int)
    requires UniqueIds(jobs)
    ensures var r := Reap(jobs, now, retention, maxJobs);
            var running := set j | j in jobs && j.status.Running?;
            var kept := set j | j in jobs && Retained(j, now, retention);
            && UniqueIds(r) && InOrder(r, jobs)
            && (forall j :: j in r ==> j in kept) && (forall j :: j in running ==> j in r)
            && (forall j :: j in kept && j !in r ==> |kept| > maxJobs)
            && |r| == Max(|running|, Min(|kept|, maxJobs))
  {
    KeptIs(jobs, now, retention);
    RunningAre(jobs);
    ReapMembers(jobs, now, retention, maxJobs);
    var kept := Unexpired(jobs, now, retention);
    UnexpiredInOrder(jobs, now, retention);
    WithoutAllInOrder(kept, Evicted(kept, maxJobs));
    InOrderTrans(Reap(jobs, now, retention, maxJobs), kept, jobs);
  }

  /** Whoever is evicted for space finished before every finished survivor, or at the same
      time and came first in the store. */
  lemma ReapEvictsOldest(jobs: seq<Job>, now: real, retention: real, maxJobs: int, j: Job, k: Job)
    requires UniqueIds(jobs) && j in jobs && Retained(j, now, retention)
    requires j !in Reap(jobs, now, retention, maxJobs)
    requires k in Reap(jobs, now, retention, maxJobs) && !k.status.Running?
    ensures FinishTime(j) < FinishTime(k) || (FinishTime(j) == FinishTime(k) && Before(jobs, j, k))
  {
    var kept := Unexpired(jobs, now, retention);
    KeptIs(jobs, now, retention);
    ReapMembers(jobs, now, retention, maxJobs);
    EvictedAreOldest(kept, maxJobs, j, k);
    if FinishTime(j) == FinishTime(k) {
      EvictedCameFirst(kept, maxJobs, j, k);
      UnexpiredInOrder(jobs, now, retention);
      InOrderBefore(kept, jobs, j, k);
    }
  }

  lemma EvictedCameFirst(jobs: seq<Job>, maxJobs: int, j: Job, k: Job)
    requires UniqueIds(jobs)
    requires j in Evicted(jobs, maxJobs) && k in jobs && k.Terminal() && k !in Evicted(jobs, maxJobs)
    requires Key(j, OldestFinishedFirst) == Key(k, OldestFinishedFirst)
    ensures Before(jobs, j, k)
  {
    var terminal := TerminalJobs(jobs);
    TerminalJobsMeans(jobs);
    SortSorts(terminal, OldestFinishedFirst);
    PrefixComesFirst(Sort(terminal, OldestFinishedFirst), |Evicted(jobs, maxJobs)|, j, k);
    UnsortBefore(terminal, OldestFinishedFirst, j, k);
    TerminalInOrder(jobs);
    InOrderBefore(terminal, jobs, j, k);
  }

  lemma PrefixComesFirst(finished: seq<Job>, n: nat, j: Job, k: Job)
    requires n <= |finished| && j in finished[..n] && k in finished && k !in finished[..n]
    ensures Before(finished, j, k)
  {
    assert finished == finished[..n] + finished[n..];
    var a :| 0 <= a < n && finished[..n][a] == j;
    var b :| 0 <= b < |finished| - n && finished[n..][b] == k;
    assert finished[a] == j && finished[n + b] == k;
  }

  /** Of two jobs with the same key the one that the sort puts first came first. */
  lemma UnsortBefore(jobs: seq<Job>, order: Order, j: Job, k: Job)
    requires UniqueIds(jobs) && j in jobs && k in jobs && j != k
    requires Key(j, order) == Key(k, order) && Before(Sort(jobs, order), j, k)
    ensures Before(jobs, j, k)
  {
    SortSorts(jobs, order);
    OneOrder(Sort(jobs, order), j, k);
    OneOrder(jobs, j, k);
    if Before(jobs, k, j) { SortIsStable(jobs, order, k, j); }
  }

  // ---- submit, finish, list ----

  function NewJob(id: nat, prompt: string, timeoutSec: real, now: real): Job {
    Job(id, prompt[..Min(|prompt|, 80)], timeoutSec, Running, now, None, Str(""), Int(0), Str(""), None)
  }

  function Submit(jobs: seq<Job>, job: Job, now: real, retention: real, maxJobs: int): seq<Job> {
    Reap(jobs, now, retention, maxJobs) + [job]
  }

  /** Setting a job's entry in place. */
  function Put(jobs: seq<Job>, job: Job): seq<Job> {
    if jobs == [] then []
    else if jobs[0].id == job.id then [job] + jobs[1..]
    else [jobs[0]] + Put(jobs[1..], job)
  }

  function Find(jobs: seq<Job>, id: nat): Option<Job> {
    if jobs == [] then None else if jobs[0].id == id then Some(jobs[0]) else Find(jobs[1..], id)
  }

  lemma {:induction false} FindMeans(jobs: seq<Job>, id: nat)
    requires UniqueIds(jobs)
    ensures Find(jobs, id).Some? ==> Find(jobs, id).value in jobs && Find(jobs, id).value.id == id
    ensures forall j :: j in jobs && j.id == id ==> Find(jobs, id) == Some(j)
  {
    if jobs != [] {
      HeadIsUnique(jobs);
      FindMeans(jobs[1..], id);
      assert jobs == [jobs[0]] + jobs[1..];
    }
  }

  /** Putting a job leaves every other entry, and its own place in the order, as they are. */
  lemma {:induction false} PutInPlace(jobs: seq<Job>, job: Job)
    requires UniqueIds(jobs)
    ensures |Put(jobs, job)| == |jobs|
    ensures forall i :: 0 <= i < |jobs| ==> Put(jobs, job)[i] == if jobs[i].id == job.id then job else jobs[i]
  {
    if jobs != [] {
      HeadIsUnique(jobs);
      if jobs[0].id != job.id {
        PutInPlace(jobs[1..], job);
      }
    }
  }

  lemma {:induction false} PutMeans(jobs: seq<Job>, job: Job)
    requires UniqueIds(jobs)
    ensures UniqueIds(Put(jobs, job)) && |Put(jobs, job)| == |jobs|
    ensures forall j :: j in Put(jobs, job) <==>
              (j in jobs && j.id != job.id)
              || (j == job && exists k :: k in jobs && k.id == job.id)
  {
    if jobs != [] {
      HeadIsUnique(jobs);
      PutMeans(jobs[1..], job);
      assert jobs == [jobs[0]] + jobs[1..];
      if jobs[0].id == job.id {
        ConsUnique(job, jobs[1..]);
      } else {
        ConsUnique(jobs[0], Put(jobs[1..], job));
      }
    }
  }

  /** _finish with the fields that each way of ending sets. */
  function FinishCancelled(job: Job, now: real): Job {
    job.(status := CancelledStatus, finishedAt := Some(now), error := Str("cancelled"))
  }

  function FinishRaised(job: Job, now: real, message: string): Job {
    job.(status := FailedStatus, finishedAt := Some(now), error := Str(message), failure := Some(WORKER_FAILED))
  }

  function FinishWith(job: Job, now: real, o: Outcome): Job {
    if o.succeeded then
      job.(status := Succeeded, finishedAt := Some(now), text := o.text, durationMs := o.durationMs)
    else
      job.(status := FailedStatus, finishedAt := Some(now),
           error := o.error, failure := o.failure, durationMs := o.durationMs)
  }

  /** How _run finishes its job, from the way execute() ended. */
  function Finished(job: Job, e: Runner.Ending, now: real): Job {
    match e
    case Cancelled => FinishCancelled(job, now)
    case Raised => FinishRaised(job, now, "unexpected error")
    case Returned(o) => FinishWith(job, now, o)
  }

  /** A new job: running, created now, not finished, with as much of the prompt as a
      listing shows, and none of the things a finished job has. */
  lemma NewJobMeans(id: nat, prompt: string, timeoutSec: real, now: real)
    ensures var j := NewJob(id, prompt, timeoutSec, now);
            && j.id == id && j.status == Running && j.createdAt == now && j.timeoutSec == timeoutSec
            && j.promptPreview <= prompt && (|j.promptPreview| == 80 || (|prompt| < 80 && j.promptPreview == prompt))
            && j.finishedAt == None && j.failure == None
            && j.text == Str("") && j.error == Str("") && j.durationMs == Int(0)
  {
    assert |prompt| < 80 ==> prompt[..|prompt|] == prompt;
  }

  /** Right after a submit the store holds at most max_jobs finished and running jobs
      together, or the running ones if they are more, plus the new one, which comes last. */
  lemma SubmitBound(jobs: seq<Job>, job: Job, now: real, retention: real, maxJobs: int)
    requires UniqueIds(jobs) && forall j :: j in jobs ==> j.id != job.id
    ensures var r := Submit(jobs, job, now, retention, maxJobs);
            && UniqueIds(r) && job in r && r[|r| - 1] == job && InOrder(r[..|r| - 1], jobs)
            && |r| <= Max(maxJobs, |set j | j in jobs && j.status.Running?|) + 1
            && (forall j :: j in jobs && j.status.Running? ==> j in r)
            && (forall j :: j in r && j != job ==> j in jobs && Retained(j, now, retention))
  {
    var kept := Reap(jobs, now, retention, maxJobs);
    assert Submit(jobs, job, now, retention, maxJobs) == kept + [job];
    AddedLast(kept, job);
    ReapBound(jobs, now, retention, maxJobs);
    AddUnique(kept, job);
  }

  lemma ReapBound(jobs: seq<Job>, now: real, retention: real, maxJobs: int)
    requires UniqueIds(jobs)
    ensures var kept := Reap(jobs, now, retention, maxJobs);
            && UniqueIds(kept) && InOrder(kept, jobs)
            && |kept| <= Max(maxJobs, |set j | j in jobs && j.status.Running?|)
            && (forall j :: j in jobs && j.status.Running? ==> j in kept)
            && (forall j :: j in kept ==> j in jobs && Retained(j, now, retention))
  {
    ReapMeans(jobs, now, retention, maxJobs);
  }

  lemma AddedLast(kept: seq<Job>, job: Job)
    ensures var r := kept + [job];
            r[|r| - 1] == job && r[..|r| - 1] == kept && forall j :: j in r <==> j in kept || j == job
  {
  }

  lemma AddUnique(kept: seq<Job>, job: Job)
    requires UniqueIds(kept) && forall j :: j in kept ==> j.id != job.id
    ensures UniqueIds(kept + [job])
  {
    assert forall i :: 0 <= i < |kept| ==> kept[i] in kept;
  }

  /** list(): the reaped store, every job once, newest first, and of two jobs created at
      the same time the one submitted first. */
  lemma ListMeans(jobs: seq<Job>, now: real, retention: real, maxJobs: int)
    requires UniqueIds(jobs)
    ensures var kept := Reap(jobs, now, retention, maxJobs);
            var r := Sort(kept, NewestCreatedFirst);
            && multiset(r) == multiset(kept)
            && (forall i, j :: 0 <= i < j < |r| ==> r[i].createdAt >= r[j].createdAt)
            && forall j, k :: Before(kept, j, k) && j.createdAt == k.createdAt ==> Before(r, j, k)
  {
    var kept := Reap(jobs, now, retention, maxJobs);
    SortSorts(kept, NewestCreatedFirst);
    var r := Sort(kept, NewestCreatedFirst);
    assert forall i, j :: 0 <= i < j < |r| ==> Key(r[i], NewestCreatedFirst) <= Key(r[j], NewestCreatedFirst);
    forall j, k | Before(kept, j, k) && j.createdAt == k.createdAt ensures Before(r, j, k) {
      SortIsStable(kept, NewestCreatedFirst, j, k);
    }
  }
}
