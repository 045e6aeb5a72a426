/** How releases and sequential traffic move the number of workers.

    The user documentation says that after a drain continued traffic climbs back to
    min_workers. Releases never raise the count, so it does not. */
module ReleaseLaw {
  import opened Wrappers
  import opened IdleQueue
  import opened PoolModel
  import opened Ownership
  import opened PoolInvariant
  import opened PoolSteps

  /** The lock is free, the pool open, and no request waits for anything. */
  predicate Calm(s: State) {
    s.lock.Free? && !s.f.stopped && s.parked == [] && s.notified == [] && s.leaving == [] && s.f.waiting == 0
    && s.grows == 0 && s.f.pendingGrows == 0
  }

  /** The steps by which a killed worker's release completes when its spawn succeeds. */
  function ReleaseSteps(cfg: Config, s: State, w: nat): seq<Label>
    requires Enabled(cfg, s, ReleaseCounts(w))
  {
    if CountRelease(cfg, s, w).lock.Replenishing? then [ReleaseCounts(w), SpawnSucceeds] else [ReleaseCounts(w)]
  }

  function AfterRelease(cfg: Config, s: State, w: nat): State
    requires Enabled(cfg, s, ReleaseCounts(w))
  {
    var t := Step(cfg, s, ReleaseCounts(w));
    if t.lock.Replenishing? then Step(cfg, t, SpawnSucceeds) else t
  }

  lemma OneStep(cfg: Config, s: State, a: Label)
    requires Enabled(cfg, s, a)
    ensures Leads(cfg, s, [a], Step(cfg, s, a))
  {
    assert [a][1..] == [];
  }

  lemma {:induction false} Join(cfg: Config, s: State, a: seq<Label>, t: State, b: seq<Label>, u: State)
    requires Leads(cfg, s, a, t) && Leads(cfg, t, b, u)
    ensures Leads(cfg, s, a + b, u)
    decreases |a|
  {
    if a == [] {
      assert a + b == b;
    } else {
      assert (a + b)[1..] == a[1..] + b;
      Join(cfg, Step(cfg, s, a[0]), a[1..], t, b, u);
    }
  }

  lemma TwoSteps(cfg: Config, s: State, a: Label, b: Label)
    requires Enabled(cfg, s, a) && Enabled(cfg, Step(cfg, s, a), b)
    ensures Leads(cfg, s, [a, b], Step(cfg, Step(cfg, s, a), b))
  {
    OneStep(cfg, s, a);
    OneStep(cfg, Step(cfg, s, a), b);
    assert [a] + [b] == [a, b];
    Join(cfg, s, [a], Step(cfg, s, a), [b], Step(cfg, Step(cfg, s, a), b));
  }

  /** One release from a calm pool: the count stays where it is below min_workers and
      falls by one from above; it never rises. */
  lemma ReleaseLeads(cfg: Config, s: State, w: nat)
    requires Enabled(cfg, s, ReleaseCounts(w))
    ensures Leads(cfg, s, ReleaseSteps(cfg, s, w), AfterRelease(cfg, s, w))
  {
    if Step(cfg, s, ReleaseCounts(w)).lock.Replenishing? {
      TwoSteps(cfg, s, ReleaseCounts(w), SpawnSucceeds);
    } else {
      OneStep(cfg, s, ReleaseCounts(w));
    }
  }

  lemma ReleaseKeepsInv(cfg: Config, s: State, w: nat)
    requires Inv(cfg, s) && Enabled(cfg, s, ReleaseCounts(w))
    ensures Inv(cfg, AfterRelease(cfg, s, w))
  {
    ReleaseLeads(cfg, s, w);
    RunKeepsInv(cfg, s, ReleaseSteps(cfg, s, w));
  }

  lemma ReleaseStaysCalm(cfg: Config, s: State, w: nat)
    requires Calm(s) && Enabled(cfg, s, ReleaseCounts(w))
    ensures Calm(AfterRelease(cfg, s, w))
    ensures AfterRelease(cfg, s, w).f.total == Max(Min(s.f.total, cfg.minWorkers), s.f.total - 1)
  {
  }

  lemma ReleaseKeepsOthers(cfg: Config, s: State, w: nat)
    requires Counted(s) && Enabled(cfg, s, ReleaseCounts(w))
    ensures forall v :: v != w && v in s.at && s.at[v].ReleaseKilled? ==>
              v in AfterRelease(cfg, s, w).at && AfterRelease(cfg, s, w).at[v].ReleaseKilled?
  {
  }

  lemma OneRelease(cfg: Config, s: State, w: nat)
    requires Inv(cfg, s) && Calm(s) && Enabled(cfg, s, ReleaseCounts(w))
    ensures Leads(cfg, s, ReleaseSteps(cfg, s, w), AfterRelease(cfg, s, w))
    ensures Inv(cfg, AfterRelease(cfg, s, w)) && Calm(AfterRelease(cfg, s, w))
    ensures AfterRelease(cfg, s, w).f.total == Max(Min(s.f.total, cfg.minWorkers), s.f.total - 1)
    ensures forall v :: v != w && v in s.at && s.at[v].ReleaseKilled? ==>
              v in AfterRelease(cfg, s, w).at && AfterRelease(cfg, s, w).at[v].ReleaseKilled?
  {
    ReleaseLeads(cfg, s, w);
    ReleaseKeepsInv(cfg, s, w);
    ReleaseStaysCalm(cfg, s, w);
    ReleaseKeepsOthers(cfg, s, w);
  }

  // ---- any number of releases, however they interleave ----

  /** Steps of workers coming back, and what time does meanwhile. */
  predicate ComingBack(l: Label) {
    l.ReleaseScheduled? || l.ReleaseKills? || l.ReleaseCounts? || l.SpawnSucceeds? || l.WorkerDies? || l.Tick?
  }

  function Counts(labels: seq<Label>): nat {
    if labels == [] then 0 else (if labels[0].ReleaseCounts? then 1 else 0) + Counts(labels[1..])
  }

  /** The count, with the worker being spawned for a release. */
  function Owed(s: State): int {
    s.f.total + if s.lock.Replenishing? then 1 else 0
  }

  predicate NobodyWaits(s: State) {
    !s.f.stopped && s.parked == [] && s.f.waiting == 0 && (s.lock.Free? || s.lock.Replenishing?)
  }

  lemma OneBack(cfg: Config, s: State, l: Label)
    requires NobodyWaits(s) && Enabled(cfg, s, l) && ComingBack(l)
    ensures var t := Step(cfg, s, l);
            NobodyWaits(t)
            && Owed(t) == if l.ReleaseCounts? then Max(Min(Owed(s), cfg.minWorkers), Owed(s) - 1) else Owed(s)
  {
  }

  lemma {:induction false} AllBack(cfg: Config, s: State, labels: seq<Label>)
    requires NobodyWaits(s) && Runs(cfg, s, labels) && forall l :: l in labels ==> ComingBack(l)
    ensures NobodyWaits(After(cfg, s, labels))
    ensures Owed(After(cfg, s, labels)) == Max(Min(Owed(s), cfg.minWorkers), Owed(s) - Counts(labels))
    decreases |labels|
  {
    if labels != [] {
      OneBack(cfg, s, labels[0]);
      AllBack(cfg, Step(cfg, s, labels[0]), labels[1..]);
    }
  }

  /** The release law: with nobody waiting and every spawn succeeding, any run in which k
      releases are counted, interleaved in any way, takes the count from t to
      max(min(t, min_workers), t - k) by the time the lock is free again. */
  lemma ReleaseLaw(cfg: Config, s: State, labels: seq<Label>)
    requires Calm(s) && Runs(cfg, s, labels) && forall l :: l in labels ==> ComingBack(l)
    requires After(cfg, s, labels).lock.Free?
    ensures After(cfg, s, labels).f.total == Max(Min(s.f.total, cfg.minWorkers), s.f.total - Counts(labels))
  {
    AllBack(cfg, s, labels);
  }

  // ---- sequential traffic ----

  /** Between two requests of sequential traffic: everyone counted is idle and alive. */
  ghost predicate AtRest(cfg: Config, s: State) {
    Inv(cfg, s) && Calm(s) && forall w :: w in s.at ==> s.at[w].Idle? && w in s.live
  }

  /** While one request of sequential traffic is served: everyone else is idle and alive. */
  ghost predicate Serving(cfg: Config, s: State, w: nat, place: Place) {
    && Inv(cfg, s) && Calm(s) && w in s.at && s.at[w] == place
    && forall v :: v in s.at && v != w ==> s.at[v].Idle? && v in s.live
  }

  /** What the acquire loop does when the first idle worker is alive. */
  lemma TakeFirst(cfg: Config, s: State, call: nat)
    requires Calm(s) && s.f.idle != [] && s.f.idle[0].id in s.live
    ensures LoopTop(cfg, s, call).answer == Got(s.f.idle[0])
    ensures Step(cfg, s, AcquireEnter(call))
            == s.(f := s.f.(idle := s.f.idle[1..]), at := s.at[s.f.idle[0].id := Out(call)])
  {
    assert s.f.idle[..0] == [] && s.f.idle[0..] == s.f.idle;
    assert s.at - ToSet(WorkerIds([])) == s.at;
  }

  lemma SomeoneIdle(cfg: Config, s: State)
    requires AtRest(cfg, s) && s.f.total > 0
    ensures s.f.idle != [] && s.f.idle[0].id in s.at && s.f.idle[0].id in s.live
  {
    OwnsAll(WorkerIds(s.f.idle), s.at, Idle);
    assert Holding(s.at, Idle) == s.at.Keys;
    assert WorkerIds(s.f.idle)[0] in WorkerIds(s.f.idle);
  }

  /** An idle worker is there: the request takes it at once. */
  lemma TakenIsServed(cfg: Config, s: State, call: nat)
    requires AtRest(cfg, s) && s.f.idle != [] && s.f.idle[0].id in s.at
    requires Inv(cfg, s.(f := s.f.(idle := s.f.idle[1..]), at := s.at[s.f.idle[0].id := Out(call)]))
    ensures Serving(cfg, s.(f := s.f.(idle := s.f.idle[1..]), at := s.at[s.f.idle[0].id := Out(call)]),
                    s.f.idle[0].id, Out(call))
  {
  }

  lemma TakeIdle(cfg: Config, s: State, call: nat) returns (t: State, w: nat)
    requires AtRest(cfg, s) && s.f.total > 0
    ensures Enabled(cfg, s, AcquireEnter(call)) && t == Step(cfg, s, AcquireEnter(call))
            && LoopTop(cfg, s, call).answer.Got?
    ensures Serving(cfg, t, w, Out(call)) && t.f.total == s.f.total
  {
    SomeoneIdle(cfg, s);
    TakeFirst(cfg, s, call);
    TakeFrontKeeps(cfg, s, call);
    t, w := s.(f := s.f.(idle := s.f.idle[1..]), at := s.at[s.f.idle[0].id := Out(call)]), s.f.idle[0].id;
    TakenIsServed(cfg, s, call);
  }

  /** Taking nothing away from a map leaves it as it was. */
  lemma NobodyToDrop(at: map<nat, Place>)
    ensures at - ToSet(WorkerIds([])) == at
  {
    assert ToSet(WorkerIds([])) == {};
  }

  /** The acquire loop finds nobody idle: the request parks. */
  lemma LoopTopOnEmpty(cfg: Config, s: State, call: nat)
    requires s.f.idle == [] && !s.f.stopped
    ensures LoopTop(cfg, s, call) == Turn(Park(cfg, s, call), Waits)
  {
    NobodyToDrop(s.at);
  }

  /** What the acquire loop does on an empty pool, and what the grow then does for it. */
  lemma ParkOnEmpty(cfg: Config, s: State, call: nat)
    requires Calm(s) && s.f.idle == [] && s.f.total == 0 && 1 <= cfg.maxWorkers
    ensures Step(cfg, s, AcquireEnter(call)) == Asked(s, call)
  {
    LoopTopOnEmpty(cfg, s, call);
  }

  /** The parked request with a grow queued for it. */
  function Asked(s: State, call: nat): State {
    s.(f := s.f.(waiting := 1, pendingGrows := 1), grows := 1, parked := [Ticket(call, |s.log|)])
  }

  /** The grow has run and woken it. */
  function Grown(s: State, call: nat): State {
    s.(f := s.f.(waiting := 1, idle := [Worker(s.next, s.now)], total := 1, spawnError := None),
       live := s.live + {s.next}, at := map[s.next := Idle], next := s.next + 1, log := s.log + [Spawned],
       notified := [Ticket(call, |s.log|)])
  }

  lemma GrowOnEmpty(cfg: Config, s: State, call: nat)
    requires Calm(s) && s.f.idle == [] && s.at == map[] && s.f.total == 0 && 1 <= cfg.maxWorkers
    ensures Leads(cfg, Asked(s, call), [GrowBegins, SpawnSucceeds], Grown(s, call))
  {
    var a := Asked(s, call);
    assert Step(cfg, a, GrowBegins) == a.(grows := 0, lock := Growing);
    TwoSteps(cfg, a, GrowBegins, SpawnSucceeds);
  }

  lemma TakeGrown(cfg: Config, s: State, call: nat)
    requires Calm(s)
    ensures Enabled(cfg, Grown(s, call), AcquireResume(0))
    ensures var c := Grown(s, call);
            Step(cfg, c, AcquireResume(0))
            == c.(notified := [], f := c.f.(waiting := 0, idle := []), at := map[s.next := Out(call)])
  {
    var c := Grown(s, call);
    assert c.f.idle[..0] == [] && c.f.idle[0..] == c.f.idle;
    assert c.at - ToSet(WorkerIds([])) == c.at;
  }

  lemma EmptyAtRest(cfg: Config, s: State)
    requires AtRest(cfg, s) && s.f.total == 0
    ensures s.at == map[] && s.f.idle == []
  {
    assert |s.at.Keys| == 0;
    OwnsAll(WorkerIds(s.f.idle), s.at, Idle);
    assert Holding(s.at, Idle) == {};
  }

  /** The request on an empty pool, in one run. */
  lemma FetchGrown(cfg: Config, s: State, call: nat) returns (labels: seq<Label>, t: State)
    requires Calm(s) && s.f.idle == [] && s.at == map[] && s.f.total == 0 && 1 <= cfg.maxWorkers
    ensures Leads(cfg, s, labels, t) && labels != [] && labels[0] == AcquireEnter(call)
    ensures var c := Grown(s, call);
            t == c.(notified := [], f := c.f.(waiting := 0, idle := []), at := map[s.next := Out(call)])
  {
    ParkOnEmpty(cfg, s, call);
    OneStep(cfg, s, AcquireEnter(call));
    GrowOnEmpty(cfg, s, call);
    TakeGrown(cfg, s, call);
    OneStep(cfg, Grown(s, call), AcquireResume(0));
    t := Step(cfg, Grown(s, call), AcquireResume(0));
    var grow := [GrowBegins, SpawnSucceeds];
    Join(cfg, Asked(s, call), grow, Grown(s, call), [AcquireResume(0)], t);
    labels := [AcquireEnter(call)] + (grow + [AcquireResume(0)]);
    Join(cfg, s, [AcquireEnter(call)], Asked(s, call), grow + [AcquireResume(0)], t);
  }

  /** A request gets a worker: at once if one is idle, by a grow if the pool is empty. */
  lemma Fetch(cfg: Config, s: State, call: nat) returns (labels: seq<Label>, t: State, w: nat)
    requires AtRest(cfg, s) && 1 <= cfg.maxWorkers
    ensures Leads(cfg, s, labels, t) && labels != [] && labels[0] == AcquireEnter(call)
    ensures Serving(cfg, t, w, Out(call)) && t.f.total == Max(s.f.total, 1)
  {
    if s.f.total > 0 {
      t, w := TakeIdle(cfg, s, call);
      labels := [AcquireEnter(call)];
      OneStep(cfg, s, AcquireEnter(call));
    } else {
      EmptyAtRest(cfg, s);
      labels, t := FetchGrown(cfg, s, call);
      w := s.next;
      LeadsKeepInv(cfg, s, labels, t);
    }
  }

  lemma LeadsKeepInv(cfg: Config, s: State, labels: seq<Label>, t: State)
    requires Inv(cfg, s) && Leads(cfg, s, labels, t)
    ensures Inv(cfg, t)
  {
    RunKeepsInv(cfg, s, labels);
  }

  lemma KilledAgain(cfg: Config, s: State, w: nat, call: nat)
    requires Serving(cfg, s, w, Out(call))
    ensures Leads(cfg, s, [ReleaseScheduled(w), ReleaseKills(w)],
                  s.(live := s.live - {w}, at := s.at[w := ReleaseKilled]))
    ensures Serving(cfg, s.(live := s.live - {w}, at := s.at[w := ReleaseKilled]), w, ReleaseKilled)
  {
    TwoSteps(cfg, s, ReleaseScheduled(w), ReleaseKills(w));
    var t := s.(live := s.live - {w}, at := s.at[w := ReleaseKilled]);
    assert s.at[w := ReleaseQueued][w := ReleaseKilled] == t.at;
    LeadsKeepInv(cfg, s, [ReleaseScheduled(w), ReleaseKills(w)], t);
  }

  lemma RestAfterFinish(cfg: Config, s: State, w: nat)
    requires Serving(cfg, s, w, ReleaseKilled)
    ensures forall v :: v in AfterRelease(cfg, s, w).at ==>
              AfterRelease(cfg, s, w).at[v].Idle? && v in AfterRelease(cfg, s, w).live
  {
  }

  /** The way back: the release is scheduled, kills, counts and, if need be, replenishes. */
  lemma GiveBack(cfg: Config, s: State, w: nat, call: nat) returns (labels: seq<Label>, t: State)
    requires Serving(cfg, s, w, Out(call))
    ensures Leads(cfg, s, labels, t) && AtRest(cfg, t)
    ensures t.f.total == Max(Min(s.f.total, cfg.minWorkers), s.f.total - 1)
  {
    KilledAgain(cfg, s, w, call);
    var b := s.(live := s.live - {w}, at := s.at[w := ReleaseKilled]);
    OneRelease(cfg, b, w);
    RestAfterFinish(cfg, b, w);
    t := AfterRelease(cfg, b, w);
    labels := [ReleaseScheduled(w), ReleaseKills(w)] + ReleaseSteps(cfg, b, w);
    Join(cfg, s, [ReleaseScheduled(w), ReleaseKills(w)], b, ReleaseSteps(cfg, b, w), t);
  }

  /** One request, start to finish, with nothing else going on. */
  lemma ServeOne(cfg: Config, s: State, call: nat) returns (labels: seq<Label>, t: State)
    requires AtRest(cfg, s) && 1 <= cfg.maxWorkers
    ensures Leads(cfg, s, labels, t) && AtRest(cfg, t) && AcquireEnter(call) in labels
    ensures var m := Max(s.f.total, 1); t.f.total == Max(Min(m, cfg.minWorkers), m - 1)
  {
    var fetch, u, w := Fetch(cfg, s, call);
    var back;
    back, t := GiveBack(cfg, u, w, call);
    labels := fetch + back;
    Join(cfg, s, fetch, u, back, t);
    assert labels[0] == AcquireEnter(call);
  }

  /** Where k sequential requests take a pool of n idle workers. */
  function AfterRequests(minWorkers: int, n: int, k: nat): int {
    if k == 0 then n else var m := Max(n, 1); Max(0, Max(Min(m, minWorkers), m - k))
  }

  lemma OneRequestMore(minWorkers: int, n: int, k: nat)
    requires n >= 0 && k > 0
    ensures var m := Max(n, 1);
            AfterRequests(minWorkers, Max(Min(m, minWorkers), m - 1), k - 1) == AfterRequests(minWorkers, n, k)
  {
  }

  lemma AllAsked(calls: seq<nat>, one: seq<Label>, rest: seq<Label>)
    requires calls != [] && AcquireEnter(calls[0]) in one && forall c :: c in calls[1..] ==> AcquireEnter(c) in rest
    ensures forall c :: c in calls ==> AcquireEnter(c) in one + rest
  {
    forall c | c in calls ensures AcquireEnter(c) in one + rest {
      assert c == calls[0] || c in calls[1..];
    }
  }

  lemma {:induction false} ServeAll(cfg: Config, s: State, calls: seq<nat>) returns (labels: seq<Label>, t: State)
    requires AtRest(cfg, s) && 1 <= cfg.maxWorkers
    ensures Leads(cfg, s, labels, t) && AtRest(cfg, t)
    ensures forall c :: c in calls ==> AcquireEnter(c) in labels
    ensures t.f.total == AfterRequests(cfg.minWorkers, s.f.total, |calls|)
    decreases |calls|
  {
    if calls == [] {
      labels, t := [], s;
    } else {
      var one, u := ServeOne(cfg, s, calls[0]);
      var rest;
      rest, t := ServeAll(cfg, u, calls[1..]);
      labels := one + rest;
      Join(cfg, s, one, u, rest, t);
      AllAsked(calls, one, rest);
      OneRequestMore(cfg.minWorkers, s.f.total, |calls|);
    }
  }

  /** Sequential traffic from any pool at rest, request by request. */
  lemma ServedInSequence(cfg: Config, s: State, calls: seq<nat>)
    requires AtRest(cfg, s) && 1 <= cfg.maxWorkers
    ensures exists labels, t ::
              Leads(cfg, s, labels, t) && AtRest(cfg, t) && (forall c :: c in calls ==> AcquireEnter(c) in labels)
              && t.f.total == AfterRequests(cfg.minWorkers, s.f.total, |calls|)
  {
    var labels, t := ServeAll(cfg, s, calls);
  }

  /** After a drain, sequential traffic brings back exactly one worker, however long it
      goes on: it re-warms the pool to min_workers if and only if that is one (or none). */
  lemma DrainedPoolRegainsOne(cfg: Config, s: State, calls: seq<nat>)
    requires AtRest(cfg, s) && 1 <= cfg.maxWorkers && 0 <= cfg.minWorkers && s.f.total == 0 && calls != []
    ensures exists labels, t ::
              Leads(cfg, s, labels, t) && AtRest(cfg, t) && (forall c :: c in calls ==> AcquireEnter(c) in labels)
              && t.f.total == Min(cfg.minWorkers, 1)
              && (t.f.total == cfg.minWorkers <==> cfg.minWorkers <= 1)
  {
    var labels, t := ServeAll(cfg, s, calls);
  }

  /** From a fully warmed pool sequential traffic keeps exactly min_workers idle, so
      the sweep's excess rule never has anyone to take. */
  lemma WarmPoolStaysWarm(cfg: Config, s: State, calls: seq<nat>)
    requires AtRest(cfg, s) && 1 <= cfg.maxWorkers && 1 <= cfg.minWorkers && s.f.total == cfg.minWorkers
    ensures exists labels, t ::
              Leads(cfg, s, labels, t) && AtRest(cfg, t) && (forall c :: c in calls ==> AcquireEnter(c) in labels)
              && |t.f.idle| == cfg.minWorkers && Max(0, |t.f.idle| - cfg.minWorkers) == 0
  {
    var labels, t := ServeAll(cfg, s, calls);
    OwnsAll(WorkerIds(t.f.idle), t.at, Idle);
    assert Holding(t.at, Idle) == t.at.Keys;
  }
}
