/** The condition's queues against the callers: every parked or woken ticket is that of
    exactly one waiting caller, so no wake-up goes to one that is gone. */
module DaemonQueues {
  import opened Runner
  import opened PoolModel
  import opened PoolSteps
  import opened Daemon

  function Calls(tickets: seq<Ticket>): seq<nat> {
    seq(|tickets|, i requires 0 <= i < |tickets| => tickets[i].call)
  }

  /** Everyone in the condition's queues, with multiplicity. */
  function Bag(s: State): multiset<nat> {
    multiset(Calls(s.parked)) + multiset(Calls(s.notified))
  }

  /** The cancelled waiters that still have to take the lock to leave. */
  function LeavingBag(s: State): multiset<nat> {
    multiset(s.leaving)
  }

  function QueuedTickets(tasks: map<nat, Task>, id: nat): nat {
    if id in tasks && tasks[id].phase.Queued? then 1 else 0
  }

  function LeavingTickets(tasks: map<nat, Task>, id: nat): nat {
    if id in tasks && tasks[id].phase.Leaving? then 1 else 0
  }

  ghost predicate Match(bag: multiset<nat>, leaving: multiset<nat>, tasks: map<nat, Task>) {
    forall id :: bag[id] == QueuedTickets(tasks, id) && leaving[id] == LeavingTickets(tasks, id)
  }

  ghost predicate QueuesMatch(s: System) {
    Match(Bag(s.pool), LeavingBag(s.pool), s.tasks) && forall id :: id in s.tasks ==> id < s.nextId
  }

  /** One task moves, and the queues with it. */
  lemma MatchOne(bag: multiset<nat>, leaving: multiset<nat>, tasks: map<nat, Task>,
                 bag': multiset<nat>, leaving': multiset<nat>, tasks': map<nat, Task>, id: nat)
    requires Match(bag, leaving, tasks)
    requires forall c :: c != id ==> (c in tasks <==> c in tasks') && (c in tasks ==> tasks[c] == tasks'[c])
    requires forall c :: c != id ==> bag[c] == bag'[c] && leaving[c] == leaving'[c]
    requires bag'[id] == QueuedTickets(tasks', id) && leaving'[id] == LeavingTickets(tasks', id)
    ensures Match(bag', leaving', tasks')
  {
    forall c ensures bag'[c] == QueuedTickets(tasks', c) && leaving'[c] == LeavingTickets(tasks', c) {
      assert bag[c] == QueuedTickets(tasks, c) && leaving[c] == LeavingTickets(tasks, c);
    }
  }

  lemma CallsAppend(a: seq<Ticket>, b: seq<Ticket>)
    ensures Calls(a + b) == Calls(a) + Calls(b)
  {
  }

  lemma CallsRemove(a: seq<Ticket>, i: nat)
    requires i < |a|
    ensures multiset(Calls(RemoveAt(a, i))) == multiset(Calls(a)) - multiset{a[i].call}
  {
    CallsAppend(a[..i], a[i + 1..]);
    assert Calls(a) == Calls(a[..i]) + [a[i].call] + Calls(a[i + 1..]);
  }

  lemma RemoveNumber(a: seq<nat>, i: nat)
    requires i < |a|
    ensures multiset(RemoveAt(a, i)) == multiset(a) - multiset{a[i]}
  {
    assert a == a[..i] + [a[i]] + a[i + 1..];
  }

  /** Tickets that move from one end to the other keep their number. */
  lemma MovedCalls(front: seq<Ticket>, back: seq<Ticket>, done: seq<Ticket>)
    ensures multiset(Calls(back)) + multiset(Calls(done + front))
            == multiset(Calls(front + back)) + multiset(Calls(done))
  {
    CallsAppend(front, back);
    CallsAppend(done, front);
  }

  lemma NotifyKeepsBag(s: State)
    ensures Bag(Notify(s)) == Bag(s) && Bag(NotifyAll(s)) == Bag(s)
  {
    MovedCalls(s.parked, [], s.notified);
    assert s.parked + [] == s.parked;
    if s.parked != [] {
      MovedCalls([s.parked[0]], s.parked[1..], s.notified);
      assert s.parked == [s.parked[0]] + s.parked[1..];
    }
  }

  /** Steps of the pool's own tasks only move tickets from parked to notified. */
  predicate Notifies(l: Label) {
    l.StartSpawned? || l.SpawnSucceeds? || l.SpawnFails? || l.StopCloses?
  }

  lemma NotifyingKeepsBag(cfg: Config, s: State, l: Label)
    requires Enabled(cfg, s, l) && Notifies(l)
    ensures Bag(Step(cfg, s, l)) == Bag(s) && Step(cfg, s, l).leaving == s.leaving
  {
    NotifyKeepsBag(s);
  }

  lemma OthersKeepBag(cfg: Config, s: State, l: Label)
    requires Enabled(cfg, s, l) && Own(l) && !Notifies(l)
    ensures Bag(Step(cfg, s, l)) == Bag(s) && Step(cfg, s, l).leaving == s.leaving
  {
  }

  lemma LoopTopBag(cfg: Config, s: State, call: nat)
    ensures var t := LoopTop(cfg, s, call);
            t.next.leaving == s.leaving && Bag(t.next) == if t.answer.Waits? then Bag(s) + multiset{call} else Bag(s)
  {
    var t := LoopTop(cfg, s, call);
    if t.answer.Waits? {
      var ticket := Ticket(call, |s.log|);
      CallsAppend(s.parked, [ticket]);
      assert Calls([ticket]) == [call];
      assert t.next.parked == s.parked + [ticket] && t.next.notified == s.notified;
    }
  }

  lemma WakeBag(cfg: Config, s: State, i: nat)
    requires i < |s.notified|
    ensures var t := Wake(cfg, s, i);
            var without := Bag(s) - multiset{s.notified[i].call};
            && t.next.leaving == s.leaving && Bag(s)[s.notified[i].call] > 0
            && Bag(t.next) == if t.answer.Waits? then without + multiset{s.notified[i].call} else without
  {
    CallsRemove(s.notified, i);
    assert Calls(s.notified)[i] == s.notified[i].call;
    assert s.notified[i].call in multiset(Calls(s.notified));
    LoopTopBag(cfg, Woken(s, i), s.notified[i].call);
  }

  lemma GiveUpParkedBag(s: State, i: nat)
    requires i < |s.parked|
    ensures var id := s.parked[i].call;
            var t := s.(parked := RemoveAt(s.parked, i), leaving := s.leaving + [id]);
            Bag(s)[id] > 0 && Bag(t) == Bag(s) - multiset{id} && LeavingBag(t) == LeavingBag(s) + multiset{id}
  {
    CallsRemove(s.parked, i);
    assert Calls(s.parked)[i] == s.parked[i].call;
    assert s.parked[i].call in multiset(Calls(s.parked));
  }

  lemma GiveUpNotifiedBag(s: State, i: nat)
    requires i < |s.notified|
    ensures var id := s.notified[i].call;
            var t := s.(notified := RemoveAt(s.notified, i), leaving := s.leaving + [id]);
            Bag(s)[id] > 0 && Bag(t) == Bag(s) - multiset{id} && LeavingBag(t) == LeavingBag(s) + multiset{id}
  {
    CallsRemove(s.notified, i);
    assert Calls(s.notified)[i] == s.notified[i].call;
    assert s.notified[i].call in multiset(Calls(s.notified));
  }

  lemma LeaveBag(cfg: Config, s: State, i: nat, relays: bool)
    requires Enabled(cfg, s, CancelledLeaves(i, relays))
    ensures var t := Step(cfg, s, CancelledLeaves(i, relays));
            Bag(t) == Bag(s)
            && LeavingBag(t) == LeavingBag(s) - multiset{s.leaving[i]}
            && LeavingBag(s)[s.leaving[i]] > 0
  {
    RemoveNumber(s.leaving, i);
    NotifyKeepsBag(s.(f := s.f.(waiting := s.f.waiting - 1), leaving := RemoveAt(s.leaving, i)));
  }

  /** Events in which no task's pool step moves tickets of a caller. */
  lemma BackgroundQueues(conf: Settings, s: System, e: Event)
    requires QueuesMatch(s) && May(conf, s, e) && e.Background?
    ensures QueuesMatch(Next(conf, s, e))
  {
    if Notifies(e.step) { NotifyingKeepsBag(conf.pool, s.pool, e.step); }
    else { OthersKeepBag(conf.pool, s.pool, e.step); }
  }

  /** The task an event is about, if its pool step moves no ticket. */
  function About(s: System, e: Event): nat {
    match e
    case Submit(_, _, _) => s.nextId
    case Arrive => s.nextId
    case FirstStep(id) => id
    case GiveUpEntering(id, _, _) => id
    case CancelFresh(id) => id
    case RunEnds(id, _) => id
    case Settles(id, _, _) => id
    case _ => 0
  }

  predicate OffQueue(e: Event) {
    !e.Background? && !e.Ask? && !e.Look? && !e.GiveUp? && !e.Leave?
  }

  lemma OffQueuePool(conf: Settings, s: System, e: Event)
    requires May(conf, s, e) && OffQueue(e)
    ensures var t := Next(conf, s, e).pool;
            t.parked == s.pool.parked && t.notified == s.pool.notified && t.leaving == s.pool.leaving
  {
  }

  predicate MovesTask(e: Event) {
    e.Submit? || e.Arrive? || e.FirstStep? || e.GiveUpEntering? || e.CancelFresh? || e.RunEnds? || e.Settles?
  }

  lemma OffQueueTasks(conf: Settings, s: System, e: Event)
    requires May(conf, s, e) && OffQueue(e) && !MovesTask(e)
    ensures Next(conf, s, e).tasks == s.tasks && Next(conf, s, e).nextId == s.nextId
  {
  }

  /** Only one task moves, and it is not in any queue before or after. */
  lemma MovedTask(conf: Settings, s: System, e: Event)
    requires May(conf, s, e) && MovesTask(e) && forall id :: id in s.tasks ==> id < s.nextId
    ensures var id, t := About(s, e), Next(conf, s, e);
            && (forall c :: c != id ==> (c in s.tasks <==> c in t.tasks) && (c in s.tasks ==> s.tasks[c] == t.tasks[c]))
            && QueuedTickets(s.tasks, id) == QueuedTickets(t.tasks, id) == 0
            && LeavingTickets(s.tasks, id) == LeavingTickets(t.tasks, id) == 0
            && forall c :: c in t.tasks ==> c < t.nextId
  {
  }

  lemma OffQueueKeeps(conf: Settings, s: System, e: Event)
    requires QueuesMatch(s) && May(conf, s, e) && OffQueue(e)
    ensures QueuesMatch(Next(conf, s, e))
  {
    OffQueuePool(conf, s, e);
    if MovesTask(e) {
      var id := About(s, e);
      MovedTask(conf, s, e);
      assert Bag(s.pool)[id] == QueuedTickets(s.tasks, id) && LeavingBag(s.pool)[id] == LeavingTickets(s.tasks, id);
      MatchOne(Bag(s.pool), LeavingBag(s.pool), s.tasks, Bag(s.pool), LeavingBag(s.pool), Next(conf, s, e).tasks, id);
    } else {
      OffQueueTasks(conf, s, e);
    }
  }

  lemma AnsweredQueues(s: System, pool: State, id: nat, answer: Answer, now: real)
    requires QueuesMatch(s) && id in s.tasks
    requires LeavingTickets(s.tasks, id) == 0 && LeavingBag(pool) == LeavingBag(s.pool)
    requires forall c :: c != id ==> Bag(pool)[c] == Bag(s.pool)[c]
    requires Bag(pool)[id] == if answer.Waits? then 1 else 0
    ensures QueuesMatch(Answered(s.(pool := pool), id, answer, now))
  {
    assert LeavingBag(s.pool)[id] == 0;
    MatchOne(Bag(s.pool), LeavingBag(s.pool), s.tasks, Bag(pool), LeavingBag(pool),
             Answered(s.(pool := pool), id, answer, now).tasks, id);
  }

  /** A request that just got the lock joins the queue or leaves acquire(). */
  lemma AskedQueues(s: System, pool: State, id: nat, answer: Answer, now: real)
    requires QueuesMatch(s) && InPhase(s, id, Entering) && pool.leaving == s.pool.leaving
    requires Bag(pool) == if answer.Waits? then Bag(s.pool) + multiset{id} else Bag(s.pool)
    ensures QueuesMatch(Answered(s.(pool := pool), id, answer, now))
  {
    assert Bag(s.pool)[id] == QueuedTickets(s.tasks, id);
    AnsweredQueues(s, pool, id, answer, now);
  }

  lemma AskNext(conf: Settings, s: System, id: nat, now: real)
    requires May(conf, s, Ask(id, now))
    ensures InPhase(s, id, Entering)
    ensures var turn := LoopTop(conf.pool, s.pool, id);
            Next(conf, s, Ask(id, now)) == Answered(s.(pool := turn.next), id, turn.answer, now)
  {
  }

  lemma AskQueues(conf: Settings, s: System, id: nat, turn: Turn, now: real)
    requires QueuesMatch(s) && InPhase(s, id, Entering) && turn == LoopTop(conf.pool, s.pool, id)
    ensures QueuesMatch(Answered(s.(pool := turn.next), id, turn.answer, now))
  {
    LoopTopBag(conf.pool, s.pool, id);
    AskedQueues(s, turn.next, id, turn.answer, now);
  }

  /** A woken request leaves the queue or parks again. */
  lemma LookedQueues(s: System, pool: State, id: nat, answer: Answer, now: real)
    requires QueuesMatch(s) && InPhase(s, id, Queued) && pool.leaving == s.pool.leaving
    requires Bag(pool) ==
             if answer.Waits? then Bag(s.pool) - multiset{id} + multiset{id}
             else Bag(s.pool) - multiset{id}
    ensures QueuesMatch(Answered(s.(pool := pool), id, answer, now))
  {
    assert Bag(s.pool)[id] == QueuedTickets(s.tasks, id);
    AnsweredQueues(s, pool, id, answer, now);
  }

  lemma LookNext(conf: Settings, s: System, i: nat, now: real)
    requires May(conf, s, Look(i, now))
    ensures i < |s.pool.notified| && InPhase(s, s.pool.notified[i].call, Queued)
    ensures var turn := Wake(conf.pool, s.pool, i);
            Next(conf, s, Look(i, now)) == Answered(s.(pool := turn.next), s.pool.notified[i].call, turn.answer, now)
  {
  }

  lemma LookQueues(conf: Settings, s: System, i: nat, turn: Turn, now: real)
    requires QueuesMatch(s) && i < |s.pool.notified| && InPhase(s, s.pool.notified[i].call, Queued)
    requires turn == Wake(conf.pool, s.pool, i)
    ensures QueuesMatch(Answered(s.(pool := turn.next), s.pool.notified[i].call, turn.answer, now))
  {
    WakeBag(conf.pool, s.pool, i);
    LookedQueues(s, turn.next, s.pool.notified[i].call, turn.answer, now);
  }

  /** A request whose wait is cut short has its ticket taken out of the queue. */
  lemma GaveUpQueues(s: System, pool: State, id: nat, cancelled: bool)
    requires QueuesMatch(s) && InPhase(s, id, Queued)
    requires Bag(pool) == Bag(s.pool) - multiset{id} && LeavingBag(pool) == LeavingBag(s.pool) + multiset{id}
    ensures QueuesMatch(s.(pool := pool, tasks := s.tasks[id := s.tasks[id].(phase := Leaving(cancelled))]))
  {
    assert Bag(s.pool)[id] == QueuedTickets(s.tasks, id) && LeavingBag(s.pool)[id] == LeavingTickets(s.tasks, id);
    MatchOne(Bag(s.pool), LeavingBag(s.pool), s.tasks, Bag(pool), LeavingBag(pool),
             s.tasks[id := s.tasks[id].(phase := Leaving(cancelled))], id);
  }

  lemma GiveUpNext(conf: Settings, s: System, i: nat, parked: bool, cancelled: bool) returns (pool: State, id: nat)
    requires May(conf, s, GiveUp(i, parked, cancelled))
    ensures InPhase(s, id, Queued)
    ensures Bag(s.pool)[id] > 0 && Bag(pool) == Bag(s.pool) - multiset{id}
            && LeavingBag(pool) == LeavingBag(s.pool) + multiset{id}
    ensures Next(conf, s, GiveUp(i, parked, cancelled))
         == s.(pool := pool, tasks := s.tasks[id := s.tasks[id].(phase := Leaving(cancelled))])
  {
    if parked {
      id := s.pool.parked[i].call;
      pool := s.pool.(parked := RemoveAt(s.pool.parked, i), leaving := s.pool.leaving + [id]);
      GiveUpParkedBag(s.pool, i);
    } else {
      id := s.pool.notified[i].call;
      pool := s.pool.(notified := RemoveAt(s.pool.notified, i), leaving := s.pool.leaving + [id]);
      GiveUpNotifiedBag(s.pool, i);
    }
  }

  lemma GiveUpQueues(conf: Settings, s: System, i: nat, parked: bool, cancelled: bool)
    requires QueuesMatch(s) && May(conf, s, GiveUp(i, parked, cancelled))
    ensures QueuesMatch(Next(conf, s, GiveUp(i, parked, cancelled)))
  {
    var pool, id := GiveUpNext(conf, s, i, parked, cancelled);
    GaveUpQueues(s, pool, id, cancelled);
  }

  /** An interrupted request has the lock at last and goes. */
  lemma LeftQueues(s: System, pool: State, id: nat, e: Ending, now: real)
    requires QueuesMatch(s) && id in s.tasks && s.tasks[id].phase.Leaving?
    requires Bag(pool) == Bag(s.pool) && LeavingBag(pool) == LeavingBag(s.pool) - multiset{id}
    ensures QueuesMatch(EndTask(s.(pool := pool), id, e, now))
  {
    assert Bag(s.pool)[id] == QueuedTickets(s.tasks, id) && LeavingBag(s.pool)[id] == LeavingTickets(s.tasks, id);
    MatchOne(Bag(s.pool), LeavingBag(s.pool), s.tasks, Bag(pool), LeavingBag(pool), s.tasks - {id}, id);
  }

  lemma LeaveQueues(conf: Settings, s: System, i: nat, relays: bool, now: real)
    requires QueuesMatch(s) && May(conf, s, Leave(i, relays, now))
    ensures QueuesMatch(Next(conf, s, Leave(i, relays, now)))
  {
    var id := s.pool.leaving[i];
    LeaveBag(conf.pool, s.pool, i, relays);
    LeftQueues(s, Step(conf.pool, s.pool, CancelledLeaves(i, relays)), id, Deserted(s.tasks[id].phase.cancelled), now);
  }

  lemma QueuesStep(conf: Settings, s: System, e: Event)
    requires QueuesMatch(s) && May(conf, s, e)
    ensures QueuesMatch(Next(conf, s, e))
  {
    if e.Ask? {
      AskNext(conf, s, e.id, e.now);
      AskQueues(conf, s, e.id, LoopTop(conf.pool, s.pool, e.id), e.now);
    } else if e.Look? {
      LookNext(conf, s, e.index, e.now);
      LookQueues(conf, s, e.index, Wake(conf.pool, s.pool, e.index), e.now);
    }
    else if e.GiveUp? { GiveUpQueues(conf, s, e.index, e.parked, e.cancelled); }
    else if e.Leave? { LeaveQueues(conf, s, e.index, e.relays, e.now); }
    else if e.Background? { BackgroundQueues(conf, s, e); }
    else { OffQueueKeeps(conf, s, e); }
  }

  lemma {:induction false} QueuesRun(conf: Settings, s: System, events: seq<Event>)
    requires QueuesMatch(s) && Happens(conf, s, events)
    ensures QueuesMatch(Then(conf, s, events))
    decreases |events|
  {
    if events != [] {
      QueuesStep(conf, s, events[0]);
      QueuesRun(conf, Next(conf, s, events[0]), events[1..]);
    }
  }

  lemma StartsMatched(conf: Settings, t0: real)
    ensures QueuesMatch(Initially(conf, t0))
  {
    assert Calls([]) == [];
  }

  lemma WokenIsQueued(conf: Settings, s: System, i: nat, now: real)
    requires QueuesMatch(s) && Enabled(conf.pool, s.pool, AcquireResume(i))
    ensures May(conf, s, Look(i, now))
  {
    var id := s.pool.notified[i].call;
    assert Calls(s.pool.notified)[i] == id;
    assert id in multiset(Calls(s.pool.notified));
    assert Bag(s.pool)[id] == QueuedTickets(s.tasks, id);
  }

  lemma LeavingIsLeaving(conf: Settings, s: System, i: nat, relays: bool, now: real)
    requires QueuesMatch(s) && Enabled(conf.pool, s.pool, CancelledLeaves(i, relays))
    ensures May(conf, s, Leave(i, relays, now))
  {
    var id := s.pool.leaving[i];
    assert id in multiset(s.pool.leaving);
    assert LeavingBag(s.pool)[id] == LeavingTickets(s.tasks, id);
  }

  lemma AttainableMatches(conf: Settings, s: System)
    requires Attainable(conf, s)
    ensures QueuesMatch(s)
  {
    var t0, events :| Happens(conf, Initially(conf, t0), events) && Then(conf, Initially(conf, t0), events) == s;
    StartsMatched(conf, t0);
    QueuesRun(conf, Initially(conf, t0), events);
  }

  /** In every run each task waiting in acquire() has exactly one ticket, parked or
      woken, and every ticket is such a task's. */
  lemma EveryTaskHasItsTicket(conf: Settings, s: System)
    requires Attainable(conf, s)
    ensures forall id :: Bag(s.pool)[id] == if id in s.tasks && s.tasks[id].phase.Queued? then 1 else 0
    ensures forall id :: LeavingBag(s.pool)[id] == if id in s.tasks && s.tasks[id].phase.Leaving? then 1 else 0
  {
    AttainableMatches(conf, s);
    forall id
      ensures Bag(s.pool)[id] == QueuedTickets(s.tasks, id)
              && LeavingBag(s.pool)[id] == LeavingTickets(s.tasks, id) {}
  }

  /** So a wake-up never goes to a task that is gone: whenever the pool can let a woken
      request go on, or let an interrupted one leave, its task is there to do it. */
  lemma EveryTicketHasItsTask(conf: Settings, s: System, i: nat, relays: bool, now: real)
    requires Attainable(conf, s)
    ensures Enabled(conf.pool, s.pool, AcquireResume(i)) ==> May(conf, s, Look(i, now))
    ensures Enabled(conf.pool, s.pool, CancelledLeaves(i, relays)) ==> May(conf, s, Leave(i, relays, now))
  {
    AttainableMatches(conf, s);
    if Enabled(conf.pool, s.pool, AcquireResume(i)) { WokenIsQueued(conf, s, i, now); }
    if Enabled(conf.pool, s.pool, CancelledLeaves(i, relays)) { LeavingIsLeaving(conf, s, i, relays, now); }
  }
}
