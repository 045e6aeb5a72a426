/** The deque of pre-warmed workers: how a request takes from it and how the
    scale-down sweep thins it out. */
module IdleQueue {
  /** An idle worker: its identity and the moment its process finished starting. */
  datatype Worker = Worker(id: nat, becameIdleAt: real)

  function WorkerIds(workers: seq<Worker>): (ids: seq<nat>)
    ensures |ids| == |workers|
    ensures forall i :: 0 <= i < |workers| ==> ids[i] == workers[i].id
  {
    seq(|workers|, i requires 0 <= i < |workers| => workers[i].id)
  }

  /** Oldest first. */
  ghost predicate ByAge(idle: seq<Worker>) {
    forall i, j :: 0 <= i < j < |idle| ==> idle[i].becameIdleAt <= idle[j].becameIdleAt
  }

  /** How many workers at the front of the queue are known to be dead. */
  function DeadPrefix(idle: seq<Worker>, live: set<nat>): (d: nat)
    ensures d <= |idle|
    ensures forall i :: 0 <= i < d ==> idle[i].id !in live
    ensures d < |idle| ==> idle[d].id in live
  {
    if idle == [] || idle[0].id in live then 0 else 1 + DeadPrefix(idle[1..], live)
  }

  lemma DeadPrefixIs(idle: seq<Worker>, live: set<nat>, d: nat)
    requires d <= |idle| && (d < |idle| ==> idle[d].id in live)
    requires forall i :: 0 <= i < d ==> idle[i].id !in live
    ensures DeadPrefix(idle, live) == d
  {
    if d > 0 {
      assert idle[0].id !in live;
      DeadPrefixIs(idle[1..], live, d - 1);
    }
  }

  /** The sweep's own test: there is still room to kill, and the worker qualifies. */
  predicate Sweepable(w: Worker, room: int, draining: bool, now: real, timeout: real) {
    room > 0 && (draining || now - w.becameIdleAt > timeout)
  }

  /** What the sweep's single pass puts on its kill list. */
  function Condemned(idle: seq<Worker>, room: int, draining: bool, now: real, timeout: real): seq<Worker> {
    if idle == [] then []
    else if Sweepable(idle[0], room, draining, now, timeout) then
      [idle[0]] + Condemned(idle[1..], room - 1, draining, now, timeout)
    else Condemned(idle[1..], room, draining, now, timeout)
  }

  /** What the sweep's single pass leaves in the queue. */
  function Survivors(idle: seq<Worker>, room: int, draining: bool, now: real, timeout: real): seq<Worker> {
    if idle == [] then []
    else if Sweepable(idle[0], room, draining, now, timeout) then
      Survivors(idle[1..], room - 1, draining, now, timeout)
    else [idle[0]] + Survivors(idle[1..], room, draining, now, timeout)
  }

  lemma NoneQualifies(idle: seq<Worker>, room: int, draining: bool, now: real, timeout: real)
    requires forall w :: w in idle ==> !Sweepable(w, room, draining, now, timeout)
    ensures Condemned(idle, room, draining, now, timeout) == []
    ensures Survivors(idle, room, draining, now, timeout) == idle
  {
    if idle != [] {
      assert idle[0] in idle;
      NoneQualifies(idle[1..], room, draining, now, timeout);
    }
  }

  /** One turn of the pass. */
  lemma PassStep(idle: seq<Worker>, i: nat, room: int, draining: bool, now: real, timeout: real)
    requires i < |idle|
    ensures Condemned(idle[i..], room, draining, now, timeout) ==
            if Sweepable(idle[i], room, draining, now, timeout)
            then [idle[i]] + Condemned(idle[i + 1..], room - 1, draining, now, timeout)
            else Condemned(idle[i + 1..], room, draining, now, timeout)
    ensures Survivors(idle[i..], room, draining, now, timeout) ==
            if Sweepable(idle[i], room, draining, now, timeout)
            then Survivors(idle[i + 1..], room - 1, draining, now, timeout)
            else [idle[i]] + Survivors(idle[i + 1..], room, draining, now, timeout)
  {
    assert idle[i..][0] == idle[i] && idle[i..][1..] == idle[i + 1..];
  }

  lemma NoneIfNotFirst(idle: seq<Worker>, room: int, draining: bool, now: real, timeout: real)
    requires ByAge(idle) && idle != [] && !Sweepable(idle[0], room, draining, now, timeout)
    ensures Condemned(idle, room, draining, now, timeout) == [] && Survivors(idle, room, draining, now, timeout) == idle
  {
    forall w | w in idle ensures !Sweepable(w, room, draining, now, timeout) {
      var i :| 0 <= i < |idle| && idle[i] == w;
    }
    NoneQualifies(idle, room, draining, now, timeout);
  }

  lemma {:induction false} SweepCutsQueue(idle: seq<Worker>, room: int, draining: bool, now: real, timeout: real)
    requires ByAge(idle)
    ensures var k := |Condemned(idle, room, draining, now, timeout)|;
            && k <= |idle| && (k > 0 ==> k <= room)
            && Condemned(idle, room, draining, now, timeout) == idle[..k]
            && Survivors(idle, room, draining, now, timeout) == idle[k..]
  {
    if idle != [] {
      if Sweepable(idle[0], room, draining, now, timeout) {
        var rest := idle[1..];
        SweepCutsQueue(rest, room - 1, draining, now, timeout);
        var k := |Condemned(rest, room - 1, draining, now, timeout)|;
        assert idle[..k + 1] == [idle[0]] + rest[..k];
        assert idle[k + 1..] == rest[k..];
      } else {
        NoneIfNotFirst(idle, room, draining, now, timeout);
      }
    }
  }

  lemma {:induction false} SweepStopsRight(idle: seq<Worker>, room: int, draining: bool, now: real, timeout: real)
    requires ByAge(idle)
    ensures var k := |Condemned(idle, room, draining, now, timeout)|;
            && k <= |idle|
            && (forall i :: 0 <= i < k ==> draining || now - idle[i].becameIdleAt > timeout)
            && (k < |idle| && k < room ==> !draining && now - idle[k].becameIdleAt <= timeout)
  {
    if idle != [] {
      if Sweepable(idle[0], room, draining, now, timeout) {
        var rest := idle[1..];
        SweepStopsRight(rest, room - 1, draining, now, timeout);
        assert forall i :: 0 < i < |idle| ==> idle[i] == rest[i - 1];
      } else {
        NoneIfNotFirst(idle, room, draining, now, timeout);
      }
    }
  }

  /** On a queue ordered by age the greedy pass removes exactly a prefix: the oldest
      workers go, the rest keep their order, and the pass stops only because its
      allowance ran out, the queue did, or nobody left qualifies. */
  lemma SweepTakesPrefix(idle: seq<Worker>, room: int, draining: bool, now: real, timeout: real)
    requires ByAge(idle)
    ensures var k := |Condemned(idle, room, draining, now, timeout)|;
            && k <= |idle| && (k > 0 ==> k <= room)
            && Condemned(idle, room, draining, now, timeout) == idle[..k]
            && Survivors(idle, room, draining, now, timeout) == idle[k..]
            && (forall i :: 0 <= i < k ==> draining || now - idle[i].becameIdleAt > timeout)
            && (k < |idle| && k < room ==>
                  !draining && forall i :: k <= i < |idle| ==> now - idle[i].becameIdleAt <= timeout)
  {
    SweepCutsQueue(idle, room, draining, now, timeout);
    SweepStopsRight(idle, room, draining, now, timeout);
  }
}
