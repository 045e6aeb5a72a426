/** Lists of workers against the custody map: a list owns exactly the workers that
    the map puts in its place. */
module Ownership {
  import opened PoolModel

  ghost predicate Distinct(ids: seq<nat>) {
    forall i, j :: 0 <= i < j < |ids| ==> ids[i] != ids[j]
  }

  ghost predicate Owns(ids: seq<nat>, at: map<nat, Place>, place: Place) {
    && Distinct(ids)
    && (forall w :: w in ids <==> w in at && at[w] == place)
  }

  // ---- cardinality ----

  lemma RemoveOne<V>(m: map<nat, V>, k: nat)
    requires k in m
    ensures |m - {k}| == |m| - 1
  {
    assert (m - {k}).Keys == m.Keys - {k};
    assert |m.Keys - {k}| == |m.Keys| - 1;
  }

  lemma AddOne<V>(m: map<nat, V>, k: nat, v: V)
    requires k !in m
    ensures |m[k := v]| == |m| + 1
  {
    assert m[k := v].Keys == m.Keys + {k};
  }

  lemma SameKeys<V>(m: map<nat, V>, n: map<nat, V>)
    requires m.Keys == n.Keys
    ensures |m| == |n|
  {
    assert |m| == |m.Keys| && |n| == |n.Keys|;
  }

  lemma {:induction false} CountDistinct(ids: seq<nat>)
    requires Distinct(ids)
    ensures |ToSet(ids)| == |ids|
  {
    if ids == [] {
      assert ToSet(ids) == {};
    } else {
      var k := |ids| - 1;
      CountDistinct(ids[..k]);
      assert ids == ids[..k] + [ids[k]];
      assert ToSet(ids) == ToSet(ids[..k]) + {ids[k]};
    }
  }

  function Holding(at: map<nat, Place>, place: Place): set<nat> {
    set w | w in at && at[w] == place
  }

  /** A list owns as many workers as it is long. */
  lemma OwnsAll(ids: seq<nat>, at: map<nat, Place>, place: Place)
    requires Owns(ids, at, place)
    ensures |Holding(at, place)| == |ids|
  {
    CountDistinct(ids);
    assert Holding(at, place) == ToSet(ids);
  }

  lemma SplitDistinct(ids: seq<nat>, k: nat)
    requires k <= |ids| && Distinct(ids)
    ensures Distinct(ids[..k]) && Distinct(ids[k..])
    ensures forall w :: w in ids <==> w in ids[..k] || w in ids[k..]
    ensures forall w :: w in ids[..k] ==> w !in ids[k..]
  {
    assert ids == ids[..k] + ids[k..];
    forall w | w in ids[..k] ensures w !in ids[k..] {
      var i :| 0 <= i < k && ids[i] == w;
      assert forall j :: 0 <= j < |ids| - k ==> ids[k..][j] == ids[k + j];
    }
  }

  // ---- how ownership moves ----

  lemma Adopt(ids: seq<nat>, at: map<nat, Place>, w: nat, place: Place)
    requires Owns(ids, at, place) && w !in at
    ensures Owns(ids + [w], at[w := place], place)
  {
  }

  /** Changes outside a list's place leave its ownership alone. */
  lemma Unaffected(ids: seq<nat>, at: map<nat, Place>, to: map<nat, Place>, place: Place)
    requires Owns(ids, at, place)
    requires forall w :: (w in at && at[w] == place) <==> (w in to && to[w] == place)
    ensures Owns(ids, to, place)
  {
  }

  /** The first k of a list are moved to an empty place. */
  lemma MoveFront(ids: seq<nat>, k: nat, at: map<nat, Place>, place: Place, dest: Place)
    requires Owns(ids, at, place) && k <= |ids| && place != dest
    requires Owns([], at, dest)
    ensures var to := Relabel(at, ids[..k], dest);
            Owns(ids[k..], to, place) && Owns(ids[..k], to, dest)
  {
    SplitDistinct(ids, k);
  }

  lemma RemoveDistinct<V>(m: map<nat, V>, ids: seq<nat>)
    requires Distinct(ids) && ToSet(ids) <= m.Keys
    ensures |m - ToSet(ids)| == |m| - |ids|
  {
    CountDistinct(ids);
    assert (m - ToSet(ids)).Keys == m.Keys - ToSet(ids);
    assert |m.Keys - ToSet(ids)| == |m.Keys| - |ToSet(ids)|;
  }

  /** The first k of a list leave custody altogether. */
  lemma DropFront(ids: seq<nat>, k: nat, at: map<nat, Place>, place: Place)
    requires Owns(ids, at, place) && k <= |ids|
    ensures Owns(ids[k..], at - ToSet(ids[..k]), place)
    ensures |at - ToSet(ids[..k])| == |at| - k
  {
    SplitDistinct(ids, k);
    RemoveDistinct(at, ids[..k]);
  }

  /** The first of a list goes somewhere else. */
  lemma MoveFirst(ids: seq<nat>, at: map<nat, Place>, place: Place, dest: Place)
    requires Owns(ids, at, place) && ids != [] && place != dest
    ensures ids[0] in at && at[ids[0]] == place
    ensures Owns(ids[1..], at[ids[0] := dest], place)
  {
    SplitDistinct(ids, 1);
    assert ids[..1] == [ids[0]];
  }
}
