/** `orderBy(timestamp)->limit(n)`: the oldest rows of a selection, ties in any order. */
module OldestFirst {
  import opened Options

  /** `ids` is one possible answer of the query over `stamps`, which maps row ids to timestamps. */
  ghost predicate IsOldest(stamps: map<nat, int>, limit: nat, ids: seq<nat>) {
    && |ids| == Min(limit, |stamps|)
    && (forall i | 0 <= i < |ids| :: ids[i] in stamps)
    && (forall i, j | 0 <= i < j < |ids| :: ids[i] != ids[j] && stamps[ids[i]] <= stamps[ids[j]])
    && (forall i, x | 0 <= i < |ids| && x in stamps && x !in ids :: stamps[ids[i]] <= stamps[x])
  }

  method Oldest(stamps: map<nat, int>) returns (id: nat)
    requires |stamps| > 0
    ensures id in stamps && forall x | x in stamps :: stamps[id] <= stamps[x]
  {
    id :| id in stamps.Keys;
    var rest := stamps.Keys - {id};
    while rest != {}
      invariant rest <= stamps.Keys && id in stamps
      invariant forall x | x in stamps && x !in rest :: stamps[id] <= stamps[x]
      decreases rest
    {
      var x :| x in rest;
      if stamps[x] < stamps[id] {
        id := x;
      }
      rest := rest - {x};
    }
  }

  method PickOldest(stamps: map<nat, int>, limit: nat) returns (ids: seq<nat>)
    ensures IsOldest(stamps, limit, ids)
  {
    ids := [];
    var rest := stamps;
    while |ids| < limit && |rest| > 0
      invariant |ids| <= limit && |ids| + |rest| == |stamps|
      invariant rest.Keys <= stamps.Keys && forall x | x in rest :: rest[x] == stamps[x]
      invariant forall x | x in stamps :: x in rest <==> x !in ids
      invariant forall i | 0 <= i < |ids| :: ids[i] in stamps
      invariant forall i, j | 0 <= i < j < |ids| :: ids[i] != ids[j] && stamps[ids[i]] <= stamps[ids[j]]
      invariant forall i, x | 0 <= i < |ids| && x in rest :: stamps[ids[i]] <= stamps[x]
      decreases |rest|
    {
      var id := Oldest(rest);
      ids := ids + [id];
      assert (rest - {id}).Keys == rest.Keys - {id};
      rest := rest - {id};
    }
  }
}
