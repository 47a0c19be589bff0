/** The elements of a sequence as a set, and sizes of sets. */
module Sequences {

  function SetOf(ids: seq<nat>): set<nat> {
    set i | 0 <= i < |ids| :: ids[i]
  }

  lemma {:induction false} SetOfSize(ids: seq<nat>)
    requires forall i, j | 0 <= i < j < |ids| :: ids[i] != ids[j]
    ensures |SetOf(ids)| == |ids|
    decreases |ids|
  {
    if ids == [] {
      assert SetOf(ids) == {};
    } else {
      var front := ids[..|ids| - 1];
      SetOfSize(front);
      assert SetOf(ids) == SetOf(front) + {ids[|ids| - 1]};
    }
  }

  lemma FewerAtMost(a: set<nat>, b: set<nat>)
    requires a <= b
    ensures |a| <= |b|
  {
    assert a + (b - a) == b;
  }

  lemma AllOfThem(some: set<nat>, all: set<nat>)
    requires some <= all && |some| == |all|
    ensures some == all
  {
    if x :| x in all && x !in some {
      FewerAtMost(some, all - {x});
    }
  }
}
