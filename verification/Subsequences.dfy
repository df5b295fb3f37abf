/** Taking some elements of a sequence, in order. */
module Subsequences {
  predicate IsIncreasing(at: seq<nat>) {
    forall i, j :: 0 <= i < j < |at| ==> at[i] < at[j]
  }

  /** The elements stand in `all` at these positions, and meet `p`. */
  predicate StandAt<T(==)>(kept: seq<T>, all: seq<T>, at: seq<nat>, p: T -> bool) {
    |at| == |kept| && forall i :: 0 <= i < |at| ==> at[i] < |all| && kept[i] == all[at[i]] && p(kept[i])
  }

  /** No other element meets `p`. */
  predicate AllStand<T>(all: seq<T>, at: seq<nat>, p: T -> bool) {
    forall k: nat :: k < |all| && p(all[k]) ==> k in at
  }

  /** `kept` are the elements of `all` that meet `p`, in order; `at` says where they stand. */
  predicate AreThose<T(==)>(kept: seq<T>, all: seq<T>, at: seq<nat>, p: T -> bool) {
    IsIncreasing(at) && StandAt(kept, all, at, p) && AllStand(all, at, p)
  }

  function Shifted(at: seq<nat>): (r: seq<nat>)
    ensures |r| == |at| && forall i :: 0 <= i < |at| ==> r[i] == at[i] + 1
  {
    seq(|at|, i requires 0 <= i < |at| => at[i] + 1)
  }

  /** The positions once another element stands in front, which is taken or not. */
  function Behind(at: seq<nat>, taken: bool): seq<nat> {
    (if taken then [0] else []) + Shifted(at)
  }

  lemma StandsBehind<T>(x: T, kept: seq<T>, all: seq<T>, at: seq<nat>, p: T -> bool)
    requires StandAt(kept, all, at, p)
    ensures StandAt((if p(x) then [x] else []) + kept, [x] + all, Behind(at, p(x)), p)
  {
  }

  lemma AllStandBehind<T>(x: T, all: seq<T>, at: seq<nat>, p: T -> bool)
    requires AllStand(all, at, p)
    ensures AllStand([x] + all, Behind(at, p(x)), p)
  {
    forall k: nat | k < |[x] + all| && p(([x] + all)[k]) ensures k in Behind(at, p(x)) {
      if k > 0 {
        var i :| 0 <= i < |at| && at[i] == k - 1;
        assert Shifted(at)[i] == k;
      }
    }
  }

  lemma OneInFront<T>(x: T, kept: seq<T>, all: seq<T>, at: seq<nat>, p: T -> bool) returns (at': seq<nat>)
    requires AreThose(kept, all, at, p)
    ensures AreThose((if p(x) then [x] else []) + kept, [x] + all, at', p)
  {
    at' := Behind(at, p(x));
    StandsBehind(x, kept, all, at, p);
    AllStandBehind(x, all, at, p);
  }
}
