/** What the modules need of sequences. */
module Sequences {
  function Init<T>(s: seq<T>): seq<T>
    requires s != []
  {
    s[..|s| - 1]
  }

  function Last<T>(s: seq<T>): T
    requires s != []
  {
    s[|s| - 1]
  }

  ghost predicate Distinct<T>(s: seq<T>) {
    forall i, j :: 0 <= i < j < |s| ==> s[i] != s[j]
  }

  /** `kept` is what a list holds at the positions `at`, in order. */
  ghost predicate Picks<T>(kept: seq<T>, all: seq<T>, at: seq<nat>) {
    && |at| == |kept|
    && (forall k :: 0 <= k < |at| ==> at[k] < |all| && kept[k] == all[at[k]])
    && (forall j, k :: 0 <= j < k < |at| ==> at[j] < at[k])
  }

  /** One more element at the end, picked or not. */
  lemma PicksNext<T>(kept: seq<T>, all: seq<T>, at: seq<nat>, x: T)
    requires Picks(kept, all, at)
    ensures Picks(kept, all + [x], at) && Picks(kept + [x], all + [x], at + [|all|])
    ensures |all| !in at
  {
  }

  /** Picking from what was picked. */
  lemma PicksCompose<T>(a: seq<T>, b: seq<T>, c: seq<T>, inB: seq<nat>, inC: seq<nat>) returns (at: seq<nat>)
    requires Picks(a, b, inB) && Picks(b, c, inC)
    ensures Picks(a, c, at) && forall k :: k in at <==> exists j :: j in inB && j < |inC| && inC[j] == k
  {
    at := seq(|inB|, k requires 0 <= k < |inB| => inC[inB[k]]);
    forall k ensures k in at <==> exists j :: j in inB && j < |inC| && inC[j] == k {
      if k in at {
        var i :| 0 <= i < |at| && at[i] == k;
        assert inB[i] in inB && inC[inB[i]] == k;
      }
      if j :| j in inB && j < |inC| && inC[j] == k {
        var i :| 0 <= i < |inB| && inB[i] == j;
        assert at[i] == k;
      }
    }
  }
}
