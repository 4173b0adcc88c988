/** Splitting a sequence of per-item outcomes into its successes and its
    failures, each in input order: the shape of every "collect what worked,
    keep what did not" loop in the update cycle. */
module Partition {
  import opened Wrappers

  /** The success values, in input order. */
  function Successes<T, E>(rs: seq<Result<T, E>>): seq<T>
    decreases |rs|
  {
    if rs == [] then []
    else
      var last := rs[|rs| - 1];
      Successes(rs[..|rs| - 1]) + (if last.Success? then [last.value] else [])
  }

  /** The failure values, in input order. */
  function Failures<T, E>(rs: seq<Result<T, E>>): seq<E>
    decreases |rs|
  {
    if rs == [] then []
    else
      var last := rs[|rs| - 1];
      Failures(rs[..|rs| - 1]) + (if last.Failure? then [last.error] else [])
  }

  /** Every outcome lands in exactly one of the two collections. */
  lemma {:induction false} PartitionCounts<T, E>(rs: seq<Result<T, E>>)
    ensures |Successes(rs)| + |Failures(rs)| == |rs|
  {
    if rs != [] {
      PartitionCounts(rs[..|rs| - 1]);
    }
  }

  /** Where each success came from: strictly increasing positions of `rs`,
      the k-th of which holds the k-th success, and which miss no success. */
  function SuccessOrigins<T, E>(rs: seq<Result<T, E>>): (o: seq<nat>)
    ensures |o| == |Successes(rs)|
    ensures forall k :: 0 <= k < |o| ==> o[k] < |rs| && rs[o[k]] == Success(Successes(rs)[k])
    ensures forall k, l :: 0 <= k < l < |o| ==> o[k] < o[l]
    ensures forall i :: 0 <= i < |rs| && rs[i].Success? ==> i in o
    decreases |rs|
  {
    if rs == [] then []
    else
      var n := |rs| - 1;
      var front := rs[..n];
      var o := SuccessOrigins(front);
      assert forall i :: 0 <= i < n ==> rs[i] == front[i];
      o + (if rs[n].Success? then [n] else [])
  }

  /** Where each failure came from, in the same sense. */
  function FailureOrigins<T, E>(rs: seq<Result<T, E>>): (o: seq<nat>)
    ensures |o| == |Failures(rs)|
    ensures forall k :: 0 <= k < |o| ==> o[k] < |rs| && rs[o[k]] == Failure(Failures(rs)[k])
    ensures forall k, l :: 0 <= k < l < |o| ==> o[k] < o[l]
    ensures forall i :: 0 <= i < |rs| && rs[i].Failure? ==> i in o
    decreases |rs|
  {
    if rs == [] then []
    else
      var n := |rs| - 1;
      var front := rs[..n];
      var o := FailureOrigins(front);
      assert forall i :: 0 <= i < n ==> rs[i] == front[i];
      o + (if rs[n].Failure? then [n] else [])
  }

  /** Each position of `rs` is the origin of a success or of a failure,
      never of both. */
  lemma ExactlyOneOrigin<T, E>(rs: seq<Result<T, E>>, i: nat)
    requires i < |rs|
    ensures (i in SuccessOrigins(rs)) != (i in FailureOrigins(rs))
  {
    var so, fo := SuccessOrigins(rs), FailureOrigins(rs);
    if i in so {
      var k :| 0 <= k < |so| && so[k] == i;
      assert rs[i].Success?;
    }
    if i in fo {
      var k :| 0 <= k < |fo| && fo[k] == i;
      assert rs[i].Failure?;
    }
  }
}
