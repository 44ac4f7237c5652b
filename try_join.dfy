/** The fan-in of `TryJoin::try_join` over a vector of fallible futures: every
    future is run; the join yields all their values in the vector's order, or
    else the error of whichever failing future resolves first. When each future
    resolves is not under the program's control, so it is a parameter here:
    `finish(i)` is the moment future `i` resolves (ties go to the lower index). */
module TryJoin {
  import opened Base

  /** Among the first `n` results, the failed one that resolves first, if any. */
  function EarliestFailure<T, E>(results: seq<Result<T, E>>, finish: nat -> nat, n: nat): (k: Option<nat>)
    requires n <= |results|
    ensures k.None? <==> forall i :: 0 <= i < n ==> results[i].Success?
    ensures k.Some? ==> k.value < n && results[k.value].Failure?
    ensures k.Some? ==> forall i :: 0 <= i < n && results[i].Failure? ==> finish(k.value) <= finish(i)
  {
    if n == 0 then None
    else
      var best := EarliestFailure(results, finish, n - 1);
      if results[n - 1].Failure? && (best.None? || finish(n - 1) < finish(best.value)) then Some(n - 1)
      else best
  }

  /** The outcome of joining `results` when future `i` resolves at `finish(i)`. */
  function Join<T, E>(results: seq<Result<T, E>>, finish: nat -> nat): (r: Result<seq<T>, E>)
    ensures r.Success? <==> forall i :: 0 <= i < |results| ==> results[i].Success?
    ensures r.Success? ==> |r.value| == |results|
                           && forall i :: 0 <= i < |results| ==> results[i] == Success(r.value[i])
    ensures r.Failure? ==> exists i :: 0 <= i < |results| && results[i] == Failure(r.error)
  {
    match EarliestFailure(results, finish, |results|)
    case Some(k) => Failure(results[k].error)
    case None => Success(seq(|results|, i requires 0 <= i < |results| => results[i].value))
  }

  /** When every future succeeds, the order in which they resolve does not matter. */
  lemma JoinSuccessIgnoresTiming<T, E>(results: seq<Result<T, E>>, f1: nat -> nat, f2: nat -> nat)
    requires forall i :: 0 <= i < |results| ==> results[i].Success?
    ensures Join(results, f1) == Join(results, f2)
  {
    var r1, r2 := Join(results, f1), Join(results, f2);
    assert r1.value == r2.value;
  }

  /** Any failing future may be the one whose error the join reports: it is,
      whenever it resolves before all the others. */
  lemma AnyFailureMayWin<T, E>(results: seq<Result<T, E>>, k: nat)
    requires k < |results| && results[k].Failure?
    ensures Join(results, i => if i == k then 0 else 1) == Failure(results[k].error)
  {
    var finish: nat -> nat := i => if i == k then 0 else 1;
    var e := EarliestFailure(results, finish, |results|);
    assert finish(e.value) <= finish(k);
  }
}
