/** Failure-carrying result types shared by every module of the model.
    The source signals its error conditions by raising exceptions; the
    model returns them as values instead. */
module Wrappers {

  datatype Option<+T> = None | Some(value: T)

  datatype Result<+R, +E> = Ok(value: R) | Err(error: E)

  /** A result with no value: used for operations the source runs only for
      their effect on an object, which may still raise. */
  datatype Outcome<+E> = Pass | Fail(error: E)

  /** The values of a list of results, or the error of the first failure. */
  function Collect<T, E>(rs: seq<Result<T, E>>): (r: Result<seq<T>, E>)
    ensures r.Ok? ==> |r.value| == |rs|
    decreases |rs|
  {
    if |rs| == 0 then Ok([])
    else
      match Collect(rs[..|rs| - 1])
      case Err(e) => Err(e)
      case Ok(vs) =>
        match rs[|rs| - 1]
        case Err(e) => Err(e)
        case Ok(v) => Ok(vs + [v])
  }

  /** Results collect exactly when each of them is a value, into those
      values in order; otherwise into the error of one of them. */
  lemma {:induction false} CollectMeaning<T, E>(rs: seq<Result<T, E>>)
    ensures var r := Collect(rs);
            && (r.Ok? <==> forall i :: 0 <= i < |rs| ==> rs[i].Ok?)
            && (r.Ok? ==> forall i :: 0 <= i < |rs| ==> Ok(r.value[i]) == rs[i])
            && (r.Err? ==> exists i :: 0 <= i < |rs| && rs[i] == Err(r.error))
    decreases |rs|
  {
    if |rs| > 0 {
      var init := rs[..|rs| - 1];
      CollectMeaning(init);
      assert forall i :: 0 <= i < |init| ==> init[i] == rs[i];
    }
  }

  /** Results that are each the matching value collect into the values. */
  lemma {:induction false} CollectOf<T, E>(rs: seq<Result<T, E>>, vs: seq<T>)
    requires |rs| == |vs| && forall i :: 0 <= i < |rs| ==> rs[i] == Ok(vs[i])
    ensures Collect(rs) == Ok(vs)
    decreases |rs|
  {
    if |rs| > 0 {
      var n := |rs| - 1;
      CollectOf(rs[..n], vs[..n]);
      assert vs == vs[..n] + [vs[n]];
    }
  }

  /** One more result extends a collected prefix by its value, or fails
      with its error. */
  lemma CollectStep<T, E>(rs: seq<Result<T, E>>, n: nat, vs: seq<T>)
    requires n < |rs| && Collect(rs[..n]) == Ok(vs)
    ensures rs[n].Ok? ==> Collect(rs[..n + 1]) == Ok(vs + [rs[n].value])
    ensures rs[n].Err? ==> Collect(rs[..n + 1]) == Err(rs[n].error)
  {
    assert rs[..n + 1][..n] == rs[..n];
  }

  /** A prefix that fails makes the whole list fail alike. */
  lemma {:induction false} CollectFails<T, E>(rs: seq<Result<T, E>>, n: nat)
    requires n <= |rs| && Collect(rs[..n]).Err?
    ensures Collect(rs) == Collect(rs[..n])
    decreases |rs| - n
  {
    if n < |rs| {
      assert rs[..n + 1][..n] == rs[..n];
      CollectFails(rs, n + 1);
    } else {
      assert rs[..n] == rs;
    }
  }
}
