/** Failure-compatible wrappers shared by every module of the model. */
module Wrappers {

  /** A Python value that may be None. */
  datatype Option<+T> = None | Some(value: T)

  /** The outcome of a Python call that either returns a value or raises. */
  datatype Result<+T, +E> = Ok(value: T) | Err(error: E)

  /**
   * Running steps in order and collecting their values: the values of all of
   * them, or the exception of the first one that raises.
   */
  function Collect<T, E>(rs: seq<Result<T, E>>): (r: Result<seq<T>, E>)
    ensures r.Ok? <==> forall i :: 0 <= i < |rs| ==> rs[i].Ok?
    ensures r.Ok? ==> |r.value| == |rs|
    ensures r.Ok? ==> forall i :: 0 <= i < |rs| ==> r.value[i] == rs[i].value
    ensures r.Err? ==> exists k :: 0 <= k < |rs| && rs[k] == Err(r.error) &&
                                   (forall i :: 0 <= i < k ==> rs[i].Ok?)
  {
    if rs == [] then Ok([])
    else
      var n := |rs| - 1;
      assert forall i :: 0 <= i < n ==> rs[..n][i] == rs[i];
      match Collect(rs[..n])
      case Err(e) => Err(e)
      case Ok(values) =>
        match rs[n]
        case Err(e) => Err(e)
        case Ok(v) => Ok(values + [v])
  }

  /** When the steps before `i` succeed and step `i` raises, collecting stops with that exception. */
  lemma CollectStops<T, E>(rs: seq<Result<T, E>>, i: nat)
    requires i < |rs|
    requires Collect(rs[..i]).Ok?
    requires rs[i].Err?
    ensures Collect(rs) == Err(rs[i].error)
  {
    var r := Collect(rs);
    var k :| 0 <= k < |rs| && rs[k] == Err(r.error) && (forall j :: 0 <= j < k ==> rs[j].Ok?);
    assert forall j :: 0 <= j < i ==> rs[..i][j] == rs[j];
  }

  /** Collecting a prefix of steps that all succeed gives the prefix of the values. */
  lemma CollectPrefix<T, E>(rs: seq<Result<T, E>>, i: nat)
    requires i <= |rs|
    requires Collect(rs).Ok?
    ensures Collect(rs[..i]).Ok?
    ensures Collect(rs[..i]).value == Collect(rs).value[..i]
  {
    assert forall j :: 0 <= j < i ==> rs[..i][j] == rs[j];
  }

  /** One more successful step appends its value. */
  lemma CollectSnoc<T, E>(rs: seq<Result<T, E>>, i: nat)
    requires i < |rs|
    requires Collect(rs[..i]).Ok? && rs[i].Ok?
    ensures Collect(rs[..i + 1]) == Ok(Collect(rs[..i]).value + [rs[i].value])
  {
    assert rs[..i + 1][..i] == rs[..i];
  }
}
