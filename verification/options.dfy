/** The Some/None datatype used wherever the game can raise instead of
    returning a value (sampling from an empty list). */
module Options {

  datatype Option<+T> = None | Some(value: T)

  /** The values of a run of steps, or `None` once a step fails: a loop whose
      first exception ends it. */
  function AllSome<T>(xs: seq<Option<T>>): (r: Option<seq<T>>)
    ensures r.Some? <==> forall i :: 0 <= i < |xs| ==> xs[i].Some?
    ensures r.Some? ==> |r.value| == |xs|
    ensures r.Some? ==> forall i :: 0 <= i < |xs| ==> xs[i] == Some(r.value[i])
  {
    if xs == [] then Some([])
    else
      match xs[0]
      case None => None
      case Some(first) =>
        match AllSome(xs[1..])
        case None => None
        case Some(rest) => Some([first] + rest)
  }

}
