/** An optional value, for outcomes that may be absent, and the all-or-nothing
    map over a sequence that such outcomes call for. */
module Options {
  datatype Option<T> = None | Some(value: T)

  /** `f` applied to each element in order; absent as soon as one result is. */
  function MapAll<A, B>(xs: seq<A>, f: A -> Option<B>): (r: Option<seq<B>>)
    ensures r.Some? ==> |r.value| == |xs|
    decreases |xs|
  {
    if xs == [] then Some([])
    else match f(xs[0])
      case None => None
      case Some(y) =>
        match MapAll(xs[1..], f)
        case None => None
        case Some(ys) => Some([y] + ys)
  }

  /** When every element maps to its counterpart, the whole map succeeds with
      the counterparts, in order. */
  lemma {:induction false} MapAllSome<A, B>(xs: seq<A>, ys: seq<B>, f: A -> Option<B>)
    requires |xs| == |ys|
    requires forall k :: 0 <= k < |xs| ==> f(xs[k]) == Some(ys[k])
    ensures MapAll(xs, f) == Some(ys)
    decreases |xs|
  {
    if xs != [] {
      MapAllSome(xs[1..], ys[1..], f);
      assert [ys[0]] + ys[1..] == ys;
    }
  }
}
