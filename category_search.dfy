/**
 * The join of the category search: one promise per phrase, each resolved
 * only on `OK`, awaited together with `Promise.all`, and merged.
 */
module CategorySearch {
  import opened Wrappers
  import opened Places
  import opened Merge
  import opened JsMap

  /**
   * `Promise.all` over the per-phrase promises: the lists in phrase order
   * when every phrase reported `OK`, and a rejection as soon as one did not
   * (a `ZERO_RESULT` rejects too).
   */
  function JoinAll(outcomes: seq<SearchOutcome>): (r: Option<seq<seq<RawPlace>>>)
    ensures r.Some? <==> forall i :: 0 <= i < |outcomes| ==> outcomes[i].Ok?
    ensures r.Some? ==> |r.value| == |outcomes|
    ensures r.Some? ==> forall i :: 0 <= i < |outcomes| ==> r.value[i] == outcomes[i].places
  {
    if outcomes == [] then Some([])
    else match (outcomes[0], JoinAll(outcomes[1..]))
      case (Ok(places), Some(rest)) => Some([places] + rest)
      case _ => None
  }

  /** The list a category search stores, or `None` when the join rejected and the list is left alone. */
  function CategoryShops(outcomes: seq<SearchOutcome>): (r: Option<seq<Shop>>)
    ensures r.Some? <==> forall i :: 0 <= i < |outcomes| ==> outcomes[i].Ok?
    ensures r.Some? ==> Distinct(ShopIds(r.value))
    ensures r.Some? ==> r.value == MergeResults(JoinAll(outcomes).value)
  {
    match JoinAll(outcomes)
    case Some(results) =>
      DedupeIdsDistinct(Flatten(results));
      Some(MergeResults(results))
    case None => None
  }
}
