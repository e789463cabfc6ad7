/** The neighbour scan shared by the two direction passes (create_flowfield in
    flowfield.rs and calculate_flow_vectors in lib.rs): start from the cell's own value,
    visit the neighbours in a fixed enumeration order and switch to a neighbour whenever
    its value is STRICTLY smaller than the best value seen so far. Out-of-bounds
    neighbours are given as None and skipped. */
module NeighbourScan {
  import opened Basics

  /** `less` is a strict total order: irreflexive, transitive and total. */
  ghost predicate StrictTotalOrder<T(!new)>(less: (T, T) -> bool)
  {
    && (forall a :: !less(a, a))
    && (forall a, b, c :: less(a, b) && less(b, c) ==> less(a, c))
    && (forall a, b :: less(a, b) || a == b || less(b, a))
  }

  /** The state of the scan: the best value so far and the position of the candidate that
      supplied it (None while the cell's own value is still the best). */
  datatype Pick<T> = Pick(best: T, index: Option<nat>)

  /** The scan over `cands`, one step per candidate, in order. */
  function Scan<T>(own: T, cands: seq<Option<T>>, less: (T, T) -> bool): (p: Pick<T>)
    ensures p.index.Some? ==> p.index.value < |cands|
  {
    if cands == [] then Pick(own, None)
    else
      var p := Scan(own, cands[..|cands| - 1], less);
      var last := cands[|cands| - 1];
      if last.Some? && less(last.value, p.best) then Pick(last.value, Some(|cands| - 1)) else p
  }

  /** One more candidate: the scan switches to it exactly when it is strictly smaller
      than the best so far. */
  lemma ScanExtend<T>(own: T, cands: seq<Option<T>>, k: nat, less: (T, T) -> bool)
    requires k < |cands|
    ensures var p := Scan(own, cands[..k], less);
      Scan(own, cands[..k + 1], less) ==
        if cands[k].Some? && less(cands[k].value, p.best) then Pick(cands[k].value, Some(k)) else p
  {
    assert cands[..k + 1][..k] == cands[..k];
  }

  /** What the scan computes: with no strictly smaller candidate it keeps the cell's own
      value and picks nothing; otherwise it picks the FIRST candidate holding the minimum,
      which is strictly below the cell's own value. */
  lemma {:induction false} ScanSpec<T(!new)>(own: T, cands: seq<Option<T>>, less: (T, T) -> bool)
    requires StrictTotalOrder(less)
    ensures var p := Scan(own, cands, less);
      && (p.index.None? <==>
            forall j :: 0 <= j < |cands| && cands[j].Some? ==> !less(cands[j].value, own))
      && (p.index.None? ==> p.best == own)
      && !less(own, p.best)
      && (forall j :: 0 <= j < |cands| && cands[j].Some? ==> !less(cands[j].value, p.best))
      && (p.index.Some? ==>
            && p.index.value < |cands|
            && cands[p.index.value] == Some(p.best)
            && less(p.best, own)
            && (forall j :: 0 <= j < p.index.value && cands[j].Some? ==> less(p.best, cands[j].value)))
    decreases |cands|
  {
    if cands != [] {
      var n := |cands| - 1;
      var prefix := cands[..n];
      ScanSpec(own, prefix, less);
      var p := Scan(own, prefix, less);
      assert forall j :: 0 <= j < n ==> prefix[j] == cands[j];
    }
  }
}
