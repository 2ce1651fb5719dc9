/** Lists without repeats, and the positions selected by a boolean mask. */
module Lists {

  ghost predicate Distinct<T>(s: seq<T>) {
    forall a, b | 0 <= a < b < |s| :: s[a] != s[b]
  }

  /** The positions where the mask holds, as a set. */
  function Trues(mask: seq<bool>): set<nat> {
    set j: nat | j < |mask| && mask[j]
  }

  ghost predicate Increasing(s: seq<nat>) {
    forall a, b | 0 <= a < b < |s| :: s[a] < s[b]
  }

  /** The positions where `mask` holds, in order (numpy's and pandas' boolean indexing). */
  function Indices(mask: seq<bool>): (r: seq<nat>)
    ensures forall i | i in r :: i < |mask| && mask[i]
    ensures forall i: nat | i < |mask| && mask[i] :: i in r
    ensures Increasing(r)
  {
    if mask == [] then []
    else
      var init := Indices(mask[..|mask| - 1]);
      assert forall a | 0 <= a < |init| :: init[a] in init;
      init + (if mask[|mask| - 1] then [|mask| - 1] else [])
  }
}
