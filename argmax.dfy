/** `Series.idxmax()`: the position of the first maximal element of a
    column. */
module ArgMax {
  import opened Wrappers

  /** Scanning rows `i..` with `best` the first maximum of rows `..i`: a
      later row replaces it only when strictly larger. */
  function MaxIndexFrom(xs: seq<real>, i: nat, best: nat): (k: nat)
    requires best < i <= |xs|
    requires forall j :: 0 <= j < i ==> xs[j] <= xs[best]
    requires forall j :: 0 <= j < best ==> xs[j] < xs[best]
    ensures k < |xs|
    ensures forall j :: 0 <= j < |xs| ==> xs[j] <= xs[k]
    ensures forall j :: 0 <= j < k ==> xs[j] < xs[k]
    decreases |xs| - i
  {
    if i == |xs| then best
    else if xs[i] > xs[best] then MaxIndexFrom(xs, i + 1, i)
    else MaxIndexFrom(xs, i + 1, best)
  }

  /** The position of the first maximal element. */
  function FirstMax(xs: seq<real>): (k: nat)
    requires |xs| > 0
    ensures k < |xs|
    ensures forall j :: 0 <= j < |xs| ==> xs[j] <= xs[k]
    ensures forall j :: 0 <= j < k ==> xs[j] < xs[k]
  {
    MaxIndexFrom(xs, 1, 0)
  }

  /** `idxmax` on a column whose index is its row position: the first row
      holding the maximum, so ties go to the earliest row; an empty column
      has no maximum (pandas raises an error there). */
  function IdxMax(xs: seq<real>): (r: Option<nat>)
    ensures r.None? <==> |xs| == 0
    ensures r.Some? ==> r.value < |xs|
    ensures r.Some? ==> forall j :: 0 <= j < |xs| ==> xs[j] <= xs[r.value]
    ensures r.Some? ==> forall j :: 0 <= j < r.value ==> xs[j] < xs[r.value]
  {
    if |xs| == 0 then None else Some(FirstMax(xs))
  }

  /** The first-index maximum is unique: no other position satisfies both
      of its properties. */
  lemma {:induction false} FirstMaxUnique(xs: seq<real>, k: nat)
    requires k < |xs|
    requires forall j :: 0 <= j < |xs| ==> xs[j] <= xs[k]
    requires forall j :: 0 <= j < k ==> xs[j] < xs[k]
    ensures IdxMax(xs) == Some(k)
  {
  }

}
