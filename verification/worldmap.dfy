/** The worldmap: one flat index space over all grid faces, the
    nearest-neighbour index check on it, and gathering values at flat indices.

    The face-to-worldmap reshaping routines are outside this model. Whatever
    arrangement they use, every worldmap cell copies one cell of one face, so
    the arrangement is given here as a `Layout`: the face cell each flat
    position copies. The model assumes that one layout serves both the XC/YC
    coordinates flattened for the nearest-neighbour search (preproc.py:155-156)
    and the six tile fields flattened for the gather (preproc.py:132-133); the two
    routes through the reshaping routines are not shown here to agree. */
module Worldmap {
  import opened Wrappers

  /** One cell of one face (faces numbered from 0 here, from 1 in the source). */
  datatype Cell = Cell(face: nat, row: nat, col: nat)

  /** Flat worldmap position p copies face cell `cells[p]`. */
  datatype Layout = Layout(cells: seq<Cell>)

  /** `np.prod(grid_shape)`: the number of cells of the worldmap array. */
  function CellCount(wm: Layout): nat { |wm.cells| }

  /** Every index names a cell of a worldmap with `cellCount` cells. */
  predicate Within(idx: seq<nat>, cellCount: nat)
  {
    forall n | 0 <= n < |idx| :: idx[n] < cellCount
  }

  /** No index exceeds the cell count: the indices the check as written
      admits, one more than `Within` allows. */
  predicate AtMost(idx: seq<nat>, cellCount: nat)
  {
    forall n | 0 <= n < |idx| :: idx[n] <= cellCount
  }

  /** Every cell of the layout lies inside its face (shapes are fixed, so
      nothing on the heap is read). */
  predicate Fits(wm: Layout, faces: seq<array2<int>>)
  {
    forall p :: 0 <= p < |wm.cells| ==>
      var c := wm.cells[p];
      c.face < |faces| && c.row < faces[c.face].Length0 && c.col < faces[c.face].Length1
  }

  /** The ravelled worldmap of a field given per face. */
  function Flatten(faces: seq<array2<int>>, wm: Layout): (flat: seq<int>)
    reads faces
    requires Fits(wm, faces)
  {
    seq(|wm.cells|, p requires 0 <= p < |wm.cells| reads faces =>
      faces[wm.cells[p].face][wm.cells[p].row, wm.cells[p].col])
  }

  /** Integer-array indexing `flat[idx]`: one value per index, in order, or
      an IndexError when some index lies past the end. */
  function Gather(flat: seq<int>, idx: seq<nat>): (r: Result<seq<int>>)
    ensures r.Ok? <==> forall k :: 0 <= k < |idx| ==> idx[k] < |flat|
    ensures r.Err? ==> r.error == IndexError
    ensures r.Ok? ==> |r.value| == |idx| && forall k :: 0 <= k < |idx| ==> r.value[k] == flat[idx[k]]
  {
    if idx == [] then Ok([])
    else if idx[0] >= |flat| then Err(IndexError)
    else
      match Gather(flat, idx[1..])
      case Err(e) => Err(e)
      case Ok(rest) => Ok([flat[idx[0]]] + rest)
  }

  /** `bad(idx).sum()` for an element-wise test such as `idx > n`: how many
      indices fail. */
  function CountWhere(idx: seq<nat>, bad: nat -> bool): nat
  {
    if idx == [] then 0 else (if bad(idx[0]) then 1 else 0) + CountWhere(idx[1..], bad)
  }

  /** Nothing is counted exactly when no index fails the test. */
  lemma {:induction false} CountWhereZero(idx: seq<nat>, bad: nat -> bool)
    ensures CountWhere(idx, bad) == 0 <==> forall k :: 0 <= k < |idx| ==> !bad(idx[k])
  {
    if idx != [] {
      CountWhereZero(idx[1..], bad);
      assert forall k :: 1 <= k < |idx| ==> idx[k] == idx[1..][k - 1];
    }
  }

  /** The post-check of the nearest-neighbour search AS WRITTEN: the indices
      produced by the search are rejected only if one is strictly greater
      than the cell count. */
  function NearestIndexAsWritten(produced: seq<nat>, cellCount: nat): (r: Result<seq<nat>>)
    ensures r.Ok? <==> forall k :: 0 <= k < |produced| ==> produced[k] <= cellCount
    ensures r.Ok? ==> r.value == produced
    ensures r.Err? ==> r.error == AssertionError
  {
    var tooLarge := i => i > cellCount;
    CountWhereZero(produced, tooLarge);
    if CountWhere(produced, tooLarge) == 0 then Ok(produced) else Err(AssertionError)
  }

  /** The check as written lets through an index equal to the cell count,
      the value the nearest-neighbour search reports for a point with no
      neighbour; the intended check rejects it, as it lies past the end of
      the worldmap. */
  lemma SentinelPassesCheck(cellCount: nat)
    ensures NearestIndexAsWritten([cellCount], cellCount) == Ok([cellCount])
    ensures NearestIndex([cellCount], cellCount) == Err(AssertionError)
  {
    assert [cellCount][0] == cellCount;
  }

  /** The post-check as intended: every produced index must address a cell of
      the worldmap. */
  function NearestIndex(produced: seq<nat>, cellCount: nat): (r: Result<seq<nat>>)
    ensures r.Ok? <==> forall k :: 0 <= k < |produced| ==> produced[k] < cellCount
    ensures r.Ok? ==> r.value == produced
    ensures r.Err? ==> r.error == AssertionError
  {
    var outOfRange := i => i >= cellCount;
    CountWhereZero(produced, outOfRange);
    if CountWhere(produced, outOfRange) == 0 then Ok(produced) else Err(AssertionError)
  }

  /** Indices that pass the intended check can be gathered from any ravelled
      field of the same worldmap. */
  lemma NearestIndexGathers(produced: seq<nat>, faces: seq<array2<int>>, wm: Layout)
    requires Fits(wm, faces)
    requires NearestIndex(produced, CellCount(wm)).Ok?
    ensures Gather(Flatten(faces, wm), produced).Ok?
  {
  }
}
