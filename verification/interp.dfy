/** The last step of the tile metadata builder: each of the six per-face
    fields is flattened to the worldmap, sampled at the observations'
    nearest-cell indices and stored under its interpolation name. */
module Interp {
  import opened Wrappers
  import opened Tiles
  import opened Worldmap
  import opened Dataset

  /** Field k of every face, in face order. */
  function FieldFaces(tiles: seq<FaceTiles>, k: TileKey): (fs: seq<array2<int>>)
    ensures |fs| == |tiles|
    ensures forall f | 0 <= f < |tiles| :: fs[f] == Field(tiles[f], k)
  {
    seq(|tiles|, f requires 0 <= f < |tiles| => Field(tiles[f], k))
  }

  /** The worldmap a field k should flatten to: each flat position holds the
      value `Expected` gives for the face cell it copies. */
  function ExpectedFlat(k: TileKey, xs: seq<array2<int>>, ys: seq<array2<int>>,
                        sx: int, sy: int, wm: Layout): (flat: seq<int>)
    reads xs, ys
    requires FacesMatch(xs, ys) && sx > 0 && sy > 0 && Fits(wm, xs)
    ensures |flat| == CellCount(wm)
  {
    seq(|wm.cells|, p requires 0 <= p < |wm.cells| reads xs, ys =>
      var c := wm.cells[p];
      Expected(k, xs[c.face], ys[c.face], sx, sy, c.row, c.col))
  }

  /** Flattening the tiled faces gives the expected worldmap of the field. */
  lemma FlattenTiled(tiles: seq<FaceTiles>, k: TileKey, xs: seq<array2<int>>, ys: seq<array2<int>>,
                     sx: int, sy: int, wm: Layout)
    requires FacesMatch(xs, ys) && sx > 0 && sy > 0 && Fits(wm, xs)
    requires |tiles| == |xs|
    requires forall f | 0 <= f < |xs| :: FaceTiled(tiles[f], xs[f], ys[f], sx, sy)
    ensures Fits(wm, FieldFaces(tiles, k))
    ensures Flatten(FieldFaces(tiles, k), wm) == ExpectedFlat(k, xs, ys, sx, sy, wm)
  {
    var fs := FieldFaces(tiles, k);
    forall f | 0 <= f < |xs|
      ensures FieldTiled(fs[f], k, xs[f], ys[f], sx, sy)
    {
      FieldOfTiledFace(tiles[f], k, xs[f], ys[f], sx, sy);
    }
    var flat, want := Flatten(fs, wm), ExpectedFlat(k, xs, ys, sx, sy, wm);
    forall p | 0 <= p < |wm.cells|
      ensures flat[p] == want[p]
    {
      var c := wm.cells[p];
      assert FieldTiled(fs[c.face], k, xs[c.face], ys[c.face], sx, sy);
    }
  }

  /** `'{prof|sample}_interp_' + key`: the record name of a tile field. */
  function InterpName(prefix: string, k: TileKey): string
  {
    prefix + "_interp_" + KeyName(k)
  }

  /** Different keys give different names under one prefix. */
  lemma InterpNameInjective(prefix: string, k1: TileKey, k2: TileKey)
    requires InterpName(prefix, k1) == InterpName(prefix, k2)
    ensures k1 == k2
  {
    var n := |prefix + "_interp_"|;
    assert InterpName(prefix, k1)[n..] == KeyName(k1);
    assert InterpName(prefix, k2)[n..] == KeyName(k2);
  }

  /** `shape + (1,) * (len(dims) - 1)`: the gathered values get one trailing
      singleton axis per extra dimension name. */
  function InterpShape(n: nat, dims: seq<string>): (shape: seq<nat>)
    requires |dims| >= 1
    ensures |shape| == |dims| && shape[0] == n
    ensures forall d | 1 <= d < |shape| :: shape[d] == 1
    ensures Size(shape) == n
  {
    var ones := seq(|dims| - 1, d => 1);
    SizeOfOnes(ones);
    [n] + ones
  }

  /** A shape made of ones holds one element. */
  lemma {:induction false} SizeOfOnes(ones: seq<nat>)
    requires forall d | 0 <= d < |ones| :: ones[d] == 1
    ensures Size(ones) == 1
  {
    if ones != [] {
      SizeOfOnes(ones[1..]);
    }
  }

  /** The expected worldmaps of the six fields, by key. */
  function ExpectedFlats(xs: seq<array2<int>>, ys: seq<array2<int>>, sx: int, sy: int, wm: Layout)
    : (flats: map<TileKey, seq<int>>)
    reads xs, ys
    requires FacesMatch(xs, ys) && sx > 0 && sy > 0 && Fits(wm, xs)
    ensures forall k :: k in flats && flats[k] == ExpectedFlat(k, xs, ys, sx, sy, wm)
  {
    AllKeysListed();
    map k: TileKey | k in TileKeys :: ExpectedFlat(k, xs, ys, sx, sy, wm)
  }

  /** A flattened field gathered at in-range indices, reshaped to dims: one
      value per observation, the value at that observation's index. */
  function SampledVariable(flat: seq<int>, idx: seq<nat>, dims: seq<string>): (v: Variable)
    requires |dims| >= 1
    requires forall q | 0 <= q < |idx| :: idx[q] < |flat|
    ensures v.dims == dims && |v.values.shape| == |dims|
    ensures v.values.shape[0] == |idx| == |v.values.data| == Size(v.values.shape)
    ensures forall d | 1 <= d < |v.values.shape| :: v.values.shape[d] == 1
    ensures forall n | 0 <= n < |idx| :: v.values.data[n] == flat[idx[n]]
  {
    Variable(dims, NdArray(InterpShape(|idx|, dims), Gather(flat, idx).value))
  }

  /** The six record fields, by key, sampled from flattened fields of `cells`
      values each. */
  function SampledVariables(flats: map<TileKey, seq<int>>, cells: nat, idx: seq<nat>, dims: seq<string>)
    : (vars: map<TileKey, Variable>)
    requires forall k :: k in flats && |flats[k]| == cells
    requires |dims| >= 1
    requires forall q | 0 <= q < |idx| :: idx[q] < cells
    ensures forall k :: k in vars && vars[k] == SampledVariable(flats[k], idx, dims)
  {
    AllKeysListed();
    map k: TileKey | k in TileKeys :: SampledVariable(flats[k], idx, dims)
  }

  /** The six record fields get_sample_interp_info stores: the expected
      worldmaps of the tile fields sampled at the observations' indices. */
  function InterpVariables(xs: seq<array2<int>>, ys: seq<array2<int>>,
                           sx: int, sy: int, wm: Layout, idx: seq<nat>, dims: seq<string>)
    : (vars: map<TileKey, Variable>)
    reads xs, ys
    requires FacesMatch(xs, ys) && sx > 0 && sy > 0 && Fits(wm, xs) && |dims| >= 1
    requires forall q | 0 <= q < |idx| :: idx[q] < CellCount(wm)
  {
    SampledVariables(ExpectedFlats(xs, ys, sx, sy, wm), CellCount(wm), idx, dims)
  }

  /** The stored field of key k holds, for observation n, the value
      `Expected` gives for the face cell its nearest worldmap cell copies,
      in an array of shape (n_obs, 1, ..., 1). */
  lemma SampledAtObservation(k: TileKey, xs: seq<array2<int>>, ys: seq<array2<int>>,
                             sx: int, sy: int, wm: Layout, idx: seq<nat>, dims: seq<string>, n: int)
    requires FacesMatch(xs, ys) && sx > 0 && sy > 0 && Fits(wm, xs) && |dims| >= 1
    requires Within(idx, CellCount(wm))
    requires 0 <= n < |idx|
    ensures k in InterpVariables(xs, ys, sx, sy, wm, idx, dims)
    ensures var v := InterpVariables(xs, ys, sx, sy, wm, idx, dims)[k];
            var c := wm.cells[idx[n]];
            && v.dims == dims && v.values.shape == InterpShape(|idx|, dims)
            && |v.values.data| == |idx|
            && v.values.data[n] == Expected(k, xs[c.face], ys[c.face], sx, sy, c.row, c.col)
  {
    var flats := ExpectedFlats(xs, ys, sx, sy, wm);
    assert flats[k] == ExpectedFlat(k, xs, ys, sx, sy, wm);
  }

  /** Storing the fields of keys ks, one after another, into record m. */
  function StoreInterp(m: Record, prefix: string, ks: seq<TileKey>, vars: map<TileKey, Variable>): Record
    requires forall k :: k in vars
  {
    if ks == [] then m
    else
      var k := ks[|ks| - 1];
      StoreInterp(m, prefix, ks[..|ks| - 1], vars)[InterpName(prefix, k) := vars[k]]
  }

  /** Storing one more key's field extends the fold by one map update. */
  lemma StoreInterpStep(m: Record, prefix: string, ks: seq<TileKey>, q: int, vars: map<TileKey, Variable>)
    requires forall k :: k in vars
    requires 0 <= q < |ks|
    ensures StoreInterp(m, prefix, ks[..q + 1], vars)
            == StoreInterp(m, prefix, ks[..q], vars)[InterpName(prefix, ks[q]) := vars[ks[q]]]
  {
    assert ks[..q + 1][..q] == ks[..q];
  }

  /** The fold over the whole key list is the fold over its full prefix. */
  lemma StoreInterpAll(m: Record, prefix: string, ks: seq<TileKey>, vars: map<TileKey, Variable>)
    requires forall k :: k in vars
    ensures StoreInterp(m, prefix, ks[..|ks|], vars) == StoreInterp(m, prefix, ks, vars)
  {
    assert ks[..|ks|] == ks;
  }

  /** After storing the fields of keys ks: each of them is found under its
      name, and every other name is as it was. */
  lemma {:induction false} StoreInterpLookup(m: Record, prefix: string, ks: seq<TileKey>,
                                             vars: map<TileKey, Variable>)
    requires forall k :: k in vars
    ensures forall k | k in ks :: InterpName(prefix, k) in StoreInterp(m, prefix, ks, vars)
                               && StoreInterp(m, prefix, ks, vars)[InterpName(prefix, k)] == vars[k]
    ensures forall name | (forall k | k in ks :: name != InterpName(prefix, k)) ::
              (name in StoreInterp(m, prefix, ks, vars) <==> name in m)
              && (name in m ==> StoreInterp(m, prefix, ks, vars)[name] == m[name])
  {
    if ks != [] {
      var init, last := ks[..|ks| - 1], ks[|ks| - 1];
      StoreInterpLookup(m, prefix, init, vars);
      assert ks == init + [last];
      forall k | k in ks && k != last
        ensures InterpName(prefix, k) != InterpName(prefix, last)
      {
        if InterpName(prefix, k) == InterpName(prefix, last) {
          InterpNameInjective(prefix, k, last);
        }
      }
    }
  }
}
