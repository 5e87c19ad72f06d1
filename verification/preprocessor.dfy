/** The in-situ preprocessor: it is configured with an observation package,
    a grid type and a tile size, resolves observation points to their
    nearest worldmap cells and fills a record of named fields with the
    results and, on llc and cubed-sphere grids, with the tile metadata of
    those cells. */
module Preprocessor {
  import opened Wrappers
  import opened Naming
  import opened Worldmap
  import opened Tiles
  import opened Dataset
  import opened Interp

  /** The grid dataset handed to get_obs_point: named coordinate fields,
      each given face by face, and the worldmap arrangement of its faces. */
  datatype GridDataset = GridDataset(coords: map<string, seq<array2<int>>>, layout: Layout)

  /** A grid's XC and YC, face by face, and its worldmap arrangement. */
  datatype Coords = Coords(xc: seq<array2<int>>, yc: seq<array2<int>>, layout: Layout)

  /** XC and YC pair up face by face and the arrangement stays inside the faces. */
  predicate CoordsOk(g: Coords)
  {
    FacesMatch(g.xc, g.yc) && Fits(g.layout, g.xc)
  }

  /** The XC and YC fields of a grid dataset, when it has both. */
  function CoordsOf(g: GridDataset): (c: Option<Coords>)
    ensures c.Some? <==> "XC" in g.coords && "YC" in g.coords
  {
    if "XC" in g.coords && "YC" in g.coords
    then Some(Coords(g.coords["XC"], g.coords["YC"], g.layout))
    else None
  }

  const MissingCoordsMessage: string := "grid_noblank_ds must have fields XC and YC."

  /** The grid types whose faces are cut into tiles. */
  predicate NeedsTiles(grid: string)
  {
    grid == "llc" || grid == "cubedsphere"
  }

  /** The three fields get_obs_point stores: the nearest-cell indices under
      `{pkg_str}_point` and the observation coordinates, each after the
      empty-list wrap, under the package's longitude and latitude names. */
  function ObsEntries(m: Record, f: PkgFields, idx: seq<nat>, lons: seq<int>, lats: seq<int>): Record
  {
    m[PointName(f) := Variable(f.dimsInsitu, Vector(idx))]
     [f.lonStr := Variable(f.dimsInsitu, ObsArray(lons))]
     [f.latStr := Variable(f.dimsInsitu, ObsArray(lats))]
  }

  /** The gathered tile fields keep shape (n,) for obsfit and gain a
      singleton interpolation axis, (n, 1), for profiles. */
  lemma InterpShapeByPackage(p: Pkg, n: nat)
    ensures |PkgFieldsOf(p).dimsInterp| >= 1
    ensures InterpShape(n, PkgFieldsOf(p).dimsInterp) == if p == Profiles then [n, 1] else [n]
  {
    if p == Profiles { ProfilesFields(); } else { ObsfitFields(); }
    var shape := InterpShape(n, PkgFieldsOf(p).dimsInterp);
    if p == Profiles {
      assert shape == [shape[0], shape[1]];
    } else {
      assert shape == [shape[0]];
    }
  }

  /** For either package the point, longitude, latitude and six
      interpolation field names are nine different names. */
  lemma RecordNamesDistinct(p: Pkg)
    ensures var f := PkgFieldsOf(p);
            && PointName(f) != f.lonStr && PointName(f) != f.latStr && f.lonStr != f.latStr
            && forall k :: InterpName(InterpPrefix(f), k) != PointName(f)
                        && InterpName(InterpPrefix(f), k) != f.lonStr
                        && InterpName(InterpPrefix(f), k) != f.latStr
    ensures forall k1, k2 | k1 != k2 ::
              InterpName(InterpPrefix(PkgFieldsOf(p)), k1) != InterpName(InterpPrefix(PkgFieldsOf(p)), k2)
  {
    var f := PkgFieldsOf(p);
    if p == Profiles { ProfilesFields(); } else { ObsfitFields(); }
    var prefix := InterpPrefix(f);
    forall k ensures InterpName(prefix, k)[..|prefix| + 2] == prefix + "_i"
    {
      assert InterpName(prefix, k) == prefix + "_interp_" + KeyName(k);
    }
    if p == Profiles {
      assert PointName(f)[..6] == "prof_p";
      assert f.lonStr[..6] == "prof_l" && f.latStr[..6] == "prof_l";
      assert f.lonStr[6] == 'o' && f.latStr[6] == 'a';
    } else {
      assert PointName(f)[0] == 'o';
      assert forall k :: InterpName(prefix, k)[0] == 's';
      assert f.lonStr[..8] == "sample_l" && f.latStr[..8] == "sample_l";
      assert f.lonStr[8] == 'o' && f.latStr[8] == 'a';
    }
    forall k1, k2 | k1 != k2
      ensures InterpName(prefix, k1) != InterpName(prefix, k2)
    {
      if InterpName(prefix, k1) == InterpName(prefix, k2) {
        InterpNameInjective(prefix, k1, k2);
      }
    }
  }

  /** The observation lists the search accepts. An empty list is wrapped to
      shape (1, 0), which does not pair with the other list into points of
      two coordinates, and lists of different lengths do not stack into
      points at all; either way the search raises a ValueError. */
  predicate SearchableObs(lons: seq<int>, lats: seq<int>)
  {
    |lons| > 0 && |lons| == |lats|
  }

  /** The message of the ValueError for observation lists the search refuses. */
  const SearchInputMessage := "observation longitudes and latitudes must be non-empty lists of one length"

  /** The record after a successful get_obs_point: the point, longitude and
      latitude fields hold the indices and the wrapped coordinates; on grids
      with tiles the six interpolation fields hold the sampled metadata;
      every other field is as before. */
  lemma ResolvedRecord(m: Record, p: Pkg, idx: seq<nat>, lons: seq<int>, lats: seq<int>,
                       withTiles: bool, vars: map<TileKey, Variable>)
    requires forall k :: k in vars
    ensures var f := PkgFieldsOf(p);
            var r0 := ObsEntries(m, f, idx, lons, lats);
            var r := if withTiles then StoreInterp(r0, InterpPrefix(f), TileKeys, vars) else r0;
            && PointName(f) in r && r[PointName(f)] == Variable(f.dimsInsitu, Vector(idx))
            && f.lonStr in r && r[f.lonStr] == Variable(f.dimsInsitu, ObsArray(lons))
            && f.latStr in r && r[f.latStr] == Variable(f.dimsInsitu, ObsArray(lats))
            && (withTiles ==> forall k :: InterpName(InterpPrefix(f), k) in r
                                       && r[InterpName(InterpPrefix(f), k)] == vars[k])
            && (forall name | name != PointName(f) && name != f.lonStr && name != f.latStr
                              && (withTiles ==> forall k :: name != InterpName(InterpPrefix(f), k)) ::
                  (name in r <==> name in m) && (name in m ==> r[name] == m[name]))
  {
    var f := PkgFieldsOf(p);
    var r0 := ObsEntries(m, f, idx, lons, lats);
    RecordNamesDistinct(p);
    AllKeysListed();
    StoreInterpLookup(r0, InterpPrefix(f), TileKeys, vars);
    forall name | name != PointName(f) && name != f.lonStr && name != f.latStr
                  && (withTiles ==> forall k :: name != InterpName(InterpPrefix(f), k))
      ensures var r := if withTiles then StoreInterp(r0, InterpPrefix(f), TileKeys, vars) else r0;
              (name in r <==> name in m) && (name in m ==> r[name] == m[name])
    {
      assert (name in r0 <==> name in m) && (name in m ==> r0[name] == m[name]);
    }
  }

  /** The tiling half of get_sample_interp_info: every face is cut into
      tiles and each of the six tile fields is flattened to the worldmap,
      giving, key by key, the expected worldmap of that field. */
  method FlattenedTiles(xs: seq<array2<int>>, ys: seq<array2<int>>, sx: int, sy: int, wm: Layout)
    returns (flats: map<TileKey, seq<int>>)
    requires FacesMatch(xs, ys) && sx > 0 && sy > 0 && Fits(wm, xs)
    ensures flats == ExpectedFlats(xs, ys, sx, sy, wm)
  {
    var tiles := TileFaces(xs, ys, sx, sy);
    forall k
      ensures Fits(wm, FieldFaces(tiles, k))
      ensures Flatten(FieldFaces(tiles, k), wm) == ExpectedFlat(k, xs, ys, sx, sy, wm)
    {
      FlattenTiled(tiles, k, xs, ys, sx, sy, wm);
    }
    AllKeysListed();
    flats := map k: TileKey | k in TileKeys :: Flatten(FieldFaces(tiles, k), wm);
  }

  /** The loop of get_sample_interp_info over the flattened fields: for each
      tile key in turn the field is gathered at the observation indices (an
      IndexError if one lies past the end, which happens on the first key
      already), reshaped to the interpolation dimensions and stored under its
      interpolation name. */
  method StoreSampled(flats: map<TileKey, seq<int>>, cells: nat, idx: seq<nat>, dims: seq<string>,
                      prefix: string, m: Record)
    returns (r: Result<Record>)
    requires forall k :: k in flats && |flats[k]| == cells
    requires |dims| >= 1
    ensures r.Ok? <==> forall n | 0 <= n < |idx| :: idx[n] < cells
    ensures r.Err? ==> r.error == IndexError
    ensures r.Ok? ==> r.value == StoreInterp(m, prefix, TileKeys, SampledVariables(flats, cells, idx, dims))
  {
    ghost var inRange := forall n | 0 <= n < |idx| :: idx[n] < cells;
    AllKeysListed();
    ghost var vars := if inRange
      then SampledVariables(flats, cells, idx, dims)
      else map k: TileKey | k in TileKeys :: Variable([], NdArray([], []));
    var rec := m;
    for q := 0 to |TileKeys|
      invariant q == 0 ==> rec == m
      invariant q > 0 ==> inRange && rec == StoreInterp(m, prefix, TileKeys[..q], vars)
    {
      var k := TileKeys[q];
      var atObs := Gather(flats[k], idx);
      if atObs.Err? {
        return Err(atObs.error);
      }
      var v := Variable(dims, NdArray(InterpShape(|idx|, dims), atObs.value));
      StoreInterpStep(m, prefix, TileKeys, q, vars);
      rec := rec[InterpName(prefix, k) := v];
    }
    StoreInterpAll(m, prefix, TileKeys, vars);
    r := Ok(rec);
  }

  /** get_sample_interp_info on the values of a grid: tiling, flattening,
      gathering and storing the six fields. */
  method SampleInterpFields(xs: seq<array2<int>>, ys: seq<array2<int>>, sx: int, sy: int, wm: Layout,
                            idx: seq<nat>, dims: seq<string>, prefix: string, m: Record)
    returns (r: Result<Record>)
    requires FacesMatch(xs, ys) && sx > 0 && sy > 0 && Fits(wm, xs) && |dims| >= 1
    ensures r.Ok? <==> forall n | 0 <= n < |idx| :: idx[n] < CellCount(wm)
    ensures r.Err? ==> r.error == IndexError
    ensures r.Ok? ==> r.value == StoreInterp(m, prefix, TileKeys, old(InterpVariables(xs, ys, sx, sy, wm, idx, dims)))
  {
    // The expected fields read only the coordinate arrays, which tiling
    // leaves alone.
    ghost var want := ExpectedFlats(xs, ys, sx, sy, wm);
    var flats := FlattenedTiles(xs, ys, sx, sy, wm);
    assert flats == want;
    r := StoreSampled(flats, CellCount(wm), idx, dims, prefix, m);
  }

  class InSituPreprocessor {
    const pkg: Pkg
    const grid: string
    const sNx: int
    const sNy: int
    /** What get_pkg_fields sets, fixed by the package. */
    const names: PkgFields
    /** The result record; absent unless a dataset was passed at construction. */
    var ds: Option<Record>
    /** XC and YC of the last grid given to GetObsPoint. */
    var coords: Option<Coords>
    /** The nearest-cell indices of the last resolved observations. */
    var obsPoint: Option<seq<nat>>

    ghost predicate Valid()
      reads this
    {
      names == PkgFieldsOf(pkg) && (coords.Some? ==> CoordsOk(coords.value))
    }

    /** Construction once the package is known to be valid. Only whether a
        dataset was passed matters: the record starts empty either way. */
    constructor (p: Pkg, ds: Option<Record>, grid: string, sNx: int, sNy: int)
      ensures Valid()
      ensures pkg == p && this.grid == grid && this.sNx == sNx && this.sNy == sNy
      ensures this.ds == (if ds.Some? then Some(map[]) else None)
      ensures coords == None && obsPoint == None
    {
      pkg := p;
      this.grid := grid;
      this.sNx := sNx;
      this.sNy := sNy;
      names := PkgFieldsOf(p);
      this.ds := if ds.Some? then Some(map[]) else None;
      coords := None;
      obsPoint := None;
    }

    /** The constructor as callers see it: an unknown package name raises a
        ValueError naming it; otherwise a preprocessor with the given grid
        type and tile size (default 'sphericalpolar', 30 x 30). */
    static method New(pkg: string, ds: Option<Record> := None, grid: string := "sphericalpolar",
                      sNx: int := 30, sNy: int := 30)
      returns (r: Result<InSituPreprocessor>)
      ensures r.Err? <==> pkg != "profiles" && pkg != "obsfit"
      ensures r.Err? ==> r.error == ValueError(InvalidPkgMessage(pkg))
      ensures r.Ok? ==> && fresh(r.value) && r.value.Valid()
                        && PkgName(r.value.pkg) == pkg && r.value.grid == grid
                        && r.value.sNx == sNx && r.value.sNy == sNy
                        && r.value.ds == (if ds.Some? then Some(map[]) else None)
                        && r.value.coords == None && r.value.obsPoint == None
    {
      match ParsePkg(pkg) {
        case Err(e) =>
          r := Err(e);
        case Ok(p) =>
          var pre := new InSituPreprocessor(p, ds, grid, sNx, sNy);
          r := Ok(pre);
      }
    }

    /** get_sample_interp_info: the grid must have been stored (else an
        AttributeError), the observation indices too (else an AttributeError
        once the tiles are built); an index past the worldmap is an
        IndexError; a preprocessor built without a dataset fails with an
        AttributeError when storing the first field; otherwise the six
        fields are stored and nothing else changes. */
    method GetSampleInterpInfo() returns (r: Outcome)
      requires Valid() && sNx > 0 && sNy > 0
      modifies this`ds
      ensures coords.None? || obsPoint.None? ==> r == Fail(AttributeError) && ds == old(ds)
      ensures coords.Some? && obsPoint.Some? ==>
                && (!Within(obsPoint.value, CellCount(coords.value.layout)) ==>
                      r == Fail(IndexError) && ds == old(ds))
                && (Within(obsPoint.value, CellCount(coords.value.layout)) && old(ds).None? ==>
                      r == Fail(AttributeError) && ds == old(ds))
                && (Within(obsPoint.value, CellCount(coords.value.layout)) && old(ds).Some? ==>
                      r == Pass && ds == Some(StoreInterp(old(ds).value, InterpPrefix(names), TileKeys,
                        old(InterpVariables(coords.value.xc, coords.value.yc, sNx, sNy, coords.value.layout,
                                            obsPoint.value, names.dimsInterp)))))
    {
      if coords.None? || obsPoint.None? {
        return Fail(AttributeError);
      }
      var c := coords.value;
      var stored := SampleInterpFields(c.xc, c.yc, sNx, sNy, c.layout, obsPoint.value, names.dimsInterp,
                                       InterpPrefix(names), if ds.Some? then ds.value else map[]);
      if stored.Err? {
        return Fail(stored.error);
      }
      if ds.None? {
        return Fail(AttributeError);
      }
      ds := Some(stored.value);
      r := Pass;
    }

    /** get_obs_point: a grid without XC or YC raises a ValueError before
        anything changes; the grid's XC and YC are kept; coordinate lists the
        search cannot take raise a ValueError; the nearest-cell indices
        produced by the search (given here as `nearest`) pass the check as
        written when none exceeds the cell count, else an AssertionError; the
        indices are kept; without a dataset the first store fails with an
        AttributeError; otherwise the point, longitude and latitude fields are
        stored and, on llc and cubed-sphere grids, the six tile fields, whose
        gather raises an IndexError at an index equal to the cell count. */
    method GetObsPoint(g: GridDataset, lons: seq<int>, lats: seq<int>, nearest: seq<nat>)
      returns (r: Outcome)
      requires Valid()
      requires CoordsOf(g).Some? ==> CoordsOk(CoordsOf(g).value)
      requires NeedsTiles(grid) ==> sNx > 0 && sNy > 0
      modifies this
      ensures Valid()
      ensures CoordsOf(g).None? ==>
                r == Fail(ValueError(MissingCoordsMessage)) && unchanged(this)
      ensures CoordsOf(g).Some? ==> coords == CoordsOf(g)
      ensures CoordsOf(g).Some? && !SearchableObs(lons, lats) ==>
                r == Fail(ValueError(SearchInputMessage)) && ds == old(ds) && obsPoint == old(obsPoint)
      ensures CoordsOf(g).Some? && SearchableObs(lons, lats) && !AtMost(nearest, CellCount(g.layout)) ==>
                r == Fail(AssertionError) && ds == old(ds) && obsPoint == old(obsPoint)
      ensures CoordsOf(g).Some? && SearchableObs(lons, lats) && AtMost(nearest, CellCount(g.layout)) ==>
                && obsPoint == Some(nearest)
                && (old(ds).None? ==> r == Fail(AttributeError) && ds == None)
                && (old(ds).Some? && !NeedsTiles(grid) ==>
                      r == Pass && ds == Some(ObsEntries(old(ds).value, names, nearest, lons, lats)))
                && (old(ds).Some? && NeedsTiles(grid) && !Within(nearest, CellCount(g.layout)) ==>
                      r == Fail(IndexError) && ds == Some(ObsEntries(old(ds).value, names, nearest, lons, lats)))
                && (old(ds).Some? && NeedsTiles(grid) && Within(nearest, CellCount(g.layout)) ==>
                      r == Pass && ds == Some(StoreInterp(
                        ObsEntries(old(ds).value, names, nearest, lons, lats), InterpPrefix(names), TileKeys,
                        old(InterpVariables(g.coords["XC"], g.coords["YC"], sNx, sNy, g.layout,
                                            nearest, names.dimsInterp)))))
    {
      if "XC" !in g.coords || "YC" !in g.coords {
        return Fail(ValueError(MissingCoordsMessage));
      }
      // The expected tile fields depend only on the coordinate arrays,
      // which the writes below leave alone.
      ghost var flats := if NeedsTiles(grid)
        then ExpectedFlats(g.coords["XC"], g.coords["YC"], sNx, sNy, g.layout) else map[];
      coords := CoordsOf(g);
      assert NeedsTiles(grid) ==> flats == ExpectedFlats(g.coords["XC"], g.coords["YC"], sNx, sNy, g.layout);
      if !SearchableObs(lons, lats) {
        return Fail(ValueError(SearchInputMessage));
      }
      var checked := NearestIndexAsWritten(nearest, CellCount(g.layout));
      if checked.Err? {
        return Fail(checked.error);
      }
      obsPoint := Some(checked.value);
      assert NeedsTiles(grid) ==> flats == ExpectedFlats(g.coords["XC"], g.coords["YC"], sNx, sNy, g.layout);
      if ds.None? {
        return Fail(AttributeError);
      }
      ds := Some(ObsEntries(ds.value, names, checked.value, lons, lats));
      assert NeedsTiles(grid) ==> flats == ExpectedFlats(g.coords["XC"], g.coords["YC"], sNx, sNy, g.layout);
      if NeedsTiles(grid) {
        r := GetSampleInterpInfo();
      } else {
        r := Pass;
      }
    }
  }
}
