/** Client scenarios that follow the repository's own test cases
    (preproc/tests/test_preproc.py), carried out on the model: each asserts
    what the test checks, derived from the contracts alone. */
module Scenarios {
  import opened Wrappers
  import opened Naming
  import opened Worldmap
  import opened Tiles
  import opened Dataset
  import opened Interp
  import opened Preprocessor

  /** An unknown package name is rejected with a message naming it. */
  method InvalidPackage()
  {
    var r := InSituPreprocessor.New("invalid_pkg");
    assert r.Err? && r.error.ValueError?;
    assert "Invalid pkg 'invalid_pkg'" <= r.error.msg;
  }

  /** A valid package takes the default grid and tile size. */
  method ValidPackage()
  {
    var r := InSituPreprocessor.New("profiles", Some(map[]));
    assert r.Ok?;
    var pre := r.value;
    assert PkgName(pre.pkg) == "profiles";
    assert pre.grid == "sphericalpolar" && pre.sNx == 30 && pre.sNy == 30;
  }

  /** The name tables of the two packages. */
  method PackageFields()
  {
    var r1 := InSituPreprocessor.New("profiles");
    assert r1.Ok? && r1.value.pkg == Profiles;
    ProfilesFields();
    assert r1.value.names.dimsInsitu == ["iPROF"];
    assert r1.value.names.lonStr == "prof_lon" && r1.value.names.latStr == "prof_lat";
    var r2 := InSituPreprocessor.New("obsfit");
    assert r2.Ok? && r2.value.pkg == Obsfit;
    ObsfitFields();
    assert r2.value.names.dimsInsitu == ["iOBS"];
    assert r2.value.names.lonStr == "sample_lon" && r2.value.names.latStr == "sample_lat";
  }

  /** A profiles preprocessor with an empty record, built as the tests
      build it. */
  method NewProfiles(grid: string, sNx: int, sNy: int) returns (pre: InSituPreprocessor)
    ensures fresh(pre) && pre.Valid()
    ensures pre.pkg == Profiles && pre.names == PkgFieldsOf(Profiles)
    ensures pre.grid == grid && pre.sNx == sNx && pre.sNy == sNy
    ensures pre.ds == Some(map[]) && pre.coords == None && pre.obsPoint == None
  {
    var r := InSituPreprocessor.New("profiles", Some(map[]), grid, sNx, sNy);
    assert r.Ok?;
    pre := r.value;
  }

  /** A one-face 2 x 2 grid whose worldmap lists the cells row by row. */
  method SmallGrid() returns (g: GridDataset)
    ensures "XC" in g.coords && "YC" in g.coords
    ensures CoordsOf(g).Some? && CoordsOk(CoordsOf(g).value)
    ensures CellCount(g.layout) == 4
  {
    var xc := new int[2, 2]((r, c) => 10 * r + c);
    var yc := new int[2, 2]((r, c) => 20 * r + c);
    var wm := Layout([Cell(0, 0, 0), Cell(0, 0, 1), Cell(0, 1, 0), Cell(0, 1, 1)]);
    g := GridDataset(map["XC" := [xc], "YC" := [yc]], wm);
  }

  /** On a spherical-polar grid one observation gives a point field of
      length one and the two coordinate fields. */
  method ObsPointOnSphericalPolar()
  {
    var pre := NewProfiles("sphericalpolar", 30, 30);
    var g := SmallGrid();
    assert Within([3], 4);
    assert SearchableObs([5], [5]);
    assert AtMost([3], 4);
    assert !NeedsTiles(pre.grid) by { assert pre.grid[0] == 's'; }
    var out := pre.GetObsPoint(g, [5], [5], [3]);
    assert out == Pass;
    AllKeysListed();
    ResolvedRecord(map[], Profiles, [3], [5], [5], false,
                   map k: TileKey | k in TileKeys :: Variable([], NdArray([], [])));
    ProfilesFields();
    assert PointName(pre.names) == "prof_point";
    assert "prof_point" in pre.ds.value && pre.ds.value["prof_point"].values.shape == [1];
    assert "prof_lon" in pre.ds.value && "prof_lat" in pre.ds.value;
  }

  /** A grid without XC is refused before anything is stored. */
  method ObsPointWithoutCoordinates()
  {
    var r := InSituPreprocessor.New("obsfit", Some(map[]));
    assert r.Ok?;
    var pre := r.value;
    var g := GridDataset(map[], Layout([]));
    var out := pre.GetObsPoint(g, [], [], []);
    assert out.Fail? && out.error.ValueError? && pre.ds == Some(map[]);
  }

  /** Observation lists of different lengths are refused by the search:
      the grid's coordinates are kept and nothing is stored. */
  method ObsPointWithUnpairedLists()
  {
    var pre := NewProfiles("sphericalpolar", 30, 30);
    var g := SmallGrid();
    var out := pre.GetObsPoint(g, [1, 2], [1], [0]);
    assert out == Fail(ValueError(SearchInputMessage)) && pre.ds == Some(map[]);
    assert pre.coords == CoordsOf(g) && pre.obsPoint == None;
  }

  /** An index past the cell count fails the check as written. */
  method ObsPointPastTheWorldmap()
  {
    var pre := NewProfiles("sphericalpolar", 30, 30);
    var g := SmallGrid();
    assert !AtMost([5], 4) by { assert [5][0] > 4; }
    var out := pre.GetObsPoint(g, [1], [1], [5]);
    assert out == Fail(AssertionError) && pre.ds == Some(map[]);
  }

  /** An index equal to the cell count passes the check as written; on a
      spherical-polar grid it is stored as the point index. */
  method ObsPointAtTheSentinel()
  {
    var pre := NewProfiles("sphericalpolar", 30, 30);
    var g := SmallGrid();
    assert SearchableObs([1], [1]);
    assert AtMost([4], 4);
    assert !NeedsTiles(pre.grid) by { assert pre.grid[0] == 's'; }
    var out := pre.GetObsPoint(g, [1], [1], [4]);
    assert out == Pass && pre.obsPoint == Some([4]);
    ProfilesPointStored(pre.ds.value, [4], [1], [1]);
    assert pre.ds.value["prof_point"].values == Vector([4]);
  }

  /** On an llc grid the same index passes the check, is stored as the point
      index, and then makes the gather of the tile fields fail. */
  method SentinelOnLlc()
  {
    var pre := NewProfiles("llc", 2, 2);
    var g := SmallGrid();
    assert SearchableObs([1], [1]);
    assert AtMost([4], 4);
    assert !Within([4], 4) by { assert [4][0] == 4; }
    var out := pre.GetObsPoint(g, [1], [1], [4]);
    assert out == Fail(IndexError) && pre.obsPoint == Some([4]);
    ProfilesPointStored(pre.ds.value, [4], [1], [1]);
    assert pre.ds.value["prof_point"].values == Vector([4]);
  }

  /** A profiles record built from an empty one by get_obs_point holds the
      indices under `prof_point`, over the dimension `iPROF`. */
  lemma ProfilesPointStored(ds: Record, idx: seq<nat>, lons: seq<int>, lats: seq<int>)
    requires ds == ObsEntries(map[], PkgFieldsOf(Profiles), idx, lons, lats)
    ensures "prof_point" in ds && ds["prof_point"] == Variable(["iPROF"], Vector(idx))
  {
    ProfilesFields();
    RecordNamesDistinct(Profiles);
    assert PointName(PkgFieldsOf(Profiles)) == "prof_point";
  }

  /** A profiles record filled on a tiled grid holds the XC11 and YC11
      interpolation fields, whatever it held before. */
  lemma ProfilesTileFieldsStored(ds: Record, m: Record, vars: map<TileKey, Variable>)
    requires forall k :: k in vars
    requires ds == StoreInterp(m, "prof", TileKeys, vars)
    ensures "prof_interp_XC11" in ds && "prof_interp_YC11" in ds
  {
    assert InterpName("prof", XC11) == "prof_interp_XC11" by { assert KeyName(XC11) == "XC11"; }
    assert InterpName("prof", YC11) == "prof_interp_YC11" by { assert KeyName(YC11) == "YC11"; }
    assert TileKeys[0] == XC11 && TileKeys[1] == YC11;
    StoreInterpLookup(m, "prof", TileKeys, vars);
  }

  /** On an llc grid get_obs_point also stores the six tile fields. */
  method SampleInterpOnLlc()
  {
    var pre := NewProfiles("llc", 2, 2);
    var g := SmallGrid();
    assert Within([0, 3], 4);
    assert SearchableObs([0, 1], [0, 1]);
    assert AtMost([0, 3], 4);
    ProfilesFields();
    ghost var vars := InterpVariables(g.coords["XC"], g.coords["YC"], 2, 2, g.layout, [0, 3], pre.names.dimsInterp);
    var out := pre.GetObsPoint(g, [0, 1], [0, 1], [0, 3]);
    assert out == Pass;
    ProfilesTileFieldsStored(pre.ds.value, ObsEntries(map[], pre.names, [0, 3], [0, 1], [0, 1]), vars);
  }
}
