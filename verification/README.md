# In-situ preprocessor, modelled in Dafny

This project models the `InSituPreprocessor` of the EH24 llc processors. The preprocessor prepares ungridded ocean observations for an ocean model.

- **Construction.** It is built for one observation package, `profiles` or `obsfit`. The package fixes a table of field and dimension names.
- **`get_obs_point`.** This step does three things:
  - It resolves each observation to its nearest cell of the model grid's worldmap.
  - It stores the indices and the observation coordinates in a result record.
  - On `llc` and `cubedsphere` grids it also runs `get_sample_interp_info`.
- **`get_sample_interp_info`.** This step works in four stages:
  - It cuts every grid face into `sNx x sNy` MPI tiles.
  - It fills six per-face arrays:
    - `XC11` and `YC11`: the tile's first corner;
    - `XCNINJ` and `YCNINJ`: the tile's opposite corner;
    - `i` and `j`: the cell's 1-based column and row inside its tile.
  - It flattens each array to the worldmap and samples it at the observations' indices.
  - It stores the results as `{prof|sample}_interp_<key>`.

## Modules

- `Wrappers` (wrappers.dfy): the exceptions the code raises, as `Result` and `Outcome` values.
- `Naming` (naming.dfy): package validation and the `get_pkg_fields` name table.
- `Worldmap` (worldmap.dfy): the flattening of faces to the worldmap, integer-array gathering and the nearest-index bound check.
- `Tiles` (tiles.dfy): the tile loop on `array2` arrays, specified cell by cell by `Expected`.
- `Dataset` (dataset.dfy): the result record, as a map from field name to dimension names and values.
- `Interp` (interp.dfy): the six interpolation fields and how they are named and stored.
- `Preprocessor` (preprocessor.dfy): the `InSituPreprocessor` class, whose methods update the record in place.
- `Scenarios` (scenarios.dfy): the repository's test cases replayed on the model. Each asserts what its test checks, using only the contracts.

## Model

| member | source | states |
|---|---|---|
| Naming.ParsePkg | preproc/preproc/preproc.py:21-22 | accepted exactly when the name is `profiles` or `obsfit`; otherwise a ValueError whose message starts with `Invalid pkg '<name>'` |
| Naming.PkgFieldsOf | preproc/preproc/preproc.py:40-49 | `dims_insitu == [iPKG]`, `pkg_str == 'prof'` exactly for profiles, `dims_insitu` is the first entry of `dims_interp` and `dims_spatial`, one depth name |
| Naming.ProfilesFields | preproc/preproc/preproc.py:40-49 | profiles gives `prof`, `iPROF`, `[iPROF]`, `[iPROF, iINTERP]`, `[iDEPTH]`, `[iPROF, iDEPTH]`, `prof_lon`, `prof_lat` |
| Naming.ObsfitFields | preproc/preproc/preproc.py:40-49 | obsfit gives `obs`, `iOBS`, `[iOBS]`, `['']`, `sample_lon`, `sample_lat` and `dims_interp == dims_spatial == dims_insitu` |
| Naming.Upper | preproc/preproc/preproc.py:41 | same length; each letter is upper-cased and every other character is kept |
| Preprocessor.InSituPreprocessor.New | preproc/preproc/preproc.py:9-33 | an invalid package is a ValueError naming it and builds nothing; otherwise the package, grid (default `sphericalpolar`) and tile size (default 30 x 30) are set, the name table is derived, and the record is empty exactly when a dataset was passed |
| Preprocessor.InSituPreprocessor.constructor | preproc/preproc/preproc.py:24-33 | sets the fields and the name table; the record exists only when a dataset argument was given |
| Preprocessor.CoordsOf | preproc/preproc/preproc.py:62-63 | the grid's coordinates are present exactly when it has both XC and YC |
| Dataset.ObsArray | preproc/preproc/preproc.py:64-67 | a non-empty coordinate list is stored as it is; an empty one becomes one row holding no element; the elements are always the list's own |
| Preprocessor.InSituPreprocessor.GetObsPoint | preproc/preproc/preproc.py:62-84 | missing XC/YC is a ValueError with no state change; otherwise XC/YC are kept; observation lists that are empty or of different lengths are a ValueError with the record and indices unchanged; an index greater than the cell count fails the check as written with an AssertionError, record and indices unchanged; otherwise the indices are kept (an index equal to the cell count included); with no dataset it is an AttributeError; otherwise the point, lon and lat fields are added; on llc/cubedsphere grids an index equal to the cell count then makes the gather an IndexError with only those three fields added, and otherwise the six tile fields are added too |
| Preprocessor.ResolvedRecord | preproc/preproc/preproc.py:74-81 | after a successful call the record holds `<pkg_str>_point` = indices, `lon_str` and `lat_str` = the wrapped coordinates, all over `dims_insitu`; on tiled grids each interpolation name holds its field; every other field keeps its presence and value |
| Preprocessor.RecordNamesDistinct | preproc/preproc/preproc.py:74-75 | for either package the point, lon, lat and six interpolation names are nine different names, so no store overwrites another |
| Worldmap.NearestIndexAsWritten | preproc/preproc/preproc.py:166 | as written: the indices pass exactly when none exceeds the cell count; otherwise an AssertionError |
| Worldmap.SentinelPassesCheck | preproc/preproc/preproc.py:164-166 | an index equal to the cell count passes the written check, although the intended check rejects it |
| Worldmap.CountWhereZero | preproc/preproc/preproc.py:166 | `(mask).sum() == 0` holds exactly when no index is flagged |
| Worldmap.NearestIndex | preproc/preproc/preproc.py:165-166 | the intended check: passes, returning the indices unchanged, exactly when every index addresses a worldmap cell; otherwise an AssertionError |
| Worldmap.NearestIndexGathers | preproc/preproc/preproc.py:133 | indices that pass the intended check can be gathered from any flattened field of that worldmap |
| Worldmap.Gather | preproc/preproc/preproc.py:133 | `flat[idx]` succeeds exactly when every index is below the length; it yields one value per index, the value at that index; otherwise an IndexError |
| Tiles.AllKeysListed | preproc/preproc/preproc.py:102 | the six tile keys are all listed, each once |
| Tiles.BlockCell | preproc/preproc/preproc.py:114-123 | each cell of tile (ii, jj) gets the face values at (sNx*ii, sNy*jj) and (sNx*ii+sNx-1, sNy*jj+sNy-1), `i` = column offset + 1 and `j` = row offset + 1 |
| Tiles.TileOfCell | preproc/preproc/preproc.py:111-123 | a covered cell (r, c) lies in tile (r/sNx, c/sNy) and holds its corner values, `i = c mod sNy + 1` and `j = r mod sNx + 1` |
| Tiles.CornersConstantInBlock | preproc/preproc/preproc.py:118-121 | all cells of one tile hold the same four corner values |
| Tiles.LocalIndexRange | preproc/preproc/preproc.py:111-123 | inside the tiled part `i` is in 1..sNy and `j` in 1..sNx; outside it, past the last whole tile, every field keeps the zero of `zeros_like` |
| Tiles.FillBlock | preproc/preproc/preproc.py:114-123 | assigning one tile's slice of one field extends the tiled region by that tile and leaves every other cell as it was |
| Tiles.FillBlocks | preproc/preproc/preproc.py:118-123 | the six slice assignments for one tile extend the tiled region of all six fields |
| Tiles.TileFace | preproc/preproc/preproc.py:109-123 | for one face the double tile loop yields six newly allocated arrays, each holding `Expected` at every cell; the face's XC/YC arrays are only read |
| Tiles.TileFaces | preproc/preproc/preproc.py:108-123 | every face is tiled, in face order |
| Interp.FlattenTiled | preproc/preproc/preproc.py:126-132 | flattening a tiled field gives, at each worldmap cell, `Expected` of the face cell that position copies |
| Interp.InterpShape | preproc/preproc/preproc.py:138-139 | the gathered values keep their length as the first axis and gain one singleton axis per extra interpolation dimension, so the element count is unchanged |
| Preprocessor.InterpShapeByPackage | preproc/preproc/preproc.py:138-139 | the shape is (n, 1) for profiles and (n) for obsfit |
| Interp.SampledVariable | preproc/preproc/preproc.py:133-142 | the stored field has the interpolation dimensions and one value per observation: the flattened field at that observation's index |
| Interp.SampledAtObservation | preproc/preproc/preproc.py:126-142 | the value stored for observation n of key k is `Expected` of the face cell its nearest worldmap cell copies |
| Interp.InterpNameInjective | preproc/preproc/preproc.py:142 | different keys give different `<prefix>_interp_<key>` names |
| Interp.StoreInterpLookup | preproc/preproc/preproc.py:126-142 | after the store loop each key's name holds its field, and every other name is as before |
| Preprocessor.FlattenedTiles | preproc/preproc/preproc.py:91-132 | tiling all faces and flattening each of the six fields gives, key by key, the expected worldmap of that field |
| Preprocessor.StoreSampled | preproc/preproc/preproc.py:126-142 | the gather-and-store loop fails with an IndexError exactly when an index lies past the worldmap; otherwise it returns the record with the six sampled fields stored in key order |
| Preprocessor.SampleInterpFields | preproc/preproc/preproc.py:91-142 | tiling, flattening, gathering and storing fail exactly when an index lies past the worldmap; otherwise the record gains the six interpolation fields |
| Scenarios.ProfilesPointStored | preproc/preproc/preproc.py:74-79 | a profiles record built from an empty one holds the indices under `prof_point`, over the dimension `iPROF` |
| Scenarios.ProfilesTileFieldsStored | preproc/tests/test_preproc.py:63-65 | a profiles record into which the six tile fields were stored holds `prof_interp_XC11` and `prof_interp_YC11`, whatever it held before |
| Preprocessor.InSituPreprocessor.GetSampleInterpInfo | preproc/preproc/preproc.py:86-142 | missing XC/YC or missing indices is an AttributeError; an index past the worldmap is an IndexError; a missing record is an AttributeError; otherwise the six fields are stored and nothing else changes |

## Left out

- The nearest-neighbour search (preproc.py:154-164). It is scipy's floating-point KDTree over the worldmap. Its result enters `GetObsPoint` as the parameter `nearest`. The observation coordinates are only stored.
- `llc_tiles_to_faces`, `llc_tiles_to_compact`, `compact2worldmap` and `patchface3D_5f_to_wrld` are not part of this model.
  - The faces are given directly as `array2` values.
  - The worldmap is a given `Layout` that names, for each flat position, the face cell it copies.
  - One layout serves both the nearest search and the flattening of the tile fields.
- The number of faces: the code assumes five (`range(1, 6)`, preproc.py:92). The model works with however many faces XC has.
- Floating-point coordinates: they are only copied, never computed on, so they are modelled as integers.
- xarray and numpy machinery:
  - The record is a map.
  - An array is a shape plus its row-major elements.
  - Checks that dimension names agree with array shapes are not modelled.
  - The order in which fields are inserted is not modelled.
- The counter `tile_count` (preproc.py:106, 113): it is never read.
- The `.copy()` calls whose results are discarded (preproc.py:98-99) and `copy.deepcopy` (preproc.py:103): each tile field is a newly allocated array.
- The attributes `obs_point_str`, `interp_str`, `xc` and `yc`: names come from `PointName`/`InterpPrefix`; XC and YC are kept in `coords`.
- `pkg.lower()` (preproc.py:24): it is the identity on the two accepted names.
- Naming.Upper: handles ASCII letters only. Only the names `prof` and `obs` reach it.
- Preprocessor.InSituPreprocessor.GetSampleInterpInfo: requires `sNx > 0` and `sNy > 0`. Other tile sizes raise ZeroDivisionError or produce no tiles; neither is modelled. The same precondition holds for GetObsPoint on llc and cubed-sphere grids.
- Preprocessor.InSituPreprocessor.GetSampleInterpInfo: the six fields are collected and then written to the record at once.
  - The source writes them one by one.
  - Every failure happens before the first write, so the final record is the same either way.
  - All six fields are flattened before any of them is gathered; flattening changes nothing the gathering reads.
- Preprocessor.InSituPreprocessor.GetObsPoint: the ValueError raised by `np.c_` or `KDTree.query` (preproc.py:161-164) for empty or unequal observation lists carries a message of this model, not the library's. Since an empty list always fails there, the wrapping of empty lists (preproc.py:64-67) never reaches the record.

## Findings

| source | as written | input that shows it | evidently intended | confidence | as-written member | corrected member |
|---|---|---|---|---|---|---|
| preproc/preproc/preproc.py:166 | `(nearest_grid_idx > np.prod(grid_shape)).sum() == 0` rejects only indices strictly greater than the cell count n | an index equal to n passes the check; n is also the index the KDTree reports for a missing neighbour. On llc/cubedsphere grids the point, lon and lat fields are stored and the gather then raises IndexError (preproc.py:133); on other grids it is stored as a point index that addresses no cell. `InSituPreprocessor.GetObsPoint` keeps the check as written, and the scenarios `ObsPointAtTheSentinel` and `SentinelOnLlc` show both outcomes | every index addresses a worldmap cell (`>=`), as the comment at preproc.py:165 says | not executed | Worldmap.NearestIndexAsWritten, Worldmap.SentinelPassesCheck | Worldmap.NearestIndex, Worldmap.NearestIndexGathers |
