/**
 * find_nearest_point: wrap the query longitude into [0, 360), then pick
 * the grid cell of least squared (latitude, longitude) distance, the first
 * one in row-major order on ties, as argmin over the flattened grid and
 * unravel_index back to (row, column) do.
 */
module Nearest {
  import opened Wrappers

  /** A two-dimensional array of coordinates or values, row by row. */
  type Grid = seq<seq<real>>

  /** Every row has `cols` entries. */
  predicate Rectangular(g: Grid, cols: nat) {
    forall r :: 0 <= r < |g| ==> |g[r]| == cols
  }

  function Cols(g: Grid): nat {
    if g == [] then 0 else |g[0]|
  }

  /** Both coordinate arrays have one and the same rectangular shape. */
  predicate SameShape(lats: Grid, lons: Grid) {
    |lats| == |lons| && Rectangular(lats, Cols(lats)) && Rectangular(lons, Cols(lats))
  }

  /** `lon if lon >= 0 else lon + 360`. */
  function NormalizeLon(lon: real): real {
    if lon >= 0.0 then lon else lon + 360.0
  }

  lemma NormalizeLonRange(lon: real)
    requires -180.0 <= lon <= 180.0
    ensures 0.0 <= NormalizeLon(lon) < 360.0
    ensures NormalizeLon(lon) == lon || NormalizeLon(lon) == lon + 360.0
    ensures lon >= 0.0 ==> NormalizeLon(lon) == lon
  {
  }

  /** A point on the antimeridian is compared as 180 whichever sign it has. */
  lemma AntimeridianNormalised()
    ensures NormalizeLon(-180.0) == NormalizeLon(180.0) == 180.0
  {
  }

  /** A western longitude is compared in the grid's [0, 360) convention. */
  lemma WestLongitudeExample()
    ensures NormalizeLon(-88.01) == 271.99
  {
  }

  /** Squared distance in (latitude, longitude) degree space. */
  function DistSq(cellLat: real, cellLon: real, lat: real, lon: real): real {
    (cellLat - lat) * (cellLat - lat) + (cellLon - lon) * (cellLon - lon)
  }

  /** `(lats - lat) ** 2 + (lons - lon) ** 2` at one cell. */
  function CellDistSq(lats: Grid, lons: Grid, lat: real, lon: real, iy: nat, ix: nat): real
    requires iy < |lats| && iy < |lons| && ix < |lats[iy]| && ix < |lons[iy]|
  {
    DistSq(lats[iy][ix], lons[iy][ix], lat, lon)
  }

  /** One row of the distance array. */
  function DistanceRow(latRow: seq<real>, lonRow: seq<real>, lat: real, lon: real): (d: seq<real>)
    requires |latRow| == |lonRow|
    ensures |d| == |latRow|
    ensures forall ix :: 0 <= ix < |d| ==> d[ix] == DistSq(latRow[ix], lonRow[ix], lat, lon)
  {
    if latRow == [] then []
    else [DistSq(latRow[0], lonRow[0], lat, lon)] + DistanceRow(latRow[1..], lonRow[1..], lat, lon)
  }

  /** The distance array `(lats - lat) ** 2 + (lons - lon) ** 2`, elementwise. */
  function DistanceSq(lats: Grid, lons: Grid, lat: real, lon: real): (d: Grid)
    requires |lats| == |lons| && forall iy :: 0 <= iy < |lats| ==> |lats[iy]| == |lons[iy]|
    ensures |d| == |lats|
    ensures forall iy :: 0 <= iy < |d| ==> |d[iy]| == |lats[iy]|
    ensures forall iy, ix :: 0 <= iy < |d| && 0 <= ix < |lats[iy]| ==>
      d[iy][ix] == CellDistSq(lats, lons, lat, lon, iy, ix)
  {
    if lats == [] then []
    else [DistanceRow(lats[0], lons[0], lat, lon)] + DistanceSq(lats[1..], lons[1..], lat, lon)
  }

  /** Row-major flattening, as NumPy's C order. */
  function Flatten(g: Grid): seq<real> {
    if g == [] then [] else g[0] + Flatten(g[1..])
  }

  lemma {:induction false} FlattenIndex(g: Grid, cols: nat, iy: nat, ix: nat)
    requires Rectangular(g, cols)
    requires iy < |g| && ix < cols
    ensures |Flatten(g)| == |g| * cols
    ensures iy * cols + ix < |Flatten(g)| && Flatten(g)[iy * cols + ix] == g[iy][ix]
    decreases |g|
  {
    FlattenLength(g, cols);
    FlattenLength(g[1..], cols);
    var rest := Flatten(g[1..]);
    assert Flatten(g) == g[0] + rest;
    if iy > 0 {
      FlattenIndex(g[1..], cols, iy - 1, ix);
      var k := (iy - 1) * cols + ix;
      MulSucc(iy - 1, cols);
      assert iy * cols + ix == cols + k;
      assert Flatten(g)[cols + k] == rest[k];
    } else {
      assert iy * cols + ix == ix;
    }
  }

  lemma MulSucc(a: nat, b: nat)
    ensures (a + 1) * b == a * b + b
  {
  }

  lemma {:induction false} FlattenLength(g: Grid, cols: nat)
    requires Rectangular(g, cols)
    ensures |Flatten(g)| == |g| * cols
    decreases |g|
  {
    if g != [] {
      FlattenLength(g[1..], cols);
    }
  }

  /** np.argmin: the first index of a least element. */
  function ArgMin(s: seq<real>): (k: nat)
    requires |s| > 0
    ensures k < |s|
    ensures forall j :: 0 <= j < |s| ==> s[k] <= s[j]
    ensures forall j :: 0 <= j < k ==> s[k] < s[j]
  {
    if |s| == 1 then 0
    else
      var k := ArgMin(s[..|s| - 1]);
      if s[|s| - 1] < s[k] then |s| - 1 else k
  }

  /** np.unravel_index for a grid with `cols` columns. */
  function Unravel(k: nat, cols: nat): (nat, nat)
    requires cols > 0
  {
    (k / cols, k % cols)
  }

  /** The cell (jy, jx) comes before (iy, ix) in row-major order. */
  predicate Before(jy: nat, jx: nat, iy: nat, ix: nat) {
    jy < iy || (jy == iy && jx < ix)
  }

  /**
   * find_nearest_point(ds, lat, lon). None stands for the exceptions NumPy
   * raises: argmin of an empty grid, and coordinate arrays of different
   * shapes.
   */
  function FindNearestPoint(lats: Grid, lons: Grid, lat: real, lon: real): (r: Option<(nat, nat)>)
    ensures r.None? <==> !SameShape(lats, lons) || |lats| == 0 || Cols(lats) == 0
    ensures r.Some? ==>
      var (iy, ix) := r.value;
      && SameShape(lats, lons) && iy < |lats| && ix < Cols(lats)
      && (forall jy, jx :: 0 <= jy < |lats| && 0 <= jx < Cols(lats) ==>
            CellDistSq(lats, lons, lat, NormalizeLon(lon), iy, ix) <= CellDistSq(lats, lons, lat, NormalizeLon(lon), jy, jx))
      && (forall jy, jx :: 0 <= jy < |lats| && 0 <= jx < Cols(lats) && Before(jy, jx, iy, ix) ==>
            CellDistSq(lats, lons, lat, NormalizeLon(lon), iy, ix) < CellDistSq(lats, lons, lat, NormalizeLon(lon), jy, jx))
  {
    if !SameShape(lats, lons) || |lats| == 0 || Cols(lats) == 0 then None
    else
      NearestIsArgMin(lats, lons, lat, NormalizeLon(lon));
      Some(Unravel(ArgMin(FlatDistances(lats, lons, lat, NormalizeLon(lon))), Cols(lats)))
  }

  /** `distance_sq` flattened in row-major order, the array np.argmin scans. */
  function FlatDistances(lats: Grid, lons: Grid, lat: real, lon: real): (flat: seq<real>)
    requires SameShape(lats, lons)
    ensures |flat| == |lats| * Cols(lats)
  {
    var d := DistanceSq(lats, lons, lat, lon);
    assert Rectangular(d, Cols(lats));
    FlattenLength(d, Cols(lats));
    Flatten(d)
  }

  /** Carries argmin's two facts from the flattened array back to the grid. */
  lemma NearestIsArgMin(lats: Grid, lons: Grid, lat: real, lon: real)
    requires SameShape(lats, lons) && |lats| > 0 && Cols(lats) > 0
    ensures |FlatDistances(lats, lons, lat, lon)| > 0
    ensures var (iy, ix) := Unravel(ArgMin(FlatDistances(lats, lons, lat, lon)), Cols(lats));
      && iy < |lats| && ix < Cols(lats)
      && (forall jy, jx :: 0 <= jy < |lats| && 0 <= jx < Cols(lats) ==>
            CellDistSq(lats, lons, lat, lon, iy, ix) <= CellDistSq(lats, lons, lat, lon, jy, jx))
      && (forall jy, jx :: 0 <= jy < |lats| && 0 <= jx < Cols(lats) && Before(jy, jx, iy, ix) ==>
            CellDistSq(lats, lons, lat, lon, iy, ix) < CellDistSq(lats, lons, lat, lon, jy, jx))
  {
    var d := DistanceSq(lats, lons, lat, lon);
    assert Rectangular(d, Cols(lats));
    assert FlatDistances(lats, lons, lat, lon) == Flatten(d);
    GridArgMin(d, Cols(lats));
  }

  /** The unravelled argmin of a flattened grid is its first least cell. */
  lemma GridArgMin(d: Grid, cols: nat)
    requires Rectangular(d, cols) && |d| > 0 && cols > 0
    ensures |Flatten(d)| == |d| * cols > 0
    ensures var (iy, ix) := Unravel(ArgMin(Flatten(d)), cols);
      && iy < |d| && ix < cols
      && (forall jy, jx :: 0 <= jy < |d| && 0 <= jx < cols ==> d[iy][ix] <= d[jy][jx])
      && (forall jy, jx :: 0 <= jy < |d| && 0 <= jx < cols && Before(jy, jx, iy, ix) ==> d[iy][ix] < d[jy][jx])
  {
    FlattenLength(d, cols);
    MulMono(1, |d|, cols);
    var flat := Flatten(d);
    var k := ArgMin(flat);
    var (iy, ix) := Unravel(k, cols);
    UnravelBounds(k, cols, |d|);
    FlattenIndex(d, cols, iy, ix);
    forall jy, jx | 0 <= jy < |d| && 0 <= jx < cols
      ensures d[iy][ix] <= d[jy][jx]
      ensures Before(jy, jx, iy, ix) ==> d[iy][ix] < d[jy][jx]
    {
      FlattenIndex(d, cols, jy, jx);
      if Before(jy, jx, iy, ix) {
        RowMajorOrder(cols, jy, jx, iy, ix);
      }
    }
  }


  /** unravel_index inverts the row-major offset. */
  lemma UnravelBounds(k: nat, cols: nat, rows: nat)
    requires cols > 0 && k < rows * cols
    ensures k / cols < rows && k % cols < cols
    ensures k == (k / cols) * cols + k % cols
  {
    if k / cols >= rows {
      MulMono(rows, k / cols, cols);
    }
  }

  /** Row-major order on cells is the order of their flat offsets. */
  lemma RowMajorOrder(cols: nat, jy: nat, jx: nat, iy: nat, ix: nat)
    requires jx < cols && ix < cols && Before(jy, jx, iy, ix)
    ensures jy * cols + jx < iy * cols + ix
  {
    if jy < iy {
      MulMono(jy + 1, iy, cols);
    }
  }

  lemma MulMono(a: nat, b: nat, c: nat)
    requires a <= b
    ensures a * c <= b * c
  {
  }

  /** The antimeridian from either side resolves to the same cell. */
  lemma AntimeridianSameCell(lats: Grid, lons: Grid, lat: real)
    ensures FindNearestPoint(lats, lons, lat, -180.0) == FindNearestPoint(lats, lons, lat, 180.0)
  {
    AntimeridianNormalised();
  }
}
