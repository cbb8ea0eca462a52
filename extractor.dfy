/**
 * extract_data_from_grib: for each requested variable that the catalog
 * knows, open the GRIB file filtered to it and emit one record per target
 * point at the point's nearest grid cell; unknown names, failed opens and
 * failed point lookups are skipped.
 */
module Extractor {
  import opened Wrappers
  import opened Records
  import opened Nearest
  import opened Seqs
  import Config

  datatype GeoPoint = GeoPoint(latitude: real, longitude: real)

  /**
   * What the GRIB reader yields for one filter: the coordinate arrays, the
   * first data variable's values, the issuance time and the valid time.
   */
  datatype Dataset = Dataset(lats: Grid, lons: Grid, values: Grid, runTime: Timestamp, validTime: Timestamp)

  /**
   * The reader `xr.open_dataset(file, filter_by_keys = filter)` followed by
   * taking the first data variable and the two scalar times; None when any
   * of these raises.
   */
  type Reader = (string, Config.Filter) -> Option<Dataset>

  /**
   * The cell lookup the extractor applies to every point; the extractor
   * uses `FindNearestPoint`, and the reference definitions below take it as
   * a parameter so that their laws hold for any lookup.
   */
  type Locator = (Grid, Grid, real, real) -> Option<(nat, nat)>

  /** The cell exists in both coordinate arrays and in the value array. */
  predicate CellInData(ds: Dataset, iy: nat, ix: nat) {
    iy < |ds.lats| && ix < |ds.lats[iy]| && iy < |ds.lons| && ix < |ds.lons[iy]| &&
    iy < |ds.values| && ix < |ds.values[iy]|
  }

  /** The record the source appends for one point, or None if its lookup raises. */
  function PointRecord(locate: Locator, varName: string, sourceS3: string, ds: Dataset, p: GeoPoint): (r: Option<ForecastRecord>)
    ensures r.Some? ==>
      var cell := locate(ds.lats, ds.lons, p.latitude, p.longitude);
      cell.Some? && CellInData(ds, cell.value.0, cell.value.1) &&
      r.value.latitude == ds.lats[cell.value.0][cell.value.1] &&
      r.value.longitude == ds.lons[cell.value.0][cell.value.1] &&
      r.value.value == ds.values[cell.value.0][cell.value.1]
    ensures r.Some? ==>
      r.value.variable == varName && r.value.sourceS3 == sourceS3 &&
      r.value.runTimeUtc == ds.runTime && r.value.validTimeUtc == ds.validTime
    ensures r.None? <==>
      var cell := locate(ds.lats, ds.lons, p.latitude, p.longitude);
      cell.None? || !CellInData(ds, cell.value.0, cell.value.1)
  {
    match locate(ds.lats, ds.lons, p.latitude, p.longitude)
    case None => None
    case Some((iy, ix)) =>
      if CellInData(ds, iy, ix) then
        Some(ForecastRecord(ds.validTime, ds.runTime, ds.lats[iy][ix], ds.lons[iy][ix], varName, ds.values[iy][ix], sourceS3))
      else None
  }

  /** The records of one opened variable, one per point whose lookup succeeds. */
  function PointRecords(locate: Locator, varName: string, sourceS3: string, ds: Dataset, points: seq<GeoPoint>): seq<ForecastRecord> {
    Collect((p: GeoPoint) => PointRecord(locate, varName, sourceS3, ds, p), points)
  }

  /** The catalog the extractor consults: VARIABLE_MAP. */
  type Catalog = map<string, Config.Filter>

  /** The records one requested name contributes. */
  function VariableRecords(catalog: Catalog, open: Reader, locate: Locator, gribFile: string, sourceS3: string, points: seq<GeoPoint>, varName: string): seq<ForecastRecord> {
    if varName !in catalog then []
    else
      match open(gribFile, catalog[varName])
      case None => []
      case Some(ds) => PointRecords(locate, varName, sourceS3, ds, points)
  }

  /** Reference definition of the whole extraction. */
  function Extract(catalog: Catalog, open: Reader, locate: Locator, gribFile: string, sourceS3: string, points: seq<GeoPoint>, vars: seq<string>): seq<ForecastRecord> {
    FlatMap((v: string) => VariableRecords(catalog, open, locate, gribFile, sourceS3, points, v), vars)
  }

  /** The extractor: VARIABLE_MAP as the catalog, nearest-cell lookup. */
  method ExtractDataFromGrib(open: Reader, gribFile: string, sourceS3: string, targetPoints: seq<GeoPoint>, variablesToIngest: seq<string>)
    returns (extracted: seq<ForecastRecord>)
    ensures extracted == Extract(Config.VariableMap(), open, FindNearestPoint, gribFile, sourceS3, targetPoints, variablesToIngest)
  {
    extracted := ExtractWith(Config.VariableMap(), open, FindNearestPoint, gribFile, sourceS3, targetPoints, variablesToIngest);
  }

  /**
   * The nested loop of the source, appending to `extracted`, for a given
   * catalog and cell lookup.
   */
  method ExtractWith(catalog: Catalog, open: Reader, locate: Locator, gribFile: string, sourceS3: string,
                     targetPoints: seq<GeoPoint>, variablesToIngest: seq<string>)
    returns (extracted: seq<ForecastRecord>)
    ensures extracted == Extract(catalog, open, locate, gribFile, sourceS3, targetPoints, variablesToIngest)
  {
    extracted := [];
    ghost var perVariable := (v: string) => VariableRecords(catalog, open, locate, gribFile, sourceS3, targetPoints, v);
    for i := 0 to |variablesToIngest|
      invariant extracted == FlatMap(perVariable, variablesToIngest[..i])
    {
      var varName := variablesToIngest[i];
      FlatMapSnoc(perVariable, variablesToIngest[..i], varName);
      assert variablesToIngest[..i + 1] == variablesToIngest[..i] + [varName];
      if varName !in catalog {
        assert perVariable(varName) == [];
        continue;
      }
      var filterKeys := catalog[varName];
      var openResult := open(gribFile, filterKeys);
      if openResult.None? {
        assert perVariable(varName) == [];
        continue;
      }
      var varDs := openResult.value;
      extracted := AppendPointRecords(extracted, locate, varName, sourceS3, varDs, targetPoints);
    }
    assert variablesToIngest[..|variablesToIngest|] == variablesToIngest;
  }

  /** The inner loop of the source: one record per point whose lookup succeeds, appended to `extracted`. */
  method AppendPointRecords(extracted: seq<ForecastRecord>, locate: Locator, varName: string, sourceS3: string,
                            varDs: Dataset, targetPoints: seq<GeoPoint>)
    returns (out: seq<ForecastRecord>)
    ensures out == extracted + PointRecords(locate, varName, sourceS3, varDs, targetPoints)
  {
    out := extracted;
    ghost var perPoint := (p: GeoPoint) => PointRecord(locate, varName, sourceS3, varDs, p);
    for j := 0 to |targetPoints|
      invariant out == extracted + Collect(perPoint, targetPoints[..j])
    {
      var point := targetPoints[j];
      CollectSnoc(perPoint, targetPoints[..j], point);
      assert targetPoints[..j + 1] == targetPoints[..j] + [point];
      ghost var done := out;
      var cell := locate(varDs.lats, varDs.lons, point.latitude, point.longitude);
      if cell.Some? {
        var (iy, ix) := cell.value;
        if CellInData(varDs, iy, ix) {
          var record := ForecastRecord(varDs.validTime, varDs.runTime,
            varDs.lats[iy][ix], varDs.lons[iy][ix], varName, varDs.values[iy][ix], sourceS3);
          assert perPoint(point) == Some(record);
          out := out + [record];
        }
      }
      assert out == done + Present(perPoint(point));
    }
    assert targetPoints[..|targetPoints|] == targetPoints;
  }

  /** Extraction over a list of names is the concatenation over its parts. */
  lemma ExtractAppend(catalog: Catalog, open: Reader, locate: Locator, gribFile: string, sourceS3: string, points: seq<GeoPoint>, a: seq<string>, b: seq<string>)
    ensures Extract(catalog, open, locate, gribFile, sourceS3, points, a + b) ==
      Extract(catalog, open, locate, gribFile, sourceS3, points, a) + Extract(catalog, open, locate, gribFile, sourceS3, points, b)
  {
    FlatMapAppend((v: string) => VariableRecords(catalog, open, locate, gribFile, sourceS3, points, v), a, b);
  }

  /** A name that contributes no records can be dropped from the request. */
  lemma SkipNoRecords(catalog: Catalog, open: Reader, locate: Locator, gribFile: string, sourceS3: string, points: seq<GeoPoint>, a: seq<string>, v: string, b: seq<string>)
    requires VariableRecords(catalog, open, locate, gribFile, sourceS3, points, v) == []
    ensures Extract(catalog, open, locate, gribFile, sourceS3, points, a + [v] + b) == Extract(catalog, open, locate, gribFile, sourceS3, points, a + b)
  {
    FlatMapSingle((v: string) => VariableRecords(catalog, open, locate, gribFile, sourceS3, points, v), v);
    ExtractAppend(catalog, open, locate, gribFile, sourceS3, points, a + [v], b);
    ExtractAppend(catalog, open, locate, gribFile, sourceS3, points, a, [v]);
    ExtractAppend(catalog, open, locate, gribFile, sourceS3, points, a, b);
  }

  /** A name the catalog does not know yields no records and changes nothing for the other names. */
  lemma UnknownVariableSkipped(catalog: Catalog, open: Reader, locate: Locator, gribFile: string, sourceS3: string, points: seq<GeoPoint>, a: seq<string>, v: string, b: seq<string>)
    requires v !in catalog
    ensures Extract(catalog, open, locate, gribFile, sourceS3, points, a + [v] + b) == Extract(catalog, open, locate, gribFile, sourceS3, points, a + b)
  {
    SkipNoRecords(catalog, open, locate, gribFile, sourceS3, points, a, v, b);
  }

  /** A variable whose file cannot be opened yields no records and does not stop the others. */
  lemma FailedOpenSkipped(catalog: Catalog, open: Reader, locate: Locator, gribFile: string, sourceS3: string, points: seq<GeoPoint>, a: seq<string>, v: string, b: seq<string>)
    requires v in catalog && open(gribFile, catalog[v]).None?
    ensures Extract(catalog, open, locate, gribFile, sourceS3, points, a + [v] + b) == Extract(catalog, open, locate, gribFile, sourceS3, points, a + b)
  {
    SkipNoRecords(catalog, open, locate, gribFile, sourceS3, points, a, v, b);
  }

  /**
   * When every lookup succeeds there is exactly one record per point, in
   * point order.
   */
  lemma OneRecordPerPoint(locate: Locator, varName: string, sourceS3: string, ds: Dataset, points: seq<GeoPoint>)
    requires forall k :: 0 <= k < |points| ==> PointRecord(locate, varName, sourceS3, ds, points[k]).Some?
    ensures |PointRecords(locate, varName, sourceS3, ds, points)| == |points|
    ensures forall k :: 0 <= k < |points| ==>
      PointRecords(locate, varName, sourceS3, ds, points)[k] == PointRecord(locate, varName, sourceS3, ds, points[k]).value
  {
    CollectAll((p: GeoPoint) => PointRecord(locate, varName, sourceS3, ds, p), points);
  }

  /** Never more records than points for one variable. */
  lemma AtMostOneRecordPerPoint(locate: Locator, varName: string, sourceS3: string, ds: Dataset, points: seq<GeoPoint>)
    ensures |PointRecords(locate, varName, sourceS3, ds, points)| <= |points|
  {
    CollectLength((p: GeoPoint) => PointRecord(locate, varName, sourceS3, ds, p), points);
  }

  /**
   * Every record of one variable names that variable and the caller's
   * source, carries the file's times, and is the record of one of the
   * target points.
   */
  lemma PointRecordsProvenance(locate: Locator, varName: string, sourceS3: string, ds: Dataset, points: seq<GeoPoint>)
    ensures forall r :: r in PointRecords(locate, varName, sourceS3, ds, points) ==>
      r.variable == varName && r.sourceS3 == sourceS3 && r.runTimeUtc == ds.runTime && r.validTimeUtc == ds.validTime &&
      exists k :: 0 <= k < |points| && PointRecord(locate, varName, sourceS3, ds, points[k]) == Some(r)
  {
    forall r | r in PointRecords(locate, varName, sourceS3, ds, points)
      ensures exists k :: 0 <= k < |points| && PointRecord(locate, varName, sourceS3, ds, points[k]) == Some(r)
    {
      CollectMember((p: GeoPoint) => PointRecord(locate, varName, sourceS3, ds, p), points, r);
    }
  }

  /**
   * Every extracted record names a requested variable that the catalog
   * knows, and carries the caller's source.
   */
  lemma ExtractProvenance(catalog: Catalog, open: Reader, locate: Locator, gribFile: string, sourceS3: string, points: seq<GeoPoint>, vars: seq<string>)
    ensures forall r :: r in Extract(catalog, open, locate, gribFile, sourceS3, points, vars) ==>
      r.sourceS3 == sourceS3 && r.variable in catalog && r.variable in vars
  {
    var f := (v: string) => VariableRecords(catalog, open, locate, gribFile, sourceS3, points, v);
    forall r | r in Extract(catalog, open, locate, gribFile, sourceS3, points, vars)
      ensures r.sourceS3 == sourceS3 && r.variable in catalog && r.variable in vars
    {
      FlatMapMember(f, vars, r);
      var k :| 0 <= k < |vars| && r in f(vars[k]);
      var v := vars[k];
      assert v in catalog && open(gribFile, catalog[v]).Some?;
      PointRecordsProvenance(locate, v, sourceS3, open(gribFile, catalog[v]).value, points);
    }
  }

  /** One requested name and one point whose lookup succeeds: exactly that point's record. */
  lemma SingleRecord(catalog: Catalog, open: Reader, locate: Locator, gribFile: string, sourceS3: string, p: GeoPoint, v: string, ds: Dataset)
    requires v in catalog && open(gribFile, catalog[v]) == Some(ds)
    requires PointRecord(locate, v, sourceS3, ds, p).Some?
    ensures Extract(catalog, open, locate, gribFile, sourceS3, [p], [v]) == [PointRecord(locate, v, sourceS3, ds, p).value]
  {
    FlatMapSingle((v: string) => VariableRecords(catalog, open, locate, gribFile, sourceS3, [p], v), v);
    CollectSnoc((q: GeoPoint) => PointRecord(locate, v, sourceS3, ds, q), [], p);
    assert [] + [p] == [p];
  }

  /**
   * With the nearest-cell lookup and a value array of the coordinates'
   * shape, every point of a non-empty grid yields a record.
   */
  lemma NearestCellInData(varName: string, sourceS3: string, ds: Dataset, p: GeoPoint)
    requires SameShape(ds.lats, ds.lons) && |ds.lats| > 0 && Cols(ds.lats) > 0
    requires |ds.values| == |ds.lats| && Rectangular(ds.values, Cols(ds.lats))
    ensures PointRecord(FindNearestPoint, varName, sourceS3, ds, p).Some?
  {
    var cell := FindNearestPoint(ds.lats, ds.lons, p.latitude, p.longitude);
    assert CellInData(ds, cell.value.0, cell.value.1);
  }

  /**
   * One known variable and one point inside a non-empty grid: exactly one
   * record, for that variable and source, at the nearest cell's
   * coordinates rather than the query's.
   */
  lemma SinglePointScenario(open: Reader, gribFile: string, sourceS3: string, p: GeoPoint, ds: Dataset)
    requires open(gribFile, map["shortName" := Config.Text("sp")]) == Some(ds)
    requires SameShape(ds.lats, ds.lons) && |ds.lats| > 0 && Cols(ds.lats) > 0
    requires |ds.values| == |ds.lats| && Rectangular(ds.values, Cols(ds.lats))
    ensures var out := Extract(Config.VariableMap(), open, FindNearestPoint, gribFile, sourceS3, [p], ["surface_pressure"]);
      |out| == 1 && out[0].variable == "surface_pressure" && out[0].sourceS3 == sourceS3 &&
      var (iy, ix) := FindNearestPoint(ds.lats, ds.lons, p.latitude, p.longitude).value;
      out[0].latitude == ds.lats[iy][ix] && out[0].longitude == ds.lons[iy][ix] && out[0].value == ds.values[iy][ix]
  {
    Config.SurfacePressureKnown();
    NearestCellInData("surface_pressure", sourceS3, ds, p);
    SingleRecord(Config.VariableMap(), open, FindNearestPoint, gribFile, sourceS3, p, "surface_pressure", ds);
  }
}
