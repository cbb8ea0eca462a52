/**
 * The ingestion pipeline's configuration constants: the object-store
 * bucket, the fixed 06z cycle, the default number of forecast hours and the
 * variable catalog that maps human-readable names to GRIB filter keys.
 */
module Config {

  const DbFile: string := "data.db"
  const TableName: string := "hrrr_forecasts"
  const S3BucketUrl: string := "s3://noaa-hrrr-bdp-pds"

  /** The single cycle hour that is ingested (the 06z run). */
  const RunHour: int := 6

  /** Forecast hours 0 .. DefaultNumHours - 1 are ingested unless told otherwise. */
  const DefaultNumHours: int := 48

  /** A value of one filter key: cfgrib accepts both strings and integers. */
  datatype FilterValue = Text(s: string) | Number(n: int)

  /** The `filter_by_keys` dictionary handed to the GRIB reader. */
  type Filter = map<string, FilterValue>

  /** One catalog entry: a human-readable name and its filter. */
  datatype Entry = Entry(name: string, filter: Filter)

  /** The catalog, in the order its entries are written. */
  const VariableEntries: seq<Entry> := [
    Entry("surface_pressure", map["shortName" := Text("sp")]),
    Entry("surface_roughness", map["shortName" := Text("fsr")]),
    Entry("visible_beam_downward_solar_flux", map["shortName" := Text("vbdsf")]),
    Entry("visible_diffuse_downward_solar_flux", map["shortName" := Text("vddsf")]),
    Entry("temperature_2m", map["shortName" := Text("2t")]),
    Entry("dewpoint_2m", map["shortName" := Text("2d")]),
    Entry("relative_humidity_2m", map["shortName" := Text("2r")]),
    Entry("u_component_wind_10m", map["shortName" := Text("10u")]),
    Entry("v_component_wind_10m", map["shortName" := Text("10v")]),
    Entry("u_component_wind_80m",
          map["shortName" := Text("u"), "typeOfLevel" := Text("heightAboveGround"), "level" := Number(80)]),
    Entry("v_component_wind_80m",
          map["shortName" := Text("v"), "typeOfLevel" := Text("heightAboveGround"), "level" := Number(80)])
  ]

  /** Names of a list of entries, in order. */
  function Names(entries: seq<Entry>): (names: seq<string>)
    ensures |names| == |entries|
    ensures forall i :: 0 <= i < |entries| ==> names[i] == entries[i].name
  {
    seq(|entries|, i requires 0 <= i < |entries| => entries[i].name)
  }

  predicate NoDuplicates<T(==)>(s: seq<T>) {
    forall i, j :: 0 <= i < j < |s| ==> s[i] != s[j]
  }

  lemma CatalogNamesDistinct()
    ensures NoDuplicates(Names(VariableEntries))
  {
    var n := Names(VariableEntries);
    forall i, j | 0 <= i < j < |n| ensures n[i] != n[j] {
      if |n[i]| == |n[j]| {
        // the five 20-character names differ in their first or their 18th character
        assert n[i][0] != n[j][0] || n[i][17] != n[j][17];
      }
    }
  }

  /**
   * A dictionary literal: the pairs inserted in order, a later pair for a
   * name replacing an earlier one.
   */
  function MapOf(entries: seq<Entry>): map<string, Filter>
    decreases |entries|
  {
    if entries == [] then map[]
    else
      var last := entries[|entries| - 1];
      MapOf(entries[..|entries| - 1])[last.name := last.filter]
  }

  /** With distinct names, the dictionary holds exactly the pairs. */
  lemma {:induction false} MapOfEntries(entries: seq<Entry>)
    requires NoDuplicates(Names(entries))
    ensures forall i :: 0 <= i < |entries| ==>
      entries[i].name in MapOf(entries) && MapOf(entries)[entries[i].name] == entries[i].filter
    ensures forall name :: name in MapOf(entries) ==> name in Names(entries)
    decreases |entries|
  {
    if entries != [] {
      var init := entries[..|entries| - 1];
      var last := entries[|entries| - 1];
      assert Names(init) == Names(entries)[..|init|];
      MapOfEntries(init);
      forall i | 0 <= i < |init|
        ensures entries[i].name != last.name
      {
        assert Names(entries)[i] != Names(entries)[|init|];
      }
      forall name | name in MapOf(entries)
        ensures name in Names(entries)
      {
        if name != last.name {
          assert name in Names(init);
          var k :| 0 <= k < |init| && Names(init)[k] == name;
          assert Names(entries)[k] == name;
        } else {
          assert Names(entries)[|init|] == name;
        }
      }
    }
  }

  /** The dictionary VARIABLE_MAP: name to filter. */
  function VariableMap(): map<string, Filter> {
    MapOf(VariableEntries)
  }

  /** VARIABLE_MAP holds exactly the catalog's entries. */
  lemma VariableMapEntries()
    ensures forall i :: 0 <= i < |VariableEntries| ==>
      VariableEntries[i].name in VariableMap() && VariableMap()[VariableEntries[i].name] == VariableEntries[i].filter
    ensures forall name :: name in VariableMap() ==> name in Names(VariableEntries)
  {
    CatalogNamesDistinct();
    MapOfEntries(VariableEntries);
  }

  /** ALL_VARIABLES: the keys of VARIABLE_MAP, in insertion order. */
  function AllVariables(): (names: seq<string>)
    ensures NoDuplicates(names)
    ensures forall name :: name in VariableMap() <==> name in names
    ensures |names| == |VariableEntries|
    ensures forall i :: 0 <= i < |names| ==> names[i] == VariableEntries[i].name
    ensures forall i :: 0 <= i < |names| ==> VariableMap()[names[i]] == VariableEntries[i].filter
  {
    CatalogNamesDistinct();
    VariableMapEntries();
    Names(VariableEntries)
  }

  /** The name of the one-point `surface_pressure` example is in the catalog. */
  lemma SurfacePressureKnown()
    ensures "surface_pressure" in VariableMap()
    ensures VariableMap()["surface_pressure"] == map["shortName" := Text("sp")]
  {
    VariableMapEntries();
    assert VariableEntries[0].name == "surface_pressure";
  }

  /** The 80 m wind components are the only entries that also fix a level. */
  predicate IsWind80m(name: string) {
    name == "u_component_wind_80m" || name == "v_component_wind_80m"
  }

  /** What every catalog entry's filter fixes. */
  predicate FilterShape(e: Entry) {
    && "shortName" in e.filter && e.filter["shortName"].Text?
    && (IsWind80m(e.name) ==>
         e.filter.Keys == {"shortName", "typeOfLevel", "level"} &&
         e.filter["typeOfLevel"] == Text("heightAboveGround") &&
         e.filter["level"] == Number(80))
    && (!IsWind80m(e.name) ==> e.filter.Keys == {"shortName"})
  }

  lemma EntryFilterShape(i: nat)
    requires i < |VariableEntries|
    ensures FilterShape(VariableEntries[i])
  {
    var e := VariableEntries[i];
    if i < 9 {
      // none of the first nine names is 20 characters long with an '8' at index 17
      assert |e.name| != 20 || e.name[17] != '8';
    }
  }

  lemma CatalogFilters()
    ensures forall name :: name in VariableMap() ==>
      "shortName" in VariableMap()[name] && VariableMap()[name]["shortName"].Text?
    ensures forall name :: name in VariableMap() && IsWind80m(name) ==>
      VariableMap()[name].Keys == {"shortName", "typeOfLevel", "level"} &&
      VariableMap()[name]["typeOfLevel"] == Text("heightAboveGround") &&
      VariableMap()[name]["level"] == Number(80)
    ensures forall name :: name in VariableMap() && !IsWind80m(name) ==>
      VariableMap()[name].Keys == {"shortName"}
  {
    var m: map<string, Filter> := VariableMap();
    forall name: string | name in m
      ensures FilterShape(Entry(name, m[name]))
    {
      VariableMapEntries();
      var i :| 0 <= i < |VariableEntries| && VariableEntries[i].name == name;
      EntryFilterShape(i);
    }
  }
}
