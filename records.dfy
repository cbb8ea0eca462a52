/** The row the extractor emits and the store keeps: seven columns. */
module Records {

  /**
   * A UTC timestamp, kept opaque: the model only compares timestamps for
   * equality (they come from the GRIB reader and go into the key).
   */
  type Timestamp = int

  datatype ForecastRecord = ForecastRecord(
    validTimeUtc: Timestamp,
    runTimeUtc: Timestamp,
    latitude: real,
    longitude: real,
    variable: string,
    value: real,
    sourceS3: string)

  /** The five columns of the table's UNIQUE constraint. */
  datatype Key = Key(validTimeUtc: Timestamp, runTimeUtc: Timestamp, latitude: real, longitude: real, variable: string)

  function KeyOf(r: ForecastRecord): Key {
    Key(r.validTimeUtc, r.runTimeUtc, r.latitude, r.longitude, r.variable)
  }
}
