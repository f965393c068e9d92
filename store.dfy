/** Rows of the `spl_data` table, which the ingestion script appends to and
    both later stages read. */
module Store {
  import opened Wrappers
  import opened Clock
  import opened Header

  type Path = string

  /** `MIN_SPL_LIMIT`: a level below this means the microphone dropped out. */
  const MinSplLimit: real := 50.0

  /** One row of `spl_data(timestamp, lceq, lcs, lceq1m, lceq10m, lzpeak,
      source, location)`. The ingestion script never fills `lzpeak`, so
      the rows it writes hold NULL there. */
  datatype Reading = Reading(
    timestamp: Timestamp,
    lceq: real,
    lcs: real,
    lceq1m: real,
    lceq10m: real,
    lzpeak: Option<real>,
    source: Path,
    location: Location)

  /** The plausibility floor on the four levels the ingestion filter checks. */
  predicate AboveFloor(r: Reading)
  {
    r.lcs >= MinSplLimit && r.lceq >= MinSplLimit &&
    r.lceq1m >= MinSplLimit && r.lceq10m >= MinSplLimit
  }

  predicate AllAboveFloor(rows: seq<Reading>)
  {
    forall k :: 0 <= k < |rows| ==> AboveFloor(rows[k])
  }
}
