/** The standard feedback schema and the columns the app adds to it. */
module Records {
  import opened Wrappers

  /** One row of the standard schema `text, id, date, source, rating`.
      `date` is a day number (day 0 is 1970-01-01) standing for a midnight
      timestamp; `None` in `date`, `source` or `rating` stands for a missing
      cell (NaT, NaN or NA). */
  datatype Row = Row(text: string, id: int, date: Option<int>, source: Option<string>, rating: Option<real>)

  /** A cleaned row with the app's `sentiment` and KMeans' `cluster_id`. */
  datatype Clustered = Clustered(row: Row, sentiment: string, clusterId: nat)

  /** A clustered row with its `theme` name. */
  datatype Themed = Themed(row: Row, sentiment: string, clusterId: nat, theme: string)

  const Unknown: string := "unknown"
}
