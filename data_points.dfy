/**
 * The value types that a write request carries: a series, a data point of one
 * series, and the (series, timestamp, value) triple stored by a write request.
 * Their Java classes are not part of this model; each is a plain value here,
 * compared structurally.
 */
module DataPoints {

  /** A series, identified by its key. */
  datatype Series = Series(key: string)

  /** A timestamp, abstracted to an instant (milliseconds since the epoch). */
  type Instant = int

  /**
   * A numeric value (a java.lang.Number). It is opaque: the model only ever
   * compares two values for equality, so it keeps the value's decimal text.
   */
  datatype Number = Number(text: string)

  /** One (timestamp, value) sample of a single series. */
  datatype DataPoint = DataPoint(timestamp: Instant, value: Number)

  /** The unit of the write path: which series, when, and what value. */
  datatype WritableDataPoint = WritableDataPoint(series: Series, timestamp: Instant, value: Number)

  /** The triple that writing `dp` to `series` produces. */
  function Entry(series: Series, dp: DataPoint): (w: WritableDataPoint)
    ensures w.series == series
    ensures w.timestamp == dp.timestamp && w.value == dp.value
    ensures Point(w) == dp
  {
    WritableDataPoint(series, dp.timestamp, dp.value)
  }

  /** The data point a triple carries, without its series. */
  function Point(w: WritableDataPoint): DataPoint
  {
    DataPoint(w.timestamp, w.value)
  }

  /** For a fixed series, two data points give the same triple only if they are the same point. */
  lemma EntryInjective(series: Series, dp1: DataPoint, dp2: DataPoint)
    ensures Entry(series, dp1) == Entry(series, dp2) <==> dp1 == dp2
  {
  }
}
