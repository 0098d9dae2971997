# Write requests of the TempoDB Java client

This project models the write-path batch of the TempoDB Java client, the class
`WriteRequest`. A write request holds an ordered batch of
`(series, timestamp, value)` triples (`WritableDataPoint`). Callers build it by
adding data points to a series, one at a time or a list at a time, and both
`add` forms return the request so calls can be chained. Iterating yields the
triples in insertion order. Two requests are equal exactly when they hold the
same triples in the same order, and equal requests have equal hash codes.

The model has two modules:

- `DataPoints` (`data_points.dfy`): the value types `Series`, `DataPoint`,
  `WritableDataPoint` and the opaque `Number`, plus `Entry`, which builds the
  triple for a point in a series.
- `WriteRequests` (`write_request.dfy`): the class `WriteRequest`, whose one
  field `data` is the entry list that both `add` methods extend in place. A
  single `Add` is a plain append. `AddAll` is a loop proved against
  `Appended`, the specification function for the triples a list adds. This
  module also holds the list equality `SameEntries`, which walks both lists
  side by side. It defines `Equals` over any object (null, another class, or
  a write request) and `HashCode`, and proves lemmas relating them.

## Model

| member | source | states |
|---|---|---|
| `DataPoints.Entry` | src/main/java/com/tempodb/WriteRequest.java:38 | the new triple carries the given series together with the point's timestamp and value, and dropping the series gives the point back |
| `DataPoints.EntryInjective` | src/main/java/com/tempodb/WriteRequest.java:52 | within one series, two points give the same triple if and only if they are the same point |
| `WriteRequests.WriteRequest.constructor` | src/main/java/com/tempodb/WriteRequest.java:26-28 | a freshly constructed request holds no entries |
| `WriteRequests.WriteRequest.Add` | src/main/java/com/tempodb/WriteRequest.java:37-41 | the new contents are the old contents followed by exactly one triple `(series, dp.timestamp, dp.value)`; earlier entries are unchanged; the result is the same request object |
| `WriteRequests.Appended` | src/main/java/com/tempodb/WriteRequest.java:51-54 | a list add appends exactly `\|dps\|` triples; every one of them carries the given series; the i-th takes the i-th point's timestamp and value |
| `WriteRequests.WriteRequest.AddAll` | src/main/java/com/tempodb/WriteRequest.java:50-56 | the new contents are the old ones followed by `Appended(series, dps)`, and they equal applying the single-point add to each point in turn; an empty list leaves the contents unchanged; the result is the same request object |
| `WriteRequests.AppendedConcat` | src/main/java/com/tempodb/WriteRequest.java:51-54 | adding list `a` and then list `b` appends the same triples as adding `a + b` |
| `WriteRequests.AddEachIsAppended` | src/main/java/com/tempodb/WriteRequest.java:50-56 | applying the single-point add to each point in turn, from any starting contents, gives those contents followed by the list add's triples |
| `WriteRequests.AppendedKeepsMultiplicity` | src/main/java/com/tempodb/WriteRequest.java:53 | nothing is de-duplicated: a point that occurs k times in the list gives a triple that occurs k times among the appended ones |
| `WriteRequests.WriteRequest.Iterator` | src/main/java/com/tempodb/WriteRequest.java:59-61 | iteration yields exactly the stored triples, with the same length and in insertion order |
| `WriteRequests.ChainedAdds` | src/main/java/com/tempodb/WriteRequest.java:37-41 | two chained adds to a fresh request are iterated in the order they were made, and adding the same point twice stores it twice |
| `WriteRequests.SameEntries` | src/main/java/com/tempodb/WriteRequest.java:77-79 | walking the two entry lists side by side succeeds exactly when they have the same length and are equal element by element |
| `WriteRequests.WriteRequest.Equals` | src/main/java/com/tempodb/WriteRequest.java:71-80 | false against null and against any object that is not a write request; true against itself; against another write request, true exactly when the two entry sequences are equal |
| `WriteRequests.EqualsSymmetric` | src/main/java/com/tempodb/WriteRequest.java:71-80 | `a.equals(b)` holds exactly when `b.equals(a)` does |
| `WriteRequests.EqualsTransitive` | src/main/java/com/tempodb/WriteRequest.java:71-80 | equality of write requests is transitive |
| `WriteRequests.ReorderedNotEqual` | src/main/java/com/tempodb/WriteRequest.java:76-79 | two requests holding the same triples in a different order are not equal, in either direction |
| `WriteRequests.Int32` | src/main/java/com/tempodb/WriteRequest.java:65-67 | the result is the Java `int` congruent to the argument modulo 2^32: it lies in the 32-bit range, and it is the argument itself when the argument already fits |
| `WriteRequests.WriteRequest.HashCode` | src/main/java/com/tempodb/WriteRequest.java:64-68 | the hash code is a Java `int`; it equals 257 * 263 plus the entry list's hash, wrapped to 32 bits; it depends on nothing but the entries |
| `WriteRequests.HashConsistentWithEquals` | src/main/java/com/tempodb/WriteRequest.java:63-80 | requests that are equal have equal hash codes, whatever hash the entry list has |

## Left out

- `HashCode` does not model the hash of the entry list. In the source it is `java.util.List.hashCode`, which calls `WritableDataPoint.hashCode`, and neither is part of this model. The list's hash is a parameter `listHash`, a function of the entry sequence. What the model fixes is the `HashCodeBuilder(257, 263)` step: one `append` of a non-null object followed by `toHashCode`, in 32-bit arithmetic.
- The internals of `Series`, `DataPoint` and `WritableDataPoint` are not part of this model. The model uses plain value types compared structurally. `Series` keeps only its key, and the triple's `equals` is taken to be structural.
- Timestamps are integer instants. Joda `DateTime` time zones and chronologies are not modelled, so two `DateTime`s at the same instant in different zones count as the same timestamp here.
- Numeric values (`java.lang.Number`, often floating point) are opaque tokens that are only compared for equality.
- Null arguments are left out. In Java, `add` with a null data point or a null list throws `NullPointerException`, and the model's value types have no null.
- The iterator's own protocol is left out: `hasNext`/`next`, `remove` through the iterator, and the fail-fast `ConcurrentModificationException` when the request changes during iteration. `Iterator` gives the sequence the iteration yields.
- `ArrayList` capacity limits and out-of-memory failures are left out. The entry sequence is unbounded.
- The read path (query parameters, filters, pagination, the lazy cursor and its deferred errors) and `deleteSeries` are not modelled. They appear only in tests that drive them through a mocked HTTP client; their implementation is not part of this model.
- HTTP transport, authentication, JSON decoding and concurrency are left out.
