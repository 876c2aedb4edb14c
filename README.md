# Compact quantiles sketch histogram — a Dafny model

OpenTSDB stores histogram data points as `CompactQuantilesSketchHistogram`
objects. Each one wraps a compact quantiles sketch from the DataSketches
library and has three parts:

- an id in 0..255 that is fixed when the object is built,
- a `sketch` field that holds the data point,
- a `union` field that holds the running sum once the point has been aggregated with others.

The wrapper's jobs are:

- serialise the sketch, with or without a leading id byte, and read one back;
- answer percentile queries from the union if there is one, otherwise from the sketch;
- sum the sketches of other histograms of the same kind into the union;
- clone itself through its own serialised form.

This project models that class and proves what it promises.

- `library.dfy` (module `SketchLibrary`): the DataSketches library, left uninterpreted.
  - A `Sketch` is an opaque type.
  - The five library calls the wrapper makes are the fields of a `Library` value: `serialize`, `heapify` (which may fail), `quantile`, `quantiles` and a union's `unionResult`.
  - Every wrapper operation that calls the library takes that value as a parameter.
  - A union is represented by the ordered sequence of arguments it was updated with. An absent sketch is a `null` argument.
- `model.dfy` (module `HistogramModel`): the object's abstract `State` (id, sketch, union), the exceptions as an `Error` datatype, and one pure function per operation giving its effect on the state.
- `histogram.dfy` (module `SketchHistogram`): the class itself.
  - `sketch` and `union` are mutable fields; the id is a `const`.
  - Each method's frame names exactly the fields it may change: `fromHistogram` may change only `sketch`, both `aggregate`s only `union`, and `setSketch` both.
  - Each method is proved against the matching function of `HistogramModel`.
  - The byte copies of `histogram` and `fromHistogram` are loops over arrays.
  - `percentiles` keeps its two loops: the first fills an array of fractions, the second copies the library's answers into the response sequence.
- `properties.dfy` (module `HistogramProperties`): lemmas about the state model.
  - Framing round trips.
  - The length checks, in both directions.
  - That decoding keeps the union while `setSketch` drops it.
  - That list aggregation is non-atomic and equals single aggregations in order.
  - Query routing.
  - What a clone keeps and what it loses.

The model follows the code in these behaviours, which a reader might not expect:

- **`fromHistogram` keeps the union.** It replaces only `sketch`, so a histogram that has aggregated still answers from its old union after a successful decode (`DecodeKeepsStaleUnion`). Only `setSketch` drops the union.
- **`histogram` ignores the union.** It serialises only the `sketch` field and never the union's result (`EncodedIgnoresUnion`).
- **`clone` drops the union.** It is built from `histogram(false)`, so a clone has no union and answers queries from the original's sketch, not from the merged state (`CloneDropsUnion`).
- **A query with neither a union nor a sketch fails with `NullPointer`.** That is the null dereference the code performs; no invalid-state error is raised.
- **Aggregation folds in only the other histogram's `sketch` field.** A union the other histogram has built is ignored (lines 140 and 158).
- **A null argument to `aggregate` fails with `NullPointer`, not `IllegalArgument`.** It fails the `instanceof` test, and building the exception's message calls `getClass()` on it (lines 134 and 156). In the list overload this happens after the union has been seeded, as for a foreign argument. A null list also fails with `NullPointer` after the seeding (lines 149-153).

## Model

| member | source | states |
|---|---|---|
| `SketchHistogram.CompactQuantilesSketchHistogram.Create` | src/main/java/net/opentsdb/core/CompactQuantilesSketchHistogram.java:51-56 | construction fails with IllegalArgument exactly when the id is outside 0..255; otherwise a fresh object with that id, no sketch and no union |
| `SketchHistogram.CompactQuantilesSketchHistogram.constructor` | src/main/java/net/opentsdb/core/CompactQuantilesSketchHistogram.java:51-56 | after the range check: the given id, no sketch, no union |
| `SketchHistogram.CompactQuantilesSketchHistogram.GetId` | src/main/java/net/opentsdb/core/CompactQuantilesSketchHistogram.java:123-125 | returns the (constant) constructor argument, always in 0..255 |
| `SketchHistogram.CompactQuantilesSketchHistogram.Histogram` | src/main/java/net/opentsdb/core/CompactQuantilesSketchHistogram.java:58-70 | IllegalState when no sketch is set; otherwise a freshly allocated array that holds exactly the sketch's image, preceded by the id byte when asked |
| `SketchHistogram.CompactQuantilesSketchHistogram.FromHistogram` | src/main/java/net/opentsdb/core/CompactQuantilesSketchHistogram.java:72-88 | null or short arrays are refused with IllegalArgument and no change; otherwise `heapify` gets the bytes after the first one (with id) or all of them; a library failure propagates with no change; on success only the sketch changes |
| `SketchHistogram.CompactQuantilesSketchHistogram.Percentile` | src/main/java/net/opentsdb/core/CompactQuantilesSketchHistogram.java:90-94 | the answer is the library's quantile at p/100 of the union's result if a union exists, else of the sketch |
| `SketchHistogram.CompactQuantilesSketchHistogram.Percentiles` | src/main/java/net/opentsdb/core/CompactQuantilesSketchHistogram.java:96-110 | the library is asked for every p/100 in input order, from the same target as `percentile`, and its answers are returned unchanged and in order |
| `SketchHistogram.CompactQuantilesSketchHistogram.GetHistogram` | src/main/java/net/opentsdb/core/CompactQuantilesSketchHistogram.java:112-114 | always fails with UnsupportedOperation |
| `SketchHistogram.CompactQuantilesSketchHistogram.Clone` | src/main/java/net/opentsdb/core/CompactQuantilesSketchHistogram.java:116-121 | a fresh object whose state is the decode of `histogram(false)` into a new histogram with the same id; failures of either step propagate; the original is not modified |
| `SketchHistogram.CompactQuantilesSketchHistogram.Aggregate` | src/main/java/net/opentsdb/core/CompactQuantilesSketchHistogram.java:127-141 | only `union` may change; the new state and outcome are those of `Aggregated` on the old state and the argument's view (its sketch, another representation, or null: UnsupportedOperation, then IllegalArgument or NullPointer with no change) |
| `SketchHistogram.CompactQuantilesSketchHistogram.AggregateAll` | src/main/java/net/opentsdb/core/CompactQuantilesSketchHistogram.java:143-160 | only `union` may change; the loop leaves exactly the state and outcome of `AggregatedAll` on the old state and the list's view: a null list throws NullPointer after seeding, and the first foreign or null argument stops the loop with IllegalArgument or NullPointer |
| `SketchHistogram.CompactQuantilesSketchHistogram.SetSketch` | src/main/java/net/opentsdb/core/CompactQuantilesSketchHistogram.java:166-169 | the sketch is replaced and the union is always dropped |
| `SketchHistogram.CompactQuantilesSketchHistogram.GetSketch` | src/main/java/net/opentsdb/core/CompactQuantilesSketchHistogram.java:172-174 | returns the sketch field of the state |
| `SketchHistogram.ArrayCopy` | src/main/java/net/opentsdb/core/CompactQuantilesSketchHistogram.java:66 | `System.arraycopy`: the target range receives the source range, every other element is unchanged |
| `HistogramModel.LeadingSameKind` | src/main/java/net/opentsdb/core/CompactQuantilesSketchHistogram.java:153-159 | the point where the list `aggregate` stops: every argument before it has the same representation, and the argument at it (if any) is the first that is foreign or null |
| `HistogramProperties.EncodedForms` | src/main/java/net/opentsdb/core/CompactQuantilesSketchHistogram.java:58-70 | both forms fail with IllegalState exactly when no sketch is set; the id-less form is the sketch's image; the framed form is one byte longer, starts with the id and continues with that image |
| `HistogramProperties.EncodedIgnoresUnion` | src/main/java/net/opentsdb/core/CompactQuantilesSketchHistogram.java:62 | the encoding is the same whatever the union holds |
| `HistogramProperties.PayloadChecks` | src/main/java/net/opentsdb/core/CompactQuantilesSketchHistogram.java:73-86 | decoding refuses with IllegalArgument if and only if the array is null or shorter than 8 bytes (9 with the id); otherwise the payload is the array without its first byte (with the id) or the whole array |
| `HistogramProperties.PayloadIgnoresIdByte` | src/main/java/net/opentsdb/core/CompactQuantilesSketchHistogram.java:81-83 | the leading byte is never examined: any two values of it give the same payload |
| `HistogramProperties.PayloadOfFrame` | src/main/java/net/opentsdb/core/CompactQuantilesSketchHistogram.java:63-83 | stripping a frame built by `histogram` gives back exactly the id-less image when that image has at least 8 bytes; a shorter image is refused in either setting |
| `HistogramProperties.DecodeOfEncoded` | src/main/java/net/opentsdb/core/CompactQuantilesSketchHistogram.java:58-88 | decoding one histogram's encoding into any histogram, whatever its id, hands `heapify` exactly the first's sketch image and sets the resulting sketch |
| `HistogramProperties.EncodeOfDecoded` | src/main/java/net/opentsdb/core/CompactQuantilesSketchHistogram.java:58-88 | when the library reproduces an image, decoding and re-encoding it gives back the same bytes |
| `HistogramProperties.DecodedTouchesOnlySketch` | src/main/java/net/opentsdb/core/CompactQuantilesSketchHistogram.java:72-88 | decoding keeps the id and the union, sets a sketch on success, and changes nothing on failure |
| `HistogramProperties.DecodeKeepsStaleUnion` | src/main/java/net/opentsdb/core/CompactQuantilesSketchHistogram.java:87 | after aggregation, a decode does not change what queries read |
| `HistogramProperties.WithSketchResets` | src/main/java/net/opentsdb/core/CompactQuantilesSketchHistogram.java:166-169 | after `setSketch(s)` there is no union, the id is unchanged, and both queries and encoding read `s` |
| `HistogramProperties.AggregatedEffect` | src/main/java/net/opentsdb/core/CompactQuantilesSketchHistogram.java:127-141 | a non-SUM function fails with UnsupportedOperation and no change; otherwise a foreign argument fails with IllegalArgument and a null one with NullPointer, both with no change; otherwise the sketch stays and the other sketch is appended to the existing union, or to a union seeded with the current sketch |
| `HistogramProperties.AggregatedTwice` | src/main/java/net/opentsdb/core/CompactQuantilesSketchHistogram.java:136-140 | a second aggregation appends to the union the first created; it does not seed the union again |
| `HistogramProperties.AggregatedAllUnsupported` | src/main/java/net/opentsdb/core/CompactQuantilesSketchHistogram.java:145-148 | list aggregation with a non-SUM function fails with UnsupportedOperation and no change, whatever the arguments, even for a null list |
| `HistogramProperties.AggregatedAllSeeds` | src/main/java/net/opentsdb/core/CompactQuantilesSketchHistogram.java:149-152 | list aggregation with SUM always leaves a union that starts with the old union or the current sketch, even for an empty or null list; the sketch is untouched; a null list fails with NullPointer and leaves the state an empty list leaves |
| `HistogramProperties.AggregatedAllPartial` | src/main/java/net/opentsdb/core/CompactQuantilesSketchHistogram.java:153-159 | non-atomicity: when argument k is the first foreign or null one, the call fails with IllegalArgument (foreign) or NullPointer (null) but leaves exactly the state of a successful aggregation of the first k arguments |
| `HistogramProperties.AggregatedAllIsOneByOneWhenSeeded` | src/main/java/net/opentsdb/core/CompactQuantilesSketchHistogram.java:127-160 | once a union exists, list aggregation equals single aggregations applied in list order, up to the first failure |
| `HistogramProperties.AggregatedAllIsOneByOne` | src/main/java/net/opentsdb/core/CompactQuantilesSketchHistogram.java:127-160 | list aggregation is eager seeding followed by single aggregations in order; when the first argument is of the same kind the two overloads agree exactly |
| `HistogramProperties.AggregatedRejectsBeforeSeeding` | src/main/java/net/opentsdb/core/CompactQuantilesSketchHistogram.java:132-152 | a foreign or null argument to the single overload creates no union, while the same argument alone in a list leaves a union seeded with the sketch |
| `HistogramProperties.QueriesRoute` | src/main/java/net/opentsdb/core/CompactQuantilesSketchHistogram.java:90-104 | with a union, both queries answer from the union's result at p/100 and do not depend on the sketch; without one they answer from the sketch at p/100; with neither both fail with NullPointer |
| `HistogramProperties.PercentilesAgreeWithPercentile` | src/main/java/net/opentsdb/core/CompactQuantilesSketchHistogram.java:96-110 | the batch passes the same number of fractions, each p/100 in order; when the library answers a batch element by element, each answer is what `percentile` gives for that element |
| `HistogramProperties.ClonedForms` | src/main/java/net/opentsdb/core/CompactQuantilesSketchHistogram.java:116-121 | a clone fails with IllegalState without a sketch, with IllegalArgument for an image under 8 bytes, and with the library's error if `heapify` fails; otherwise it has the same id, no union and the re-heapified sketch |
| `HistogramProperties.CloneDropsUnion` | src/main/java/net/opentsdb/core/CompactQuantilesSketchHistogram.java:116-121 | when the image round-trips, a clone encodes exactly like the original in both forms but has no union, so it answers from the re-read sketch even when the original has a union |

## Left out

- The DataSketches library is uninterpreted. This covers image validation in `heapify`, the quantile algorithm, union merging and error bounds. Its calls are parameters, and any property of it that a lemma needs is a hypothesis of that lemma.
- Floating point: percentiles and answers are `real`, and `p / 100` is exact division. Rounding, and the ±0.01 tolerance of the test assertions, are not modelled.
- The library's rejection of out-of-range or out-of-order percentiles appears only as the library's `quantile`/`quantiles` returning a failure, which is propagated.
- `CompactQuantilesSketchCodec` is not part of this model: it is a thin adapter over `histogram` and `fromHistogram`, and those are modelled.
- `NativeMemory` wrapping and Guava list conversion are not modelled. The bytes handed to `heapify` are the array's contents, and the response list is a sequence.
- Object identity of the clone's sketch is not modelled. The model only captures that `clone` returns a freshly allocated object.
- `HistogramAggregation` constants other than `SUM` are one constructor, `Other`: the class distinguishes only `SUM`, and rejects every other constant the same way.
- Every other `Histogram` implementation is the single constructor `Operand.Foreign`, since the class only tests `instanceof`; a null argument is the separate constructor `Operand.Null`.
- SketchHistogram.CompactQuantilesSketchHistogram.Percentiles: a null list, or a null element in it, makes Java throw `NullPointerException` (lines 97-100); the model's argument is a sequence of reals and represents neither.
- Percentile: a query on a histogram with neither union nor sketch is modelled only as a `NullPointer` failure, not as Java's exception mechanics.
- Java bytes are signed. The model's `byte` is 0..255, so `(byte) id` is the id itself. Every other byte is copied unchanged, so signedness makes no difference.
- Thread safety is not modelled: the class is single-threaded and unsynchronised.
