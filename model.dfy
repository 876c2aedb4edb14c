/**
  The abstract state of a compact-quantiles-sketch histogram and the effect of
  each of its operations on that state, as pure functions.

  A `State` is what a `CompactQuantilesSketchHistogram` object holds: its id,
  its sketch (absent until one is set) and its union (absent until the first
  aggregation). A union is represented by the ordered sequence of arguments it
  was updated with; the library's `unionResult` turns that sequence into the
  sketch that queries read.
 */
module HistogramModel {
  import opened SketchLibrary

  /** The exceptions the wrapper raises or lets through. */
  datatype Error =
    | IllegalArgument        // IllegalArgumentException
    | IllegalState           // IllegalStateException
    | UnsupportedOperation   // UnsupportedOperationException
    | NullPointer            // NullPointerException: a null argument or a null sketch dereferenced
    | Sketches(cause: LibraryError)  // raised by the library, propagated unchanged

  /** How a `void` operation ends: normally, or by throwing. */
  datatype Outcome = Pass | Fail(error: Error)

  /** The id of a histogram within the time-series daemon. */
  type HistogramId = x: int | 0 <= x <= 255

  /** The aggregation requested of `aggregate`. Only `Sum` is implemented;
      `Other` stands for each of the enumeration's other constants. */
  datatype HistogramAggregation = Sum | Other(name: string)

  datatype State = State(
    id: HistogramId,
    sketch: Option<Sketch>,
    union: Option<seq<Option<Sketch>>>
  )

  /** The state after a `void` operation, and how the operation ended. */
  datatype Step = Step(state: State, outcome: Outcome)

  /** What `aggregate` sees of one argument: another histogram of the same
      representation, with the sketch it holds, a histogram of another
      representation, or a null reference. */
  datatype OperandView = SameKind(sketch: Option<Sketch>) | OtherKind | NullRef

  /** The shortest serialised sketch accepted by `fromHistogram`. */
  const MinSketchBytes := 8

  // ---------------------------------------------------------------------
  // Wire form: [optional id byte] ++ serialised sketch
  // ---------------------------------------------------------------------

  /** The bytes `histogram(includeId)` returns for a sketch image `payload`. */
  function Frame(id: HistogramId, payload: seq<byte>, includeId: bool): seq<byte>
  {
    if includeId then [id as byte] + payload else payload
  }

  /** The bytes `fromHistogram(raw, includesId)` hands to `heapify`, or the
      argument error it raises first; `raw == None` is a null array. */
  function Payload(raw: Option<seq<byte>>, includesId: bool): Result<seq<byte>, Error>
  {
    if raw.None? || |raw.value| < MinSketchBytes then Failure(IllegalArgument)
    else if includesId && |raw.value| < MinSketchBytes + 1 then Failure(IllegalArgument)
    else if includesId then Success(raw.value[1..])
    else Success(raw.value)
  }

  // ---------------------------------------------------------------------
  // Operations on the state
  // ---------------------------------------------------------------------

  /** `histogram(includeId)`: only the `sketch` field is serialised. */
  function Encoded(lib: Library, st: State, includeId: bool): Result<seq<byte>, Error>
  {
    match st.sketch
    case None => Failure(IllegalState)
    case Some(s) => Success(Frame(st.id, lib.serialize(s), includeId))
  }

  /** `fromHistogram(raw, includesId)`: replaces the sketch, leaves the union. */
  function Decoded(lib: Library, st: State, raw: Option<seq<byte>>, includesId: bool): Step
  {
    match Payload(raw, includesId)
    case Failure(e) => Step(st, Fail(e))
    case Success(bytes) =>
      match lib.heapify(bytes)
      case Failure(e) => Step(st, Fail(Sketches(e)))
      case Success(s) => Step(st.(sketch := Some(s)), Pass)
  }

  /** `setSketch(s)`: replaces the sketch and drops the union. */
  function WithSketch(st: State, s: Option<Sketch>): State
  {
    st.(sketch := s, union := None)
  }

  /** The union's arguments once it exists: the existing union, or a fresh one
      updated with the current sketch. */
  function Seeded(st: State): seq<Option<Sketch>>
  {
    if st.union.Some? then st.union.value else [st.sketch]
  }

  /** The exception for an argument that fails the `instanceof` test: the
      argument error, unless the argument is null, in which case building the
      message (which asks the argument for its class) throws first. */
  function Rejection(op: OperandView): Error
    requires !op.SameKind?
  {
    if op.OtherKind? then IllegalArgument else NullPointer
  }

  /** `aggregate(histo, func)`: both checks come before any change. */
  function Aggregated(st: State, fn: HistogramAggregation, other: OperandView): Step
  {
    if fn != Sum then Step(st, Fail(UnsupportedOperation))
    else if !other.SameKind? then Step(st, Fail(Rejection(other)))
    else Step(st.(union := Some(Seeded(st) + [other.sketch])), Pass)
  }

  /** The number of leading arguments of the same representation. */
  function LeadingSameKind(ops: seq<OperandView>): (k: nat)
    ensures k <= |ops|
    ensures forall i :: 0 <= i < k ==> ops[i].SameKind?
    ensures k < |ops| ==> !ops[k].SameKind?
  {
    if ops == [] || !ops[0].SameKind? then 0 else 1 + LeadingSameKind(ops[1..])
  }

  /** The sketches held by arguments all of the same representation, in order. */
  function SketchesOf(ops: seq<OperandView>): seq<Option<Sketch>>
    requires forall i :: 0 <= i < |ops| ==> ops[i].SameKind?
  {
    seq(|ops|, i requires 0 <= i < |ops| => ops[i].sketch)
  }

  /** `aggregate(histos, func)`, where `None` is a null list: after the
      function check the union is created before the list is touched;
      arguments are then folded in order up to the first one that is not of
      the same representation, which throws. */
  function AggregatedAll(st: State, fn: HistogramAggregation, histos: Option<seq<OperandView>>): Step
  {
    if fn != Sum then Step(st, Fail(UnsupportedOperation))
    else
      match histos
      case None => Step(st.(union := Some(Seeded(st))), Fail(NullPointer))
      case Some(ops) =>
        var k := LeadingSameKind(ops);
        Step(st.(union := Some(Seeded(st) + SketchesOf(ops[..k]))),
             if k < |ops| then Fail(Rejection(ops[k])) else Pass)
  }

  /** Reference definition: a sequence of single `aggregate` calls with `Sum`,
      stopping at the first one that throws. */
  function AggregatedOneByOne(st: State, ops: seq<OperandView>): Step
    decreases |ops|
  {
    if ops == [] then Step(st, Pass)
    else
      var first := Aggregated(st, Sum, ops[0]);
      if first.outcome.Fail? then first else AggregatedOneByOne(first.state, ops[1..])
  }

  /** The sketch a query reads: the union's result when a union exists,
      otherwise the sketch field (`None` is a null reference). */
  function QueryTarget(lib: Library, st: State): Option<Sketch>
  {
    if st.union.Some? then Some(lib.unionResult(st.union.value)) else st.sketch
  }

  /** A percentile on the 0..100 scale as the fraction the library expects. */
  function Fraction(p: real): real
  {
    p / 100.0
  }

  /** The fractions `percentiles` passes to the library, in input order. */
  function Fractions(ps: seq<real>): seq<real>
  {
    seq(|ps|, i requires 0 <= i < |ps| => Fraction(ps[i]))
  }

  /** `percentile(p)`. */
  function PercentileOf(lib: Library, st: State, p: real): Result<real, Error>
  {
    match QueryTarget(lib, st)
    case None => Failure(NullPointer)
    case Some(t) =>
      match lib.quantile(t, Fraction(p))
      case Failure(e) => Failure(Sketches(e))
      case Success(v) => Success(v)
  }

  /** `percentiles(ps)`. */
  function PercentilesOf(lib: Library, st: State, ps: seq<real>): Result<seq<real>, Error>
  {
    match QueryTarget(lib, st)
    case None => Failure(NullPointer)
    case Some(t) =>
      match lib.quantiles(t, Fractions(ps))
      case Failure(e) => Failure(Sketches(e))
      case Success(vs) => Success(vs)
  }

  /** `clone()`: a new histogram with the same id, decoded from
      `histogram(false)` of this one. */
  function Cloned(lib: Library, st: State): Result<State, Error>
  {
    match Encoded(lib, st, false)
    case Failure(e) => Failure(e)
    case Success(bytes) =>
      var d := Decoded(lib, State(st.id, None, None), Some(bytes), false);
      if d.outcome.Fail? then Failure(d.outcome.error) else Success(d.state)
  }
}
