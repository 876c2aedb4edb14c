/**
  What the histogram wrapper promises, proved about the state model.
 */
module HistogramProperties {
  import opened SketchLibrary
  import opened HistogramModel

  // ---------------------------------------------------------------------
  // Encoding
  // ---------------------------------------------------------------------

  /** `histogram` fails exactly when no sketch is set; otherwise the id-less
      form is the sketch's image and the framed form is one byte longer,
      the id byte followed by that image. */
  lemma EncodedForms(lib: Library, st: State)
    ensures Encoded(lib, st, false).Failure? <==> st.sketch.None?
    ensures Encoded(lib, st, true).Failure? <==> st.sketch.None?
    ensures st.sketch.None? ==>
      Encoded(lib, st, false) == Encoded(lib, st, true) == Failure(IllegalState)
    ensures st.sketch.Some? ==>
      var plain := Encoded(lib, st, false).value;
      var framed := Encoded(lib, st, true).value;
      && plain == lib.serialize(st.sketch.value)
      && |framed| == |plain| + 1
      && framed[0] == st.id as byte
      && framed[1..] == plain
  {
  }

  /** The union never reaches the encoding. */
  lemma EncodedIgnoresUnion(lib: Library, st: State, u: Option<seq<Option<Sketch>>>, includeId: bool)
    ensures Encoded(lib, st.(union := u), includeId) == Encoded(lib, st, includeId)
  {
  }

  // ---------------------------------------------------------------------
  // Decoding
  // ---------------------------------------------------------------------

  /** The length checks of `fromHistogram`, both directions, and the payload
      it hands on when they pass. */
  lemma PayloadChecks(raw: Option<seq<byte>>, includesId: bool)
    ensures Payload(raw, includesId).Failure? <==>
      raw.None? || |raw.value| < (if includesId then 9 else 8)
    ensures Payload(raw, includesId).Failure? ==> Payload(raw, includesId).error == IllegalArgument
    ensures Payload(raw, includesId).Success? ==>
      Payload(raw, includesId).value == if includesId then raw.value[1..] else raw.value
  {
  }

  /** The first byte of a framed image is dropped without being looked at. */
  lemma PayloadIgnoresIdByte(x: byte, y: byte, rest: seq<byte>)
    ensures Payload(Some([x] + rest), true) == Payload(Some([y] + rest), true)
  {
  }

  /** Stripping the frame that `histogram` produced returns exactly its
      id-less form, for either setting of the flag, whenever the image has
      the minimum length; a shorter image is refused in both settings. */
  lemma PayloadOfFrame(id: HistogramId, payload: seq<byte>, includeId: bool)
    ensures |payload| >= MinSketchBytes ==>
      Payload(Some(Frame(id, payload, includeId)), includeId) == Success(payload)
    ensures |payload| < MinSketchBytes ==>
      Payload(Some(Frame(id, payload, includeId)), includeId) == Failure(IllegalArgument)
  {
  }

  /** Decoding the encoding of one histogram into any other histogram (of any
      id, in any state) hands `heapify` exactly the first one's sketch image:
      the id byte is never compared with the receiver's id. */
  lemma DecodeOfEncoded(lib: Library, src: State, dst: State, includeId: bool)
    requires src.sketch.Some?
    requires |lib.serialize(src.sketch.value)| >= MinSketchBytes
    ensures Encoded(lib, src, includeId).Success?
    ensures Decoded(lib, dst, Some(Encoded(lib, src, includeId).value), includeId) ==
      match lib.heapify(lib.serialize(src.sketch.value))
      case Failure(e) => Step(dst, Fail(Sketches(e)))
      case Success(s) => Step(dst.(sketch := Some(s)), Pass)
  {
  }

  /** Byte-identical round trip: when the library reproduces a valid image,
      decoding it and encoding again gives back the same bytes. */
  lemma EncodeOfDecoded(lib: Library, st: State, image: seq<byte>, s: Sketch)
    requires |image| >= MinSketchBytes
    requires lib.heapify(image) == Success(s)
    requires lib.serialize(s) == image
    ensures Decoded(lib, st, Some(image), false).outcome == Pass
    ensures Encoded(lib, Decoded(lib, st, Some(image), false).state, false) == Success(image)
  {
  }

  /** `fromHistogram` changes the sketch and nothing else, and changes
      nothing when it throws. */
  lemma DecodedTouchesOnlySketch(lib: Library, st: State, raw: Option<seq<byte>>, includesId: bool)
    ensures var d := Decoded(lib, st, raw, includesId);
      && d.state.id == st.id
      && d.state.union == st.union
      && (d.outcome.Fail? ==> d.state == st)
      && (d.outcome.Pass? ==> d.state.sketch.Some?)
  {
  }

  /** Because `fromHistogram` keeps the union, a histogram that has aggregated
      answers queries from the old union after a successful decode, not from
      the sketch just decoded. */
  lemma DecodeKeepsStaleUnion(lib: Library, st: State, raw: Option<seq<byte>>, includesId: bool)
    requires st.union.Some?
    ensures QueryTarget(lib, Decoded(lib, st, raw, includesId).state) == QueryTarget(lib, st)
  {
  }

  // ---------------------------------------------------------------------
  // Setting the sketch
  // ---------------------------------------------------------------------

  /** `setSketch` drops the union: queries and encoding both read the new
      sketch afterwards, whatever the union was. */
  lemma WithSketchResets(lib: Library, st: State, s: Sketch, includeId: bool)
    ensures WithSketch(st, Some(s)).union.None?
    ensures WithSketch(st, Some(s)).id == st.id
    ensures QueryTarget(lib, WithSketch(st, Some(s))) == Some(s)
    ensures Encoded(lib, WithSketch(st, Some(s)), includeId) ==
      Success(Frame(st.id, lib.serialize(s), includeId))
  {
  }

  // ---------------------------------------------------------------------
  // Aggregation
  // ---------------------------------------------------------------------

  /** Single `aggregate`: the two checks in order, with no change when either
      fails (a null argument throws a null-pointer exception, not the
      argument error); on success the sketch is kept and the other sketch is appended
      to the (possibly fresh) union. */
  lemma AggregatedEffect(st: State, fn: HistogramAggregation, other: OperandView)
    ensures fn != Sum ==> Aggregated(st, fn, other) == Step(st, Fail(UnsupportedOperation))
    ensures fn == Sum && other.OtherKind? ==>
      Aggregated(st, fn, other) == Step(st, Fail(IllegalArgument))
    ensures fn == Sum && other.NullRef? ==>
      Aggregated(st, fn, other) == Step(st, Fail(NullPointer))
    ensures fn == Sum && other.SameKind? ==>
      var after := Aggregated(st, fn, other);
      && after.outcome == Pass
      && after.state.id == st.id
      && after.state.sketch == st.sketch
      && after.state.union == Some((if st.union.Some? then st.union.value else [st.sketch]) + [other.sketch])
  {
  }

  /** A second `aggregate` reuses the union the first one created instead of
      seeding it again. */
  lemma AggregatedTwice(st: State, a: Option<Sketch>, b: Option<Sketch>)
    ensures var first := Aggregated(st, Sum, SameKind(a));
      Aggregated(first.state, Sum, SameKind(b)).state.union == Some(Seeded(st) + [a, b])
  {
    var first := Aggregated(st, Sum, SameKind(a));
    assert Seeded(first.state) == Seeded(st) + [a];
    assert Seeded(st) + [a] + [b] == Seeded(st) + [a, b];
  }

  /** List `aggregate` with an unsupported function throws before any change,
      whatever the arguments are, even for a null list. */
  lemma AggregatedAllUnsupported(st: State, fn: HistogramAggregation, histos: Option<seq<OperandView>>)
    requires fn != Sum
    ensures AggregatedAll(st, fn, histos) == Step(st, Fail(UnsupportedOperation))
  {
  }

  /** List `aggregate` with `Sum` always leaves a union behind, seeded with the
      current sketch if there was none, even for an empty list, a list whose
      first argument throws, or a null list; the sketch is never touched. A
      null list throws a null-pointer exception and leaves the state an empty
      list leaves. */
  lemma AggregatedAllSeeds(st: State, histos: Option<seq<OperandView>>)
    ensures var after := AggregatedAll(st, Sum, histos).state;
      && after.id == st.id
      && after.sketch == st.sketch
      && after.union.Some?
      && |after.union.value| >= |Seeded(st)|
      && after.union.value[..|Seeded(st)|] == Seeded(st)
    ensures st.union.None? ==> AggregatedAll(st, Sum, Some([])).state.union == Some([st.sketch])
    ensures AggregatedAll(st, Sum, None).outcome == Fail(NullPointer)
    ensures AggregatedAll(st, Sum, None).state == AggregatedAll(st, Sum, Some([])).state
  {
    if histos.Some? {
      var k := LeadingSameKind(histos.value);
      assert (Seeded(st) + SketchesOf(histos.value[..k]))[..|Seeded(st)|] == Seeded(st);
    }
    assert Seeded(st) + SketchesOf([]) == Seeded(st);
  }

  /** List `aggregate` is not atomic: when argument `k` is the first one not
      of the same representation, the call throws (the argument error, or a
      null-pointer exception for a null argument) and leaves exactly the
      state that aggregating the `k` arguments before it leaves. */
  lemma AggregatedAllPartial(st: State, ops: seq<OperandView>, k: nat)
    requires k < |ops| && !ops[k].SameKind?
    requires forall i :: 0 <= i < k ==> ops[i].SameKind?
    ensures ops[k].OtherKind? ==> AggregatedAll(st, Sum, Some(ops)).outcome == Fail(IllegalArgument)
    ensures ops[k].NullRef? ==> AggregatedAll(st, Sum, Some(ops)).outcome == Fail(NullPointer)
    ensures AggregatedAll(st, Sum, Some(ops)).state == AggregatedAll(st, Sum, Some(ops[..k])).state
    ensures AggregatedAll(st, Sum, Some(ops[..k])).outcome == Pass
  {
    assert ops[..k][..k] == ops[..k];
  }

  /** Over a histogram that already has a union, list `aggregate` with `Sum`
      is the same as single `aggregate` calls one argument at a time. */
  lemma {:induction false} AggregatedAllIsOneByOneWhenSeeded(st: State, ops: seq<OperandView>)
    requires st.union.Some?
    ensures AggregatedAll(st, Sum, Some(ops)) == AggregatedOneByOne(st, ops)
    decreases |ops|
  {
    var u := st.union.value;
    if ops == [] {
      assert u + SketchesOf([]) == u;
      assert st.(union := Some(u)) == st;
    } else if !ops[0].SameKind? {
      assert u + SketchesOf(ops[..0]) == u;
      assert st.(union := Some(u)) == st;
    } else {
      var next := st.(union := Some(u + [ops[0].sketch]));
      assert Aggregated(st, Sum, ops[0]) == Step(next, Pass);
      AggregatedAllIsOneByOneWhenSeeded(next, ops[1..]);
      var k := LeadingSameKind(ops[1..]);
      assert LeadingSameKind(ops) == k + 1;
      assert SketchesOf(ops[..k + 1]) == [ops[0].sketch] + SketchesOf(ops[1..][..k]);
      assert u + SketchesOf(ops[..k + 1]) == (u + [ops[0].sketch]) + SketchesOf(ops[1..][..k]);
    }
  }

  /** List `aggregate` with `Sum` is a fresh union (if needed) followed by
      single `aggregate` calls in list order; when the first argument is of
      the same representation the eager seeding makes no difference and the
      two overloads agree exactly. */
  lemma AggregatedAllIsOneByOne(st: State, ops: seq<OperandView>)
    ensures AggregatedAll(st, Sum, Some(ops)) ==
      AggregatedOneByOne(st.(union := Some(Seeded(st))), ops)
    ensures ops != [] && ops[0].SameKind? ==>
      AggregatedAll(st, Sum, Some(ops)) == AggregatedOneByOne(st, ops)
  {
    var seeded := st.(union := Some(Seeded(st)));
    AggregatedAllIsOneByOneWhenSeeded(seeded, ops);
    assert AggregatedAll(seeded, Sum, Some(ops)) == AggregatedAll(st, Sum, Some(ops));
    if ops != [] && ops[0].SameKind? {
      assert Aggregated(seeded, Sum, ops[0]) == Aggregated(st, Sum, ops[0]);
    }
  }

  /** The contrast with the single overload: a single `aggregate` whose
      argument is of another representation, or null, creates no union. */
  lemma AggregatedRejectsBeforeSeeding(st: State, bad: OperandView)
    requires st.union.None? && !bad.SameKind?
    ensures Aggregated(st, Sum, bad).state.union.None?
    ensures AggregatedAll(st, Sum, Some([bad])).state.union == Some([st.sketch])
  {
    assert [st.sketch] + SketchesOf([bad][..0]) == [st.sketch];
  }

  // ---------------------------------------------------------------------
  // Queries
  // ---------------------------------------------------------------------

  /** Queries read the union's result whenever a union exists, whatever the
      sketch field holds, and the sketch field otherwise. */
  lemma QueriesRoute(lib: Library, st: State, p: real, ps: seq<real>)
    ensures st.union.Some? ==>
      && PercentileOf(lib, st, p) == PercentileOf(lib, st.(sketch := None), p)
      && PercentilesOf(lib, st, ps) == PercentilesOf(lib, st.(sketch := None), ps)
    ensures st.union.None? && st.sketch.Some? ==>
      PercentileOf(lib, st, p) ==
        match lib.quantile(st.sketch.value, p / 100.0)
        case Failure(e) => Failure(Sketches(e))
        case Success(v) => Success(v)
    ensures st.union.None? && st.sketch.Some? ==>
      PercentilesOf(lib, st, ps) ==
        match lib.quantiles(st.sketch.value, Fractions(ps))
        case Failure(e) => Failure(Sketches(e))
        case Success(vs) => Success(vs)
    ensures st.union.Some? ==>
      PercentileOf(lib, st, p) ==
        match lib.quantile(lib.unionResult(st.union.value), p / 100.0)
        case Failure(e) => Failure(Sketches(e))
        case Success(v) => Success(v)
    ensures st.union.Some? ==>
      PercentilesOf(lib, st, ps) ==
        match lib.quantiles(lib.unionResult(st.union.value), Fractions(ps))
        case Failure(e) => Failure(Sketches(e))
        case Success(vs) => Success(vs)
    ensures st.union.None? && st.sketch.None? ==>
      PercentileOf(lib, st, p) == Failure(NullPointer) && PercentilesOf(lib, st, ps) == Failure(NullPointer)
  {
  }

  /** The batch query passes every percentile, in order, divided by 100; when
      the library answers a batch element by element as it answers single
      queries, each answer is the one `percentile` gives for that element. */
  lemma PercentilesAgreeWithPercentile(lib: Library, st: State, ps: seq<real>, vs: seq<real>)
    requires QueryTarget(lib, st).Some?
    requires lib.quantiles(QueryTarget(lib, st).value, Fractions(ps)) == Success(vs)
    requires |vs| == |ps|
    requires forall i :: 0 <= i < |ps| ==>
      lib.quantile(QueryTarget(lib, st).value, ps[i] / 100.0) == Success(vs[i])
    ensures |Fractions(ps)| == |ps|
    ensures forall i :: 0 <= i < |ps| ==> Fractions(ps)[i] == ps[i] / 100.0
    ensures PercentilesOf(lib, st, ps) == Success(vs)
    ensures forall i :: 0 <= i < |ps| ==> PercentileOf(lib, st, ps[i]) == Success(vs[i])
  {
  }

  // ---------------------------------------------------------------------
  // Cloning
  // ---------------------------------------------------------------------

  /** `clone` throws what `histogram(false)` or `fromHistogram` throws;
      otherwise the clone has the same id, no union, and the sketch that
      `heapify` rebuilds from the original sketch's image. */
  lemma ClonedForms(lib: Library, st: State)
    ensures st.sketch.None? ==> Cloned(lib, st) == Failure(IllegalState)
    ensures st.sketch.Some? && |lib.serialize(st.sketch.value)| < MinSketchBytes ==>
      Cloned(lib, st) == Failure(IllegalArgument)
    ensures st.sketch.Some? && |lib.serialize(st.sketch.value)| >= MinSketchBytes ==>
      Cloned(lib, st) ==
        match lib.heapify(lib.serialize(st.sketch.value))
        case Failure(e) => Failure(Sketches(e))
        case Success(s) => Success(State(st.id, Some(s), None))
  {
  }

  /** When the library's image round-trips, a clone encodes to the same bytes
      as the original, with and without the id, but it has no union: a clone
      of a histogram that has aggregated answers queries from the original
      sketch, not from the union. */
  lemma CloneDropsUnion(lib: Library, st: State, s: Sketch, includeId: bool)
    requires st.sketch.Some?
    requires |lib.serialize(st.sketch.value)| >= MinSketchBytes
    requires lib.heapify(lib.serialize(st.sketch.value)) == Success(s)
    requires lib.serialize(s) == lib.serialize(st.sketch.value)
    ensures Cloned(lib, st).Success?
    ensures Cloned(lib, st).value.id == st.id
    ensures Cloned(lib, st).value.union.None?
    ensures Encoded(lib, Cloned(lib, st).value, includeId) == Encoded(lib, st, includeId)
    ensures QueryTarget(lib, Cloned(lib, st).value) == Some(s)
  {
  }
}
