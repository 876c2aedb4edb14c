/**
  The histogram object itself: an immutable id and two mutable fields, the
  sketch and the union, updated in place by its methods. Every method is
  specified by the function of `HistogramModel` that gives its effect on the
  object's abstract state `Model()`.
 */
module SketchHistogram {
  import opened SketchLibrary
  import opened HistogramModel

  /** An argument of `aggregate`: another histogram of this representation,
      any other `Histogram` implementation, or null. */
  datatype Operand = Compact(histogram: CompactQuantilesSketchHistogram) | Foreign | Null

  ghost function ViewOf(op: Operand): OperandView
    reads if op.Compact? then {op.histogram} else {}
  {
    match op
    case Compact(h) => SameKind(h.sketch)
    case Foreign => OtherKind
    case Null => NullRef
  }

  ghost function Footprint(ops: seq<Operand>): set<CompactQuantilesSketchHistogram>
  {
    set i | 0 <= i < |ops| && ops[i].Compact? :: ops[i].histogram
  }

  ghost function Views(ops: seq<Operand>): (vs: seq<OperandView>)
    reads Footprint(ops)
    ensures |vs| == |ops|
    ensures forall i :: 0 <= i < |ops| ==> vs[i] == ViewOf(ops[i])
  {
    if ops == [] then []
    else
      assert Footprint(ops[1..]) <= Footprint(ops) by {
        forall h | h in Footprint(ops[1..]) ensures h in Footprint(ops) {
          var i :| 0 <= i < |ops[1..]| && ops[1..][i].Compact? && ops[1..][i].histogram == h;
          assert ops[i + 1].histogram == h;
        }
      }
      [ViewOf(ops[0])] + Views(ops[1..])
  }

  /** The view of a list argument that may be null. */
  ghost function ListView(histos: Option<seq<Operand>>): Option<seq<OperandView>>
    reads if histos.Some? then Footprint(histos.value) else {}
  {
    if histos.None? then None else Some(Views(histos.value))
  }

  /** The contents of a byte array that may be null. */
  ghost function Contents(raw: array?<byte>): Option<seq<byte>>
    reads raw
  {
    if raw == null then None else Some(raw[..])
  }

  /** `System.arraycopy` between two distinct arrays. */
  method ArrayCopy(src: array<byte>, srcPos: nat, dst: array<byte>, dstPos: nat, length: nat)
    requires src != dst
    requires srcPos + length <= src.Length && dstPos + length <= dst.Length
    modifies dst
    ensures forall k :: 0 <= k < dst.Length ==>
      dst[k] == if dstPos <= k < dstPos + length then src[srcPos + k - dstPos] else old(dst[k])
  {
    var i := 0;
    while i < length
      invariant 0 <= i <= length
      invariant forall k :: 0 <= k < dst.Length ==>
        dst[k] == if dstPos <= k < dstPos + i then src[srcPos + k - dstPos] else old(dst[k])
    {
      dst[dstPos + i] := src[srcPos + i];
      i := i + 1;
    }
  }

  /** The array the library returns from `toByteArray`. */
  method ToArray(bytes: seq<byte>) returns (a: array<byte>)
    ensures fresh(a) && a[..] == bytes
  {
    a := new byte[|bytes|](i requires 0 <= i < |bytes| => bytes[i]);
  }

  class CompactQuantilesSketchHistogram {
    /** The id of this histogram in the daemon; fixed at construction. */
    const id: HistogramId
    /** The sketch for this data point; `None` until one is set. */
    var sketch: Option<Sketch>
    /** The union built by aggregation, as the arguments it was updated with. */
    var union: Option<seq<Option<Sketch>>>

    ghost function Model(): State
      reads this
    {
      State(id, sketch, union)
    }

    /** The constructor once the id has passed its range check. */
    constructor (id: HistogramId)
      ensures Model() == State(id, None, None)
    {
      this.id := id;
      sketch := None;
      union := None;
    }

    /** `new CompactQuantilesSketchHistogram(id)`, which throws for an id
        outside 0..255. */
    static method Create(id: int) returns (r: Result<CompactQuantilesSketchHistogram, Error>)
      ensures r.Failure? <==> id < 0 || id > 255
      ensures r.Failure? ==> r.error == IllegalArgument
      ensures r.Success? ==> fresh(r.value) && r.value.Model() == State(id, None, None)
    {
      if id < 0 || id > 255 {
        return Failure(IllegalArgument);
      }
      var h := new CompactQuantilesSketchHistogram(id);
      return Success(h);
    }

    /** `histogram(include_id)`. */
    method Histogram(lib: Library, includeId: bool) returns (r: Result<array<byte>, Error>)
      ensures r.Failure? ==> Encoded(lib, Model(), includeId) == Failure(r.error)
      ensures r.Success? ==> fresh(r.value) && Encoded(lib, Model(), includeId) == Success(r.value[..])
    {
      if sketch.None? {
        return Failure(IllegalState);
      }
      var encoded := ToArray(lib.serialize(sketch.value));
      if includeId {
        var withId := new byte[encoded.Length + 1];
        withId[0] := id as byte;
        ArrayCopy(encoded, 0, withId, 1, encoded.Length);
        assert withId[..] == [id as byte] + encoded[..];
        return Success(withId);
      }
      return Success(encoded);
    }

    /** `fromHistogram(raw, includes_id)`; a null `raw` is `null` here too. */
    method FromHistogram(lib: Library, raw: array?<byte>, includesId: bool) returns (r: Outcome)
      modifies this`sketch
      ensures Step(Model(), r) == Decoded(lib, old(Model()), Contents(raw), includesId)
    {
      if raw == null || raw.Length < 8 {
        return Fail(IllegalArgument);
      }
      if includesId && raw.Length < 9 {
        return Fail(IllegalArgument);
      }
      var encoded: array<byte>;
      if includesId {
        encoded := new byte[raw.Length - 1];
        ArrayCopy(raw, 1, encoded, 0, raw.Length - 1);
        assert encoded[..] == raw[1..];
      } else {
        encoded := raw;
      }
      match lib.heapify(encoded[..])
      case Failure(e) =>
        return Fail(Sketches(e));
      case Success(s) =>
        sketch := Some(s);
        return Pass;
    }

    /** `percentile(p)`. */
    method Percentile(lib: Library, p: real) returns (r: Result<real, Error>)
      ensures r == PercentileOf(lib, Model(), p)
    {
      var answer: Result<real, LibraryError>;
      if union.Some? {
        answer := lib.quantile(lib.unionResult(union.value), p / 100.0);
      } else if sketch.Some? {
        answer := lib.quantile(sketch.value, p / 100.0);
      } else {
        return Failure(NullPointer);
      }
      match answer
      case Failure(e) => return Failure(Sketches(e));
      case Success(v) => return Success(v);
    }

    /** `percentiles(p)`: the fractions are filled in one loop and the
        response list in a second one. */
    method Percentiles(lib: Library, ps: seq<real>) returns (r: Result<seq<real>, Error>)
      ensures r == PercentilesOf(lib, Model(), ps)
    {
      var fractions := new real[|ps|];
      for i := 0 to |ps|
        invariant forall j :: 0 <= j < i ==> fractions[j] == ps[j] / 100.0
      {
        fractions[i] := ps[i] / 100.0;
      }
      assert fractions[..] == Fractions(ps);
      var results: Result<seq<real>, LibraryError>;
      if union.Some? {
        results := lib.quantiles(lib.unionResult(union.value), fractions[..]);
      } else if sketch.Some? {
        results := lib.quantiles(sketch.value, fractions[..]);
      } else {
        return Failure(NullPointer);
      }
      if results.Failure? {
        return Failure(Sketches(results.error));
      }
      var response := [];
      for k := 0 to |results.value|
        invariant response == results.value[..k]
      {
        response := response + [results.value[k]];
      }
      assert response == results.value;
      return Success(response);
    }

    /** `getHistogram()`: not supported. */
    method GetHistogram() returns (r: Outcome)
      ensures r == Fail(UnsupportedOperation)
    {
      return Fail(UnsupportedOperation);
    }

    /** `clone()`: a new histogram with the same id, decoded from
        `histogram(false)`; the original is not changed. */
    method Clone(lib: Library) returns (r: Result<CompactQuantilesSketchHistogram, Error>)
      ensures r.Failure? ==> Cloned(lib, Model()) == Failure(r.error)
      ensures r.Success? ==> fresh(r.value) && Cloned(lib, Model()) == Success(r.value.Model())
    {
      var clone := new CompactQuantilesSketchHistogram(id);
      var encoded := Histogram(lib, false);
      if encoded.Failure? {
        return Failure(encoded.error);
      }
      var outcome := clone.FromHistogram(lib, encoded.value, false);
      if outcome.Fail? {
        return Failure(outcome.error);
      }
      return Success(clone);
    }

    /** `getId()`. */
    function GetId(): (r: int)
      ensures 0 <= r <= 255
      ensures r == id
    {
      id
    }

    /** `aggregate(histo, func)`. */
    method Aggregate(other: Operand, fn: HistogramAggregation) returns (r: Outcome)
      modifies this`union
      ensures Step(Model(), r) == Aggregated(old(Model()), fn, old(ViewOf(other)))
    {
      if fn != Sum {
        return Fail(UnsupportedOperation);
      }
      match other
      case Foreign =>
        return Fail(IllegalArgument);
      case Null =>
        return Fail(NullPointer);
      case Compact(h) =>
        if union.None? {
          union := Some([sketch]);
        }
        union := Some(union.value + [h.sketch]);
        return Pass;
    }

    /** `aggregate(histos, func)`; a null list is `None`. */
    method AggregateAll(histos: Option<seq<Operand>>, fn: HistogramAggregation) returns (r: Outcome)
      modifies this`union
      ensures Step(Model(), r) == AggregatedAll(old(Model()), fn, old(ListView(histos)))
    {
      if fn != Sum {
        return Fail(UnsupportedOperation);
      }
      ghost var seeded := Seeded(Model());
      if union.None? {
        union := Some([sketch]);
      }
      if histos.None? {
        return Fail(NullPointer);
      }
      var ops := histos.value;
      ghost var views := Views(ops);
      assert views == old(Views(ops));
      assert seeded + SketchesOf(views[..0]) == seeded;
      var i := 0;
      while i < |ops|
        invariant 0 <= i <= |ops|
        invariant forall j :: 0 <= j < i ==> views[j].SameKind?
        invariant sketch == old(sketch)
        invariant union == Some(seeded + SketchesOf(views[..i]))
      {
        match ops[i]
        case Foreign =>
          assert views[i].OtherKind?;
          assert LeadingSameKind(views) == i;
          return Fail(IllegalArgument);
        case Null =>
          assert views[i].NullRef?;
          assert LeadingSameKind(views) == i;
          return Fail(NullPointer);
        case Compact(h) =>
          assert views[i] == old(ViewOf(ops[i])) == SameKind(old(h.sketch));
          assert h.sketch == old(h.sketch);
          assert views[..i + 1] == views[..i] + [SameKind(h.sketch)];
          assert SketchesOf(views[..i + 1]) == SketchesOf(views[..i]) + [h.sketch];
          assert seeded + SketchesOf(views[..i + 1]) == union.value + [h.sketch];
          union := Some(union.value + [h.sketch]);
        i := i + 1;
      }
      assert LeadingSameKind(views) == |ops|;
      assert views[..|ops|] == views;
      return Pass;
    }

    /** `setSketch(sketch)`: also resets the union. */
    method SetSketch(s: Option<Sketch>)
      modifies this`sketch, this`union
      ensures Model() == WithSketch(old(Model()), s)
    {
      sketch := s;
      union := None;
    }

    /** `getSketch()`. */
    function GetSketch(): (r: Option<Sketch>)
      reads this
      ensures r == Model().sketch
    {
      sketch
    }
  }
}
