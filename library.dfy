/**
  The quantile-sketch library that the histogram wrapper delegates to.

  Nothing about the library's algorithm is modelled: a compact sketch is an
  uninterpreted type, and every library operation the wrapper calls is a field
  of a `Library` value that the wrapper's operations receive as a parameter.
  Any property of the library that a lemma relies on is stated as a
  hypothesis of that lemma.
 */
module SketchLibrary {

  /** An 8-bit byte, read as unsigned: the wrapper only ever stores an id in
      0..255 into a byte, and copies every other byte unchanged. */
  newtype byte = b: int | 0 <= b < 256

  datatype Option<+T> = None | Some(value: T)

  datatype Result<+T, +E> = Success(value: T) | Failure(error: E)

  /** A compact (immutable, already compiled) quantiles sketch. */
  type Sketch

  /** An exception raised inside the library: a malformed serialised image,
      a fraction outside [0, 1], fractions out of order, ... */
  type LibraryError

  /** The library operations the wrapper calls. The floating-point `double`
      of the library is modelled by `real`. */
  datatype Library = Library(
    /** `toByteArray(true)`: the compact serialised image of a sketch. */
    serialize: Sketch -> seq<byte>,
    /** `CompactDoublesSketch.heapify`: rebuilds a sketch from an image; may fail. */
    heapify: seq<byte> -> Result<Sketch, LibraryError>,
    /** `getQuantile(fraction)`. */
    quantile: (Sketch, real) -> Result<real, LibraryError>,
    /** `getQuantiles(fractions)`. */
    quantiles: (Sketch, seq<real>) -> Result<seq<real>, LibraryError>,
    /** `getResult()` of a union that was updated, in order, with the given
        arguments (an absent sketch is a `null` argument). */
    unionResult: seq<Option<Sketch>> -> Sketch
  )
}
