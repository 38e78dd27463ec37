/** Shared data of the semantic matching service: stored entries, vectors,
    JavaScript numbers as the similarity code sees them, and the Option/Result
    wrappers used for `null` results and thrown errors. */
module Types {

  /** `T | null` in the source. */
  datatype Option<+T> = None | Some(value: T)

  /** A call that either returns a value or throws. */
  datatype Result<+T, +E> = Success(value: T) | Failure(error: E)

  /** An embedding vector (`number[]` or `Float32Array`), over the reals. */
  type Vector = seq<real>

  /** The record persisted for every saved question (`StoredEntry` in src/types.ts). */
  datatype StoredEntry = StoredEntry(question: string, answer: string, embedding: Vector)

  /** A JavaScript number as far as the similarity code can produce one:
      a real value, or NaN (what `undefined * x` yields when a vector is
      indexed past its end). Infinities cannot arise and are not modelled. */
  datatype Number = Finite(value: real) | NaN

  /** JavaScript's `x > y` for a number against a finite bound: false for NaN. */
  predicate GreaterThan(x: Number, y: real) {
    x.Finite? && x.value > y
  }
}
