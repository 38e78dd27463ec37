/** Best-match selection (src/services/vectorSearch.ts): dot product, magnitude
    and cosine similarity over embedding vectors, and the scan that picks the
    stored entry most similar to a new question, subject to a fixed threshold.
    `Math.sqrt` is a parameter; the properties that need it to be the square
    root assume `IsSqrt`. */
module VectorSearch {
  import opened Types
  import opened Embedding

  /** The fixed similarity threshold below which no entry is suggested. */
  const SimilarityThreshold: real := 0.7

  /** `sqrt` is the non-negative square root on the non-negative reals. */
  ghost predicate IsSqrt(sqrt: real -> real) {
    forall x: real :: 0.0 <= x ==> 0.0 <= sqrt(x) && sqrt(x) * sqrt(x) == x
  }

  // ---------------------------------------------------------------------
  // Specification functions

  /** The sum of `a[i] * b[i]` over the indices of `a`. */
  ghost function Dot(a: Vector, b: Vector): real
    requires |a| <= |b|
  {
    if |a| == 0 then 0.0 else Dot(a[..|a| - 1], b) + a[|a| - 1] * b[|a| - 1]
  }

  /** The sum of the squares of the components; never negative. */
  ghost function SumSq(v: Vector): (r: real)
    ensures r >= 0.0
  {
    if |v| == 0 then 0.0 else SumSq(v[..|v| - 1]) + v[|v| - 1] * v[|v| - 1]
  }

  /** Cosine similarity as the source computes it: 0 when either magnitude is
      0, NaN when `b` is shorter than `a` (it is read past its end), and
      otherwise the dot product over the product of the magnitudes. */
  ghost function Cosine(a: Vector, b: Vector, sqrt: real -> real): Number {
    var magA := sqrt(SumSq(a));
    var magB := sqrt(SumSq(b));
    if magA == 0.0 || magB == 0.0 then Finite(0.0)
    else if |a| <= |b| then Finite(Dot(a, b) / (magA * magB))
    else NaN
  }

  /** The similarity of a stored entry to the query embedding. */
  ghost function Score(query: Vector, entry: StoredEntry, sqrt: real -> real): Number {
    Cosine(query, entry.embedding, sqrt)
  }

  ghost predicate MeetsThreshold(s: Number) {
    s.Finite? && s.value >= SimilarityThreshold
  }

  /** Entry `k` has the highest similarity of all entries, and every earlier
      entry is strictly less similar (NaN scores never compete). */
  ghost predicate IsFirstBest(query: Vector, entries: seq<StoredEntry>, sqrt: real -> real, k: int) {
    0 <= k < |entries| && Score(query, entries[k], sqrt).Finite? &&
    (forall j :: 0 <= j < |entries| && Score(query, entries[j], sqrt).Finite? ==>
      Score(query, entries[j], sqrt).value <= Score(query, entries[k], sqrt).value) &&
    (forall j :: 0 <= j < k && Score(query, entries[j], sqrt).Finite? ==>
      Score(query, entries[j], sqrt).value < Score(query, entries[k], sqrt).value)
  }

  /** The result `findBestMatch` promises: no entry when no similarity reaches
      the threshold, and otherwise a stored entry that is the first one with
      the highest similarity. */
  ghost predicate IsBestMatch(query: Vector, entries: seq<StoredEntry>, sqrt: real -> real, r: Option<StoredEntry>) {
    match r
    case None =>
      forall j :: 0 <= j < |entries| ==> !MeetsThreshold(Score(query, entries[j], sqrt))
    case Some(e) =>
      exists k :: IsFirstBest(query, entries, sqrt, k) && entries[k] == e &&
        MeetsThreshold(Score(query, entries[k], sqrt))
  }

  // ---------------------------------------------------------------------
  // JavaScript arithmetic on possibly-undefined vector components

  /** `v[i]` used in arithmetic: past the end it is undefined, which turns
      into NaN. */
  function At(v: Vector, i: nat): Number {
    if i < |v| then Finite(v[i]) else NaN
  }

  function Plus(x: Number, y: Number): Number {
    if x.Finite? && y.Finite? then Finite(x.value + y.value) else NaN
  }

  function Times(x: Number, y: Number): Number {
    if x.Finite? && y.Finite? then Finite(x.value * y.value) else NaN
  }

  // ---------------------------------------------------------------------
  // The operations

  /** `dotProduct`: accumulates over the indices of `vecA`; the product is the
      sum of `Dot` when `vecB` is long enough and NaN otherwise. */
  method DotProduct(vecA: Vector, vecB: Vector) returns (product: Number)
    ensures product == if |vecA| <= |vecB| then Finite(Dot(vecA, vecB)) else NaN
  {
    product := Finite(0.0);
    for i := 0 to |vecA|
      invariant product == if i <= |vecB| then Finite(Dot(vecA[..i], vecB)) else NaN
    {
      assert vecA[..i + 1][..i] == vecA[..i];
      product := Plus(product, Times(At(vecA, i), At(vecB, i)));
    }
    assert vecA[..|vecA|] == vecA;
  }

  /** `magnitude`: the square root of the accumulated sum of squares. */
  method Magnitude(vec: Vector, sqrt: real -> real) returns (m: real)
    ensures m == sqrt(SumSq(vec))
  {
    var sum := 0.0;
    for i := 0 to |vec|
      invariant sum == SumSq(vec[..i])
    {
      assert vec[..i + 1][..i] == vec[..i];
      sum := sum + vec[i] * vec[i];
    }
    assert vec[..|vec|] == vec;
    m := sqrt(sum);
  }

  /** `cosineSimilarity`: computes `Cosine`, returning 0 without dividing when
      either magnitude is 0. */
  method CosineSimilarity(vecA: Vector, vecB: Vector, sqrt: real -> real) returns (s: Number)
    ensures s == Cosine(vecA, vecB, sqrt)
  {
    var product := DotProduct(vecA, vecB);
    var magA := Magnitude(vecA, sqrt);
    var magB := Magnitude(vecB, sqrt);
    if magA == 0.0 || magB == 0.0 {
      return Finite(0.0);
    }
    if product.NaN? {
      return NaN;
    }
    return Finite(product.value / (magA * magB));
  }

  /** The scan of `findBestMatch` once the query is embedded: keep the first
      entry whose similarity is strictly above the best so far (starting at
      -1), then reject the best when it is below the threshold. */
  method SelectMatch(query: Vector, entries: seq<StoredEntry>, sqrt: real -> real)
    returns (best: Option<StoredEntry>)
    ensures IsBestMatch(query, entries, sqrt, best)
  {
    var bestMatch: Option<StoredEntry> := None;
    var highestSimilarity := -1.0;
    ghost var k := 0;
    for i := 0 to |entries|
      invariant bestMatch.None? ==> highestSimilarity == -1.0
      invariant bestMatch.None? ==>
        forall j :: 0 <= j < i ==> !GreaterThan(Score(query, entries[j], sqrt), -1.0)
      invariant bestMatch.Some? ==>
        0 <= k < i && bestMatch.value == entries[k] &&
        Score(query, entries[k], sqrt) == Finite(highestSimilarity)
      invariant bestMatch.Some? ==>
        forall j :: 0 <= j < i && Score(query, entries[j], sqrt).Finite? ==>
          Score(query, entries[j], sqrt).value <= highestSimilarity
      invariant bestMatch.Some? ==>
        forall j :: 0 <= j < k && Score(query, entries[j], sqrt).Finite? ==>
          Score(query, entries[j], sqrt).value < highestSimilarity
    {
      var similarity := CosineSimilarity(query, entries[i].embedding, sqrt);
      if GreaterThan(similarity, highestSimilarity) {
        highestSimilarity := similarity.value;
        bestMatch := Some(entries[i]);
        k := i;
      }
    }
    if highestSimilarity < SimilarityThreshold {
      return None;
    }
    assert IsFirstBest(query, entries, sqrt, k);
    return bestMatch;
  }

  /** `findBestMatch`: an empty list yields no match without touching the
      embedder; otherwise the query is embedded by the singleton service (an
      embedding error propagates) and the scan decides. */
  method FindBestMatch(newQuestion: string, storedEntries: seq<StoredEntry>,
                       slot: ServiceSlot, load: LoadOutcome, sqrt: real -> real)
    returns (r: Result<Option<StoredEntry>, EmbedError>)
    requires slot.Valid()
    modifies slot, slot.instance
    ensures slot.Valid()
    ensures |storedEntries| == 0 ==>
      r == Success(None) && unchanged(slot) &&
      (slot.instance != null ==> unchanged(slot.instance))
    ensures |storedEntries| > 0 ==>
      slot.instance != null &&
      (old(slot.instance) != null ==> slot.instance == old(slot.instance)) &&
      (old(slot.instance) == null ==> fresh(slot.instance)) &&
      var before := if old(slot.instance) == null then Null else old(slot.instance.extractor);
      slot.instance.extractor == AfterInit(before, load) &&
      match slot.instance.extractor
      case Loaded(p) => r.Success? && IsBestMatch(p.run(newQuestion).data, storedEntries, sqrt, r.value)
      case _ => r == Failure(EmbedFailure(before, load))
  {
    if |storedEntries| == 0 {
      return Success(None);
    }
    var embeddingService := slot.GetInstance();
    var newEmbedding := embeddingService.Embed(newQuestion, load);
    if newEmbedding.Failure? {
      return Failure(newEmbedding.error);
    }
    var best := SelectMatch(newEmbedding.value, storedEntries, sqrt);
    return Success(best);
  }

  // ---------------------------------------------------------------------
  // Properties

  // Non-linear facts are kept in small lemmas over plain variables.

  /** The product of two positive reals is positive. */
  lemma MulPositive(a: real, b: real)
    requires a > 0.0 && b > 0.0
    ensures a * b > 0.0
  {}

  /** `MulPositive` with a non-negative summand: the solver does not derive
      `x > 0` from `m * m == x` and `m * m > 0`, but it does derive it from
      this form. */
  lemma AddProductPositive(s: real, a: real, b: real)
    requires s >= 0.0 && a > 0.0 && b > 0.0
    ensures s + a * b > 0.0
  {}

  /** Adding the square of a non-zero real to a non-negative real gives a
      positive real. */
  lemma AddSquarePositive(s: real, x: real)
    requires s >= 0.0 && x != 0.0
    ensures s + x * x > 0.0
  {
    if x > 0.0 {
      AddProductPositive(s, x, x);
    } else {
      AddProductPositive(s, -x, -x);
    }
  }

  /** A vector with a non-zero component has a positive sum of squares. */
  lemma {:induction false} SumSqPositive(v: Vector, i: int)
    requires 0 <= i < |v| && v[i] != 0.0
    ensures SumSq(v) > 0.0
  {
    var n := |v| - 1;
    var w := v[..n];
    if i == n {
      AddSquarePositive(SumSq(w), v[n]);
    } else {
      assert w[i] == v[i];
      SumSqPositive(w, i);
    }
  }

  /** A vector whose components are all 0 has sum of squares 0. */
  lemma {:induction false} SumSqOfZeros(v: Vector)
    requires forall i :: 0 <= i < |v| ==> v[i] == 0.0
    ensures SumSq(v) == 0.0
  {
    if |v| > 0 {
      var n := |v| - 1;
      assert forall i :: 0 <= i < n ==> v[..n][i] == v[i];
      SumSqOfZeros(v[..n]);
      assert v[n] == 0.0;
    }
  }

  /** The sum of squares is 0 exactly when every component is 0. */
  lemma SumSqZeroIff(v: Vector)
    ensures SumSq(v) == 0.0 <==> forall i :: 0 <= i < |v| ==> v[i] == 0.0
  {
    if forall i :: 0 <= i < |v| ==> v[i] == 0.0 {
      SumSqOfZeros(v);
    } else {
      var i :| 0 <= i < |v| && v[i] != 0.0;
      SumSqPositive(v, i);
    }
  }

  /** A square root is 0 exactly at 0. */
  lemma SqrtZeroIff(sqrt: real -> real, x: real)
    requires IsSqrt(sqrt) && x >= 0.0
    ensures sqrt(x) == 0.0 <==> x == 0.0
  {
    var m := sqrt(x);
    assert m >= 0.0 && m * m == x;
    if m > 0.0 {
      AddProductPositive(0.0, m, m);
    }
  }

  /** A magnitude is 0 exactly when every component is 0. */
  lemma MagnitudeZeroIff(v: Vector, sqrt: real -> real)
    requires IsSqrt(sqrt)
    ensures sqrt(SumSq(v)) == 0.0 <==> forall i :: 0 <= i < |v| ==> v[i] == 0.0
  {
    SumSqZeroIff(v);
    SqrtZeroIff(sqrt, SumSq(v));
  }

  /** The zero guard: a vector with no non-zero component is 0-similar to
      every vector, whichever side it is on. */
  lemma ZeroVectorScoresZero(z: Vector, v: Vector, sqrt: real -> real)
    requires IsSqrt(sqrt)
    requires forall i :: 0 <= i < |z| ==> z[i] == 0.0
    ensures Cosine(z, v, sqrt) == Finite(0.0) && Cosine(v, z, sqrt) == Finite(0.0)
  {
    MagnitudeZeroIff(z, sqrt);
  }

  /** `Dot` reads `b` only at the indices of `a`. */
  lemma {:induction false} DotReadsPrefix(a: Vector, b: Vector, c: Vector)
    requires |a| <= |b| && |a| <= |c| && b[..|a|] == c[..|a|]
    ensures Dot(a, b) == Dot(a, c)
  {
    if |a| > 0 {
      var n := |a| - 1;
      assert b[..n] == b[..|a|][..n] && c[..n] == c[..|a|][..n];
      DotReadsPrefix(a[..n], b, c);
      assert b[n] == b[..|a|][n] && c[n] == c[..|a|][n];
    }
  }

  /** On vectors of equal length the dot product is symmetric. */
  lemma {:induction false} DotSymmetric(a: Vector, b: Vector)
    requires |a| == |b|
    ensures Dot(a, b) == Dot(b, a)
  {
    if |a| > 0 {
      var n := |a| - 1;
      var a', b' := a[..n], b[..n];
      DotReadsPrefix(a', b, b');
      DotReadsPrefix(b', a, a');
      DotSymmetric(a', b');
    }
  }

  /** On vectors of equal length cosine similarity is symmetric. */
  lemma CosineSymmetric(a: Vector, b: Vector, sqrt: real -> real)
    requires |a| == |b|
    ensures Cosine(a, b, sqrt) == Cosine(b, a, sqrt)
  {
    DotSymmetric(a, b);
    var magA, magB := sqrt(SumSq(a)), sqrt(SumSq(b));
    assert magA * magB == magB * magA;
  }

  /** `IsBestMatch` determines the result: the scan has exactly one correct
      answer. */
  lemma BestMatchIsUnique(query: Vector, entries: seq<StoredEntry>, sqrt: real -> real,
                          r1: Option<StoredEntry>, r2: Option<StoredEntry>)
    requires IsBestMatch(query, entries, sqrt, r1) && IsBestMatch(query, entries, sqrt, r2)
    ensures r1 == r2
  {
    if r1.Some? && r2.Some? {
      var k1 :| IsFirstBest(query, entries, sqrt, k1) && entries[k1] == r1.value;
      var k2 :| IsFirstBest(query, entries, sqrt, k2) && entries[k2] == r2.value;
      assert k1 == k2;
    }
  }

  /** A match exists exactly when some entry reaches the threshold, and it is
      then one of the stored entries, at least as similar as each of them. */
  lemma BestMatchCharacterised(query: Vector, entries: seq<StoredEntry>, sqrt: real -> real,
                               r: Option<StoredEntry>)
    requires IsBestMatch(query, entries, sqrt, r)
    ensures r.Some? <==> exists j :: 0 <= j < |entries| && MeetsThreshold(Score(query, entries[j], sqrt))
    ensures r.Some? ==> r.value in entries && MeetsThreshold(Score(query, r.value, sqrt))
    ensures r.Some? ==> forall j :: 0 <= j < |entries| && Score(query, entries[j], sqrt).Finite? ==>
      Score(query, entries[j], sqrt).value <= Score(query, r.value, sqrt).value
  {
    if r.Some? {
      var k :| IsFirstBest(query, entries, sqrt, k) && entries[k] == r.value &&
        MeetsThreshold(Score(query, entries[k], sqrt));
      assert 0 <= k < |entries|;
    }
  }
}
