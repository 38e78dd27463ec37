/** What the doc comment of `cosineSimilarity` (src/services/vectorSearch.ts)
    promises, stated over the reals: the similarity lies between -1 and 1, and
    a vector is 1-similar to itself unless it is all zeros. The bound rests on
    the Cauchy-Schwarz inequality, proved here by induction on the length. */
module SimilarityBounds {
  import opened Types
  import opened VectorSearch

  // ---------------------------------------------------------------------
  // Algebra on plain reals

  predicate InUnitRange(x: real) {
    -1.0 <= x <= 1.0
  }

  /** `d * d <= s * t`, kept as one fact so it passes between lemmas whole. */
  predicate SquareBelow(d: real, s: real, t: real) {
    d * d <= s * t
  }

  /** The cosine quotient for a dot product `d` and magnitudes `m`, `n`. */
  function Quotient(d: real, m: real, n: real): real
    requires m * n != 0.0
  {
    d / (m * n)
  }

  /** `m` is the non-negative square root of `s`. */
  predicate IsRootOf(m: real, s: real) {
    m >= 0.0 && m * m == s
  }

  lemma SquareNonNegative(t: real)
    ensures t * t >= 0.0
  {
    if t > 0.0 {
      MulPositive(t, t);
    } else if t < 0.0 {
      MulPositive(-t, -t);
    }
  }

  /** One step of the Cauchy-Schwarz induction. */
  lemma CauchySchwarzStep(d: real, sa: real, sb: real, x: real, y: real)
    requires d * d <= sa * sb
    requires 2.0 * x * y * d <= y * y * sa + x * x * sb
    ensures (d + x * y) * (d + x * y) <= (sa + x * x) * (sb + y * y)
  {
    assert (d + x * y) * (d + x * y) == d * d + 2.0 * x * y * d + (x * y) * (x * y);
    assert (sa + x * x) * (sb + y * y) == sa * sb + y * y * sa + x * x * sb + (x * y) * (x * y);
  }

  /** One step of the expansion of `Cross`. */
  lemma CrossStep(c: real, sa: real, sb: real, d: real, x: real, y: real, p: real, q: real)
    requires c == y * y * sa - 2.0 * x * y * d + x * x * sb
    ensures c + (y * p - x * q) * (y * p - x * q) ==
      y * y * (sa + p * p) - 2.0 * x * y * (d + p * q) + x * x * (sb + q * q)
  {
    assert (y * p - x * q) * (y * p - x * q) == y * y * (p * p) - 2.0 * x * y * (p * q) + x * x * (q * q);
  }

  /** From `d * d <= sa * sb` and non-zero square roots `ma`, `mb` of `sa`,
      `sb`, the quotient `d / (ma * mb)` lies in [-1, 1]. */
  lemma QuotientBounded(d: real, ma: real, mb: real, sa: real, sb: real)
    requires ma != 0.0 && mb != 0.0 && IsRootOf(ma, sa) && IsRootOf(mb, sb)
    requires SquareBelow(d, sa, sb)
    ensures InUnitRange(Quotient(d, ma, mb))
  {
    var m := ma * mb;
    MulPositive(ma, mb);
    assert m * m == (ma * ma) * (mb * mb);
    assert m * m == sa * sb;
    AbsBelow(d, m);
    DivideBounded(d, m);
    assert Quotient(d, ma, mb) == d / m;
  }

  lemma AbsBelow(d: real, m: real)
    requires m > 0.0 && d * d <= m * m
    ensures -m <= d <= m
  {
    if d > m {
      MulPositive(d - m, d + m);
    } else if d < -m {
      MulPositive(-d - m, -d + m);
    }
  }

  lemma DivideBounded(d: real, m: real)
    requires m > 0.0 && -m <= d <= m
    ensures -1.0 <= d / m <= 1.0
  {
    var q := d / m;
    assert q * m == d;
    if q > 1.0 {
      MulPositive(q - 1.0, m);
    } else if q < -1.0 {
      MulPositive(-1.0 - q, m);
    }
  }

  lemma DivideSelf(a: real, b: real)
    requires a == b && b != 0.0
    ensures a / b == 1.0
  {}

  // ---------------------------------------------------------------------
  // Sums over vectors

  /** The sum of `(y * a[i] - x * b[i])^2`: never negative. */
  ghost function Cross(a: Vector, b: Vector, x: real, y: real): (r: real)
    requires |a| == |b|
    ensures r >= 0.0
  {
    if |a| == 0 then 0.0
    else
      var n := |a| - 1;
      var t := y * a[n] - x * b[n];
      SquareNonNegative(t);
      Cross(a[..n], b[..n], x, y) + t * t
  }

  /** `Dot` over `b` equals `Dot` over the prefix of `b` as long as `a`. */
  lemma DotPrefix(a: Vector, b: Vector)
    requires |a| <= |b|
    ensures Dot(a, b) == Dot(a, b[..|a|])
  {
    assert b[..|a|][..|a|] == b[..|a|];
    DotReadsPrefix(a, b, b[..|a|]);
  }

  /** Expanding `Cross` in terms of `SumSq` and `Dot`. */
  lemma {:induction false} CrossExpansion(a: Vector, b: Vector, x: real, y: real)
    requires |a| == |b|
    ensures Cross(a, b, x, y) == y * y * SumSq(a) - 2.0 * x * y * Dot(a, b) + x * x * SumSq(b)
  {
    if |a| > 0 {
      var n := |a| - 1;
      var a', b' := a[..n], b[..n];
      CrossExpansion(a', b', x, y);
      DotPrefix(a', b);
      assert b[..n] == b';
      CrossStep(Cross(a', b', x, y), SumSq(a'), SumSq(b'), Dot(a', b'), x, y, a[n], b[n]);
    }
  }

  /** Cauchy-Schwarz on vectors of equal length. */
  lemma {:induction false} CauchySchwarz(a: Vector, b: Vector)
    requires |a| == |b|
    ensures Dot(a, b) * Dot(a, b) <= SumSq(a) * SumSq(b)
  {
    if |a| > 0 {
      var n := |a| - 1;
      var a', b' := a[..n], b[..n];
      CauchySchwarz(a', b');
      CrossExpansion(a', b', a[n], b[n]);
      DotPrefix(a', b);
      assert b[..n] == b';
      CauchySchwarzStep(Dot(a', b'), SumSq(a'), SumSq(b'), a[n], b[n]);
    }
  }

  /** The sum of squares of a prefix is at most that of the whole vector. */
  lemma {:induction false} SumSqPrefix(v: Vector, k: nat)
    requires k <= |v|
    ensures SumSq(v[..k]) <= SumSq(v)
  {
    if k < |v| {
      var n := |v| - 1;
      assert v[..n][..k] == v[..k];
      SumSqPrefix(v[..n], k);
      SquareNonNegative(v[n]);
    } else {
      assert v[..k] == v;
    }
  }

  /** `Dot(v, v)` is the sum of squares. */
  lemma {:induction false} DotSelf(v: Vector)
    ensures Dot(v, v) == SumSq(v)
  {
    if |v| > 0 {
      var n := |v| - 1;
      DotPrefix(v[..n], v);
      DotSelf(v[..n]);
    }
  }

  // ---------------------------------------------------------------------
  // The promises about cosine similarity

  /** Whenever the similarity is a number, it lies in [-1, 1]. */
  lemma CosineBounded(a: Vector, b: Vector, sqrt: real -> real)
    requires IsSqrt(sqrt)
    ensures Cosine(a, b, sqrt).Finite? ==> -1.0 <= Cosine(a, b, sqrt).value <= 1.0
  {
    var ma, mb := sqrt(SumSq(a)), sqrt(SumSq(b));
    if ma != 0.0 && mb != 0.0 && |a| <= |b| {
      var q := Dot(a, b) / (ma * mb);
      assert Cosine(a, b, sqrt) == Finite(q);
      DotProductBounded(a, b, sqrt);
    }
  }

  /** The bound on the quotient itself, for non-zero magnitudes. */
  lemma DotProductBounded(a: Vector, b: Vector, sqrt: real -> real)
    requires IsSqrt(sqrt) && |a| <= |b|
    requires sqrt(SumSq(a)) != 0.0 && sqrt(SumSq(b)) != 0.0
    ensures InUnitRange(Quotient(Dot(a, b), sqrt(SumSq(a)), sqrt(SumSq(b))))
  {
    DotSquareBound(a, b);
    RootQuotientBounded(Dot(a, b), SumSq(a), SumSq(b), sqrt);
  }

  /** Cauchy-Schwarz for the prefix of `b` that `Dot` reads. */
  lemma DotSquareBound(a: Vector, b: Vector)
    requires |a| <= |b|
    ensures SquareBelow(Dot(a, b), SumSq(a), SumSq(b))
  {
    var b' := b[..|a|];
    DotPrefix(a, b);
    CauchySchwarz(a, b');
    SumSqPrefix(b, |a|);
    WeakenSquareBelow(Dot(a, b), SumSq(a), SumSq(b'), SumSq(b));
  }

  lemma WeakenSquareBelow(d: real, s: real, t: real, u: real)
    requires d * d <= s * t && s >= 0.0 && t <= u
    ensures SquareBelow(d, s, u)
  {
    ProductMonotone(s, t, u);
  }

  /** The quotient bound with the magnitudes taken by `sqrt`. */
  lemma RootQuotientBounded(d: real, sa: real, sb: real, sqrt: real -> real)
    requires IsSqrt(sqrt) && sa >= 0.0 && sb >= 0.0
    requires sqrt(sa) != 0.0 && sqrt(sb) != 0.0 && SquareBelow(d, sa, sb)
    ensures InUnitRange(Quotient(d, sqrt(sa), sqrt(sb)))
  {
    SqrtOf(sqrt, sa);
    SqrtOf(sqrt, sb);
    QuotientBounded(d, sqrt(sa), sqrt(sb), sa, sb);
  }

  lemma SqrtOf(sqrt: real -> real, x: real)
    requires IsSqrt(sqrt) && x >= 0.0
    ensures IsRootOf(sqrt(x), x)
  {}

  lemma ProductMonotone(s: real, t: real, u: real)
    requires s >= 0.0 && t <= u
    ensures s * t <= s * u
  {
    if s > 0.0 && t < u {
      MulPositive(s, u - t);
      assert s * (u - t) == s * u - s * t;
    }
  }

  /** A vector is 1-similar to itself, and 0-similar when all its components
      are 0. */
  lemma CosineSelf(v: Vector, sqrt: real -> real)
    requires IsSqrt(sqrt)
    ensures Cosine(v, v, sqrt) ==
      if forall i :: 0 <= i < |v| ==> v[i] == 0.0 then Finite(0.0) else Finite(1.0)
  {
    MagnitudeZeroIff(v, sqrt);
    SumSqZeroIff(v);
    var m := sqrt(SumSq(v));
    if m != 0.0 {
      DotSelf(v);
      assert m * m == SumSq(v);
      DivideSelf(Dot(v, v), m * m);
    }
  }
}
