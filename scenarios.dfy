/** Concrete cases from the repository's test suites
    (src/services/__tests__/), stated over the model: the "e-mail" query
    matching the email entry, an unrelated query matching nothing, both sides
    of the 0.7 threshold, the mocked 384-dimensional embedder, the singleton,
    and the store's read and append. */
module Scenarios {
  import opened Types
  import opened Embedding
  import opened VectorSearch
  import opened Storage

  // ---------------------------------------------------------------------
  // Square roots of concrete numbers

  /** Squaring is strictly increasing on the non-negative reals. */
  lemma SquareGap(a: real, b: real)
    requires a > b >= 0.0
    ensures a * a > b * b
  {
    MulPositive(a - b, a + b);
    assert (a - b) * (a + b) == a * a - b * b;
  }

  /** Two non-negative reals with equal squares are equal. */
  lemma RootUnique(m: real, x: real)
    requires m >= 0.0 && x >= 0.0 && m * m == x * x
    ensures m == x
  {
    if m > x {
      SquareGap(m, x);
    } else if m < x {
      SquareGap(x, m);
    }
  }

  /** The square root of a square is the non-negative base. */
  lemma SqrtOfSquare(sqrt: real -> real, x: real)
    requires IsSqrt(sqrt) && x >= 0.0
    ensures sqrt(x * x) == x
  {
    RootUnique(sqrt(x * x), x);
  }

  /** The square root of a number in (0, 1] lies in (0, 1]. */
  lemma SqrtInUnit(sqrt: real -> real, x: real)
    requires IsSqrt(sqrt) && 0.0 < x <= 1.0
    ensures 0.0 < sqrt(x) <= 1.0
  {
    var m := sqrt(x);
    assert m >= 0.0 && m * m == x;
    if m > 1.0 {
      SquareGap(m, 1.0);
    }
  }

  /** Dividing by a number in (0, 1] does not shrink a non-negative number. */
  lemma DivideByUnit(a: real, s: real)
    requires a >= 0.0 && 0.0 < s <= 1.0
    ensures a / s >= a
  {
    var q := a / s;
    assert q * s == a;
    if q < a {
      MulPositive(a - q, s);
      assert (a - q) * s == a * s - a;
      MulPositive(a, 1.0 - s);
    }
  }

  /** Division by a positive number keeps strict order. */
  lemma DivideMonotone(x: real, y: real, s: real)
    requires x < y && s > 0.0
    ensures x / s < y / s
  {
    var p, q := x / s, y / s;
    assert p * s == x && q * s == y;
    if p >= q {
      if p > q {
        MulPositive(p - q, s);
      }
    }
  }

  // ---------------------------------------------------------------------
  // Sums over short literal vectors

  lemma SumSqSnoc(v: Vector, x: real)
    ensures SumSq(v + [x]) == SumSq(v) + x * x
  {
    assert (v + [x])[..|v|] == v;
  }

  lemma DotSnoc(a: Vector, x: real, b: Vector)
    requires |a| < |b|
    ensures Dot(a + [x], b) == Dot(a, b) + x * b[|a|]
  {
    assert (a + [x])[..|a|] == a;
  }

  lemma SumSqOf4(w: real, x: real, y: real, z: real)
    ensures SumSq([w]) == w * w
    ensures SumSq([w, x]) == w * w + x * x
    ensures SumSq([w, x, y]) == w * w + x * x + y * y
    ensures SumSq([w, x, y, z]) == w * w + x * x + y * y + z * z
  {
    SumSqSnoc([], w);
    assert [] + [w] == [w];
    SumSqSnoc([w], x);
    assert [w] + [x] == [w, x];
    SumSqSnoc([w, x], y);
    assert [w, x] + [y] == [w, x, y];
    SumSqSnoc([w, x, y], z);
    assert [w, x, y] + [z] == [w, x, y, z];
  }

  lemma DotOf3(w: real, x: real, y: real, b: Vector)
    requires |b| >= 3
    ensures Dot([w, x, y], b) == w * b[0] + x * b[1] + y * b[2]
  {
    DotSnoc([], w, b);
    assert [] + [w] == [w];
    DotSnoc([w], x, b);
    assert [w] + [x] == [w, x];
    DotSnoc([w, x], y, b);
    assert [w, x] + [y] == [w, x, y];
  }

  lemma DotOf4(w: real, x: real, y: real, z: real, b: Vector)
    requires |b| >= 4
    ensures Dot([w, x, y, z], b) == w * b[0] + x * b[1] + y * b[2] + z * b[3]
  {
    DotOf3(w, x, y, b);
    DotSnoc([w, x, y], z, b);
    assert [w, x, y] + [z] == [w, x, y, z];
  }

  // ---------------------------------------------------------------------
  // findBestMatch (src/services/__tests__/vectorSearch.test.ts)

  function EmailEntry(): StoredEntry {
    StoredEntry("email address", "test@example.com", [1.0, 0.0, 0.0])
  }

  function PhoneEntry(): StoredEntry {
    StoredEntry("phone number", "123-456-7890", [0.0, 1.0, 0.0])
  }

  function TestEntries(): seq<StoredEntry> {
    [EmailEntry(), PhoneEntry()]
  }

  /** The mocked embedder of the test. */
  function TestEmbed(text: string): Vector {
    if text == "email address" then [1.0, 0.0, 0.0]
    else if text == "e-mail" then [0.9, 0.1, 0.0]
    else if text == "phone number" then [0.0, 1.0, 0.0]
    else [0.0, 0.0, 1.0]
  }

  /** A unit vector along one axis has magnitude 1. */
  lemma UnitMagnitude(v: Vector, sqrt: real -> real)
    requires IsSqrt(sqrt)
    requires v == [1.0, 0.0, 0.0] || v == [0.0, 1.0, 0.0] || v == [0.0, 0.0, 1.0]
    ensures SumSq(v) == 1.0 && sqrt(SumSq(v)) == 1.0
  {
    SumSqOf4(v[0], v[1], v[2], 0.0);
    assert v == [v[0], v[1], v[2]];
    SqrtOfSquare(sqrt, 1.0);
  }

  /** "e-mail" is closest to the email entry, well above the threshold. */
  lemma EmailQueryMatchesEmailEntry(sqrt: real -> real)
    requires IsSqrt(sqrt)
    ensures IsBestMatch(TestEmbed("e-mail"), TestEntries(), sqrt, Some(EmailEntry()))
  {
    var q := TestEmbed("e-mail");
    SumSqOf4(0.9, 0.1, 0.0, 0.0);
    assert SumSq(q) == 0.82;
    SqrtInUnit(sqrt, 0.82);
    var s := sqrt(0.82);
    UnitMagnitude(EmailEntry().embedding, sqrt);
    UnitMagnitude(PhoneEntry().embedding, sqrt);
    DotOf3(0.9, 0.1, 0.0, EmailEntry().embedding);
    DotOf3(0.9, 0.1, 0.0, PhoneEntry().embedding);
    assert Dot(q, EmailEntry().embedding) == 0.9;
    assert Dot(q, PhoneEntry().embedding) == 0.1;
    assert s * 1.0 == s;
    assert Score(q, EmailEntry(), sqrt) == Finite(0.9 / s);
    assert Score(q, PhoneEntry(), sqrt) == Finite(0.1 / s);
    DivideByUnit(0.9, s);
    DivideMonotone(0.1, 0.9, s);
    assert IsFirstBest(q, TestEntries(), sqrt, 0);
  }

  /** "favorite color" is orthogonal to both entries: no match. */
  lemma UnrelatedQueryMatchesNothing(sqrt: real -> real)
    requires IsSqrt(sqrt)
    ensures IsBestMatch(TestEmbed("favorite color"), TestEntries(), sqrt, None)
  {
    var q := TestEmbed("favorite color");
    UnitMagnitude(q, sqrt);
    UnitMagnitude(EmailEntry().embedding, sqrt);
    UnitMagnitude(PhoneEntry().embedding, sqrt);
    DotOf3(0.0, 0.0, 1.0, EmailEntry().embedding);
    DotOf3(0.0, 0.0, 1.0, PhoneEntry().embedding);
    assert Score(q, EmailEntry(), sqrt) == Finite(0.0);
    assert Score(q, PhoneEntry(), sqrt) == Finite(0.0);
  }

  /** A loader that resolves to the test's mocked embedder. */
  function TestLoader(): LoadOutcome {
    Ready(Extractor(text => Tensor(TestEmbed(text), [1, 3])))
  }

  /** The whole of `findBestMatch` for the first test: the email entry. */
  method FindEmailScenario(sqrt: real -> real) returns (r: Result<Option<StoredEntry>, EmbedError>)
    requires IsSqrt(sqrt)
    ensures r == Success(Some(EmailEntry()))
  {
    var slot := new ServiceSlot();
    r := FindBestMatch("e-mail", TestEntries(), slot, TestLoader(), sqrt);
    EmailQueryMatchesEmailEntry(sqrt);
    BestMatchIsUnique(TestEmbed("e-mail"), TestEntries(), sqrt, r.value, Some(EmailEntry()));
  }

  /** The whole of `findBestMatch` for the second test: no match. */
  method FindNothingScenario(sqrt: real -> real) returns (r: Result<Option<StoredEntry>, EmbedError>)
    requires IsSqrt(sqrt)
    ensures r == Success(None)
  {
    var slot := new ServiceSlot();
    r := FindBestMatch("favorite color", TestEntries(), slot, TestLoader(), sqrt);
    UnrelatedQueryMatchesNothing(sqrt);
    BestMatchIsUnique(TestEmbed("favorite color"), TestEntries(), sqrt, r.value, None);
  }

  // ---------------------------------------------------------------------
  // The threshold boundary

  /** An entry whose similarity is exactly 0.7: 7 / (1 * 10). */
  function BoundaryEntry(): StoredEntry {
    StoredEntry("boundary", "at 0.7", [7.0, 7.0, 1.0, 1.0])
  }

  /** An entry whose similarity is 0.6: 6 / (1 * 10). */
  function BelowEntry(): StoredEntry {
    StoredEntry("below", "at 0.6", [6.0, 8.0, 0.0, 0.0])
  }

  function AxisQuery(): Vector {
    [1.0, 0.0, 0.0, 0.0]
  }

  lemma AxisQueryMagnitude(sqrt: real -> real)
    requires IsSqrt(sqrt)
    ensures SumSq(AxisQuery()) == 1.0 && sqrt(SumSq(AxisQuery())) == 1.0
  {
    SumSqOf4(1.0, 0.0, 0.0, 0.0);
    SqrtOfSquare(sqrt, 1.0);
  }

  /** A similarity of exactly 0.7 is a match. */
  lemma ThresholdIsInclusive(sqrt: real -> real)
    requires IsSqrt(sqrt)
    ensures IsBestMatch(AxisQuery(), [BoundaryEntry()], sqrt, Some(BoundaryEntry()))
  {
    var v := BoundaryEntry().embedding;
    SumSqOf4(7.0, 7.0, 1.0, 1.0);
    assert SumSq(v) == 10.0 * 10.0;
    SqrtOfSquare(sqrt, 10.0);
    AxisQueryMagnitude(sqrt);
    DotOf4(1.0, 0.0, 0.0, 0.0, v);
    assert Dot(AxisQuery(), v) == 7.0;
    assert Score(AxisQuery(), BoundaryEntry(), sqrt) == Finite(0.7);
    assert IsFirstBest(AxisQuery(), [BoundaryEntry()], sqrt, 0);
  }

  /** A best similarity of 0.6 is no match. */
  lemma BelowThresholdIsRejected(sqrt: real -> real)
    requires IsSqrt(sqrt)
    ensures IsBestMatch(AxisQuery(), [BelowEntry()], sqrt, None)
  {
    var v := BelowEntry().embedding;
    SumSqOf4(6.0, 8.0, 0.0, 0.0);
    assert SumSq(v) == 10.0 * 10.0;
    SqrtOfSquare(sqrt, 10.0);
    AxisQueryMagnitude(sqrt);
    DotOf4(1.0, 0.0, 0.0, 0.0, v);
    assert Dot(AxisQuery(), v) == 6.0;
    assert Score(AxisQuery(), BelowEntry(), sqrt) == Finite(0.6);
  }

  /** A stored embedding shorter than the query scores NaN and is never
      chosen, even ahead of a weaker entry of the right length. */
  lemma ShortEmbeddingIsSkipped(sqrt: real -> real)
    requires IsSqrt(sqrt)
    ensures
      var short := StoredEntry("short", "x", [1.0, 0.0]);
      IsBestMatch(AxisQuery(), [short, BoundaryEntry()], sqrt, Some(BoundaryEntry()))
  {
    var short := StoredEntry("short", "x", [1.0, 0.0]);
    SumSqOf4(1.0, 0.0, 0.0, 0.0);
    assert SumSq(short.embedding) == 1.0;
    SqrtOfSquare(sqrt, 1.0);
    AxisQueryMagnitude(sqrt);
    assert Score(AxisQuery(), short, sqrt) == NaN;
    ThresholdIsInclusive(sqrt);
    assert IsFirstBest(AxisQuery(), [short, BoundaryEntry()], sqrt, 1);
  }

  // ---------------------------------------------------------------------
  // The embedder (src/services/__tests__/embedding.test.ts)

  /** The mocked model output: 384 components, the i-th being i / 1000. */
  function MockData(): Vector {
    seq(384, i => i as real / 1000.0)
  }

  /** `getInstance().embed(text)` with the mocked pipeline. */
  method EmbedScenario(text: string) returns (r: Result<Vector, EmbedError>)
    ensures r.Success? && |r.value| == 384 && r.value[0] == 0.0 && r.value[1] == 0.001
  {
    var slot := new ServiceSlot();
    var service := slot.GetInstance();
    r := service.Embed(text, Ready(Extractor(t => Tensor(MockData(), [1, 384]))));
  }

  /** Two `getInstance` calls return the same object. */
  method SingletonScenario() returns (first: EmbeddingService, second: EmbeddingService)
    ensures first == second
  {
    var slot := new ServiceSlot();
    first := slot.GetInstance();
    second := slot.GetInstance();
  }

  /** A second `embed` on the same instance reuses the loaded model: the
      loader is not invoked again, whatever it would do. */
  method LoadOnceScenario(text: string, again: LoadOutcome)
    returns (first: Result<Vector, EmbedError>, second: Result<Vector, EmbedError>)
    ensures first == second && first == Success(MockData())
  {
    var slot := new ServiceSlot();
    var service := slot.GetInstance();
    var mock := Extractor(t => Tensor(MockData(), [1, 384]));
    first := service.Embed(text, Ready(mock));
    var same := slot.GetInstance();
    second := same.Embed(text, again);
  }

  /** A loader that resolves to `null` leaves `embed` to throw its own
      error. */
  method NotInitializedScenario(text: string) returns (message: string)
    ensures message == "Embedding model not initialized."
  {
    var slot := new ServiceSlot();
    var service := slot.GetInstance();
    var r := service.Embed(text, ResolvedNull);
    message := Message(r.error);
  }

  /** After a `null` resolution the field is still `null`, so the next
      `embed` invokes the loader again and can succeed. */
  method NullRetriesScenario(text: string, p: Extractor)
    returns (first: Result<Vector, EmbedError>, second: Result<Vector, EmbedError>)
    ensures first == Failure(NotInitialized)
    ensures second == Success(p.run(text).data)
  {
    var slot := new ServiceSlot();
    var service := slot.GetInstance();
    first := service.Embed(text, ResolvedNull);
    second := service.Embed(text, Ready(p));
  }

  /** After an `undefined` resolution the field is no longer `null`, so
      `initialize` never invokes the loader again and every later `embed`
      throws, whatever the loader would now return. */
  method UndefinedIsPermanentScenario(text: string, later: LoadOutcome)
    returns (first: Result<Vector, EmbedError>, second: Result<Vector, EmbedError>)
    ensures first == Failure(NotInitialized) && second == Failure(NotInitialized)
  {
    var slot := new ServiceSlot();
    var service := slot.GetInstance();
    first := service.Embed(text, ResolvedUndefined);
    second := service.Embed(text, later);
  }

  // ---------------------------------------------------------------------
  // The store (src/services/__tests__/storage.test.ts)

  /** Entries written under the key are read back as they are. */
  method GetEntriesScenario() returns (entries: seq<StoredEntry>)
    ensures entries == [StoredEntry("q1", "a1", [1.0])]
  {
    var storage := new LocalStorage();
    storage.items := storage.items[EntriesKey := EntryList([StoredEntry("q1", "a1", [1.0])])];
    entries := GetEntries(storage);
  }

  /** `addEntry` on an empty store saves one entry with the given question,
      answer and the embedder's vector. */
  method AddEntryScenario() returns (entries: seq<StoredEntry>)
    ensures entries == [StoredEntry("new question", "new answer", [0.1, 0.2, 0.3])]
  {
    var storage := new LocalStorage();
    var slot := new ServiceSlot();
    var mock := Extractor(t => Tensor([0.1, 0.2, 0.3], [1, 3]));
    var r := AddEntry(storage, slot, Ready(mock), "new question", "new answer");
    entries := GetEntries(storage);
  }

  /** Saving the same question twice keeps both entries. */
  method DuplicateScenario() returns (entries: seq<StoredEntry>)
    ensures |entries| == 2 && entries[0].question == entries[1].question == "q"
    ensures entries[0].answer == "a1" && entries[1].answer == "a2"
  {
    var storage := new LocalStorage();
    var slot := new ServiceSlot();
    var mock := Extractor(t => Tensor([1.0], [1, 1]));
    var r1 := AddEntry(storage, slot, Ready(mock), "q", "a1");
    var r2 := AddEntry(storage, slot, Ready(mock), "q", "a2");
    entries := GetEntries(storage);
  }
}
