# type-once: the semantic matching service, modelled in Dafny

type-once stores question/answer pairs together with a vector embedding of the
question. For a newly seen question it suggests the stored answer whose
question is most similar. This project models the service layer that does
that work:

- **Lazy singleton embedder** (`src/services/embedding.ts`), in `embedding.dfy`.
  - `ServiceSlot` holds the static `instance`.
  - `EmbeddingService` holds the `extractor`. The extractor is loaded by the
    first `initialize` that finds it `null`.
  - `embed` initialises first, then throws "Embedding model not initialized."
    when no extractor is present.
  - The field has three states: `null`, `undefined` and a loaded pipeline.
    `initialize` reloads only on `=== null` (line 33), while `embed` rejects
    any falsy value (line 46). So a loader that resolves to `undefined`
    leaves the service unusable for good, while one that resolves to `null`
    is retried on the next call.
  - The pipeline loader belongs to a foreign library. Each call's outcome is a
    parameter `LoadOutcome`:
    - it resolves to a pipeline;
    - it resolves to `null`;
    - it resolves to `undefined`;
    - or it rejects.
  - A loaded pipeline is an opaque function from text to a tensor.
- **Best-match selection** (`src/services/vectorSearch.ts`), in `vector_search.dfy`.
  - `dotProduct` and `magnitude` are loops proved against the recursive
    specification functions `Dot` and `SumSq`.
  - `cosineSimilarity` has a zero guard. A vector read past its end yields
    JavaScript `NaN`, which no comparison selects.
  - `findBestMatch` does a first-strict-maximum scan starting from -1, then
    applies the 0.7 threshold. The scan is proved against `IsBestMatch`.
  - `similarity_bounds.dfy` proves two claims from the doc comment of
    `cosineSimilarity`:
    - the similarity lies in [-1, 1], via the Cauchy-Schwarz inequality;
    - a vector is 1-similar to itself.
- **Entry store** (`src/services/storage.ts`), in `storage.dfy`.
  - `chrome.storage.local` is a class `LocalStorage` with a map of items.
  - `getEntries` reads the list stored under `"entries"`, or `[]`.
  - `addEntry` embeds, reads, appends and writes back.
- **Shared types** (`src/types.ts`) are in `types.dfy`.
- **Concrete cases** from the repository's tests are in `scenarios.dfy`.

`Math.sqrt` is a parameter `sqrt: real -> real`. Properties that need it to be
the square root require `IsSqrt(sqrt)`. Numbers are reals.

Two behaviours of the code are worth stating, because the rest of the
program might suggest otherwise:

- `App.tsx` renders the saved list keyed by `entry.question`, as if questions
  were unique. `addEntry` nevertheless always appends, even for a question
  already stored. `AppendNeverDeduplicates` states this.
- `initialize` checks `extractor === null` before an `await`, so concurrent
  first calls can each load the pipeline. The model covers sequential calls
  only. In that setting the model is loaded at most once per instance:
  `Valid()` ties the ghost `modelLoads` to the presence of a loaded pipeline.

## Model

| member | source | states |
|---|---|---|
| Embedding.EmbeddingService.constructor | src/services/embedding.ts:11-16 | A new service holds `null` and has never called the loader. |
| Embedding.EmbeddingService.Initialize | src/services/embedding.ts:32-37 | Calls the loader exactly when the field is `null` and assigns what it resolves to (`null`, `undefined` or a pipeline). A field that is not `null` is never reassigned. A rejection propagates and assigns nothing. The model is loaded at most once per instance (`Valid`). |
| Embedding.EmbeddingService.Embed | src/services/embedding.ts:44-52 | Initialises first. If a pipeline is present, returns its output `data` for exactly `text`. Otherwise it returns the loader's rejection when the loader was called and rejected, and "Embedding model not initialized." in every other case, including a field already `undefined`. |
| Embedding.ServiceSlot.GetInstance | src/services/embedding.ts:21-26 | Creates a fresh, unloaded service when the slot is empty, and otherwise returns the object already stored. |
| VectorSearch.SumSq | src/services/vectorSearch.ts:20-26 | The sum of squares that `magnitude` takes the root of is never negative. |
| VectorSearch.DotProduct | src/services/vectorSearch.ts:9-15 | The accumulated sum equals `Dot(vecA, vecB)` when `vecB` is at least as long as `vecA`, and is NaN otherwise. |
| VectorSearch.Magnitude | src/services/vectorSearch.ts:20-26 | Returns the square root of `SumSq(vec)`. |
| VectorSearch.CosineSimilarity | src/services/vectorSearch.ts:32-38 | Returns `Cosine`: 0 without dividing when either magnitude is 0, and dot / (magA * magB) otherwise. |
| VectorSearch.SelectMatch | src/services/vectorSearch.ts:57-74 | The result satisfies `IsBestMatch`. It is none exactly when no entry reaches 0.7. Otherwise it is the first entry of highest similarity, and that similarity is at least 0.7. |
| VectorSearch.FindBestMatch | src/services/vectorSearch.ts:46-75 | An empty list gives no match and leaves the service untouched. Otherwise the singleton embeds the question, an embedding error propagates, and the result is the best match for the question's embedding. |
| VectorSearch.SumSqPositive | src/services/vectorSearch.ts:20-26 | One non-zero component makes the sum of squares positive. |
| VectorSearch.SumSqOfZeros | src/services/vectorSearch.ts:20-26 | An all-zero vector has sum of squares 0. |
| VectorSearch.SumSqZeroIff | src/services/vectorSearch.ts:20-26 | The sum of squares is 0 if and only if every component is 0. |
| VectorSearch.SqrtZeroIff | src/services/vectorSearch.ts:25 | The square root is 0 exactly at 0. |
| VectorSearch.MagnitudeZeroIff | src/services/vectorSearch.ts:20-26 | A magnitude is 0 if and only if every component is 0. |
| VectorSearch.ZeroVectorScoresZero | src/services/vectorSearch.ts:36 | An all-zero vector has similarity 0 with every vector, on either side. |
| VectorSearch.DotReadsPrefix | src/services/vectorSearch.ts:11-13 | The dot product reads `vecB` only at the indices of `vecA`. |
| VectorSearch.DotSymmetric | src/services/vectorSearch.ts:9-15 | On vectors of equal length the dot product is symmetric. |
| VectorSearch.CosineSymmetric | src/services/vectorSearch.ts:32-38 | On vectors of equal length cosine similarity is symmetric. |
| VectorSearch.BestMatchIsUnique | src/services/vectorSearch.ts:57-74 | At most one result satisfies `IsBestMatch`, so the scan's answer is determined. |
| VectorSearch.BestMatchCharacterised | src/services/vectorSearch.ts:57-74 | There is a match if and only if some entry reaches the threshold. A match is one of the stored entries, meets the threshold, and is at least as similar as every entry with a numeric similarity. |
| SimilarityBounds.CauchySchwarz | src/services/vectorSearch.ts:9-26 | For vectors of equal length, `Dot(a, b)^2 <= SumSq(a) * SumSq(b)`. |
| SimilarityBounds.DotProductBounded | src/services/vectorSearch.ts:37 | With non-zero magnitudes, the quotient dot / (magA * magB) lies in [-1, 1]. |
| SimilarityBounds.CosineBounded | src/services/vectorSearch.ts:28-38 | Whenever the similarity is a number, it lies in [-1, 1]. |
| SimilarityBounds.CosineSelf | src/services/vectorSearch.ts:28-38 | A vector is 1-similar to itself unless all its components are 0, in which case it is 0-similar. |
| Storage.Appended | src/services/storage.ts:43-49 | After the write-back, the entry list read back is the old list followed by the new entry, and every other key is unchanged. |
| Storage.GetEntries | src/services/storage.ts:15-21 | Returns the stored list when one is stored under `"entries"`, and `[]` when the key is absent or `null`. |
| Storage.CopyVector | src/services/storage.ts:38-39 | `Array.from` gives an element-for-element copy of the same length. |
| Storage.AddEntry | src/services/storage.ts:28-54 | Embeds exactly `question`. On an embedding error nothing is written. Otherwise the storage becomes `Appended(old, {question, answer, embedding})`. |
| Storage.QuestionCountConcat | src/services/storage.ts:46 | The count of entries for a question over a concatenation is the sum of the counts. |
| Storage.AppendNeverDeduplicates | src/services/storage.ts:46 | Saving a question raises its count by exactly one, even when it is already stored, and leaves other questions' counts unchanged. |
| Scenarios.EmailQueryMatchesEmailEntry | src/services/__tests__/vectorSearch.test.ts:26-33 | With the test's mocked embeddings, "e-mail" best-matches the "email address" entry. |
| Scenarios.UnrelatedQueryMatchesNothing | src/services/__tests__/vectorSearch.test.ts:35-40 | An orthogonal query matches nothing. |
| Scenarios.FindEmailScenario | src/services/__tests__/vectorSearch.test.ts:20-33 | `findBestMatch("e-mail", entries)` returns the email entry. |
| Scenarios.FindNothingScenario | src/services/__tests__/vectorSearch.test.ts:35-40 | `findBestMatch("favorite color", entries)` returns no match. |
| Scenarios.ThresholdIsInclusive | src/services/vectorSearch.ts:69-74 | A best similarity of exactly 0.7 is returned. |
| Scenarios.BelowThresholdIsRejected | src/services/vectorSearch.ts:69-72 | A best similarity of 0.6 gives no match. |
| Scenarios.ShortEmbeddingIsSkipped | src/services/vectorSearch.ts:11-13 | A shorter stored embedding of non-zero magnitude scores NaN against a non-zero query and is passed over in favour of a later entry. |
| Scenarios.EmbedScenario | src/services/__tests__/embedding.test.ts:29-41 | With the mocked pipeline, `embed` returns 384 components, with component 0 equal to 0 and component 1 equal to 0.001. |
| Scenarios.SingletonScenario | src/services/__tests__/embedding.test.ts:43-47 | Two `getInstance` calls return the same object. |
| Scenarios.LoadOnceScenario | src/services/embedding.ts:32-37 | A second `embed` reuses the loaded pipeline, whatever the loader would do. |
| Scenarios.NotInitializedScenario | src/services/embedding.ts:46-48 | A loader that resolves to `null` makes `embed` throw "Embedding model not initialized.". |
| Scenarios.NullRetriesScenario | src/services/embedding.ts:33-35 | After a `null` resolution the next `embed` calls the loader again and returns the pipeline's output. |
| Scenarios.UndefinedIsPermanentScenario | src/services/embedding.ts:33-48 | After an `undefined` resolution every later `embed` throws "Embedding model not initialized.", whatever the loader would now return. |
| Scenarios.GetEntriesScenario | src/services/__tests__/storage.test.ts:47-54 | Stored entries are read back unchanged. |
| Scenarios.AddEntryScenario | src/services/__tests__/storage.test.ts:56-84 | `addEntry` on an empty store saves one entry with the given question, answer and embedding. |
| Scenarios.DuplicateScenario | src/services/storage.ts:43-46 | Saving the same question twice keeps both entries, in order. |

## Left out

- Floating point: numbers are reals, so `Float32Array` rounding and the 32-to-64-bit widening in `Array.from` are not modelled. Infinities do not arise from finite real inputs and are not modelled.
- `Math.sqrt` is a parameter. The bound and zero properties assume it is the real square root (`IsSqrt`).
- The `@xenova/transformers` pipeline and its options (mean pooling, normalisation) are foreign code. A loaded pipeline is an opaque function of the text and never throws. The tensor's `dims` is carried but not used.
- Promises, `await` and the `chrome.storage.local` callbacks: every operation runs to completion in sequence. Storage read and write failures are not reported by the source and are not modelled.
- Concurrent `initialize` calls: the source does not make them single-flight, and the model covers sequential calls only.
- The static `instance` is an explicit `ServiceSlot` object passed to `FindBestMatch` and `AddEntry`. Resetting it in the tests becomes a fresh slot.
- Storage.GetEntries: `data.entries || []` also maps `false`, `0` and `""` to `[]`, and returns a non-list truthy value as is. The model's storage holds only a list or `null` under `"entries"` (`LocalStorage.Valid`).
- `console.log` in `addEntry` is left out.
- The UI and content-script files, the `deleteEntry` that `App.tsx` calls (it does not exist in the store), and the submission listener are not part of this model.
