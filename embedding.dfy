/** The lazily initialised embedder (src/services/embedding.ts): a singleton
    service whose feature-extraction pipeline is loaded on first use. The
    pipeline and its loader belong to a foreign library; the loader's outcome
    for one call is a parameter, and a loaded pipeline is an opaque function of
    the text. */
module Embedding {
  import opened Types

  /** What the pipeline returns for one text: the flat data and its shape. */
  datatype Tensor = Tensor(data: Vector, dims: seq<nat>)

  /** A loaded feature-extraction pipeline. */
  datatype Extractor = Extractor(run: string -> Tensor)

  /** What one call of the pipeline loader does: resolve to a pipeline,
      resolve to `null`, resolve to `undefined`, or reject. */
  datatype LoadOutcome =
    | Ready(extractor: Extractor)
    | ResolvedNull
    | ResolvedUndefined
    | Rejected(reason: string)

  /** The `extractor` field: `null` as initialised, `undefined` when the
      loader resolved to it, or a loaded pipeline. `initialize` tests
      `=== null`, while `embed` tests falsiness, so the two empty states
      behave differently. */
  datatype ExtractorField = Null | Undefined | Loaded(pipeline: Extractor)

  /** Errors `embed` throws: the loader's own rejection, propagated by
      `initialize`, or the service's check that an extractor is present. */
  datatype EmbedError = LoadFailed(reason: string) | NotInitialized

  const NotInitializedMessage: string := "Embedding model not initialized."

  /** The message of the thrown error. */
  function Message(e: EmbedError): string {
    match e
    case LoadFailed(reason) => reason
    case NotInitialized => NotInitializedMessage
  }

  /** The field a loader call assigns; a rejection assigns nothing. */
  function LoadedBy(load: LoadOutcome): ExtractorField {
    match load
    case Ready(p) => Loaded(p)
    case ResolvedNull => Null
    case ResolvedUndefined => Undefined
    case Rejected(_) => Null
  }

  /** The field after `initialize`: the loader runs only on `null`. */
  function AfterInit(before: ExtractorField, load: LoadOutcome): ExtractorField {
    if before.Null? then LoadedBy(load) else before
  }

  /** The error `embed` throws when no pipeline is present afterwards: the
      loader's rejection if it was called and rejected, and otherwise the
      service's own check. */
  function EmbedFailure(before: ExtractorField, load: LoadOutcome): EmbedError {
    if before.Null? && load.Rejected? then LoadFailed(load.reason) else NotInitialized
  }

  class EmbeddingService {
    /** `extractor`: `null` until the loader resolves, never reassigned once
        it is not `null`. */
    var extractor: ExtractorField
    /** How often this instance has invoked the pipeline loader. */
    ghost var loaderCalls: nat
    /** How many of those invocations produced a pipeline. */
    ghost var modelLoads: nat

    /** The model is in memory exactly when it was loaded, and it is loaded at
        most once per instance. */
    ghost predicate Valid()
      reads this
    {
      modelLoads == (if extractor.Loaded? then 1 else 0) && modelLoads <= loaderCalls
    }

    /** The private constructor: a fresh service holds `null`. */
    constructor ()
      ensures Valid()
      ensures extractor == Null && loaderCalls == 0 && modelLoads == 0
    {
      extractor := Null;
      loaderCalls := 0;
      modelLoads := 0;
    }

    /** Invokes the loader only while the field is `null` and assigns what it
        resolves to; a rejection propagates and assigns nothing. */
    method Initialize(load: LoadOutcome) returns (r: Result<(), EmbedError>)
      requires Valid()
      modifies this
      ensures Valid()
      ensures extractor == AfterInit(old(extractor), load)
      ensures loaderCalls == old(loaderCalls) + (if old(extractor).Null? then 1 else 0)
      ensures r == (if old(extractor).Null? && load.Rejected? then Failure(LoadFailed(load.reason)) else Success(()))
    {
      r := Success(());
      if extractor == Null {
        loaderCalls := loaderCalls + 1;
        match load
        case Ready(p) =>
          extractor := Loaded(p);
          modelLoads := modelLoads + 1;
        case ResolvedNull =>
          extractor := Null;
        case ResolvedUndefined =>
          extractor := Undefined;
        case Rejected(reason) =>
          r := Failure(LoadFailed(reason));
      }
    }

    /** Initialises first, throws if there is still no pipeline (`null` or
        `undefined`), and otherwise returns the pipeline output's data for
        `text`. */
    method Embed(text: string, load: LoadOutcome) returns (r: Result<Vector, EmbedError>)
      requires Valid()
      modifies this
      ensures Valid()
      ensures extractor == AfterInit(old(extractor), load)
      ensures loaderCalls == old(loaderCalls) + (if old(extractor).Null? then 1 else 0)
      ensures extractor.Loaded? ==> r == Success(extractor.pipeline.run(text).data)
      ensures !extractor.Loaded? ==> r == Failure(EmbedFailure(old(extractor), load))
    {
      var init := Initialize(load);
      if init.Failure? {
        return Failure(init.error);
      }
      if !extractor.Loaded? {
        return Failure(NotInitialized);
      }
      var result := extractor.pipeline.run(text);
      return Success(result.data);
    }
  }

  /** The static `EmbeddingService.instance` slot. */
  class ServiceSlot {
    var instance: EmbeddingService?

    ghost predicate Valid()
      reads this, instance
    {
      instance != null ==> instance.Valid()
    }

    /** Module load: the slot starts out empty. */
    constructor ()
      ensures Valid() && instance == null
    {
      instance := null;
    }

    /** Creates the service on the first call and returns the same object on
        every later one. */
    method GetInstance() returns (s: EmbeddingService)
      requires Valid()
      modifies this
      ensures Valid() && instance == s
      ensures old(instance) != null ==> s == old(instance)
      ensures old(instance) == null ==>
        fresh(s) && s.extractor == Null && s.loaderCalls == 0 && s.modelLoads == 0
    {
      if instance == null {
        instance := new EmbeddingService();
      }
      s := instance;
    }
  }
}
