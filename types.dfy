/**
 * Values shared by every part of the cache model: Java's nullable references
 * (Option), thrown exceptions (Result / Failure), the values a cache holds and
 * the states a returned future can be in.
 */
module CacheTypes {

  /** A Java reference that may be null. */
  datatype Option<+T> = None | Some(value: T)

  /** A call that either returns a value or throws. */
  datatype Result<+T> = Ok(value: T) | Err(error: Failure)

  /** Nothing useful returned (a Java `void` method that did not throw). */
  datatype Unit = Unit

  /**
   * A value held by the cache. Strings are kept as they are; an entity is an
   * opaque object the model only compares for equality, named by its encoded form.
   */
  datatype Value = Text(s: string) | Entity(encoded: string)

  /** A member of a scored sorted set. Scores are integers in this model. */
  datatype ScoredEntry = ScoredEntry(score: int, value: Value)

  /** The exceptions the cache facade can throw, one constructor per Java class. */
  datatype Failure =
    | NullPointer(message: string)             // NullPointerException (Objects.requireNonNull, null batch)
    | IllegalState(detail: Option<string>)     // IllegalStateException, message may be null
    | OtherRuntime(name: string)               // any other RuntimeException from the store client
    | BatchProcessing(message: string)         // RedisBatchProcessingException
    | Arithmetic(message: string)              // ArithmeticException (integer % by zero)
    | Decode(message: string)                  // DecodeException
    | IndexOutOfBounds(index: int, length: int) // IndexOutOfBoundsException from List.get
    | StoreRejected(message: string)           // an error reply from the store

  /** The observable state of a CompletableFuture handed back by an async operation. */
  datatype FutureState =
    | Pending                                  // never completed
    | Completed(mutationId: Option<string>)    // f.complete(mutationId)
    | CompletedExceptionally(error: Failure)   // f.completeExceptionally(...)
}
