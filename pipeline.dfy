/**
 * The batch pipeline: async operations are registered against a shared current
 * batch. Registration is retried a bounded number of times when the batch was
 * executed under the caller's feet (or was missing); after a registration the
 * shared counter is incremented, and the caller whose increment reaches a
 * multiple of the batch size swaps in a fresh batch and executes the old one.
 *
 * The model is sequential. The outcome of each registration attempt comes from
 * an oracle (a sequence of Attempt values), which is how a concurrent swap by
 * another thread shows up to this caller.
 */
module BatchPipeline {
  import opened CacheTypes
  import opened JavaSemantics
  import opened Futures

  /** NUM_BATCH_RETRIES. */
  const NumBatchRetries: nat := 5

  /** The message by which the store client reports a batch that was already executed. */
  const RaceSignal: string := "Batch already has been executed"

  const RetriesExhausted: string := "Batch operation failed despite trying 5 times"

  /** The NullPointerException raised when an IllegalStateException has no message. */
  const NullMessage: string := "IllegalStateException.getMessage() is null"

  const DivideByZero: string := "/ by zero"

  /** The outcome of one attempt to register an operation against the current batch. */
  datatype Attempt = Registered | Threw(failure: Failure)

  /** What the retry loop does with a failed attempt. */
  datatype Handling = Retry | Rethrow(failure: Failure)

  /**
   * The two catch clauses of the retry loop: an IllegalStateException whose
   * message contains the race signal, and any NullPointerException, are
   * retried; any other IllegalStateException is rethrown (and one without a
   * message turns into a NullPointerException when its message is inspected);
   * every other exception passes through untouched.
   */
  function Classify(f: Failure): (h: Handling)
    ensures h.Retry? <==> f.NullPointer? || (f.IllegalState? && f.detail.Some? && Contains(f.detail.value, RaceSignal))
    ensures h.Rethrow? && f.IllegalState? && f.detail.None? ==> h.failure == NullPointer(NullMessage)
    ensures h.Rethrow? && !(f.IllegalState? && f.detail.None?) ==> h.failure == f
  {
    match f
    case IllegalState(detail) =>
      if detail.None? then Rethrow(NullPointer(NullMessage))
      else if Contains(detail.value, RaceSignal) then Retry
      else Rethrow(f)
    case NullPointer(_) => Retry
    case _ => Rethrow(f)
  }

  predicate Retryable(a: Attempt) {
    a.Threw? && Classify(a.failure).Retry?
  }

  /** How the retry loop ends: registered on attempt `tries`, or thrown after `tries` attempts. */
  datatype Verdict = Succeeded(tries: nat) | Aborted(tries: nat, failure: Failure)

  /** The retry loop of performBatchOperation from attempt number i + 1 on. */
  function RetryVerdict(attempts: seq<Attempt>, i: nat): (v: Verdict)
    requires |attempts| >= NumBatchRetries && i < NumBatchRetries
    ensures i < v.tries <= NumBatchRetries
    decreases NumBatchRetries - i
  {
    match attempts[i]
    case Registered => Succeeded(i + 1)
    case Threw(f) =>
      match Classify(f)
      case Rethrow(g) => Aborted(i + 1, g)
      case Retry =>
        if i + 1 == NumBatchRetries then Aborted(NumBatchRetries, BatchProcessing(RetriesExhausted))
        else RetryVerdict(attempts, i + 1)
  }

  /**
   * Registration succeeds on attempt k exactly when attempt k registers and
   * every attempt before it failed in a retryable way.
   */
  lemma {:induction false} SucceededExactly(attempts: seq<Attempt>, i: nat, k: nat)
    requires |attempts| >= NumBatchRetries && i < NumBatchRetries
    ensures RetryVerdict(attempts, i) == Succeeded(k) <==>
      i < k <= NumBatchRetries && attempts[k - 1].Registered? &&
      forall j :: i <= j < k - 1 ==> Retryable(attempts[j])
    decreases NumBatchRetries - i
  {
    if attempts[i].Threw? && Classify(attempts[i].failure).Retry? && i + 1 < NumBatchRetries {
      SucceededExactly(attempts, i + 1, k);
    }
  }

  /** Five retryable failures in a row end in the "failed despite trying 5 times" error. */
  lemma {:induction false} RetriesExhaust(attempts: seq<Attempt>, i: nat)
    requires |attempts| >= NumBatchRetries && i < NumBatchRetries
    requires forall j :: i <= j < NumBatchRetries ==> Retryable(attempts[j])
    ensures RetryVerdict(attempts, i) == Aborted(NumBatchRetries, BatchProcessing(RetriesExhausted))
    decreases NumBatchRetries - i
  {
    if i + 1 < NumBatchRetries {
      RetriesExhaust(attempts, i + 1);
    }
  }

  /**
   * A failure that is not retryable is thrown straight after the attempt that
   * raised it; in particular a first attempt failing that way is the only one.
   */
  lemma {:induction false} RethrownImmediately(attempts: seq<Attempt>, i: nat, k: nat, g: Failure)
    requires |attempts| >= NumBatchRetries && i <= k < NumBatchRetries
    requires forall j :: i <= j < k ==> Retryable(attempts[j])
    requires attempts[k].Threw? && Classify(attempts[k].failure) == Rethrow(g)
    ensures RetryVerdict(attempts, i) == Aborted(k + 1, g)
    decreases k - i
  {
    if i < k {
      RethrownImmediately(attempts, i + 1, k, g);
    }
  }

  /** Four races followed by a registration succeed on the fifth attempt. */
  lemma FourRacesThenSuccess()
    ensures var race := Threw(IllegalState(Some(RaceSignal)));
      RetryVerdict([race, race, race, race, Registered], 0) == Succeeded(5)
  {
    assert StartsWith(RaceSignal, RaceSignal);
  }

  /** The store client's message "Batch already has been executed!" is recognised as the race. */
  lemma RaceMessageIsRetried()
    ensures Classify(IllegalState(Some("Batch already has been executed!"))) == Retry
  {
    var m := "Batch already has been executed!";
    assert m[..|RaceSignal|] == RaceSignal;
    assert StartsWith(m, RaceSignal);
  }

  /** An unrelated IllegalStateException is rethrown as it is. */
  lemma UnexpectedStateIsRethrown()
    ensures var f := IllegalState(Some("This is something we are not expecting"));
      Classify(f) == Rethrow(f)
  {
    AbsentFirstChar("This is something we are not expecting", RaceSignal);
  }

  /**
   * The store client reporting an executed batch on every attempt: five
   * attempts, then the "failed despite trying 5 times" error.
   */
  lemma RaceOnEveryAttempt(attempts: seq<Attempt>)
    requires |attempts| >= NumBatchRetries
    requires forall j :: 0 <= j < NumBatchRetries ==> attempts[j] == Threw(IllegalState(Some("Batch already has been executed!")))
    ensures RetryVerdict(attempts, 0) == Aborted(5, BatchProcessing(RetriesExhausted))
  {
    RaceMessageIsRetried();
    RetriesExhaust(attempts, 0);
  }

  /** An unexpected IllegalStateException on the first attempt is thrown after that one attempt. */
  lemma UnexpectedOnFirstAttempt(attempts: seq<Attempt>)
    requires |attempts| >= NumBatchRetries
    requires attempts[0] == Threw(IllegalState(Some("This is something we are not expecting")))
    ensures RetryVerdict(attempts, 0) == Aborted(1, IllegalState(Some("This is something we are not expecting")))
  {
    UnexpectedStateIsRethrown();
  }

  // ---------------------------------------------------------------- state

  /** The pipeline's fields: current batch, shared counter, batch size and the batches handed to execution. */
  datatype PipelineState = PipelineState(
    currentBatch: seq<BatchOp>,
    batchCount: int,
    batchSize: int,
    executed: seq<seq<BatchOp>>)

  /** Counter and batch size are Java ints. */
  predicate WellFormed(s: PipelineState) {
    IsInt(s.batchCount) && IsInt(s.batchSize)
  }

  /** The result of a state-changing step: what the caller sees and the new state. */
  datatype Step = Step(outcome: Result<Unit>, state: PipelineState)

  function Flatten(batches: seq<seq<BatchOp>>): seq<BatchOp> {
    if |batches| == 0 then [] else Flatten(batches[..|batches| - 1]) + batches[|batches| - 1]
  }

  lemma FlattenSnoc(batches: seq<seq<BatchOp>>, b: seq<BatchOp>)
    ensures Flatten(batches + [b]) == Flatten(batches) + b
  {
    assert (batches + [b])[..|batches|] == batches;
  }

  /** Every operation ever registered, in order: the executed batches, then the current one. */
  function Accepted(s: PipelineState): seq<BatchOp> {
    Flatten(s.executed) + s.currentBatch
  }

  /**
   * startBatch: a fresh empty batch becomes current, and the counter is reset
   * to 0 only by a compare-and-set from exactly the batch size.
   */
  function Restarted(s: PipelineState): PipelineState {
    s.(currentBatch := [], batchCount := if s.batchCount == s.batchSize then 0 else s.batchCount)
  }

  /**
   * advanceBatchState: increment the counter; when the new count is a multiple
   * of the batch size, retire the current batch to execution and start a new
   * one. A batch size of 0 makes the `%` throw after the increment.
   */
  function Advance(s: PipelineState): (r: Step)
    requires WellFormed(s)
    ensures WellFormed(r.state) && r.state.batchSize == s.batchSize
    ensures r.outcome.Ok? <==> s.batchSize != 0
    ensures Accepted(r.state) == Accepted(s)
    ensures var c := IncrementInt(s.batchCount);
      var retire := s.batchSize != 0 && JavaRem(c, s.batchSize) == 0;
      && (retire ==> r.state.executed == s.executed + [s.currentBatch] && r.state.currentBatch == [])
      && (!retire ==> r.state.executed == s.executed && r.state.currentBatch == s.currentBatch)
      && r.state.batchCount == (if retire && c == s.batchSize then 0 else c)
  {
    var size := IncrementInt(s.batchCount);
    var counted := s.(batchCount := size);
    if s.batchSize == 0 then Step(Err(Arithmetic(DivideByZero)), counted)
    else if JavaRem(size, s.batchSize) == 0 then
      FlattenSnoc(s.executed, s.currentBatch);
      Step(Ok(Unit), Restarted(counted).(executed := s.executed + [s.currentBatch]))
    else Step(Ok(Unit), counted)
  }

  /**
   * performBatchOperation: the retry loop, then (after a registration) the
   * counter advance. When the loop throws, the state is left as it was.
   */
  function Perform(s: PipelineState, op: BatchOp, attempts: seq<Attempt>): (r: Step)
    requires WellFormed(s) && |attempts| >= NumBatchRetries
    ensures WellFormed(r.state) && r.state.batchSize == s.batchSize
    ensures RetryVerdict(attempts, 0).Aborted? ==> r.outcome.Err? && r.state == s
    ensures RetryVerdict(attempts, 0).Succeeded? ==>
      r.state.batchCount == IncrementInt(s.batchCount) || r.state.batchCount == 0
  {
    match RetryVerdict(attempts, 0)
    case Aborted(_, f) => Step(Err(f), s)
    case Succeeded(_) => Advance(s.(currentBatch := s.currentBatch + [op]))
  }

  /** An operation is in the pipeline exactly when its registration succeeded, appended after all earlier ones. */
  lemma PerformConserves(s: PipelineState, op: BatchOp, attempts: seq<Attempt>)
    requires WellFormed(s) && |attempts| >= NumBatchRetries
    ensures Accepted(Perform(s, op, attempts).state) ==
      Accepted(s) + if RetryVerdict(attempts, 0).Succeeded? then [op] else []
  {
  }

  /**
   * The single-threaded invariant while the batch size stays put: the counter
   * is below the batch size and equals the size of the current batch, and every
   * executed batch holds exactly batchSize operations (so never fewer).
   */
  predicate Steady(s: PipelineState) {
    && WellFormed(s)
    && 0 < s.batchSize
    && 0 <= s.batchCount < s.batchSize
    && |s.currentBatch| == s.batchCount
    && forall b :: b in s.executed ==> |b| == s.batchSize
  }

  /** Remainders of small counts: Java's `%` is zero on 1..b only at b itself. */
  lemma RemOfCount(a: int, b: int)
    requires 0 < a <= b
    ensures JavaRem(a, b) == 0 <==> a == b
  {
    if a < b {
      assert a % b == a;
    } else {
      assert a % b == 0;
    }
  }

  /**
   * The counter advance right after a registration from a steady state: the
   * counter becomes (count + 1) mod batchSize, and exactly when it wraps, the
   * current batch is executed as a batch of batchSize operations.
   */
  lemma AdvanceAfterRegistration(s: PipelineState)
    requires WellFormed(s) && 0 < s.batchSize && 0 <= s.batchCount < s.batchSize
    requires |s.currentBatch| == s.batchCount + 1
    requires forall b :: b in s.executed ==> |b| == s.batchSize
    ensures var r := Advance(s);
      && r.outcome.Ok?
      && Steady(r.state)
      && (s.batchCount + 1 == s.batchSize ==> r.state.executed == s.executed + [s.currentBatch] && r.state.currentBatch == [])
      && (s.batchCount + 1 < s.batchSize ==> r.state.executed == s.executed && r.state.currentBatch == s.currentBatch)
  {
    RemOfCount(s.batchCount + 1, s.batchSize);
  }

  /**
   * One performBatchOperation from a steady state keeps it steady. After a
   * registration the counter becomes (count + 1) mod batchSize, and exactly
   * when it wraps, the current batch with the new operation is executed as a
   * batch of batchSize operations.
   */
  lemma PerformKeepsSteady(s: PipelineState, op: BatchOp, attempts: seq<Attempt>)
    requires Steady(s) && |attempts| >= NumBatchRetries
    ensures var r := Perform(s, op, attempts);
      && Steady(r.state)
      && (r.outcome.Ok? <==> RetryVerdict(attempts, 0).Succeeded?)
      && (r.outcome.Err? ==> r.state == s)
      && (r.outcome.Ok? ==> r.state.batchCount == if s.batchCount + 1 == s.batchSize then 0 else s.batchCount + 1)
      && (r.outcome.Ok? && s.batchCount + 1 == s.batchSize ==>
            r.state.executed == s.executed + [s.currentBatch + [op]] && r.state.currentBatch == [])
      && (r.outcome.Ok? && s.batchCount + 1 < s.batchSize ==>
            r.state.executed == s.executed && r.state.currentBatch == s.currentBatch + [op])
  {
    if RetryVerdict(attempts, 0).Succeeded? {
      AdvanceAfterRegistration(s.(currentBatch := s.currentBatch + [op]));
    }
  }

  /** The pipeline as initialisation leaves it. */
  function Fresh(batchSize: int): PipelineState {
    PipelineState([], 0, batchSize, [])
  }

  lemma FreshIsSteady(batchSize: int)
    requires 0 < batchSize <= IntMax
    ensures Steady(Fresh(batchSize))
  {
  }

  predicate AttemptsFor(ops: seq<BatchOp>, attempts: seq<seq<Attempt>>) {
    |attempts| == |ops| && forall i :: 0 <= i < |attempts| ==> |attempts[i]| >= NumBatchRetries
  }

  /** A sequence of performBatchOperation calls, each with its own attempt outcomes. */
  function RunAll(s: PipelineState, ops: seq<BatchOp>, attempts: seq<seq<Attempt>>): (r: PipelineState)
    requires WellFormed(s) && AttemptsFor(ops, attempts)
    ensures WellFormed(r) && r.batchSize == s.batchSize
    decreases |ops|
  {
    if |ops| == 0 then s
    else RunAll(Perform(s, ops[0], attempts[0]).state, ops[1..], attempts[1..])
  }

  /** The operations whose registration succeeded, in call order. */
  function Registrations(ops: seq<BatchOp>, attempts: seq<seq<Attempt>>): seq<BatchOp>
    requires AttemptsFor(ops, attempts)
    decreases |ops|
  {
    if |ops| == 0 then []
    else (if RetryVerdict(attempts[0], 0).Succeeded? then [ops[0]] else []) + Registrations(ops[1..], attempts[1..])
  }

  /**
   * Over any run of calls, the executed batches followed by the current one
   * hold exactly the registered operations, each once and in order; no
   * operation whose registration failed appears.
   */
  lemma {:induction false} RunAllConserves(s: PipelineState, ops: seq<BatchOp>, attempts: seq<seq<Attempt>>)
    requires WellFormed(s) && AttemptsFor(ops, attempts)
    ensures Accepted(RunAll(s, ops, attempts)) == Accepted(s) + Registrations(ops, attempts)
    decreases |ops|
  {
    if |ops| > 0 {
      PerformConserves(s, ops[0], attempts[0]);
      RunAllConserves(Perform(s, ops[0], attempts[0]).state, ops[1..], attempts[1..]);
    }
  }

  /** Over any run of calls from a steady state, the state stays steady: every executed batch holds batchSize operations. */
  lemma {:induction false} RunAllKeepsSteady(s: PipelineState, ops: seq<BatchOp>, attempts: seq<seq<Attempt>>)
    requires Steady(s) && AttemptsFor(ops, attempts)
    ensures Steady(RunAll(s, ops, attempts))
    decreases |ops|
  {
    if |ops| > 0 {
      PerformKeepsSteady(s, ops[0], attempts[0]);
      var next := Perform(s, ops[0], attempts[0]).state;
      assert Steady(next);
      RunAllKeepsSteady(next, ops[1..], attempts[1..]);
    }
  }

  // ---------------------------------------------------------------- class

  /** The pipeline fields of the cache facade. */
  class Pipeline {
    var currentBatch: seq<BatchOp>
    var batchCount: int
    var batchSize: int
    var executed: seq<seq<BatchOp>>

    function State(): PipelineState
      reads this
    {
      PipelineState(currentBatch, batchCount, batchSize, executed)
    }

    ghost predicate Valid()
      reads this
    {
      WellFormed(State())
    }

    /** Field initialisation with the configured batch size, then startBatch at post-construction. */
    constructor (size: int)
      requires IsInt(size)
      ensures Valid() && State() == Fresh(size)
    {
      currentBatch, batchCount, batchSize, executed := [], 0, size, [];
      new;
      StartBatch();
    }

    /** setBatchSize: only the batch size changes; the counter is not touched. */
    method SetBatchSize(size: int)
      requires Valid() && IsInt(size)
      modifies this
      ensures Valid() && State() == old(State()).(batchSize := size)
    {
      batchSize := size;
    }

    method StartBatch()
      requires Valid()
      modifies this
      ensures Valid() && State() == Restarted(old(State()))
    {
      currentBatch := [];
      if batchCount == batchSize {
        batchCount := 0;
      }
    }

    method AdvanceBatchState() returns (r: Result<Unit>)
      requires Valid()
      modifies this
      ensures Valid() && Step(r, State()) == Advance(old(State()))
    {
      var size := IncrementInt(batchCount);
      batchCount := size;
      if batchSize == 0 {
        r := Err(Arithmetic(DivideByZero));
        return;
      }
      if JavaRem(size, batchSize) == 0 {
        var existing := currentBatch;
        StartBatch();
        executed := executed + [existing];
      }
      r := Ok(Unit);
    }

    /**
     * performBatchOperation: up to NumBatchRetries registration attempts, then
     * the counter advance. `tries` is the number of attempts made.
     */
    method PerformBatchOperation(op: BatchOp, attempts: seq<Attempt>) returns (r: Result<Unit>, tries: nat)
      requires Valid() && |attempts| >= NumBatchRetries
      modifies this
      ensures Valid() && Step(r, State()) == Perform(old(State()), op, attempts)
      ensures tries == RetryVerdict(attempts, 0).tries
    {
      var i := 1;
      tries := 0;
      while i <= NumBatchRetries
        invariant 1 <= i <= NumBatchRetries
        invariant tries == i - 1
        invariant State() == old(State())
        invariant RetryVerdict(attempts, i - 1) == RetryVerdict(attempts, 0)
        decreases NumBatchRetries - i
      {
        tries := i;
        match attempts[i - 1]
        case Registered =>
          currentBatch := currentBatch + [op];
          break;
        case Threw(f) =>
          match Classify(f)
          case Rethrow(g) =>
            r := Err(g);
            return;
          case Retry =>
            if i == NumBatchRetries {
              r := Err(BatchProcessing(RetriesExhausted));
              return;
            }
            i := i + 1;
      }
      r := AdvanceBatchState();
    }
  }
}
