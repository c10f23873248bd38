/**
 * The operations an async call queues in a batch, what the store does with
 * each when the batch executes, and how the future handed back to the caller
 * is completed from the store's answer (completeFuture and the thenAccept
 * callbacks of the async methods).
 */
module Futures {
  import opened CacheTypes
  import opened Store

  /** One operation registered against a batch, with the mutation id its future completes with. */
  datatype BatchOp =
    | SetOp(key: string, value: Value, mutationId: Option<string>)
    | SetTtlOp(key: string, value: Value, ttlMs: int, mutationId: Option<string>)
    | CasOp(key: string, expected: Value, value: Value, mutationId: Option<string>)
    | ZAddOp(key: string, score: int, value: Value, mutationId: Option<string>)
    | DeleteOp(key: string, mutationId: Option<string>)

  /** Operations whose boolean answer decides their future (compare-and-set and sorted-set add). */
  predicate ReportsOutcome(op: BatchOp) {
    op.CasOp? || op.ZAddOp?
  }

  const UpdateFailed: string := "Redis batch update failed"

  /** completeFuture: success completes with the mutation id, failure with a batch processing error. */
  function CompleteFuture(success: bool, mutationId: Option<string>): (f: FutureState)
    ensures f != Pending
    ensures f.Completed? <==> success
    ensures f.Completed? ==> f.mutationId == mutationId
    ensures f.CompletedExceptionally? ==> f.error == BatchProcessing(UpdateFailed)
  {
    if success then Completed(mutationId) else CompletedExceptionally(BatchProcessing(UpdateFailed))
  }

  /** What the store does with one operation of an executing batch. */
  function Apply(s: Store, op: BatchOp): (r: Applied)
    ensures op.SetOp? || op.DeleteOp? || ReportsOutcome(op) ==> r.reply.Ack?
  {
    match op
    case SetOp(k, v, _) => Applied(Set(s, k, v), Ack(true))
    case SetTtlOp(k, v, ttl, _) => SetWithTtl(s, k, v, ttl)
    case CasOp(k, e, v, _) => CompareAndSet(s, k, e, v)
    case ZAddOp(k, score, v, _) => ZAdd(s, k, score, v)
    case DeleteOp(k, _) => DeleteBucket(s, k)
  }

  /**
   * The state of an operation's future once the store has answered. Plain
   * sets and deletes complete with the mutation id whatever the answer;
   * compare-and-set and sorted-set add go through completeFuture. An error
   * reply never runs the callback, so the future is never completed.
   */
  function Resolve(op: BatchOp, reply: Reply): (f: FutureState)
    ensures f == Pending <==> reply.ErrorReply?
    ensures f.Completed? ==> f.mutationId == op.mutationId
    ensures f.CompletedExceptionally? <==> ReportsOutcome(op) && reply == Ack(false)
    ensures f.CompletedExceptionally? ==> f.error == BatchProcessing(UpdateFailed)
  {
    match reply
    case ErrorReply(_) => Pending
    case Ack(b) => if ReportsOutcome(op) then CompleteFuture(b, op.mutationId) else Completed(op.mutationId)
  }

  datatype Execution = Execution(store: Store, futures: seq<FutureState>)

  /** Executing a retired batch: its operations reach the store in order, one future each. */
  function ExecuteBatch(s: Store, ops: seq<BatchOp>): (r: Execution)
    ensures |r.futures| == |ops|
    decreases |ops|
  {
    if |ops| == 0 then Execution(s, [])
    else
      var first := Apply(s, ops[0]);
      var rest := ExecuteBatch(first.store, ops[1..]);
      Execution(rest.store, [Resolve(ops[0], first.reply)] + rest.futures)
  }

  /** The future of the i-th operation is decided by the store as the earlier operations left it. */
  lemma {:induction false} FutureOfOp(s: Store, ops: seq<BatchOp>, i: nat)
    requires i < |ops|
    ensures ExecuteBatch(s, ops).futures[i] == Resolve(ops[i], Apply(ExecuteBatch(s, ops[..i]).store, ops[i]).reply)
    decreases i
  {
    if i > 0 {
      var s' := Apply(s, ops[0]).store;
      FutureOfOp(s', ops[1..], i - 1);
      assert ops[..i][1..] == ops[1..][..i - 1];
      assert ops[..i][0] == ops[0];
    }
  }

  /** Plain sets, ttl sets with a positive ttl and deletes always complete with their mutation id. */
  lemma PlainWriteCompletes(s: Store, ops: seq<BatchOp>, i: nat)
    requires i < |ops|
    requires ops[i].SetOp? || ops[i].DeleteOp? || (ops[i].SetTtlOp? && ops[i].ttlMs > 0)
    ensures ExecuteBatch(s, ops).futures[i] == Completed(ops[i].mutationId)
  {
    FutureOfOp(s, ops, i);
  }

  /**
   * A compare-and-set completes with its mutation id exactly when the value
   * stored before it equals the expected value, and fails otherwise.
   */
  lemma CasFuture(s: Store, ops: seq<BatchOp>, i: nat)
    requires i < |ops| && ops[i].CasOp?
    ensures var before := ExecuteBatch(s, ops[..i]).store;
      ExecuteBatch(s, ops).futures[i] ==
        if Get(before, ops[i].key) == Some(ops[i].expected) then Completed(ops[i].mutationId)
        else CompletedExceptionally(BatchProcessing(UpdateFailed))
  {
    FutureOfOp(s, ops, i);
  }

  /** A sorted-set add completes with its mutation id exactly when the member was new. */
  lemma ZAddFuture(s: Store, ops: seq<BatchOp>, i: nat)
    requires i < |ops| && ops[i].ZAddOp?
    ensures var before := ExecuteBatch(s, ops[..i]).store;
      ExecuteBatch(s, ops).futures[i] ==
        if ops[i].key !in before.sortedSets || ops[i].value !in Members(before.sortedSets[ops[i].key])
        then Completed(ops[i].mutationId)
        else CompletedExceptionally(BatchProcessing(UpdateFailed))
  {
    FutureOfOp(s, ops, i);
  }

  /**
   * An example compare-and-set: expecting "old" while the store
   * holds "cur" fails; expecting the value actually held succeeds with the
   * mutation id.
   */
  lemma CasExample(s: Store, mid: Option<string>)
    requires Get(s, "k") == Some(Text("cur"))
    ensures ExecuteBatch(s, [CasOp("k", Text("old"), Text("new"), mid)]).futures
      == [CompletedExceptionally(BatchProcessing(UpdateFailed))]
    ensures ExecuteBatch(s, [CasOp("k", Text("cur"), Text("new"), mid)]).futures == [Completed(mid)]
  {
  }

  /** A plain put queued with a null mutation id completes with null. */
  lemma NullMutationIdExample(s: Store)
    ensures ExecuteBatch(s, [SetOp("hello", Text("world"), None)]).futures == [Completed(None)]
  {
  }
}
