/**
 * The Redis cache facade. Every operation validates its request, turns
 * the logical key into the physical key (namespace prefix) and then reads or
 * writes the store synchronously, or registers an operation with the batch
 * pipeline whose future completes when the batch executes.
 *
 * The pure functions below say what each operation does to the store and what
 * it answers; the class methods are proved to do exactly that.
 */
module Cache {
  import opened CacheTypes
  import opened JavaSemantics
  import opened KeyNamespace
  import opened Requests
  import opened Store
  import opened Futures
  import opened BatchPipeline
  import opened RegexScan

  const MandatoryKey: string := "key is mandatory"
  const MandatoryValue: string := "value is mandatory"
  const PutMapNullKey: string := "Received null/empty key in put map request.Aborting the request."
  const PutMapNullValue: string := "Received null/empty value in put map request.Aborting the request."
  const GetMapNullKey: string := "Received null/empty key in get map request.Aborting the request."
  const DeleteMapNullKey: string := "Received null/empty key in delete map request.Aborting the request."

  /** What the store client does with a null bucket name. */
  const NullBucketName: string := "bucket name is null"

  /**
   * The validate overloads: Objects.requireNonNull on the key and, for writes,
   * on the value, in that order.
   */
  function Validate(keyPresent: bool, valuePresent: bool, keyMessage: string, valueMessage: string): (r: Option<Failure>)
    ensures r.None? <==> keyPresent && valuePresent
    ensures !keyPresent ==> r == Some(NullPointer(keyMessage))
    ensures keyPresent && !valuePresent ==> r == Some(NullPointer(valueMessage))
  {
    if !keyPresent then Some(NullPointer(keyMessage))
    else if !valuePresent then Some(NullPointer(valueMessage))
    else None
  }

  // ---------------------------------------------------------------- puts

  /** The physical key of a validated put request. */
  function PutKey(ns: string, f: PutFields): string
    requires f.key.Some?
  {
    AddNamespace(ns, f.key.value, f.namespaceEnabled)
  }

  /**
   * The put dispatch: no expected value and the ttl sentinel give a plain set,
   * no expected value and any other ttl a set with that ttl, and an expected
   * value a compare-and-set that ignores the ttl.
   */
  function PutOp(physical: string, f: PutFields): (op: BatchOp)
    requires f.value.Some?
    ensures op.SetOp? <==> f.expectedValue.None? && f.ttlMs == NoTtl
    ensures op.SetTtlOp? <==> f.expectedValue.None? && f.ttlMs != NoTtl
    ensures op.CasOp? <==> f.expectedValue.Some?
    ensures op.SetTtlOp? ==> op.ttlMs == f.ttlMs
    ensures op.CasOp? ==> op.expected == f.expectedValue.value
    ensures !op.DeleteOp? && !op.ZAddOp? && op.key == physical && op.value == f.value.value
    ensures op.mutationId == f.mutationId
  {
    match f.expectedValue
    case None =>
      if f.ttlMs == NoTtl then SetOp(physical, f.value.value, f.mutationId)
      else SetTtlOp(physical, f.value.value, f.ttlMs, f.mutationId)
    case Some(e) => CasOp(physical, e, f.value.value, f.mutationId)
  }

  /** A put request as an operation on the physical key, or the validation failure. */
  function PutRequestOp(ns: string, f: PutFields): (r: Result<BatchOp>)
    ensures r.Err? <==> f.key.None? || f.value.None?
    ensures f.key.None? ==> r == Err(NullPointer(MandatoryKey))
    ensures f.key.Some? && f.value.None? ==> r == Err(NullPointer(MandatoryValue))
    ensures r.Ok? ==> r.value == PutOp(PutKey(ns, f), f)
  {
    match Validate(f.key.Some?, f.value.Some?, MandatoryKey, MandatoryValue)
    case Some(e) => Err(e)
    case None => Ok(PutOp(PutKey(ns, f), f))
  }

  /** A validated request has its key replaced by the physical key; a rejected one is left alone. */
  function PutWriteBack(ns: string, f: PutFields): PutFields {
    if f.key.Some? && f.value.Some? then f.(key := Some(PutKey(ns, f))) else f
  }

  /** What a synchronous write answers, and the store after it. */
  datatype Written = Written(outcome: Result<Unit>, store: Store)

  /** A write the store answers with an error reply fails with that reply. */
  function Outcome(a: Applied): (w: Written)
    ensures w.store == a.store
    ensures w.outcome.Ok? <==> a.reply.Ack?
  {
    if a.reply.ErrorReply? then Written(Err(StoreRejected(a.reply.message)), a.store)
    else Written(Ok(Unit), a.store)
  }

  /** putString / putEntity: the store after the synchronous put, or the validation failure. */
  function SyncPut(ns: string, s: Store, f: PutFields): (w: Written)
    ensures f.key.None? || f.value.None? ==> w.store == s && w.outcome.Err? && w.outcome.error.NullPointer?
  {
    match PutRequestOp(ns, f)
    case Err(e) => Written(Err(e), s)
    case Ok(op) => Outcome(Apply(s, op))
  }

  /**
   * A put without an expected value and with the ttl sentinel or a positive
   * ttl stores the value at the physical key; read back through the key-based
   * getter, the same logical key gives the value when namespacing was on.
   */
  lemma PutThenGet(ns: string, s: Store, f: PutFields)
    requires f.key.Some? && f.value.Some? && f.expectedValue.None?
    requires f.ttlMs == NoTtl || f.ttlMs > 0
    ensures SyncPut(ns, s, f).outcome.Ok?
    ensures Get(SyncPut(ns, s, f).store, PutKey(ns, f)) == f.value
    ensures f.namespaceEnabled ==> Get(SyncPut(ns, s, f).store, AddNamespace(ns, f.key.value, true)) == f.value
  {
  }

  /** A ttl that is neither the sentinel nor positive reaches the store, which rejects it and changes nothing. */
  lemma NonPositiveTtlRejected(ns: string, s: Store, f: PutFields)
    requires f.key.Some? && f.value.Some? && f.expectedValue.None?
    requires f.ttlMs != NoTtl && f.ttlMs <= 0
    ensures SyncPut(ns, s, f) == Written(Err(StoreRejected(InvalidExpireTime)), s)
  {
  }

  /**
   * A put with an expected value is a compare-and-set: it writes exactly when
   * the stored value equals the expected one, and its ttl plays no part.
   */
  lemma CompareAndSetPut(ns: string, s: Store, f: PutFields, otherTtl: int)
    requires f.key.Some? && f.value.Some? && f.expectedValue.Some?
    ensures SyncPut(ns, s, f).outcome.Ok?
    ensures SyncPut(ns, s, f).store ==
      if Get(s, PutKey(ns, f)) == f.expectedValue then Set(s, PutKey(ns, f), f.value.value) else s
    ensures SyncPut(ns, s, f.(ttlMs := otherTtl)) == SyncPut(ns, s, f)
  {
  }

  /**
   * The synchronous and the batched put agree: the operation an async put
   * registers does to the store, when its batch executes, what the
   * synchronous put does at once.
   */
  lemma AsyncPutMatchesSync(ns: string, s: Store, f: PutFields)
    requires f.key.Some? && f.value.Some?
    ensures PutRequestOp(ns, f).Ok?
    ensures Apply(s, PutRequestOp(ns, f).value).store == SyncPut(ns, s, f).store
    ensures Apply(s, PutRequestOp(ns, f).value).reply.Ack? <==> SyncPut(ns, s, f).outcome.Ok?
  {
  }

  /**
   * A fresh put request given only a key and a value is a plain set at the
   * namespaced key, and its future completes with the null mutation id.
   */
  lemma DefaultPutIsPlainSet(ns: string, s: Store, k: string, v: Value)
    ensures var f := PutFields(None, None, NoTtl, None, None, true).(key := Some(k), value := Some(v));
      PutRequestOp(ns, f) == Ok(SetOp(AddNamespace(ns, k, true), v, None))
      && ExecuteBatch(s, [PutRequestOp(ns, f).value]).futures == [Completed(None)]
  {
  }

  // ---------------------------------------------------------------- scored sorted sets

  /** An add request as a sorted-set add on the physical key, or the validation failure. */
  function ScoredRequestOp(ns: string, req: AddScoredRequest): (r: Result<BatchOp>)
    ensures r.Err? <==> req.key.None? || req.value.None?
    ensures req.key.None? ==> r == Err(NullPointer(MandatoryKey))
    ensures req.key.Some? && req.value.None? ==> r == Err(NullPointer(MandatoryValue))
    ensures r.Ok? ==> r.value == ZAddOp(AddNamespace(ns, req.key.value, req.namespaceEnabled), req.score, req.value.value, req.mutationId)
  {
    match Validate(req.key.Some?, req.value.Some?, MandatoryKey, MandatoryValue)
    case Some(e) => Err(e)
    case None => Ok(ZAddOp(AddNamespace(ns, req.key.value, req.namespaceEnabled), req.score, req.value.value, req.mutationId))
  }

  /** The values of a sequence of scored entries, in the same order. */
  function Values(entries: seq<ScoredEntry>): (r: seq<Value>)
    ensures |r| == |entries|
    ensures forall i :: 0 <= i < |r| ==> r[i] == entries[i].value
  {
    if |entries| == 0 then [] else [entries[0].value] + Values(entries[1..])
  }

  /**
   * A ranged read: ranks counted in ascending score order, or in descending
   * order when reversed, with the indices passed on unchanged; the answer is
   * the values of the entries in the range.
   */
  function RangeValues(s: Store, physical: string, start: int, end: int, reversed: bool): seq<Value> {
    Values(if reversed then EntryRangeReversed(s, physical, start, end) else EntryRange(s, physical, start, end))
  }

  /** getStringsFromScoredSortedSet / getEntitiesFromScoredSortedSet: the read a range request makes. */
  function RangeRead(ns: string, s: Store, f: RangeFields): (r: Result<seq<Value>>)
    ensures r.Err? <==> f.key.None?
    ensures r.Err? ==> r.error == NullPointer(MandatoryKey)
    ensures r.Ok? ==> r.value == RangeValues(s, AddNamespace(ns, f.key.value, f.namespaceEnabled), f.startIndex, f.endIndex, f.reversed)
  {
    match f.key
    case None => Err(NullPointer(MandatoryKey))
    case Some(k) => Ok(RangeValues(s, AddNamespace(ns, k, f.namespaceEnabled), f.startIndex, f.endIndex, f.reversed))
  }

  /** The full range 0..-1 is the whole sorted set. */
  lemma FullRange(entries: seq<ScoredEntry>)
    ensures RangeByRank(entries, 0, -1) == entries
  {
  }

  /** Read over the full range, the reversed order is exactly the forward order backwards. */
  lemma FullRangeReversed(s: Store, k: string)
    ensures var fwd := RangeValues(s, k, 0, -1, false);
      var rev := RangeValues(s, k, 0, -1, true);
      |rev| == |fwd| && forall i :: 0 <= i < |rev| ==> rev[i] == fwd[|fwd| - 1 - i]
  {
    FullRange(SortedSet(s, k));
    FullRange(Reverse(SortedSet(s, k)));
  }

  /** After an add, a full-range read of the same request key includes the value. */
  lemma AddThenRange(ns: string, s: Store, req: AddScoredRequest)
    requires req.key.Some? && req.value.Some?
    ensures var k := AddNamespace(ns, req.key.value, req.namespaceEnabled);
      req.value.value in RangeValues(Apply(s, ScoredRequestOp(ns, req).value).store, k, 0, -1, false)
  {
    var k := AddNamespace(ns, req.key.value, req.namespaceEnabled);
    var s' := Apply(s, ScoredRequestOp(ns, req).value).store;
    FullRange(SortedSet(s', k));
    var entries := SortedSet(s', k);
    var i :| 0 <= i < |entries| && entries[i] == ScoredEntry(req.score, req.value.value);
    assert Values(entries)[i] == req.value.value;
  }

  // ---------------------------------------------------------------- deletes

  /** A delete request as a delete of the physical key, or the validation failure. */
  function DeleteRequestOp(ns: string, req: DeleteRequest): (r: Result<BatchOp>)
    ensures r.Err? <==> req.key.None?
    ensures r.Err? ==> r.error == NullPointer(MandatoryKey)
    ensures r.Ok? ==> r.value == DeleteOp(AddNamespace(ns, req.key.value, req.namespaceEnabled), req.mutationId)
  {
    match req.key
    case None => Err(NullPointer(MandatoryKey))
    case Some(k) => Ok(DeleteOp(AddNamespace(ns, k, req.namespaceEnabled), req.mutationId))
  }

  /** After a delete, a read of the same logical key finds nothing; other keys are untouched. */
  lemma DeleteThenGet(ns: string, s: Store, req: DeleteRequest, other: string)
    requires req.key.Some?
    ensures var k := AddNamespace(ns, req.key.value, req.namespaceEnabled);
      var s' := Apply(s, DeleteRequestOp(ns, req).value).store;
      Get(s', k) == None && (other != k ==> Get(s', other) == Get(s, other))
  {
  }

  // ---------------------------------------------------------------- maps

  /** The map request names a non-empty field set, so only those fields are read or removed. */
  predicate FieldRestricted(fields: Option<set<string>>) {
    fields.Some? && |fields.value| > 0
  }

  /** getMapOfEntities: the listed fields that exist, or the whole map when no field is listed. */
  function MapRead(s: Store, physical: string, fields: Option<set<string>>): (r: map<string, Value>)
    ensures FieldRestricted(fields) ==> r.Keys == Hash(s, physical).Keys * fields.value
    ensures !FieldRestricted(fields) ==> r == Hash(s, physical)
    ensures forall f :: f in r ==> f in Hash(s, physical) && r[f] == Hash(s, physical)[f]
  {
    if FieldRestricted(fields) then HashGetAll(s, physical, fields.value) else Hash(s, physical)
  }

  /** deleteMapOfEntities: the listed fields are removed, or the whole map when no field is listed. */
  function MapDelete(s: Store, physical: string, fields: Option<set<string>>): (r: Store)
    ensures FieldRestricted(fields) ==> Hash(r, physical).Keys == Hash(s, physical).Keys - fields.value
    ensures !FieldRestricted(fields) ==> Hash(r, physical) == map[]
    ensures forall f :: f in Hash(r, physical) ==> Hash(r, physical)[f] == Hash(s, physical)[f]
  {
    if FieldRestricted(fields) then HashRemoveFields(s, physical, fields.value) else HashDelete(s, physical)
  }

  /** A map put followed by a read of some of its fields gives back exactly those entries. */
  lemma MapPutThenGet(s: Store, k: string, m: map<string, Value>, fields: set<string>)
    requires |fields| > 0 && fields <= m.Keys
    ensures MapRead(HashPutAll(s, k, m), k, Some(fields)) == map f | f in fields :: m[f]
  {
    var r := MapRead(HashPutAll(s, k, m), k, Some(fields));
    assert r.Keys == fields;
  }

  /** After a delete, a whole-map read has none of the deleted fields, and nothing at all after a whole delete. */
  lemma MapDeleteThenGet(s: Store, k: string, fields: Option<set<string>>)
    ensures var r := MapRead(MapDelete(s, k, fields), k, None);
      (FieldRestricted(fields) ==> forall f :: f in fields.value ==> f !in r)
      && (!FieldRestricted(fields) ==> r == map[])
  {
  }

  // ---------------------------------------------------------------- the facade

  /** Turns the pipeline's answer into what an async call answers: the queued operation or the failure. */
  function Queued(outcome: Result<Unit>, op: BatchOp): (r: Result<BatchOp>)
    ensures r.Ok? <==> outcome.Ok?
    ensures r.Ok? ==> r.value == op
    ensures r.Err? ==> r.error == outcome.error
  {
    match outcome
    case Ok(_) => Ok(op)
    case Err(e) => Err(e)
  }

  /**
   * IgniteCacheRedisImpl. The store stands for the store client's view of
   * the data written synchronously; the pipeline holds the batch state.
   */
  class IgniteCacheRedis {
    /** The configured namespace, trimmed. */
    const namespace: string
    /** The value decoder of the regex scan. */
    const decode: Decoder
    const pipeline: Pipeline
    var store: Store
    var scanLimit: int

    ghost predicate Valid()
      reads this, pipeline
    {
      pipeline.Valid() && IsInt(scanLimit)
    }

    /** Construction with the configured properties, then post-construction's startBatch. */
    constructor (rawNamespace: string, configuredScanLimit: int, batchSize: int, decoder: Decoder, initial: Store)
      requires IsInt(configuredScanLimit) && IsInt(batchSize)
      ensures Valid() && fresh(pipeline)
      ensures namespace == NamespaceFromConfig(rawNamespace) && decode == decoder
      ensures store == initial && scanLimit == configuredScanLimit
      ensures pipeline.State() == Fresh(batchSize)
    {
      namespace := NamespaceFromConfig(rawNamespace);
      decode := decoder;
      pipeline := new Pipeline(batchSize);
      store := initial;
      scanLimit := configuredScanLimit;
    }

    // ---- reads

    /** getString(String) / getEntity(String): the bucket at the key, namespaced unconditionally. */
    method GetByKey(key: string) returns (r: Option<Value>)
      ensures r == Get(store, AddNamespace(namespace, key, true))
      ensures r.Some? <==> AddNamespace(namespace, key, true) in store.buckets
    {
      r := Get(store, AddNamespace(namespace, key, true));
    }

    /** getString(GetStringRequest): validated; the request comes back with its physical key. */
    method GetString(req: KeyRequest) returns (r: Result<Option<Value>>, updated: KeyRequest)
      ensures r.Err? <==> req.key.None?
      ensures r.Err? ==> r.error == NullPointer(MandatoryKey) && updated == req
      ensures r.Ok? ==> updated == req.(key := Some(AddNamespace(namespace, req.key.value, req.namespaceEnabled)))
      ensures r.Ok? ==> r.value == Get(store, updated.key.value)
    {
      if req.key.None? {
        return Err(NullPointer(MandatoryKey)), req;
      }
      updated := req.(key := Some(AddNamespace(namespace, req.key.value, req.namespaceEnabled)));
      r := Ok(Get(store, updated.key.value));
    }

    /**
     * getEntity(GetEntityRequest): not validated. A null key becomes the text
     * "null" under an active namespace; without one, the null name reaches the
     * store client, which fails.
     */
    method GetEntity(req: KeyRequest) returns (r: Result<Option<Value>>, updated: KeyRequest)
      ensures updated == req.(key := AddNamespaceNullable(namespace, req.key, req.namespaceEnabled))
      ensures r.Err? <==> updated.key.None?
      ensures r.Err? ==> r.error == NullPointer(NullBucketName)
      ensures r.Ok? ==> r.value == Get(store, updated.key.value)
    {
      updated := req.(key := AddNamespaceNullable(namespace, req.key, req.namespaceEnabled));
      match updated.key
      case None => r := Err(NullPointer(NullBucketName));
      case Some(k) => r := Ok(Get(store, k));
    }

    /** getStringsFromScoredSortedSet: the request object's key is overwritten with the physical key. */
    method GetStringsFromScoredSortedSet(req: GetScoredStringsRequest) returns (r: Result<seq<Value>>)
      requires req.Valid()
      modifies req
      ensures req.Valid()
      ensures r == RangeRead(namespace, store, old(req.Fields()))
      ensures r.Err? ==> req.Fields() == old(req.Fields())
      ensures r.Ok? ==> req.Fields() == old(req.Fields()).(key := Some(AddNamespace(namespace, old(req.key).value, old(req.namespaceEnabled))))
    {
      if req.key.None? {
        return Err(NullPointer(MandatoryKey));
      }
      var physical := AddNamespace(namespace, req.key.value, req.namespaceEnabled);
      var self := req.WithKey(Some(physical));
      r := Ok(RangeValues(store, physical, req.startIndex, req.endIndex, req.reversed));
    }

    /** getEntitiesFromScoredSortedSet: the same read with a request record. */
    method GetEntitiesFromScoredSortedSet(req: RangeFields) returns (r: Result<seq<Value>>, updated: RangeFields)
      ensures r == RangeRead(namespace, store, req)
      ensures updated == if r.Ok? then req.(key := Some(AddNamespace(namespace, req.key.value, req.namespaceEnabled))) else req
    {
      if req.key.None? {
        return Err(NullPointer(MandatoryKey)), req;
      }
      updated := req.(key := Some(AddNamespace(namespace, req.key.value, req.namespaceEnabled)));
      r := Ok(RangeValues(store, updated.key.value, req.startIndex, req.endIndex, req.reversed));
    }

    /** getMapOfEntities. */
    method GetMapOfEntities(req: MapFieldsRequest) returns (r: Result<map<string, Value>>, updated: MapFieldsRequest)
      ensures r.Err? <==> req.key.None?
      ensures r.Err? ==> r.error == NullPointer(GetMapNullKey) && updated == req
      ensures r.Ok? ==> updated == req.(key := Some(AddNamespace(namespace, req.key.value, req.namespaceEnabled)))
      ensures r.Ok? ==> r.value == MapRead(store, updated.key.value, req.fields)
    {
      if req.key.None? {
        return Err(NullPointer(GetMapNullKey)), req;
      }
      updated := req.(key := Some(AddNamespace(namespace, req.key.value, req.namespaceEnabled)));
      r := Ok(MapRead(store, updated.key.value, req.fields));
    }

    // ---- synchronous writes

    /** putString: validate, write the physical key back into the request, then set, set with ttl or compare-and-set. */
    method PutString(req: PutStringRequest) returns (r: Result<Unit>)
      requires req.Valid()
      modifies this`store, req
      ensures req.Valid()
      ensures Written(r, store) == SyncPut(namespace, old(store), old(req.Fields()))
      ensures req.Fields() == PutWriteBack(namespace, old(req.Fields()))
    {
      var f := req.Fields();
      if req.key.None? {
        return Err(NullPointer(MandatoryKey));
      }
      if req.value.None? {
        return Err(NullPointer(MandatoryValue));
      }
      var physical := AddNamespace(namespace, req.key.value, req.namespaceEnabled);
      var self := req.WithKey(Some(physical));
      var w := Outcome(Apply(store, PutOp(physical, f)));
      store := w.store;
      r := w.outcome;
    }

    /** putEntity: the same put with a request record. */
    method PutEntity(req: PutFields) returns (r: Result<Unit>, updated: PutFields)
      modifies this`store
      ensures Written(r, store) == SyncPut(namespace, old(store), req)
      ensures updated == PutWriteBack(namespace, req)
    {
      match PutRequestOp(namespace, req)
      case Err(e) =>
        return Err(e), req;
      case Ok(op) =>
        updated := req.(key := Some(op.key));
        var w := Outcome(Apply(store, op));
        store := w.store;
        r := w.outcome;
    }

    /** addStringToScoredSortedSet / addEntityToScoredSortedSet. */
    method AddToScoredSortedSet(req: AddScoredRequest) returns (r: Result<Unit>, updated: AddScoredRequest)
      modifies this`store
      ensures r.Err? <==> ScoredRequestOp(namespace, req).Err?
      ensures r.Err? ==> r.error == ScoredRequestOp(namespace, req).error && store == old(store) && updated == req
      ensures r.Ok? ==> store == Apply(old(store), ScoredRequestOp(namespace, req).value).store
      ensures r.Ok? ==> updated == req.(key := Some(ScoredRequestOp(namespace, req).value.key))
    {
      match ScoredRequestOp(namespace, req)
      case Err(e) =>
        return Err(e), req;
      case Ok(op) =>
        updated := req.(key := Some(op.key));
        store := Apply(store, op).store;
        r := Ok(Unit);
    }

    /** delete(String): the key is namespaced unconditionally. */
    method DeleteKey(key: string)
      modifies this`store
      ensures store == DeleteBucket(old(store), AddNamespace(namespace, key, true)).store
    {
      store := DeleteBucket(store, AddNamespace(namespace, key, true)).store;
    }

    /** delete(DeleteEntryRequest). */
    method Delete(req: DeleteRequest) returns (r: Result<Unit>, updated: DeleteRequest)
      modifies this`store
      ensures r.Err? <==> req.key.None?
      ensures r.Err? ==> r.error == NullPointer(MandatoryKey) && store == old(store) && updated == req
      ensures r.Ok? ==> store == Apply(old(store), DeleteRequestOp(namespace, req).value).store
      ensures r.Ok? ==> updated == req.(key := Some(DeleteRequestOp(namespace, req).value.key))
    {
      match DeleteRequestOp(namespace, req)
      case Err(e) =>
        return Err(e), req;
      case Ok(op) =>
        updated := req.(key := Some(op.key));
        store := DeleteBucket(store, op.key).store;
        r := Ok(Unit);
    }

    /** putMapOfEntities: the fields of the request's map are written into the hash at the physical key. */
    method PutMapOfEntities(req: PutMapRequest) returns (r: Result<Unit>, updated: PutMapRequest)
      modifies this`store
      ensures r.Err? <==> req.key.None? || req.value.None?
      ensures r.Err? ==> r.error == Validate(req.key.Some?, req.value.Some?, PutMapNullKey, PutMapNullValue).value
      ensures r.Err? ==> store == old(store) && updated == req
      ensures r.Ok? ==> updated == req.(key := Some(AddNamespace(namespace, req.key.value, req.namespaceEnabled)))
      ensures r.Ok? ==> store == HashPutAll(old(store), updated.key.value, req.value.value)
    {
      match Validate(req.key.Some?, req.value.Some?, PutMapNullKey, PutMapNullValue)
      case Some(e) =>
        return Err(e), req;
      case None =>
        updated := req.(key := Some(AddNamespace(namespace, req.key.value, req.namespaceEnabled)));
        store := HashPutAll(store, updated.key.value, req.value.value);
        r := Ok(Unit);
    }

    /** deleteMapOfEntities. */
    method DeleteMapOfEntities(req: MapFieldsRequest) returns (r: Result<Unit>, updated: MapFieldsRequest)
      modifies this`store
      ensures r.Err? <==> req.key.None?
      ensures r.Err? ==> r.error == NullPointer(DeleteMapNullKey) && store == old(store) && updated == req
      ensures r.Ok? ==> updated == req.(key := Some(AddNamespace(namespace, req.key.value, req.namespaceEnabled)))
      ensures r.Ok? ==> store == MapDelete(old(store), updated.key.value, req.fields)
    {
      if req.key.None? {
        return Err(NullPointer(DeleteMapNullKey)), req;
      }
      updated := req.(key := Some(AddNamespace(namespace, req.key.value, req.namespaceEnabled)));
      store := MapDelete(store, updated.key.value, req.fields);
      r := Ok(Unit);
    }

    // ---- batched writes

    /** performBatchOperation for one operation, as seen by the async methods. */
    method Enqueue(op: BatchOp, attempts: seq<Attempt>) returns (r: Result<BatchOp>, tries: nat)
      requires Valid() && |attempts| >= NumBatchRetries
      modifies pipeline
      ensures Valid()
      ensures pipeline.State() == Perform(old(pipeline.State()), op, attempts).state
      ensures r == Queued(Perform(old(pipeline.State()), op, attempts).outcome, op)
      ensures tries == RetryVerdict(attempts, 0).tries
    {
      var outcome;
      outcome, tries := pipeline.PerformBatchOperation(op, attempts);
      r := Queued(outcome, op);
    }

    /**
     * putStringAsync: validated before the pipeline is touched; a rejected
     * request leaves batch and counter as they were and makes no attempt.
     */
    method PutStringAsync(req: PutStringRequest, attempts: seq<Attempt>) returns (r: Result<BatchOp>, tries: nat)
      requires Valid() && req.Valid() && |attempts| >= NumBatchRetries
      modifies req, pipeline
      ensures Valid() && req.Valid()
      ensures req.Fields() == PutWriteBack(namespace, old(req.Fields()))
      ensures PutRequestOp(namespace, old(req.Fields())).Err? ==>
        r == PutRequestOp(namespace, old(req.Fields())) && tries == 0 && pipeline.State() == old(pipeline.State())
      ensures PutRequestOp(namespace, old(req.Fields())).Ok? ==>
        var op := PutRequestOp(namespace, old(req.Fields())).value;
        && pipeline.State() == Perform(old(pipeline.State()), op, attempts).state
        && r == Queued(Perform(old(pipeline.State()), op, attempts).outcome, op)
        && tries == RetryVerdict(attempts, 0).tries
    {
      var f := req.Fields();
      match PutRequestOp(namespace, f)
      case Err(e) =>
        return Err(e), 0;
      case Ok(op) =>
        var self := req.WithKey(Some(op.key));
        r, tries := Enqueue(op, attempts);
    }

    /** putEntityAsync: the same with a request record. */
    method PutEntityAsync(req: PutFields, attempts: seq<Attempt>) returns (r: Result<BatchOp>, tries: nat, updated: PutFields)
      requires Valid() && |attempts| >= NumBatchRetries
      modifies pipeline
      ensures Valid()
      ensures updated == PutWriteBack(namespace, req)
      ensures PutRequestOp(namespace, req).Err? ==>
        r == PutRequestOp(namespace, req) && tries == 0 && pipeline.State() == old(pipeline.State())
      ensures PutRequestOp(namespace, req).Ok? ==>
        var op := PutRequestOp(namespace, req).value;
        && pipeline.State() == Perform(old(pipeline.State()), op, attempts).state
        && r == Queued(Perform(old(pipeline.State()), op, attempts).outcome, op)
        && tries == RetryVerdict(attempts, 0).tries
    {
      match PutRequestOp(namespace, req)
      case Err(e) =>
        return Err(e), 0, req;
      case Ok(op) =>
        updated := req.(key := Some(op.key));
        r, tries := Enqueue(op, attempts);
    }

    /** addStringToScoredSortedSetAsync / addEntityToScoredSortedSetAsync. */
    method AddToScoredSortedSetAsync(req: AddScoredRequest, attempts: seq<Attempt>) returns (r: Result<BatchOp>, tries: nat, updated: AddScoredRequest)
      requires Valid() && |attempts| >= NumBatchRetries
      modifies pipeline
      ensures Valid()
      ensures ScoredRequestOp(namespace, req).Err? ==>
        r == ScoredRequestOp(namespace, req) && tries == 0 && pipeline.State() == old(pipeline.State()) && updated == req
      ensures ScoredRequestOp(namespace, req).Ok? ==>
        var op := ScoredRequestOp(namespace, req).value;
        && updated == req.(key := Some(op.key))
        && pipeline.State() == Perform(old(pipeline.State()), op, attempts).state
        && r == Queued(Perform(old(pipeline.State()), op, attempts).outcome, op)
        && tries == RetryVerdict(attempts, 0).tries
    {
      match ScoredRequestOp(namespace, req)
      case Err(e) =>
        return Err(e), 0, req;
      case Ok(op) =>
        updated := req.(key := Some(op.key));
        r, tries := Enqueue(op, attempts);
    }

    /** deleteAsync. */
    method DeleteAsync(req: DeleteRequest, attempts: seq<Attempt>) returns (r: Result<BatchOp>, tries: nat, updated: DeleteRequest)
      requires Valid() && |attempts| >= NumBatchRetries
      modifies pipeline
      ensures Valid()
      ensures DeleteRequestOp(namespace, req).Err? ==>
        r == DeleteRequestOp(namespace, req) && tries == 0 && pipeline.State() == old(pipeline.State()) && updated == req
      ensures DeleteRequestOp(namespace, req).Ok? ==>
        var op := DeleteRequestOp(namespace, req).value;
        && updated == req.(key := Some(op.key))
        && pipeline.State() == Perform(old(pipeline.State()), op, attempts).state
        && r == Queued(Perform(old(pipeline.State()), op, attempts).outcome, op)
        && tries == RetryVerdict(attempts, 0).tries
    {
      match DeleteRequestOp(namespace, req)
      case Err(e) =>
        return Err(e), 0, req;
      case Ok(op) =>
        updated := req.(key := Some(op.key));
        r, tries := Enqueue(op, attempts);
    }

    /** setBatchSize. */
    method SetBatchSize(size: int)
      requires Valid() && IsInt(size)
      modifies pipeline
      ensures Valid() && pipeline.State() == old(pipeline.State()).(batchSize := size)
    {
      pipeline.SetBatchSize(size);
    }

    // ---- regex scan

    /**
     * getKeyValuePairsForRegex: raise the scan limit to at least 10 (for good),
     * then call the scan script from cursor 0 while the answered cursor is
     * positive, collecting the decoded pairs. `calls` are the script calls
     * made, in order.
     */
    method GetKeyValuePairsForRegex(keyRegex: string, namespaceEnabled: Option<bool>, replies: seq<ScriptReply>)
      returns (r: Result<map<string, Value>>, calls: seq<ScanCall>)
      requires Valid() && Conversation(replies)
      modifies this`scanLimit
      ensures Valid() && scanLimit == RaisedScanLimit(old(scanLimit))
      ensures ScanRun(r, calls) == ScanAll(replies, decode, scanLimit, ScanPattern(namespace, keyRegex, namespaceEnabled))
    {
      var pattern := ScanPattern(namespace, keyRegex, namespaceEnabled);
      if scanLimit < MinScanLimit {
        scanLimit := MinScanLimit;
      }
      var keyValuePairs: map<string, Value> := map[];
      var cursor := 0;
      var i := 0;
      calls := [];
      while true
        invariant 0 <= i < |replies|
        invariant scanLimit == RaisedScanLimit(old(scanLimit))
        invariant var rest := Scan(replies, i, decode, scanLimit, pattern, cursor, keyValuePairs);
          ScanAll(replies, decode, scanLimit, pattern) == ScanRun(rest.result, calls + rest.calls)
        decreases |replies| - i
      {
        var reply := replies[i];
        var decoded := DecodePairs(reply, decode, keyValuePairs);
        match decoded
        case Err(e) =>
          calls := calls + [ScanCall(cursor, scanLimit, pattern)];
          r := Err(e);
          return;
        case Ok(m) =>
          if NextCursor(reply) <= 0 {
            calls := calls + [ScanCall(cursor, scanLimit, pattern)];
            keyValuePairs := m;
            break;
          }
          ScanRound(replies, i, decode, scanLimit, pattern, cursor, keyValuePairs, m, calls);
          calls := calls + [ScanCall(cursor, scanLimit, pattern)];
          cursor := NextCursor(reply);
          keyValuePairs := m;
          i := i + 1;
      }
      r := Ok(keyValuePairs);
    }
  }
}
