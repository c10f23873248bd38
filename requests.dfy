/**
 * The request objects of the cache API. PutStringRequest and
 * GetScoredStringsRequest are mutable fluent builders (classes whose setters
 * assign one field and return the same object); the other request types only
 * store fields and are folded into datatypes here.
 */
module Requests {
  import opened CacheTypes
  import opened JavaSemantics

  /** The ttl sentinel meaning "no ttl" (MINUS_ONE_LONG). */
  const NoTtl: int := -1

  /** The fields a put request (string or entity) hands to the facade. */
  datatype PutFields = PutFields(
    key: Option<string>,
    value: Option<Value>,
    ttlMs: int,
    expectedValue: Option<Value>,
    mutationId: Option<string>,
    namespaceEnabled: bool)

  /** The fields a scored-range read hands to the facade. */
  datatype RangeFields = RangeFields(
    key: Option<string>,
    startIndex: int,
    endIndex: int,
    reversed: bool,
    namespaceEnabled: bool)

  /** GetStringRequest and GetEntityRequest: a key and the namespace flag. */
  datatype KeyRequest = KeyRequest(key: Option<string>, namespaceEnabled: bool)

  /** DeleteEntryRequest. */
  datatype DeleteRequest = DeleteRequest(key: Option<string>, mutationId: Option<string>, namespaceEnabled: bool)

  /** AddScoredStringRequest and AddScoredEntityRequest (scores are integers here). */
  datatype AddScoredRequest = AddScoredRequest(
    key: Option<string>,
    score: int,
    value: Option<Value>,
    mutationId: Option<string>,
    namespaceEnabled: bool)

  /** GetMapOfEntitiesRequest and DeleteMapOfEntitiesRequest: a key and an optional field set. */
  datatype MapFieldsRequest = MapFieldsRequest(key: Option<string>, fields: Option<set<string>>, namespaceEnabled: bool)

  /** PutMapOfEntitiesRequest. */
  datatype PutMapRequest = PutMapRequest(key: Option<string>, value: Option<map<string, Value>>, namespaceEnabled: bool)

  function TextOf(s: Option<string>): (v: Option<Value>)
    ensures v.Some? <==> s.Some?
  {
    match s
    case None => None
    case Some(t) => Some(Text(t))
  }

  /** PutStringRequest: a fluent builder of a string put. */
  class PutStringRequest {
    var key: Option<string>
    var value: Option<string>
    var ttlMs: int
    var expectedValue: Option<string>
    var mutationId: Option<string>
    var namespaceEnabled: bool

    /** The ttl is a Java long. */
    ghost predicate Valid()
      reads this
    {
      IsLong(ttlMs)
    }

    /** The request as the facade reads it through its getters. */
    function Fields(): PutFields
      reads this
    {
      PutFields(key, TextOf(value), ttlMs, TextOf(expectedValue), mutationId, namespaceEnabled)
    }

    /** A fresh request: no key, value, expected value or mutation id, no ttl, namespace enabled. */
    constructor ()
      ensures Valid()
      ensures Fields() == PutFields(None, None, NoTtl, None, None, true)
    {
      key, value, ttlMs, expectedValue, mutationId := None, None, NoTtl, None, None;
      namespaceEnabled := true;
    }

    method WithKey(k: Option<string>) returns (self: PutStringRequest)
      requires Valid()
      modifies this
      ensures self == this && Valid()
      ensures Fields() == old(Fields()).(key := k)
    {
      key := k;
      self := this;
    }

    method WithValue(v: Option<string>) returns (self: PutStringRequest)
      requires Valid()
      modifies this
      ensures self == this && Valid()
      ensures Fields() == old(Fields()).(value := TextOf(v))
    {
      value := v;
      self := this;
    }

    method WithTtlMs(t: int) returns (self: PutStringRequest)
      requires Valid() && IsLong(t)
      modifies this
      ensures self == this && Valid()
      ensures Fields() == old(Fields()).(ttlMs := t)
    {
      ttlMs := t;
      self := this;
    }

    /** A non-null expected value turns the put into a compare-and-set. */
    method IfCurrentMatches(e: Option<string>) returns (self: PutStringRequest)
      requires Valid()
      modifies this
      ensures self == this && Valid()
      ensures Fields() == old(Fields()).(expectedValue := TextOf(e))
    {
      expectedValue := e;
      self := this;
    }

    /** A null mutation id is accepted. */
    method WithMutationId(m: Option<string>) returns (self: PutStringRequest)
      requires Valid()
      modifies this
      ensures self == this && Valid()
      ensures Fields() == old(Fields()).(mutationId := m)
    {
      mutationId := m;
      self := this;
    }

    method WithNamespaceEnabled(b: bool) returns (self: PutStringRequest)
      requires Valid()
      modifies this
      ensures self == this && Valid()
      ensures Fields() == old(Fields()).(namespaceEnabled := b)
    {
      namespaceEnabled := b;
      self := this;
    }
  }

  /** GetScoredStringsRequest: a fluent builder of a ranged read of a scored sorted set. */
  class GetScoredStringsRequest {
    var key: Option<string>
    var startIndex: int
    var endIndex: int
    var reversed: bool
    var namespaceEnabled: bool

    /** The indices are Java ints. */
    ghost predicate Valid()
      reads this
    {
      IsInt(startIndex) && IsInt(endIndex)
    }

    /** The request as the facade reads it through its getters. */
    function Fields(): RangeFields
      reads this
    {
      RangeFields(key, startIndex, endIndex, reversed, namespaceEnabled)
    }

    /** A fresh request: no key, indices 0 and 0, forward order, namespace enabled. */
    constructor ()
      ensures Valid()
      ensures Fields() == RangeFields(None, 0, 0, false, true)
    {
      key, startIndex, endIndex, reversed := None, 0, 0, false;
      namespaceEnabled := true;
    }

    method WithKey(k: Option<string>) returns (self: GetScoredStringsRequest)
      requires Valid()
      modifies this
      ensures self == this && Valid()
      ensures Fields() == old(Fields()).(key := k)
    {
      key := k;
      self := this;
    }

    method WithStartIndex(i: int) returns (self: GetScoredStringsRequest)
      requires Valid() && IsInt(i)
      modifies this
      ensures self == this && Valid()
      ensures Fields() == old(Fields()).(startIndex := i)
    {
      startIndex := i;
      self := this;
    }

    method WithEndIndex(i: int) returns (self: GetScoredStringsRequest)
      requires Valid() && IsInt(i)
      modifies this
      ensures self == this && Valid()
      ensures Fields() == old(Fields()).(endIndex := i)
    {
      endIndex := i;
      self := this;
    }

    /** Switches to descending order; no setter switches back. */
    method FromReverseIndex() returns (self: GetScoredStringsRequest)
      requires Valid()
      modifies this
      ensures self == this && Valid()
      ensures Fields() == old(Fields()).(reversed := true)
    {
      reversed := true;
      self := this;
    }

    method WithNamespaceEnabled(b: bool) returns (self: GetScoredStringsRequest)
      requires Valid()
      modifies this
      ensures self == this && Valid()
      ensures Fields() == old(Fields()).(namespaceEnabled := b)
    {
      namespaceEnabled := b;
      self := this;
    }
  }

  /** A typical builder chain; a CAS put keeps its ttl sentinel and its namespace flag. */
  method BuildCompareAndSet(k: string, v: string, expected: string) returns (req: PutStringRequest)
    ensures fresh(req) && req.Valid()
    ensures req.Fields() == PutFields(Some(k), Some(Text(v)), NoTtl, Some(Text(expected)), None, true)
  {
    req := new PutStringRequest();
    req := req.WithKey(Some(k));
    req := req.IfCurrentMatches(Some(expected));
    req := req.WithValue(Some(v));
  }

  /** One fluent setter call on a range request, with its argument. */
  datatype RangeSetter =
    | SetKey(k: Option<string>)
    | SetStartIndex(i: int)
    | SetEndIndex(i: int)
    | SetReversed
    | SetNamespaceEnabled(b: bool)

  /** The setter arguments are Java values: the indices are ints. */
  predicate IntArguments(calls: seq<RangeSetter>) {
    forall c :: c in calls ==> (c.SetStartIndex? || c.SetEndIndex? ==> IsInt(c.i))
  }

  /** The request fields after one setter call. */
  function AfterSetter(f: RangeFields, c: RangeSetter): RangeFields {
    match c
    case SetKey(k) => f.(key := k)
    case SetStartIndex(i) => f.(startIndex := i)
    case SetEndIndex(i) => f.(endIndex := i)
    case SetReversed => f.(reversed := true)
    case SetNamespaceEnabled(b) => f.(namespaceEnabled := b)
  }

  /** The request fields after a chain of setter calls, applied left to right. */
  function AfterSetters(f: RangeFields, calls: seq<RangeSetter>): RangeFields
    decreases |calls|
  {
    if |calls| == 0 then f else AfterSetters(AfterSetter(f, calls[0]), calls[1..])
  }

  /**
   * Any chain of setter calls on a range request: the request ends with the
   * fields the chain describes.
   */
  method ApplySetters(req: GetScoredStringsRequest, calls: seq<RangeSetter>)
    requires req.Valid() && IntArguments(calls)
    modifies req
    ensures req.Valid()
    ensures req.Fields() == AfterSetters(old(req.Fields()), calls)
  {
    var i := 0;
    while i < |calls|
      invariant 0 <= i <= |calls|
      invariant req.Valid()
      invariant AfterSetters(req.Fields(), calls[i..]) == AfterSetters(old(req.Fields()), calls)
    {
      assert calls[i..][1..] == calls[i + 1..];
      assert calls[i] in calls;
      var self;
      match calls[i] {
        case SetKey(k) => self := req.WithKey(k);
        case SetStartIndex(n) => self := req.WithStartIndex(n);
        case SetEndIndex(n) => self := req.WithEndIndex(n);
        case SetReversed => self := req.FromReverseIndex();
        case SetNamespaceEnabled(b) => self := req.WithNamespaceEnabled(b);
      }
      i := i + 1;
    }
  }

  /**
   * No setter switches back to ascending order: after any chain of setter
   * calls the request is reversed exactly when it was reversed before or the
   * chain calls fromReverseIndex.
   */
  lemma {:induction false} ReversedIffReverseCalled(f: RangeFields, calls: seq<RangeSetter>)
    ensures AfterSetters(f, calls).reversed <==> f.reversed || SetReversed in calls
    decreases |calls|
  {
    if |calls| > 0 {
      assert calls == [calls[0]] + calls[1..];
      ReversedIffReverseCalled(AfterSetter(f, calls[0]), calls[1..]);
    }
  }

  /** One fixed chain: fromReverseIndex first, then key, indices and the namespace flag. */
  method BuildReversedRange(k: string, start: int, end: int) returns (req: GetScoredStringsRequest)
    requires IsInt(start) && IsInt(end)
    ensures fresh(req) && req.Valid()
    ensures req.Fields() == RangeFields(Some(k), start, end, true, false)
  {
    req := new GetScoredStringsRequest();
    req := req.FromReverseIndex();
    req := req.WithKey(Some(k));
    req := req.WithStartIndex(start);
    req := req.WithEndIndex(end);
    req := req.WithNamespaceEnabled(false);
  }
}
