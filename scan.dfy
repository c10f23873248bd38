/**
 * The regex scan: the key/value pairs of every key matching a pattern, fetched
 * by repeated calls of a server-side scan script. Each call sends a cursor and
 * answers with the next cursor followed by alternating keys and encoded values;
 * the scan goes on while the cursor returned is positive. The script's answers
 * are an oracle (a sequence of replies) and the value decoder is a parameter.
 */
module RegexScan {
  import opened CacheTypes

  /** The smallest scan limit the facade accepts. */
  const MinScanLimit: int := 10

  /** The scan limit in force: a configured limit below 10 becomes 10, any other is kept. */
  function RaisedScanLimit(limit: int): (r: int)
    ensures r >= MinScanLimit && r >= limit
    ensures r == limit || r == MinScanLimit
  {
    if limit < MinScanLimit then MinScanLimit else limit
  }

  /** What one call of the scan script returns: nothing, or a cursor and a flat list of keys and values. */
  datatype ScriptReply = NoMatches | Matches(cursor: int, items: seq<string>)

  /** An empty answer ends the scan as a cursor of 0 does. */
  function NextCursor(r: ScriptReply): int {
    if r.NoMatches? then 0 else r.cursor
  }

  function Items(r: ScriptReply): seq<string> {
    if r.NoMatches? then [] else r.items
  }

  /** A reply after which the do/while loop stops. */
  predicate Final(r: ScriptReply) {
    NextCursor(r) <= 0
  }

  /** The arguments of one call of the scan script. */
  datatype ScanCall = ScanCall(cursor: int, limit: int, pattern: string)

  /** The value decoder the facade was configured with; None stands for an IOException. */
  type Decoder = string -> Option<Value>

  function DecodeMessage(value: string, key: string): string {
    "Unable to decode value " + value + " from cache for key " + key
  }

  /** Position p of a reply's item list holds a key (the pair loop visits k, k + 2, ...). */
  predicate KeyIndex(items: seq<string>, k: nat, p: int) {
    k <= p < |items| && (p - k) % 2 == 0
  }

  /**
   * The pair loop over one reply from item k on: each key is put into the map
   * with its decoded value (a later pair overwrites an earlier one); a value
   * that does not decode aborts with a DecodeException, and a key without a
   * value reads past the end of the reply (whose size counts the cursor).
   */
  function DecodeFrom(items: seq<string>, k: nat, decode: Decoder, acc: map<string, Value>): (r: Result<map<string, Value>>)
    ensures r.Ok? ==> acc.Keys <= r.value.Keys
    decreases |items| - k
  {
    if k >= |items| then Ok(acc)
    else if k + 1 >= |items| then Err(IndexOutOfBounds(k + 2, |items| + 1))
    else
      match decode(items[k + 1])
      case None => Err(Decode(DecodeMessage(items[k + 1], items[k])))
      case Some(v) => DecodeFrom(items, k + 2, decode, acc[items[k] := v])
  }

  /**
   * The pair loop of one script call over the answer list (the cursor at
   * position 0, then keys at odd and values at even positions), putting each
   * decoded pair into the map collected so far.
   */
  method DecodePairs(reply: ScriptReply, decode: Decoder, collected: map<string, Value>) returns (r: Result<map<string, Value>>)
    ensures r == DecodeFrom(Items(reply), 0, decode, collected)
  {
    var items := Items(reply);
    var size := if reply.NoMatches? then 0 else |items| + 1;
    var keyValuePairs := collected;
    var index := 1;
    while index < size
      invariant 1 <= index && index - 1 <= |items|
      invariant DecodeFrom(items, 0, decode, collected) == DecodeFrom(items, index - 1, decode, keyValuePairs)
      decreases size - index
    {
      if index + 1 >= size {
        return Err(IndexOutOfBounds(index + 1, size));
      }
      var key := items[index - 1];
      var value := items[index];
      match decode(value)
      case None =>
        return Err(Decode(DecodeMessage(value, key)));
      case Some(entity) =>
        keyValuePairs := keyValuePairs[key := entity];
        index := index + 2;
    }
    r := Ok(keyValuePairs);
  }

  /** Every key of the reply lands in the map. */
  lemma {:induction false} DecodeKeepsEveryKey(items: seq<string>, k: nat, decode: Decoder, acc: map<string, Value>)
    requires DecodeFrom(items, k, decode, acc).Ok?
    ensures forall p :: KeyIndex(items, k, p) ==> items[p] in DecodeFrom(items, k, decode, acc).value
    decreases |items| - k
  {
    if k < |items| {
      var acc' := acc[items[k] := decode(items[k + 1]).value];
      DecodeKeepsEveryKey(items, k + 2, decode, acc');
      forall p | KeyIndex(items, k, p) && p != k ensures KeyIndex(items, k + 2, p) {
      }
    }
  }

  /** The map holds nothing but the keys it started with and the keys of the reply. */
  lemma {:induction false} DecodeOnlyKeys(items: seq<string>, k: nat, decode: Decoder, acc: map<string, Value>)
    requires DecodeFrom(items, k, decode, acc).Ok?
    ensures forall x :: x in DecodeFrom(items, k, decode, acc).value ==>
      x in acc || exists p :: KeyIndex(items, k, p) && items[p] == x
    decreases |items| - k
  {
    if k < |items| {
      var acc' := acc[items[k] := decode(items[k + 1]).value];
      DecodeOnlyKeys(items, k + 2, decode, acc');
      assert KeyIndex(items, k, k);
      forall p | KeyIndex(items, k + 2, p) ensures KeyIndex(items, k, p) {
      }
    }
  }

  /** A key that no pair names keeps the value it had. */
  lemma {:induction false} UntouchedKey(items: seq<string>, k: nat, decode: Decoder, acc: map<string, Value>, x: string)
    requires DecodeFrom(items, k, decode, acc).Ok? && x in acc
    requires forall q :: KeyIndex(items, k, q) ==> items[q] != x
    ensures DecodeFrom(items, k, decode, acc).value[x] == acc[x]
    decreases |items| - k
  {
    if k < |items| {
      assert KeyIndex(items, k, k);
      var acc' := acc[items[k] := decode(items[k + 1]).value];
      forall q | KeyIndex(items, k + 2, q) ensures KeyIndex(items, k, q) {
      }
      UntouchedKey(items, k + 2, decode, acc', x);
    }
  }

  /** A later duplicate key overwrites an earlier one: each key ends with the value of its last pair. */
  lemma {:induction false} LastPairWins(items: seq<string>, k: nat, decode: Decoder, acc: map<string, Value>, p: nat)
    requires DecodeFrom(items, k, decode, acc).Ok? && KeyIndex(items, k, p)
    requires forall q :: KeyIndex(items, k, q) && p < q ==> items[q] != items[p]
    ensures p + 1 < |items| && decode(items[p + 1]).Some?
    ensures items[p] in DecodeFrom(items, k, decode, acc).value
    ensures DecodeFrom(items, k, decode, acc).value[items[p]] == decode(items[p + 1]).value
    decreases |items| - k
  {
    DecodeKeepsEveryKey(items, k, decode, acc);
    var acc' := acc[items[k] := decode(items[k + 1]).value];
    forall q | KeyIndex(items, k + 2, q) ensures KeyIndex(items, k, q) {
    }
    if p == k {
      UntouchedKey(items, k + 2, decode, acc', items[k]);
    } else {
      LastPairWins(items, k + 2, decode, acc', p);
    }
  }

  /**
   * Decoding a reply fails exactly when a key has no value or some value does
   * not decode, whatever was collected before.
   */
  lemma {:induction false} DecodeFailsIff(items: seq<string>, k: nat, decode: Decoder, acc: map<string, Value>)
    requires k <= |items|
    ensures DecodeFrom(items, k, decode, acc).Err? <==>
      (|items| - k) % 2 == 1 || exists p :: KeyIndex(items, k, p) && p + 1 < |items| && decode(items[p + 1]).None?
    decreases |items| - k
  {
    if k + 1 < |items| {
      assert KeyIndex(items, k, k);
      if decode(items[k + 1]).Some? {
        var acc' := acc[items[k] := decode(items[k + 1]).value];
        DecodeFailsIff(items, k + 2, decode, acc');
        assert (|items| - (k + 2)) % 2 == (|items| - k) % 2;
        if p :| KeyIndex(items, k, p) && p + 1 < |items| && decode(items[p + 1]).None? {
          assert KeyIndex(items, k + 2, p);
        }
        var k2 := k + 2;
        if p :| KeyIndex(items, k2, p) && p + 1 < |items| && decode(items[p + 1]).None? {
          assert KeyIndex(items, k, p);
        }
      }
    }
  }

  /** The outcome of a scan and the script calls it made, in order. */
  datatype ScanRun = ScanRun(result: Result<map<string, Value>>, calls: seq<ScanCall>)

  /** The replies form a complete conversation: the last one ends the scan. */
  predicate Conversation(replies: seq<ScriptReply>) {
    |replies| > 0 && Final(replies[|replies| - 1])
  }

  /**
   * The do/while loop from reply i on, having sent `cursor`: one script call,
   * the pair loop over its answer, and another round while the answered cursor
   * is positive. The first call sends the given cursor and every later call the
   * cursor answered just before it; a decode failure ends the scan at once.
   */
  function Scan(replies: seq<ScriptReply>, i: nat, decode: Decoder, limit: int, pattern: string,
                cursor: int, acc: map<string, Value>): (r: ScanRun)
    requires Conversation(replies) && i < |replies|
    ensures 1 <= |r.calls| <= |replies| - i
    ensures r.calls[0] == ScanCall(cursor, limit, pattern)
    ensures CallsFollow(replies, i, limit, pattern, r.calls)
    ensures r.result.Ok? ==> Final(replies[i + |r.calls| - 1])
    decreases |replies| - i
  {
    var here := ScanCall(cursor, limit, pattern);
    match DecodeFrom(Items(replies[i]), 0, decode, acc)
    case Err(e) => ScanRun(Err(e), [here])
    case Ok(m) =>
      if Final(replies[i]) then ScanRun(Ok(m), [here])
      else
        var rest := Scan(replies, i + 1, decode, limit, pattern, NextCursor(replies[i]), m);
        CallsFollowCons(replies, i, limit, pattern, here, rest.calls);
        ScanRun(rest.result, [here] + rest.calls)
  }

  /** Each call after the first sends the cursor of the reply just before it, and that reply did not end the scan. */
  predicate CallsFollow(replies: seq<ScriptReply>, i: nat, limit: int, pattern: string, calls: seq<ScanCall>)
    requires i + |calls| <= |replies| + 1
  {
    forall j :: 1 <= j < |calls| ==>
      calls[j] == ScanCall(NextCursor(replies[i + j - 1]), limit, pattern) && !Final(replies[i + j - 1])
  }

  lemma CallsFollowCons(replies: seq<ScriptReply>, i: nat, limit: int, pattern: string, here: ScanCall, rest: seq<ScanCall>)
    requires i < |replies| && !Final(replies[i]) && 1 <= |rest| && i + 1 + |rest| <= |replies|
    requires rest[0] == ScanCall(NextCursor(replies[i]), limit, pattern)
    requires CallsFollow(replies, i + 1, limit, pattern, rest)
    ensures CallsFollow(replies, i, limit, pattern, [here] + rest)
  {
    var calls := [here] + rest;
    forall j | 1 <= j < |calls|
      ensures calls[j] == ScanCall(NextCursor(replies[i + j - 1]), limit, pattern) && !Final(replies[i + j - 1])
    {
      if j > 1 {
        var j' := j - 1;
        assert calls[j] == rest[j'];
        assert i + 1 + j' - 1 == i + j - 1;
      }
    }
  }


  /**
   * One round of the scan: a reply whose pairs decode and whose cursor goes
   * on contributes its call in front of the calls of the rest of the scan,
   * which continues from the answered cursor with the grown map.
   */
  lemma ScanRound(replies: seq<ScriptReply>, i: nat, decode: Decoder, limit: int, pattern: string,
                  cursor: int, acc: map<string, Value>, m: map<string, Value>, done: seq<ScanCall>)
    requires Conversation(replies) && i < |replies|
    requires DecodeFrom(Items(replies[i]), 0, decode, acc) == Ok(m) && !Final(replies[i])
    ensures i + 1 < |replies|
    ensures var rest := Scan(replies, i + 1, decode, limit, pattern, NextCursor(replies[i]), m);
      var whole := Scan(replies, i, decode, limit, pattern, cursor, acc);
      ScanRun(whole.result, done + whole.calls)
        == ScanRun(rest.result, (done + [ScanCall(cursor, limit, pattern)]) + rest.calls)
  {
    var rest := Scan(replies, i + 1, decode, limit, pattern, NextCursor(replies[i]), m);
    assert done + ([ScanCall(cursor, limit, pattern)] + rest.calls)
      == (done + [ScanCall(cursor, limit, pattern)]) + rest.calls;
  }

  /** The scan a request starts: cursor 0 and an empty map. */
  function ScanAll(replies: seq<ScriptReply>, decode: Decoder, limit: int, pattern: string): ScanRun
    requires Conversation(replies)
  {
    Scan(replies, 0, decode, limit, pattern, 0, map[])
  }

  /** The pair loop gets through the whole reply. */
  predicate Decodes(reply: ScriptReply, decode: Decoder) {
    DecodeFrom(Items(reply), 0, decode, map[]).Ok?
  }

  /** Whether a reply decodes does not depend on what was collected before it. */
  lemma DecodeErrIndependent(reply: ScriptReply, decode: Decoder, acc: map<string, Value>)
    ensures DecodeFrom(Items(reply), 0, decode, acc).Ok? == Decodes(reply, decode)
  {
    DecodeFailsIff(Items(reply), 0, decode, acc);
    DecodeFailsIff(Items(reply), 0, decode, map[]);
  }

  /** A scan fails exactly when the last reply it fetched does not decode: no map is returned then. */
  lemma {:induction false} ScanFailsOnLastFetched(replies: seq<ScriptReply>, i: nat, decode: Decoder, limit: int, pattern: string,
                                                  cursor: int, acc: map<string, Value>)
    requires Conversation(replies) && i < |replies|
    ensures var r := Scan(replies, i, decode, limit, pattern, cursor, acc);
      r.result.Ok? <==> Decodes(replies[i + |r.calls| - 1], decode)
    decreases |replies| - i
  {
    var r := Scan(replies, i, decode, limit, pattern, cursor, acc);
    var d := DecodeFrom(Items(replies[i]), 0, decode, acc);
    DecodeErrIndependent(replies[i], decode, acc);
    if d.Ok? && !Final(replies[i]) {
      var rest := Scan(replies, i + 1, decode, limit, pattern, NextCursor(replies[i]), d.value);
      ScanFailsOnLastFetched(replies, i + 1, decode, limit, pattern, NextCursor(replies[i]), d.value);
      assert r.calls == [ScanCall(cursor, limit, pattern)] + rest.calls;
    }
  }

  /** Every reply a scan fetched before its last one decoded: the scan goes on only past a clean reply. */
  lemma {:induction false} ScanGoesOnOnlyPastCleanReplies(replies: seq<ScriptReply>, i: nat, decode: Decoder, limit: int, pattern: string,
                                                         cursor: int, acc: map<string, Value>)
    requires Conversation(replies) && i < |replies|
    ensures var r := Scan(replies, i, decode, limit, pattern, cursor, acc);
      forall j :: i <= j < i + |r.calls| - 1 ==> Decodes(replies[j], decode)
    decreases |replies| - i
  {
    var r := Scan(replies, i, decode, limit, pattern, cursor, acc);
    var d := DecodeFrom(Items(replies[i]), 0, decode, acc);
    DecodeErrIndependent(replies[i], decode, acc);
    if d.Ok? && !Final(replies[i]) {
      var rest := Scan(replies, i + 1, decode, limit, pattern, NextCursor(replies[i]), d.value);
      ScanGoesOnOnlyPastCleanReplies(replies, i + 1, decode, limit, pattern, NextCursor(replies[i]), d.value);
      assert r.calls == [ScanCall(cursor, limit, pattern)] + rest.calls;
    }
  }

  /** A successful scan returns every key of every reply it fetched. */
  lemma {:induction false} ScanKeepsEveryKey(replies: seq<ScriptReply>, i: nat, decode: Decoder, limit: int, pattern: string,
                                             cursor: int, acc: map<string, Value>)
    requires Conversation(replies) && i < |replies|
    requires Scan(replies, i, decode, limit, pattern, cursor, acc).result.Ok?
    ensures var r := Scan(replies, i, decode, limit, pattern, cursor, acc);
      && acc.Keys <= r.result.value.Keys
      && forall j, p :: i <= j < i + |r.calls| && KeyIndex(Items(replies[j]), 0, p) ==> Items(replies[j])[p] in r.result.value
    decreases |replies| - i
  {
    var items := Items(replies[i]);
    var m := DecodeFrom(items, 0, decode, acc).value;
    DecodeKeepsEveryKey(items, 0, decode, acc);
    if !Final(replies[i]) {
      ScanKeepsEveryKey(replies, i + 1, decode, limit, pattern, NextCursor(replies[i]), m);
    }
  }

  /** `x` is named as a key somewhere in the answer. */
  ghost predicate KeyOf(reply: ScriptReply, x: string) {
    exists p :: KeyIndex(Items(reply), 0, p) && Items(reply)[p] == x
  }

  /** A successful scan returns nothing but the keys it started with and the keys of the answers it fetched. */
  lemma {:induction false} ScanOnlyKeys(replies: seq<ScriptReply>, i: nat, decode: Decoder, limit: int, pattern: string,
                                        cursor: int, acc: map<string, Value>)
    requires Conversation(replies) && i < |replies|
    requires Scan(replies, i, decode, limit, pattern, cursor, acc).result.Ok?
    ensures var r := Scan(replies, i, decode, limit, pattern, cursor, acc);
      forall x :: x in r.result.value ==> x in acc || exists j :: i <= j < i + |r.calls| && KeyOf(replies[j], x)
    decreases |replies| - i
  {
    var r := Scan(replies, i, decode, limit, pattern, cursor, acc);
    var items := Items(replies[i]);
    var m := DecodeFrom(items, 0, decode, acc).value;
    DecodeOnlyKeys(items, 0, decode, acc);
    assert forall x :: x in m ==> x in acc || KeyOf(replies[i], x);
    if !Final(replies[i]) {
      var rest := Scan(replies, i + 1, decode, limit, pattern, NextCursor(replies[i]), m);
      ScanOnlyKeys(replies, i + 1, decode, limit, pattern, NextCursor(replies[i]), m);
      assert |r.calls| == 1 + |rest.calls|;
      forall x | x in r.result.value
        ensures x in acc || exists j :: i <= j < i + |r.calls| && KeyOf(replies[j], x)
      {
        if x !in m {
          var j :| i + 1 <= j < i + 1 + |rest.calls| && KeyOf(replies[j], x);
        } else if x !in acc {
          assert KeyOf(replies[i], x);
        }
      }
    }
  }

  /** A key no fetched answer names keeps the value it had when the scan started. */
  lemma {:induction false} ScanUntouched(replies: seq<ScriptReply>, i: nat, decode: Decoder, limit: int, pattern: string,
                                         cursor: int, acc: map<string, Value>, x: string)
    requires Conversation(replies) && i < |replies| && x in acc
    requires Scan(replies, i, decode, limit, pattern, cursor, acc).result.Ok?
    requires forall j :: i <= j < i + |Scan(replies, i, decode, limit, pattern, cursor, acc).calls| ==> !KeyOf(replies[j], x)
    ensures var r := Scan(replies, i, decode, limit, pattern, cursor, acc);
      x in r.result.value && r.result.value[x] == acc[x]
    decreases |replies| - i
  {
    var r := Scan(replies, i, decode, limit, pattern, cursor, acc);
    var items := Items(replies[i]);
    var m := DecodeFrom(items, 0, decode, acc).value;
    assert !KeyOf(replies[i], x);
    UntouchedKey(items, 0, decode, acc, x);
    if !Final(replies[i]) {
      var rest := Scan(replies, i + 1, decode, limit, pattern, NextCursor(replies[i]), m);
      assert |r.calls| == 1 + |rest.calls|;
      ScanUntouched(replies, i + 1, decode, limit, pattern, NextCursor(replies[i]), m, x);
    }
  }

  /**
   * Across the whole scan a later duplicate overwrites an earlier one: a key
   * ends with the decoded value of its last pair in the last answer naming it.
   */
  lemma {:induction false} ScanLastPairWins(replies: seq<ScriptReply>, i: nat, decode: Decoder, limit: int, pattern: string,
                                            cursor: int, acc: map<string, Value>, j: nat, p: nat)
    requires Conversation(replies) && i < |replies|
    requires Scan(replies, i, decode, limit, pattern, cursor, acc).result.Ok?
    requires i <= j < i + |Scan(replies, i, decode, limit, pattern, cursor, acc).calls|
    requires KeyIndex(Items(replies[j]), 0, p)
    requires forall q :: KeyIndex(Items(replies[j]), 0, q) && p < q ==> Items(replies[j])[q] != Items(replies[j])[p]
    requires forall j' :: j < j' < i + |Scan(replies, i, decode, limit, pattern, cursor, acc).calls| ==>
      !KeyOf(replies[j'], Items(replies[j])[p])
    ensures p + 1 < |Items(replies[j])| && decode(Items(replies[j])[p + 1]).Some?
    ensures var r := Scan(replies, i, decode, limit, pattern, cursor, acc);
      Items(replies[j])[p] in r.result.value && r.result.value[Items(replies[j])[p]] == decode(Items(replies[j])[p + 1]).value
    decreases |replies| - i
  {
    var r := Scan(replies, i, decode, limit, pattern, cursor, acc);
    var items := Items(replies[i]);
    var m := DecodeFrom(items, 0, decode, acc).value;
    if Final(replies[i]) {
      assert j == i;
      LastPairWins(items, 0, decode, acc, p);
    } else {
      var rest := Scan(replies, i + 1, decode, limit, pattern, NextCursor(replies[i]), m);
      assert |r.calls| == 1 + |rest.calls|;
      if j == i {
        LastPairWins(items, 0, decode, acc, p);
        ScanUntouched(replies, i + 1, decode, limit, pattern, NextCursor(replies[i]), m, items[p]);
      } else {
        ScanLastPairWins(replies, i + 1, decode, limit, pattern, NextCursor(replies[i]), m, j, p);
      }
    }
  }

  function TextDecoder(s: string): Option<Value> {
    Some(Text(s))
  }

  /**
   * Two script calls: the first answers cursor 5 with a:1 and b:2, the second
   * cursor 0 with a:3. The scan sends cursors 0 then 5, and the later "a" wins.
   */
  lemma TwoCallExample()
    ensures var r := ScanAll([Matches(5, ["a", "1", "b", "2"]), Matches(0, ["a", "3"])], TextDecoder, 10, "ns:*");
      && r.calls == [ScanCall(0, 10, "ns:*"), ScanCall(5, 10, "ns:*")]
      && r.result == Ok(map["a" := Text("3"), "b" := Text("2")])
  {
    var m1 := map["a" := Text("1"), "b" := Text("2")];
    assert DecodeFrom(["a", "1", "b", "2"], 0, TextDecoder, map[]) == Ok(m1);
    var m2 := m1["a" := Text("3")];
    assert m2 == map["a" := Text("3"), "b" := Text("2")];
    assert DecodeFrom(["a", "3"], 2, TextDecoder, m2) == Ok(m2);
    assert DecodeFrom(["a", "3"], 0, TextDecoder, m1) == Ok(m2);
  }

  /** An empty first answer ends the scan after one call with an empty map. */
  lemma EmptyAnswerExample(decode: Decoder, limit: int, pattern: string)
    ensures ScanAll([NoMatches], decode, limit, pattern) == ScanRun(Ok(map[]), [ScanCall(0, limit, pattern)])
  {
  }
}
