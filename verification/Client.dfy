/** The client's side of a batch: checking the reply and lining results up with items.

    Every check that raises closes the client, whatever it raises, so a rejected reply is
    just `false` here. */
module Client {
  import opened Messages

  datatype BatchItem = BatchCall(name: string, params: Value) | BatchNotification(name: string, params: Value)

  /** One entry of a batch result. */
  datatype Entry = Nothing | Success(value: Value) | Failure(code: int, message: string, data: Value)

  datatype Outcome = ProtocolError | WholeBatchError(error: Entry) | Results(entries: seq<Entry>)

  // ----- Pure checks -----

  /** Pushed by the server on its own account, so nobody's answer. */
  predicate IsNotification(fields: seq<Member>)
  {
    Get(fields, "method").Some? && Get(fields, "id").None?
  }

  predicate ValidError(error: Value)
  {
    && error.Obj?
    && Get(error.fields, "code").Some? && Get(error.fields, "code").value.Int?
    && Get(error.fields, "message").Some? && Get(error.fields, "message").value.Str?
  }

  /** A well-formed response to `id`: section 5 of the JSON-RPC 2.0 Specification. */
  predicate ValidResponse(fields: seq<Member>, id: string)
  {
    && Get(fields, "jsonrpc") == Some(Str("2.0"))
    && Get(fields, "id") == Some(Str(id))
    && Get(fields, "result").Some? != Get(fields, "error").Some?
    && (Get(fields, "error").Some? ==> ValidError(Get(fields, "error").value))
  }

  /** What a call takes for its answer. */
  predicate AcceptsCall(message: Value, id: string)
  {
    message.Obj? && ValidResponse(message.fields, id)
  }

  /** The string id of an envelope, if it has one. */
  function IdOf(envelope: Value): Option<string>
  {
    if envelope.Obj? && Get(envelope.fields, "id").Some? && Get(envelope.fields, "id").value.Str?
    then Some(Get(envelope.fields, "id").value.s) else None
  }

  predicate ResponseIn(envelope: Value, expected: set<string>)
  {
    IdOf(envelope).Some? && IdOf(envelope).value in expected
    && ValidResponse(envelope.fields, IdOf(envelope).value)
  }

  /** A whole-batch refusal: an error object with a null or missing id. */
  predicate IsRefusal(message: Value)
  {
    && message.Obj?
    && Get(message.fields, "id") in {None, Some(Null)}
    && Get(message.fields, "error").Some? && ValidError(Get(message.fields, "error").value)
  }

  /** The responses are a bijection with the expected ids. */
  ghost predicate AnswersExactly(responses: seq<Value>, expected: set<string>)
  {
    && (forall i :: 0 <= i < |responses| ==> ResponseIn(responses[i], expected))
    && (forall i, j :: 0 <= i < j < |responses| ==> IdOf(responses[i]) != IdOf(responses[j]))
    && (forall id :: id in expected ==> exists i :: 0 <= i < |responses| && IdOf(responses[i]) == Some(id))
  }

  ghost predicate AcceptsBatch(message: Value, expected: set<string>)
  {
    IsRefusal(message) || (message.Arr? && AnswersExactly(message.items, expected))
  }

  /** The one-pass check with a `seen` set accepts exactly refusals and bijections. */
  method BatchResponse(message: Value, expected: set<string>) returns (accepted: bool)
    ensures accepted <==> AcceptsBatch(message, expected)
  {
    if message.Obj? {
      return IsRefusal(message);
    }
    if !message.Arr? {
      return false;
    }
    var seen: set<string> := {};
    for k := 0 to |message.items|
      invariant forall i :: 0 <= i < k ==> ResponseIn(message.items[i], expected)
      invariant forall i :: 0 <= i < k ==> IdOf(message.items[i]).value in seen
      invariant forall id :: id in seen ==> id in expected && exists i :: 0 <= i < k && IdOf(message.items[i]) == Some(id)
      invariant forall i, j :: 0 <= i < j < k ==> IdOf(message.items[i]) != IdOf(message.items[j])
    {
      var envelope := message.items[k];
      if IdOf(envelope).None? || IdOf(envelope).value !in expected || IdOf(envelope).value in seen {
        return false;
      }
      if !ValidResponse(envelope.fields, IdOf(envelope).value) {
        return false;
      }
      seen := seen + {IdOf(envelope).value};
    }
    accepted := seen == expected;
    if !accepted {
      var missing :| missing in expected && missing !in seen;
      assert forall i :: 0 <= i < |message.items| ==> IdOf(message.items[i]) != Some(missing);
    }
  }

  // ----- Results -----

  function ErrorEntry(error: Value): Entry
    requires ValidError(error)
  {
    var data := Get(error.fields, "data");
    Failure(Get(error.fields, "code").value.i, Get(error.fields, "message").value.s,
            if data.Some? then data.value else Null)
  }

  function EntryOf(envelope: Value): Entry
    requires envelope.Obj? && exists id :: ValidResponse(envelope.fields, id)
  {
    var error := Get(envelope.fields, "error");
    if error.Some? then ErrorEntry(error.value) else Success(Get(envelope.fields, "result").value)
  }

  ghost function Expected(ids: seq<Option<string>>): set<string>
  {
    set i | 0 <= i < |ids| && ids[i].Some? :: ids[i].value
  }

  /** Entry k is the answer of the response with item k's id. */
  ghost predicate LinedUp(ids: seq<Option<string>>, responses: seq<Value>, entries: seq<Entry>)
    requires AnswersExactly(responses, Expected(ids))
  {
    && |entries| == |ids|
    && forall k :: 0 <= k < |ids| ==>
         if ids[k].None? then entries[k] == Nothing
         else exists j :: 0 <= j < |responses| && IdOf(responses[j]) == ids[k] && entries[k] == EntryOf(responses[j])
  }

  ghost predicate Yields(ids: seq<Option<string>>, message: Value, outcome: Outcome)
  {
    if IsRefusal(message) then outcome == WholeBatchError(ErrorEntry(Get(message.fields, "error").value))
    else if AcceptsBatch(message, Expected(ids)) then
      outcome.Results? && LinedUp(ids, message.items, outcome.entries)
    else outcome == ProtocolError
  }

  /** A reply determines the outcome. */
  lemma YieldsOnce(ids: seq<Option<string>>, message: Value, a: Outcome, b: Outcome)
    requires Yields(ids, message, a) && Yields(ids, message, b)
    ensures a == b
  {
    if !IsRefusal(message) && AcceptsBatch(message, Expected(ids)) {
      forall k | 0 <= k < |ids| ensures a.entries[k] == b.entries[k] {
        if ids[k].Some? {
          var i :| 0 <= i < |message.items| && IdOf(message.items[i]) == ids[k] && a.entries[k] == EntryOf(message.items[i]);
          var j :| 0 <= j < |message.items| && IdOf(message.items[j]) == ids[k] && b.entries[k] == EntryOf(message.items[j]);
          assert i == j;
        }
      }
      assert a.entries == b.entries;
    }
  }

  /** The responses by id. */
  method IndexById(responses: seq<Value>) returns (byId: map<string, Value>)
    requires forall j :: 0 <= j < |responses| ==> IdOf(responses[j]).Some?
    requires forall i, j :: 0 <= i < j < |responses| ==> IdOf(responses[i]) != IdOf(responses[j])
    ensures forall j :: 0 <= j < |responses| ==>
      IdOf(responses[j]).value in byId && byId[IdOf(responses[j]).value] == responses[j]
  {
    byId := map[];
    for k := 0 to |responses|
      invariant forall j :: 0 <= j < k ==>
        IdOf(responses[j]).value in byId && byId[IdOf(responses[j]).value] == responses[j]
    {
      byId := byId[IdOf(responses[k]).value := responses[k]];
    }
  }

  /** Give each item the answer carrying its own id. */
  method LineUp(ids: seq<Option<string>>, responses: seq<Value>) returns (entries: seq<Entry>)
    requires AnswersExactly(responses, Expected(ids))
    ensures LinedUp(ids, responses, entries)
  {
    var byId := IndexById(responses);
    entries := [];
    for k := 0 to |ids|
      invariant |entries| == k
      invariant forall i :: 0 <= i < k ==>
        if ids[i].None? then entries[i] == Nothing
        else exists j :: 0 <= j < |responses| && IdOf(responses[j]) == ids[i] && entries[i] == EntryOf(responses[j])
    {
      if ids[k].None? {
        entries := entries + [Nothing];
      } else {
        ghost var id := ids[k].value;
        assert id in Expected(ids);
        ghost var j :| 0 <= j < |responses| && IdOf(responses[j]) == Some(id);
        assert byId[id] == responses[j] && ResponseIn(responses[j], Expected(ids));
        entries := entries + [EntryOf(byId[ids[k].value])];
      }
    }
  }

  /** What `batch` makes of the reply it waited for. */
  method FinishBatch(ids: seq<Option<string>>, message: Value) returns (outcome: Outcome)
    ensures Yields(ids, message, outcome)
  {
    var expected := set i | 0 <= i < |ids| && ids[i].Some? :: ids[i].value;
    var accepted := BatchResponse(message, expected);
    if !accepted {
      outcome := ProtocolError;
    } else if message.Obj? {
      outcome := WholeBatchError(ErrorEntry(Get(message.fields, "error").value));
    } else {
      var entries := LineUp(ids, message.items);
      outcome := Results(entries);
    }
  }

  // ----- Requests -----

  /** The request struct as decoded on the other side; an unset id is left out. */
  function RequestValue(item: BatchItem, id: Option<string>): Value
  {
    Obj(if id.Some?
        then [Member("method", Str(item.name)), Member("id", Str(id.value)), Member("params", item.params), Member("jsonrpc", Str("2.0"))]
        else [Member("method", Str(item.name)), Member("params", item.params), Member("jsonrpc", Str("2.0"))])
  }

  /** What `batch` sends for its items. */
  function BatchRequests(items: seq<BatchItem>, ids: seq<Option<string>>): (requests: seq<Value>)
    requires |ids| == |items|
    ensures |requests| == |items|
  {
    seq(|items|, i requires 0 <= i < |items| => RequestValue(items[i], ids[i]))
  }

  /** Ids as `batch` draws them: one fresh id per call, none per notification. */
  ghost predicate DrawnIds(items: seq<BatchItem>, ids: seq<Option<string>>)
  {
    && |ids| == |items|
    && (forall i :: 0 <= i < |ids| ==> (ids[i].Some? <==> items[i].BatchCall?))
    && (forall i :: 0 <= i < |ids| && ids[i].Some? ==> |ids[i].value| <= 255)
    && (forall i, j :: 0 <= i < j < |ids| && ids[i].Some? ==> ids[i] != ids[j])
  }
}
