/** The server's batch loop and the client's independent check of its reply agree. */
module BatchAgreement {
  import opened Messages
  import opened BatchBudget
  import opened Execution
  import opened ExecutionProperties
  import opened Client

  /** What the server takes for a method: 1 to 255 characters.  The client sends any string. */
  predicate ValidName(item: BatchItem)
  {
    1 <= |item.name| <= 255
  }

  predicate ValidMethods(items: seq<BatchItem>)
  {
    forall i :: 0 <= i < |items| ==> ValidName(items[i])
  }

  /** A batch the client sends; it refuses an empty one itself. */
  ghost predicate SentBatch(items: seq<BatchItem>, ids: seq<Option<string>>, runs: seq<Run>)
  {
    items != [] && DrawnIds(items, ids) && |runs| == |items|
  }

  ghost predicate ClientBatch(items: seq<BatchItem>, ids: seq<Option<string>>, runs: seq<Run>)
  {
    SentBatch(items, ids, runs) && ValidMethods(items)
  }

  lemma Get4(fields: seq<Member>, key: string)
    requires |fields| == 4
    ensures Get(fields, key) ==
      if fields[0].key == key then Some(fields[0].value)
      else if fields[1].key == key then Some(fields[1].value)
      else if fields[2].key == key then Some(fields[2].value)
      else if fields[3].key == key then Some(fields[3].value) else None
  {
    Get3(fields[1..], key);
  }

  /** What the client writes, the server reads back: the method, the id and the parameters. */
  lemma RequestRoundTrip(item: BatchItem, id: Option<string>)
    requires 1 <= |item.name| <= 255 && (id.Some? ==> |id.value| <= 255)
    ensures Validate(RequestValue(item, id)) ==
      Some(Request(item.name, if id.Some? then Some(Str(id.value)) else None, item.params))
  {
    var fields := RequestValue(item, id).fields;
    if id.Some? {
      Get4(fields, "method");
      Get4(fields, "id");
      Get4(fields, "params");
      Get4(fields, "jsonrpc");
    } else {
      Get3(fields, "method");
      Get3(fields, "id");
      Get3(fields, "params");
      Get3(fields, "jsonrpc");
    }
  }

  /** Every response envelope of the server passes the client's check for its id. */
  lemma EnvelopePasses(id: string, body: Body)
    ensures IdOf(Envelope(Str(id), body)) == Some(id)
    ensures ValidResponse(Envelope(Str(id), body).fields, id)
    ensures EntryOf(Envelope(Str(id), body)) ==
      match body case Result(v) => Success(v) case Fault(e) => Failure(e.code, e.message, e.data)
  {
    EnvelopeMembers(Str(id), body);
    if body.Fault? {
      ErrorMembers(body.error);
    }
  }

  /** The whole-batch error passes as a refusal, and is not mistaken for a notification. */
  lemma RefusalPasses(config: Config)
    ensures IsRefusal(Refusal(config).value) && !IsNotification(Refusal(config).value.fields)
    ensures ErrorEntry(Get(Refusal(config).value.fields, "error").value) == Failure(-32600, "Invalid request", Null)
  {
    EnvelopeMembers(Null, Fault(INVALID_REQUEST));
    ErrorMembers(INVALID_REQUEST);
  }

  // ----- One item -----

  /** The body item k's reply carries: its own outcome's, or the stand-in's if it was displaced. */
  function ReplyBody(config: Config, requests: seq<Value>, runs: seq<Run>, k: nat): Body
    requires |runs| == |requests| && k < |requests|
    requires Validate(requests[k]).Some? && Validate(requests[k]).value.id.Some?
  {
    if ChosenReply(config, requests, runs, k) == Answer(config, requests[k], runs[k])
    then AnswerBody(config, requests[k], runs[k]) else Fault(INTERNAL_ERROR)
  }

  /** A call's reply stands at its position, with its id and its body. */
  lemma CallReply(config: Config, items: seq<BatchItem>, ids: seq<Option<string>>, runs: seq<Run>, k: nat)
    requires ClientBatch(items, ids, runs) && k < |items| && ids[k].Some?
    ensures var requests := BatchRequests(items, ids);
      var replies := Values(BatchReplies(config, requests, runs));
      var p := ReplyPosition(config, requests, runs, k);
      && Validate(requests[k]).Some? && Validate(requests[k]).value.id.Some?
      && p < |replies|
      && replies[p] == Envelope(Str(ids[k].value), ReplyBody(config, requests, runs, k))
  {
    var requests := BatchRequests(items, ids);
    RequestRoundTrip(items[k], ids[k]);
    ValidCallEnvelopes(config, requests[k], runs[k]);
    BatchAnswersEachCallOnce(config, requests, runs, k);
  }

  /** Every reply belongs to a call. */
  lemma ReplyIsACalls(config: Config, items: seq<BatchItem>, ids: seq<Option<string>>, runs: seq<Run>, p: nat)
    returns (k: nat)
    requires ClientBatch(items, ids, runs)
    requires p < |BatchReplies(config, BatchRequests(items, ids), runs)|
    ensures k < |items| && ids[k].Some? && ReplyPosition(config, BatchRequests(items, ids), runs, k) == p
    ensures exists body :: Values(BatchReplies(config, BatchRequests(items, ids), runs))[p] == Envelope(Str(ids[k].value), body)
  {
    k := ReplyBelongsToAnItem(config, BatchRequests(items, ids), runs, p);
    RequestRoundTrip(items[k], ids[k]);
    CallReply(config, items, ids, runs, k);
  }

  // ----- The whole batch -----

  /** The replies to an unrefused client batch are a bijection with its ids. */
  lemma RepliesAreExact(config: Config, items: seq<BatchItem>, ids: seq<Option<string>>, runs: seq<Run>)
    requires ClientBatch(items, ids, runs)
    ensures AnswersExactly(Values(BatchReplies(config, BatchRequests(items, ids), runs)), Expected(ids))
  {
    var requests := BatchRequests(items, ids);
    var replies := Values(BatchReplies(config, requests, runs));
    forall p | 0 <= p < |replies| ensures ResponseIn(replies[p], Expected(ids)) {
      var k := ReplyIsACalls(config, items, ids, runs, p);
      var body :| replies[p] == Envelope(Str(ids[k].value), body);
      EnvelopePasses(ids[k].value, body);
    }
    forall p, q | 0 <= p < q < |replies| ensures IdOf(replies[p]) != IdOf(replies[q]) {
      var i := ReplyIsACalls(config, items, ids, runs, p);
      var k := ReplyIsACalls(config, items, ids, runs, q);
      var body :| replies[p] == Envelope(Str(ids[i].value), body);
      var other :| replies[q] == Envelope(Str(ids[k].value), other);
      EnvelopePasses(ids[i].value, body);
      EnvelopePasses(ids[k].value, other);
      assert i != k;
    }
    forall id | id in Expected(ids) ensures exists p :: 0 <= p < |replies| && IdOf(replies[p]) == Some(id) {
      var k :| 0 <= k < |ids| && ids[k] == Some(id);
      CallReply(config, items, ids, runs, k);
      EnvelopePasses(id, ReplyBody(config, requests, runs, k));
    }
  }

  /** Some call makes the client wait; some reply makes the server answer. */
  lemma AnsweredIffWaited(config: Config, items: seq<BatchItem>, ids: seq<Option<string>>, runs: seq<Run>)
    requires ClientBatch(items, ids, runs) && !Refused(config, BatchRequests(items, ids))
    ensures Expected(ids) != {} <==> Reply(config, Some(Arr(BatchRequests(items, ids))), runs).Some?
  {
    hide BatchRequests, BatchReplies, ReplyPosition, ReplyBody, Validate, Envelope, Answer, Refused;
    var replies := BatchReplies(config, BatchRequests(items, ids), runs);
    if Expected(ids) != {} {
      var id :| id in Expected(ids);
      var k :| 0 <= k < |ids| && ids[k] == Some(id);
      CallReply(config, items, ids, runs, k);
    }
    if replies != [] {
      var k := ReplyIsACalls(config, items, ids, runs, 0);
      assert ids[k].value in Expected(ids);
    }
  }

  // ----- Items with an invalid method -----

  /** The server does not validate an item with an invalid method; it answers it, called or not. */
  lemma InvalidItem(config: Config, item: BatchItem, id: Option<string>, run: Run)
    requires !ValidName(item)
    ensures Validate(RequestValue(item, id)) == None
    ensures Answer(config, RequestValue(item, id), run)
         == Some(Encode(config.format, Envelope(Null, Fault(INVALID_REQUEST))))
    ensures Fallback(config, RequestValue(item, id))
         == Some(Encode(config.format, Envelope(if id.Some? then Str(id.value) else Null, Fault(INTERNAL_ERROR))))
  {
    var fields := RequestValue(item, id).fields;
    if id.Some? {
      Get4(fields, "method");
      Get4(fields, "id");
    } else {
      Get3(fields, "method");
      Get3(fields, "id");
    }
  }

  /** So it is never replaced by the stand-in, which could carry the id: the list of an
      unrefused batch with an invalid item holds an error without an id. */
  lemma InvalidItemsErrorStays(config: Config, items: seq<BatchItem>, ids: seq<Option<string>>, runs: seq<Run>, k: nat)
    requires SentBatch(items, ids, runs) && k < |items| && !ValidName(items[k])
    requires !Refused(config, BatchRequests(items, ids))
    ensures var requests := BatchRequests(items, ids);
      var p := ReplyPosition(config, requests, runs, k);
      && p < |BatchReplies(config, requests, runs)|
      && Values(BatchReplies(config, requests, runs))[p] == Envelope(Null, Fault(INVALID_REQUEST))
  {
    hide Validate, Envelope, ErrorValue, BatchReplies, ReplyPosition;
    var requests := BatchRequests(items, ids);
    var answers, fallbacks, budget := Answers(config, requests, runs), Fallbacks(config, requests), Budget(config, requests);
    InvalidItem(config, items[k], ids[k], runs[k]);
    OwnErrorIsShorter(config.format, if ids[k].Some? then Str(ids[k].value) else Null);
    hide Answer, Fallback, Size;
    BatchMatched(config, requests, runs);
    SpentPlusHeldFits(answers, fallbacks, budget, k);
    BudgetStep(answers, fallbacks, budget, k);
    BatchAnswersEachCallOnce(config, requests, runs, k);
    assert ChosenReply(config, requests, runs, k) == answers[k];
  }

  /** What becomes of the batch at the server. */
  function BatchProcessing(config: Config, items: seq<BatchItem>, ids: seq<Option<string>>, runs: seq<Run>): Processed
    requires |ids| == |items| == |runs|
  {
    Processing(config, Some(Arr(BatchRequests(items, ids))), runs)
  }

  predicate Replies(config: Config, items: seq<BatchItem>, ids: seq<Option<string>>, runs: seq<Run>)
    requires |ids| == |items| == |runs|
  {
    var processed := BatchProcessing(config, items, ids, runs);
    processed.Returns? && processed.reply.Some?
  }

  /** Only the reply to a call can fail to decode. */
  lemma RaisesForACall(config: Config, items: seq<BatchItem>, ids: seq<Option<string>>, runs: seq<Run>)
    requires SentBatch(items, ids, runs) && BatchProcessing(config, items, ids, runs).Raises?
    ensures !Refused(config, BatchRequests(items, ids)) && Expected(ids) != {}
  {
    var requests := BatchRequests(items, ids);
    RaisesIff(config, requests, runs);
    var k :| 0 <= k < |requests| && KeepsUndecodable(config, requests, runs, k);
    hide HasRoom;
    UndecodableIff(config, requests[k], runs[k]);
    if ValidName(items[k]) {
      RequestRoundTrip(items[k], ids[k]);
      assert ids[k].value in Expected(ids);
    } else {
      InvalidItem(config, items[k], ids[k], runs[k]);
    }
  }

  /** A batch has a reply with a call in it or an invalid item, or when it is refused; and
      only then. */
  lemma HasReplyIff(config: Config, items: seq<BatchItem>, ids: seq<Option<string>>, runs: seq<Run>)
    requires SentBatch(items, ids, runs)
    ensures Reply(config, Some(Arr(BatchRequests(items, ids))), runs).Some?
       <==> Refused(config, BatchRequests(items, ids)) || Expected(ids) != {} || !ValidMethods(items)
  {
    hide BatchRequests, BatchReplies, ReplyPosition, Validate, Envelope, Answer, Refused;
    if !Refused(config, BatchRequests(items, ids)) {
      if ValidMethods(items) {
        AnsweredIffWaited(config, items, ids, runs);
      } else {
        var k :| 0 <= k < |items| && !ValidName(items[k]);
        InvalidItemsErrorStays(config, items, ids, runs, k);
      }
    }
  }

  /** It is answered if and only if it has a reply that can be put together. */
  lemma AnsweredIff(config: Config, items: seq<BatchItem>, ids: seq<Option<string>>, runs: seq<Run>)
    requires SentBatch(items, ids, runs)
    ensures Replies(config, items, ids, runs)
       <==> BatchProcessing(config, items, ids, runs).Returns?
            && (Refused(config, BatchRequests(items, ids)) || Expected(ids) != {} || !ValidMethods(items))
  {
    hide BatchRequests, BatchReplies, Refused;
    HasReplyIff(config, items, ids, runs);
  }

  lemma WaitsForCalls(items: seq<BatchItem>, ids: seq<Option<string>>)
    requires DrawnIds(items, ids)
    ensures Expected(ids) != {} <==> exists i :: 0 <= i < |items| && items[i].BatchCall?
  {
    if i :| 0 <= i < |items| && items[i].BatchCall? {
      assert ids[i].value in Expected(ids);
    }
    if Expected(ids) != {} {
      var id :| id in Expected(ids);
      var k :| 0 <= k < |ids| && ids[k] == Some(id);
      assert items[k].BatchCall?;
    }
  }

  /** The client waits exactly when the server replies if and only if the batch holds a call
      and processing it does not raise, or it is served in full: not refused, and every
      method valid. */
  lemma WaitsIffReplies(config: Config, items: seq<BatchItem>, ids: seq<Option<string>>, runs: seq<Run>)
    requires SentBatch(items, ids, runs)
    ensures (Expected(ids) != {} <==> Replies(config, items, ids, runs))
       <==> (if exists i :: 0 <= i < |items| && items[i].BatchCall? then BatchProcessing(config, items, ids, runs).Returns?
             else !Refused(config, BatchRequests(items, ids)) && ValidMethods(items))
  {
    hide BatchRequests, Replies, BatchProcessing, Refused, Expected, ValidMethods;
    AnsweredIff(config, items, ids, runs);
    WaitsForCalls(items, ids);
    if BatchProcessing(config, items, ids, runs).Raises? {
      RaisesForACall(config, items, ids, runs);
    }
  }

  /** The reply to a batch with a call is accepted if and only if the server refused the whole
      batch or every method, a notification's too, is valid. */
  lemma AcceptedIff(config: Config, items: seq<BatchItem>, ids: seq<Option<string>>, runs: seq<Run>)
    requires SentBatch(items, ids, runs) && Expected(ids) != {}
    ensures var reply := Reply(config, Some(Arr(BatchRequests(items, ids))), runs);
      && reply.Some?
      && (AcceptsBatch(reply.value.value, Expected(ids)) <==>
            (Refused(config, BatchRequests(items, ids)) || ValidMethods(items)))
  {
    HasReplyIff(config, items, ids, runs);
    var requests := BatchRequests(items, ids);
    if Refused(config, requests) {
      RefusalPasses(config);
    } else if ValidMethods(items) {
      RepliesAreExact(config, items, ids, runs);
    } else {
      var k :| 0 <= k < |items| && !ValidName(items[k]);
      InvalidItemsErrorStays(config, items, ids, runs, k);
      NobodysError(Values(BatchReplies(config, requests, runs)), ReplyPosition(config, requests, runs, k), Expected(ids));
    }
  }

  /** A list with an error without an id answers no batch. */
  lemma NobodysError(responses: seq<Value>, p: nat, expected: set<string>)
    requires p < |responses| && responses[p] == Envelope(Null, Fault(INVALID_REQUEST))
    ensures !AnswersExactly(responses, expected)
  {
    EnvelopeMembers(Null, Fault(INVALID_REQUEST));
    assert IdOf(responses[p]).None?;
    assert !ResponseIn(responses[p], expected);
  }

  /** When no handler returned anything, processing does not raise. */
  lemma NothingReturned(config: Config, items: seq<BatchItem>, ids: seq<Option<string>>, runs: seq<Run>)
    requires SentBatch(items, ids, runs) && forall k :: 0 <= k < |runs| ==> !runs[k].Returned?
    ensures BatchProcessing(config, items, ids, runs).Returns?
  {
    hide HasRoom, Refused, BatchReplies;
    var requests := BatchRequests(items, ids);
    if !Refused(config, requests) {
      RaisesIff(config, requests, runs);
      forall k | 0 <= k < |requests| ensures !KeepsUndecodable(config, requests, runs, k) {
        UndecodableIff(config, requests[k], runs[k]);
      }
    }
  }

  /** A batch of one call with an empty method: not refused, answered, and rejected. */
  lemma InvalidMethodIsRejected()
    ensures exists config: Config, items, ids, runs ::
      && config.Valid() && SentBatch(items, ids, runs) && Expected(ids) != {}
      && !Refused(config, BatchRequests(items, ids)) && Replies(config, items, ids, runs)
      && !AcceptsBatch(BatchProcessing(config, items, ids, runs).reply.value.value, Expected(ids))
  {
    hide Refused, BatchReplies, BatchRequests, Reply, AcceptsBatch, Fallback, Answer, RequestValue, Expected;
    var config := Config(Json, 2100, 1);
    var items, ids, runs := [BatchCall("", Null)], [Some("a")], [NotStarted(Unexpected)];
    assert ids[0].value == "a";
    LoneRequest(items, ids);
    assert SentBatch(items, ids, runs) && !ValidName(items[0]) && !ValidMethods(items);
    InvalidItem(config, items[0], ids[0], runs[0]);
    LoneCallIsNotRefused(config, RequestValue(items[0], ids[0]), Str("a"));
    NothingReturned(config, items, ids, runs);
    AcceptedIff(config, items, ids, runs);
  }

  lemma LoneRequest(items: seq<BatchItem>, ids: seq<Option<string>>)
    requires |items| == |ids| == 1 && ids[0].Some?
    ensures BatchRequests(items, ids) == [RequestValue(items[0], ids[0])]
    ensures ids[0].value in Expected(ids)
  {
  }

  /** Two notifications sent to a server that takes one item at a time: an error comes back
      although nobody waits. */
  lemma RefusedNotificationsAreAnswered()
    ensures exists config: Config, items, ids, runs ::
      config.Valid() && ClientBatch(items, ids, runs) && Expected(ids) == {} && Replies(config, items, ids, runs)
  {
    var config := Config(Json, 2048, 1);
    var items := [BatchNotification("a", Null), BatchNotification("b", Null)];
    var ids: seq<Option<string>> := [None, None];
    var runs := [NotStarted(Unexpected), NotStarted(Unexpected)];
    assert Refused(config, BatchRequests(items, ids));
    assert ClientBatch(items, ids, runs) && Expected(ids) == {};
    assert BatchProcessing(config, items, ids, runs) == Returns(Some(Refusal(config)));
    assert Replies(config, items, ids, runs) && config.Valid();
  }

  /** Entry k is taken from item k's own reply. */
  ghost predicate EntriesAreOwn(config: Config, items: seq<BatchItem>, ids: seq<Option<string>>, runs: seq<Run>,
                                entries: seq<Entry>)
    requires ClientBatch(items, ids, runs)
  {
    && |entries| == |items|
    && forall k :: 0 <= k < |items| ==> EntryIsOwn(config, items, ids, runs, entries[k], k)
  }

  ghost predicate EntryIsOwn(config: Config, items: seq<BatchItem>, ids: seq<Option<string>>, runs: seq<Run>,
                             entry: Entry, k: nat)
    requires ClientBatch(items, ids, runs) && k < |items|
  {
    var request := BatchRequests(items, ids)[k];
    if items[k].BatchNotification? then entry == Nothing
    else
      && Validate(request).Some? && Validate(request).value.id.Some?
      && entry == match ReplyBody(config, BatchRequests(items, ids), runs, k)
           case Result(v) => Success(v)
           case Fault(e) => Failure(e.code, e.message, e.data)
  }

  /** End to end, for every batch with a call in it and every outcome of every handler.  If a
      reply the server keeps for a call does not decode, `process` raises after everything
      has run.  Otherwise the server replies, and the client takes the reply for an answer:
      either the server refused the batch and ran none of it, and the client reports one
      error; or every method is valid, and it returns one entry per item, each from that
      item's own reply; or some method is invalid, and it rejects the reply. */
  lemma BatchAgreementHolds(config: Config, items: seq<BatchItem>, ids: seq<Option<string>>, runs: seq<Run>,
                            outcome: Outcome)
    requires SentBatch(items, ids, runs) && Expected(ids) != {}
    ensures BatchProcessing(config, items, ids, runs).Raises? <==> KeepsBadReply(config, items, ids, runs)
    ensures var data := Some(Arr(BatchRequests(items, ids)));
      var processed := BatchProcessing(config, items, ids, runs);
      processed.Returns? ==>
      && processed.reply.Some?
      && var reply := processed.reply.value;
      && reply.decodes
      && (reply.value.Obj? ==> !IsNotification(reply.value.fields))
      && (AcceptsBatch(reply.value, Expected(ids)) <==>
            (Refused(config, BatchRequests(items, ids)) || ValidMethods(items)))
      && (Yields(ids, reply.value, outcome) ==>
            if Refused(config, BatchRequests(items, ids)) then
              && outcome == WholeBatchError(Failure(-32600, "Invalid request", Null))
              && AllDispatches(config, data, runs) == []
            else if ValidMethods(items) then
              outcome.Results? && EntriesAreOwn(config, items, ids, runs, outcome.entries)
            else outcome == ProtocolError)
  {
    var requests := BatchRequests(items, ids);
    RaisesWhenKept(config, items, ids, runs);
    hide KeepsBadReply, KeepsUndecodable;
    AcceptedIff(config, items, ids, runs);
    if Refused(config, requests) {
      RefusalPasses(config);
    } else if ValidMethods(items) {
      RepliesAreExact(config, items, ids, runs);
      var replies := Values(BatchReplies(config, requests, runs));
      if Yields(ids, Arr(replies), outcome) {
        OwnEntries(config, items, ids, runs, outcome.entries);
      }
    }
  }

  /** The batch is not refused, and the reply kept for one of its calls does not decode. */
  ghost predicate KeepsBadReply(config: Config, items: seq<BatchItem>, ids: seq<Option<string>>, runs: seq<Run>)
    requires SentBatch(items, ids, runs)
  {
    && !Refused(config, BatchRequests(items, ids))
    && exists k :: 0 <= k < |items| && KeepsUndecodable(config, BatchRequests(items, ids), runs, k)
  }

  lemma RaisesWhenKept(config: Config, items: seq<BatchItem>, ids: seq<Option<string>>, runs: seq<Run>)
    requires SentBatch(items, ids, runs)
    ensures BatchProcessing(config, items, ids, runs).Raises? <==> KeepsBadReply(config, items, ids, runs)
  {
    hide KeepsUndecodable, BatchRequests, Refused;
    if !Refused(config, BatchRequests(items, ids)) {
      RaisesIff(config, BatchRequests(items, ids), runs);
    }
  }

  lemma OwnEntries(config: Config, items: seq<BatchItem>, ids: seq<Option<string>>, runs: seq<Run>, entries: seq<Entry>)
    requires ClientBatch(items, ids, runs)
    requires AnswersExactly(Values(BatchReplies(config, BatchRequests(items, ids), runs)), Expected(ids))
    requires LinedUp(ids, Values(BatchReplies(config, BatchRequests(items, ids), runs)), entries)
    ensures EntriesAreOwn(config, items, ids, runs, entries)
  {
    hide BatchRequests, BatchReplies, ReplyPosition, ReplyBody, Validate, Envelope, Answer, Refused, EntryOf, ResponseIn;
    var requests := BatchRequests(items, ids);
    var replies := Values(BatchReplies(config, requests, runs));
    forall k | 0 <= k < |items| ensures EntryIsOwn(config, items, ids, runs, entries[k], k) {
      if ids[k].Some? {
        CallReply(config, items, ids, runs, k);
        var p := ReplyPosition(config, requests, runs, k);
        EnvelopePasses(ids[k].value, ReplyBody(config, requests, runs, k));
        var j :| 0 <= j < |replies| && IdOf(replies[j]) == ids[k] && entries[k] == EntryOf(replies[j]);
        assert j == p;
      }
    }
  }
}
