/** What the server's replies say, member by member, and what a client makes of them; which
    batches run at all; and what the counters count. */
module WireLaws {
  import opened Messages
  import opened BatchBudget
  import opened Execution
  import opened ExecutionProperties
  import opened Client
  import opened BatchAgreement

  // ----- Errors on the wire -----

  /** The message is an error response: this id, code and text, no data and no result. */
  predicate SaysError(message: Value, id: Value, code: int, text: string)
  {
    && message.Obj?
    && Get(message.fields, "id") == Some(id)
    && Get(message.fields, "jsonrpc") == Some(Str("2.0"))
    && Get(message.fields, "result").None?
    && Get(message.fields, "error").Some? && Get(message.fields, "error").value.Obj?
    && var error := Get(message.fields, "error").value.fields;
       Get(error, "code") == Some(Int(code)) && Get(error, "message") == Some(Str(text)) && Get(error, "data") == Some(Null)
  }

  lemma ErrorSays(id: Value, e: WireError)
    requires e.data == Null
    ensures SaysError(Envelope(id, Fault(e)), id, e.code, e.message)
  {
    EnvelopeMembers(id, Fault(e));
    ErrorMembers(e);
  }

  /** The error a failed dispatch gets: code and text. */
  predicate SaysWhy(message: Value, id: Value, why: Failure)
  {
    match why
    case Deadline => SaysError(message, id, -32000, "Request deadline exceeded")
    case AccessDenied => SaysError(message, id, -32001, "Access denied")
    case PeerBusy => SaysError(message, id, -32002, "Peer already has an active request")
    case Unexpected => SaysError(message, id, -32603, "Internal server error")
  }

  /** A valid call whose dispatch failed, or never started, is told why; one whose response is
      too large gets an internal error; any other gets what its handler returned. */
  lemma CallLaw(config: Config, item: Value, run: Run)
    requires Validate(item).Some? && Validate(item).value.id.Some?
    ensures Answer(config, item, run).Some?
    ensures var reply, id := Answer(config, item, run).value, Validate(item).value.id.value;
      if !run.Returned? then SaysWhy(reply.value, id, run.why) && reply.decodes
      else if run.size > config.maxResponse then SaysError(reply.value, id, -32603, "Internal server error") && reply.decodes
      else reply == Encoded(Envelope(id, run.body), run.size, run.decodes)
  {
    var id := Validate(item).value.id.value;
    ErrorSays(id, INTERNAL_ERROR);
    if !run.Returned? {
      ErrorSays(id, FailureError(run.why));
    }
  }

  /** What the handler returned stands in the response under its id. */
  lemma ReturnedStands(id: Value, body: Body)
    ensures var fields := Envelope(id, body).fields;
      && Get(fields, "id") == Some(id) && Get(fields, "jsonrpc") == Some(Str("2.0"))
      && (body.Result? ==> Get(fields, "result") == Some(body.value) && Get(fields, "error").None?)
      && (body.Fault? ==> Get(fields, "result").None? && Get(fields, "error") == Some(ErrorValue(body.error)))
    ensures body.Fault? ==>
      var error := ErrorValue(body.error);
      && error.Obj?
      && Get(error.fields, "code") == Some(Int(body.error.code))
      && Get(error.fields, "message") == Some(Str(body.error.message))
      && Get(error.fields, "data") == Some(body.error.data)
  {
    EnvelopeMembers(id, body);
    if body.Fault? {
      ErrorMembers(body.error);
    }
  }

  /** A request is valid exactly if it is a dictionary of version 2.0 with a method of 1 to
      255 characters and no id, or a null, short string or 64-bit one. */
  lemma ValidIff(item: Value)
    ensures Validate(item).Some? <==>
      (&& item.Obj?
       && Get(item.fields, "jsonrpc") == Some(Str("2.0"))
       && Get(item.fields, "method").Some? && Get(item.fields, "method").value.Str?
       && 1 <= |Get(item.fields, "method").value.s| <= 255
       && (Get(item.fields, "id").Some? ==>
             match Get(item.fields, "id").value
             case Null => true
             case Str(s) => |s| <= 255
             case Int(i) => -0x8000_0000_0000_0000 <= i < 0x8000_0000_0000_0000
             case _ => false))
    ensures Validate(item).Some? ==>
      var request := Validate(item).value;
      && Get(item.fields, "method") == Some(Str(request.name))
      && request.id == Get(item.fields, "id")
      && request.params == (if Get(item.fields, "params").Some? then Get(item.fields, "params").value else Null)
  {
  }

  /** An invalid request, a message that does not decode and a refused batch get one error
      without an id; a valid notification gets nothing. */
  lemma NoCallLaw(config: Config, item: Value, run: Run)
    ensures Validate(item).None? ==>
      Answer(config, item, run).Some? && SaysError(Answer(config, item, run).value.value, Null, -32600, "Invalid request")
    ensures Validate(item).Some? && Validate(item).value.id.None? ==> Answer(config, item, run).None?
    ensures Processing(config, None, []).Returns? && Processing(config, None, []).reply.Some?
    ensures SaysError(Processing(config, None, []).reply.value.value, Null, -32700, "Invalid encoded request")
  {
    ErrorSays(Null, INVALID_REQUEST);
    ErrorSays(Null, PARSE_ERROR);
  }

  /** The stand-in for an item is an internal error with its id, if that is a string or a number. */
  lemma StandInLaw(config: Config, item: Value)
    requires Fallback(config, item).Some?
    ensures exists id: Value :: SaysError(Fallback(config, item).value.value, id, -32603, "Internal server error")
              && (if item.Obj? && Get(item.fields, "id").Some?
                     && (Get(item.fields, "id").value.Str? || Get(item.fields, "id").value.Int?)
                  then Some(id) == Get(item.fields, "id") else id == Null)
  {
    var own := if item.Obj? then Get(item.fields, "id") else None;
    var id := if own.Some? && (own.value.Str? || own.value.Int?) then own.value else Null;
    ErrorSays(id, INTERNAL_ERROR);
  }

  // ----- Which batches run -----

  /** An empty batch, one longer than allowed, and one whose errors alone might not fit get a
      single error, and nothing of them runs. */
  lemma RefusalLaw(config: Config, items: seq<Value>, runs: seq<Run>)
    requires |runs| == |items| && Refused(config, items)
    ensures var processed := Processing(config, Some(Arr(items)), runs);
      processed.Returns? && processed.reply.Some?
      && SaysError(processed.reply.value.value, Null, -32600, "Invalid request")
    ensures AllDispatches(config, Some(Arr(items)), runs) == []
  {
    ErrorSays(Null, INVALID_REQUEST);
  }

  lemma RefusedIff(config: Config, items: seq<Value>)
    ensures |items| == 0 || |items| > config.maxBatch ==> Refused(config, items)
    ensures 1 <= |items| <= config.maxBatch ==>
      (Refused(config, items) <==> StandIns(config, items, |items|) > config.maxResponse - |items| - 8)
  {
    AllStandIns(config, items, |items|);
    NothingHeld(config, items);
  }

  /** Bytes of the stand-ins of the first k items. */
  function StandIns(config: Config, items: seq<Value>, k: nat): nat
    requires k <= |items|
  {
    if k == 0 then 0
    else StandIns(config, items, k - 1) + (var s := Fallback(config, items[k - 1]); if s.Some? then s.value.size else 0)
  }

  lemma {:induction false} AllStandIns(config: Config, items: seq<Value>, k: nat)
    requires k <= |items|
    ensures Held(Fallbacks(config, items), 0) == StandIns(config, items, k) + Held(Fallbacks(config, items), k)
  {
    hide Fallback;
    if k > 0 {
      AllStandIns(config, items, k - 1);
    }
  }

  lemma NothingHeld(config: Config, items: seq<Value>)
    ensures Held(Fallbacks(config, items), |items|) == 0
  {
  }

  /** A batch of valid requests that leaves 2049 bytes a request runs. */
  lemma {:induction false} ValidBatchRuns(config: Config, items: seq<Value>, k: nat)
    requires k <= |items| && forall i :: 0 <= i < |items| ==> Validate(items[i]).Some?
    ensures StandIns(config, items, k) <= 2048 * k
    ensures k == |items| && 1 <= |items| <= config.maxBatch && 2049 * |items| + 8 <= config.maxResponse ==>
      !Refused(config, items)
  {
    hide Fallback, Refused, Validate;
    if k > 0 {
      ValidBatchRuns(config, items, k - 1);
      ValidStandIn(config, items[k - 1]);
    }
    RefusedIff(config, items);
  }

  lemma ValidStandIn(config: Config, item: Value)
    requires Validate(item).Some?
    ensures Fallback(config, item).Some? ==> Fallback(config, item).value.size <= 2048
  {
    if Fallback(config, item).Some? {
      ErrorEnvelopeFits(config.format, Validate(item).value.id.value, INTERNAL_ERROR);
    }
  }

  // ----- What the client sees -----

  /** The entry of a call whose reply was not displaced. */
  predicate EntryTells(config: Config, run: Run, entry: Entry)
  {
    match run
    case Returned(body, size, _) =>
      if size > config.maxResponse then entry == Failure(-32603, "Internal server error", Null)
      else
        (match body
         case Result(v) => entry == Success(v)
         case Fault(e) => entry == Failure(e.code, e.message, e.data))
    case _ =>
      match run.why
      case Deadline => entry == Failure(-32000, "Request deadline exceeded", Null)
      case AccessDenied => entry == Failure(-32001, "Access denied", Null)
      case PeerBusy => entry == Failure(-32002, "Peer already has an active request", Null)
      case Unexpected => entry == Failure(-32603, "Internal server error", Null)
  }

  /** In the result of a batch that ran, each call's entry tells what became of it, or that
      its reply was displaced; a notification's entry is nothing. */
  lemma EntriesTell(config: Config, items: seq<BatchItem>, ids: seq<Option<string>>, runs: seq<Run>,
                    outcome: Outcome, k: nat)
    requires ClientBatch(items, ids, runs) && Expected(ids) != {} && !Refused(config, BatchRequests(items, ids))
    requires var processed := BatchProcessing(config, items, ids, runs);
      processed.Returns? && (processed.reply.Some? ==> Yields(ids, processed.reply.value.value, outcome))
    requires k < |items|
    ensures outcome.Results? && |outcome.entries| == |items|
    ensures var kept := ChosenReply(config, BatchRequests(items, ids), runs, k)
                        == Answer(config, BatchRequests(items, ids)[k], runs[k]);
      if items[k].BatchNotification? then outcome.entries[k] == Nothing
      else if kept then EntryTells(config, runs[k], outcome.entries[k])
      else outcome.entries[k] == Failure(-32603, "Internal server error", Null)
  {
    hide BatchRequests, BatchReplies, Answer, Refused, Yields, ChosenReply, Validate, AcceptsBatch;
    BatchAgreementHolds(config, items, ids, runs, outcome);
    assert EntryIsOwn(config, items, ids, runs, outcome.entries[k], k);
  }

  // ----- What the client takes -----

  /** A well-formed response: version 2.0, this string id, and either a result or an error
      with a number for code and a string for message. */
  predicate WellFormed(message: Value, id: string)
  {
    && message.Obj?
    && Get(message.fields, "jsonrpc") == Some(Str("2.0"))
    && Get(message.fields, "id") == Some(Str(id))
    && match (Get(message.fields, "result"), Get(message.fields, "error"))
       case (Some(_), None) => true
       case (None, Some(Obj(error))) =>
         && Get(error, "code").Some? && Get(error, "code").value.Int?
         && Get(error, "message").Some? && Get(error, "message").value.Str?
       case _ => false
  }

  /** A call takes exactly the well-formed responses to its id, and a batch only lists of
      well-formed responses, each to an id of its own; none of them counts as pushed, even
      with a method in it. */
  lemma TakesWellFormed(message: Value, id: string, expected: set<string>)
    ensures AcceptsCall(message, id) <==> WellFormed(message, id)
    ensures WellFormed(message, id) ==> !IsNotification(message.fields)
    ensures message.Arr? && AcceptsBatch(message, expected) ==>
      forall i :: 0 <= i < |message.items| ==>
        IdOf(message.items[i]).Some? && IdOf(message.items[i]).value in expected
        && WellFormed(message.items[i], IdOf(message.items[i]).value)
  {
  }

  /** What a server pushes: a method and parameters, and no id. */
  function Pushed(name: string, params: Value): Value
  {
    Obj([Member("method", Str(name)), Member("params", params), Member("jsonrpc", Str("2.0"))])
  }

  /** A pushed notification counts as one, and is nobody's answer. */
  lemma PushedIsNoAnswer(name: string, params: Value, id: string, expected: set<string>)
    ensures IsNotification(Pushed(name, params).fields)
    ensures !AcceptsCall(Pushed(name, params), id) && !AcceptsBatch(Pushed(name, params), expected)
  {
    var fields := Pushed(name, params).fields;
    Get3(fields, "method");
    Get3(fields, "id");
    Get3(fields, "error");
  }

  // ----- Counters -----

  /** A request counts as invalid if it does not validate, and otherwise as completed exactly
      if it is a call answered with what its handler returned, and as failed exactly if its
      dispatch failed or its response was too large; a missed deadline counts as timed out. */
  lemma CountersLaw(config: Config, item: Value, run: Run)
    ensures var tally, valid := Tally(config, item, run), Validate(item).Some?;
      var call := valid && Validate(item).value.id.Some?;
      && tally.requests == 0 && tally.active == 0
      && tally.invalid == (if valid then 0 else 1)
      && tally.completed == (if call && run.Returned? && run.size <= config.maxResponse then 1 else 0)
      && tally.failed == (if valid && (!run.Returned? || (call && run.size > config.maxResponse)) then 1 else 0)
      && tally.timedOut == (if valid && !run.Returned? && run.why == Deadline then 1 else 0)
  {
  }

  /** For calls the counters say what the replies say. */
  lemma CountersMatchReplies(config: Config, item: Value, run: Run)
    requires Validate(item).Some? && Validate(item).value.id.Some?
    ensures var tally, reply, id := Tally(config, item, run), Answer(config, item, run), Validate(item).value.id.value;
      && reply.Some? && tally.completed + tally.failed == 1
      && (tally.completed == 1 ==> run.Returned? && reply.value.value == Envelope(id, run.body))
      && (tally.timedOut == 1 ==> SaysError(reply.value.value, id, -32000, "Request deadline exceeded"))
      && (tally.failed == 1 ==> exists code, text :: SaysError(reply.value.value, id, code, text))
  {
    CallLaw(config, item, run);
    hide Tally;
    CountersLaw(config, item, run);
  }

  /** Over a batch that runs: every item is counted once, except a notification that succeeds. */
  lemma {:induction false} BatchCounters(config: Config, items: seq<Value>, runs: seq<Run>, k: nat)
    requires k <= |items| == |runs|
    ensures var tally := BatchTally(config, items, runs, k);
      && tally.requests == 0 && tally.active == 0 && tally.timedOut <= tally.failed
      && tally.invalid + tally.completed + tally.failed + Silent(items, runs, k) == k
  {
    hide Tally, Validate;
    if k > 0 {
      BatchCounters(config, items, runs, k - 1);
      CountersLaw(config, items[k - 1], runs[k - 1]);
    }
  }

  /** Notifications among the first k items whose handlers returned. */
  function Silent(items: seq<Value>, runs: seq<Run>, k: nat): nat
    requires k <= |items| == |runs|
  {
    if k == 0 then 0
    else
      var request := Validate(items[k - 1]);
      Silent(items, runs, k - 1)
        + (if request.Some? && request.value.id.None? && runs[k - 1].Returned? then 1 else 0)
  }

  /** A message counts as one request; one that does not decode, and a batch that is refused,
      also as one invalid. */
  lemma MessageCounters(config: Config, data: Option<Value>, runs: seq<Run>)
    requires data.Some? ==> |runs| == Jobs(data.value)
    ensures var tally := MessageTally(config, data, runs);
      && tally.requests == 0 && tally.active == 0
      && (data.None? || (data.value.Arr? && Refused(config, data.value.items)) ==>
            tally == ExecutionStats(0, 0, 0, 0, 0, 1))
      && (data.Some? && data.value.Arr? && !Refused(config, data.value.items) ==>
            tally.invalid + tally.completed + tally.failed + Silent(data.value.items, runs, |runs|) == |data.value.items|)
  {
    hide Tally, Refused, Validate;
    if data.Some? && data.value.Arr? {
      BatchCounters(config, data.value.items, runs, |runs|);
    } else if data.Some? {
      CountersLaw(config, data.value, runs[0]);
    }
  }
}
