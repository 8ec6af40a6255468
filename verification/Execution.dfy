/** The server's per-request failure boundary and its batch loop.

    `process` answers one decoded message.  What handlers do is not known here: each
    request comes with a `Run` saying how its dispatch went, and every property holds for
    all of them.  Cancellation, the only thing that escapes, is not a `Run`. */
module Execution {
  import opened Messages
  import opened BatchBudget

  // ----- Limits -----

  datatype Config = Config(format: Format, maxResponse: nat, maxBatch: nat)
  {
    predicate Valid() { maxResponse >= 2048 && maxBatch >= 1 }
  }

  /** Constructor checks on the limits; a transport may cap the response size. */
  function Configure(format: Format, maxResponse: int, maxBatch: int, transportMax: Option<nat>): (c: Option<Config>)
    ensures c.Some? ==> c.value.Valid() && c.value.maxResponse <= maxResponse
    ensures c.Some? && transportMax.Some? ==> c.value.maxResponse <= transportMax.value
  {
    if maxResponse < 256 || maxBatch <= 0 then None
    else
      var size := if transportMax.Some? && transportMax.value < maxResponse then transportMax.value else maxResponse;
      if size < 2048 then None else Some(Config(format, size, maxBatch))
  }

  // ----- Requests -----

  /** A validated request; `id` is None when it was left unset, which makes it a notification. */
  datatype Request = Request(name: string, id: Option<Value>, params: Value)

  predicate ValidMethod(v: Option<Value>)
  {
    v.Some? && v.value.Str? && 1 <= |v.value.s| <= 255
  }

  predicate ValidId(v: Option<Value>)
  {
    v.None? ||
    match v.value
    case Null => true
    case Str(s) => |s| <= 255
    case Int(i) => -0x8000_0000_0000_0000 <= i <= 0x7fff_ffff_ffff_ffff
    case _ => false
  }

  /** Conversion of a dictionary to the request struct; `jsonrpc` may be left out here. */
  function ConvertRequest(fields: seq<Member>): Option<Request>
  {
    var name, id, version := Get(fields, "method"), Get(fields, "id"), Get(fields, "jsonrpc");
    if ValidMethod(name) && ValidId(id) && version in {None, Some(Str("2.0"))} then
      var params := Get(fields, "params");
      Some(Request(name.value.s, id, if params.Some? then params.value else Null))
    else None
  }

  /** The request in an envelope, or None for an invalid one. */
  function Validate(envelope: Value): Option<Request>
  {
    if envelope.Obj? && Get(envelope.fields, "jsonrpc") == Some(Str("2.0"))
    then ConvertRequest(envelope.fields)
    else None
  }

  // ----- Responses -----

  datatype WireError = WireError(code: int, message: string, data: Value)

  datatype Body = Result(value: Value) | Fault(error: WireError)

  const INVALID_REQUEST := WireError(-32600, "Invalid request", Null)
  const PARSE_ERROR := WireError(-32700, "Invalid encoded request", Null)
  const INTERNAL_ERROR := WireError(-32603, "Internal server error", Null)

  /** Why a dispatch raised. */
  datatype Failure = Deadline | PeerBusy | AccessDenied | Unexpected

  function FailureError(why: Failure): WireError
  {
    match why
    case Deadline => WireError(-32000, "Request deadline exceeded", Null)
    case PeerBusy => WireError(-32002, "Peer already has an active request", Null)
    case AccessDenied => WireError(-32001, "Access denied", Null)
    case Unexpected => INTERNAL_ERROR
  }

  /** Struct fields encode in declaration order; server errors put the code before the data. */
  function ErrorValue(e: WireError): Value
  {
    if -32099 <= e.code <= -32000
    then Obj([Member("message", Str(e.message)), Member("code", Int(e.code)), Member("data", e.data)])
    else Obj([Member("message", Str(e.message)), Member("data", e.data), Member("code", Int(e.code))])
  }

  function Envelope(id: Value, body: Body): Value
  {
    Obj([match body case Result(v) => Member("result", v) case Fault(e) => Member("error", ErrorValue(e)),
         Member("id", id), Member("jsonrpc", Str("2.0"))])
  }

  function Encode(format: Format, v: Value): Encoded
  {
    Encoded(v, Size(format, v), true)
  }

  // ----- One request -----

  /** How a valid request's dispatch went.  It may never start, when looking up the
      principal fails first.  What a handler returned comes with the size of the response
      the codec made of it, which need not be the size of the data that response decodes to,
      and with whether it decodes at all: a handler may return bytes to be sent as they are. */
  datatype Run = NotStarted(why: Failure) | Raised(why: Failure) | Returned(body: Body, size: nat, decodes: bool)

  /** The reply to one envelope, or None for a notification. */
  function Answer(config: Config, envelope: Value, run: Run): Option<Encoded>
  {
    match Validate(envelope)
    case None => Some(Encode(config.format, Envelope(Null, Fault(INVALID_REQUEST))))
    case Some(Request(_, None, _)) => None
    case Some(Request(_, Some(id), _)) =>
      match run
      case Returned(body, size, decodes) =>
        if size > config.maxResponse
        then Some(Encode(config.format, Envelope(id, Fault(INTERNAL_ERROR))))
        else Some(Encoded(Envelope(id, body), size, decodes))
      case _ => Some(Encode(config.format, Envelope(id, Fault(FailureError(run.why)))))
  }

  /** The requests handed to the dispatcher for one envelope. */
  function Dispatches(envelope: Value, run: Run): seq<Request>
  {
    var request := Validate(envelope);
    if request.Some? && !run.NotStarted? then [request.value] else []
  }

  /** The stand-in for an item's reply, or None for a valid notification. */
  function Fallback(config: Config, item: Value): Option<Encoded>
  {
    if item.Obj? && Get(item.fields, "id").None? && Get(item.fields, "jsonrpc") == Some(Str("2.0"))
       && ConvertRequest(item.fields).Some? then None
    else
      var id := if item.Obj? then Get(item.fields, "id") else None;
      var kept := if id.Some? && (id.value.Str? || id.value.Int?) then id.value else Null;
      Some(Encode(config.format, Envelope(kept, Fault(INTERNAL_ERROR))))
  }

  // ----- One message -----

  function Answers(config: Config, items: seq<Value>, runs: seq<Run>): (slots: Slots)
    requires |runs| == |items|
    ensures |slots| == |items|
  {
    seq(|items|, i requires 0 <= i < |items| => Answer(config, items[i], runs[i]))
  }

  function Fallbacks(config: Config, items: seq<Value>): (slots: Slots)
    ensures |slots| == |items|
  {
    seq(|items|, i requires 0 <= i < |items| => Fallback(config, items[i]))
  }

  /** A batch refused before any of it runs. */
  predicate Refused(config: Config, items: seq<Value>)
  {
    || |items| == 0
    || |items| > config.maxBatch
    || Held(Fallbacks(config, items), 0) + |items| + 8 > config.maxResponse
  }

  function Refusal(config: Config): Encoded
  {
    Encode(config.format, Envelope(Null, Fault(INVALID_REQUEST)))
  }

  function Budget(config: Config, items: seq<Value>): int
  {
    config.maxResponse - |items| - 8
  }

  /** The replies of a batch that was not refused. */
  function BatchReplies(config: Config, items: seq<Value>, runs: seq<Run>): seq<Encoded>
    requires |runs| == |items|
  {
    Collected(Answers(config, items, runs), Fallbacks(config, items), Budget(config, items), |items|)
  }

  function Values(replies: seq<Encoded>): (vs: seq<Value>)
    ensures |vs| == |replies|
    ensures forall i :: 0 <= i < |vs| ==> vs[i] == replies[i].value
  {
    if replies == [] then []
    else Values(replies[..|replies| - 1]) + [replies[|replies| - 1].value]
  }

  function Jobs(envelope: Value): nat
  {
    if envelope.Arr? then |envelope.items| else 1
  }

  /** The reply to a message, `data` being None when its bytes do not decode. */
  function Reply(config: Config, data: Option<Value>, runs: seq<Run>): Option<Encoded>
    requires data.Some? ==> |runs| == Jobs(data.value)
  {
    match data
    case None => Some(Encode(config.format, Envelope(Null, Fault(PARSE_ERROR))))
    case Some(Arr(items)) =>
      if Refused(config, items) then Some(Refusal(config))
      else
        var replies := BatchReplies(config, items, runs);
        if replies == [] then None else Some(Encode(config.format, Arr(Values(replies))))
    case Some(envelope) => Answer(config, envelope, runs[0])
  }

  /** What `process` comes to: it raises, or returns a reply or None. */
  datatype Processed = Raises | Returns(reply: Option<Encoded>)

  predicate AllDecode(replies: seq<Encoded>)
  {
    forall i :: 0 <= i < |replies| ==> replies[i].decodes
  }

  /** A batch decodes its replies to put them in a list, with nothing to catch a failure; a
      single reply is sent as it is. */
  function Processing(config: Config, data: Option<Value>, runs: seq<Run>): Processed
    requires data.Some? ==> |runs| == Jobs(data.value)
  {
    if data.Some? && data.value.Arr? && !Refused(config, data.value.items)
       && !AllDecode(BatchReplies(config, data.value.items, runs)) then Raises
    else Returns(Reply(config, data, runs))
  }

  function BatchDispatches(items: seq<Value>, runs: seq<Run>, k: nat): seq<Request>
    requires k <= |items| == |runs|
  {
    if k == 0 then [] else BatchDispatches(items, runs, k - 1) + Dispatches(items[k - 1], runs[k - 1])
  }

  /** Everything a message hands to the dispatcher, in order. */
  function AllDispatches(config: Config, data: Option<Value>, runs: seq<Run>): seq<Request>
    requires data.Some? ==> |runs| == Jobs(data.value)
  {
    match data
    case None => []
    case Some(Arr(items)) => if Refused(config, items) then [] else BatchDispatches(items, runs, |items|)
    case Some(envelope) => Dispatches(envelope, runs[0])
  }

  // ----- The server object -----

  /** Counters describing request outcomes. */
  datatype ExecutionStats = ExecutionStats(
    requests: nat, active: nat, completed: nat, failed: nat, timedOut: nat, invalid: nat)
  {
    function Plus(o: ExecutionStats): ExecutionStats
    {
      ExecutionStats(requests + o.requests, active + o.active, completed + o.completed,
                     failed + o.failed, timedOut + o.timedOut, invalid + o.invalid)
    }
  }

  const NOTHING := ExecutionStats(0, 0, 0, 0, 0, 0)

  /** What one envelope adds to the counters: a reply that had to be replaced because of its
      own size counts as failed, a successful notification counts as nothing. */
  function Tally(config: Config, envelope: Value, run: Run): ExecutionStats
  {
    match Validate(envelope)
    case None => NOTHING.(invalid := 1)
    case Some(request) =>
      match run
      case Returned(_, size, _) =>
        if request.id.None? then NOTHING
        else if size > config.maxResponse then NOTHING.(failed := 1)
        else NOTHING.(completed := 1)
      case _ => NOTHING.(failed := 1, timedOut := if run.why.Deadline? then 1 else 0)
  }

  function BatchTally(config: Config, items: seq<Value>, runs: seq<Run>, k: nat): ExecutionStats
    requires k <= |items| == |runs|
  {
    if k == 0 then NOTHING else BatchTally(config, items, runs, k - 1).Plus(Tally(config, items[k - 1], runs[k - 1]))
  }

  function MessageTally(config: Config, data: Option<Value>, runs: seq<Run>): ExecutionStats
    requires data.Some? ==> |runs| == Jobs(data.value)
  {
    match data
    case None => NOTHING.(invalid := 1)
    case Some(Arr(items)) =>
      if Refused(config, items) then NOTHING.(invalid := 1) else BatchTally(config, items, runs, |items|)
    case Some(envelope) => Tally(config, envelope, runs[0])
  }

  class ExecutionHost {
    const config: Config
    var stats: ExecutionStats
    // Every request handed to the dispatcher so far.
    ghost var dispatched: seq<Request>

    constructor (config: Config)
      ensures this.config == config && stats == NOTHING && dispatched == []
    {
      this.config := config;
      stats := NOTHING;
      dispatched := [];
    }

    /** Validate, dispatch and encode one decoded request. */
    method ProcessOne(envelope: Value, run: Run) returns (reply: Option<Encoded>)
      modifies this
      ensures reply == Answer(config, envelope, run)
      ensures dispatched == old(dispatched) + Dispatches(envelope, run)
      ensures stats == old(stats).Plus(Tally(config, envelope, run))
    {
      var request := Validate(envelope);
      if request.None? {
        stats := stats.(invalid := stats.invalid + 1);
        return Some(Encode(config.format, Envelope(Null, Fault(INVALID_REQUEST))));
      }
      var notification := request.value.id.None?;
      var responseId := if notification then Null else request.value.id.value;
      stats := stats.(active := stats.active + 1);
      if !run.NotStarted? {
        dispatched := dispatched + [request.value];
      }
      if run.Returned? && notification {
        reply := None;
      } else if run.Returned? && run.size <= config.maxResponse {
        stats := stats.(completed := stats.completed + 1);
        reply := Some(Encoded(Envelope(responseId, run.body), run.size, run.decodes));
      } else {
        stats := stats.(failed := stats.failed + 1);
        var why := if run.Returned? then Unexpected else run.why;
        if why.Deadline? {
          stats := stats.(timedOut := stats.timedOut + 1);
        }
        reply := if notification then None
                 else Some(Encode(config.format, Envelope(responseId, Fault(FailureError(why)))));
      }
      stats := stats.(active := stats.active - 1);
    }

    /** Nothing of the batch has run: its one error carries no id. */
    method RefuseBatch() returns (reply: Encoded)
      modifies this
      ensures reply == Refusal(config)
      ensures stats == old(stats).Plus(NOTHING.(invalid := 1))
      ensures dispatched == old(dispatched)
    {
      stats := stats.(invalid := stats.invalid + 1);
      reply := Encode(config.format, Envelope(Null, Fault(INVALID_REQUEST)));
    }

    /** The batch loop: run the items in order, keeping every later stand-in's room free. */
    method RunBatch(items: seq<Value>, fallbacks: Slots, runs: seq<Run>) returns (replies: seq<Encoded>)
      requires |runs| == |items| && fallbacks == Fallbacks(config, items)
      requires Held(fallbacks, 0) <= Budget(config, items)
      modifies this
      ensures replies == BatchReplies(config, items, runs)
      ensures dispatched == old(dispatched) + BatchDispatches(items, runs, |items|)
      ensures stats == old(stats).Plus(BatchTally(config, items, runs, |items|))
    {
      hide Answer, Fallback, Tally, Dispatches;
      var remaining: int := config.maxResponse - |items| - 8;
      var reserved := Held(fallbacks, 0);
      replies := [];
      ghost var answers, budget := Answers(config, items, runs), Budget(config, items);
      assert Spent(answers, fallbacks, budget, 0) == 0 && Collected(answers, fallbacks, budget, 0) == [];
      hide Spent, Chosen, Collected, Held;
      for k := 0 to |items|
        invariant remaining == budget - Spent(answers, fallbacks, budget, k)
        invariant reserved == Held(fallbacks, k)
        invariant replies == Collected(answers, fallbacks, budget, k)
        invariant dispatched == old(dispatched) + BatchDispatches(items, runs, k)
        invariant stats == old(stats).Plus(BatchTally(config, items, runs, k))
      {
        BudgetStep(answers, fallbacks, budget, k);
        var item, fallback := items[k], fallbacks[k];
        ghost var before := dispatched;
        var one := ProcessOne(item, runs[k]);
        assert one == answers[k];
        assert dispatched == old(dispatched) + BatchDispatches(items, runs, k + 1) by {
          assert before == old(dispatched) + BatchDispatches(items, runs, k);
        }
        if fallback.Some? {
          reserved := reserved - fallback.value.size;
        }
        if one.Some? {
          var chosen := one.value;
          if fallback.Some? && chosen.size > remaining - reserved {
            chosen := fallback.value;
          }
          remaining := remaining - chosen.size;
          replies := replies + [chosen];
        }
      }
    }

    /** The replies of a batch as one encoded list, unless one of them does not decode. */
    method EncodeList(replies: seq<Encoded>) returns (outcome: Processed)
      ensures outcome == if AllDecode(replies) then Returns(Some(Encode(config.format, Arr(Values(replies))))) else Raises
    {
      var values: seq<Value> := [];
      for k := 0 to |replies|
        invariant AllDecode(replies[..k]) && values == Values(replies[..k])
      {
        if !replies[k].decodes {
          return Raises;
        }
        assert replies[..k + 1][..k] == replies[..k] && replies[..k + 1][k] == replies[k];
        values := values + [replies[k].value];
      }
      assert replies[..|replies|] == replies;
      outcome := Returns(Some(Encode(config.format, Arr(values))));
    }

    /** Decode, dispatch and encode one message.  Everything is dispatched and counted before
        it can raise. */
    method Process(data: Option<Value>, runs: seq<Run>) returns (outcome: Processed)
      requires data.Some? ==> |runs| == Jobs(data.value)
      modifies this
      ensures outcome == Processing(config, data, runs)
      ensures dispatched == old(dispatched) + AllDispatches(config, data, runs)
      ensures stats == old(stats).Plus(MessageTally(config, data, runs)).Plus(NOTHING.(requests := 1))
    {
      stats := stats.(requests := stats.requests + 1);
      if data.None? {
        stats := stats.(invalid := stats.invalid + 1);
        return Returns(Some(Encode(config.format, Envelope(Null, Fault(PARSE_ERROR)))));
      }
      if !data.value.Arr? {
        var reply := ProcessOne(data.value, runs[0]);
        return Returns(reply);
      }
      outcome := ProcessBatch(data.value.items, runs);
    }

    method ProcessBatch(items: seq<Value>, runs: seq<Run>) returns (outcome: Processed)
      requires |runs| == |items|
      modifies this
      ensures outcome == Processing(config, Some(Arr(items)), runs)
      ensures dispatched == old(dispatched) + AllDispatches(config, Some(Arr(items)), runs)
      ensures stats == old(stats).Plus(MessageTally(config, Some(Arr(items)), runs))
    {
      hide BatchReplies, BatchTally, BatchDispatches, Fallback, Values;
      if |items| == 0 || |items| > config.maxBatch {
        var refusal := RefuseBatch();
        return Returns(Some(refusal));
      }
      var fallbacks := Fallbacks(config, items);
      var reserve := Held(fallbacks, 0) + |items| + 8;
      if reserve > config.maxResponse {
        var refusal := RefuseBatch();
        return Returns(Some(refusal));
      }
      var replies := RunBatch(items, fallbacks, runs);
      if replies == [] {
        return Returns(None);
      }
      outcome := EncodeList(replies);
    }
  }
}
