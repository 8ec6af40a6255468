/** What the client's channel takes for granted about answers, proved of the messages
    themselves: which requests are answered, and whose answer an exchange takes. */
module ChannelVerdicts {
  import opened Messages
  import opened BatchBudget
  import opened Execution
  import opened ExecutionProperties
  import opened Client
  import opened BatchAgreement
  import Channel = ClientChannel

  /** A message the client sends: one call or notification, or a batch. */
  datatype Sent = Single(item: BatchItem, id: Option<string>) | Several(items: seq<BatchItem>, ids: seq<Option<string>>)

  ghost predicate WellSent(s: Sent)
  {
    match s
    case Single(item, id) => (id.Some? <==> item.BatchCall?) && (id.Some? ==> |id.value| <= 255)
    case Several(items, ids) => items != [] && DrawnIds(items, ids)
  }

  ghost function MessageOf(s: Sent): Value
    requires WellSent(s)
  {
    match s
    case Single(item, id) => RequestValue(item, id)
    case Several(items, ids) => Arr(BatchRequests(items, ids))
  }

  ghost function IdsOf(s: Sent): set<string>
  {
    match s
    case Single(_, id) => if id.Some? then {id.value} else {}
    case Several(_, ids) => Expected(ids)
  }

  ghost function KindOf(s: Sent): Channel.Kind
  {
    if IdsOf(s) == {} then Channel.OneWay else if s.Single? then Channel.Call else Channel.Batch
  }

  /** What the server makes of the message; it refuses one it cannot decode. */
  ghost function VerdictOf(config: Config, s: Sent, decoded: bool, runs: seq<Run>): Channel.Verdict
    requires WellSent(s) && Ran(s, decoded, runs)
  {
    if !decoded then Channel.Refused
    else
      match s
      case Single(item, id) =>
        if !ValidName(item) then Channel.Refused
        else if Undecodable(config, RequestValue(item, id), runs[0]) then Channel.Garbled
        else Channel.Served
      case Several(items, ids) =>
        if Refused(config, BatchRequests(items, ids)) then Channel.Refused
        else if ValidMethods(items) then Channel.Served
        else Channel.HoldsInvalidItem
  }

  ghost function DataOf(s: Sent, decoded: bool): Option<Value>
    requires WellSent(s)
  {
    if decoded then Some(MessageOf(s)) else None
  }

  ghost predicate Ran(s: Sent, decoded: bool, runs: seq<Run>)
    requires WellSent(s)
  {
    decoded ==> |runs| == Jobs(MessageOf(s))
  }

  /** The exchange's own check of a message. */
  ghost predicate Takes(s: Sent, message: Value)
  {
    match s
    case Single(_, id) => id.Some? && AcceptsCall(message, id.value)
    case Several(_, ids) => Expected(ids) != {} && AcceptsBatch(message, Expected(ids))
  }

  ghost predicate TakesReply(s: Sent, reply: Encoded)
  {
    reply.decodes && Takes(s, reply.value)
  }

  /** `process` returns, rather than raises, and with a reply. */
  ghost predicate Replies(config: Config, s: Sent, decoded: bool, runs: seq<Run>)
    requires WellSent(s) && Ran(s, decoded, runs)
  {
    var processed := Processing(config, DataOf(s, decoded), runs);
    processed.Returns? && processed.reply.Some?
  }

  // ----- Which requests are answered -----

  /** Unless processing it raises, a request is answered exactly when the channel says so;
      and it can raise only for a batch that holds a call. */
  lemma AnsweredAsTheChannelSays(config: Config, s: Sent, decoded: bool, runs: seq<Run>, n: nat)
    requires WellSent(s) && Ran(s, decoded, runs)
    ensures var processed := Processing(config, DataOf(s, decoded), runs);
      if processed.Raises? then KindOf(s) == Channel.Batch
      else Replies(config, s, decoded, runs) <==>
             Channel.AnswerTo(Channel.Request(n, KindOf(s), VerdictOf(config, s, decoded, runs))) != []
  {
    if decoded {
      match s {
        case Single(item, id) => SingleReply(config, item, id, runs);
        case Several(items, ids) =>
          hide BatchRequests, BatchReplies, Refused, Expected, ValidMethods;
          AnsweredIff(config, items, ids, runs);
          if BatchProcessing(config, items, ids, runs).Raises? {
            RaisesForACall(config, items, ids, runs);
          }
      }
    }
  }

  /** The reply to a single request: none to a valid notification, an error without an id to
      an invalid method, and otherwise a response with the call's id. */
  lemma SingleReply(config: Config, item: BatchItem, id: Option<string>, runs: seq<Run>)
    requires WellSent(Single(item, id)) && |runs| == 1
    ensures var reply := Reply(config, Some(RequestValue(item, id)), runs);
      && (reply.None? <==> ValidName(item) && id.None?)
      && (reply.Some? && !ValidName(item) ==> reply.value.value == Envelope(Null, Fault(INVALID_REQUEST)))
      && (reply.Some? && ValidName(item) ==> exists body :: reply.value.value == Envelope(Str(id.value), body))
      && (reply.Some? ==> (!reply.value.decodes <==> ValidName(item) && Undecodable(config, RequestValue(item, id), runs[0])))
      && (Undecodable(config, RequestValue(item, id), runs[0]) ==> reply.Some?)
  {
    if ValidName(item) {
      RequestRoundTrip(item, id);
      if id.Some? {
        ValidCallEnvelopes(config, RequestValue(item, id), runs[0]);
      }
    } else {
      InvalidItem(config, item, id, runs[0]);
    }
  }

  // ----- Whose answer is taken -----

  /** An error without an id: no call takes it, every batch does. */
  lemma LooseError(mine: Sent, e: WireError)
    requires KindOf(mine) != Channel.OneWay
    ensures Takes(mine, Envelope(Null, Fault(e))) <==> mine.Several?
    ensures !IsNotification(Envelope(Null, Fault(e)).fields)
  {
    EnvelopeMembers(Null, Fault(e));
    ErrorMembers(e);
  }

  /** A response with an id: only the call with that id takes it. */
  lemma CallResponse(mine: Sent, id: string, body: Body)
    ensures Takes(mine, Envelope(Str(id), body)) <==> mine.Single? && mine.id == Some(id)
    ensures !IsNotification(Envelope(Str(id), body).fields)
  {
    EnvelopeMembers(Str(id), body);
    EnvelopePasses(id, body);
  }

  /** The reply to an unrefused batch: no call takes it, and of batches at most the one with
      its ids, if every method was valid. */
  lemma BatchResponses(config: Config, mine: Sent, items: seq<BatchItem>, ids: seq<Option<string>>, runs: seq<Run>)
    requires SentBatch(items, ids, runs) && !Refused(config, BatchRequests(items, ids))
    requires mine == Several(items, ids) || IdsOf(mine) !! Expected(ids)
    requires Reply(config, Some(Arr(BatchRequests(items, ids))), runs).Some?
    ensures Takes(mine, Reply(config, Some(Arr(BatchRequests(items, ids))), runs).value.value)
       <==> mine == Several(items, ids) && Expected(ids) != {} && ValidMethods(items)
  {
    hide BatchRequests, BatchReplies, ReplyPosition, Validate, Envelope, Refused, AnswersExactly;
    if mine.Several? && Expected(mine.ids) != {} {
      if mine == Several(items, ids) {
        AcceptedIff(config, items, ids, runs);
      } else if ValidMethods(items) {
        ForeignReplies(config, items, ids, runs, Expected(mine.ids));
      } else {
        var k :| 0 <= k < |items| && !ValidName(items[k]);
        InvalidItemsErrorStays(config, items, ids, runs, k);
        var requests := BatchRequests(items, ids);
        NobodysError(Values(BatchReplies(config, requests, runs)), ReplyPosition(config, requests, runs, k),
                     Expected(mine.ids));
      }
    }
  }

  lemma ForeignReplies(
      config: Config, items: seq<BatchItem>, ids: seq<Option<string>>, runs: seq<Run>, expected: set<string>)
    requires ClientBatch(items, ids, runs) && expected !! Expected(ids)
    requires BatchReplies(config, BatchRequests(items, ids), runs) != []
    ensures !AnswersExactly(Values(BatchReplies(config, BatchRequests(items, ids), runs)), expected)
  {
    hide BatchRequests, BatchReplies, ReplyPosition, Validate, ValidResponse;
    var replies := Values(BatchReplies(config, BatchRequests(items, ids), runs));
    var k := ReplyIsACalls(config, items, ids, runs, 0);
    var body :| replies[0] == Envelope(Str(ids[k].value), body);
    EnvelopePasses(ids[k].value, body);
    assert ids[k].value in Expected(ids);
    assert !ResponseIn(replies[0], expected);
  }

  /** An exchange takes a reply, its own or another's, exactly when the channel says so, and
      no reply is mistaken for a pushed notification.  Ids are never drawn twice. */
  lemma TakenAsTheChannelSays(
      config: Config, mine: Sent, theirs: Sent, decoded: bool, runs: seq<Run>, t: nat, m: nat, n: nat)
    requires WellSent(mine) && WellSent(theirs) && Ran(theirs, decoded, runs) && KindOf(mine) != Channel.OneWay
    requires if m == n then mine == theirs else IdsOf(mine) !! IdsOf(theirs)
    requires Replies(config, theirs, decoded, runs)
    ensures var reply := Processing(config, DataOf(theirs, decoded), runs).reply.value;
      && (reply.decodes && reply.value.Obj? ==> !IsNotification(reply.value.fields))
      && (TakesReply(mine, reply) <==>
            Channel.Accepts(Channel.Owner(t, KindOf(mine), m, Channel.Awaiting),
                            Channel.Answer(n, VerdictOf(config, theirs, decoded, runs))))
  {
    hide BatchRequests, BatchReplies, Envelope, Answer, Refused, AcceptsBatch, AcceptsCall;
    if !decoded {
      LooseError(mine, PARSE_ERROR);
    } else {
      match theirs {
        case Single(item, id) =>
          SingleReply(config, item, id, runs);
          TakesSingle(config, mine, item, id, runs);
        case Several(items, ids) =>
          if Refused(config, BatchRequests(items, ids)) {
            LooseError(mine, INVALID_REQUEST);
          } else {
            BatchResponses(config, mine, items, ids, runs);
          }
      }
    }
  }

  lemma TakesSingle(config: Config, mine: Sent, item: BatchItem, id: Option<string>, runs: seq<Run>)
    requires WellSent(mine) && WellSent(Single(item, id)) && |runs| == 1 && KindOf(mine) != Channel.OneWay
    requires Reply(config, Some(RequestValue(item, id)), runs).Some?
    ensures var message := Reply(config, Some(RequestValue(item, id)), runs).value.value;
      && message.Obj? && !IsNotification(message.fields)
      && (Takes(mine, message) <==> if ValidName(item) then mine.Single? && mine.id == id else mine.Several?)
  {
    hide Takes;
    SingleReply(config, item, id, runs);
    var message := Reply(config, Some(RequestValue(item, id)), runs).value.value;
    if ValidName(item) {
      var body :| message == Envelope(Str(id.value), body);
      CallResponse(mine, id.value, body);
    } else {
      LooseError(mine, INVALID_REQUEST);
    }
  }
}
