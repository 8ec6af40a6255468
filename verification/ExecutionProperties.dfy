/** What the server promises about every reply it produces. */
module ExecutionProperties {
  import opened Messages
  import opened BatchBudget
  import opened Execution

  // ----- Envelopes -----

  lemma Get3(fields: seq<Member>, key: string)
    requires |fields| == 3
    ensures Get(fields, key) ==
      if fields[0].key == key then Some(fields[0].value)
      else if fields[1].key == key then Some(fields[1].value)
      else if fields[2].key == key then Some(fields[2].value) else None
  {
    var rest := fields[1..];
    assert Get(rest, key) == if rest[0].key == key then Some(rest[0].value) else Get(rest[1..], key);
    assert Get(rest[1..][1..], key) == None;
  }

  /** A response carries its id, the version, and exactly one of a result and an error. */
  lemma EnvelopeMembers(id: Value, body: Body)
    ensures Get(Envelope(id, body).fields, "id") == Some(id)
    ensures Get(Envelope(id, body).fields, "jsonrpc") == Some(Str("2.0"))
    ensures Get(Envelope(id, body).fields, "method") == None
    ensures Get(Envelope(id, body).fields, "result") == (if body.Result? then Some(body.value) else None)
    ensures Get(Envelope(id, body).fields, "error") == (if body.Fault? then Some(ErrorValue(body.error)) else None)
  {
    var fields := Envelope(id, body).fields;
    Get3(fields, "id");
    Get3(fields, "jsonrpc");
    Get3(fields, "method");
    Get3(fields, "result");
    Get3(fields, "error");
  }

  lemma ErrorMembers(e: WireError)
    ensures Get(ErrorValue(e).fields, "code") == Some(Int(e.code))
    ensures Get(ErrorValue(e).fields, "message") == Some(Str(e.message))
    ensures Get(ErrorValue(e).fields, "data") == Some(e.data)
  {
    var fields := ErrorValue(e).fields;
    Get3(fields, "code");
    Get3(fields, "message");
    Get3(fields, "data");
  }

  // ----- Sizes -----

  /** Three members cost their values plus at most sixfold their keys. */
  lemma MembersSize3(f: Format, fields: seq<Member>, keys: nat)
    requires |fields| == 3 && |fields[0].key| + |fields[1].key| + |fields[2].key| <= keys
    ensures Size(f, Obj(fields)) <=
      Size(f, fields[0].value) + Size(f, fields[1].value) + Size(f, fields[2].value) + 6 * keys + 13
  {
    assert MembersSize(f, fields[1..][1..][1..]) == 0;
    assert MembersSize(f, fields[1..][1..]) == StrSize(f, fields[2].key) + Size(f, fields[2].value);
    assert MembersSize(f, fields[1..]) ==
      StrSize(f, fields[1].key) + Size(f, fields[1].value) + MembersSize(f, fields[1..][1..]);
    StrSizeBound(f, fields[0].key);
    StrSizeBound(f, fields[1].key);
    StrSizeBound(f, fields[2].key);
  }

  lemma MembersOf3(f: Format, fields: seq<Member>)
    requires |fields| == 3
    ensures MembersSize(f, fields) ==
      StrSize(f, fields[0].key) + Size(f, fields[0].value) + StrSize(f, fields[1].key) + Size(f, fields[1].value)
      + StrSize(f, fields[2].key) + Size(f, fields[2].value)
  {
    assert MembersSize(f, fields[1..][1..][1..]) == 0;
    assert MembersSize(f, fields[1..][1..]) == StrSize(f, fields[2].key) + Size(f, fields[2].value);
    assert MembersSize(f, fields[1..]) ==
      StrSize(f, fields[1].key) + Size(f, fields[1].value) + MembersSize(f, fields[1..][1..]);
  }

  /** Characters that take one byte in either codec. */
  predicate Plain(c: char)
  {
    0x20 <= c as int < 0x80 && c != '\"' && c != '\\'
  }

  lemma {:induction false} PlainCharsSize(f: Format, s: string)
    ensures |s| <= CharsSize(f, s)
    ensures (forall i :: 0 <= i < |s| ==> Plain(s[i])) ==> CharsSize(f, s) == |s|
  {
    if s != "" {
      PlainCharsSize(f, s[1..]);
    }
  }

  lemma ShorterMessage(f: Format, short: string, long: string)
    requires short == INVALID_REQUEST.message && long == INTERNAL_ERROR.message
    ensures StrSize(f, short) + 6 <= StrSize(f, long)
  {
    hide CharsSize;
    assert |short| == 15 && |long| == 21;
    PlainCharsSize(f, short);
    PlainCharsSize(f, long);
  }

  lemma SameCodeSize(f: Format, a: int, b: int)
    requires a == INVALID_REQUEST.code && b == INTERNAL_ERROR.code
    ensures IntSize(f, a) == IntSize(f, b)
  {
  }

  lemma ShorterError(f: Format)
    ensures Size(f, ErrorValue(INVALID_REQUEST)) + 6 <= Size(f, ErrorValue(INTERNAL_ERROR))
  {
    hide MembersSize, StrSize, IntSize;
    MembersOf3(f, ErrorValue(INVALID_REQUEST).fields);
    MembersOf3(f, ErrorValue(INTERNAL_ERROR).fields);
    ShorterMessage(f, INVALID_REQUEST.message, INTERNAL_ERROR.message);
    SameCodeSize(f, INVALID_REQUEST.code, INTERNAL_ERROR.code);
  }

  /** The error for an invalid item is no longer than its stand-in, whatever id that keeps. */
  lemma OwnErrorIsShorter(f: Format, id: Value)
    requires id.Null? || id.Str? || id.Int?
    ensures Size(f, Envelope(Null, Fault(INVALID_REQUEST))) <= Size(f, Envelope(id, Fault(INTERNAL_ERROR)))
  {
    hide MembersSize, StrSize, ErrorValue;
    MembersOf3(f, Envelope(Null, Fault(INVALID_REQUEST)).fields);
    MembersOf3(f, Envelope(id, Fault(INTERNAL_ERROR)).fields);
    ShorterError(f);
    IdSize(f, id);
  }

  lemma IdSize(f: Format, id: Value)
    requires id.Null? || id.Str? || id.Int?
    ensures Size(f, Null) <= Size(f, id) + 3
  {
  }

  /** An id that a valid request may carry, or the null id. */
  predicate BoundedId(id: Value)
  {
    ValidId(Some(id))
  }

  /** One of the framework's own errors. */
  predicate FrameworkError(e: WireError)
  {
    e.data == Null && |e.message| <= 34 && -32999 <= e.code <= -31000
  }

  lemma FrameworkErrorSize(f: Format, e: WireError)
    requires FrameworkError(e)
    ensures Size(f, ErrorValue(e)) <= 345
  {
    MembersSize3(f, ErrorValue(e).fields, 15);
    StrSizeBound(f, e.message);
    IntSizeBound(f, e.code);
  }

  lemma BoundedIdSize(f: Format, id: Value)
    requires BoundedId(id)
    ensures Size(f, id) <= 1532
  {
    match id {
      case Str(s) => StrSizeBound(f, s);
      case Int(i) => IntSizeBound(f, i);
      case Null =>
    }
  }

  /** A framework error for a bounded id always fits 2048 bytes: an id of 255 characters
      takes at most 6 * 255 + 2 bytes once escaped. */
  lemma ErrorEnvelopeFits(f: Format, id: Value, e: WireError)
    requires BoundedId(id) && FrameworkError(e)
    ensures Size(f, Envelope(id, Fault(e))) <= 2048
  {
    hide MembersSize, CharsSize;
    var fields := Envelope(id, Fault(e)).fields;
    MembersSize3(f, fields, 14);
    FrameworkErrorSize(f, e);
    BoundedIdSize(f, id);
    StrSizeBound(f, fields[2].value.s);
  }

  lemma AnswerFits(config: Config, envelope: Value, run: Run)
    requires config.Valid() && Answer(config, envelope, run).Some?
    ensures Answer(config, envelope, run).value.size <= config.maxResponse
  {
    var request := Validate(envelope);
    if request.None? {
      ErrorEnvelopeFits(config.format, Null, INVALID_REQUEST);
    } else {
      var id := request.value.id.value;
      ErrorEnvelopeFits(config.format, id, INTERNAL_ERROR);
      if !run.Returned? {
        ErrorEnvelopeFits(config.format, id, FailureError(run.why));
      }
    }
  }

  /** An item gets no stand-in exactly when it gets no reply: it is a valid notification. */
  lemma FallbackAgrees(config: Config, item: Value, run: Run)
    ensures Fallback(config, item).None? <==> Answer(config, item, run).None?
    ensures Fallback(config, item).None? <==> Validate(item).Some? && Validate(item).value.id.None?
  {
  }

  lemma BatchMatched(config: Config, items: seq<Value>, runs: seq<Run>)
    requires |runs| == |items|
    ensures Matched(Answers(config, items, runs), Fallbacks(config, items))
  {
    forall k | 0 <= k < |items|
      ensures Answers(config, items, runs)[k].None? <==> Fallbacks(config, items)[k].None?
    {
      FallbackAgrees(config, items[k], runs[k]);
    }
  }

  lemma LoneCallIsNotRefused(config: Config, item: Value, id: Value)
    requires config.maxResponse >= 2057 && config.maxBatch >= 1 && BoundedId(id)
    requires Fallback(config, item) == Some(Encode(config.format, Envelope(id, Fault(INTERNAL_ERROR))))
    ensures !Refused(config, [item])
  {
    hide Fallback;
    var slots := Fallbacks(config, [item]);
    ErrorEnvelopeFits(config.format, id, INTERNAL_ERROR);
    assert Held(slots, 0) == Cost(slots[0]) + Held(slots, 1) && Held(slots, 1) == 0;
  }

  // ----- Exactly the calls are answered, in order -----

  /** The reply of item k, which has a reply. */
  function ChosenReply(config: Config, items: seq<Value>, runs: seq<Run>, k: nat): (r: Option<Encoded>)
    requires |runs| == |items| && k < |items|
  {
    Chosen(Answers(config, items, runs), Fallbacks(config, items), Budget(config, items), k)
  }

  /** The position of item k's reply in the reply list. */
  function ReplyPosition(config: Config, items: seq<Value>, runs: seq<Run>, k: nat): nat
    requires |runs| == |items| && k <= |items|
  {
    Rank(Answers(config, items, runs), k)
  }

  /** An unrefused batch is answered once per item that is not a valid notification, in item
      order; an item's reply is its own or the stand-in made for it, and a valid call's reply
      carries its id. */
  lemma BatchAnswersEachCallOnce(config: Config, items: seq<Value>, runs: seq<Run>, k: nat)
    requires |runs| == |items| && k < |items| && Answer(config, items[k], runs[k]).Some?
    ensures ReplyPosition(config, items, runs, k) < |BatchReplies(config, items, runs)|
    ensures var reply := BatchReplies(config, items, runs)[ReplyPosition(config, items, runs, k)];
      && Some(reply) == ChosenReply(config, items, runs, k)
      && Some(reply) in [Answer(config, items[k], runs[k]), Fallback(config, items[k])]
    ensures Validate(items[k]).Some? ==>
      exists body :: BatchReplies(config, items, runs)[ReplyPosition(config, items, runs, k)].value
                     == Envelope(Validate(items[k]).value.id.value, body)
  {
    var answers, fallbacks, budget := Answers(config, items, runs), Fallbacks(config, items), Budget(config, items);
    BatchMatched(config, items, runs);
    CollectedInOrder(answers, fallbacks, budget, |items|);
    assert answers[k] == Answer(config, items[k], runs[k]);
    var reply := Chosen(answers, fallbacks, budget, k).value;
    assert Some(reply) in [answers[k], fallbacks[k]];
    if Validate(items[k]).Some? {
      var body := AnswerBody(config, items[k], runs[k]);
      var id := Validate(items[k]).value.id.value;
      assert reply.value in [Envelope(id, body), Envelope(id, Fault(INTERNAL_ERROR))] by {
        ValidCallEnvelopes(config, items[k], runs[k]);
      }
    }
  }

  /** The body of a valid call's own reply: what its handler returned, unless that is too
      large or the dispatch failed. */
  function AnswerBody(config: Config, envelope: Value, run: Run): Body
    requires Validate(envelope).Some? && Validate(envelope).value.id.Some?
  {
    match run
    case Returned(body, size, _) => if size > config.maxResponse then Fault(INTERNAL_ERROR) else body
    case _ => Fault(FailureError(run.why))
  }

  /** A valid call's own reply and its stand-in both carry its id. */
  lemma ValidCallEnvelopes(config: Config, item: Value, run: Run)
    requires Validate(item).Some? && Validate(item).value.id.Some?
    ensures Answer(config, item, run).Some? && Fallback(config, item).Some?
    ensures Answer(config, item, run).value.value == Envelope(Validate(item).value.id.value, AnswerBody(config, item, run))
    ensures Fallback(config, item).value.value == Envelope(Validate(item).value.id.value, Fault(INTERNAL_ERROR))
  {
  }

  /** Distinct items have distinct positions, in item order. */
  lemma ReplyPositionsIncrease(config: Config, items: seq<Value>, runs: seq<Run>, i: nat, k: nat)
    requires |runs| == |items| && i < k <= |items| && Answer(config, items[i], runs[i]).Some?
    ensures ReplyPosition(config, items, runs, i) < ReplyPosition(config, items, runs, k)
    ensures |BatchReplies(config, items, runs)| == ReplyPosition(config, items, runs, |items|)
  {
    var answers := Answers(config, items, runs);
    BatchMatched(config, items, runs);
    CollectedInOrder(answers, Fallbacks(config, items), Budget(config, items), |items|);
    RankMonotone(answers, i, k);
  }

  /** Every reply belongs to an item. */
  lemma ReplyBelongsToAnItem(config: Config, items: seq<Value>, runs: seq<Run>, p: nat) returns (k: nat)
    requires |runs| == |items| && p < |BatchReplies(config, items, runs)|
    ensures k < |items| && Answer(config, items[k], runs[k]).Some?
    ensures ReplyPosition(config, items, runs, k) == p
  {
    var answers := Answers(config, items, runs);
    BatchMatched(config, items, runs);
    CollectedInOrder(answers, Fallbacks(config, items), Budget(config, items), |items|);
    k := RankOnto(answers, |items|, p);
    assert answers[k] == Answer(config, items[k], runs[k]);
  }

  predicate IsDispatched(item: Value, run: Run)
  {
    Validate(item).Some? && !run.NotStarted?
  }

  /** How many of the first k items are dispatched. */
  function DispatchCount(items: seq<Value>, runs: seq<Run>, k: nat): nat
    requires k <= |items| == |runs|
  {
    if k == 0 then 0
    else DispatchCount(items, runs, k - 1) + (if IsDispatched(items[k - 1], runs[k - 1]) then 1 else 0)
  }

  lemma {:induction false} DispatchCountGrows(items: seq<Value>, runs: seq<Run>, i: nat, k: nat)
    requires i < k <= |items| == |runs| && IsDispatched(items[i], runs[i])
    ensures DispatchCount(items, runs, i) < DispatchCount(items, runs, k)
  {
    if i < k - 1 {
      DispatchCountGrows(items, runs, i, k - 1);
    }
  }

  /** The requests a batch hands to the dispatcher are its valid items whose dispatch starts,
      each once, in item order; nothing else is dispatched. */
  lemma {:induction false} BatchDispatchesEachOnce(items: seq<Value>, runs: seq<Run>, k: nat, i: nat)
    requires i < k <= |items| == |runs|
    ensures |BatchDispatches(items, runs, k)| == DispatchCount(items, runs, k)
    ensures IsDispatched(items[i], runs[i]) ==>
      && DispatchCount(items, runs, i) < DispatchCount(items, runs, k)
      && BatchDispatches(items, runs, k)[DispatchCount(items, runs, i)] == Validate(items[i]).value
  {
    hide Validate;
    DispatchedSoFar(items, runs, k);
    if IsDispatched(items[i], runs[i]) {
      DispatchCountGrows(items, runs, i, k);
      if i < k - 1 {
        BatchDispatchesEachOnce(items, runs, k - 1, i);
      } else {
        DispatchedSoFar(items, runs, i);
      }
    }
  }

  lemma {:induction false} DispatchedSoFar(items: seq<Value>, runs: seq<Run>, k: nat)
    requires k <= |items| == |runs|
    ensures |BatchDispatches(items, runs, k)| == DispatchCount(items, runs, k)
  {
    if k > 0 {
      DispatchedSoFar(items, runs, k - 1);
    }
  }

  // ----- When `process` raises -----

  /** The item's own reply does not decode: its handler returned such bytes, no longer than
      the limit, to a valid call. */
  predicate Undecodable(config: Config, item: Value, run: Run)
  {
    Answer(config, item, run).Some? && !Answer(config, item, run).value.decodes
  }

  lemma UndecodableIff(config: Config, item: Value, run: Run)
    ensures Undecodable(config, item, run) <==>
      (Validate(item).Some? && Validate(item).value.id.Some?
       && run.Returned? && run.size <= config.maxResponse && !run.decodes)
  {
  }

  /** Item k's own reply fits beside what is spent before it and held back after it. */
  predicate HasRoom(config: Config, items: seq<Value>, runs: seq<Run>, k: nat)
    requires |runs| == |items| && k < |items| && Answer(config, items[k], runs[k]).Some?
  {
    var fallbacks, budget := Fallbacks(config, items), Budget(config, items);
    Answer(config, items[k], runs[k]).value.size
      <= budget - Spent(Answers(config, items, runs), fallbacks, budget, k) - Held(fallbacks, k + 1)
  }

  predicate KeepsUndecodable(config: Config, items: seq<Value>, runs: seq<Run>, k: nat)
    requires |runs| == |items| && k < |items|
  {
    Undecodable(config, items[k], runs[k]) && HasRoom(config, items, runs, k)
  }

  lemma StandInDecodes(config: Config, item: Value)
    ensures Fallback(config, item).Some? ==> Fallback(config, item).value.decodes
  {
  }

  /** An unrefused batch, every item of which has then run, loses all its replies if and only
      if the reply kept for some call does not decode.  A displaced one does no harm. */
  lemma RaisesIff(config: Config, items: seq<Value>, runs: seq<Run>)
    requires |runs| == |items| && !Refused(config, items)
    ensures Processing(config, Some(Arr(items)), runs).Raises? <==>
      exists k :: 0 <= k < |items| && KeepsUndecodable(config, items, runs, k)
  {
    var replies := BatchReplies(config, items, runs);
    hide Answer, Fallback, BatchReplies, Refused;
    forall k | 0 <= k < |items| && KeepsUndecodable(config, items, runs, k)
      ensures exists p :: 0 <= p < |replies| && !replies[p].decodes
    {
      BatchAnswersEachCallOnce(config, items, runs, k);
      BudgetStep(Answers(config, items, runs), Fallbacks(config, items), Budget(config, items), k);
      assert !replies[ReplyPosition(config, items, runs, k)].decodes;
    }
    forall p | 0 <= p < |replies| && !replies[p].decodes
      ensures exists k :: 0 <= k < |items| && KeepsUndecodable(config, items, runs, k)
    {
      var k := ReplyBelongsToAnItem(config, items, runs, p);
      BatchAnswersEachCallOnce(config, items, runs, k);
      BudgetStep(Answers(config, items, runs), Fallbacks(config, items), Budget(config, items), k);
      StandInDecodes(config, items[k]);
      BatchMatched(config, items, runs);
      assert KeepsUndecodable(config, items, runs, k);
    }
  }
}
