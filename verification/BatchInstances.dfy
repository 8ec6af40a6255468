/** Batches that really occur, with their sizes to the byte: handlers that write JSON of their
    own and go beyond the slack, and replies that fit together yet are replaced. */
module BatchInstances {
  import opened Messages
  import opened BatchBudget
  import opened Execution
  import opened ExecutionProperties
  import opened BatchTolerance

  // ----- Plain calls -----

  function PlainCall(id: int): Value
  {
    Obj([Member("method", Str("m")), Member("id", Int(id)), Member("jsonrpc", Str("2.0"))])
  }

  lemma PlainCallIsValid(id: int)
    requires 0 <= id <= 0x7fff_ffff_ffff_ffff
    ensures Validate(PlainCall(id)) == Some(Request("m", Some(Int(id)), Null))
  {
    var fields := PlainCall(id).fields;
    Get3(fields, "method");
    Get3(fields, "id");
    Get3(fields, "jsonrpc");
    Get3(fields, "params");
  }

  // ----- JSON a handler writes itself -----

  /** How the JSON codec prints two numbers that can be written shorter; other data here is
      printed as it is written. */
  function PrintedDigits(digits: string): string
  {
    if digits == "1e1" then "10.0" else if digits == "1e15" then "1000000000000000.0" else digits
  }

  function Printed(v: Value): Value
  {
    match v
    case Float(digits) => Float(PrintedDigits(digits))
    case Arr(items) => Arr(PrintedAll(items))
    case _ => v
  }

  function PrintedAll(items: seq<Value>): seq<Value>
  {
    if items == [] then [] else [Printed(items[0])] + PrintedAll(items[1..])
  }

  /** A handler returns text of its own for a result, to be put into the response as it is;
      decoded and encoded again it is printed the codec's way. */
  function WritesItself(id: Value, written: Value): Run
  {
    Returned(Result(Printed(written)), Size(Json, Envelope(id, Result(written))), true)
  }

  function Repeated(digits: string, n: nat): (numbers: seq<Value>)
    ensures |numbers| == n
  {
    if n == 0 then [] else [Float(digits)] + Repeated(digits, n - 1)
  }

  /** Each number takes its digits, and is printed alone: 4 bytes against 18 for 1e15, 3
      against 4 for 1e1, besides the commas. */
  lemma {:induction false} RepeatedSize(digits: string, n: nat)
    ensures ItemsSize(Json, Repeated(digits, n)) == n * |digits|
    ensures PrintedAll(Repeated(digits, n)) == Repeated(PrintedDigits(digits), n)
  {
    if n > 0 {
      RepeatedSize(digits, n - 1);
      assert Repeated(digits, n)[1..] == Repeated(digits, n - 1);
    }
  }

  lemma PlainSize(s: string)
    requires forall i :: 0 <= i < |s| ==> Plain(s[i])
    ensures Size(Json, Str(s)) == StrSize(Json, s) == |s| + 2
  {
    PlainCharsSize(Json, s);
  }

  /** A list of a string and some short numbers. */
  function Padded(filler: string, digits: string, n: nat): Value
  {
    Arr([Str(filler)] + Repeated(digits, n))
  }

  lemma PaddedSize(filler: string, digits: string, n: nat)
    requires forall i :: 0 <= i < |filler| ==> Plain(filler[i])
    ensures Size(Json, Padded(filler, digits, n)) == n + 2 + |filler| + 2 + n * |digits|
    ensures Printed(Padded(filler, digits, n)) == Padded(filler, PrintedDigits(digits), n)
  {
    hide CharsSize, PrintedDigits;
    PlainSize(filler);
    RepeatedSize(digits, n);
    var items := [Str(filler)] + Repeated(digits, n);
    assert items[1..] == Repeated(digits, n);
    assert PrintedAll(items) == [Str(filler)] + Repeated(PrintedDigits(digits), n);
  }

  lemma Sizes(result: string, error: string, id: string, version: string, jsonrpc: string)
    requires result == "result" && error == "error" && id == "id" && version == "2.0" && jsonrpc == "jsonrpc"
    ensures StrSize(Json, result) == 8 && StrSize(Json, error) == 7 && StrSize(Json, id) == 4
    ensures Size(Json, Str(version)) == 5 && StrSize(Json, jsonrpc) == 9
  {
    hide CharsSize, StrSize;
    PlainSize(result);
    PlainSize(error);
    PlainSize(id);
    PlainSize(version);
    PlainSize(jsonrpc);
  }

  lemma ErrorKeySizes(message: string, data: string, code: string, text: string)
    requires message == "message" && data == "data" && code == "code" && text == INTERNAL_ERROR.message
    ensures StrSize(Json, message) == 9 && StrSize(Json, data) == 6 && StrSize(Json, code) == 6
    ensures Size(Json, Str(text)) == 23
  {
    hide CharsSize, StrSize;
    PlainSize(message);
    PlainSize(data);
    PlainSize(code);
    PlainSize(text);
  }

  lemma CodeSize(code: int)
    requires code == INTERNAL_ERROR.code
    ensures Size(Json, Int(code)) == 6
  {
    assert Digits(32603) == 5;
  }

  lemma InternalErrorSize()
    ensures Size(Json, ErrorValue(INTERNAL_ERROR)) == 61
  {
    var fields := ErrorValue(INTERNAL_ERROR).fields;
    MembersOf3(Json, fields);
    hide MembersSize, StrSize, IntSize, CharsSize;
    ErrorKeySizes(fields[0].key, fields[1].key, fields[2].key, INTERNAL_ERROR.message);
    CodeSize(INTERNAL_ERROR.code);
  }

  /** A JSON response takes 25 bytes and its id's size besides its result or error. */
  lemma JsonEnvelopeSize(id: Value, body: Body)
    ensures Size(Json, Envelope(id, body)) == 25 + Size(Json, id) +
      (if body.Result? then 8 + Size(Json, body.value) else 7 + Size(Json, ErrorValue(body.error)))
  {
    hide StrSize, MembersSize, CharsSize, ErrorValue;
    EnvelopeSize(Json, id, body);
    Sizes("result", "error", "id", "2.0", "jsonrpc");
  }

  /** A response as a handler writes it, of any size that leaves room for the stand-in, with
      eight times 1e1 in it; printed back as 10.0, each gains a byte. */
  function EightTens(id: Value, size: int): Value
  {
    var filler := size - 69 - Size(Json, id);
    Padded(seq(if filler >= 0 then filler else 0, i => 'a'), "1e1", 8)
  }

  lemma EightTensGain(id: Value, size: nat)
    requires size >= Size(Json, Envelope(id, Fault(INTERNAL_ERROR)))
    ensures var run := WritesItself(id, EightTens(id, size));
      run.size == size && Size(Json, Envelope(id, run.body)) == size + 8
  {
    var filler := seq(if size - 69 - Size(Json, id) >= 0 then size - 69 - Size(Json, id) else 0, i => 'a');
    PaddedSize(filler, "1e1", 8);
    PaddedSize(filler, "10.0", 8);
    hide Size, Padded, Printed, Envelope, ErrorValue;
    JsonEnvelopeSize(id, Fault(INTERNAL_ERROR));
    InternalErrorSize();
    JsonEnvelopeSize(id, Result(Padded(filler, "1e1", 8)));
    JsonEnvelopeSize(id, Result(Padded(filler, "10.0", 8)));
  }

  /** A batch of nothing but calls has a slack of 7 bytes in JSON, and what a handler can
      really write goes beyond it, by a byte, whatever the calls and the limits are. */
  lemma JsonSlackIsReached(config: Config, items: seq<Value>)
    requires config.format.Json? && !Refused(config, items) && forall i :: 0 <= i < |items| ==> IsCall(items[i])
    ensures Slack(config, items) == 7
    ensures var c := |items| - 1; var id := Validate(items[c]).value.id.value;
      var runs := OneReturns(|items|, c, WritesItself(id, EightTens(id, Fill(config, items, c))));
      ListSize(config, items, runs) == config.maxResponse + 1
  {
    var c := |items| - 1;
    AllReply(config, items, |items|);
    FillingReply(config, items, c, Result(Null));
    var id, fill := Validate(items[c]).value.id.value, Fill(config, items, c);
    hide Fill, Answer, Fallback, Validate, ListSize, Refused, Size, EightTens, Printed;
    EightTensGain(id, fill);
    var run := WritesItself(id, EightTens(id, fill));
    FillingReply(config, items, c, run.body);
    OneByteTooLong(config, items, c, run);
  }

  lemma {:induction false} AllReply(config: Config, items: seq<Value>, k: nat)
    requires k <= |items| && forall i :: 0 <= i < |items| ==> IsCall(items[i])
    ensures Rank(Fallbacks(config, items), k) == k
  {
    hide Fallback, Answer, Validate;
    if k > 0 {
      AllReply(config, items, k - 1);
      FallbackAgrees(config, items[k - 1], NotStarted(Unexpected));
    }
  }

  /** And far beyond it: 120 times 1e15, 601 bytes as the handler writes them and 2281 as the
      codec does, overflow a limit of 2100 in a batch of one call. */
  lemma GrowingReplyOverflows()
    ensures var config, run := Config(Json, 2100, 1), WritesItself(Int(1), Arr(Repeated("1e15", 120)));
      && config.Valid() && !Refused(config, [PlainCall(1)])
      && run.size == 635
      && Processing(config, Some(Arr([PlainCall(1)])), [run]).Returns?
      && Reply(config, Some(Arr([PlainCall(1)])), [run]).Some?
      && Reply(config, Some(Arr([PlainCall(1)])), [run]).value.size > config.maxResponse
  {
    hide Size, Repeated, Printed, Processing, Reply, Refused;
    var config, run := Config(Json, 2100, 1), WritesItself(Int(1), Arr(Repeated("1e15", 120)));
    LongNumbers("1e15", 120);
    LongNumbers("1000000000000000.0", 120);
    PrintedNumbers("1e15", 120);
    SmallIdSize(1);
    JsonEnvelopeSize(Int(1), Result(Arr(Repeated("1e15", 120))));
    JsonEnvelopeSize(Int(1), Result(Arr(Repeated("1000000000000000.0", 120))));
    LoneCallAnswers(config, run);
  }

  lemma LongNumbers(digits: string, n: nat)
    requires n > 0
    ensures Size(Json, Arr(Repeated(digits, n))) == n + 1 + n * |digits|
  {
    RepeatedSize(digits, n);
  }

  lemma PrintedNumbers(digits: string, n: nat)
    ensures Printed(Arr(Repeated(digits, n))) == Arr(Repeated(PrintedDigits(digits), n))
  {
    RepeatedSize(digits, n);
  }

  /** A batch of one plain call whose handler returns: its list, if the reply is kept. */
  lemma LoneCallAnswers(config: Config, run: Run)
    requires config == Config(Json, 2100, 1) && run.Returned? && run.decodes && run.size <= 2091
    ensures !Refused(config, [PlainCall(1)])
    ensures var data := Some(Arr([PlainCall(1)]));
      && Processing(config, data, [run]) == Returns(Reply(config, data, [run]))
      && Reply(config, data, [run]).Some?
      && Reply(config, data, [run]).value.size >= Size(Json, Envelope(Int(1), run.body))
  {
    hide Validate, BatchReplies, Refused, Envelope;
    var item, reply := PlainCall(1), Encoded(Envelope(Int(1), run.body), run.size, true);
    PlainCallIsValid(1);
    ValidCallEnvelopes(config, item, run);
    assert Answer(config, item, run) == Some(reply);
    assert Fallback(config, item) == Some(Encode(Json, Envelope(Int(1), Fault(INTERNAL_ERROR))));
    LoneCallIsNotRefused(config, item, Int(1));
    LoneReplyIsKept(config, item, run);
    hide Answer, Fallback, Size;
    assert Values([reply]) == [reply.value];
    LoneItemSize(reply.value);
  }

  lemma LoneItemSize(v: Value)
    ensures Size(Json, Arr([v])) >= Size(Json, v)
  {
    assert ItemsSize(Json, [v]) >= Size(Json, v);
  }

  /** In a batch of one call, a reply within the budget is kept. */
  lemma LoneReplyIsKept(config: Config, item: Value, run: Run)
    requires Answer(config, item, run).Some? && Answer(config, item, run).value.size <= Budget(config, [item])
    ensures BatchReplies(config, [item], [run]) == [Answer(config, item, run).value]
  {
    hide Answer, Fallback;
    var answers, fallbacks, budget := Answers(config, [item], [run]), Fallbacks(config, [item]), Budget(config, [item]);
    BudgetStep(answers, fallbacks, budget, 0);
    assert Held(fallbacks, 1) == 0 && Spent(answers, fallbacks, budget, 0) == 0;
    assert Collected(answers, fallbacks, budget, 0) == [];
  }

  // ----- Fitting together is not enough -----

  lemma PlainStandIn(config: Config, id: int)
    requires config.format.Json? && 0 <= id <= 9
    ensures Fallback(config, PlainCall(id)) == Some(Encode(Json, Envelope(Int(id), Fault(INTERNAL_ERROR))))
    ensures Fallback(config, PlainCall(id)).value.size == 94
  {
    PlainCallIsValid(id);
    hide Validate, Envelope, Size, ErrorValue;
    ValidCallEnvelopes(config, PlainCall(id), Raised(Unexpected));
    JsonEnvelopeSize(Int(id), Fault(INTERNAL_ERROR));
    InternalErrorSize();
    SmallIdSize(id);
  }

  lemma SmallIdSize(id: int)
    requires 0 <= id <= 9
    ensures Size(Json, Int(id)) == 1
  {
  }

  lemma PlainReply(config: Config, id: int, v: Value)
    requires config == Config(Json, 2100, 2) && 0 <= id <= 9 && Size(Json, v) <= 2006
    ensures var run := WritesItself(Int(id), v);
      run.size == 34 + Size(Json, v)
      && Answer(config, PlainCall(id), run) == Some(Encoded(Envelope(Int(id), Result(Printed(v))), run.size, true))
  {
    PlainCallIsValid(id);
    hide Validate, Envelope, Size;
    JsonEnvelopeSize(Int(id), Result(v));
    SmallIdSize(id);
  }

  /** Two calls whose real replies take 2040 and 38 bytes, as the codec writes them: together
      they and the list around them fit the limit of 2100, yet the first is replaced, because
      the second holds back a stand-in of 94 bytes. */
  lemma FittingTogetherIsNotEnough()
    ensures var config, items := Config(Json, 2100, 2), [PlainCall(1), PlainCall(2)];
      var text := Str(seq(2004, i => 'a'));
      var runs := [WritesItself(Int(1), text), WritesItself(Int(2), Null)];
      && config.Valid() && !Refused(config, items)
      && Printed(text) == text && Printed(Null) == Null
      && RealSpent(Answers(config, items, runs), 2) == 2078 <= Budget(config, items)
      && ChosenReply(config, items, runs, 0) != Answer(config, items[0], runs[0])
  {
    var config, items := Config(Json, 2100, 2), [PlainCall(1), PlainCall(2)];
    var text := seq(2004, i => 'a');
    PlainSize(text);
    PlainReply(config, 1, Str(text));
    PlainReply(config, 2, Null);
    PlainStandIn(config, 1);
    PlainStandIn(config, 2);
    FirstIsReplaced(config, items, [WritesItself(Int(1), Str(text)), WritesItself(Int(2), Null)]);
  }

  lemma FirstIsReplaced(config: Config, items: seq<Value>, runs: seq<Run>)
    requires config == Config(Json, 2100, 2) && |items| == |runs| == 2
    requires Fallback(config, items[0]).Some? && Fallback(config, items[0]).value.size == 94
    requires Fallback(config, items[1]).Some? && Fallback(config, items[1]).value.size == 94
    requires Answer(config, items[0], runs[0]).Some? && Answer(config, items[0], runs[0]).value.size == 2040
    requires Answer(config, items[1], runs[1]).Some? && Answer(config, items[1], runs[1]).value.size == 38
    ensures !Refused(config, items) && RealSpent(Answers(config, items, runs), 2) == 2078
    ensures ChosenReply(config, items, runs, 0) == Fallback(config, items[0])
  {
    hide Answer, Fallback;
    var answers, fallbacks := Answers(config, items, runs), Fallbacks(config, items);
    assert Held(fallbacks, 2) == 0 && Held(fallbacks, 1) == 94 && Held(fallbacks, 0) == 188;
    assert RealSpent(answers, 1) == 2040;
    BudgetStep(answers, fallbacks, Budget(config, items), 0);
  }
}
