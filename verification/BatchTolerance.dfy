/** How far a batch's replies may grow.  The budget counts the bytes the codec made of each
    reply, but the list that is sent encodes the decoded replies again, and a handler that
    returns bytes as they are can write them shorter than the codec does. */
module BatchTolerance {
  import opened Messages
  import opened BatchBudget
  import opened Execution
  import opened ExecutionProperties

  // ----- Growth and slack -----

  /** How many bytes an encoded message gains when it is decoded and encoded again. */
  function Gain(f: Format, slot: Option<Encoded>): int
  {
    if slot.Some? then Size(f, slot.value.value) - slot.value.size else 0
  }

  /** How many bytes a run's reply to the item gains, if any. */
  function Growth(config: Config, item: Value, run: Run): nat
  {
    var gain := Gain(config.format, Answer(config, item, run));
    if gain > 0 then gain else 0
  }

  function TotalGrowth(config: Config, items: seq<Value>, runs: seq<Run>, k: nat): nat
    requires k <= |items| == |runs|
  {
    if k == 0 then 0 else TotalGrowth(config, items, runs, k - 1) + Growth(config, items[k - 1], runs[k - 1])
  }

  predicate IsCall(item: Value)
  {
    Validate(item).Some? && Validate(item).value.id.Some?
  }

  predicate IsInvalid(item: Value)
  {
    Validate(item).None?
  }

  /** Bytes held back for the invalid items after the last call among the first k items, and
      never spent: the error for an invalid item is shorter than its stand-in. */
  function Unspent(config: Config, items: seq<Value>, k: nat): nat
    requires k <= |items|
  {
    if k == 0 || IsCall(items[k - 1]) then 0
    else
      Unspent(config, items, k - 1) +
      (if IsInvalid(items[k - 1]) then Saving(config, items[k - 1]) else 0)
  }

  function Saving(config: Config, item: Value): (saving: nat)
    requires IsInvalid(item)
  {
    InvalidAnswer(config, item, NotStarted(Unexpected));
    Fallback(config, item).value.size - Refusal(config).size
  }

  /** An invalid item's reply is the same error whatever happens, and no longer than its stand-in. */
  lemma InvalidAnswer(config: Config, item: Value, run: Run)
    requires IsInvalid(item)
    ensures Answer(config, item, run) == Some(Refusal(config))
    ensures Fallback(config, item).Some? && Refusal(config).size <= Fallback(config, item).value.size
  {
    var id := if item.Obj? then Get(item.fields, "id") else None;
    var kept := if id.Some? && (id.value.Str? || id.value.Int?) then id.value else Null;
    OwnErrorIsShorter(config.format, kept);
  }

  /** The number of replies, which the items determine. */
  function ReplyCount(config: Config, items: seq<Value>): nat
  {
    Rank(Fallbacks(config, items), |items|)
  }

  /** By how many bytes an unrefused batch's replies may grow: what is set aside for the list
      around them, less what that list takes, plus what is held back in vain. */
  function Slack(config: Config, items: seq<Value>): int
  {
    |items| + 8 - ListOverhead(config.format, ReplyCount(config, items)) + Unspent(config, items, |items|)
  }

  /** Bytes of the list of a batch's replies. */
  function ListSize(config: Config, items: seq<Value>, runs: seq<Run>): nat
    requires |runs| == |items|
  {
    Size(config.format, Arr(Values(BatchReplies(config, items, runs))))
  }

  // ----- What the replies take -----

  /** What the chosen replies gain, all together. */
  function ChosenGain(f: Format, answers: Slots, fallbacks: Slots, budget: int, k: nat): int
    requires k <= |answers| == |fallbacks|
  {
    if k == 0 then 0
    else ChosenGain(f, answers, fallbacks, budget, k - 1) + Gain(f, Chosen(answers, fallbacks, budget, k - 1))
  }

  lemma {:induction false} CollectedGain(f: Format, answers: Slots, fallbacks: Slots, budget: int, k: nat)
    requires k <= |answers| == |fallbacks|
    ensures ItemsSize(f, Values(Collected(answers, fallbacks, budget, k)))
         == Spent(answers, fallbacks, budget, k) + ChosenGain(f, answers, fallbacks, budget, k)
  {
    hide Chosen;
    if k > 0 {
      CollectedGain(f, answers, fallbacks, budget, k - 1);
      var before, last := Collected(answers, fallbacks, budget, k - 1), Chosen(answers, fallbacks, budget, k - 1);
      if last.Some? {
        assert (before + [last.value])[..|before|] == before;
        ItemsSizeAppend(f, Values(before), last.value.value);
      }
    }
  }

  lemma {:induction false} SameRank(a: Slots, b: Slots, k: nat)
    requires Matched(a, b) && k <= |a|
    ensures Rank(a, k) == Rank(b, k)
  {
    if k > 0 {
      SameRank(a, b, k - 1);
      assert a[k - 1].None? <==> b[k - 1].None?;
    }
  }

  /** The list's size, from what was spent and what the replies gain. */
  lemma ListSizeIs(config: Config, items: seq<Value>, runs: seq<Run>)
    requires |runs| == |items|
    ensures var answers, fallbacks, budget := Answers(config, items, runs), Fallbacks(config, items), Budget(config, items);
      ListSize(config, items, runs) == ListOverhead(config.format, ReplyCount(config, items))
        + Spent(answers, fallbacks, budget, |items|) + ChosenGain(config.format, answers, fallbacks, budget, |items|)
  {
    hide Answer, Fallback, Spent, Chosen, Collected, ChosenGain, ListOverhead;
    var answers, fallbacks, budget := Answers(config, items, runs), Fallbacks(config, items), Budget(config, items);
    BatchMatched(config, items, runs);
    CollectedInOrder(answers, fallbacks, budget, |items|);
    SameRank(answers, fallbacks, |items|);
    CollectedGain(config.format, answers, fallbacks, budget, |items|);
  }

  /** An item's reply as the budget leaves it gains no more than the item's own would. */
  lemma {:induction false} GainIsGrowth(config: Config, items: seq<Value>, runs: seq<Run>, k: nat)
    requires k <= |items| == |runs|
    ensures ChosenGain(config.format, Answers(config, items, runs), Fallbacks(config, items), Budget(config, items), k)
         <= TotalGrowth(config, items, runs, k)
  {
    hide Answer, Fallback, Spent;
    if k > 0 {
      GainIsGrowth(config, items, runs, k - 1);
      StandInIsPlain(config, items[k - 1]);
      assert Answers(config, items, runs)[k - 1] == Answer(config, items[k - 1], runs[k - 1]);
      assert Fallbacks(config, items)[k - 1] == Fallback(config, items[k - 1]);
    }
  }

  lemma StandInIsPlain(config: Config, item: Value)
    ensures Gain(config.format, Fallback(config, item)) == 0
  {
  }

  /** One turn of the batch loop for an item that is no call: what is spent and held back
      together falls by the saving of an invalid item. */
  lemma IdleTurn(config: Config, items: seq<Value>, runs: seq<Run>, k: nat)
    requires |runs| == |items| && k < |items| && !IsCall(items[k])
    requires var fallbacks, budget := Fallbacks(config, items), Budget(config, items);
      Spent(Answers(config, items, runs), fallbacks, budget, k) + Held(fallbacks, k) <= budget
    ensures var answers, fallbacks, budget := Answers(config, items, runs), Fallbacks(config, items), Budget(config, items);
      Spent(answers, fallbacks, budget, k) + Held(fallbacks, k) + Unspent(config, items, k)
        == Spent(answers, fallbacks, budget, k + 1) + Held(fallbacks, k + 1) + Unspent(config, items, k + 1)
    ensures Chosen(Answers(config, items, runs), Fallbacks(config, items), Budget(config, items), k)
         == Answer(config, items[k], runs[k])
  {
    var answers, fallbacks, budget := Answers(config, items, runs), Fallbacks(config, items), Budget(config, items);
    hide Answer, Fallback, Spent, Held, Validate;
    BudgetStep(answers, fallbacks, budget, k);
    FallbackAgrees(config, items[k], runs[k]);
    assert answers[k] == Answer(config, items[k], runs[k]) && fallbacks[k] == Fallback(config, items[k]);
    if IsInvalid(items[k]) {
      InvalidAnswer(config, items[k], runs[k]);
      hide Refusal;
    }
  }

  /** The budget is never used up further than what is held back in vain. */
  lemma {:induction false} MostSpent(config: Config, items: seq<Value>, runs: seq<Run>, k: nat)
    requires |runs| == |items| && k <= |items| && !Refused(config, items)
    ensures var fallbacks, budget := Fallbacks(config, items), Budget(config, items);
      Spent(Answers(config, items, runs), fallbacks, budget, k) + Held(fallbacks, k) + Unspent(config, items, k) <= budget
  {
    hide Answer, Fallback, Spent, Held, IsCall;
    BatchMatched(config, items, runs);
    SpentPlusHeldFits(Answers(config, items, runs), Fallbacks(config, items), Budget(config, items), k);
    if k > 0 && !IsCall(items[k - 1]) {
      MostSpent(config, items, runs, k - 1);
      IdleTurn(config, items, runs, k - 1);
    }
  }

  /** Replies that grow by no more than the slack, all together, fit. */
  lemma BatchFits(config: Config, items: seq<Value>, runs: seq<Run>)
    requires |runs| == |items| && !Refused(config, items)
    requires TotalGrowth(config, items, runs, |items|) <= Slack(config, items)
    ensures ListSize(config, items, runs) <= config.maxResponse
  {
    hide Answer, Fallback, Spent, ChosenGain, TotalGrowth, Unspent, ListOverhead, ReplyCount, ListSize, Refused;
    ListSizeIs(config, items, runs);
    GainIsGrowth(config, items, runs, |items|);
    MostSpent(config, items, runs, |items|);
    assert Held(Fallbacks(config, items), |items|) == 0;
  }

  /** The slack is never negative, so replies that do not grow always fit. */
  lemma SlackIsPositive(config: Config, items: seq<Value>)
    ensures Slack(config, items) >= 3
  {
    RankAtMost(Fallbacks(config, items), |items|);
  }

  lemma {:induction false} RankAtMost(slots: Slots, k: nat)
    requires k <= |slots|
    ensures Rank(slots, k) <= k
  {
    if k > 0 {
      RankAtMost(slots, k - 1);
    }
  }

  // ----- The slack is sharp -----

  /** Every batch reply fits as long as the replies grow by no more than g, all together. */
  ghost predicate Tolerates(config: Config, items: seq<Value>, g: nat)
  {
    forall runs: seq<Run> | |runs| == |items| && TotalGrowth(config, items, runs, |items|) <= g ::
      ListSize(config, items, runs) <= config.maxResponse
  }

  /** A string of plain characters of any size but a few, and a pair around one for those. */
  function Sized(f: Format, size: nat): Value
    requires size >= 3
  {
    match f
    case Json => Str(seq(size - 2, i => 'a'))
    case MsgPack =>
      if size <= 32 then Str(seq(size - 1, i => 'a'))
      else if size in {33, 258, 65539, 65540} then Arr([Null, SizedStr(size - 2)])
      else SizedStr(size)
  }

  function SizedStr(size: nat): Value
    requires size >= 31
  {
    Str(seq(if size <= 32 then size - 1 else if size <= 257 then size - 2 else if size <= 65538 then size - 3 else size - 5,
            i => 'a'))
  }

  lemma PlainStrSize(f: Format, s: string)
    requires forall i :: 0 <= i < |s| ==> s[i] == 'a'
    ensures CharsSize(f, s) == |s|
  {
    PlainCharsSize(f, s);
  }

  lemma SizedStrSize(size: nat)
    requires size >= 31 && size !in {33, 258, 65539, 65540}
    ensures Size(MsgPack, SizedStr(size)) == size
  {
    hide CharsSize;
    PlainStrSize(MsgPack, SizedStr(size).s);
  }

  /** Every size is that of some value. */
  lemma SizedSize(f: Format, size: nat)
    requires size >= 3
    ensures Size(f, Sized(f, size)) == size
  {
    hide CharsSize;
    if f.MsgPack? && size in {33, 258, 65539, 65540} {
      SizedStrSize(size - 2);
      PairSize(SizedStr(size - 2));
    } else if f.MsgPack? && size > 32 {
      SizedStrSize(size);
    } else {
      PlainStrSize(f, Sized(f, size).s);
    }
  }

  lemma PairSize(v: Value)
    ensures Size(MsgPack, Arr([Null, v])) == 2 + Size(MsgPack, v)
  {
    hide CharsSize;
    assert ItemsSize(MsgPack, [Null, v]) == 1 + ItemsSize(MsgPack, [Null, v][1..]);
    assert [Null, v][1..] == [v];
    assert ItemsSize(MsgPack, [v]) == Size(MsgPack, v) + ItemsSize(MsgPack, [v][1..]);
  }

  lemma KeySizes(f: Format, result: string, error: string)
    requires result == "result" && error == "error"
    ensures StrSize(f, result) == StrSize(f, error) + 1
  {
    hide CharsSize;
    assert |result| == 6 && |error| == 5;
    PlainCharsSize(f, result);
    PlainCharsSize(f, error);
  }

  /** What a response takes besides its result or error. */
  function Surroundings(f: Format, id: Value): nat
  {
    ObjOverhead(f, 3) + StrSize(f, "id") + Size(f, id) + StrSize(f, "jsonrpc") + Size(f, Str("2.0"))
  }

  lemma EnvelopeSize(f: Format, id: Value, body: Body)
    ensures Size(f, Envelope(id, body)) == Surroundings(f, id) +
      (if body.Result? then StrSize(f, "result") + Size(f, body.value)
       else StrSize(f, "error") + Size(f, ErrorValue(body.error)))
  {
    hide StrSize, MembersSize, ErrorValue, ObjOverhead;
    MembersOf3(f, Envelope(id, body).fields);
  }

  /** A result that makes a response of any size, from that of the stand-in on. */
  function SizedBody(f: Format, id: Value, size: nat): Body
  {
    var rest := size - Surroundings(f, id) - StrSize(f, "result");
    Result(Sized(f, if rest >= 3 then rest else 3))
  }

  lemma SizedBodySize(f: Format, id: Value, size: nat)
    requires size >= Size(f, Envelope(id, Fault(INTERNAL_ERROR)))
    ensures Size(f, Envelope(id, SizedBody(f, id, size))) == size
  {
    hide Surroundings, Size, StrSize, Sized, ErrorValue;
    EnvelopeSize(f, id, SizedBody(f, id, size));
    EnvelopeSize(f, id, Fault(INTERNAL_ERROR));
    ShorterError(f);
    KeySizes(f, "result", "error");
    var rest := size - Surroundings(f, id) - StrSize(f, "result");
    SizedSize(f, if rest >= 3 then rest else 3);
  }

  /** Nothing is heard of any item but one. */
  function OneReturns(n: nat, c: nat, run: Run): (runs: seq<Run>)
    ensures |runs| == n
  {
    seq(n, i => if i == c then run else Raised(Unexpected))
  }

  lemma PlainAnswer(config: Config, item: Value, why: Failure)
    ensures Gain(config.format, Answer(config, item, Raised(why))) == 0
  {
  }

  lemma {:induction false} SpentBefore(a: Slots, b: Slots, fallbacks: Slots, budget: int, k: nat)
    requires k <= |a| == |b| == |fallbacks|
    requires forall i :: 0 <= i < k ==> a[i] == b[i]
    ensures Spent(a, fallbacks, budget, k) == Spent(b, fallbacks, budget, k)
  {
    if k > 0 {
      SpentBefore(a, b, fallbacks, budget, k - 1);
    }
  }

  /** What is left for call c when all other dispatches fail. */
  function Fill(config: Config, items: seq<Value>, c: nat): int
    requires c < |items|
  {
    var quiet := OneReturns(|items|, c, Raised(Unexpected));
    var fallbacks, budget := Fallbacks(config, items), Budget(config, items);
    budget - Spent(Answers(config, items, quiet), fallbacks, budget, c) - Held(fallbacks, c + 1)
  }

  lemma FillHoldsTheStandIn(config: Config, items: seq<Value>, c: nat)
    requires c < |items| && !Refused(config, items) && IsCall(items[c])
    ensures Fallback(config, items[c]).Some?
    ensures Fallback(config, items[c]).value.size <= Fill(config, items, c) <= config.maxResponse
  {
    var quiet := OneReturns(|items|, c, Raised(Unexpected));
    var answers, fallbacks, budget := Answers(config, items, quiet), Fallbacks(config, items), Budget(config, items);
    hide Answer, Fallback, Spent, Held, Validate;
    FallbackAgrees(config, items[c], quiet[c]);
    BatchMatched(config, items, quiet);
    SpentPlusHeldFits(answers, fallbacks, budget, c);
    BudgetStep(answers, fallbacks, budget, c);
  }

  /** A reply of just that size is kept, and uses the budget up. */
  lemma FilledTurn(config: Config, items: seq<Value>, c: nat, run: Run)
    requires c < |items| && !Refused(config, items) && IsCall(items[c])
    requires Answer(config, items[c], run).Some? && Answer(config, items[c], run).value.size == Fill(config, items, c)
    ensures var runs := OneReturns(|items|, c, run);
      var answers, fallbacks, budget := Answers(config, items, runs), Fallbacks(config, items), Budget(config, items);
      && Chosen(answers, fallbacks, budget, c) == Answer(config, items[c], run)
      && Spent(answers, fallbacks, budget, c + 1) + Held(fallbacks, c + 1) == budget
  {
    var runs, quiet := OneReturns(|items|, c, run), OneReturns(|items|, c, Raised(Unexpected));
    var answers, fallbacks, budget := Answers(config, items, runs), Fallbacks(config, items), Budget(config, items);
    hide Answer, Fallback, Spent, Held, IsCall;
    SpentBefore(answers, Answers(config, items, quiet), fallbacks, budget, c);
    BudgetStep(answers, fallbacks, budget, c);
    assert answers[c] == Answer(config, items[c], run);
  }

  lemma {:induction false} UsedUp(config: Config, items: seq<Value>, runs: seq<Run>, c: nat, k: nat)
    requires |runs| == |items| && c < k <= |items| && !Refused(config, items) && IsCall(items[c])
    requires forall i :: c < i < |items| ==> !IsCall(items[i])
    requires var fallbacks, budget := Fallbacks(config, items), Budget(config, items);
      Spent(Answers(config, items, runs), fallbacks, budget, c + 1) + Held(fallbacks, c + 1) == budget
    ensures var fallbacks, budget := Fallbacks(config, items), Budget(config, items);
      Spent(Answers(config, items, runs), fallbacks, budget, k) + Held(fallbacks, k) + Unspent(config, items, k) == budget
  {
    hide Answer, Fallback, Spent, Held, IsCall;
    if k > c + 1 {
      UsedUp(config, items, runs, c, k - 1);
      IdleTurn(config, items, runs, k - 1);
    }
  }

  /** Only the reply of call c gains anything. */
  lemma {:induction false} OneGains(config: Config, items: seq<Value>, c: nat, run: Run, k: nat)
    requires c < |items| && k <= |items|
    ensures var runs := OneReturns(|items|, c, run); var f := config.format;
      var answers, fallbacks, budget := Answers(config, items, runs), Fallbacks(config, items), Budget(config, items);
      && ChosenGain(f, answers, fallbacks, budget, k) == (if k <= c then 0 else Gain(f, Chosen(answers, fallbacks, budget, c)))
      && TotalGrowth(config, items, runs, k) == (if k <= c then 0 else Growth(config, items[c], run))
  {
    hide Answer, Fallback, Spent, Held;
    if k > 0 {
      OneGains(config, items, c, run, k - 1);
      if k - 1 != c {
        PlainAnswer(config, items[k - 1], Unexpected);
        StandInIsPlain(config, items[k - 1]);
        var runs := OneReturns(|items|, c, run);
        assert Answers(config, items, runs)[k - 1] == Answer(config, items[k - 1], Raised(Unexpected));
        assert Fallbacks(config, items)[k - 1] == Fallback(config, items[k - 1]);
      }
    }
  }

  /** The last call answered with just the bytes left to it, and one more than the slack when
      encoded again: the list is one byte too long. */
  lemma OneByteTooLong(config: Config, items: seq<Value>, c: nat, run: Run)
    requires c < |items| && !Refused(config, items) && IsCall(items[c])
    requires forall i :: c < i < |items| ==> !IsCall(items[i])
    requires Answer(config, items[c], run).Some? && Answer(config, items[c], run).value.size == Fill(config, items, c)
    requires Gain(config.format, Answer(config, items[c], run)) == Slack(config, items) + 1
    ensures var runs := OneReturns(|items|, c, run);
      && TotalGrowth(config, items, runs, |items|) == Slack(config, items) + 1
      && ListSize(config, items, runs) == config.maxResponse + 1
  {
    SlackIsPositive(config, items);
    var runs := OneReturns(|items|, c, run);
    hide Answer, Fallback, Validate, Spent, ChosenGain, TotalGrowth, Unspent, ListSize, Refused, Fill, ReplyCount;
    FilledTurn(config, items, c, run);
    UsedUp(config, items, runs, c, |items|);
    OneGains(config, items, c, run, |items|);
    ListSizeIs(config, items, runs);
    assert Held(Fallbacks(config, items), |items|) == 0;
  }

  /** A call's reply of just the bytes left to it, from any result. */
  lemma FillingReply(config: Config, items: seq<Value>, c: nat, body: Body)
    requires c < |items| && !Refused(config, items) && IsCall(items[c])
    ensures 0 <= Fill(config, items, c)
    ensures var id, run := Validate(items[c]).value.id.value, Returned(body, Fill(config, items, c), true);
      && Fill(config, items, c) >= Size(config.format, Envelope(id, Fault(INTERNAL_ERROR)))
      && Answer(config, items[c], run) == Some(Encoded(Envelope(id, body), Fill(config, items, c), true))
  {
    ValidCallEnvelopes(config, items[c], Raised(Unexpected));
    FillHoldsTheStandIn(config, items, c);
  }

  /** Such a result exists, so growth beyond the slack can overflow. */
  lemma OverflowsByOne(config: Config, items: seq<Value>, c: nat)
    requires c < |items| && !Refused(config, items) && IsCall(items[c])
    requires forall i :: c < i < |items| ==> !IsCall(items[i])
    ensures exists runs: seq<Run> :: |runs| == |items|
              && TotalGrowth(config, items, runs, |items|) == Slack(config, items) + 1
              && ListSize(config, items, runs) == config.maxResponse + 1
  {
    var id, fill := Validate(items[c]).value.id.value, Fill(config, items, c);
    FillingReply(config, items, c, Result(Null));
    SlackIsPositive(config, items);
    var body := SizedBody(config.format, id, fill + Slack(config, items) + 1);
    SizedBodySize(config.format, id, fill + Slack(config, items) + 1);
    FillingReply(config, items, c, body);
    var run := Returned(body, fill, true);
    hide Answer, Validate, Size, TotalGrowth, ListSize, Refused, Fill;
    OneByteTooLong(config, items, c, run);
    assert |OneReturns(|items|, c, run)| == |items|;
  }

  lemma {:induction false} LastCall(items: seq<Value>, k: nat) returns (c: nat)
    requires k <= |items| && exists i :: 0 <= i < k && IsCall(items[i])
    ensures c < k && IsCall(items[c]) && forall i :: c < i < k ==> !IsCall(items[i])
  {
    if IsCall(items[k - 1]) {
      c := k - 1;
    } else {
      c := LastCall(items, k - 1);
    }
  }

  /** An unrefused batch with a call in it tolerates growth up to its slack and no further;
      the slack depends on nothing but the items and the configuration. */
  lemma ToleranceIff(config: Config, items: seq<Value>, g: nat)
    requires !Refused(config, items) && exists i :: 0 <= i < |items| && IsCall(items[i])
    ensures Tolerates(config, items, g) <==> g <= Slack(config, items)
  {
    hide TotalGrowth, ListSize, Slack, Refused, IsCall;
    if g <= Slack(config, items) {
      forall runs: seq<Run> | |runs| == |items| && TotalGrowth(config, items, runs, |items|) <= g
        ensures ListSize(config, items, runs) <= config.maxResponse
      {
        BatchFits(config, items, runs);
      }
    } else {
      var c := LastCall(items, |items|);
      OverflowsByOne(config, items, c);
    }
  }

  /** Whatever is received and whatever the handlers do, a reply fits the configured limit;
      only a batch, which decodes and encodes its replies again, needs them not to grow by
      more than its slack. */
  lemma EveryReplyFits(config: Config, data: Option<Value>, runs: seq<Run>)
    requires config.Valid() && (data.Some? ==> |runs| == Jobs(data.value))
    requires data.Some? && data.value.Arr? && !Refused(config, data.value.items) ==>
      TotalGrowth(config, data.value.items, runs, |data.value.items|) <= Slack(config, data.value.items)
    requires Reply(config, data, runs).Some?
    ensures Reply(config, data, runs).value.size <= config.maxResponse
  {
    if data.None? {
      ErrorEnvelopeFits(config.format, Null, PARSE_ERROR);
    } else if !data.value.Arr? {
      AnswerFits(config, data.value, runs[0]);
    } else if Refused(config, data.value.items) {
      ErrorEnvelopeFits(config.format, Null, INVALID_REQUEST);
    } else {
      BatchFits(config, data.value.items, runs);
    }
  }
}
