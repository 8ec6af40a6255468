/** The byte-budget rule of the batch loop, free of any message format.

    Item k has a reply `answers[k]` and a small stand-in `fallbacks[k]`; both are None for an
    item that gets no reply.  Every unfinished item holds back its stand-in's size, and a
    reply that would eat into what the later items hold back is replaced. */
module BatchBudget {
  import opened Messages

  /** An encoded message: the data that was encoded, the length in bytes, and whether the
      bytes decode to that data again. */
  datatype Encoded = Encoded(value: Value, size: nat, decodes: bool)

  type Slots = seq<Option<Encoded>>

  function Cost(slot: Option<Encoded>): nat
  {
    if slot.Some? then slot.value.size else 0
  }

  /** Bytes held back for items k, k+1, ... */
  function Held(slots: Slots, k: nat): nat
    requires k <= |slots|
    decreases |slots| - k
  {
    if k == |slots| then 0 else Cost(slots[k]) + Held(slots, k + 1)
  }

  /** Bytes spent on the replies of the first k items. */
  function Spent(answers: Slots, fallbacks: Slots, budget: int, k: nat): nat
    requires k <= |answers| == |fallbacks|
    decreases k, 0
  {
    if k == 0 then 0
    else Spent(answers, fallbacks, budget, k - 1) + Cost(Chosen(answers, fallbacks, budget, k - 1))
  }

  /** What item k finally contributes. */
  function Chosen(answers: Slots, fallbacks: Slots, budget: int, k: nat): Option<Encoded>
    requires k < |answers| == |fallbacks|
    decreases k, 1
  {
    if answers[k].None? then None
    else if fallbacks[k].Some?
         && answers[k].value.size > budget - Spent(answers, fallbacks, budget, k) - Held(fallbacks, k + 1)
    then fallbacks[k]
    else answers[k]
  }

  /** The replies of the first k items, in item order. */
  function Collected(answers: Slots, fallbacks: Slots, budget: int, k: nat): seq<Encoded>
    requires k <= |answers| == |fallbacks|
  {
    if k == 0 then []
    else
      var before := Collected(answers, fallbacks, budget, k - 1);
      var last := Chosen(answers, fallbacks, budget, k - 1);
      if last.Some? then before + [last.value] else before
  }

  /** One turn of the loop, spelled out. */
  lemma BudgetStep(answers: Slots, fallbacks: Slots, budget: int, k: nat)
    requires k < |answers| == |fallbacks|
    ensures Held(fallbacks, k) == Cost(fallbacks[k]) + Held(fallbacks, k + 1)
    ensures Spent(answers, fallbacks, budget, k + 1) ==
      Spent(answers, fallbacks, budget, k) + Cost(Chosen(answers, fallbacks, budget, k))
    ensures Collected(answers, fallbacks, budget, k + 1) ==
      Collected(answers, fallbacks, budget, k)
      + (if answers[k].Some? then [Chosen(answers, fallbacks, budget, k).value] else [])
    ensures Chosen(answers, fallbacks, budget, k) ==
      if answers[k].Some? && fallbacks[k].Some?
         && answers[k].value.size > budget - Spent(answers, fallbacks, budget, k) - Held(fallbacks, k + 1)
      then fallbacks[k] else answers[k]
  {
  }

  ghost predicate Matched(answers: Slots, fallbacks: Slots)
  {
    && |answers| == |fallbacks|
    && forall k :: 0 <= k < |answers| ==> (answers[k].None? <==> fallbacks[k].None?)
  }

  /** If the stand-ins alone fit, what has been spent plus what is still held back always fits. */
  lemma {:induction false} SpentPlusHeldFits(answers: Slots, fallbacks: Slots, budget: int, k: nat)
    requires Matched(answers, fallbacks) && k <= |answers|
    requires Held(fallbacks, 0) <= budget
    ensures Spent(answers, fallbacks, budget, k) + Held(fallbacks, k) <= budget
  {
    if k > 0 {
      SpentPlusHeldFits(answers, fallbacks, budget, k - 1);
    }
  }

  function TotalSize(replies: seq<Encoded>): nat
  {
    if replies == [] then 0 else TotalSize(replies[..|replies| - 1]) + replies[|replies| - 1].size
  }

  lemma {:induction false} CollectedCost(answers: Slots, fallbacks: Slots, budget: int, k: nat)
    requires k <= |answers| == |fallbacks|
    ensures TotalSize(Collected(answers, fallbacks, budget, k)) == Spent(answers, fallbacks, budget, k)
    ensures |Collected(answers, fallbacks, budget, k)| <= k
  {
    if k > 0 {
      CollectedCost(answers, fallbacks, budget, k - 1);
      var before := Collected(answers, fallbacks, budget, k - 1);
      var all := Collected(answers, fallbacks, budget, k);
      assert |all| > |before| ==> all[..|all| - 1] == before;
    }
  }

  /** How many of the first k items get a reply: the position of item k's reply. */
  function Rank(slots: Slots, k: nat): nat
    requires k <= |slots|
  {
    if k == 0 then 0 else Rank(slots, k - 1) + (if slots[k - 1].Some? then 1 else 0)
  }

  lemma {:induction false} RankMonotone(slots: Slots, i: nat, k: nat)
    requires i < k <= |slots|
    ensures Rank(slots, i) + (if slots[i].Some? then 1 else 0) <= Rank(slots, k)
  {
    if i < k - 1 {
      RankMonotone(slots, i, k - 1);
    }
  }

  /** One reply per item that has one, each at its item's rank: nothing is lost, repeated or reordered. */
  lemma {:induction false} CollectedInOrder(answers: Slots, fallbacks: Slots, budget: int, k: nat)
    requires Matched(answers, fallbacks) && k <= |answers|
    ensures |Collected(answers, fallbacks, budget, k)| == Rank(answers, k)
    ensures forall i {:trigger Chosen(answers, fallbacks, budget, i)} :: 0 <= i < k && answers[i].Some? ==>
      && Rank(answers, i) < Rank(answers, k)
      && Chosen(answers, fallbacks, budget, i) == Some(Collected(answers, fallbacks, budget, k)[Rank(answers, i)])
  {
    if k > 0 {
      CollectedInOrder(answers, fallbacks, budget, k - 1);
      forall i | 0 <= i < k && answers[i].Some?
        ensures Rank(answers, i) < Rank(answers, k)
        ensures Chosen(answers, fallbacks, budget, i) == Some(Collected(answers, fallbacks, budget, k)[Rank(answers, i)])
      {
        RankMonotone(answers, i, k);
      }
    }
  }

  /** Every position of the reply list is the rank of some answered item. */
  lemma {:induction false} RankOnto(slots: Slots, k: nat, p: nat) returns (i: nat)
    requires k <= |slots| && p < Rank(slots, k)
    ensures i < k && slots[i].Some? && Rank(slots, i) == p
  {
    if p < Rank(slots, k - 1) {
      i := RankOnto(slots, k - 1, p);
    } else {
      i := k - 1;
    }
  }

  /** Bytes the first k replies would take if none were replaced. */
  function RealSpent(answers: Slots, k: nat): nat
    requires k <= |answers|
  {
    if k == 0 then 0 else RealSpent(answers, k - 1) + Cost(answers[k - 1])
  }

  ghost predicate NoneReplaced(answers: Slots, fallbacks: Slots, budget: int)
    requires |answers| == |fallbacks|
  {
    forall k :: 0 <= k < |answers| ==> Chosen(answers, fallbacks, budget, k) == answers[k]
  }

  /** Every prefix of real replies fits beside the stand-ins of the items after it. */
  ghost predicate PrefixesFit(answers: Slots, fallbacks: Slots, budget: int)
    requires |answers| == |fallbacks|
  {
    forall k :: 0 <= k < |answers| && answers[k].Some? ==>
      RealSpent(answers, k) + answers[k].value.size + Held(fallbacks, k + 1) <= budget
  }

  /** No reply is replaced exactly when all prefixes fit. */
  lemma NoneReplacedIff(answers: Slots, fallbacks: Slots, budget: int)
    requires Matched(answers, fallbacks) && Held(fallbacks, 0) <= budget
    ensures NoneReplaced(answers, fallbacks, budget) <==> PrefixesFit(answers, fallbacks, budget)
  {
    if PrefixesFit(answers, fallbacks, budget) {
      forall k | 0 <= k < |answers| ensures Chosen(answers, fallbacks, budget, k) == answers[k] {
        KeptWhileFitting(answers, fallbacks, budget, k);
      }
    }
    if NoneReplaced(answers, fallbacks, budget) {
      forall k | 0 <= k < |answers| && answers[k].Some?
        ensures RealSpent(answers, k) + answers[k].value.size + Held(fallbacks, k + 1) <= budget
      {
        SpentIsReal(answers, fallbacks, budget, k + 1);
        SpentPlusHeldFits(answers, fallbacks, budget, k + 1);
      }
    }
  }

  lemma {:induction false} KeptWhileFitting(answers: Slots, fallbacks: Slots, budget: int, k: nat)
    requires Matched(answers, fallbacks) && k < |answers|
    requires PrefixesFit(answers, fallbacks, budget)
    ensures Spent(answers, fallbacks, budget, k) == RealSpent(answers, k)
    ensures Chosen(answers, fallbacks, budget, k) == answers[k]
  {
    if k > 0 {
      KeptWhileFitting(answers, fallbacks, budget, k - 1);
    }
  }

  lemma {:induction false} SpentIsReal(answers: Slots, fallbacks: Slots, budget: int, k: nat)
    requires k <= |answers| == |fallbacks|
    requires NoneReplaced(answers, fallbacks, budget)
    ensures Spent(answers, fallbacks, budget, k) == RealSpent(answers, k)
  {
    if k > 0 {
      SpentIsReal(answers, fallbacks, budget, k - 1);
      assert Chosen(answers, fallbacks, budget, k - 1) == answers[k - 1];
    }
  }
}
