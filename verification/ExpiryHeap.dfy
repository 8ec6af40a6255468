/** The binary heap of expiry marks, as the `heapq` functions maintain it in a list. */
module ExpiryHeap {

  type Key = nat

  /** When a session expires, and its key.  Marks compare as pairs. */
  datatype Mark = Mark(expiry: real, key: Key)

  predicate AtMost(a: Mark, b: Mark)
  {
    a.expiry < b.expiry || (a.expiry == b.expiry && a.key <= b.key)
  }

  function Parent(i: nat): nat
    requires i > 0
  {
    (i - 1) / 2
  }

  /** Every element whose parent is at or after `start` is no less than that parent. */
  ghost predicate HeapFrom(heap: seq<Mark>, start: nat)
  {
    forall i :: 0 < i < |heap| && start <= Parent(i) ==> AtMost(heap[Parent(i)], heap[i])
  }

  ghost predicate IsHeap(heap: seq<Mark>)
  {
    HeapFrom(heap, 0)
  }

  lemma {:induction false} RootIsLeast(heap: seq<Mark>, i: nat)
    requires IsHeap(heap) && i < |heap|
    ensures AtMost(heap[0], heap[i])
  {
    if i > 0 {
      RootIsLeast(heap, Parent(i));
    }
  }

  function Swap(heap: seq<Mark>, i: nat, j: nat): (swapped: seq<Mark>)
    requires i < |heap| && j < |heap|
    ensures |swapped| == |heap| && multiset(swapped) == multiset(heap)
    ensures forall k :: 0 <= k < |heap| ==> swapped[k] == heap[if k == i then j else if k == j then i else k]
  {
    heap[i := heap[j]][j := heap[i]]
  }

  /** In order except that the element at `at` may be less than its parent. */
  ghost predicate Rising(heap: seq<Mark>, at: nat)
  {
    && at < |heap|
    && (forall i :: 0 < i < |heap| && i != at ==> AtMost(heap[Parent(i)], heap[i]))
    && (at > 0 ==> forall i :: 0 < i < |heap| && Parent(i) == at ==> AtMost(heap[Parent(at)], heap[i]))
  }

  /** In order from `start` on, except that the element at `at` may be greater than its children. */
  ghost predicate Sinking(heap: seq<Mark>, start: nat, at: nat)
  {
    && start <= at < |heap|
    && (forall i :: 0 < i < |heap| && start <= Parent(i) != at ==> AtMost(heap[Parent(i)], heap[i]))
    && (at > 0 && start <= Parent(at) ==>
          forall i :: 0 < i < |heap| && Parent(i) == at ==> AtMost(heap[Parent(at)], heap[i]))
  }

  lemma RisingStep(heap: seq<Mark>, at: nat)
    requires Rising(heap, at) && at > 0 && !AtMost(heap[Parent(at)], heap[at])
    ensures Rising(Swap(heap, at, Parent(at)), Parent(at))
  {
  }

  lemma SinkingStep(heap: seq<Mark>, start: nat, at: nat, child: nat)
    requires Sinking(heap, start, at) && 0 < child < |heap| && Parent(child) == at
    requires !AtMost(heap[at], heap[child])
    requires forall i :: 0 < i < |heap| && Parent(i) == at ==> AtMost(heap[child], heap[i])
    ensures Sinking(Swap(heap, at, child), start, child)
  {
    var swapped := Swap(heap, at, child);
    forall i | 0 < i < |heap| && start <= Parent(i) != child ensures AtMost(swapped[Parent(i)], swapped[i]) {
      if Parent(i) != at && i != at {
        assert swapped[i] == heap[i] && swapped[Parent(i)] == heap[Parent(i)];
      }
    }
  }

  /** Move the element at `start` towards the root until its parent is no greater. */
  method MoveUp(heap: seq<Mark>, start: nat) returns (fixed: seq<Mark>)
    requires Rising(heap, start)
    ensures IsHeap(fixed) && multiset(fixed) == multiset(heap) && |fixed| == |heap|
  {
    fixed := heap;
    var at: nat := start;
    while at > 0 && !AtMost(fixed[Parent(at)], fixed[at])
      invariant Rising(fixed, at) && multiset(fixed) == multiset(heap) && |fixed| == |heap|
    {
      RisingStep(fixed, at);
      fixed := Swap(fixed, at, Parent(at));
      at := Parent(at);
    }
  }

  /** Move the element at `start` towards the leaves until no child is less. */
  method MoveDown(heap: seq<Mark>, start: nat) returns (fixed: seq<Mark>)
    requires start < |heap| && HeapFrom(heap, start + 1)
    ensures HeapFrom(fixed, start) && multiset(fixed) == multiset(heap) && |fixed| == |heap|
  {
    fixed := heap;
    var at: nat := start;
    while 2 * at + 1 < |fixed|
      invariant Sinking(fixed, start, at) && multiset(fixed) == multiset(heap) && |fixed| == |heap|
    {
      var child := 2 * at + 1;
      if child + 1 < |fixed| && !AtMost(fixed[child], fixed[child + 1]) {
        child := child + 1;
      }
      assert forall i :: 0 < i < |fixed| && Parent(i) == at ==> i in {2 * at + 1, 2 * at + 2};
      if AtMost(fixed[at], fixed[child]) {
        return;
      }
      SinkingStep(fixed, start, at, child);
      fixed := Swap(fixed, at, child);
      at := child;
    }
  }

  /** heappush */
  method Push(heap: seq<Mark>, mark: Mark) returns (pushed: seq<Mark>)
    requires IsHeap(heap)
    ensures IsHeap(pushed) && multiset(pushed) == multiset(heap) + multiset{mark} && |pushed| == |heap| + 1
  {
    pushed := MoveUp(heap + [mark], |heap|);
  }

  /** heappop: the least mark leaves, everything else stays. */
  method Pop(heap: seq<Mark>) returns (least: Mark, rest: seq<Mark>)
    requires IsHeap(heap) && heap != []
    ensures least == heap[0] && forall m :: m in heap ==> AtMost(least, m)
    ensures IsHeap(rest) && multiset(rest) + multiset{least} == multiset(heap) && |rest| == |heap| - 1
  {
    least := heap[0];
    forall m | m in heap ensures AtMost(least, m) {
      var i :| 0 <= i < |heap| && heap[i] == m;
      RootIsLeast(heap, i);
    }
    var n := |heap| - 1;
    assert heap == [least] + heap[1..];
    if n == 0 {
      rest := [];
    } else {
      assert heap[1..] == heap[1..n] + [heap[n]];
      rest := [heap[n]] + heap[1..n];
      rest := MoveDown(rest, 0);
    }
  }

  /** heapify */
  method Heapify(marks: seq<Mark>) returns (heap: seq<Mark>)
    ensures IsHeap(heap) && multiset(heap) == multiset(marks) && |heap| == |marks|
  {
    heap := marks;
    var start := |marks| / 2;
    while start > 0
      invariant 0 <= start <= |heap| == |marks|
      invariant HeapFrom(heap, start) && multiset(heap) == multiset(marks)
    {
      start := start - 1;
      heap := MoveDown(heap, start);
    }
  }
}
