/** The dispatcher's job queue: `dispatcher/queue.go` driven by the sift-up, sift-down and
    remove-at-index routines of Go's `container/heap`. */
module PriorityHeap {

  /** An accepted job. `number` is the value of the dispatcher's sequence counter at submission,
      so it also stands for the identity of the submitted job object. */
  datatype Job = Job(priority: int, group: string, number: nat)

  /** `priorityQueue.Less`: higher priority first, then lower sequence number. */
  predicate Less(a: Job, b: Job) {
    if a.priority != b.priority then a.priority > b.priority else a.number < b.number
  }

  /** `best` may leave before `j`: it has the higher priority, or the same and no later number. */
  predicate RanksFirst(best: Job, j: Job) {
    best.priority > j.priority || (best.priority == j.priority && best.number <= j.number)
  }

  function Parent(i: int): (p: int)
    requires i > 0
    ensures 0 <= p < i
  {
    (i - 1) / 2
  }

  /** No element must leave before its heap parent. */
  ghost predicate HeapOrdered(q: seq<Job>) {
    forall k {:trigger Parent(k)} :: 0 < k < |q| ==> !Less(q[k], q[Parent(k)])
  }

  /** `a` is `k` or lies on the path from `k` to the root. */
  ghost predicate IsAncestor(a: nat, k: nat)
  {
    a == k || (k > 0 && IsAncestor(a, Parent(k)))
  }

  lemma {:induction false} AncestorsComeEarlier(a: nat, k: nat)
    requires IsAncestor(a, k)
    ensures a <= k
  {
    if a != k { AncestorsComeEarlier(a, Parent(k)); }
  }

  /** Along every path of a heap the order only gets worse. */
  lemma {:induction false} AncestorNotAfter(q: seq<Job>, a: nat, k: nat)
    requires HeapOrdered(q) && k < |q| && IsAncestor(a, k)
    ensures a <= k && !Less(q[k], q[a])
  {
    AncestorsComeEarlier(a, k);
    if a != k {
      AncestorsComeEarlier(a, Parent(k));
      AncestorNotAfter(q, a, Parent(k));
    }
  }

  lemma {:induction false} RootIsAncestor(k: nat)
    ensures IsAncestor(0, k)
  {
    if k > 0 { RootIsAncestor(Parent(k)); }
  }

  /** The root of a heap is a (priority, sequence) minimum of the whole queue. */
  lemma RootIsBest(q: seq<Job>)
    requires HeapOrdered(q) && q != []
    ensures forall j :: j in q ==> RanksFirst(q[0], j)
  {
    forall k | 0 <= k < |q| ensures RanksFirst(q[0], q[k]) {
      RootIsAncestor(k);
      AncestorNotAfter(q, 0, k);
    }
  }

  // ---- what sift-up and sift-down assume about a queue with one misplaced element ----

  /** Parent links hold among the first `n` elements, except perhaps those touching index `i`. */
  ghost predicate OrderedAround(q: seq<Job>, n: nat, i: nat)
    requires n <= |q|
  {
    forall k {:trigger Parent(k)} :: 0 < k < n && k != i && Parent(k) != i ==> !Less(q[k], q[Parent(k)])
  }

  /** The parent link from `i` upwards holds. */
  ghost predicate LinkUp(q: seq<Job>, i: nat)
    requires i < |q|
  {
    i > 0 ==> !Less(q[i], q[Parent(i)])
  }

  /** The links from the children of `i` up to `i` hold. */
  ghost predicate LinksDown(q: seq<Job>, n: nat, i: nat)
    requires n <= |q|
  {
    forall k {:trigger Parent(k)} :: 0 < k < n && Parent(k) == i ==> !Less(q[k], q[i])
  }

  /** The children of `i` do not precede the parent of `i`. */
  ghost predicate Bridged(q: seq<Job>, n: nat, i: nat)
    requires n <= |q|
  {
    forall k {:trigger Parent(k)} :: 0 < k < n && Parent(k) == i && i > 0 ==> !Less(q[k], q[Parent(i)])
  }

  lemma JoinOrdered(q: seq<Job>, n: nat, i: nat)
    requires n <= |q| && i < n && OrderedAround(q, n, i) && LinkUp(q, i) && LinksDown(q, n, i)
    ensures HeapOrdered(q[..n])
  {
    forall k | 0 < k < n ensures !Less(q[..n][k], q[..n][Parent(k)]) {
      if k != i && Parent(k) != i { assert !Less(q[k], q[Parent(k)]); }
    }
  }

  function Swapped(q: seq<Job>, i: nat, j: nat): (r: seq<Job>)
    requires i < |q| && j < |q|
    ensures |r| == |q| && r[i] == q[j] && r[j] == q[i]
    ensures forall k :: 0 <= k < |q| && k != i && k != j ==> r[k] == q[k]
    ensures multiset(r) == multiset(q)
  {
    q[i := q[j]][j := q[i]]
  }

  /** Only the element at `i` may be out of place, and it may be so in either direction. */
  ghost predicate Sinkable(q: seq<Job>, n: nat, i: nat)
    requires n <= |q|
  {
    OrderedAround(q, n, i) && Bridged(q, n, i)
  }

  /** `r` permutes the first `n` elements of `q` and keeps the rest. */
  ghost predicate Rearranged(q: seq<Job>, r: seq<Job>, n: nat)
  {
    n <= |q| == |r| && multiset(r) == multiset(q) && forall k :: n <= k < |q| ==> r[k] == q[k]
  }

  /** The child of `i` that `heap.down` compares with `i`. */
  function BestChild(q: seq<Job>, n: nat, i: nat): (c: nat)
    requires n <= |q| && 2 * i + 1 < n
    ensures i < c < n && Parent(c) == i
    ensures forall k {:trigger Parent(k)} :: 0 < k < n && Parent(k) == i ==> !Less(q[k], q[c])
  {
    var left := 2 * i + 1;
    assert forall k {:trigger Parent(k)} :: 0 < k < n && Parent(k) == i ==> k == left || k == left + 1;
    if left + 1 < n && Less(q[left + 1], q[left]) then left + 1 else left
  }

  lemma SettledBelow(q: seq<Job>, n: nat, i: nat)
    requires n <= |q| && i < n
    requires 2 * i + 1 < n ==> !Less(q[BestChild(q, n, i)], q[i])
    ensures LinksDown(q, n, i)
  {
    forall k | 0 < k < n && Parent(k) == i ensures !Less(q[k], q[i]) {
      assert 2 * i + 1 < n;
      assert !Less(q[k], q[BestChild(q, n, i)]);
    }
  }

  /** Swapping a misplaced element with its smallest child repairs the link above and moves the
      trouble down one level. */
  lemma SiftDownStep(q: seq<Job>, n: nat, i: nat, c: nat)
    requires i < c < n <= |q| && Parent(c) == i && Less(q[c], q[i])
    requires forall k {:trigger Parent(k)} :: 0 < k < n && Parent(k) == i ==> !Less(q[k], q[c])
    requires Sinkable(q, n, i)
    ensures var r := Swapped(q, i, c); Sinkable(r, n, c) && LinkUp(r, c)
  {
    var r := Swapped(q, i, c);
    forall k | 0 < k < n && k != c && Parent(k) != c ensures !Less(r[k], r[Parent(k)]) {
      if k == i {
        assert !Less(q[c], q[Parent(i)]);
      } else if Parent(k) == i {
        assert !Less(q[k], q[c]);
      } else {
        assert !Less(q[k], q[Parent(k)]);
      }
    }
    forall k | 0 < k < n && Parent(k) == c ensures !Less(r[k], r[Parent(c)]) {
      assert !Less(q[k], q[Parent(k)]);
    }
  }

  /** Swapping a misplaced element with its parent moves the trouble up one level. */
  lemma SiftUpStep(q: seq<Job>, n: nat, j: nat)
    requires 0 < j < n <= |q| && Less(q[j], q[Parent(j)])
    requires Sinkable(q, n, j) && LinksDown(q, n, j)
    ensures var i, r := Parent(j), Swapped(q, Parent(j), j); Sinkable(r, n, i) && LinksDown(r, n, i)
  {
    var i, r := Parent(j), Swapped(q, Parent(j), j);
    forall k | 0 < k < n && k != i && Parent(k) != i ensures !Less(r[k], r[Parent(k)]) {
      if Parent(k) == j { assert !Less(q[k], q[Parent(j)]); } else { assert !Less(q[k], q[Parent(k)]); }
    }
    forall k | 0 < k < n && Parent(k) == i ensures !Less(r[k], r[i]) {
      if k != j { assert !Less(q[k], q[Parent(k)]); }
    }
    forall k | 0 < k < n && Parent(k) == i && i > 0 ensures !Less(r[k], r[Parent(i)]) {
      assert !Less(q[i], q[Parent(i)]);
      if k != j { assert !Less(q[k], q[Parent(k)]); }
    }
  }

  /** After the last element takes the place of element `i`, the heap is ordered except around `i`. */
  lemma RemovalLeavesSinkable(q: seq<Job>, i: nat)
    requires HeapOrdered(q) && i < |q| - 1
    ensures Sinkable(Swapped(q, i, |q| - 1), |q| - 1, i)
  {
    var n, r := |q| - 1, Swapped(q, i, |q| - 1);
    forall k | 0 < k < n && k != i && Parent(k) != i ensures !Less(r[k], r[Parent(k)]) {
      assert !Less(q[k], q[Parent(k)]);
    }
    forall k | 0 < k < n && Parent(k) == i && i > 0 ensures !Less(r[k], r[Parent(i)]) {
      assert !Less(q[k], q[i]) && !Less(q[i], q[Parent(i)]);
    }
  }

  /** `priorityQueue` together with the `container/heap` routines that work on it in place. */
  class PriorityQueue {
    var items: seq<Job>

    constructor ()
      ensures items == []
    {
      items := [];
    }

    method Swap(i: nat, j: nat)
      requires i < |items| && j < |items|
      modifies this
      ensures items == Swapped(old(items), i, j)
    {
      items := items[i := items[j]][j := items[i]];
    }

    /** `heap.up`. It only visits ancestors of `start`, so the elements from `n` on stay put. */
    method Up(start: nat, ghost n: nat)
      requires start < n <= |items| && Sinkable(items, n, start) && LinksDown(items, n, start)
      modifies this
      ensures Rearranged(old(items), items, n) && HeapOrdered(items[..n])
    {
      var j: nat := start;
      while j > 0 && Less(items[j], items[Parent(j)])
        invariant j < n && Rearranged(old(items), items, n)
        invariant Sinkable(items, n, j) && LinksDown(items, n, j)
        decreases j
      {
        SiftUpStep(items, n, j);
        var i := Parent(j);
        Swap(i, j);
        j := i;
      }
      JoinOrdered(items, n, j);
    }

    /** `heap.down` on the first `n` elements; the answer says whether anything moved. */
    method Down(start: nat, n: nat) returns (moved: bool)
      requires start < n <= |items| && Sinkable(items, n, start)
      modifies this
      ensures Rearranged(old(items), items, n)
      ensures moved ==> HeapOrdered(items[..n])
      ensures !moved ==> items == old(items) && LinksDown(items, n, start)
    {
      var i := start;
      while 2 * i + 1 < n && Less(items[BestChild(items, n, i)], items[i])
        invariant start <= i < n && Rearranged(old(items), items, n)
        invariant i == start ==> items == old(items)
        invariant Sinkable(items, n, i)
        invariant i > start ==> LinkUp(items, i)
        decreases n - i
      {
        var child := BestChild(items, n, i);
        SiftDownStep(items, n, i, child);
        Swap(i, child);
        i := child;
      }
      SettledBelow(items, n, i);
      moved := i > start;
      if moved {
        JoinOrdered(items, n, i);
      }
    }

    /** `heap.Push`. */
    method Push(job: Job)
      requires HeapOrdered(items)
      modifies this
      ensures HeapOrdered(items)
      ensures multiset(items) == old(multiset(items)) + multiset{job}
    {
      items := items + [job];
      Up(|items| - 1, |items|);
      assert items[..|items|] == items;
    }

    /** `heap.Remove`: takes the element at index `i` out of the heap. */
    method Remove(i: nat) returns (job: Job)
      requires i < |items| && HeapOrdered(items)
      modifies this
      ensures job == old(items)[i]
      ensures HeapOrdered(items)
      ensures multiset(items) == old(multiset(items)) - multiset{job}
    {
      var n := |items| - 1;
      if n != i {
        SwapOut(i, n);
      } else {
        PrefixOrdered(items, n);
      }
      DropLast(old(items), items);
      job := Pop();
    }

    /** The repair inside `heap.Remove`: element `i` goes to the end, the others stay a heap. */
    method SwapOut(i: nat, n: nat)
      requires i < n == |items| - 1 && HeapOrdered(items)
      modifies this
      ensures |items| == n + 1 && multiset(items) == old(multiset(items)) && items[n] == old(items)[i]
      ensures HeapOrdered(items[..n])
    {
      RemovalLeavesSinkable(items, i);
      Swap(i, n);
      var moved := Down(i, n);
      if !moved {
        Up(i, n);
      }
    }

    /** `priorityQueue.Pop`: takes the last element. */
    method Pop() returns (job: Job)
      requires items != []
      modifies this
      ensures job == old(items)[|old(items)| - 1]
      ensures items == old(items)[..|old(items)| - 1]
    {
      job := items[|items| - 1];
      items := items[..|items| - 1];
    }
  }

  lemma PrefixOrdered(q: seq<Job>, n: nat)
    requires HeapOrdered(q) && n <= |q|
    ensures HeapOrdered(q[..n])
  {
    forall k | 0 < k < n ensures !Less(q[..n][k], q[..n][Parent(k)]) {
      assert !Less(q[k], q[Parent(k)]);
    }
  }

  lemma DropLast(q: seq<Job>, r: seq<Job>)
    requires |q| == |r| > 0 && multiset(q) == multiset(r)
    ensures multiset(r[..|r| - 1]) == multiset(q) - multiset{r[|r| - 1]}
  {
    assert r == r[..|r| - 1] + [r[|r| - 1]];
  }
}
