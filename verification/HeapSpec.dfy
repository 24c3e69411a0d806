/**
 * The binary heap of Go's `container/heap` (release 1.3), written as functions on the
 * sequence of keys held by the slice.  `less` is the queue's own comparison.
 *
 * The in-place operations of `IndexedHeap` are proved to compute exactly these functions;
 * the lemmas below say what the functions achieve for every strict weak order.
 */
module HeapSpec {

  // ---------- The order ----------

  /** A strict weak order: asymmetric, and its complement is transitive. */
  ghost predicate StrictWeakOrder<K(!new)>(less: (K, K) -> bool) {
    && (forall a, b :: less(a, b) ==> !less(b, a))
    && (forall a, b, c :: Chains(less, a, b, c))
  }

  ghost predicate Chains<K>(less: (K, K) -> bool, a: K, b: K, c: K) {
    !less(a, b) && !less(b, c) ==> !less(a, c)
  }

  // ---------- Shape ----------

  function Parent(k: nat): (p: nat)
    requires k > 0
    ensures p < k
  {
    (k - 1) / 2
  }

  /** The edge from `k` to its parent respects the order. */
  ghost predicate Edge<K>(less: (K, K) -> bool, s: seq<K>, k: nat)
    requires 0 < k < |s|
  {
    !less(s[k], s[Parent(k)])
  }

  /** Heap order for the first `n` slots, restricted to parents at or after `lo`. */
  ghost predicate HeapFrom<K>(less: (K, K) -> bool, s: seq<K>, n: nat, lo: nat)
    requires n <= |s|
  {
    forall k :: 0 < k < n && lo <= Parent(k) ==> Edge(less, s, k)
  }

  ghost predicate IsHeap<K>(less: (K, K) -> bool, s: seq<K>) {
    HeapFrom(less, s, |s|, 0)
  }

  /** Only the edge above `j` may be broken, and the children of `j` respect its parent. */
  ghost predicate BrokenAbove<K>(less: (K, K) -> bool, s: seq<K>, n: nat, j: nat)
    requires n <= |s|
  {
    && (forall k :: 0 < k < n && k != j ==> Edge(less, s, k))
    && (forall k :: 0 < k < n && Parent(k) == j && 0 < j ==> !less(s[k], s[Parent(j)]))
  }

  /** Only edges touching `i` may be broken, and the children of `i` respect its parent. */
  ghost predicate BrokenAround<K>(less: (K, K) -> bool, s: seq<K>, n: nat, lo: nat, i: nat)
    requires n <= |s|
  {
    && (forall k :: 0 < k < n && lo <= Parent(k) && Parent(k) != i && k != i ==> Edge(less, s, k))
    && (forall k :: 0 < k < n && Parent(k) == i && 0 < i && lo <= Parent(i) ==> !less(s[k], s[Parent(i)]))
  }

  // ---------- Operations ----------

  function Swap<K>(s: seq<K>, i: nat, j: nat): (r: seq<K>)
    requires i < |s| && j < |s|
    ensures |r| == |s|
  {
    s[i := s[j]][j := s[i]]
  }

  /** `up`: moves the key at `j` towards the root while it is less than its parent. */
  function Up<K>(less: (K, K) -> bool, s: seq<K>, j: nat): (r: seq<K>)
    requires j < |s|
    ensures |r| == |s|
    decreases j
  {
    if j == 0 || !less(s[j], s[Parent(j)]) then s
    else Up(less, Swap(s, Parent(j), j), Parent(j))
  }

  /** The child `down` compares with: the left one unless the right one exists and the left is not less. */
  function Child<K>(less: (K, K) -> bool, s: seq<K>, i: nat, n: nat): (j: nat)
    requires n <= |s| && 2 * i + 1 < n
    ensures i < j < n && Parent(j) == i
  {
    if 2 * i + 2 < n && !less(s[2 * i + 1], s[2 * i + 2]) then 2 * i + 2 else 2 * i + 1
  }

  /** `down`: moves the key at `i` towards the leaves of the first `n` slots. */
  function Down<K>(less: (K, K) -> bool, s: seq<K>, i: nat, n: nat): (r: seq<K>)
    requires n <= |s|
    ensures |r| == |s|
    decreases n - i
  {
    if 2 * i + 1 >= n then s
    else
      var j := Child(less, s, i, n);
      if !less(s[j], s[i]) then s else Down(less, Swap(s, i, j), j, n)
  }

  /** One round of `down`. */
  lemma DownUnfolds<K>(less: (K, K) -> bool, s: seq<K>, i: nat, n: nat)
    requires n <= |s|
    ensures 2 * i + 1 >= n ==> Down(less, s, i, n) == s
    ensures 2 * i + 1 < n ==>
              var j := Child(less, s, i, n);
              Down(less, s, i, n) == if less(s[j], s[i]) then Down(less, Swap(s, i, j), j, n) else s
  {
  }

  /** `Init`: heapifies by sifting down slots `i - 1`, ..., 0. */
  function InitFrom<K>(less: (K, K) -> bool, s: seq<K>, i: nat): (r: seq<K>)
    ensures |r| == |s|
    decreases i
  {
    if i == 0 then s else InitFrom(less, Down(less, s, i - 1, |s|), i - 1)
  }

  function Init<K>(less: (K, K) -> bool, s: seq<K>): (r: seq<K>) {
    InitFrom(less, s, |s| / 2)
  }

  function Push<K>(less: (K, K) -> bool, s: seq<K>, x: K): (r: seq<K>)
    ensures |r| == |s| + 1
  {
    Up(less, s + [x], |s|)
  }

  /** The slice left by `Pop`; the popped key is the former root. */
  function Pop<K>(less: (K, K) -> bool, s: seq<K>): (r: seq<K>)
    requires s != []
    ensures |r| == |s| - 1
  {
    var n := |s| - 1;
    Down(less, Swap(s, 0, n), 0, n)[..n]
  }

  /** Moves the key at `i` to the end and repairs the slots before it. */
  function ToEnd<K>(less: (K, K) -> bool, s: seq<K>, i: nat): (r: seq<K>)
    requires i < |s|
    ensures |r| == |s|
  {
    var n := |s| - 1;
    if n == i then s else Up(less, Down(less, Swap(s, i, n), i, n), i)
  }

  /** The slice left by `Remove(i)`; the removed key is the former `s[i]`. */
  function Remove<K>(less: (K, K) -> bool, s: seq<K>, i: nat): (r: seq<K>)
    requires i < |s|
    ensures |r| == |s| - 1
  {
    ToEnd(less, s, i)[..|s| - 1]
  }

  /** Pops until nothing is left. */
  function Drain<K>(less: (K, K) -> bool, s: seq<K>): (r: seq<K>)
    ensures |r| == |s|
    decreases |s|
  {
    if s == [] then [] else [s[0]] + Drain(less, Pop(less, s))
  }

  ghost predicate Sorted<K>(less: (K, K) -> bool, s: seq<K>) {
    forall i, j :: 0 <= i < j < |s| ==> !less(s[j], s[i])
  }

  // ---------- Sifting permutes ----------

  lemma SwapPermutes<K>(s: seq<K>, i: nat, j: nat)
    requires i < |s| && j < |s|
    ensures multiset(Swap(s, i, j)) == multiset(s)
  {
  }

  lemma {:induction false} UpPermutes<K>(less: (K, K) -> bool, s: seq<K>, j: nat)
    requires j < |s|
    ensures multiset(Up(less, s, j)) == multiset(s)
    ensures forall k :: j < k < |s| ==> Up(less, s, j)[k] == s[k]
    decreases j
  {
    if j > 0 && less(s[j], s[Parent(j)]) {
      SwapPermutes(s, Parent(j), j);
      UpPermutes(less, Swap(s, Parent(j), j), Parent(j));
    }
  }

  lemma {:induction false} DownPermutes<K>(less: (K, K) -> bool, s: seq<K>, i: nat, n: nat)
    requires n <= |s|
    ensures multiset(Down(less, s, i, n)) == multiset(s)
    ensures forall k :: n <= k < |s| ==> Down(less, s, i, n)[k] == s[k]
    decreases n - i
  {
    if 2 * i + 1 < n {
      var j := Child(less, s, i, n);
      if less(s[j], s[i]) {
        SwapPermutes(s, i, j);
        DownPermutes(less, Swap(s, i, j), j, n);
      }
    }
  }

  lemma {:induction false} InitPermutes<K>(less: (K, K) -> bool, s: seq<K>, i: nat)
    ensures multiset(InitFrom(less, s, i)) == multiset(s)
    decreases i
  {
    if i > 0 {
      DownPermutes(less, s, i - 1, |s|);
      InitPermutes(less, Down(less, s, i - 1, |s|), i - 1);
    }
  }

  lemma ToEndPermutes<K>(less: (K, K) -> bool, s: seq<K>, i: nat)
    requires i < |s|
    ensures multiset(ToEnd(less, s, i)) == multiset(s) && ToEnd(less, s, i)[|s| - 1] == s[i]
  {
    var n := |s| - 1;
    if n != i {
      var t := Swap(s, i, n);
      var d := Down(less, t, i, n);
      SwapPermutes(s, i, n);
      DownPermutes(less, t, i, n);
      assert d[n] == t[n] == s[i];
      UpPermutes(less, d, i);
      assert ToEnd(less, s, i) == Up(less, d, i);
    }
  }

  lemma RemoveTakes<K>(less: (K, K) -> bool, s: seq<K>, i: nat)
    requires i < |s|
    ensures multiset(s) == multiset(Remove(less, s, i)) + multiset{s[i]}
  {
    ToEndPermutes(less, s, i);
    var t := ToEnd(less, s, i);
    assert t == t[..|s| - 1] + [s[i]];
  }

  // ---------- Sifting restores heap order ----------

  lemma {:induction false} UpRestores<K(!new)>(less: (K, K) -> bool, s: seq<K>, n: nat, j: nat)
    requires StrictWeakOrder(less)
    requires j < n <= |s| && BrokenAbove(less, s, n, j)
    ensures HeapFrom(less, Up(less, s, j), n, 0)
    decreases j
  {
    if j > 0 && less(s[j], s[Parent(j)]) {
      var p := Parent(j);
      var t := Swap(s, p, j);
      forall k | 0 < k < n && k != p
        ensures Edge(less, t, k)
      {
        assert k != j ==> Edge(less, s, k);
        if Parent(k) == p && k != j { assert Chains(less, s[k], s[p], s[j]); }
      }
      forall k | 0 < k < n && Parent(k) == p && 0 < p
        ensures !less(t[k], t[Parent(p)])
      {
        assert Edge(less, s, p);
        if k != j {
          assert Edge(less, s, k);
          assert Chains(less, s[k], s[p], s[Parent(p)]);
        }
      }
      UpRestores(less, t, n, p);
    }
  }

  /** If the edge above `i` is fine as well, sifting down repairs everything at or after `lo`. */
  lemma {:induction false} DownRestores<K(!new)>(less: (K, K) -> bool, s: seq<K>, n: nat, lo: nat, i: nat)
    requires StrictWeakOrder(less)
    requires lo <= i && n <= |s| && BrokenAround(less, s, n, lo, i)
    requires 0 < i < n && lo <= Parent(i) ==> Edge(less, s, i)
    ensures HeapFrom(less, Down(less, s, i, n), n, lo)
    decreases n - i
  {
    if 2 * i + 1 < n {
      var j := Child(less, s, i, n);
      if less(s[j], s[i]) {
        SwapWithChild(less, s, n, lo, i);
        DownRestores(less, Swap(s, i, j), n, lo, j);
      } else {
        forall k | 0 < k < n && lo <= Parent(k)
          ensures Edge(less, s, k)
        {
          if Parent(k) == i { ChildIsLesser(less, s, n, i, k); }
        }
      }
    }
  }

  /** No child of `i` is less than the one `down` chooses, nor than `s[i]` if that one is not. */
  lemma ChildIsLesser<K(!new)>(less: (K, K) -> bool, s: seq<K>, n: nat, i: nat, k: nat)
    requires StrictWeakOrder(less)
    requires 0 < k < n <= |s| && Parent(k) == i
    ensures var j := Child(less, s, i, n);
            !less(s[k], s[j]) && (!less(s[j], s[i]) ==> Edge(less, s, k))
  {
    assert k == 2 * i + 1 || k == 2 * i + 2;
    assert Chains(less, s[k], s[Child(less, s, i, n)], s[i]);
  }

  /** One swap of `down` moves the possible breakage from `i` to the chosen child. */
  lemma SwapWithChild<K(!new)>(less: (K, K) -> bool, s: seq<K>, n: nat, lo: nat, i: nat)
    requires StrictWeakOrder(less)
    requires lo <= i && n <= |s| && BrokenAround(less, s, n, lo, i)
    requires 2 * i + 1 < n && less(s[Child(less, s, i, n)], s[i])
    ensures var j := Child(less, s, i, n); var t := Swap(s, i, j);
            BrokenAround(less, t, n, lo, j) && Edge(less, t, j)
  {
    var j := Child(less, s, i, n);
    var t := Swap(s, i, j);
    forall k | 0 < k < n && lo <= Parent(k) && Parent(k) != j && k != j
      ensures Edge(less, t, k)
    {
      if Parent(k) == i { ChildIsLesser(less, s, n, i, k); }
      else if k != i { assert Edge(less, s, k); }
    }
    forall k | 0 < k < n && Parent(k) == j
      ensures !less(t[k], t[Parent(j)])
    {
      assert Edge(less, s, k);
    }
  }

  /** Sifting down and then up at the same slot repairs every edge around it. */
  lemma DownUpRestores<K(!new)>(less: (K, K) -> bool, s: seq<K>, n: nat, i: nat)
    requires StrictWeakOrder(less)
    requires i < n <= |s| && BrokenAround(less, s, n, 0, i)
    ensures HeapFrom(less, Up(less, Down(less, s, i, n), i), n, 0)
  {
    var d := Down(less, s, i, n);
    if 2 * i + 1 < n && less(s[Child(less, s, i, n)], s[i]) {
      var j := Child(less, s, i, n);
      SwapWithChild(less, s, n, 0, i);
      DownRestores(less, Swap(s, i, j), n, 0, j);
      assert i > 0 ==> Edge(less, d, i);
    } else {
      forall k | 0 < k < n && k != i
        ensures Edge(less, s, k)
      {
        if Parent(k) == i { ChildIsLesser(less, s, n, i, k); }
      }
      UpRestores(less, s, n, i);
    }
  }

  // ---------- What each operation achieves ----------

  lemma {:induction false} RootIsLeast<K(!new)>(less: (K, K) -> bool, s: seq<K>, k: nat)
    requires StrictWeakOrder(less) && IsHeap(less, s) && k < |s|
    ensures !less(s[k], s[0])
  {
    if k > 0 {
      RootIsLeast(less, s, Parent(k));
      assert Edge(less, s, k) && Chains(less, s[k], s[Parent(k)], s[0]);
    }
  }

  lemma {:induction false} InitHeapifies<K(!new)>(less: (K, K) -> bool, s: seq<K>, i: nat)
    requires StrictWeakOrder(less) && HeapFrom(less, s, |s|, i)
    ensures IsHeap(less, InitFrom(less, s, i))
    decreases i
  {
    if i > 0 {
      DownRestores(less, s, |s|, i - 1, i - 1);
      InitHeapifies(less, Down(less, s, i - 1, |s|), i - 1);
    }
  }

  /** `Init` turns any slice into a heap with the same content. */
  lemma InitCorrect<K(!new)>(less: (K, K) -> bool, s: seq<K>)
    requires StrictWeakOrder(less)
    ensures IsHeap(less, Init(less, s))
    ensures multiset(Init(less, s)) == multiset(s)
  {
    InitHeapifies(less, s, |s| / 2);
    InitPermutes(less, s, |s| / 2);
  }

  lemma PushCorrect<K(!new)>(less: (K, K) -> bool, s: seq<K>, x: K)
    requires StrictWeakOrder(less) && IsHeap(less, s)
    ensures IsHeap(less, Push(less, s, x))
    ensures multiset(Push(less, s, x)) == multiset(s) + multiset{x}
  {
    var t := s + [x];
    forall k | 0 < k < |t| && k != |s|
      ensures Edge(less, t, k)
    {
      assert Edge(less, s, k);
    }
    UpRestores(less, t, |t|, |s|);
    UpPermutes(less, t, |s|);
  }

  /** `Pop` takes a least key and leaves a heap. */
  lemma PopCorrect<K(!new)>(less: (K, K) -> bool, s: seq<K>)
    requires StrictWeakOrder(less) && IsHeap(less, s) && s != []
    ensures IsHeap(less, Pop(less, s))
    ensures multiset(s) == multiset(Pop(less, s)) + multiset{s[0]}
    ensures forall y :: y in Pop(less, s) ==> !less(y, s[0])
  {
    PopKeepsHeap(less, s);
    forall y | y in Pop(less, s)
      ensures !less(y, s[0])
    {
      assert y in multiset(s);
      var k :| 0 <= k < |s| && s[k] == y;
      RootIsLeast(less, s, k);
    }
  }

  lemma PopKeepsHeap<K(!new)>(less: (K, K) -> bool, s: seq<K>)
    requires StrictWeakOrder(less) && IsHeap(less, s) && s != []
    ensures IsHeap(less, Pop(less, s))
    ensures multiset(s) == multiset(Pop(less, s)) + multiset{s[0]}
  {
    RemoveCorrect(less, s, 0);
    assert Pop(less, s) == Remove(less, s, 0);
  }

  lemma PrefixHeap<K>(less: (K, K) -> bool, t: seq<K>)
    requires t != [] && HeapFrom(less, t, |t| - 1, 0)
    ensures IsHeap(less, t[..|t| - 1])
  {
    var r := t[..|t| - 1];
    forall k | 0 < k < |r|
      ensures Edge(less, r, k)
    {
      assert Edge(less, t, k);
    }
  }

  /** `Remove` leaves a heap wherever the removed key was. */
  lemma RemoveCorrect<K(!new)>(less: (K, K) -> bool, s: seq<K>, i: nat)
    requires StrictWeakOrder(less) && IsHeap(less, s) && i < |s|
    ensures IsHeap(less, Remove(less, s, i))
    ensures multiset(s) == multiset(Remove(less, s, i)) + multiset{s[i]}
  {
    ToEndRestores(less, s, i);
    RemoveTakes(less, s, i);
    PrefixHeap(less, ToEnd(less, s, i));
  }

  lemma ToEndRestores<K(!new)>(less: (K, K) -> bool, s: seq<K>, i: nat)
    requires StrictWeakOrder(less) && IsHeap(less, s) && i < |s|
    ensures HeapFrom(less, ToEnd(less, s, i), |s| - 1, 0)
  {
    var n := |s| - 1;
    if n != i {
      SwapWithLast(less, s, i);
      DownUpRestores(less, Swap(s, i, n), n, i);
    } else {
      forall k | 0 < k < n
        ensures Edge(less, s, k)
      {
      }
    }
  }

  lemma SwapWithLast<K(!new)>(less: (K, K) -> bool, s: seq<K>, i: nat)
    requires StrictWeakOrder(less) && IsHeap(less, s) && i < |s| - 1
    ensures BrokenAround(less, Swap(s, i, |s| - 1), |s| - 1, 0, i)
  {
    var n := |s| - 1;
    var t := Swap(s, i, n);
    forall k | 0 < k < n && Parent(k) != i && k != i
      ensures Edge(less, t, k)
    {
      assert Edge(less, s, k);
    }
    forall k | 0 < k < n && Parent(k) == i && 0 < i
      ensures !less(t[k], t[Parent(i)])
    {
      assert Edge(less, s, k) && Edge(less, s, i);
      assert Chains(less, s[k], s[i], s[Parent(i)]);
    }
  }

  /** Repeated `Pop` yields the whole content, in order. */
  lemma {:induction false} DrainSorts<K(!new)>(less: (K, K) -> bool, s: seq<K>)
    requires StrictWeakOrder(less) && IsHeap(less, s)
    ensures multiset(Drain(less, s)) == multiset(s)
    ensures Sorted(less, Drain(less, s))
    decreases |s|
  {
    if s != [] {
      var rest := Pop(less, s);
      PopCorrect(less, s);
      DrainSorts(less, rest);
      PrependLeast(less, s[0], Drain(less, rest), rest);
    }
  }

  lemma PrependLeast<K>(less: (K, K) -> bool, x: K, d: seq<K>, rest: seq<K>)
    requires multiset(d) == multiset(rest) && Sorted(less, d)
    requires forall y :: y in rest ==> !less(y, x)
    ensures Sorted(less, [x] + d)
    ensures multiset([x] + d) == multiset(rest) + multiset{x}
  {
    forall j | 0 <= j < |d|
      ensures !less(d[j], x)
    {
      assert d[j] in multiset(d);
    }
  }
}
