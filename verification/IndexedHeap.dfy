/**
 * The slice-backed priority queue that both the task queue and the health-check queue drive
 * through `container/heap`: every element carries a time stamp and remembers its own index,
 * and every operation works in place on the slice.
 */
module IndexedHeap {
  import H = HeapSpec

  /** What the comparison of a queue may look at. */
  datatype Key<P> = Key(load: P, stamp: int)

  /** A queue element: a pointer in the source, so two elements with equal keys stay apart. */
  class Entry<P> {
    const load: P
    /** `Since` of a scheduled app, `ExpiresAt` of a health check. */
    var stamp: int
    /** `Position` of a scheduled app, `index` of a health check. */
    var index: int

    constructor (load: P, stamp: int)
      ensures this.load == load && this.stamp == stamp
    {
      this.load := load;
      this.stamp := stamp;
      index := -1;
    }

    function AsKey(): Key<P>
      reads this`stamp
    {
      Key(load, stamp)
    }
  }

  /** The keys of a slice, in slice order. */
  function KeysOf<P>(es: seq<Entry<P>>): (ks: seq<Key<P>>)
    reads es
    ensures |ks| == |es|
    ensures forall i :: 0 <= i < |es| ==> ks[i] == es[i].AsKey()
  {
    seq(|es|, i requires 0 <= i < |es| reads es => es[i].AsKey())
  }

  class PriorityQueue<P> {
    var items: seq<Entry<P>>
    const less: (Key<P>, Key<P>) -> bool

    /** Every element knows where it is; in particular no element occurs twice. */
    ghost predicate Indexed()
      reads this, items
    {
      forall i :: 0 <= i < |items| ==> items[i].index == i
    }

    ghost function Members(): set<Entry<P>>
      reads this
    {
      set e | e in items
    }

    function Keys(): (ks: seq<Key<P>>)
      reads this, items
      ensures |ks| == |items|
    {
      KeysOf(items)
    }

    constructor (less: (Key<P>, Key<P>) -> bool)
      ensures items == [] && this.less == less && Indexed()
    {
      items := [];
      this.less := less;
    }

    method Swap(i: nat, j: nat)
      requires i < |items| && j < |items| && Indexed()
      modifies this`items, Members()`index
      ensures Indexed() && |items| == |old(items)|
      ensures items == old(items[i := items[j]][j := items[i]]) && Members() == old(Members())
      ensures Keys() == H.Swap(old(Keys()), i, j)
    {
      items := items[i := items[j]][j := items[i]];
      SwapMembers(old(items), i, j);
      items[i].index := i;
      items[j].index := j;
    }

    predicate Less(i: nat, j: nat)
      requires i < |items| && j < |items|
      reads this, items
    {
      less(items[i].AsKey(), items[j].AsKey())
    }

    /** `heap.up` */
    method Up(start: nat)
      requires start < |items| && Indexed()
      modifies this`items, Members()`index
      ensures Indexed() && Members() == old(Members())
      ensures |items| == |old(items)| && forall k :: start < k < |items| ==> items[k] == old(items)[k]
      ensures Keys() == H.Up(less, old(Keys()), start)
    {
      var j: nat := start;
      while true
        invariant j <= start && Indexed() && Members() == old(Members())
        invariant |items| == |old(items)| && forall k :: start < k < |items| ==> items[k] == old(items)[k]
        invariant H.Up(less, Keys(), j) == H.Up(less, old(Keys()), start)
        decreases j
      {
        var i := TruncatedHalf(j - 1);
        if i == j || !Less(j, i) {
          break;
        }
        Swap(i, j);
        j := i;
      }
    }

    /** `heap.down` */
    method Down(start: nat, n: nat)
      requires n <= |items| && Indexed()
      modifies this`items, Members()`index
      ensures Indexed() && Members() == old(Members())
      ensures |items| == |old(items)| && forall k :: n <= k < |items| ==> items[k] == old(items)[k]
      ensures Keys() == H.Down(less, old(Keys()), start, n)
    {
      hide H.Down, Members, Indexed;
      var i: nat := start;
      while true
        invariant Indexed() && Members() == old(Members())
        invariant |items| == |old(items)| && forall k :: n <= k < |items| ==> items[k] == old(items)[k]
        invariant H.Down(less, Keys(), i, n) == H.Down(less, old(Keys()), start, n)
        decreases n - i
      {
        var j := DownStep(i, n);
        if j == i {
          break;
        }
        i := j;
      }
    }

    /** One round of `down`: swaps with the chosen child, or stays (`j == i`) when order holds. */
    method DownStep(i: nat, n: nat) returns (j: nat)
      requires n <= |items| && Indexed()
      modifies this`items, Members()`index
      ensures Indexed() && Members() == old(Members())
      ensures |items| == |old(items)| && forall k :: n <= k < |items| ==> items[k] == old(items)[k]
      ensures j == i ==> items == old(items) && Keys() == H.Down(less, old(Keys()), i, n)
      ensures j != i ==> i < j < n && H.Down(less, Keys(), j, n) == H.Down(less, old(Keys()), i, n)
    {
      hide H.Down, H.Swap, H.Child, Members, Indexed;
      H.DownUnfolds(less, Keys(), i, n);
      var j1 := 2 * i + 1;
      if j1 >= n {
        return i;
      }
      j := LesserChild(i, n);
      if !Less(j, i) {
        return i;
      }
      Swap(i, j);
    }

    /** The child `down` compares with. */
    method LesserChild(i: nat, n: nat) returns (j: nat)
      requires n <= |items| && 2 * i + 1 < n
      ensures j == H.Child(less, Keys(), i, n)
    {
      var j1 := 2 * i + 1;
      j := j1;
      if j1 + 1 < n && !Less(j1, j1 + 1) {
        j := j1 + 1;
      }
    }

    /** `heap.Init` */
    method Init()
      requires Indexed()
      modifies this`items, Members()`index
      ensures Indexed() && Members() == old(Members())
      ensures Keys() == H.Init(less, old(Keys()))
    {
      hide H.Down, Members, Indexed;
      var i: nat := |items| / 2;
      while i > 0
        invariant Indexed() && Members() == old(Members())
        invariant H.InitFrom(less, Keys(), i) == H.Init(less, old(Keys()))
      {
        i := i - 1;
        Down(i, |items|);
      }
    }

    /** `heap.Push`: the queue's own Push records the index and appends. */
    method Push(e: Entry<P>)
      requires Indexed() && e !in items
      modifies this`items, Members()`index, e`index
      ensures Indexed() && Members() == old(Members()) + {e}
      ensures Keys() == H.Push(less, old(Keys()), e.AsKey())
    {
      e.index := |items|;
      items := items + [e];
      assert Keys() == old(Keys()) + [e.AsKey()];
      Up(|items| - 1);
    }

    /** The queue's own Pop: cuts off the last element and resets its index. */
    method CutLast() returns (e: Entry<P>)
      requires Indexed() && items != []
      modifies this`items, Members()`index
      ensures Indexed() && e == old(items[|items| - 1]) && e.index == -1
      ensures Members() == old(Members()) - {e} && Keys() == old(Keys()[..|items| - 1])
    {
      var n := |items|;
      e := items[n - 1];
      e.index := -1;
      items := items[..n - 1];
      assert old(items) == items + [e];
    }

    /** `heap.Pop` on a non-empty queue. */
    method Pop() returns (e: Entry<P>)
      requires Indexed() && items != []
      modifies this`items, Members()`index
      ensures Indexed() && e == old(items[0]) && e.index == -1
      ensures Members() == old(Members()) - {e}
      ensures Keys() == H.Pop(less, old(Keys()))
    {
      var n := |items| - 1;
      Swap(0, n);
      Down(0, n);
      e := CutLast();
    }

    /** Moves a misplaced element of the first `n` down, and then up if it stayed. */
    method Fix(i: nat, n: nat)
      requires i < n <= |items| && Indexed()
      modifies this`items, Members()`index
      ensures Indexed() && Members() == old(Members())
      ensures |items| == |old(items)| && forall k :: n <= k < |items| ==> items[k] == old(items)[k]
      ensures Keys() == H.Up(less, H.Down(less, old(Keys()), i, n), i)
    {
      hide H.Up, H.Down, Members, Indexed;
      Down(i, n);
      Up(i);
    }

    /** The part of `heap.Remove` before the cut: brings the element to the end and repairs the others. */
    method MoveToEnd(i: nat)
      requires Indexed() && i < |items|
      modifies this`items, Members()`index
      ensures Indexed() && Members() == old(Members())
      ensures |items| == |old(items)| && items[|items| - 1] == old(items[i])
      ensures Keys() == H.ToEnd(less, old(Keys()), i)
    {
      hide H.Up, H.Down, H.Swap, Members, Indexed;
      var n := |items| - 1;
      if n != i {
        Swap(i, n);
        Fix(i, n);
      }
    }

    /** `heap.Remove` */
    method Remove(i: nat) returns (e: Entry<P>)
      requires Indexed() && i < |items|
      modifies this`items, Members()`index
      ensures Indexed() && e == old(items[i]) && e.index == -1
      ensures Members() == old(Members()) - {e}
      ensures Keys() == H.Remove(less, old(Keys()), i)
    {
      hide H.ToEnd;
      MoveToEnd(i);
      e := CutLast();
    }
  }

  lemma SwapMembers<T>(s: seq<T>, i: nat, j: nat)
    requires i < |s| && j < |s|
    ensures var t := s[i := s[j]][j := s[i]]; (set x | x in t) == set x | x in s
  {
    var t := s[i := s[j]][j := s[i]];
    forall x | x in s
      ensures x in t
    {
      var k :| 0 <= k < |s| && s[k] == x;
      assert t[if k == i then j else if k == j then i else k] == x;
    }
  }

  /** Go's integer division truncates towards zero. */
  function TruncatedHalf(x: int): (h: int)
    ensures x >= 0 ==> h == x / 2
    ensures x == -1 ==> h == 0
  {
    if x < 0 then -(-x / 2) else x / 2
  }
}
