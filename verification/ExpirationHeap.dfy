/** The binary heap of lease deadlines, with the sift loops of the library it uses written out. */
module ExpirationHeap {
  import opened Types

  function Parent(k: int): int { (k - 1) / 2 }

  ghost predicate OrderedAt(h: seq<Item>, k: int)
    requires 1 <= k < |h|
  {
    h[Parent(k)].at <= h[k].at
  }

  /** No item is due before its parent. */
  ghost predicate Ordered(h: seq<Item>) {
    forall k :: 1 <= k < |h| ==> OrderedAt(h, k)
  }

  /** The first `n` items skip over `j` in order: its parent is due before its children. */
  ghost predicate Bridged(h: seq<Item>, n: nat, j: int)
    requires n <= |h|
  {
    j >= 1 ==> forall k :: 1 <= k < n && Parent(k) == j ==> h[Parent(j)].at <= h[k].at
  }

  /** Only `j` may be due before its parent. */
  ghost predicate Rising(h: seq<Item>, j: nat) {
    && j < |h|
    && (forall k :: 1 <= k < |h| && k != j ==> OrderedAt(h, k))
    && Bridged(h, |h|, j)
  }

  /** Among the first `n`, only the children of `i` may be due before their parent. */
  ghost predicate Sinking(h: seq<Item>, n: nat, i: nat) {
    && n <= |h|
    && (forall k :: 1 <= k < n && Parent(k) != i ==> OrderedAt(h, k))
    && Bridged(h, n, i)
  }

  lemma {:induction false} RootIsLeast(h: seq<Item>, k: nat)
    requires Ordered(h) && k < |h|
    ensures h[0].at <= h[k].at
  {
    if k > 0 {
      assert OrderedAt(h, k);
      RootIsLeast(h, Parent(k));
    }
  }

  function Swapped(h: seq<Item>, i: nat, j: nat): (r: seq<Item>)
    requires i < |h| && j < |h|
    ensures |r| == |h| && multiset(r) == multiset(h)
  {
    h[i := h[j]][j := h[i]]
  }

  /** `j` is due no later than any child of `i`. */
  ghost predicate Leads(h: seq<Item>, n: nat, i: nat, j: nat)
    requires n <= |h| && j < n
  {
    forall k :: 1 <= k < n && Parent(k) == i ==> h[j].at <= h[k].at
  }

  lemma RiseStep(h: seq<Item>, j: nat)
    requires Rising(h, j) && j > 0 && h[j].at < h[Parent(j)].at
    ensures Rising(Swapped(h, Parent(j), j), Parent(j))
  {
    var i := Parent(j);
    var r := Swapped(h, i, j);
    forall k | 1 <= k < |h| && k != i ensures OrderedAt(r, k) {
      if k != j { assert OrderedAt(h, k); }
    }
    if i >= 1 {
      assert OrderedAt(h, i);
      forall k | 1 <= k < |h| && Parent(k) == i ensures r[Parent(i)].at <= r[k].at {
        if k != j { assert OrderedAt(h, k); }
      }
    }
  }

  lemma SinkStep(h: seq<Item>, n: nat, i: nat, j: nat)
    requires Sinking(h, n, i) && 1 <= j < n && Parent(j) == i && h[j].at < h[i].at
    requires Leads(h, n, i, j)
    ensures Sinking(Swapped(h, i, j), n, j) && Swapped(h, i, j)[n..] == h[n..]
  {
    var r := Swapped(h, i, j);
    forall k | 1 <= k < n && Parent(k) != j ensures OrderedAt(r, k) {
      if Parent(k) != i { assert OrderedAt(h, k); }
    }
    forall k | 1 <= k < n && Parent(k) == j ensures r[Parent(j)].at <= r[k].at {
      assert OrderedAt(h, k);
    }
  }

  lemma SinkDone(h: seq<Item>, n: nat, i: nat)
    requires Sinking(h, n, i) && (i < n ==> Leads(h, n, i, i))
    ensures Ordered(h[..n])
  {
    forall k | 1 <= k < n ensures OrderedAt(h[..n], k) {
      assert Parent(k) != i ==> OrderedAt(h, k);
    }
  }

  lemma ChildrenOf(h: seq<Item>, n: nat, i: nat, j: nat)
    requires n <= |h| && 2 * i + 1 < n
    requires 2 * i + 1 <= j <= 2 * i + 2 && j < n
    requires h[j].at <= h[2 * i + 1].at && (2 * i + 2 < n ==> h[j].at <= h[2 * i + 2].at)
    ensures Parent(j) == i && Leads(h, n, i, j)
  {
    assert forall k :: 1 <= k < n && Parent(k) == i ==> k == 2 * i + 1 || k == 2 * i + 2;
  }

  class Heap {
    var items: seq<Item>

    ghost predicate Valid() reads this { Ordered(items) }

    constructor ()
      ensures Valid() && items == []
    {
      items := [];
    }

    method SiftUp(start: nat)
      requires Rising(items, start)
      modifies this
      ensures Valid() && multiset(items) == multiset(old(items))
    {
      var j: nat := start;
      while j > 0
        invariant Rising(items, j) && multiset(items) == multiset(old(items))
      {
        var i := Parent(j);
        if !(items[j].at < items[i].at) {
          break;
        }
        RiseStep(items, j);
        items := Swapped(items, i, j);
        j := i;
      }
    }

    /** Restores order in `items[..n]`, broken at most between the root and its children. */
    method SiftDown(n: nat)
      requires Sinking(items, n, 0)
      modifies this
      ensures |items| == |old(items)| && Ordered(items[..n]) && items[n..] == old(items)[n..]
      ensures multiset(items) == multiset(old(items))
    {
      var i: nat := 0;
      while 2 * i + 1 < n
        invariant Sinking(items, n, i)
        invariant |items| == |old(items)| && multiset(items) == multiset(old(items))
        invariant items[n..] == old(items)[n..]
        decreases n - i
      {
        var j := 2 * i + 1;
        if j + 1 < n && items[j + 1].at < items[j].at {
          j := j + 1;
        }
        ChildrenOf(items, n, i, j);
        if !(items[j].at < items[i].at) {
          SinkDone(items, n, i);
          return;
        }
        SinkStep(items, n, i, j);
        items := Swapped(items, i, j);
        i := j;
      }
      SinkDone(items, n, i);
    }

    method Push(x: Item)
      requires Valid()
      modifies this
      ensures Valid() && multiset(items) == multiset(old(items)) + multiset{x}
    {
      items := items + [x];
      forall k | 1 <= k < |items| && k != |items| - 1 ensures OrderedAt(items, k) {
        assert OrderedAt(old(items), k);
      }
      SiftUp(|items| - 1);
    }

    method Peek() returns (r: Option<Item>)
      requires Valid()
      ensures r.None? <==> items == []
      ensures r.Some? ==> items != [] && r.value == items[0] && forall i :: i in items ==> r.value.at <= i.at
    {
      if items == [] {
        return None;
      }
      forall i | i in items ensures items[0].at <= i.at {
        var k :| 0 <= k < |items| && items[k] == i;
        RootIsLeast(items, k);
      }
      return Some(items[0]);
    }

    method Pop() returns (x: Item)
      requires Valid() && items != []
      modifies this
      ensures Valid() && x == old(items)[0]
      ensures multiset(items) == multiset(old(items)) - multiset{x} && |items| == |old(items)| - 1
    {
      var n := |items| - 1;
      items := Swapped(items, 0, n);
      assert items[n] == old(items)[0];
      forall k | 1 <= k < n && Parent(k) != 0 ensures OrderedAt(items, k) {
        assert OrderedAt(old(items), k);
      }
      SiftDown(n);
      assert items[n] == items[n..][0];
      x := items[n];
      assert items == items[..n] + [x];
      items := items[..n];
    }
  }
}
