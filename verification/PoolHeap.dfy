/** The binary max-heap of pool entries: the order by gas price, and the container/heap
    algorithms run over a slice of shared entries that know their own position. */
module PoolHeap {

  datatype Tx = Tx(hash: string, from: string, nonce: nat, gasPrice: int)

  class Entry {
    const tx: Tx
    const addedAt: int
    var heapIndex: int

    constructor (tx: Tx, addedAt: int)
      ensures this.tx == tx && this.addedAt == addedAt
    {
      this.tx, this.addedAt, heapIndex := tx, addedAt, 0;
    }
  }

  // ---------- Heap order ----------

  function Parent(k: int): int {
    (k - 1) / 2
  }

  /** Entry k does not outrank its parent. */
  predicate Edge(s: seq<Entry>, k: int)
    requires 1 <= k < |s|
  {
    s[k].tx.gasPrice <= s[Parent(k)].tx.gasPrice
  }

  ghost predicate Ordered(s: seq<Entry>, n: nat)
    requires n <= |s|
  {
    forall k | 1 <= k < n :: Edge(s, k)
  }

  /** Ordered up to n except on the edges that touch x. */
  ghost predicate OrderedAround(s: seq<Entry>, n: nat, x: int)
    requires n <= |s|
  {
    forall k | 1 <= k < n && k != x && Parent(k) != x :: Edge(s, k)
  }

  /** The children of x do not outrank the parent of x. */
  ghost predicate Bridged(s: seq<Entry>, n: nat, x: int)
    requires n <= |s|
  {
    forall k | 1 <= k < n && Parent(k) == x && 1 <= x :: s[k].tx.gasPrice <= s[Parent(x)].tx.gasPrice
  }

  ghost predicate Distinct(s: seq<Entry>) {
    forall i, j | 0 <= i < j < |s| :: s[i] != s[j]
  }

  ghost predicate SameEntries(a: seq<Entry>, b: seq<Entry>) {
    |a| == |b| && (forall e | e in a :: e in b) && (forall e | e in b :: e in a)
  }

  ghost predicate Minus(now: seq<Entry>, before: seq<Entry>, e: Entry) {
    && e in before && |now| == |before| - 1
    && (forall x | x in now :: x in before && x != e)
    && (forall x | x in before && x != e :: x in now)
  }

  ghost predicate Plus(now: seq<Entry>, before: seq<Entry>, e: Entry) {
    && e !in before && e in now && |now| == |before| + 1
    && (forall x | x in now :: x in before || x == e)
    && (forall x | x in before :: x in now)
  }

  /** The root of a heap carries a highest gas price. */
  lemma {:induction false} RootIsHighest(s: seq<Entry>, k: nat)
    requires Ordered(s, |s|) && k < |s|
    ensures s[k].tx.gasPrice <= s[0].tx.gasPrice
  {
    if k == 0 {
    } else {
      assert Edge(s, k);
      RootIsHighest(s, Parent(k));
    }
  }

  function Swapped(s: seq<Entry>, i: nat, j: nat): (r: seq<Entry>)
    requires i < |s| && j < |s|
    ensures |r| == |s|
  {
    s[i := s[j]][j := s[i]]
  }

  lemma SwappedKeepsEntries(s: seq<Entry>, i: nat, j: nat)
    requires i < |s| && j < |s|
    ensures SameEntries(Swapped(s, i, j), s)
    ensures Distinct(s) ==> Distinct(Swapped(s, i, j))
  {
    var r := Swapped(s, i, j);
    forall e | e in s
      ensures e in r
    {
      var k :| 0 <= k < |s| && s[k] == e;
      assert r[if k == i then j else if k == j then i else k] == e;
    }
  }

  /** Swapping a violating x with its parent moves the violation up. */
  lemma SwapUp(s: seq<Entry>, n: nat, x: int)
    requires 1 <= x < n <= |s|
    requires forall k | 1 <= k < n && k != x :: Edge(s, k)
    requires Bridged(s, n, x) && !Edge(s, x)
    ensures var r := Swapped(s, Parent(x), x);
      && (forall k | 1 <= k < n && k != Parent(x) :: Edge(r, k))
      && Bridged(r, n, Parent(x))
  {
    var p := Parent(x);
    var r := Swapped(s, p, x);
    forall k | 1 <= k < n && k != p
      ensures Edge(r, k)
    {
      if k != x {
        assert Edge(s, k);
      }
    }
    forall k | 1 <= k < n && Parent(k) == p && 1 <= p
      ensures r[k].tx.gasPrice <= r[Parent(p)].tx.gasPrice
    {
      assert Edge(s, p);
      assert k != x ==> Edge(s, k);
    }
  }

  /** Swapping x with its higher child moves the violation down. */
  lemma SwapDown(s: seq<Entry>, n: nat, x: int, c: int)
    requires 0 <= x && 2 * x + 1 <= c <= 2 * x + 2 && c < n <= |s|
    requires s[2 * x + 1].tx.gasPrice <= s[c].tx.gasPrice
    requires 2 * x + 2 < n ==> s[2 * x + 2].tx.gasPrice <= s[c].tx.gasPrice
    requires OrderedAround(s, n, x) && Bridged(s, n, x) && !Edge(s, c)
    ensures var r := Swapped(s, x, c);
      && OrderedAround(r, n, c) && Bridged(r, n, c)
      && Edge(r, c) && (1 <= x ==> Edge(r, x))
  {
    var r := Swapped(s, x, c);
    forall k | 1 <= k < n && k != c && Parent(k) != c
      ensures Edge(r, k)
    {
      if k != x && Parent(k) != x {
        assert Edge(s, k);
      }
    }
    forall k | 1 <= k < n && Parent(k) == c && 1 <= c
      ensures r[k].tx.gasPrice <= r[Parent(c)].tx.gasPrice
    {
      assert Edge(s, k);
    }
  }

  /** When x outranks its children only the edge above x can be wrong. */
  lemma SettledAt(s: seq<Entry>, n: nat, x: int)
    requires 0 <= x && n <= |s| && OrderedAround(s, n, x)
    requires 2 * x + 1 < n ==> Edge(s, 2 * x + 1)
    requires 2 * x + 2 < n ==> Edge(s, 2 * x + 2)
    ensures forall k | 1 <= k < n && k != x :: Edge(s, k)
  {
    forall k | 1 <= k < n && k != x
      ensures Edge(s, k)
    {
      assert Parent(k) == x ==> k == 2 * x + 1 || k == 2 * x + 2;
    }
  }

  /** Moving the last entry to position i leaves a violation around i only. */
  lemma LastMovedTo(s: seq<Entry>, i: nat)
    requires i < |s| && Ordered(s, |s|)
    ensures var r := Swapped(s, i, |s| - 1);
      OrderedAround(r, |s| - 1, i) && Bridged(r, |s| - 1, i)
  {
    var r := Swapped(s, i, |s| - 1);
    forall k | 1 <= k < |s| - 1 && k != i && Parent(k) != i
      ensures Edge(r, k)
    {
      assert Edge(s, k);
    }
    forall k | 1 <= k < |s| - 1 && Parent(k) == i && 1 <= i
      ensures r[k].tx.gasPrice <= r[Parent(i)].tx.gasPrice
    {
      assert Edge(s, k) && Edge(s, i);
    }
  }

  lemma OrderedPrefix(s: seq<Entry>, n: nat)
    requires n <= |s| && Ordered(s, n)
    ensures Ordered(s[..n], n)
  {
    forall k | 1 <= k < n
      ensures Edge(s[..n], k)
    {
      assert Edge(s, k);
    }
  }

  lemma OrderedExtended(s: seq<Entry>, e: Entry)
    requires Ordered(s, |s|)
    ensures forall k | 1 <= k < |s| :: Edge(s + [e], k)
  {
    forall k | 1 <= k < |s|
      ensures Edge(s + [e], k)
    {
      assert Edge(s, k);
    }
  }

  // ---------- The heap in place ----------

  class TxHeap {
    var items: seq<Entry>

    constructor (items: seq<Entry>)
      ensures this.items == items
    {
      this.items := items;
    }

    /** Every entry's heapIndex is its position. */
    ghost predicate Backed()
      reads this, items
    {
      forall k | 0 <= k < |items| :: items[k].heapIndex == k
    }

    lemma TopIsHighest()
      requires Ordered(items, |items|)
      ensures forall x | x in items :: x.tx.gasPrice <= items[0].tx.gasPrice
    {
      forall x | x in items
        ensures x.tx.gasPrice <= items[0].tx.gasPrice
      {
        var k :| 0 <= k < |items| && items[k] == x;
        RootIsHighest(items, k);
      }
    }

    predicate Less(i: nat, j: nat)
      requires i < |items| && j < |items|
      reads this
    {
      items[i].tx.gasPrice > items[j].tx.gasPrice
    }

    method Swap(i: nat, j: nat)
      requires i < |items| && j < |items| && Distinct(items)
      modifies this, items[i], items[j]
      ensures items == Swapped(old(items), i, j)
      ensures old(Backed()) ==> Backed()
      ensures Distinct(items) && SameEntries(items, old(items))
    {
      SwappedKeepsEntries(items, i, j);
      items := items[i := items[j]][j := items[i]];
      items[i].heapIndex := i;
      items[j].heapIndex := j;
    }

    /** Sifts entry j towards the root of the first n positions. */
    method Up(j: nat, ghost n: nat)
      requires j < n <= |items| && Distinct(items)
      requires forall k | 1 <= k < n && k != j :: Edge(items, k)
      requires Bridged(items, n, j)
      modifies this, items
      ensures |items| == old(|items|) && Ordered(items, n)
      ensures items[n..] == old(items[n..])
      ensures old(Backed()) ==> Backed()
      ensures Distinct(items) && SameEntries(items, old(items))
    {
      var x := j;
      while x > 0
        invariant 0 <= x < n <= |items| == old(|items|)
        invariant forall k | 1 <= k < n && k != x :: Edge(items, k)
        invariant Bridged(items, n, x)
        invariant items[n..] == old(items[n..])
        invariant old(Backed()) ==> Backed()
        invariant Distinct(items) && SameEntries(items, old(items))
      {
        var i := (x - 1) / 2;
        if !Less(x, i) {
          break;
        }
        SwapUp(items, n, x);
        ghost var before := items;
        assert items[i] in items && items[x] in items;
        Swap(i, x);
        assert items[n..] == before[n..];
        x := i;
      }
    }

    function HigherChild(x: nat, n: nat): (c: nat)
      requires 2 * x + 1 < n <= |items|
      reads this
      ensures 2 * x + 1 <= c <= 2 * x + 2 && c < n
      ensures items[2 * x + 1].tx.gasPrice <= items[c].tx.gasPrice
      ensures 2 * x + 2 < n ==> items[2 * x + 2].tx.gasPrice <= items[c].tx.gasPrice
    {
      if 2 * x + 2 < n && Less(2 * x + 2, 2 * x + 1) then 2 * x + 2 else 2 * x + 1
    }

    /** Swaps x with a child that outranks it. */
    method SinkStep(x: nat, c: nat, ghost n: nat)
      requires c < n <= |items| && 2 * x + 1 < n && c == HigherChild(x, n) && Distinct(items)
      requires OrderedAround(items, n, x) && Bridged(items, n, x) && !Edge(items, c)
      modifies this, items[x], items[c]
      ensures |items| == old(|items|)
      ensures OrderedAround(items, n, c) && Bridged(items, n, c) && Edge(items, c)
      ensures items[n..] == old(items[n..])
      ensures old(Backed()) ==> Backed()
      ensures Distinct(items) && SameEntries(items, old(items))
    {
      SwapDown(items, n, x, c);
      Swap(x, c);
    }

    /** Sifts entry i0 towards the leaves of the first n positions; true if it moved. */
    method Down(i0: nat, n: nat) returns (moved: bool)
      requires i0 < |items| && n <= |items| && Distinct(items)
      requires OrderedAround(items, n, i0) && Bridged(items, n, i0)
      modifies this, items
      ensures |items| == old(|items|) && items[n..] == old(items[n..])
      ensures moved ==> Ordered(items, n)
      ensures !moved ==> items == old(items) && forall k | 1 <= k < n && k != i0 :: Edge(items, k)
      ensures old(Backed()) ==> Backed()
      ensures Distinct(items) && SameEntries(items, old(items))
    {
      var x := i0;
      while true
        invariant i0 <= x < |items| == old(|items|)
        invariant OrderedAround(items, n, x) && Bridged(items, n, x)
        invariant if x == i0 then items == old(items) else x < n && Edge(items, x)
        invariant items[n..] == old(items[n..])
        invariant old(Backed()) ==> Backed()
        invariant Distinct(items) && SameEntries(items, old(items))
        decreases |items| - x
      {
        var left := 2 * x + 1;
        if left >= n {
          break;
        }
        var c := HigherChild(x, n);
        if !Less(c, x) {
          break;
        }
        assert items[x] in items && items[c] in items;
        SinkStep(x, c, n);
        x := c;
      }
      SettledAt(items, n, x);
      moved := x > i0;
    }

    /** Moves entry i down, or up when it cannot go down. */
    method Resift(i: nat, n: nat)
      requires i < n <= |items| && Distinct(items)
      requires OrderedAround(items, n, i) && Bridged(items, n, i)
      modifies this, items
      ensures |items| == old(|items|) && Ordered(items, n) && items[n..] == old(items[n..])
      ensures old(Backed()) ==> Backed()
      ensures Distinct(items) && SameEntries(items, old(items))
    {
      var moved := Down(i, n);
      if !moved {
        Up(i, n);
      }
    }

    method Push(e: Entry)
      requires Distinct(items) && Ordered(items, |items|) && e !in items
      modifies this, items, e
      ensures Distinct(items) && Ordered(items, |items|)
      ensures Plus(items, old(items), e)
      ensures old(Backed()) ==> Backed()
    {
      OrderedExtended(items, e);
      e.heapIndex := |items|;
      items := items + [e];
      Up(|items| - 1, |items|);
    }

    /** Cuts off the last position. */
    method DropLast() returns (e: Entry)
      requires |items| > 0 && Distinct(items)
      modifies this, items[|items| - 1]
      ensures e == old(items)[|old(items)| - 1] && items == old(items)[..|old(items)| - 1]
      ensures Distinct(items) && Minus(items, old(items), e)
      ensures e.heapIndex == -1
      ensures old(Backed()) ==> Backed()
    {
      e := items[|items| - 1];
      assert items == items[..|items| - 1] + [e];
      items := items[..|items| - 1];
      e.heapIndex := -1;
    }

    method Pop() returns (e: Entry)
      requires |items| > 0 && Distinct(items) && Ordered(items, |items|)
      modifies this, items
      ensures e == old(items)[0] && e.heapIndex == -1
      ensures Distinct(items) && Ordered(items, |items|)
      ensures Minus(items, old(items), e)
      ensures old(Backed()) ==> Backed()
    {
      var n := |items| - 1;
      LastMovedTo(items, 0);
      Swap(0, n);
      var moved := Down(0, n);
      assert items[n..][0] == old(items)[0];
      OrderedPrefix(items, n);
      e := DropLast();
    }

    method Remove(i: nat) returns (e: Entry)
      requires i < |items| && Distinct(items) && Ordered(items, |items|)
      modifies this, items
      ensures e == old(items)[i] && e.heapIndex == -1
      ensures Distinct(items) && Ordered(items, |items|)
      ensures Minus(items, old(items), e)
      ensures old(Backed()) ==> Backed()
    {
      var n := |items| - 1;
      if n != i {
        LastMovedTo(items, i);
        Swap(i, n);
        Resift(i, n);
        assert items[n..][0] == old(items)[i];
      }
      OrderedPrefix(items, n);
      e := DropLast();
    }
  }
}
