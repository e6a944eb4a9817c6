/** The priority transaction pool: a heap by gas price, an index by hash and a nonce-sorted
    list per sender, all over the same entries. */
module Mempool {
  import opened PoolHeap

  datatype AddResult = Added | AlreadyKnown | NonceTooLow | TooManyQueued | PoolFull

  /** Panicked: the entry's heapIndex was no position of the heap. */
  datatype RemoveResult = Unknown | Removed | Panicked

  /** Ten minutes, in nanoseconds, and the other limits a pool is made with. */
  const DEFAULT_TTL: int := 10 * 60 * 1_000_000_000
  const DEFAULT_MAX_SIZE: nat := 4096
  const DEFAULT_MAX_PER_ADDR: nat := 64

  // ---------- What the three structures say about one pool ----------

  ghost predicate NonceSorted(s: seq<Entry>) {
    forall i, j | 0 <= i < j < |s| :: s[i].tx.nonce <= s[j].tx.nonce
  }

  ghost predicate HeapOk(items: seq<Entry>, maxSize: nat) {
    Distinct(items) && Ordered(items, |items|) && |items| <= maxSize
  }

  /** The index maps exactly the hashes of the pooled entries, each to its entry. */
  ghost predicate IndexOk(items: seq<Entry>, index: map<string, Entry>) {
    && (forall h | h in index :: index[h] in items && index[h].tx.hash == h)
    && (forall e | e in items :: e.tx.hash in index && index[e.tx.hash] == e)
  }

  ghost predicate ListOk(list: seq<Entry>, from: string, maxPerAddr: nat) {
    && 1 <= |list| <= maxPerAddr
    && NonceSorted(list) && Distinct(list)
    && forall e | e in list :: e.tx.from == from
  }

  /** Each sender's list holds all its pooled entries, and nothing else unless the sender is
      tainted. */
  ghost predicate SendersOk(items: seq<Entry>, bySender: map<string, seq<Entry>>, tainted: set<string>,
          maxPerAddr: nat) {
    && (forall a | a in bySender :: ListOk(bySender[a], a, maxPerAddr))
    && (forall e | e in items :: e.tx.from in bySender && e in bySender[e.tx.from])
    && (forall a | a in bySender && a !in tainted :: forall e | e in bySender[a] :: e in items)
  }

  /** The entries of a list with another hash, in order. */
  function Filtered(list: seq<Entry>, hash: string): (r: seq<Entry>)
    ensures |r| <= |list|
  {
    if list == [] then []
    else
      var init := Filtered(list[..|list| - 1], hash);
      var last := list[|list| - 1];
      if last.tx.hash != hash then init + [last] else init
  }

  lemma {:induction false} FilteredMembers(list: seq<Entry>, hash: string)
    ensures forall e | e in Filtered(list, hash) :: e in list && e.tx.hash != hash
    ensures forall e | e in list && e.tx.hash != hash :: e in Filtered(list, hash)
  {
    if list == [] {
    } else {
      var n := |list| - 1;
      FilteredMembers(list[..n], hash);
      assert list == list[..n] + [list[n]];
    }
  }

  lemma AppendedShape(init: seq<Entry>, last: Entry)
    requires NonceSorted(init) && Distinct(init)
    requires forall k | 0 <= k < |init| :: init[k] != last && init[k].tx.nonce <= last.tx.nonce
    ensures NonceSorted(init + [last]) && Distinct(init + [last])
  {
  }

  lemma {:induction false} FilteredShape(list: seq<Entry>, hash: string)
    requires NonceSorted(list) && Distinct(list)
    ensures NonceSorted(Filtered(list, hash)) && Distinct(Filtered(list, hash))
  {
    if list == [] {
    } else {
      var n := |list| - 1;
      FilteredShape(list[..n], hash);
      FilteredMembers(list[..n], hash);
      var init := Filtered(list[..n], hash);
      if list[n].tx.hash != hash {
        forall k | 0 <= k < |init|
          ensures init[k] != list[n] && init[k].tx.nonce <= list[n].tx.nonce
        {
          assert init[k] in list[..n];
        }
        AppendedShape(init, list[n]);
      }
    }
  }

  function ListOf(bySender: map<string, seq<Entry>>, from: string): seq<Entry> {
    if from in bySender then bySender[from] else []
  }

  function WithoutTx(bySender: map<string, seq<Entry>>, tx: Tx): map<string, seq<Entry>> {
    var updated := Filtered(ListOf(bySender, tx.from), tx.hash);
    if updated == [] then bySender - {tx.from} else bySender[tx.from := updated]
  }

  /** Taking one entry out of all three structures keeps them consistent. */
  lemma EvictSound(items: seq<Entry>, items': seq<Entry>, index: map<string, Entry>,
                   bySender: map<string, seq<Entry>>, tainted: set<string>, maxPerAddr: nat, e: Entry)
    requires IndexOk(items, index) && SendersOk(items, bySender, tainted, maxPerAddr)
    requires Minus(items', items, e)
    ensures IndexOk(items', index - {e.tx.hash})
    ensures SendersOk(items', WithoutTx(bySender, e.tx), tainted, maxPerAddr)
  {
    FilteredMembers(ListOf(bySender, e.tx.from), e.tx.hash);
    FilteredShape(ListOf(bySender, e.tx.from), e.tx.hash);
  }

  ghost predicate InsertedAt(list': seq<Entry>, list: seq<Entry>, e: Entry, at: nat) {
    && at <= |list| && list' == list[..at] + [e] + list[at..]
    && (forall k | 0 <= k < at :: list[k].tx.nonce <= e.tx.nonce)
    && (at < |list| ==> e.tx.nonce < list[at].tx.nonce)
  }

  lemma InsertedMembers(list': seq<Entry>, list: seq<Entry>, e: Entry, at: nat)
    requires InsertedAt(list', list, e, at)
    ensures e in list' && (forall x | x in list :: x in list') && (forall x | x in list' :: x in list || x == e)
  {
    forall x | x in list
      ensures x in list'
    {
      var k :| 0 <= k < |list| && list[k] == x;
      assert list'[if k < at then k else k + 1] == x;
    }
    assert list'[at] == e;
  }

  lemma InsertedShape(list': seq<Entry>, list: seq<Entry>, e: Entry, at: nat)
    requires InsertedAt(list', list, e, at)
    requires NonceSorted(list) && Distinct(list) && e !in list
    ensures NonceSorted(list') && Distinct(list')
  {
    forall i, j | 0 <= i < j < |list'|
      ensures list'[i].tx.nonce <= list'[j].tx.nonce && list'[i] != list'[j]
    {
      assert i < at ==> list'[i] == list[i];
      assert i > at ==> list'[i] == list[i - 1];
      assert j < at ==> list'[j] == list[j];
      assert j > at ==> list'[j] == list[j - 1];
    }
  }

  /** A list read earlier still covers the sender's current list, and for an untainted sender
      it names pooled entries only. */
  ghost predicate StaleOk(stale: seq<Entry>, current: seq<Entry>, from: string, items: seq<Entry>,
                          tainted: set<string>, maxPerAddr: nat) {
    && (stale == [] || ListOk(stale, from, maxPerAddr))
    && (forall x | x in current :: x in stale)
    && (from !in tainted ==> forall x | x in stale :: x in items)
  }

  /** Adding one entry to all three structures keeps them consistent. */
  lemma InsertSound(items: seq<Entry>, items': seq<Entry>, index: map<string, Entry>,
                    bySender: map<string, seq<Entry>>, list: seq<Entry>, list': seq<Entry>, at: nat,
                    tainted: set<string>, maxPerAddr: nat, e: Entry)
    requires IndexOk(items, index) && SendersOk(items, bySender, tainted, maxPerAddr)
    requires Plus(items', items, e) && e.tx.hash !in index
    requires StaleOk(list, ListOf(bySender, e.tx.from), e.tx.from, items, tainted, maxPerAddr)
    requires InsertedAt(list', list, e, at) && e !in list && |list| < maxPerAddr
    ensures IndexOk(items', index[e.tx.hash := e])
    ensures SendersOk(items', bySender[e.tx.from := list'], tainted, maxPerAddr)
  {
    InsertedMembers(list', list, e, at);
    InsertedShape(list', list, e, at);
  }

  function PooledBy(items: seq<Entry>, from: string): set<Entry> {
    set e | e in items && e.tx.from == from
  }

  lemma {:induction false} SubsetSize<T>(a: set<T>, b: set<T>)
    requires a <= b
    ensures |a| <= |b|
  {
    if a == {} {
    } else {
      var x :| x in a;
      SubsetSize(a - {x}, b - {x});
    }
  }

  lemma {:induction false} ListSize(list: seq<Entry>)
    ensures |set e | e in list| <= |list|
  {
    if list == [] {
    } else {
      var init := list[..|list| - 1];
      ListSize(init);
      assert (set e | e in list) == (set e | e in init) + {list[|list| - 1]};
    }
  }

  /** A sender has at most maxPerAddr pooled entries. */
  lemma SenderLimit(items: seq<Entry>, bySender: map<string, seq<Entry>>, tainted: set<string>,
          maxPerAddr: nat, from: string)
    requires SendersOk(items, bySender, tainted, maxPerAddr)
    ensures |PooledBy(items, from)| <= maxPerAddr
  {
    var pooled := PooledBy(items, from);
    var list := ListOf(bySender, from);
    var listed := set e | e in list;
    assert pooled <= listed;
    SubsetSize(pooled, listed);
    ListSize(list);
  }

  /** Places e behind the last entry whose nonce is not above its own. */
  method InsertSorted(entries: seq<Entry>, e: Entry) returns (result: seq<Entry>)
    ensures exists at: nat :: InsertedAt(result, entries, e, at)
  {
    for i := 0 to |entries|
      invariant forall k | 0 <= k < i :: entries[k].tx.nonce <= e.tx.nonce
    {
      if e.tx.nonce < entries[i].tx.nonce {
        result := entries[..i] + [e] + entries[i..];
        assert InsertedAt(result, entries, e, i);
        return;
      }
    }
    result := entries + [e];
    assert InsertedAt(result, entries, e, |entries|);
  }

  // ---------- Selection of ready transactions ----------

  predicate Ready(e: Entry, nonceOf: string -> nat) {
    e.tx.nonce == nonceOf(e.tx.from)
  }

  /** Some chosen entry of the same sender costs no less. */
  ghost predicate Served(e: Entry, chosen: seq<Entry>) {
    exists i | 0 <= i < |chosen| :: chosen[i].tx.from == e.tx.from && e.tx.gasPrice <= chosen[i].tx.gasPrice
  }

  ghost predicate Outranked(e: Entry, chosen: seq<Entry>, n: int) {
    && |chosen| >= n
    && (forall i | 0 <= i < |chosen| :: chosen[i].tx.from != e.tx.from && e.tx.gasPrice <= chosen[i].tx.gasPrice)
  }

  /** The n best ready entries, one per sender: each is its sender's highest-priced ready
      entry, prices do not increase, and a sender with a ready entry is left out only when
      the selection is full of entries that cost no less. */
  ghost predicate IsSelection(chosen: seq<Entry>, items: seq<Entry>, nonceOf: string -> nat, n: int) {
    && |chosen| <= (if n < 0 then 0 else n)
    && (forall i | 0 <= i < |chosen| :: chosen[i] in items && Ready(chosen[i], nonceOf))
    && (forall i, j | 0 <= i < j < |chosen| ::
          chosen[i].tx.from != chosen[j].tx.from && chosen[j].tx.gasPrice <= chosen[i].tx.gasPrice)
    && (forall e {:trigger Served(e, chosen)} | e in items && Ready(e, nonceOf) ::
          Served(e, chosen) || Outranked(e, chosen, n))
  }

  function Senders(chosen: seq<Entry>): set<string> {
    set i | 0 <= i < |chosen| :: chosen[i].tx.from
  }

  lemma {:induction false} SendersSize(chosen: seq<Entry>)
    requires forall i, j | 0 <= i < j < |chosen| :: chosen[i].tx.from != chosen[j].tx.from
    ensures |Senders(chosen)| == |chosen|
  {
    if chosen == [] {
    } else {
      var n := |chosen| - 1;
      SendersSize(chosen[..n]);
      assert Senders(chosen) == Senders(chosen[..n]) + {chosen[n].tx.from};
    }
  }

  /** What is handed out is what the chain waits for: transactions that carry their sender's
      chain nonce, each from a pooled entry; and none only if there is none or none is asked. */
  ghost predicate AllNext(result: seq<Tx>, items: seq<Entry>, nonceOf: string -> nat, n: int) {
    && (forall i | 0 <= i < |result| ::
          result[i].nonce == nonceOf(result[i].from) && exists e | e in items :: e.tx == result[i])
    && (result == [] <==> n <= 0 || forall e | e in items :: e.tx.nonce != nonceOf(e.tx.from))
  }

  lemma SelectionIsNext(chosen: seq<Entry>, result: seq<Tx>, items: seq<Entry>, nonceOf: string -> nat, n: int)
    requires IsSelection(chosen, items, nonceOf, n)
    requires |result| == |chosen| && forall i | 0 <= i < |result| :: result[i] == chosen[i].tx
    ensures AllNext(result, items, nonceOf, n)
  {
    if result == [] {
      forall e | e in items && n > 0
        ensures e.tx.nonce != nonceOf(e.tx.from)
      {
        assert Ready(e, nonceOf) ==> Served(e, chosen) || Outranked(e, chosen, n);
      }
    } else {
      assert chosen[0] in items && Ready(chosen[0], nonceOf);
    }
  }

  lemma NoLonger(a: seq<Entry>, b: seq<Entry>, items: seq<Entry>, nonceOf: string -> nat, n: int)
    requires IsSelection(a, items, nonceOf, n) && IsSelection(b, items, nonceOf, n)
    ensures |b| <= |a|
  {
    if |a| < |b| {
      assert Senders(b) <= Senders(a) by {
        forall i | 0 <= i < |b|
          ensures b[i].tx.from in Senders(a)
        {
          assert Served(b[i], a);
        }
      }
      SubsetSize(Senders(b), Senders(a));
      SendersSize(a);
      SendersSize(b);
    }
  }

  /** What is dearer than b's k-th entry comes from a sender that b chose before it. */
  lemma DearerChosenBefore(e: Entry, b: seq<Entry>, items: seq<Entry>, nonceOf: string -> nat,
          n: int, k: nat)
    requires IsSelection(b, items, nonceOf, n) && k < |b|
    requires e in items && Ready(e, nonceOf) && e.tx.gasPrice > b[k].tx.gasPrice
    ensures e.tx.from in Senders(b[..k])
  {
    assert Served(e, b);
    var j :| 0 <= j < |b| && b[j].tx.from == e.tx.from && e.tx.gasPrice <= b[j].tx.gasPrice;
    assert b[..k][j] == b[j];
  }

  lemma DearerHeads(a: seq<Entry>, b: seq<Entry>, items: seq<Entry>, nonceOf: string -> nat,
          n: int, k: nat)
    requires IsSelection(a, items, nonceOf, n) && IsSelection(b, items, nonceOf, n)
    requires k < |a| == |b| && a[k].tx.gasPrice > b[k].tx.gasPrice
    ensures Senders(a[..k + 1]) <= Senders(b[..k])
  {
    forall i | 0 <= i < k + 1
      ensures a[i].tx.from in Senders(b[..k])
    {
      assert i < k ==> a[k].tx.gasPrice <= a[i].tx.gasPrice;
      DearerChosenBefore(a[i], b, items, nonceOf, n, k);
    }
  }

  lemma NoDearer(a: seq<Entry>, b: seq<Entry>, items: seq<Entry>, nonceOf: string -> nat, n: int,
          k: nat)
    requires IsSelection(a, items, nonceOf, n) && IsSelection(b, items, nonceOf, n)
    requires k < |a| == |b|
    ensures a[k].tx.gasPrice <= b[k].tx.gasPrice
  {
    SendersSize(a[..k + 1]);
    SendersSize(b[..k]);
    if a[k].tx.gasPrice > b[k].tx.gasPrice {
      DearerHeads(a, b, items, nonceOf, n, k);
      SubsetSize(Senders(a[..k + 1]), Senders(b[..k]));
    }
  }

  /** The definition leaves no freedom but ties: position by position, two selections from
      one pool carry the same prices. */
  lemma SelectionUnique(a: seq<Entry>, b: seq<Entry>, items: seq<Entry>, nonceOf: string -> nat,
          n: int)
    requires IsSelection(a, items, nonceOf, n) && IsSelection(b, items, nonceOf, n)
    ensures |a| == |b|
    ensures forall k | 0 <= k < |a| :: a[k].tx.gasPrice == b[k].tx.gasPrice
  {
    NoLonger(a, b, items, nonceOf, n);
    NoLonger(b, a, items, nonceOf, n);
    forall k | 0 <= k < |a|
      ensures a[k].tx.gasPrice == b[k].tx.gasPrice
    {
      NoDearer(a, b, items, nonceOf, n, k);
      NoDearer(b, a, items, nonceOf, n, k);
    }
  }

  /** Midway through draining a heap: what is left is outranked by what was popped, and every
      ready entry popped so far has its sender served. */
  ghost predicate Drained(chosen: seq<Entry>, items: seq<Entry>, left: seq<Entry>, nonceOf: string -> nat, n: int) {
    && |chosen| <= (if n < 0 then 0 else n)
    && (forall i | 0 <= i < |chosen| :: chosen[i] in items && Ready(chosen[i], nonceOf))
    && (forall i, j | 0 <= i < j < |chosen| ::
          chosen[i].tx.from != chosen[j].tx.from && chosen[j].tx.gasPrice <= chosen[i].tx.gasPrice)
    && (forall i | 0 <= i < |chosen| :: forall e | e in left :: e.tx.gasPrice <= chosen[i].tx.gasPrice)
    && (forall e {:trigger Served(e, chosen)} | e in items && e !in left && Ready(e, nonceOf) :: Served(e, chosen))
  }

  /** A popped entry whose sender is already chosen costs no more than that choice. */
  lemma DrainSeen(chosen: seq<Entry>, items: seq<Entry>, left: seq<Entry>, left': seq<Entry>,
                  nonceOf: string -> nat, n: int, e: Entry)
    requires Drained(chosen, items, left, nonceOf, n) && Minus(left', left, e)
    requires e.tx.from in Senders(chosen)
    ensures Drained(chosen, items, left', nonceOf, n)
  {
    var i :| 0 <= i < |chosen| && chosen[i].tx.from == e.tx.from;
    assert Served(e, chosen);
  }

  lemma ServedStill(x: Entry, chosen: seq<Entry>, e: Entry)
    requires Served(x, chosen)
    ensures Served(x, chosen + [e])
  {
    var i :| 0 <= i < |chosen| && chosen[i].tx.from == x.tx.from && x.tx.gasPrice <= chosen[i].tx.gasPrice;
    assert (chosen + [e])[i] == chosen[i];
  }

  lemma DrainReady(chosen: seq<Entry>, items: seq<Entry>, left: seq<Entry>, left': seq<Entry>,
                   nonceOf: string -> nat, n: int, e: Entry)
    requires Drained(chosen, items, left, nonceOf, n) && Minus(left', left, e)
    requires |chosen| < n && e in items && Ready(e, nonceOf) && e.tx.from !in Senders(chosen)
    requires forall x | x in left :: x.tx.gasPrice <= e.tx.gasPrice
    ensures Drained(chosen + [e], items, left', nonceOf, n)
    ensures Senders(chosen + [e]) == Senders(chosen) + {e.tx.from}
  {
    var more := chosen + [e];
    assert forall i | 0 <= i < |chosen| :: more[i] == chosen[i] && chosen[i].tx.from in Senders(chosen);
    assert more[|chosen|] == e;
    forall x | x in items && x !in left' && Ready(x, nonceOf)
      ensures Served(x, more)
    {
      if x != e {
        ServedStill(x, chosen, e);
      }
    }
  }

  lemma DrainedIsSelection(chosen: seq<Entry>, items: seq<Entry>, left: seq<Entry>,
          nonceOf: string -> nat, n: int)
    requires Drained(chosen, items, left, nonceOf, n)
    requires left == [] || |chosen| >= n
    ensures IsSelection(chosen, items, nonceOf, n)
  {
    forall e | e in items && Ready(e, nonceOf)
      ensures Served(e, chosen) || Outranked(e, chosen, n)
    {
      if e in left && !Outranked(e, chosen, n) {
        var i :| 0 <= i < |chosen| && chosen[i].tx.from == e.tx.from;
        assert Served(e, chosen);
      }
    }
  }

  /** Midway through a sweep: of the entries added before the limit only those still to be
      visited remain, and no other entry is gone. */
  ghost predicate Swept(now: seq<Entry>, before: seq<Entry>, todo: set<string>, limit: int) {
    && |now| <= |before|
    && (forall e | e in now :: e in before && (e.tx.hash in todo || e.addedAt >= limit))
    && (forall e | e in before && e.addedAt >= limit :: e in now)
  }

  /** The sender's list is the given list with e in its place; other lists are as before. */
  ghost predicate Filed(now: map<string, seq<Entry>>, before: map<string, seq<Entry>>, list: seq<Entry>, e: Entry) {
    && e.tx.from in now
    && now == before[e.tx.from := now[e.tx.from]]
    && exists at: nat :: InsertedAt(now[e.tx.from], list, e, at)
  }

  /** The entry added took the place of the one that is gone. */
  ghost predicate Replaced(now: seq<Entry>, before: seq<Entry>, gone: Entry, added: Entry) {
    && |now| == |before| && gone in before && added !in before && added in now
    && (forall x | x in now && x != added :: x in before && x != gone)
    && (forall x | x in before && x != gone :: x in now)
  }

  /** A sender list read before an eviction still covers the sender's pooled entries, and
      names nothing else unless the eviction hit that sender. */
  lemma StaleListFits(items: seq<Entry>, items': seq<Entry>, bySender: map<string, seq<Entry>>,
                      tainted: set<string>, maxPerAddr: nat, gone: Entry, from: string)
    requires SendersOk(items, bySender, tainted, maxPerAddr) && Minus(items', items, gone)
    ensures StaleOk(ListOf(bySender, from), ListOf(WithoutTx(bySender, gone.tx), from), from, items',
                    tainted + if gone.tx.from == from then {from} else {}, maxPerAddr)
  {
    FilteredMembers(ListOf(bySender, gone.tx.from), gone.tx.hash);
  }

  /** Every sender list names pooled entries only. */
  ghost predicate ListsExact(items: seq<Entry>, bySender: map<string, seq<Entry>>) {
    forall a | a in bySender :: forall e | e in bySender[a] :: e in items
  }

  lemma InsertedExact(items: seq<Entry>, items': seq<Entry>, bySender: map<string, seq<Entry>>,
                                         bySender': map<string, seq<Entry>>, e: Entry)
    requires ListsExact(items, bySender) && Plus(items', items, e)
    requires Filed(bySender', bySender, ListOf(bySender, e.tx.from), e)
    ensures ListsExact(items', bySender')
  {
    var at: nat :| InsertedAt(bySender'[e.tx.from], ListOf(bySender, e.tx.from), e, at);
    InsertedMembers(bySender'[e.tx.from], ListOf(bySender, e.tx.from), e, at);
  }

  /** Replacing the root by a transaction of its own sender leaves that sender's list naming it. */
  lemma OwnDisplaced(items: seq<Entry>, items': seq<Entry>, bySender: map<string, seq<Entry>>,
                                        bySender': map<string, seq<Entry>>, tainted: set<string>, maxPerAddr: nat,
                                        top: Entry, e: Entry)
    requires SendersOk(items, bySender, tainted, maxPerAddr)
    requires Replaced(items', items, top, e) && top.tx.from == e.tx.from
    requires Filed(bySender', WithoutTx(bySender, top.tx), ListOf(bySender, e.tx.from), e)
    ensures !ListsExact(items', bySender')
  {
    var list, list' := ListOf(bySender, e.tx.from), bySender'[e.tx.from];
    var at: nat :| InsertedAt(list', list, e, at);
    InsertedMembers(list', list, e, at);
    assert top in list' && top !in items';
  }

  /** Replacing the root by a transaction of another sender keeps exact lists exact. */
  lemma OtherDisplaced(items: seq<Entry>, items': seq<Entry>, bySender: map<string, seq<Entry>>,
                                          bySender': map<string, seq<Entry>>, tainted: set<string>, maxPerAddr: nat,
                                          top: Entry, e: Entry)
    requires SendersOk(items, bySender, tainted, maxPerAddr) && ListsExact(items, bySender)
    requires Replaced(items', items, top, e) && top.tx.from != e.tx.from
    requires Filed(bySender', WithoutTx(bySender, top.tx), ListOf(bySender, e.tx.from), e)
    ensures ListsExact(items', bySender')
  {
    var list, list' := ListOf(bySender, e.tx.from), bySender'[e.tx.from];
    var at: nat :| InsertedAt(list', list, e, at);
    InsertedMembers(list', list, e, at);
    FilteredMembers(ListOf(bySender, top.tx.from), top.tx.hash);
    forall a | a in bySender'
      ensures forall x | x in bySender'[a] :: x in items'
    {
    }
  }

  /** What a successful Add does to the heap's entries and the sender lists: a pool with room
      gains e, a full one has its root replaced by e, and either way e is filed in the list its
      sender had before. */
  ghost predicate AddedTo(items: seq<Entry>, items': seq<Entry>, bySender: map<string, seq<Entry>>,
                          bySender': map<string, seq<Entry>>, e: Entry, maxSize: nat) {
    if |items| < maxSize then
      && Plus(items', items, e)
      && Filed(bySender', bySender, ListOf(bySender, e.tx.from), e)
    else
      && items != [] && Replaced(items', items, items[0], e)
      && Filed(bySender', WithoutTx(bySender, items[0].tx), ListOf(bySender, e.tx.from), e)
  }

  /** From exact lists a successful Add leaves exact lists if and only if it did not replace,
      in a full pool, an entry of the same sender. */
  lemma AddedExact(items: seq<Entry>, items': seq<Entry>, bySender: map<string, seq<Entry>>,
                                      bySender': map<string, seq<Entry>>, tainted: set<string>, maxPerAddr: nat,
                                      e: Entry, maxSize: nat)
    requires maxSize >= 1 && SendersOk(items, bySender, tainted, maxPerAddr) && ListsExact(items, bySender)
    requires AddedTo(items, items', bySender, bySender', e, maxSize)
    ensures ListsExact(items', bySender') <==> !(|items| >= maxSize && items[0].tx.from == e.tx.from)
  {
    if |items| < maxSize {
      InsertedExact(items, items', bySender, bySender', e);
    } else if items[0].tx.from == e.tx.from {
      OwnDisplaced(items, items', bySender, bySender', tainted, maxPerAddr, items[0], e);
    } else {
      OtherDisplaced(items, items', bySender, bySender', tainted, maxPerAddr, items[0], e);
    }
  }

  ghost predicate Cheapest(e: Entry, items: seq<Entry>) {
    forall x | x in items :: e.tx.gasPrice <= x.tx.gasPrice
  }

  ghost predicate OnePrice(items: seq<Entry>) {
    forall x, y | x in items && y in items :: x.tx.gasPrice == y.tx.gasPrice
  }

  /** The entry that a full pool gives up is a lowest-priced one if and only if all pooled
      entries cost the same. */
  lemma EvictsLowestIff(items: seq<Entry>, items': seq<Entry>, bySender: map<string, seq<Entry>>,
                                           bySender': map<string, seq<Entry>>, e: Entry)
    requires HeapOk(items, |items|) && AddedTo(items, items', bySender, bySender', e, |items|)
    ensures forall x | x in items :: x !in items' <==> x == items[0]
    ensures Cheapest(items[0], items) <==> OnePrice(items)
  {
    forall x | x in items
      ensures x.tx.gasPrice <= items[0].tx.gasPrice
    {
      var k :| 0 <= k < |items| && items[k] == x;
      RootIsHighest(items, k);
    }
  }

  lemma ReplacedInTwoSteps(now: seq<Entry>, between: seq<Entry>, before: seq<Entry>, gone: Entry,
          added: Entry)
    requires Minus(between, before, gone) && Plus(now, between, added) && added !in before
    ensures Replaced(now, before, gone, added)
  {
  }

  /** Every entry of the drained copy that is not left was given heapIndex -1. */
  ghost predicate Popped(items: seq<Entry>, left: seq<Entry>)
    reads items
  {
    && (forall e | e in left :: e in items)
    && (forall e | e in items && e !in left :: e.heapIndex == -1)
  }

  /** Every entry's heapIndex is its place in this list. */
  ghost predicate Placed(left: seq<Entry>)
    reads left
  {
    forall k | 0 <= k < |left| :: left[k].heapIndex == k
  }

  /** Pops entries until n are chosen or none is left. */
  method Drain(sorted: TxHeap, n: int, nonceOf: string -> nat) returns (result: seq<Tx>, ghost chosen: seq<Entry>)
    requires Distinct(sorted.items) && Ordered(sorted.items, |sorted.items|)
    modifies sorted, sorted.items
    ensures |result| == |chosen| && forall i | 0 <= i < |result| :: result[i] == chosen[i].tx
    ensures IsSelection(chosen, old(sorted.items), nonceOf, n)
    ensures Popped(old(sorted.items), sorted.items)
    ensures old(sorted.Backed()) ==> Placed(sorted.items)
    ensures n > 0 && |old(sorted.items)| > 0 ==> old(sorted.items)[0] !in sorted.items
    ensures n <= 0 || |old(sorted.items)| == 0 ==>
      && sorted.items == old(sorted.items)
      && forall e | e in sorted.items :: e.heapIndex == old(e.heapIndex)
  {
    hide IsSelection;
    ghost var items := sorted.items;
    result, chosen := [], [];
    var seen := {};
    while |sorted.items| > 0 && |result| < n
      invariant Distinct(sorted.items) && Ordered(sorted.items, |sorted.items|)
      invariant Popped(items, sorted.items)
      invariant old(sorted.Backed()) ==> sorted.Backed()
      invariant if sorted.items == items
                then chosen == [] && forall e | e in items :: e.heapIndex == old(e.heapIndex)
                else n > 0 && |items| > 0 && items[0] !in sorted.items
      invariant |result| == |chosen| && forall i | 0 <= i < |result| :: result[i] == chosen[i].tx
      invariant seen == Senders(chosen)
      invariant Drained(chosen, items, sorted.items, nonceOf, n)
      decreases |sorted.items|
    {
      ghost var before := sorted.items;
      sorted.TopIsHighest();
      assert forall i | 0 <= i < |before| :: before[i] in before;
      var e := sorted.Pop();
      if e.tx.from in seen {
        DrainSeen(chosen, items, before, sorted.items, nonceOf, n, e);
        continue;
      }
      if Ready(e, nonceOf) {
        DrainReady(chosen, items, before, sorted.items, nonceOf, n, e);
        result, chosen, seen := result + [e.tx], chosen + [e], seen + {e.tx.from};
      }
    }
    DrainedIsSelection(chosen, items, sorted.items, nonceOf, n);
  }

  // ---------- The pool in place ----------

  class Pool {
    const pending: TxHeap
    var index: map<string, Entry>
    var bySender: map<string, seq<Entry>>
    const maxSize: nat
    const maxPerAddr: nat
    const ttl: int

    /** Senders whose own transaction displaced one of their entries from a full pool. Their
        lists may still name entries that are gone. */
    ghost var tainted: set<string>

    ghost predicate Consistent()
      reads this, pending
    {
      && maxSize >= 1
      && HeapOk(pending.items, maxSize)
      && IndexOk(pending.items, index)
      && SendersOk(pending.items, bySender, tainted, maxPerAddr)
    }

    /** Consistent, and every entry knows its place in the heap. */
    ghost predicate Valid()
      reads this, pending, pending.items
    {
      Consistent() && pending.Backed()
    }

    constructor (maxSize: nat, maxPerAddr: nat, ttl: int)
      requires maxSize >= 1
      ensures Valid() && pending.items == [] && index == map[] && bySender == map[] && tainted == {}
      ensures this.maxSize == maxSize && this.maxPerAddr == maxPerAddr && this.ttl == ttl
      ensures fresh(pending)
    {
      pending := new TxHeap([]);
      index, bySender, tainted := map[], map[], {};
      this.maxSize, this.maxPerAddr, this.ttl := maxSize, maxPerAddr, ttl;
    }

    method Unlist(tx: Tx)
      modifies this`bySender
      ensures bySender == WithoutTx(old(bySender), tx)
    {
      var senderTxs := if tx.from in bySender then bySender[tx.from] else [];
      var updated := [];
      for i := 0 to |senderTxs|
        invariant updated == Filtered(senderTxs[..i], tx.hash)
        invariant bySender == old(bySender)
      {
        assert senderTxs[..i + 1][..i] == senderTxs[..i];
        if senderTxs[i].tx.hash != tx.hash {
          updated := updated + [senderTxs[i]];
        }
      }
      assert senderTxs[..|senderTxs|] == senderTxs;
      if |updated| == 0 {
        bySender := bySender - {tx.from};
      } else {
        bySender := bySender[tx.from := updated];
      }
    }

    /** Removes the entry at e's heapIndex from the heap, and e from the other two
        structures. In a valid pool the two are the same entry. */
    method Evict(e: Entry)
      requires Consistent() && e in pending.items
      requires 0 <= e.heapIndex < |pending.items|
      modifies this`index, this`bySender, pending, pending.items
      ensures HeapOk(pending.items, maxSize)
      ensures Minus(pending.items, old(pending.items), old(pending.items[e.heapIndex]))
      ensures index == old(index) - {e.tx.hash}
      ensures bySender == WithoutTx(old(bySender), e.tx)
      ensures old(Valid()) ==> Valid() && Minus(pending.items, old(pending.items), e)
    {
      var removed := pending.Remove(e.heapIndex);
      index := index - {e.tx.hash};
      assert e.tx.from in bySender;
      Unlist(e.tx);
      if old(Valid()) {
        EvictSound(old(pending.items), pending.items, old(index), old(bySender), tainted, maxPerAddr, e);
      }
    }

    /** Pushes a new entry and files it under the given sender list. */
    method Insert(tx: Tx, now: int, senderTxs: seq<Entry>)
      requires Valid() && tx.hash !in index && |pending.items| < maxSize
      requires StaleOk(senderTxs, ListOf(bySender, tx.from), tx.from, pending.items, tainted, maxPerAddr)
      requires |senderTxs| < maxPerAddr
      modifies this`index, this`bySender, pending, pending.items
      ensures Valid()
      ensures tx.hash in index
      ensures var e := index[tx.hash];
        && fresh(e) && e.tx == tx && e.addedAt == now
        && Plus(pending.items, old(pending.items), e)
        && index == old(index)[tx.hash := e]
        && Filed(bySender, old(bySender), senderTxs, e)
    {
      var e := new Entry(tx, now);
      pending.Push(e);
      index := index[tx.hash := e];
      var list := InsertSorted(senderTxs, e);
      ghost var at: nat :| InsertedAt(list, senderTxs, e, at);
      InsertSound(old(pending.items), pending.items, old(index), bySender, senderTxs, list, at, tainted, maxPerAddr, e);
      bySender := bySender[tx.from := list];
      assert InsertedAt(bySender[tx.from], senderTxs, e, at);
    }

    /** Evicts the root on behalf of a sender. */
    method EvictTop(from: string)
      requires Valid() && |pending.items| > 0
      modifies this, pending, pending.items
      ensures Valid()
      ensures var top := old(pending.items[0]);
        && Minus(pending.items, old(pending.items), top)
        && index == old(index) - {top.tx.hash}
        && bySender == WithoutTx(old(bySender), top.tx)
        && tainted == old(tainted) + if top.tx.from == from then {from} else {}
      ensures StaleOk(ListOf(old(bySender), from), ListOf(bySender, from), from, pending.items, tainted, maxPerAddr)
    {
      var cheapest := pending.items[0];
      Evict(cheapest);
      StaleListFits(old(pending.items), pending.items, old(bySender), tainted, maxPerAddr, cheapest, from);
      tainted := tainted + if cheapest.tx.from == from then {from} else {};
    }

    /** Evicts the root and inserts; senderTxs was read before the eviction. */
    method Displace(tx: Tx, now: int, senderTxs: seq<Entry>)
      requires Valid() && tx.hash !in index && |pending.items| == maxSize
      requires senderTxs == ListOf(bySender, tx.from) && |senderTxs| < maxPerAddr
      modifies this, pending, pending.items
      ensures Valid()
      ensures tx.hash in index
      ensures var e, top := index[tx.hash], old(pending.items[0]);
        && fresh(e) && e.tx == tx && e.addedAt == now
        && Replaced(pending.items, old(pending.items), top, e)
        && index == (old(index) - {top.tx.hash})[tx.hash := e]
        && Filed(bySender, WithoutTx(old(bySender), top.tx), senderTxs, e)
        && tainted == old(tainted) + if top.tx.from == tx.from then {tx.from} else {}
    {
      ghost var top := pending.items[0];
      EvictTop(tx.from);
      ghost var between := pending.items;
      assert forall i | 0 <= i < |between| :: between[i] in between;
      Insert(tx, now, senderTxs);
      ReplacedInTwoSteps(pending.items, between, old(pending.items), top, index[tx.hash]);
    }

    /** Validates and inserts a transaction. A full pool takes it only when it outbids every
        pooled entry, and then drops an entry of highest price. */
    method Add(tx: Tx, now: int, nonceOf: string -> nat) returns (r: AddResult)
      requires Valid()
      modifies this, pending, pending.items
      ensures Valid()
      ensures r == AlreadyKnown <==> tx.hash in old(index)
      ensures r == NonceTooLow <==> tx.hash !in old(index) && tx.nonce < nonceOf(tx.from)
      ensures r == TooManyQueued <==>
        && tx.hash !in old(index) && tx.nonce >= nonceOf(tx.from)
        && |ListOf(old(bySender), tx.from)| >= maxPerAddr
      ensures r == PoolFull <==>
        && tx.hash !in old(index) && tx.nonce >= nonceOf(tx.from)
        && |ListOf(old(bySender), tx.from)| < maxPerAddr
        && |old(pending.items)| == maxSize
        && exists e | e in old(pending.items) :: e.tx.gasPrice >= tx.gasPrice
      ensures r != Added ==> unchanged(this) && unchanged(pending) && forall e | e in pending.items :: unchanged(e)
      ensures r == Added ==>
        && tx.hash in index && fresh(index[tx.hash])
        && index[tx.hash].tx == tx && index[tx.hash].addedAt == now
      ensures r == Added ==>
        AddedTo(old(pending.items), pending.items, old(bySender), bySender, index[tx.hash], maxSize)
      ensures r == Added && |old(pending.items)| < maxSize ==>
        index == old(index)[tx.hash := index[tx.hash]] && tainted == old(tainted)
      ensures r == Added && |old(pending.items)| == maxSize ==>
        && (forall x | x in old(pending.items) :: x.tx.gasPrice <= old(pending.items)[0].tx.gasPrice < tx.gasPrice)
        && index == (old(index) - {old(pending.items)[0].tx.hash})[tx.hash := index[tx.hash]]
        && tainted == old(tainted) + if old(pending.items)[0].tx.from == tx.from then {tx.from} else {}
    {
      if tx.hash in index {
        return AlreadyKnown;
      }
      if tx.nonce < nonceOf(tx.from) {
        return NonceTooLow;
      }
      var senderTxs := if tx.from in bySender then bySender[tx.from] else [];
      if |senderTxs| >= maxPerAddr {
        return TooManyQueued;
      }
      if |pending.items| >= maxSize {
        pending.TopIsHighest();
        var cheapest := pending.items[0];
        if cheapest.tx.gasPrice >= tx.gasPrice {
          return PoolFull;
        }
        Displace(tx, now, senderTxs);
      } else {
        Insert(tx, now, senderTxs);
      }
      return Added;
    }

    /** Drops a transaction by hash. The heap position is trusted: in a pool whose positions
        are wrong this panics or takes another entry out of the heap. */
    method Remove(hash: string) returns (r: RemoveResult)
      requires Consistent()
      modifies this`index, this`bySender, pending, pending.items
      ensures r == Unknown <==> hash !in old(index)
      ensures r == Panicked <==> hash in old(index) && !(0 <= old(index[hash].heapIndex) < |old(pending.items)|)
      ensures r != Removed ==> unchanged(this) && unchanged(pending) && forall e | e in pending.items :: unchanged(e)
      ensures r == Removed ==>
        && Minus(pending.items, old(pending.items), old(pending.items[index[hash].heapIndex]))
        && index == old(index) - {hash}
        && bySender == WithoutTx(old(bySender), old(index[hash]).tx)
      ensures old(Valid()) ==> Valid() && r != Panicked
      ensures old(Valid()) && r == Removed ==> Minus(pending.items, old(pending.items), old(index[hash]))
    {
      if hash !in index {
        return Unknown;
      }
      var e := index[hash];
      if !(0 <= e.heapIndex < |pending.items|) {
        return Panicked;
      }
      Evict(e);
      return Removed;
    }

    /** One turn of the sweep. */
    method Visit(h: string, now: int, ghost before: seq<Entry>, ghost todo: set<string>)
      requires Valid() && h in todo && todo <= index.Keys
      requires Swept(pending.items, before, todo, now - ttl)
      modifies this`index, this`bySender, pending, pending.items
      ensures Valid() && todo - {h} <= index.Keys
      ensures Swept(pending.items, before, todo - {h}, now - ttl)
    {
      var e := index[h];
      if now - e.addedAt > ttl {
        Evict(e);
      }
    }

    /** One sweep of the expiry loop: exactly the entries older than the time to live go,
        whatever order the index is visited in. */
    method Sweep(now: int)
      requires Valid()
      modifies this`index, this`bySender, pending, pending.items
      ensures Valid()
      ensures forall e | e in pending.items :: e in old(pending.items) && now - e.addedAt <= ttl
      ensures forall e | e in old(pending.items) && now - e.addedAt <= ttl :: e in pending.items
      ensures |pending.items| <= |old(pending.items)|
    {
      var todo := index.Keys;
      while todo != {}
        invariant Valid()
        invariant todo <= index.Keys
        invariant Swept(pending.items, old(pending.items), todo, now - ttl)
        decreases todo
      {
        var h :| h in todo;
        assert forall i | 0 <= i < |pending.items| :: pending.items[i] in pending.items;
        Visit(h, now, old(pending.items), todo);
        todo := todo - {h};
      }
    }

    /** The n best ready transactions. The pool's own three structures do not change, but the
        drained copy shares the entries: every entry popped from it ends with heapIndex -1, and
        what is left of it knows its place in the copy, not in the pool. The pool stays valid
        if and only if nothing was popped. */
    method Pending(n: int, nonceOf: string -> nat)
      returns (result: seq<Tx>, ghost chosen: seq<Entry>, ghost left: seq<Entry>)
      requires Consistent()
      modifies pending.items
      ensures Consistent()
      ensures |result| == |chosen| && forall i | 0 <= i < |result| :: result[i] == chosen[i].tx
      ensures IsSelection(chosen, pending.items, nonceOf, n)
      ensures AllNext(result, pending.items, nonceOf, n)
      ensures Popped(pending.items, left)
      ensures old(pending.Backed()) ==> Placed(left)
      ensures n > 0 && pending.items != [] ==> pending.items[0] !in left
      ensures old(Valid()) ==> (Valid() <==> left == pending.items)
      ensures old(Valid()) ==> (Valid() <==> n <= 0 || pending.items == [])
    {
      var sorted := new TxHeap(pending.items);
      assert forall k | 0 <= k < |pending.items| :: pending.items[k] in pending.items;
      result, chosen := Drain(sorted, n, nonceOf);
      left := sorted.items;
      SelectionIsNext(chosen, result, pending.items, nonceOf, n);
    }
  }

  /** The pool that the node makes. */
  method New() returns (pool: Pool)
    ensures fresh(pool) && pool.Valid() && pool.pending.items == [] && pool.tainted == {}
    ensures pool.maxSize == 4096 && pool.maxPerAddr == 64 && pool.ttl == 600_000_000_000
  {
    pool := new Pool(DEFAULT_MAX_SIZE, DEFAULT_MAX_PER_ADDR, DEFAULT_TTL);
  }

  // ---------- Runs ----------

  datatype Request = AddTx(tx: Tx, now: int, chainNonce: nat) | RemoveTx(hash: string) | Expire(now: int)

  datatype Answer = Adding(result: AddResult) | Removing(removal: RemoveResult) | Sweeping

  /** How the pooled entries change over one request. */
  ghost predicate Stepped(request: Request, answer: Answer, items: seq<Entry>, items': seq<Entry>, maxSize: nat,
                          ttl: int) {
    match request
    case AddTx(tx, now, _) =>
      && answer.Adding?
      && (answer.result != Added ==> items' == items)
      && (answer.result == Added ==> exists e | e in items' ::
            && e.tx == tx && e.addedAt == now
            && (|items| < maxSize ==> Plus(items', items, e))
            && (|items| >= maxSize ==> items != [] && Replaced(items', items, items[0], e)))
    case RemoveTx(hash) =>
      && answer.Removing?
      && (answer.removal == Removed ==> exists e | e in items :: e.tx.hash == hash && Minus(items', items, e))
      && (answer.removal != Removed ==> items' == items && forall e | e in items :: e.tx.hash != hash)
    case Expire(now) =>
      && answer.Sweeping? && |items'| <= |items|
      && (forall e | e in items' :: e in items && now - e.addedAt <= ttl)
      && (forall e | e in items && now - e.addedAt <= ttl :: e in items')
  }

  /** The sender whose list a request leaves naming an entry that is gone: the one whose new
      transaction took the place of its own entry at the root of a full pool. */
  function Hit(request: Request, answer: Answer, items: seq<Entry>, maxSize: nat): set<string> {
    if request.AddTx? && answer == Adding(Added) && |items| >= maxSize && items != []
       && items[0].tx.from == request.tx.from
    then {request.tx.from} else {}
  }

  /** The pooled entries before, between and after the requests. */
  ghost predicate Trace(requests: seq<Request>, answers: seq<Answer>, states: seq<seq<Entry>>, maxSize: nat, ttl: int) {
    && |answers| == |requests| && |states| == |requests| + 1
    && forall i {:trigger answers[i]} | 0 <= i < |requests| ::
         Stepped(requests[i], answers[i], states[i], states[i + 1], maxSize, ttl)
  }

  /** The senders hit by the first n requests. */
  function AllHit(requests: seq<Request>, answers: seq<Answer>, states: seq<seq<Entry>>, maxSize: nat, n: nat)
    : set<string>
    requires n <= |requests| && n <= |answers| && n <= |states|
  {
    if n == 0 then {}
    else
      AllHit(requests, answers, states, maxSize, n - 1)
      + Hit(requests[n - 1], answers[n - 1], states[n - 1], maxSize)
  }

  function Adds(requests: seq<Request>, n: nat): nat
    requires n <= |requests|
  {
    if n == 0 then 0 else Adds(requests, n - 1) + if requests[n - 1].AddTx? then 1 else 0
  }

  lemma {:induction false} AddsGrow(requests: seq<Request>, n: nat, m: nat)
    requires n <= m <= |requests|
    ensures Adds(requests, n) <= Adds(requests, m)
  {
    if n < m {
      AddsGrow(requests, n, m - 1);
    }
  }

  lemma StepGrowth(request: Request, answer: Answer, items: seq<Entry>, items': seq<Entry>, maxSize: nat, ttl: int)
    requires Stepped(request, answer, items, items', maxSize, ttl)
    ensures |items'| <= |items| + if request.AddTx? then 1 else 0
  {
  }

  /** While there is room for all that is added, nobody is hit. */
  lemma {:induction false} RoomHitsNobody(requests: seq<Request>, answers: seq<Answer>, states: seq<seq<Entry>>,
                                          maxSize: nat, ttl: int, n: nat)
    requires Trace(requests, answers, states, maxSize, ttl) && n <= |requests|
    requires |states[0]| + Adds(requests, |requests|) <= maxSize
    ensures |states[n]| <= |states[0]| + Adds(requests, n)
    ensures AllHit(requests, answers, states, maxSize, n) == {}
  {
    if n == 0 {
    } else {
      RoomHitsNobody(requests, answers, states, maxSize, ttl, n - 1);
      StepGrowth(requests[n - 1], answers[n - 1], states[n - 1], states[(n - 1) + 1], maxSize, ttl);
      AddsGrow(requests, n, |requests|);
    }
  }

  lemma AddStepped(request: Request, items: seq<Entry>, items': seq<Entry>, bySender: map<string, seq<Entry>>,
                                      bySender': map<string, seq<Entry>>, e: Entry, maxSize: nat, ttl: int)
    requires request.AddTx? && e.tx == request.tx && e.addedAt == request.now
    requires AddedTo(items, items', bySender, bySender', e, maxSize)
    ensures Stepped(request, Adding(Added), items, items', maxSize, ttl)
    ensures forall x | x in items' :: x in items || x == e
  {
    assert e in items';
  }

  method HandleAdd(pool: Pool, tx: Tx, now: int, chainNonce: nat) returns (answer: Answer)
    requires pool.Valid()
    modifies pool, pool.pending, pool.pending.items
    ensures pool.Valid()
    ensures Stepped(AddTx(tx, now, chainNonce), answer, old(pool.pending.items), pool.pending.items, pool.maxSize,
                    pool.ttl)
    ensures pool.tainted
         == old(pool.tainted) + Hit(AddTx(tx, now, chainNonce), answer, old(pool.pending.items), pool.maxSize)
    ensures forall e | e in pool.pending.items :: e in old(pool.pending.items) || fresh(e)
  {
    ghost var items, bySender := pool.pending.items, pool.bySender;
    var r := pool.Add(tx, now, _ => chainNonce);
    answer := Adding(r);
    if r == Added {
      AddStepped(AddTx(tx, now, chainNonce), items, pool.pending.items, bySender, pool.bySender, pool.index[tx.hash],
                 pool.maxSize, pool.ttl);
    }
  }

  method HandleRemove(pool: Pool, hash: string) returns (answer: Answer)
    requires pool.Valid()
    modifies pool, pool.pending, pool.pending.items
    ensures pool.Valid() && pool.tainted == old(pool.tainted)
    ensures Stepped(RemoveTx(hash), answer, old(pool.pending.items), pool.pending.items, pool.maxSize, pool.ttl)
    ensures forall e | e in pool.pending.items :: e in old(pool.pending.items)
  {
    var r := pool.Remove(hash);
    answer := Removing(r);
    if r == Unknown {
      assert forall k | 0 <= k < |pool.pending.items| :: pool.pending.items[k] in pool.pending.items;
    }
  }

  /** One request: the pool stays valid, its entries move as described, and exactly the sender
      hit, if any, joins the tainted ones. */
  method Handle(pool: Pool, request: Request) returns (answer: Answer)
    requires pool.Valid()
    modifies pool, pool.pending, pool.pending.items
    ensures pool.Valid()
    ensures Stepped(request, answer, old(pool.pending.items), pool.pending.items, pool.maxSize, pool.ttl)
    ensures pool.tainted == old(pool.tainted) + Hit(request, answer, old(pool.pending.items), pool.maxSize)
    ensures forall e | e in pool.pending.items :: e in old(pool.pending.items) || fresh(e)
  {
    match request
    case AddTx(tx, now, chainNonce) =>
      answer := HandleAdd(pool, tx, now, chainNonce);
    case RemoveTx(hash) =>
      answer := HandleRemove(pool, hash);
    case Expire(now) =>
      pool.Sweep(now);
      answer := Sweeping;
  }

  lemma {:induction false} HitPrefix(requests: seq<Request>, answers: seq<Answer>, states: seq<seq<Entry>>,
                                     requests': seq<Request>, answers': seq<Answer>, states': seq<seq<Entry>>,
                                     maxSize: nat, n: nat)
    requires requests <= requests' && answers <= answers' && states <= states'
    requires n <= |requests| && n <= |answers| && n <= |states|
    ensures AllHit(requests', answers', states', maxSize, n) == AllHit(requests, answers, states, maxSize, n)
  {
    if n == 0 {
    } else {
      HitPrefix(requests, answers, states, requests', answers', states', maxSize, n - 1);
    }
  }

  lemma TraceMore(requests: seq<Request>, answers: seq<Answer>, states: seq<seq<Entry>>, answer: Answer,
                                     items: seq<Entry>, maxSize: nat, ttl: int, n: nat)
    requires n < |requests| && Trace(requests[..n], answers, states, maxSize, ttl)
    requires Stepped(requests[n], answer, states[n], items, maxSize, ttl)
    ensures Trace(requests[..n + 1], answers + [answer], states + [items], maxSize, ttl)
    ensures AllHit(requests[..n + 1], answers + [answer], states + [items], maxSize, n + 1)
         == AllHit(requests[..n], answers, states, maxSize, n) + Hit(requests[n], answer, states[n], maxSize)
  {
    HitPrefix(requests[..n], answers, states, requests[..n + 1], answers + [answer], states + [items], maxSize, n);
    forall i | 0 <= i < n
      ensures Stepped(requests[..n][i], answers[i], states[i], states[i + 1], maxSize, ttl)
    {
      var a := answers[i];
    }
  }

  /** Handles the requests one by one, keeping a trace. */
  method Follow(pool: Pool, requests: seq<Request>) returns (answers: seq<Answer>, ghost states: seq<seq<Entry>>)
    requires pool.Valid()
    modifies pool, pool.pending, pool.pending.items
    ensures pool.Valid()
    ensures Trace(requests, answers, states, pool.maxSize, pool.ttl)
    ensures states[0] == old(pool.pending.items) && states[|requests|] == pool.pending.items
    ensures pool.tainted == old(pool.tainted) + AllHit(requests, answers, states, pool.maxSize, |requests|)
  {
    answers, states := [], [pool.pending.items];
    for i := 0 to |requests|
      invariant pool.Valid()
      invariant forall e | e in pool.pending.items :: e in old(pool.pending.items) || fresh(e)
      invariant Trace(requests[..i], answers, states, pool.maxSize, pool.ttl)
      invariant states[0] == old(pool.pending.items) && states[i] == pool.pending.items
      invariant pool.tainted == old(pool.tainted) + AllHit(requests[..i], answers, states, pool.maxSize, i)
    {
      assert forall k | 0 <= k < |pool.pending.items| :: pool.pending.items[k] in pool.pending.items;
      var answer := Handle(pool, requests[i]);
      TraceMore(requests, answers, states, answer, pool.pending.items, pool.maxSize, pool.ttl, i);
      answers, states := answers + [answer], states + [pool.pending.items];
    }
    assert requests[..|requests|] == requests;
  }

  /** Whatever is asked of a valid pool, in whatever order, it stays valid and within both of
      its limits. The lists of all senders but those hit, now or before, name pooled entries
      only, and nobody is hit as long as everything added fits. */
  method Serve(pool: Pool, requests: seq<Request>) returns (answers: seq<Answer>, ghost states: seq<seq<Entry>>)
    requires pool.Valid()
    modifies pool, pool.pending, pool.pending.items
    ensures pool.Valid()
    ensures |pool.pending.items| <= pool.maxSize
    ensures forall from :: |PooledBy(pool.pending.items, from)| <= pool.maxPerAddr
    ensures Trace(requests, answers, states, pool.maxSize, pool.ttl)
    ensures states[0] == old(pool.pending.items) && states[|requests|] == pool.pending.items
    ensures pool.tainted == old(pool.tainted) + AllHit(requests, answers, states, pool.maxSize, |requests|)
    ensures forall a | a in pool.bySender && a !in pool.tainted ::
              forall e | e in pool.bySender[a] :: e in pool.pending.items
    ensures |old(pool.pending.items)| + Adds(requests, |requests|) <= pool.maxSize ==> pool.tainted == old(pool.tainted)
  {
    answers, states := Follow(pool, requests);
    if |old(pool.pending.items)| + Adds(requests, |requests|) <= pool.maxSize {
      RoomHitsNobody(requests, answers, states, pool.maxSize, pool.ttl, |requests|);
    }
    forall from
      ensures |PooledBy(pool.pending.items, from)| <= pool.maxPerAddr
    {
      SenderLimit(pool.pending.items, pool.bySender, pool.tainted, pool.maxPerAddr, from);
    }
  }

  /** A new sender's transaction is taken as long as there is room. */
  method AddFirst(pool: Pool, tx: Tx) returns (e: Entry)
    requires pool.Valid() && tx.hash !in pool.index && tx.from !in pool.bySender
    requires |pool.pending.items| < pool.maxSize && pool.maxPerAddr >= 1
    modifies pool, pool.pending, pool.pending.items
    ensures pool.Valid() && fresh(e) && e.tx == tx
    ensures Plus(pool.pending.items, old(pool.pending.items), e)
    ensures pool.index.Keys == old(pool.index).Keys + {tx.hash}
    ensures pool.bySender.Keys == old(pool.bySender).Keys + {tx.from}
  {
    var r := pool.Add(tx, 0, _ => 0);
    e := pool.index[tx.hash];
  }

  lemma OnlyOne(items: seq<Entry>, a: Entry)
    requires Plus(items, [], a)
    ensures items == [a]
  {
    assert items[0] in items;
  }

  lemma DearerFirst(items: seq<Entry>, a: Entry, b: Entry)
    requires Plus(items, [a], b) && HeapOk(items, |items|) && a.tx.gasPrice > b.tx.gasPrice
    ensures items == [a, b]
  {
    RootIsHighest(items, 1);
    assert items[0] in items && items[1] in items && a in [a];
  }

  /** A pool of two entries, prices 10 and 1, that is full. */
  method PoolOfTwo() returns (pool: Pool, a: Entry, b: Entry)
    ensures fresh(pool) && fresh(pool.pending) && fresh(a) && fresh(b)
    ensures pool.Valid() && pool.maxSize == 2 && pool.maxPerAddr == 64
    ensures "c" !in pool.index && "C" !in pool.bySender
    ensures pool.pending.items == [a, b] && a.tx.gasPrice == 10 && b.tx.gasPrice == 1
  {
    hide HeapOk;
    hide IndexOk;
    hide SendersOk;
    pool := new Pool(2, 64, 600);
    a := AddFirst(pool, Tx("a", "A", 0, 10));
    OnlyOne(pool.pending.items, a);
    b := AddFirst(pool, Tx("b", "B", 0, 1));
    DearerFirst(pool.pending.items, a, b);
  }

  /** A full pool takes a dearer transaction by giving up its root, however cheap the others. */
  method AddOutbids(pool: Pool, tx: Tx) returns (r: AddResult)
    requires pool.Valid() && tx.hash !in pool.index && tx.from !in pool.bySender && pool.maxPerAddr >= 1
    requires |pool.pending.items| == pool.maxSize && pool.pending.items[0].tx.gasPrice < tx.gasPrice
    modifies pool, pool.pending, pool.pending.items
    ensures r == Added
    ensures forall x | x in old(pool.pending.items) :: x in pool.pending.items <==> x != old(pool.pending.items[0])
  {
    pool.pending.TopIsHighest();
    r := pool.Add(tx, 0, _ => 0);
  }

  /** The header's promise fails at once: a pool holding prices 10 and 1 takes 20 by giving up
      the 10. */
  method EvictsDearer() returns (pool: Pool, a: Entry, b: Entry)
    ensures a.tx.gasPrice == 10 && b.tx.gasPrice == 1
    ensures a !in pool.pending.items && b in pool.pending.items
  {
    pool, a, b := PoolOfTwo();
    var r := AddOutbids(pool, Tx("c", "C", 0, 20));
  }

  /** Why runs leave Pending out: once it has popped anything, removing the transaction at
      the top of the pool panics. */
  method RemoveAfterPending(pool: Pool, n: int, nonceOf: string -> nat) returns (r: RemoveResult)
    requires pool.Valid() && n > 0 && pool.pending.items != []
    modifies pool, pool.pending, pool.pending.items
    ensures r == Panicked
  {
    var top := pool.pending.items[0];
    var ready, _, _ := pool.Pending(n, nonceOf);
    r := pool.Remove(top.tx.hash);
  }
}
