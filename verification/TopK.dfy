/** The bounded min-heap, and the two loops that stream candidates through it. */
module TopK {
  import opened Types
  import opened Ranking

  predicate Below(a: ScoredCustomer, b: ScoredCustomer) {
    Less(KeyOf(a), KeyOf(b))
  }

  /** `a` may stand above `b` in a min-heap. */
  predicate Over(a: ScoredCustomer, b: ScoredCustomer) {
    AtLeast(KeyOf(b), KeyOf(a))
  }

  lemma OverOrder(a: ScoredCustomer, b: ScoredCustomer, c: ScoredCustomer)
    ensures Over(a, b) && Over(b, c) ==> Over(a, c)
    ensures Over(a, a)
    ensures Below(a, b) ==> Over(a, b)
    ensures !Below(b, a) ==> Over(a, b)
  {
    KeyOrder(KeyOf(c), KeyOf(b), KeyOf(a));
    KeyOrder(KeyOf(a), KeyOf(b), KeyOf(a));
    KeyOrder(KeyOf(a), KeyOf(a), KeyOf(a));
  }

  function Parent(j: nat): nat
    requires 1 <= j
  {
    (j - 1) / 2
  }

  /** Node `j` is in order with its parent. */
  predicate InOrder(s: seq<ScoredCustomer>, j: nat)
    requires 1 <= j < |s|
  {
    Over(s[Parent(j)], s[j])
  }

  /** Node `j` is in order with its parent's parent. */
  predicate Skips(s: seq<ScoredCustomer>, j: nat)
    requires 1 <= j < |s|
  {
    1 <= Parent(j) ==> Over(s[Parent(Parent(j))], s[j])
  }

  ghost predicate HeapShaped(s: seq<ScoredCustomer>) {
    forall j: nat | 1 <= j < |s| :: InOrder(s, j)
  }

  /** A heap but for node `k`, which may be too small for its parent. */
  ghost predicate TooSmallAt(s: seq<ScoredCustomer>, k: nat) {
    forall j: nat | 1 <= j < |s| :: (j != k ==> InOrder(s, j)) && (Parent(j) == k ==> Skips(s, j))
  }

  /** A heap but for node `k`, which may be too large for its children. */
  ghost predicate TooLargeAt(s: seq<ScoredCustomer>, k: nat) {
    forall j: nat | 1 <= j < |s| :: (Parent(j) != k ==> InOrder(s, j)) && (Parent(j) == k ==> Skips(s, j))
  }

  function Swap(s: seq<ScoredCustomer>, i: nat, j: nat): (t: seq<ScoredCustomer>)
    requires i < |s| && j < |s|
    ensures multiset(t) == multiset(s) && |t| == |s|
  {
    s[i := s[j]][j := s[i]]
  }

  lemma {:induction false} RootIsLeast(s: seq<ScoredCustomer>, j: nat)
    requires HeapShaped(s) && j < |s|
    ensures Over(s[0], s[j])
  {
    hide Over;
    if j == 0 {
      OverOrder(s[0], s[0], s[0]);
    } else {
      RootIsLeast(s, Parent(j));
      assert InOrder(s, j);
      OverOrder(s[0], s[Parent(j)], s[j]);
    }
  }

  lemma UpStep(s: seq<ScoredCustomer>, k: nat)
    requires TooSmallAt(s, k) && 1 <= k < |s| && Below(s[k], s[Parent(k)])
    ensures TooSmallAt(Swap(s, k, Parent(k)), Parent(k))
  {
    hide Over, Below;
    var p := Parent(k);
    var t := Swap(s, k, p);
    forall j: nat | 1 <= j < |t|
      ensures (j != p ==> InOrder(t, j)) && (Parent(j) == p ==> Skips(t, j))
    {
      assert (j != k ==> InOrder(s, j)) && (Parent(j) == k ==> Skips(s, j));
      assert p >= 1 ==> InOrder(s, p);
      OverOrder(s[k], s[p], s[j]);
      OverOrder(s[p], s[k], s[j]);
      if 1 <= p { OverOrder(s[Parent(p)], s[p], s[j]); }
    }
  }

  /** The child that a node too large for its children changes places with. */
  function SmallerChild(s: seq<ScoredCustomer>, k: nat): (c: nat)
    requires 2 * k + 1 < |s|
    ensures k < c < |s| && Parent(c) == k
  {
    if 2 * k + 2 < |s| && !Below(s[2 * k + 1], s[2 * k + 2]) then 2 * k + 2 else 2 * k + 1
  }

  lemma SmallerChildIsLeast(s: seq<ScoredCustomer>, k: nat, j: nat)
    requires 2 * k + 1 < |s| && 1 <= j < |s| && Parent(j) == k
    ensures Over(s[SmallerChild(s, k)], s[j])
  {
    hide Over, Below;
    assert j == 2 * k + 1 || j == 2 * k + 2;
    OverOrder(s[2 * k + 1], s[j], s[j]);
    OverOrder(s[j], s[j], s[j]);
    if 2 * k + 2 < |s| {
      OverOrder(s[2 * k + 2], s[2 * k + 1], s[j]);
      OverOrder(s[2 * k + 1], s[2 * k + 2], s[j]);
    }
  }

  lemma DownStep(s: seq<ScoredCustomer>, k: nat)
    requires TooLargeAt(s, k) && 2 * k + 1 < |s| && Below(s[SmallerChild(s, k)], s[k])
    ensures TooLargeAt(Swap(s, k, SmallerChild(s, k)), SmallerChild(s, k))
  {
    var c := SmallerChild(s, k);
    hide Over, Below, SmallerChild;
    var t := Swap(s, k, c);
    forall j: nat | 1 <= j < |t|
      ensures (Parent(j) != c ==> InOrder(t, j)) && (Parent(j) == c ==> Skips(t, j))
    {
      assert (Parent(j) != k ==> InOrder(s, j)) && (Parent(j) == k ==> Skips(s, j));
      assert Skips(s, c);
      if Parent(j) == k {
        SmallerChildIsLeast(s, k, j);
      }
      OverOrder(s[c], s[k], s[j]);
    }
  }

  class MinHeap {
    var items: seq<ScoredCustomer>
    ghost var peak: nat  // the most entries ever held

    ghost predicate Valid()
      reads this
    {
      HeapShaped(items) && |items| <= peak
    }

    constructor ()
      ensures Valid() && items == [] && peak == 0
    {
      items, peak := [], 0;
    }

    method SiftUp(start: nat)
      requires start < |items| <= peak && TooSmallAt(items, start)
      modifies this`items
      ensures Valid() && multiset(items) == multiset(old(items)) && |items| == |old(items)|
    {
      hide Over, Below, InOrder, Skips;
      var k: nat := start;
      while 0 < k && Below(items[k], items[Parent(k)])
        invariant k < |items| && TooSmallAt(items, k)
        invariant multiset(items) == multiset(old(items)) && |items| == |old(items)|
      {
        UpStep(items, k);
        items := Swap(items, k, Parent(k));
        k := Parent(k);
      }
      SettledAbove(items, k);
    }

    method SiftDown()
      requires TooLargeAt(items, 0) && |items| <= peak
      modifies this`items
      ensures Valid() && multiset(items) == multiset(old(items)) && |items| == |old(items)|
    {
      hide Over, Below, InOrder, Skips;
      var k: nat := 0;
      while 2 * k + 1 < |items| && Below(items[SmallerChild(items, k)], items[k])
        invariant TooLargeAt(items, k)
        invariant multiset(items) == multiset(old(items)) && |items| == |old(items)|
        decreases |items| - k
      {
        DownStep(items, k);
        var c := SmallerChild(items, k);
        items := Swap(items, k, c);
        k := c;
      }
      SettledBelow(items, k);
    }

    /** heappush. */
    method Push(e: ScoredCustomer)
      requires Valid()
      modifies this
      ensures Valid() && multiset(items) == multiset(old(items)) + multiset{e} && |items| == |old(items)| + 1
      ensures peak == Max(old(peak), |items|)
    {
      PushedLeaf(items, e);
      items := items + [e];
      peak := Max(peak, |items|);
      SiftUp(|items| - 1);
    }

    /** heapreplace: the root leaves, whatever comes in. */
    method Replace(e: ScoredCustomer) returns (least: ScoredCustomer)
      requires Valid() && items != []
      modifies this`items
      ensures Valid() && |items| == |old(items)|
      ensures least == old(items)[0]
      ensures multiset(items) + multiset{least} == multiset(old(items)) + multiset{e}
    {
      least := items[0];
      NewRoot(items, e);
      items := items[0 := e];
      SiftDown();
    }

    /** heappushpop: the least of the root and the newcomer leaves. */
    method PushPop(e: ScoredCustomer) returns (least: ScoredCustomer)
      requires Valid() && items != []
      modifies this`items
      ensures Valid() && |items| == |old(items)|
      ensures least == if Below(old(items)[0], e) then old(items)[0] else e
      ensures multiset(items) + multiset{least} == multiset(old(items)) + multiset{e}
    {
      if Below(items[0], e) {
        least := Replace(e);
      } else {
        least := e;
      }
    }
  }

  lemma SettledAbove(s: seq<ScoredCustomer>, k: nat)
    requires k < |s| && TooSmallAt(s, k) && (1 <= k ==> !Below(s[k], s[Parent(k)]))
    ensures HeapShaped(s)
  {
    if 1 <= k {
      OverOrder(s[Parent(k)], s[k], s[k]);
    }
  }

  lemma SettledBelow(s: seq<ScoredCustomer>, k: nat)
    requires TooLargeAt(s, k) && (2 * k + 1 < |s| ==> !Below(s[SmallerChild(s, k)], s[k]))
    ensures HeapShaped(s)
  {
    hide Over, Below, SmallerChild;
    forall j: nat | 1 <= j < |s|
      ensures InOrder(s, j)
    {
      if Parent(j) == k {
        SmallerChildIsLeast(s, k, j);
        OverOrder(s[k], s[SmallerChild(s, k)], s[j]);
      }
    }
  }

  lemma PushedLeaf(s: seq<ScoredCustomer>, e: ScoredCustomer)
    requires HeapShaped(s)
    ensures TooSmallAt(s + [e], |s|)
  {
    hide Over;
    var t := s + [e];
    forall j: nat | 1 <= j < |t|
      ensures (j != |s| ==> InOrder(t, j)) && (Parent(j) == |s| ==> Skips(t, j))
    {
      assert j < |s| ==> InOrder(s, j);
    }
  }

  lemma NewRoot(s: seq<ScoredCustomer>, e: ScoredCustomer)
    requires HeapShaped(s) && s != []
    ensures TooLargeAt(s[0 := e], 0)
  {
    hide Over;
    var t := s[0 := e];
    forall j: nat | 1 <= j < |t|
      ensures (Parent(j) != 0 ==> InOrder(t, j)) && (Parent(j) == 0 ==> Skips(t, j))
    {
      assert InOrder(s, j);
    }
  }

  // ---------- The streaming loops ----------

  datatype Candidate = Candidate(customerId: CustomerId, score: real, attributes: Attributes)

  function EntryOf(c: Candidate): ScoredCustomer {
    ScoredCustomer(c.score, c.customerId, c.attributes)
  }

  function Entries(cs: seq<Candidate>): (es: seq<ScoredCustomer>)
    ensures |es| == |cs|
    ensures forall i | 0 <= i < |cs| :: es[i] == ScoredCustomer(cs[i].score, cs[i].customerId, cs[i].attributes)
  {
    seq(|cs|, i requires 0 <= i < |cs| => EntryOf(cs[i]))
  }

  /** The heap and what it let go are all that was seen; nothing kept is below anything let go; at most k are kept. */
  ghost predicate Keeps(items: seq<ScoredCustomer>, dropped: seq<ScoredCustomer>, seen: seq<ScoredCustomer>, k: nat) {
    && multiset(items) + multiset(dropped) == multiset(seen)
    && (forall e, d | e in items && d in dropped :: Over(d, e))
    && |items| <= k
    && (dropped != [] ==> |items| == k)
  }

  lemma Shuffle<T>(next: multiset<T>, gone: multiset<T>, items: multiset<T>, e: multiset<T>, dropped: multiset<T>)
    requires next + gone == items + e
    ensures next + (dropped + gone) == (items + dropped) + e
  {
    assert next + (dropped + gone) == (next + gone) + dropped;
    assert (items + e) + dropped == (items + dropped) + e;
  }

  lemma KeepsMore(items: seq<ScoredCustomer>, dropped: seq<ScoredCustomer>, seen: seq<ScoredCustomer>, k: nat,
                  e: ScoredCustomer, next: seq<ScoredCustomer>, gone: seq<ScoredCustomer>)
    requires Keeps(items, dropped, seen, k)
    requires multiset(next) + multiset(gone) == multiset(items) + multiset{e}
    requires |items| < k ==> gone == [] && |next| <= k
    requires |items| == k ==> |next| == k && forall g, x | g in gone && x in next :: Over(g, x)
    requires |items| == k && e in next ==> forall d | d in dropped :: Over(d, e)
    ensures Keeps(next, dropped + gone, seen + [e], k)
  {
    hide Over;
    Shuffle(multiset(next), multiset(gone), multiset(items), multiset{e}, multiset(dropped));
    assert multiset(dropped + gone) == multiset(dropped) + multiset(gone);
    forall x, d | x in next && d in dropped + gone
      ensures Over(d, x)
    {
      assert x in multiset(next) + multiset(gone);
      assert x in multiset(items) + multiset{e};
      assert x in items || x == e;
    }
  }

  /** What replacing the root by a better newcomer leaves. */
  lemma RootLeaves(items: seq<ScoredCustomer>, dropped: seq<ScoredCustomer>, seen: seq<ScoredCustomer>, k: nat,
                   e: ScoredCustomer, next: seq<ScoredCustomer>)
    requires Keeps(items, dropped, seen, k) && HeapShaped(items) && items != [] && |items| == k == |next|
    requires Below(items[0], e) && multiset(next) + multiset{items[0]} == multiset(items) + multiset{e}
    ensures Keeps(next, dropped + [items[0]], seen + [e], k)
  {
    hide Over, Below, HeapShaped;
    OverOrder(items[0], e, e);
    forall x | x in next
      ensures Over(items[0], x)
    {
      assert x in multiset(next);
      assert x in multiset(items) + multiset{e};
      if x in items {
        var j :| 0 <= j < |items| && items[j] == x;
        RootIsLeast(items, j);
      }
    }
    forall d | d in dropped
      ensures Over(d, e)
    {
      assert items[0] in items;
      OverOrder(d, items[0], e);
    }
    KeepsMore(items, dropped, seen, k, e, next, [items[0]]);
  }

  /** What refusing a newcomer no better than the root leaves. */
  lemma NewcomerLeaves(items: seq<ScoredCustomer>, dropped: seq<ScoredCustomer>, seen: seq<ScoredCustomer>, k: nat,
                       e: ScoredCustomer)
    requires Keeps(items, dropped, seen, k) && HeapShaped(items) && |items| == k
    requires items != [] ==> !Below(items[0], e)
    ensures Keeps(items, dropped + [e], seen + [e], k)
  {
    hide Over, Below, HeapShaped;
    forall x | x in items
      ensures Over(e, x)
    {
      var j :| 0 <= j < |items| && items[j] == x;
      RootIsLeast(items, j);
      OverOrder(e, items[0], x);
    }
    forall x, d | x in items && d in dropped + [e] ensures Over(d, x) {}
  }

  function InsertEntry(es: seq<ScoredCustomer>, e: ScoredCustomer): seq<ScoredCustomer> {
    if es == [] then [e]
    else if AtLeast(KeyOf(e), KeyOf(es[0])) then [e] + es
    else [es[0]] + InsertEntry(es[1..], e)
  }

  /** sorted(heap, reverse=True). */
  function SortEntries(es: seq<ScoredCustomer>): seq<ScoredCustomer> {
    if es == [] then [] else InsertEntry(SortEntries(es[1..]), es[0])
  }

  lemma {:induction false} InsertEntryKeys(es: seq<ScoredCustomer>, e: ScoredCustomer)
    ensures Keys(InsertEntry(es, e)) == Insert(Keys(es), KeyOf(e))
  {
    hide AtLeast;
    if es != [] {
      InsertEntryKeys(es[1..], e);
      assert Keys(es)[1..] == Keys(es[1..]) && Keys(es)[0] == KeyOf(es[0]);
      assert Keys([es[0]]) == [KeyOf(es[0])] && Keys([e]) == [KeyOf(e)];
      KeysConcat([es[0]], InsertEntry(es[1..], e));
      KeysConcat([e], es);
      hide Keys, KeyOf;
    }
  }

  lemma {:induction false} InsertEntryMembers(es: seq<ScoredCustomer>, e: ScoredCustomer)
    ensures multiset(InsertEntry(es, e)) == multiset(es) + multiset{e}
  {
    hide AtLeast;
    if es != [] {
      InsertEntryMembers(es[1..], e);
      HeadTail(es);
    }
  }

  lemma {:induction false} SortEntriesKeys(es: seq<ScoredCustomer>)
    ensures Keys(SortEntries(es)) == SortDescending(Keys(es))
    ensures multiset(SortEntries(es)) == multiset(es)
  {
    hide Insert, InsertEntry;
    if es != [] {
      SortEntriesKeys(es[1..]);
      InsertEntryKeys(SortEntries(es[1..]), es[0]);
      InsertEntryMembers(SortEntries(es[1..]), es[0]);
      HeadTail(es);
      assert Keys(es)[1..] == Keys(es[1..]);
    }
  }

  /** Sorting what the heap kept is sorting everything seen and taking K. */
  lemma KeptIsTopK(items: seq<ScoredCustomer>, dropped: seq<ScoredCustomer>, seen: seq<ScoredCustomer>, k: nat)
    requires Keeps(items, dropped, seen, k)
    ensures Keys(SortEntries(items)) == Ranking.TopK(Keys(seen), k)
    ensures multiset(SortEntries(items)) <= multiset(seen)
  {
    hide AtLeast;
    SortEntriesKeys(items);
    KeysConcat(items, dropped);
    assert multiset(items + dropped) == multiset(seen);
    SameEntriesSameKeys(items + dropped, seen);
    forall i, j | 0 <= i < |items| && 0 <= j < |dropped|
      ensures AtLeast(Keys(items)[i], Keys(dropped)[j])
    {
      assert items[i] in items && dropped[j] in dropped;
      assert Over(dropped[j], items[i]);
    }
    KeptIsTop(Keys(seen), Keys(items), Keys(dropped), k);
  }

  /** One candidate: pushed while there is room, in place of the root when better, else let go. */
  method Consider(heap: MinHeap, entry: ScoredCustomer, k: nat, ghost dropped: seq<ScoredCustomer>,
                  ghost seen: seq<ScoredCustomer>)
    returns (ghost gone: seq<ScoredCustomer>)
    requires 1 <= k && heap.Valid() && Keeps(heap.items, dropped, seen, k) && heap.peak <= k
    modifies heap
    ensures heap.Valid() && Keeps(heap.items, gone, seen + [entry], k) && heap.peak <= k
  {
    hide Below;
    ghost var before := heap.items;
    if |heap.items| < k {
      heap.Push(entry);
      KeepsMore(before, dropped, seen, k, entry, heap.items, []);
      gone := dropped + [];
    } else if Below(heap.items[0], entry) {
      var least := heap.PushPop(entry);
      RootLeaves(before, dropped, seen, k, entry, heap.items);
      gone := dropped + [before[0]];
    } else {
      NewcomerLeaves(before, dropped, seen, k, entry);
      gone := dropped + [entry];
    }
  }

  /** select_top_k. */
  method SelectTopK(candidates: seq<Candidate>, k: int) returns (top: seq<ScoredCustomer>, ghost peak: nat)
    ensures peak <= if k <= 0 then 0 else k  // the heap never held more
    ensures BestOf(top, Entries(candidates), if k <= 0 then 0 else k)
    ensures Keys(top) == Ranking.TopK(Keys(Entries(candidates)), if k <= 0 then 0 else k)
    ensures multiset(top) <= multiset(Entries(candidates))
  {
    hide SortEntries, SortDescending, BestOf;
    if k <= 0 {
      SortSorts(Keys(Entries(candidates)));
      TopKIsBest([], Entries(candidates), 0);
      return [], 0;
    }
    var heap := new MinHeap();
    ghost var dropped: seq<ScoredCustomer>, seen := [], Entries(candidates);
    assert seen[..0] == [];
    for i := 0 to |candidates|
      invariant fresh(heap) && heap.Valid() && Keeps(heap.items, dropped, seen[..i], k) && heap.peak <= k
    {
      assert seen[..i + 1] == seen[..i] + [EntryOf(candidates[i])];
      hide Keeps;
      dropped := Consider(heap, EntryOf(candidates[i]), k, dropped, seen[..i]);
    }
    assert seen[..|candidates|] == seen;
    KeptIsTopK(heap.items, dropped, seen, k);
    top, peak := SortEntries(heap.items), heap.peak;
    TopKIsBest(top, seen, k);
  }
}
