/** The order of scored customers, and what selecting the top K of a sequence means. */
module Ranking {
  import opened Types

  type Attributes = map<string, string>

  datatype Key = Key(score: real, id: CustomerId)

  datatype ScoredCustomer = ScoredCustomer(score: real, customerId: CustomerId, attributes: Attributes)

  function KeyOf(e: ScoredCustomer): Key {
    Key(e.score, e.customerId)
  }

  function Keys(es: seq<ScoredCustomer>): (ks: seq<Key>)
    ensures |ks| == |es|
    ensures forall i | 0 <= i < |es| :: ks[i] == Key(es[i].score, es[i].customerId)
  {
    seq(|es|, i requires 0 <= i < |es| => KeyOf(es[i]))
  }

  /** Text order, code point by code point. */
  predicate TextLess(a: string, b: string) {
    if b == [] then false
    else if a == [] then true
    else if a[0] != b[0] then a[0] < b[0]
    else TextLess(a[1..], b[1..])
  }

  /** The first difference decides: a smaller character, or the end of the text. */
  lemma {:induction false} TextLessExactly(a: string, b: string)
    ensures TextLess(a, b) <==> exists i: nat :: DiffersAt(a, b, i) && (i == |a| || (i < |b| && a[i] < b[i]))
    decreases |a|
  {
    if a != [] && b != [] && a[0] == b[0] {
      TextLessExactly(a[1..], b[1..]);
      forall i: nat
        ensures DiffersAt(a[1..], b[1..], i) <==> DiffersAt(a, b, i + 1)
      {
        DiffersLater(a, b, i);
      }
      if i: nat :| DiffersAt(a, b, i) && (i == |a| || (i < |b| && a[i] < b[i])) {
        assert DiffersAt(a[1..], b[1..], i - 1);
      }
    } else {
      assert b != [] ==> DiffersAt(a, b, 0);
    }
  }

  /** Two texts agree before position `i` and not at it; neither ends before it, and not both at it. */
  predicate DiffersAt(a: string, b: string, i: nat) {
    && i <= |a| && i <= |b| && a[..i] == b[..i]
    && (i < |a| || i < |b|) && (i < |a| && i < |b| ==> a[i] != b[i])
  }

  lemma DiffersLater(a: string, b: string, i: nat)
    requires a != [] && b != [] && a[0] == b[0]
    ensures DiffersAt(a[1..], b[1..], i) <==> DiffersAt(a, b, i + 1)
  {
    if i + 1 <= |a| && i + 1 <= |b| {
      assert a[..i + 1] == [a[0]] + a[1..][..i] && b[..i + 1] == [b[0]] + b[1..][..i];
    }
  }

  /** The order of the dataclass: scores first, identifiers break ties, attributes do not count. */
  predicate Less(a: Key, b: Key) {
    a.score < b.score || (a.score == b.score && TextLess(a.id, b.id))
  }

  predicate AtLeast(a: Key, b: Key) {
    !Less(a, b)
  }

  lemma {:induction false} TextOrder(a: string, b: string, c: string)
    ensures TextLess(a, b) && TextLess(b, c) ==> TextLess(a, c)
    ensures !TextLess(a, a)
    ensures TextLess(a, b) || TextLess(b, a) || a == b
    ensures !TextLess(a, b) && !TextLess(b, c) ==> !TextLess(a, c)
    ensures !(TextLess(a, b) && TextLess(b, a))
    decreases |a| + |b| + |c|
  {
    if a != [] && b != [] && c != [] {
      TextOrder(a[1..], b[1..], c[1..]);
      assert a == [a[0]] + a[1..] && b == [b[0]] + b[1..];
    } else if a != [] && b != [] {
      TextOrder(a[1..], b[1..], []);
      assert a == [a[0]] + a[1..] && b == [b[0]] + b[1..];
    } else if a != [] {
      TextOrder(a[1..], [], []);
    }
  }

  /** A strict total order. */
  lemma KeyOrder(a: Key, b: Key, c: Key)
    ensures AtLeast(a, b) && AtLeast(b, c) ==> AtLeast(a, c)
    ensures AtLeast(a, a)
    ensures Less(a, b) ==> AtLeast(b, a)
    ensures AtLeast(a, b) && AtLeast(b, a) ==> a == b
  {
    TextOrder(a.id, b.id, c.id);
    TextOrder(a.id, a.id, a.id);
  }

  predicate Descending(ks: seq<Key>) {
    forall i, j | 0 <= i < j < |ks| :: AtLeast(ks[i], ks[j])
  }

  function Insert(ks: seq<Key>, k: Key): seq<Key> {
    if ks == [] then [k]
    else if AtLeast(k, ks[0]) then [k] + ks
    else [ks[0]] + Insert(ks[1..], k)
  }

  /** sorted(..., reverse=True), on keys. */
  function SortDescending(ks: seq<Key>): seq<Key> {
    if ks == [] then [] else Insert(SortDescending(ks[1..]), ks[0])
  }

  /** The K best of all: sort everything, take K. */
  function TopK(ks: seq<Key>, k: nat): seq<Key> {
    Take(SortDescending(ks), k)
  }

  lemma HeadTail<T>(s: seq<T>)
    requires s != []
    ensures multiset(s) == multiset{s[0]} + multiset(s[1..])
  {
    assert s == [s[0]] + s[1..];
  }

  lemma WithoutAt<T>(s: seq<T>, i: nat)
    requires i < |s|
    ensures multiset(s) == multiset{s[i]} + multiset(s[..i] + s[i + 1..])
  {
    assert s == s[..i] + [s[i]] + s[i + 1..];
  }

  predicate Dominates(k: Key, ks: seq<Key>) {
    forall j | 0 <= j < |ks| :: AtLeast(k, ks[j])
  }

  lemma DescendingCons(k: Key, ks: seq<Key>)
    ensures Descending([k] + ks) <==> Dominates(k, ks) && Descending(ks)
  {
    hide AtLeast;
    var s := [k] + ks;
    if Descending(s) {
      assert forall j | 0 <= j < |ks| :: ks[j] == s[j + 1] && AtLeast(s[0], s[j + 1]);
      forall i, j | 0 <= i < j < |ks| ensures AtLeast(ks[i], ks[j]) {
        assert s[i + 1] == ks[i] && s[j + 1] == ks[j];
      }
    }
  }

  /** Dominance depends only on which keys there are. */
  lemma DominatesSame(k: Key, a: seq<Key>, b: seq<Key>)
    requires multiset(a) == multiset(b) && Dominates(k, a)
    ensures Dominates(k, b)
  {
    hide AtLeast;
    forall j | 0 <= j < |b| ensures AtLeast(k, b[j]) {
      assert b[j] in multiset(a);
    }
  }

  lemma {:induction false} InsertMembers(ks: seq<Key>, k: Key)
    ensures multiset(Insert(ks, k)) == multiset([k] + ks) && |Insert(ks, k)| == |ks| + 1
  {
    hide AtLeast;
    if ks != [] {
      HeadTail(ks);
      InsertMembers(ks[1..], k);
    }
  }

  lemma {:induction false} InsertSorts(ks: seq<Key>, k: Key)
    requires Descending(ks)
    ensures Descending(Insert(ks, k))
  {
    hide Less, Descending;
    if ks == [] {
      DescendingCons(k, []);
      assert Descending([]) by { NoneDescending(); }
      assert [k] + [] == [k];
    } else {
      var rest := ks[1..];
      assert ks == [ks[0]] + rest;
      DescendingCons(ks[0], rest);
      if AtLeast(k, ks[0]) {
        forall j | 0 <= j < |ks| ensures AtLeast(k, ks[j]) {
          KeyOrder(k, ks[0], ks[j]);
        }
        DescendingCons(k, ks);
      } else {
        InsertSorts(rest, k);
        InsertMembers(rest, k);
        KeyOrder(k, ks[0], k);
        assert AtLeast(ks[0], k) by { NotBetter(k, ks[0]); }
        DominatesSame(ks[0], [k] + rest, Insert(rest, k));
        DescendingCons(ks[0], Insert(rest, k));
      }
    }
  }

  lemma NoneDescending()
    ensures Descending([])
  {}

  lemma NotBetter(a: Key, b: Key)
    requires !AtLeast(a, b)
    ensures AtLeast(b, a)
  {
    KeyOrder(a, b, a);
  }

  lemma {:induction false} SortSorts(ks: seq<Key>)
    ensures Descending(SortDescending(ks)) && multiset(SortDescending(ks)) == multiset(ks)
    ensures |SortDescending(ks)| == |ks|
  {
    hide AtLeast, Insert;
    if ks != [] {
      var rest := SortDescending(ks[1..]);
      SortSorts(ks[1..]);
      InsertSorts(rest, ks[0]);
      InsertMembers(rest, ks[0]);
      HeadTail(ks);
    }
  }

  /** A descending arrangement of given keys is unique. */
  lemma {:induction false} DescendingUnique(a: seq<Key>, b: seq<Key>)
    requires Descending(a) && Descending(b) && multiset(a) == multiset(b)
    ensures a == b
    decreases |a|
  {
    hide AtLeast;
    assert |a| == |multiset(a)| && |b| == |multiset(b)|;
    if a != [] {
      assert a == [a[0]] + a[1..] && b == [b[0]] + b[1..];
      DescendingCons(a[0], a[1..]);
      DescendingCons(b[0], b[1..]);
      SameBest(a, b);
      HeadTail(a);
      HeadTail(b);
      hide Descending;
      assert multiset(a[1..]) == multiset(a) - multiset{a[0]};
      assert multiset(b[1..]) == multiset(b) - multiset{b[0]};
      DescendingUnique(a[1..], b[1..]);
    }
  }

  lemma SameBest(a: seq<Key>, b: seq<Key>)
    requires Descending(a) && Descending(b) && multiset(a) == multiset(b) && a != [] && b != []
    ensures a[0] == b[0]
  {
    hide Less;
    assert a[0] in multiset(b) && b[0] in multiset(a);
    var i :| 0 <= i < |b| && b[i] == a[0];
    var j :| 0 <= j < |a| && a[j] == b[0];
    KeyOrder(a[0], b[0], a[0]);
    KeyOrder(b[0], a[0], b[0]);
  }

  /** The order in which candidates arrive does not matter. */
  lemma TopKOfSame(a: seq<Key>, b: seq<Key>, k: nat)
    requires multiset(a) == multiset(b)
    ensures TopK(a, k) == TopK(b, k)
  {
    SortSorts(a);
    SortSorts(b);
    DescendingUnique(SortDescending(a), SortDescending(b));
  }

  /** Splitting off what is no better than everything kept: sorting the kept keys is sorting all and taking K. */
  lemma KeptIsTop(all: seq<Key>, kept: seq<Key>, dropped: seq<Key>, k: nat)
    requires multiset(kept) + multiset(dropped) == multiset(all)
    requires forall i, j | 0 <= i < |kept| && 0 <= j < |dropped| :: AtLeast(kept[i], dropped[j])
    requires |kept| <= k && (dropped != [] ==> |kept| == k)
    ensures SortDescending(kept) == TopK(all, k)
  {
    var a, b := SortDescending(kept), SortDescending(dropped);
    SortSorts(kept);
    SortSorts(dropped);
    SortSorts(all);
    forall i, j | 0 <= i < |a| && 0 <= j < |b|
      ensures AtLeast(a[i], b[j])
    {
      assert a[i] in multiset(kept) && b[j] in multiset(dropped);
    }
    assert Descending(a + b);
    assert multiset(a + b) == multiset(all);
    DescendingUnique(a + b, SortDescending(all));
    assert (a + b)[..|a|] == a;
  }

  lemma KeysConcat(a: seq<ScoredCustomer>, b: seq<ScoredCustomer>)
    ensures Keys(a + b) == Keys(a) + Keys(b)
  {}

  lemma KeysWithout(es: seq<ScoredCustomer>, i: nat)
    requires i < |es|
    ensures multiset(Keys(es)) == multiset{KeyOf(es[i])} + multiset(Keys(es[..i] + es[i + 1..]))
  {
    WithoutAt(Keys(es), i);
    assert Keys(es)[..i] + Keys(es)[i + 1..] == Keys(es[..i] + es[i + 1..]);
  }

  /** The place in `b` of the head of `a`; without the two the members are still the same. */
  lemma Partner<T>(a: seq<T>, b: seq<T>) returns (i: nat)
    requires a != [] && multiset(a) == multiset(b)
    ensures i < |b| && b[i] == a[0] && multiset(a[1..]) == multiset(b[..i] + b[i + 1..])
  {
    assert a[0] in multiset(b);
    i :| i < |b| && b[i] == a[0];
    HeadTail(a);
    WithoutAt(b, i);
    assert multiset(a[1..]) == multiset(a) - multiset{a[0]};
  }

  lemma {:induction false} SameEntriesSameKeys(a: seq<ScoredCustomer>, b: seq<ScoredCustomer>)
    requires multiset(a) == multiset(b)
    ensures multiset(Keys(a)) == multiset(Keys(b))
    decreases |a|
  {
    if a == [] {
      assert |b| == |multiset(b)|;
    } else {
      var i := Partner(a, b);
      hide Keys, KeyOf;
      SameEntriesSameKeys(a[1..], b[..i] + b[i + 1..]);
      KeysHead(a);
      KeysWithout(b, i);
    }
  }

  lemma KeysHead(es: seq<ScoredCustomer>)
    requires es != []
    ensures multiset(Keys(es)) == multiset{KeyOf(es[0])} + multiset(Keys(es[1..]))
  {
    HeadTail(Keys(es));
    assert Keys(es)[1..] == Keys(es[1..]);
  }

  /**
   * What a caller sees of the best K: as many as there are, up to K; scores do not increase, and of equal scores the
   * greater identifier comes first; whatever is not among them is no better than the last of them.
   */
  ghost predicate BestOf(top: seq<ScoredCustomer>, offered: seq<ScoredCustomer>, k: nat) {
    && |top| == (if |offered| <= k then |offered| else k)
    && (forall e | e in top :: e in offered)
    && (forall i, j | 0 <= i < j < |top| ::
          && top[i].score >= top[j].score
          && (top[i].score == top[j].score ==> !TextLess(top[i].customerId, top[j].customerId)))
    && NoneBetterLeft(Keys(top), multiset(Keys(offered)))
  }

  /** No key left behind has a greater score than the last of the best, nor with its score a greater identifier. */
  ghost predicate NoneBetterLeft(best: seq<Key>, all: multiset<Key>) {
    forall score: real, id: CustomerId | best != [] && multiset(best)[Key(score, id)] < all[Key(score, id)] ::
      var last := best[|best| - 1];
      score <= last.score && (score == last.score ==> !TextLess(last.id, id))
  }

  /** Keys that are the top K of the offered ones are the best K. */
  lemma TopKIsBest(top: seq<ScoredCustomer>, offered: seq<ScoredCustomer>, k: nat)
    requires Keys(top) == TopK(Keys(offered), k) && multiset(top) <= multiset(offered)
    ensures BestOf(top, offered, k)
  {
    var sorted := SortDescending(Keys(offered));
    SortSorts(Keys(offered));
    SameSize(sorted, Keys(offered));
    hide SortDescending;
    TopInOrder(top, sorted);
    SubsetMembers(top, offered);
    PrefixLeaves(sorted, |top|);
    assert sorted[..|top|] == Keys(top);
    hide NoneBetterLeft, Keys;
  }

  lemma PrefixLeaves(sorted: seq<Key>, n: nat)
    requires Descending(sorted) && n <= |sorted|
    ensures NoneBetterLeft(sorted[..n], multiset(sorted))
  {
    forall score: real, id: CustomerId |
        sorted[..n] != [] && multiset(sorted[..n])[Key(score, id)] < multiset(sorted)[Key(score, id)]
      ensures AtLeast(sorted[n - 1], Key(score, id))
    {
      BehindTheLast(sorted, n, Key(score, id));
    }
  }

  lemma SameSize<T>(a: seq<T>, b: seq<T>)
    requires multiset(a) == multiset(b)
    ensures |a| == |b|
  {
    assert |a| == |multiset(a)| && |b| == |multiset(b)|;
  }

  lemma SubsetMembers<T>(a: seq<T>, b: seq<T>)
    requires multiset(a) <= multiset(b)
    ensures forall x | x in a :: x in b
  {
    forall x | x in a
      ensures x in b
    {
      assert x in multiset(a);
      assert x in multiset(b);
    }
  }

  lemma TopInOrder(top: seq<ScoredCustomer>, sorted: seq<Key>)
    requires Descending(sorted) && Keys(top) <= sorted
    ensures forall i, j | 0 <= i < j < |top| ::
              && top[i].score >= top[j].score
              && (top[i].score == top[j].score ==> !TextLess(top[i].customerId, top[j].customerId))
  {
    forall i, j | 0 <= i < j < |top|
      ensures top[i].score >= top[j].score
      ensures top[i].score == top[j].score ==> !TextLess(top[i].customerId, top[j].customerId)
    {
      assert sorted[i] == Keys(top)[i] && sorted[j] == Keys(top)[j];
      assert AtLeast(sorted[i], sorted[j]);
    }
  }

  lemma BehindTheLast(sorted: seq<Key>, n: nat, x: Key)
    requires Descending(sorted) && 0 < n <= |sorted| && multiset(sorted[..n])[x] < multiset(sorted)[x]
    ensures AtLeast(sorted[n - 1], x)
  {
    hide AtLeast;
    assert sorted == sorted[..n] + sorted[n..];
    assert x in multiset(sorted[n..]);
    assert x in sorted[n..];
    var j :| 0 <= j < |sorted| - n && sorted[n..][j] == x;
    assert sorted[n + j] == x;
  }
}
