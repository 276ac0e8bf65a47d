/**
 * The display order of rarities (`RARITY_ORDER`, divine first) shared by the
 * inventory and the collection, and the in-place sort both apply to their
 * cards: `.sort((a, b) => RARITY_ORDER.indexOf(a) - RARITY_ORDER.indexOf(b))`.
 * Array.prototype.sort is stable, so the sort is specified as the stable one.
 */
module RarityOrder {
  import opened SpinTypes
  import opened Seqs

  /** A rarity tab's selection: every rarity (`"all"`) or one rarity. */
  datatype RarityFilter = All | Only(rarity: Rarity)

  /** `RARITY_ORDER`. */
  const DisplayOrder: seq<Rarity> := [Divine, Mythic, Legendary, Epic, Rare, Uncommon, Common]

  /** The position of r in the display order: divine 0, ..., common 6. */
  function DisplayIndex(r: Rarity): (k: nat)
    ensures k < 7
  {
    match r
    case Divine => 0
    case Mythic => 1
    case Legendary => 2
    case Epic => 3
    case Rare => 4
    case Uncommon => 5
    case Common => 6
  }

  /** DisplayIndex is `RARITY_ORDER.indexOf(r)`, which is never -1 since every rarity is listed. */
  lemma DisplayIndexIsIndexOf(r: Rarity)
    ensures DisplayIndex(r) == IndexOf(DisplayOrder, r)
    ensures DisplayOrder[DisplayIndex(r)] == r
  {
    var d := DisplayIndex(r);
    DisplayOrderIsRarityAt(d);
    DisplayIndexInjective(r, RarityAt(d));
    forall j | 0 <= j < d
      ensures DisplayOrder[j] != r
    {
      DisplayOrderIsRarityAt(j);
    }
  }

  /** The display order is the rarity ladder read from the top. */
  lemma DisplayIndexReversesLevel(r: Rarity)
    ensures DisplayIndex(r) == 6 - Level(r)
  {
  }

  /** The rarity at position m of the display order. */
  function RarityAt(m: nat): (r: Rarity)
    requires m < 7
    ensures DisplayIndex(r) == m
  {
    if m == 0 then Divine
    else if m == 1 then Mythic
    else if m == 2 then Legendary
    else if m == 3 then Epic
    else if m == 4 then Rare
    else if m == 5 then Uncommon
    else Common
  }

  /** RarityAt reads the display order. */
  lemma DisplayOrderIsRarityAt(m: nat)
    requires m < 7
    ensures DisplayOrder[m] == RarityAt(m)
  {
  }

  /** Different rarities have different display indices. */
  lemma DisplayIndexInjective(a: Rarity, b: Rarity)
    ensures DisplayIndex(a) == DisplayIndex(b) ==> a == b
  {
  }

  /** Whether an element's rarity, read through key, is r. */
  function KeyIs<T>(key: T -> Rarity, r: Rarity): T -> bool
  {
    x => key(x) == r
  }

  lemma KeyIsHolds<T>(key: T -> Rarity, r: Rarity, x: T)
    ensures KeyIs(key, r)(x) <==> key(x) == r
  {
  }

  /** No element of one rarity's group is of another rarity. */
  lemma KeyGroupsDisjoint<T>(s: seq<T>, key: T -> Rarity, q: Rarity, r: Rarity)
    requires q != r
    ensures Filter(Filter(s, KeyIs(key, q)), KeyIs(key, r)) == []
  {
    var g := Filter(s, KeyIs(key, q));
    FilterMembers(s, KeyIs(key, q));
    forall i | 0 <= i < |g|
      ensures !KeyIs(key, r)(g[i])
    {
      KeyIsHolds(key, q, g[i]);
      KeyIsHolds(key, r, g[i]);
    }
    FilterNone(g, KeyIs(key, r));
  }

  /** Whether an element's rarity comes at position m or later in the display order. */
  function AtOrAfter<T>(key: T -> Rarity, m: nat): T -> bool
  {
    x => DisplayIndex(key(x)) >= m
  }

  /** Non-decreasing display index: the order the comparator asks for. */
  predicate SortedByDisplay<T>(s: seq<T>, key: T -> Rarity)
  {
    forall i, j :: 0 <= i < j < |s| ==> DisplayIndex(key(s[i])) <= DisplayIndex(key(s[j]))
  }

  /** The two sequences hold the same elements of each rarity in the same relative order. */
  ghost predicate SameGroups<T>(s: seq<T>, t: seq<T>, key: T -> Rarity)
  {
    forall r: Rarity :: Filter(s, KeyIs(key, r)) == Filter(t, KeyIs(key, r))
  }

  /** The elements of the rarities from position m of the display order on, group by group, each group in input order. */
  function BucketsFrom<T>(s: seq<T>, key: T -> Rarity, m: nat): seq<T>
    requires m <= 7
    decreases 7 - m
  {
    if m == 7 then []
    else Filter(s, KeyIs(key, RarityAt(m))) + BucketsFrom(s, key, m + 1)
  }

  /** The reference stable sort: the divine elements in input order, then the mythic ones, ..., then the common ones. */
  function ByDisplayOrder<T>(s: seq<T>, key: T -> Rarity): seq<T>
  {
    BucketsFrom(s, key, 0)
  }

  lemma {:induction false} BucketsSortedFrom<T>(s: seq<T>, key: T -> Rarity, m: nat)
    requires m <= 7
    ensures SortedByDisplay(BucketsFrom(s, key, m), key)
    ensures forall i :: 0 <= i < |BucketsFrom(s, key, m)| ==> DisplayIndex(key(BucketsFrom(s, key, m)[i])) >= m
    decreases 7 - m
  {
    if m < 7 {
      BucketsSortedFrom(s, key, m + 1);
      var head := Filter(s, KeyIs(key, RarityAt(m)));
      var tail := BucketsFrom(s, key, m + 1);
      FilterMembers(s, KeyIs(key, RarityAt(m)));
      forall i | 0 <= i < |head|
        ensures DisplayIndex(key(head[i])) == m
      {
        KeyIsHolds(key, RarityAt(m), head[i]);
      }
      assert BucketsFrom(s, key, m) == head + tail;
    }
  }

  /** The reference order is sorted by display index. */
  lemma ByDisplayOrderIsSorted<T>(s: seq<T>, key: T -> Rarity)
    ensures SortedByDisplay(ByDisplayOrder(s, key), key)
  {
    BucketsSortedFrom(s, key, 0);
  }

  lemma {:induction false} BucketsPermuteFrom<T>(s: seq<T>, key: T -> Rarity, m: nat)
    requires m <= 7
    ensures multiset(BucketsFrom(s, key, m)) == multiset(Filter(s, AtOrAfter(key, m)))
    decreases 7 - m
  {
    if m == 7 {
      FilterNone(s, AtOrAfter(key, m));
    } else {
      BucketsPermuteFrom(s, key, m + 1);
      FilterDisjointUnion(s, AtOrAfter(key, m), KeyIs(key, RarityAt(m)), AtOrAfter(key, m + 1));
    }
  }

  /** The reference order is a permutation of its input. */
  lemma ByDisplayOrderIsPermutation<T>(s: seq<T>, key: T -> Rarity)
    ensures multiset(ByDisplayOrder(s, key)) == multiset(s)
  {
    BucketsPermuteFrom(s, key, 0);
    FilterAll(s, AtOrAfter(key, 0));
  }

  /** Each rarity's group is kept whole and in input order: the reference order is stable. */
  lemma ByDisplayOrderIsStable<T>(s: seq<T>, key: T -> Rarity)
    ensures SameGroups(ByDisplayOrder(s, key), s, key)
  {
    forall r: Rarity
      ensures Filter(ByDisplayOrder(s, key), KeyIs(key, r)) == Filter(s, KeyIs(key, r))
    {
      GroupOfBuckets(s, key, r, 0);
      FilterMembers(s, KeyIs(key, r));
      FilterAll(Filter(s, KeyIs(key, r)), KeyIs(key, r));
    }
  }

  /** The buckets from position m on hold nothing of a rarity placed before m. */
  lemma {:induction false} NoEarlierGroupInBuckets<T>(s: seq<T>, key: T -> Rarity, r: Rarity, m: nat)
    requires DisplayIndex(r) < m <= 7
    ensures Filter(BucketsFrom(s, key, m), KeyIs(key, r)) == []
    decreases 7 - m
  {
    if m < 7 {
      NoEarlierGroupInBuckets(s, key, r, m + 1);
      var head, tail := Filter(s, KeyIs(key, RarityAt(m))), BucketsFrom(s, key, m + 1);
      assert BucketsFrom(s, key, m) == head + tail;
      FilterAppend(head, tail, KeyIs(key, r));
      KeyGroupsDisjoint(s, key, RarityAt(m), r);
    }
  }

  /** The buckets from r's own position on hold exactly r's group. */
  lemma OwnBucketGroup<T>(s: seq<T>, key: T -> Rarity, r: Rarity)
    ensures Filter(BucketsFrom(s, key, DisplayIndex(r)), KeyIs(key, r)) == Filter(Filter(s, KeyIs(key, r)), KeyIs(key, r))
  {
    var m := DisplayIndex(r);
    DisplayIndexInjective(r, RarityAt(m));
    var head, tail := Filter(s, KeyIs(key, r)), BucketsFrom(s, key, m + 1);
    assert BucketsFrom(s, key, m) == head + tail;
    FilterAppend(head, tail, KeyIs(key, r));
    NoEarlierGroupInBuckets(s, key, r, m + 1);
  }

  /** The buckets from position m on, up to r's own, hold exactly r's group. */
  lemma {:induction false} GroupOfBuckets<T>(s: seq<T>, key: T -> Rarity, r: Rarity, m: nat)
    requires m <= DisplayIndex(r)
    ensures Filter(BucketsFrom(s, key, m), KeyIs(key, r)) == Filter(Filter(s, KeyIs(key, r)), KeyIs(key, r))
    decreases 7 - m
  {
    if m == DisplayIndex(r) {
      OwnBucketGroup(s, key, r);
    } else {
      var head, tail := Filter(s, KeyIs(key, RarityAt(m))), BucketsFrom(s, key, m + 1);
      assert BucketsFrom(s, key, m) == head + tail;
      FilterAppend(head, tail, KeyIs(key, r));
      GroupOfBuckets(s, key, r, m + 1);
      DisplayIndexInjective(r, RarityAt(m));
      KeyGroupsDisjoint(s, key, RarityAt(m), r);
    }
  }

  lemma {:induction false} SortedSplit<T>(t: seq<T>, key: T -> Rarity, m: nat) returns (n: nat)
    requires SortedByDisplay(t, key)
    ensures n <= |t|
    ensures forall i :: 0 <= i < n ==> DisplayIndex(key(t[i])) <= m
    ensures forall i :: n <= i < |t| ==> DisplayIndex(key(t[i])) > m
  {
    n := 0;
    while n < |t| && DisplayIndex(key(t[n])) <= m
      invariant n <= |t|
      invariant forall i :: 0 <= i < n ==> DisplayIndex(key(t[i])) <= m
    {
      n := n + 1;
    }
  }

  /** Prepending elements of other rarities leaves the group of r as it was. */
  lemma GroupSkipsOthers<T>(p: seq<T>, rest: seq<T>, key: T -> Rarity, r: Rarity)
    requires forall i :: 0 <= i < |p| ==> key(p[i]) != r
    ensures Filter(p + rest, KeyIs(key, r)) == Filter(rest, KeyIs(key, r))
  {
    var eq := KeyIs(key, r);
    forall i | 0 <= i < |p|
      ensures !eq(p[i])
    {
      KeyIsHolds(key, r, p[i]);
    }
    FilterAppend(p, rest, eq);
    FilterNone(p, eq);
  }

  /** Prepending elements of earlier groups leaves the later groups as they were. */
  lemma {:induction false} BucketsSkipEarlier<T>(p: seq<T>, rest: seq<T>, key: T -> Rarity, m: nat)
    requires m <= 7
    requires forall i :: 0 <= i < |p| ==> DisplayIndex(key(p[i])) < m
    ensures BucketsFrom(p + rest, key, m) == BucketsFrom(rest, key, m)
    decreases 7 - m
  {
    if m < 7 {
      BucketsSkipEarlier(p, rest, key, m + 1);
      GroupSkipsOthers(p, rest, key, RarityAt(m));
    }
  }

  /** The group at position m of a split whose front is all of rarity RarityAt(m) and whose back is later. */
  lemma GroupAtSplit<T>(p: seq<T>, rest: seq<T>, key: T -> Rarity, m: nat)
    requires m < 7
    requires forall i :: 0 <= i < |p| ==> DisplayIndex(key(p[i])) == m
    requires forall i :: 0 <= i < |rest| ==> DisplayIndex(key(rest[i])) > m
    ensures Filter(p + rest, KeyIs(key, RarityAt(m))) == p
  {
    var eq := KeyIs(key, RarityAt(m));
    forall i | 0 <= i < |p|
      ensures eq(p[i])
    {
      DisplayIndexInjective(key(p[i]), RarityAt(m));
      KeyIsHolds(key, RarityAt(m), p[i]);
    }
    forall i | 0 <= i < |rest|
      ensures !eq(rest[i])
    {
      KeyIsHolds(key, RarityAt(m), rest[i]);
    }
    FilterAppend(p, rest, eq);
    FilterAll(p, eq);
    FilterNone(rest, eq);
  }

  /** Split where SortedSplit splits it, a sorted sequence from m on has a front at m and a sorted back after m. */
  lemma SplitParts<T>(t: seq<T>, key: T -> Rarity, m: nat, n: nat)
    requires n <= |t| && SortedByDisplay(t, key)
    requires forall i :: 0 <= i < |t| ==> DisplayIndex(key(t[i])) >= m
    requires forall i :: 0 <= i < n ==> DisplayIndex(key(t[i])) <= m
    requires forall i :: n <= i < |t| ==> DisplayIndex(key(t[i])) > m
    ensures forall i :: 0 <= i < |t[..n]| ==> DisplayIndex(key(t[..n][i])) == m
    ensures forall i :: 0 <= i < |t[n..]| ==> DisplayIndex(key(t[n..][i])) > m
    ensures SortedByDisplay(t[n..], key)
  {
    assert forall i :: 0 <= i < |t[n..]| ==> t[n..][i] == t[n + i];
  }

  /** A front of rarity RarityAt(m) followed by a back already in bucket order from m + 1 is in bucket order from m. */
  lemma BucketsOfSplit<T>(p: seq<T>, rest: seq<T>, key: T -> Rarity, m: nat)
    requires m < 7
    requires forall i :: 0 <= i < |p| ==> DisplayIndex(key(p[i])) == m
    requires forall i :: 0 <= i < |rest| ==> DisplayIndex(key(rest[i])) > m
    requires BucketsFrom(rest, key, m + 1) == rest
    ensures BucketsFrom(p + rest, key, m) == p + rest
  {
    GroupAtSplit(p, rest, key, m);
    BucketsSkipEarlier(p, rest, key, m + 1);
  }

  /** A sorted sequence whose elements all come at m or later is its own bucket order from m. */
  lemma {:induction false} SortedIsBucketsFrom<T>(t: seq<T>, key: T -> Rarity, m: nat)
    requires m < 7
    requires SortedByDisplay(t, key)
    requires forall i :: 0 <= i < |t| ==> DisplayIndex(key(t[i])) >= m
    ensures BucketsFrom(t, key, m) == t
    decreases 7 - m
  {
    if m == 6 {
      BucketsOfSplit(t, [], key, m);
      assert t + [] == t;
    } else {
      var n := SortedSplit(t, key, m);
      SplitParts(t, key, m, n);
      SortedIsBucketsFrom(t[n..], key, m + 1);
      BucketsOfSplit(t[..n], t[n..], key, m);
      assert t[..n] + t[n..] == t;
    }
  }

  lemma {:induction false} SameGroupsSameBuckets<T>(s: seq<T>, t: seq<T>, key: T -> Rarity, m: nat)
    requires m <= 7
    requires SameGroups(s, t, key)
    ensures BucketsFrom(s, key, m) == BucketsFrom(t, key, m)
    decreases 7 - m
  {
    if m < 7 {
      SameGroupsSameBuckets(s, t, key, m + 1);
      assert Filter(s, KeyIs(key, RarityAt(m))) == Filter(t, KeyIs(key, RarityAt(m)));
    }
  }

  /**
   * The reference order is the only stable sort: a sorted sequence with the
   * same groups as s is ByDisplayOrder(s).
   */
  lemma StableSortIsUnique<T>(s: seq<T>, t: seq<T>, key: T -> Rarity)
    requires SortedByDisplay(t, key) && SameGroups(t, s, key)
    ensures t == ByDisplayOrder(s, key)
  {
    SortedIsBucketsFrom(t, key, 0);
    SameGroupsSameBuckets(t, s, key, 0);
  }

  /** Exchanging two neighbours of different rarities keeps every group as it was. */
  lemma SwapKeepsGroups<T>(s: seq<T>, j: nat, key: T -> Rarity)
    requires j + 1 < |s| && key(s[j]) != key(s[j + 1])
    ensures SameGroups(s[j := s[j + 1]][j + 1 := s[j]], s, key)
  {
    var t := s[j := s[j + 1]][j + 1 := s[j]];
    var front, back := s[..j], s[j + 2..];
    assert s == front + [s[j], s[j + 1]] + back;
    assert t == front + [s[j + 1], s[j]] + back;
    forall r: Rarity
      ensures Filter(t, KeyIs(key, r)) == Filter(s, KeyIs(key, r))
    {
      var p := KeyIs(key, r);
      FilterAppend(front + [s[j], s[j + 1]], back, p);
      FilterAppend(front, [s[j], s[j + 1]], p);
      FilterAppend(front + [s[j + 1], s[j]], back, p);
      FilterAppend(front, [s[j + 1], s[j]], p);
      assert [s[j], s[j + 1]][1..] == [s[j + 1]];
      assert [s[j + 1], s[j]][1..] == [s[j]];
    }
  }

  /** The first n elements are in display order. */
  predicate SortedPrefix<T>(s: seq<T>, n: nat, key: T -> Rarity)
    requires n <= |s|
  {
    forall k, l :: 0 <= k < l < n ==> DisplayIndex(key(s[k])) <= DisplayIndex(key(s[l]))
  }

  /**
   * Midway through moving s[i] left to position j: s[..i + 1] is in display
   * order once s[j] is left out, and s[j] comes no later than anything after it.
   */
  predicate Sinking<T>(s: seq<T>, i: nat, j: nat, key: T -> Rarity)
    requires j <= i < |s|
  {
    && (forall k, l :: 0 <= k < l <= i && k != j && l != j ==> DisplayIndex(key(s[k])) <= DisplayIndex(key(s[l])))
    && (forall l :: j < l <= i ==> DisplayIndex(key(s[j])) <= DisplayIndex(key(s[l])))
  }

  lemma SinkingStarts<T>(s: seq<T>, i: nat, key: T -> Rarity)
    requires i < |s| && SortedPrefix(s, i, key)
    ensures Sinking(s, i, i, key)
  {
  }

  /** Exchanging s[j] with a left neighbour of a later rarity moves the sinking element one place left. */
  lemma SinkingSteps<T>(s: seq<T>, i: nat, j: nat, key: T -> Rarity)
    requires 0 < j <= i < |s| && Sinking(s, i, j, key)
    requires DisplayIndex(key(s[j - 1])) > DisplayIndex(key(s[j]))
    ensures Sinking(s[j - 1 := s[j]][j := s[j - 1]], i, j - 1, key)
  {
  }

  /** Once the sinking element meets no left neighbour of a later rarity, s[..i + 1] is in display order. */
  lemma SinkingEnds<T>(s: seq<T>, i: nat, j: nat, key: T -> Rarity)
    requires j <= i < |s| && Sinking(s, i, j, key)
    requires j == 0 || DisplayIndex(key(s[j - 1])) <= DisplayIndex(key(s[j]))
    ensures SortedPrefix(s, i + 1, key)
  {
  }

  /** Having the same groups is transitive. */
  lemma SameGroupsTrans<T>(s: seq<T>, t: seq<T>, u: seq<T>, key: T -> Rarity)
    requires SameGroups(s, t, key) && SameGroups(t, u, key)
    ensures SameGroups(s, u, key)
  {
  }

  /**
   * One pass of the insertion sort: a[i] moves left past every element of a
   * later rarity, so that a[..i + 1] becomes sorted; elements of one rarity
   * never pass each other.
   */
  method InsertLast<T>(a: array<T>, i: nat, key: T -> Rarity)
    requires i < a.Length && SortedPrefix(a[..], i, key)
    modifies a
    ensures SortedPrefix(a[..], i + 1, key)
    ensures SameGroups(a[..], old(a[..]), key)
  {
    SinkingStarts(a[..], i, key);
    var j := i;
    while j > 0 && DisplayIndex(key(a[j - 1])) > DisplayIndex(key(a[j]))
      invariant 0 <= j <= i
      invariant Sinking(a[..], i, j, key)
      invariant SameGroups(a[..], old(a[..]), key)
    {
      ghost var before := a[..];
      SwapKeepsGroups(before, j - 1, key);
      SinkingSteps(before, i, j, key);
      a[j - 1], a[j] := a[j], a[j - 1];
      assert a[..] == before[j - 1 := before[j]][j := before[j - 1]];
      SameGroupsTrans(a[..], before, old(a[..]), key);
      j := j - 1;
    }
    SinkingEnds(a[..], i, j, key);
  }

  /**
   * The card sort, in place: afterwards the array is sorted by display
   * index, each rarity's elements keep their relative order, and the result
   * is the reference order of the old contents (hence a permutation of them).
   */
  method SortByDisplayOrder<T>(a: array<T>, key: T -> Rarity)
    modifies a
    ensures SortedByDisplay(a[..], key)
    ensures SameGroups(a[..], old(a[..]), key)
    ensures a[..] == ByDisplayOrder(old(a[..]), key)
    ensures multiset(a[..]) == multiset(old(a[..]))
  {
    var i := 0;
    while i < a.Length
      invariant 0 <= i <= a.Length
      invariant SortedPrefix(a[..], i, key)
      invariant SameGroups(a[..], old(a[..]), key)
    {
      ghost var before := a[..];
      InsertLast(a, i, key);
      SameGroupsTrans(a[..], before, old(a[..]), key);
      i := i + 1;
    }
    assert SortedByDisplay(a[..], key);
    StableSortIsUnique(old(a[..]), a[..], key);
    ByDisplayOrderIsPermutation(old(a[..]), key);
  }

  /** A new array holding s, sorted in place by display order. */
  method SortedCopy<T>(s: seq<T>, key: T -> Rarity) returns (a: array<T>)
    ensures fresh(a)
    ensures a[..] == ByDisplayOrder(s, key)
    ensures SortedByDisplay(a[..], key) && multiset(a[..]) == multiset(s)
  {
    a := new T[|s|](i requires 0 <= i < |s| => s[i]);
    assert a[..] == s;
    SortByDisplayOrder(a, key);
  }
}
