/**
 * What the collection panel derives from the player's pool and results: the
 * chance table, the unlocked ids, the rarity filter and the unlocked/locked
 * split, the per-rarity statistics, the completion percentage, the
 * non-divine progress, and the sorted card lists.
 *
 * The pool is `getPlayerItems(playerNickname, hellMode)`; the derivations are
 * stated for any pool.
 */
module CollectionView {
  import opened SpinTypes
  import opened Seqs
  import opened RarityOrder

  /** One entry of `getFormattedChances` (whose source is not part of this model); the chance is opaque. */
  datatype RarityChance<C> = RarityChance(rarity: Rarity, chance: C)

  /**
   * `chanceMap`: the reduce that writes each entry's chance under its rarity.
   * A rarity is a key exactly when some entry has it, and a later entry for
   * the same rarity overwrites an earlier one.
   */
  method ChanceMap<C>(chances: seq<RarityChance<C>>) returns (chanceMap: map<Rarity, C>)
    ensures forall r :: r in chanceMap <==> exists i :: 0 <= i < |chances| && chances[i].rarity == r
    ensures forall r :: r in chanceMap ==>
              exists i :: 0 <= i < |chances| && chances[i] == RarityChance(r, chanceMap[r])
                          && forall j :: i < j < |chances| ==> chances[j].rarity != r
  {
    chanceMap := map[];
    var n := 0;
    while n < |chances|
      invariant 0 <= n <= |chances|
      invariant forall r :: r in chanceMap <==> exists i :: 0 <= i < n && chances[i].rarity == r
      invariant forall r :: r in chanceMap ==>
                  exists i :: 0 <= i < n && chances[i] == RarityChance(r, chanceMap[r])
                              && forall j :: i < j < n ==> chances[j].rarity != r
    {
      chanceMap := chanceMap[chances[n].rarity := chances[n].chance];
      n := n + 1;
    }
  }

  /** `new Set(inventory.map(r => r.item.id))`. */
  function UnlockedIds(inventory: seq<SpinResult>): (ids: set<string>)
    ensures forall id :: id in ids <==> exists i :: 0 <= i < |inventory| && inventory[i].item.id == id
  {
    set i | 0 <= i < |inventory| :: inventory[i].item.id
  }

  /** The ids of the pool's items. */
  function PoolIds(playerItems: seq<SpinItem>): (ids: seq<string>)
    ensures |ids| == |playerItems|
    ensures forall i :: 0 <= i < |playerItems| ==> ids[i] == playerItems[i].id
  {
    seq(|playerItems|, i requires 0 <= i < |playerItems| => playerItems[i].id)
  }

  /** `item.rarity`, the key cards are filtered and sorted by. */
  function ItemRarity(item: SpinItem): Rarity
  {
    item.rarity
  }

  lemma ItemKeyIs(r: Rarity)
    ensures forall x :: KeyIs(ItemRarity, r)(x) <==> x.rarity == r
  {
    forall x: SpinItem {
      KeyIsHolds(ItemRarity, r, x);
    }
  }

  /**
   * `filteredItems`: the whole pool for "all", otherwise exactly the pool
   * items of the selected rarity, in pool order.
   */
  function FilteredItems(playerItems: seq<SpinItem>, selected: RarityFilter): (cards: seq<SpinItem>)
    ensures selected.All? ==> cards == playerItems
    ensures selected.Only? ==> forall i :: 0 <= i < |cards| ==> cards[i] in playerItems && cards[i].rarity == selected.rarity
    ensures selected.Only? ==> forall i :: 0 <= i < |playerItems| && playerItems[i].rarity == selected.rarity ==> playerItems[i] in cards
    ensures selected.Only? ==> cards == Filter(playerItems, KeyIs(ItemRarity, selected.rarity))
  {
    match selected
    case All => playerItems
    case Only(r) =>
      ItemKeyIs(r);
      FilterMembers(playerItems, KeyIs(ItemRarity, r));
      Filter(playerItems, KeyIs(ItemRarity, r))
  }

  /** Whether a card's id has been won. */
  function IsUnlocked(ids: set<string>): SpinItem -> bool
  {
    (item: SpinItem) => item.id in ids
  }

  /** Whether a card's id has not been won. */
  function IsLocked(ids: set<string>): SpinItem -> bool
  {
    (item: SpinItem) => item.id !in ids
  }

  /** `unlockedItems`: the filtered cards whose id has been won, in pool order. */
  function UnlockedItems(playerItems: seq<SpinItem>, inventory: seq<SpinResult>, selected: RarityFilter): (cards: seq<SpinItem>)
    ensures forall i :: 0 <= i < |cards| ==> cards[i] in FilteredItems(playerItems, selected) && cards[i].id in UnlockedIds(inventory)
    ensures cards == Filter(FilteredItems(playerItems, selected), IsUnlocked(UnlockedIds(inventory)))
  {
    FilterMembers(FilteredItems(playerItems, selected), IsUnlocked(UnlockedIds(inventory)));
    Filter(FilteredItems(playerItems, selected), IsUnlocked(UnlockedIds(inventory)))
  }

  /** `lockedItems`: the filtered cards whose id has not been won, in pool order. */
  function LockedItems(playerItems: seq<SpinItem>, inventory: seq<SpinResult>, selected: RarityFilter): (cards: seq<SpinItem>)
    ensures forall i :: 0 <= i < |cards| ==> cards[i] in FilteredItems(playerItems, selected) && cards[i].id !in UnlockedIds(inventory)
    ensures cards == Filter(FilteredItems(playerItems, selected), IsLocked(UnlockedIds(inventory)))
  {
    FilterMembers(FilteredItems(playerItems, selected), IsLocked(UnlockedIds(inventory)));
    Filter(FilteredItems(playerItems, selected), IsLocked(UnlockedIds(inventory)))
  }

  /**
   * The unlocked and the locked cards partition the filtered cards: no card is
   * in both, every filtered card is in one, and together they are the
   * filtered cards with their multiplicities.
   */
  lemma UnlockedLockedPartition(playerItems: seq<SpinItem>, inventory: seq<SpinResult>, selected: RarityFilter)
    ensures var u, l := UnlockedItems(playerItems, inventory, selected), LockedItems(playerItems, inventory, selected);
      && (forall i, j :: 0 <= i < |u| && 0 <= j < |l| ==> u[i] != l[j])
      && multiset(u) + multiset(l) == multiset(FilteredItems(playerItems, selected))
      && |u| + |l| == |FilteredItems(playerItems, selected)|
  {
    var f := FilteredItems(playerItems, selected);
    var ids := UnlockedIds(inventory);
    var every := (item: SpinItem) => true;
    FilterDisjointUnion(f, every, IsUnlocked(ids), IsLocked(ids));
    FilterAll(f, every);
    assert |multiset(f)| == |f|;
  }

  /** One entry of the collection's `rarityCounts`. */
  datatype RarityStat = RarityStat(rarity: Rarity, total: nat, unlocked: nat, config: RarityConfig)

  /** Whether a card has rarity r and a won id. */
  function UnlockedOfRarity(ids: set<string>, r: Rarity): SpinItem -> bool
  {
    (item: SpinItem) => item.rarity == r && item.id in ids
  }

  /** `rarityCounts`: for each rarity in display order, its pool items and how many of them have been won. */
  function RarityStats(playerItems: seq<SpinItem>, inventory: seq<SpinResult>): (stats: seq<RarityStat>)
    ensures |stats| == 7
    ensures forall k :: 0 <= k < 7 ==> stats[k].rarity == DisplayOrder[k] && stats[k].config == Config(DisplayOrder[k])
  {
    var ids := UnlockedIds(inventory);
    seq(7, k requires 0 <= k < 7 =>
      var r := DisplayOrder[k];
      RarityStat(r, |Filter(playerItems, KeyIs(ItemRarity, r))|, |Filter(playerItems, UnlockedOfRarity(ids, r))|, Config(r)))
  }

  /** In every rarity at most all of its items are unlocked. */
  lemma UnlockedAtMostTotal(playerItems: seq<SpinItem>, inventory: seq<SpinResult>, k: nat)
    requires k < 7
    ensures RarityStats(playerItems, inventory)[k].unlocked <= RarityStats(playerItems, inventory)[k].total
  {
    var r := DisplayOrder[k];
    ItemKeyIs(r);
    FilterStronger(playerItems, KeyIs(ItemRarity, r), UnlockedOfRarity(UnlockedIds(inventory), r));
  }

  /** The sum of the totals. */
  function TotalOfStats(stats: seq<RarityStat>): nat
  {
    if stats == [] then 0 else stats[0].total + TotalOfStats(stats[1..])
  }

  lemma {:induction false} TotalOfStatsFrom(playerItems: seq<SpinItem>, inventory: seq<SpinResult>, m: nat)
    requires m <= 7
    ensures TotalOfStats(RarityStats(playerItems, inventory)[m..]) == |BucketsFrom(playerItems, ItemRarity, m)|
    decreases 7 - m
  {
    var stats := RarityStats(playerItems, inventory);
    if m < 7 {
      TotalOfStatsFrom(playerItems, inventory, m + 1);
      DisplayOrderIsRarityAt(m);
      assert stats[m..][1..] == stats[m + 1..];
    }
  }

  /** The seven totals add up to the size of the pool. */
  lemma TotalsSumToPoolSize(playerItems: seq<SpinItem>, inventory: seq<SpinResult>)
    ensures TotalOfStats(RarityStats(playerItems, inventory)) == |playerItems|
  {
    TotalOfStatsFrom(playerItems, inventory, 0);
    ByDisplayOrderIsPermutation(playerItems, ItemRarity);
    assert RarityStats(playerItems, inventory)[0..] == RarityStats(playerItems, inventory);
    assert |multiset(ByDisplayOrder(playerItems, ItemRarity))| == |multiset(playerItems)|;
  }

  /** A number as `Math.floor` leaves it: an integer, or NaN (0/0), or Infinity (n/0 for n > 0). */
  datatype Percent = Finite(value: int) | NaN | Infinity

  /** `Math.floor((part / whole) * 100)` in exact arithmetic. */
  function FloorPercent(part: nat, whole: nat): (p: Percent)
    ensures p.NaN? <==> whole == 0 && part == 0
    ensures p.Infinity? <==> whole == 0 && part > 0
    ensures whole > 0 ==> p.Finite? && 0 <= p.value && p.value * whole <= 100 * part < (p.value + 1) * whole
  {
    if whole == 0 then (if part == 0 then NaN else Infinity)
    else Finite(100 * part / whole)
  }

  lemma {:induction false} MulMonotone(a: nat, b: nat, c: nat)
    requires a <= b
    ensures a * c <= b * c
  {
    if c > 0 {
      MulMonotone(a, b, c - 1);
      assert a * c == a * (c - 1) + a && b * c == b * (c - 1) + b;
    }
  }

  /** A share of at most the whole is at most 100%. */
  lemma FloorPercentAtMostHundred(part: nat, whole: nat)
    requires 0 < whole && part <= whole
    ensures FloorPercent(part, whole).value <= 100
  {
    var v := FloorPercent(part, whole).value;
    if v > 100 {
      MulMonotone(101, v, whole);
      assert false;
    }
  }

  /** `completionPercent`: the distinct won ids over the pool size, whether or not those ids are in the pool. */
  function CompletionPercent(playerItems: seq<SpinItem>, inventory: seq<SpinResult>): (p: Percent)
    ensures |playerItems| > 0 ==>
              && p.Finite? && 0 <= p.value
              && p.value * |playerItems| <= 100 * |UnlockedIds(inventory)| < (p.value + 1) * |playerItems|
    ensures |playerItems| == 0 ==> (p.NaN? <==> inventory == [])
  {
    assert inventory != [] ==> inventory[0].item.id in UnlockedIds(inventory);
    FloorPercent(|UnlockedIds(inventory)|, |playerItems|)
  }

  /** When every won id belongs to the pool, the percentage is at most 100. */
  lemma CompletionAtMostHundred(playerItems: seq<SpinItem>, inventory: seq<SpinResult>)
    requires |playerItems| > 0
    requires forall i :: 0 <= i < |inventory| ==> inventory[i].item.id in PoolIds(playerItems)
    ensures CompletionPercent(playerItems, inventory).value <= 100
  {
    var ids := UnlockedIds(inventory);
    var pool := ToSet(PoolIds(playerItems));
    assert ids <= pool;
    ToSetSize(PoolIds(playerItems));
    SubsetSize(ids, pool);
    FloorPercentAtMostHundred(|ids|, |playerItems|);
  }

  lemma {:induction false} SubsetSize<T>(a: set<T>, b: set<T>)
    requires a <= b
    ensures |a| <= |b|
  {
    assert b == a + (b - a);
  }

  /**
   * The as-written percentage counts ids the pool does not hold: a one-card
   * pool whose card has not been won, with one other item won, shows 100%
   * complete and no unlocked card.
   */
  lemma CompletionCountsIdsOutsidePool(card: SpinItem, won: SpinResult)
    requires card.id != won.item.id
    ensures CompletionPercent([card], [won]) == Finite(100)
    ensures UnlockedItems([card], [won], All) == []
  {
    var ids := UnlockedIds([won]);
    assert won.item.id in ids by {
      assert [won][0].item.id == won.item.id;
    }
    forall id | id in ids
      ensures id == won.item.id
    {
      var i :| 0 <= i < 1 && [won][i].item.id == id;
    }
    assert ids == {won.item.id};
    assert Filter([card], IsUnlocked({won.item.id})) == [];
  }

  /** The won ids that name a card of the pool. */
  function UnlockedPoolIds(playerItems: seq<SpinItem>, inventory: seq<SpinResult>): (ids: set<string>)
    ensures ids == UnlockedIds(inventory) * ToSet(PoolIds(playerItems))
  {
    UnlockedIds(inventory) * ToSet(PoolIds(playerItems))
  }

  /** The completion percentage over the pool's own ids only. */
  function PoolCompletionPercent(playerItems: seq<SpinItem>, inventory: seq<SpinResult>): (p: Percent)
    ensures |playerItems| > 0 ==> p.Finite? && 0 <= p.value <= 100
    ensures |playerItems| == 0 ==> p.NaN?
  {
    var ids := UnlockedPoolIds(playerItems, inventory);
    ToSetSize(PoolIds(playerItems));
    SubsetSize(ids, ToSet(PoolIds(playerItems)));
    if |playerItems| > 0 then
      FloorPercentAtMostHundred(|ids|, |playerItems|);
      FloorPercent(|ids|, |playerItems|)
    else
      FloorPercent(|ids|, |playerItems|)
  }

  /** Where every won id belongs to the pool, the two percentages agree. */
  lemma PoolCompletionAgreesOnPoolIds(playerItems: seq<SpinItem>, inventory: seq<SpinResult>)
    requires forall i :: 0 <= i < |inventory| ==> inventory[i].item.id in PoolIds(playerItems)
    ensures PoolCompletionPercent(playerItems, inventory) == CompletionPercent(playerItems, inventory)
  {
    assert UnlockedPoolIds(playerItems, inventory) == UnlockedIds(inventory);
  }

  /** Whether a card is not divine. */
  function NotDivine(item: SpinItem): bool
  {
    item.rarity != Divine
  }

  /** `nonDivineItems`: the pool without its divine items, in pool order. */
  function NonDivineItems(playerItems: seq<SpinItem>): (cards: seq<SpinItem>)
    ensures forall i :: 0 <= i < |cards| ==> cards[i] in playerItems && cards[i].rarity != Divine
    ensures forall i :: 0 <= i < |playerItems| && playerItems[i].rarity != Divine ==> playerItems[i] in cards
  {
    FilterMembers(playerItems, NotDivine);
    Filter(playerItems, NotDivine)
  }

  /** `nonDivineUnlocked`: how many non-divine cards have been won; never more than there are. */
  function NonDivineUnlocked(playerItems: seq<SpinItem>, inventory: seq<SpinResult>): (n: nat)
    ensures n <= |NonDivineItems(playerItems)|
  {
    |Filter(NonDivineItems(playerItems), IsUnlocked(UnlockedIds(inventory)))|
  }

  /**
   * The two card lists as shown: new arrays holding the unlocked and the
   * locked cards, each sorted in place by display order (stable, so cards of
   * one rarity stay in pool order).
   */
  method SortedCards(playerItems: seq<SpinItem>, inventory: seq<SpinResult>, selected: RarityFilter)
    returns (unlockedCards: array<SpinItem>, lockedCards: array<SpinItem>)
    ensures fresh(unlockedCards) && fresh(lockedCards)
    ensures unlockedCards[..] == ByDisplayOrder(UnlockedItems(playerItems, inventory, selected), ItemRarity)
    ensures lockedCards[..] == ByDisplayOrder(LockedItems(playerItems, inventory, selected), ItemRarity)
    ensures SortedByDisplay(unlockedCards[..], ItemRarity) && SortedByDisplay(lockedCards[..], ItemRarity)
    ensures multiset(unlockedCards[..]) == multiset(UnlockedItems(playerItems, inventory, selected))
    ensures multiset(lockedCards[..]) == multiset(LockedItems(playerItems, inventory, selected))
  {
    unlockedCards := SortedCopy(UnlockedItems(playerItems, inventory, selected), ItemRarity);
    lockedCards := SortedCopy(LockedItems(playerItems, inventory, selected), ItemRarity);
  }
}
