/**
 * What the inventory panel derives from the player's results: the grouping by
 * rarity, the rarity filter, the per-rarity counts in display order, the
 * hell-mode rarity names, and the in-place display sort.
 */
module InventoryView {
  import opened SpinTypes
  import opened Seqs
  import opened RarityOrder

  /** `result.item.rarity`, the key results are grouped and sorted by. */
  function ResultRarity(result: SpinResult): Rarity
  {
    result.item.rarity
  }

  /** The results of rarity r, in their original order. */
  function Group(items: seq<SpinResult>, r: Rarity): (g: seq<SpinResult>)
    ensures forall i :: 0 <= i < |g| ==> g[i] in items && g[i].item.rarity == r
    ensures forall i :: 0 <= i < |items| && items[i].item.rarity == r ==> items[i] in g
  {
    ResultKeyIs(r);
    FilterMembers(items, KeyIs(ResultRarity, r));
    Filter(items, KeyIs(ResultRarity, r))
  }

  lemma ResultKeyIs(r: Rarity)
    ensures forall x :: KeyIs(ResultRarity, r)(x) <==> x.item.rarity == r
  {
    forall x: SpinResult {
      KeyIsHolds(ResultRarity, r, x);
    }
  }

  /** A rarity is a key exactly when it has results, and its entry is its group. */
  ghost predicate IsGrouping(groups: map<Rarity, seq<SpinResult>>, items: seq<SpinResult>)
  {
    forall r: Rarity :: (r in groups <==> Group(items, r) != []) && (r in groups ==> groups[r] == Group(items, r))
  }

  /** Taking one more result adds it to its own rarity's group and to no other. */
  lemma GroupGrows(items: seq<SpinResult>, i: nat, r: Rarity)
    requires i < |items|
    ensures Group(items[..i + 1], r) == Group(items[..i], r) + (if r == items[i].item.rarity then [items[i]] else [])
  {
    assert items[..i + 1] == items[..i] + [items[i]];
    assert [items[i]][1..] == [];
    FilterAppend(items[..i], [items[i]], KeyIs(ResultRarity, r));
    ResultKeyIs(r);
  }

  /**
   * `groupedItems`: the reduce that creates a list for a rarity the first time
   * one of its results appears and pushes each result onto its rarity's list.
   */
  method GroupByRarity(items: seq<SpinResult>) returns (groups: map<Rarity, seq<SpinResult>>)
    ensures IsGrouping(groups, items)
  {
    groups := map[];
    var i := 0;
    while i < |items|
      invariant 0 <= i <= |items|
      invariant IsGrouping(groups, items[..i])
    {
      var result := items[i];
      var rarity := result.item.rarity;
      if rarity !in groups {
        groups := groups[rarity := []];
      }
      groups := groups[rarity := groups[rarity] + [result]];
      forall r: Rarity {
        GroupGrows(items, i, r);
      }
      i := i + 1;
    }
    assert items[..i] == items;
  }

  /**
   * `filteredItems`: for "all" the results themselves, otherwise exactly the
   * results of the selected rarity, in their original order.
   */
  function FilteredItems(items: seq<SpinResult>, selected: RarityFilter): (shown: seq<SpinResult>)
    ensures selected.All? ==> shown == items
    ensures selected.Only? ==> shown == Group(items, selected.rarity)
    ensures selected.Only? ==> forall i :: 0 <= i < |shown| ==> shown[i].item.rarity == selected.rarity
    ensures selected.Only? ==> forall i :: 0 <= i < |items| && items[i].item.rarity == selected.rarity ==> items[i] in shown
  {
    match selected
    case All => items
    case Only(r) => Group(items, r)
  }

  /** One entry of `rarityCounts`. */
  datatype RarityCount = RarityCount(rarity: Rarity, count: nat, config: RarityConfig)

  /** `rarityCounts`: each rarity in display order with the size of its group, 0 when it has none. */
  function RarityCounts(groups: map<Rarity, seq<SpinResult>>): (counts: seq<RarityCount>)
    ensures |counts| == |DisplayOrder|
    ensures forall k :: 0 <= k < |counts| ==> counts[k].rarity == DisplayOrder[k] && counts[k].config == Config(DisplayOrder[k])
  {
    seq(7, k requires 0 <= k < 7 =>
      var r := DisplayOrder[k];
      RarityCount(r, if r in groups then |groups[r]| else 0, Config(r)))
  }

  /** The sum of the counts. */
  function TotalCount(counts: seq<RarityCount>): nat
  {
    if counts == [] then 0 else counts[0].count + TotalCount(counts[1..])
  }

  lemma {:induction false} TotalCountFrom(items: seq<SpinResult>, groups: map<Rarity, seq<SpinResult>>, m: nat)
    requires IsGrouping(groups, items)
    requires m <= 7
    ensures TotalCount(RarityCounts(groups)[m..]) == |BucketsFrom(items, ResultRarity, m)|
    decreases 7 - m
  {
    var counts := RarityCounts(groups);
    if m < 7 {
      TotalCountFrom(items, groups, m + 1);
      assert counts[m..][1..] == counts[m + 1..];
      DisplayOrderIsRarityAt(m);
      assert counts[m].count == |Group(items, DisplayOrder[m])|;
    }
  }

  /** Over the grouping of the results, each rarity's count is the number of its results (0 for an absent rarity). */
  lemma RarityCountIsGroupSize(items: seq<SpinResult>, groups: map<Rarity, seq<SpinResult>>, k: nat)
    requires IsGrouping(groups, items)
    requires k < 7
    ensures RarityCounts(groups)[k].count == |Group(items, DisplayOrder[k])|
    ensures RarityCounts(groups)[k].count == Count(items, KeyIs(ResultRarity, DisplayOrder[k]))
  {
  }

  /** Over the grouping of the results, the seven counts add up to the number of results. */
  lemma RarityCountsSumToLength(items: seq<SpinResult>, groups: map<Rarity, seq<SpinResult>>)
    requires IsGrouping(groups, items)
    ensures TotalCount(RarityCounts(groups)) == |items|
  {
    TotalCountFrom(items, groups, 0);
    ByDisplayOrderIsPermutation(items, ResultRarity);
    assert RarityCounts(groups)[0..] == RarityCounts(groups);
    assert |multiset(ByDisplayOrder(items, ResultRarity))| == |multiset(items)|;
  }

  /** The hell-mode name of each rarity. */
  function HellName(r: Rarity): string
  {
    match r
    case Common => "Пепел"
    case Uncommon => "Тлен"
    case Rare => "Проклятие"
    case Epic => "Кошмар"
    case Legendary => "Ужас"
    case Mythic => "Погибель"
    case Divine => "Адский"
  }

  /** `getHellRarityName`: the configured name, or in hell mode the rarity's hell name. */
  function GetHellRarityName(r: Rarity, hellMode: bool): (name: string)
    ensures !hellMode ==> name == Config(r).name
    ensures hellMode ==> name == HellName(r)
  {
    if !hellMode then Config(r).name else HellName(r)
  }

  /** In either mode the seven rarities get seven different names. */
  lemma RarityNamesDistinct(a: Rarity, b: Rarity, hellMode: bool)
    requires a != b
    ensures GetHellRarityName(a, hellMode) != GetHellRarityName(b, hellMode)
  {
  }

  /**
   * The cards the inventory tab shows, in the order it shows them. For "all"
   * the filtered list is the caller's own array, so the in-place sort reorders
   * the player's results themselves; for one rarity it is a new array and the
   * caller's array is untouched. An empty list is not sorted.
   */
  method DisplayedItems(items: array<SpinResult>, selected: RarityFilter) returns (shown: array<SpinResult>)
    modifies items
    ensures selected.All? ==> shown == items
    ensures selected.Only? ==> fresh(shown) && items[..] == old(items[..])
    ensures shown[..] == ByDisplayOrder(FilteredItems(old(items[..]), selected), ResultRarity)
    ensures SortedByDisplay(shown[..], ResultRarity)
    ensures multiset(shown[..]) == multiset(FilteredItems(old(items[..]), selected))
  {
    if selected.All? {
      shown := items;
      if shown.Length == 0 {
        assert shown[..] == [];
        StableSortIsUnique(shown[..], shown[..], ResultRarity);
        return;
      }
      SortByDisplayOrder(shown, ResultRarity);
    } else {
      shown := SortedCopy(FilteredItems(items[..], selected), ResultRarity);
    }
  }
}
